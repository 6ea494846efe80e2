# simple-queue job table, modelled in Dafny

`queue.go` implements an embedded job queue on one SQLite table,
`simple_queue`. Producers `Put` jobs into named tubes with a priority and a
time-to-run (TTR). Consumers `Reserve` the next READY job of a tube. They then
`Delete` it or `Touch` it to extend the reservation. A background sweep,
`Maintanence`, turns every reservation whose deadline has passed back into a
READY job. Each operation that touches the table runs in one transaction and
uses one SQL statement, except Reserve, which SELECTs a row and then UPDATEs
it by id in the same transaction. `Jobs` only reads, and `Tube` runs no SQL.

The model keeps that table in memory and treats each operation as atomic:

- `table.dfy`, module `Table`, holds the data and the rules. A `Row` has the
  columns tube, priority, created, modified, state, data and ttr (in whole
  seconds). The table is a `map<int, Row>` keyed by id. Each SQL statement is a
  function on that map: `Insert`, `Claim`, `Expire`, `Rearm`, and map
  subtraction for DELETE. The rules those statements encode are predicates:
  - `Outranks` is the order `priority DESC, created ASC`.
  - `IsNext` holds for a READY row of the tube that no other READY row of
    the tube strictly outranks. Rows tied on priority and created are all
    eligible, because SQL leaves their order open.
  - `Expired` is `state = RESERVED AND modified + ttr < now`.
  - `Listing` describes a correct answer to the Jobs query.
  The module's lemmas state what these rules guarantee.
- `queue.dfy`, module `SimpleQueue`, holds the objects of `queue.go`:
  - `Queue` has the table and the AUTOINCREMENT counter `nextId` as fields,
    and its methods update them in place. `Valid()` says that every id is
    below `nextId`, that no row is in the Unknown state, and that every stored
    TTR is at least one second.
  - `Job` is a handle. `Touch` assigns its `modified` field.
  - `Tube` delegates to its queue.
  - The current Unix second `now` is a parameter wherever the source reads the
    clock.
- `scenarios.dfy`, module `Scenarios`, replays the tests of `queue_test.go`
  as sequential client code. The sleeps become later values of `now`. The
  three-second sweep ticker becomes an explicit `Maintanence` call. Two
  members are additions, not replays: `PriorityThenAge` shows the reservation
  order on three jobs, and `DeletedJobStaysGone` generalises TestJobDelete to
  any valid queue and any number of later Puts.

These points follow queue.go as written, where a reader might expect otherwise:

- Reserve's UPDATE is keyed on the id only, not on the state.
- Touch never checks the state. It re-arms whatever row has the handle's id.
  When its argument is not positive, it reuses the TTR recorded in the handle
  when Reserve built it. Touch never updates that recorded TTR.
- Jobs selects `created, modified` but scans them into `Modified, Created`.
  So every handle it returns has those two fields swapped.
- The handles Jobs returns carry no queue. Calling `Delete` or `Touch` on one
  would dereference nil.
- `Put` takes a signed priority, but `Reserve` and `Jobs` scan the priority
  into an unsigned integer. That conversion rejects a negative value.
  - If the row Reserve selects has a negative priority, Reserve returns no job
    and an error, and claims nothing.
  - If any row of the tube has a negative priority, Jobs returns no handles
    and an error.

## Model

| member | source | states |
|---|---|---|
| Table.NormalTtr | queue.go:121-123 | The TTR Put stores is at least one second. A positive TTR is kept unchanged. |
| Table.BestOf | queue.go:155 | Every non-empty set of rows has a member that no member of the set outranks under priority DESC, created ASC. |
| Table.NextExists | queue.go:155-171 | Reserve's query finds a row if and only if the tube has a READY row. |
| Table.NextIsUnique | queue.go:155 | Any two rows Reserve may choose have the same priority and the same created time. |
| Table.SuccessiveReserves | queue.go:155-175 | After a row is claimed, the next row Reserve picks on that tube is a different row that does not outrank the first. Reservations come out in non-increasing order. |
| Table.ClaimedIsNotReady | queue.go:175 | A claimed row stays in the table and is no longer READY, so no second Reserve can pick it. |
| Table.ReservationLapses | queue.go:91 | A row claimed at t becomes READY in a sweep at now exactly when t + ttr < now. The sweep changes no other column. |
| Table.ExpireOnlyRevives | queue.go:91 | The sweep keeps every id and changes only the state column. It turns each expired RESERVED row into READY and leaves every other row unchanged. |
| Table.ExpireIdempotent | queue.go:91 | Two sweeps at the same time give the same table as one sweep. |
| Table.TouchedSurvivesSweep | queue.go:253 | Touch keeps the row's state. A row touched at t with TTR ttr is unchanged by any sweep at now <= t + ttr. |
| Table.DeletedIsNeverReserved | queue.go:233 | While every id is below the AUTOINCREMENT counter, a deleted id is never chosen by Reserve, neither right after the DELETE nor after the next Put, which inserts under the counter itself; afterwards every id is still below the advanced counter, so the argument repeats for any number of Puts. |
| Table.ScanDone | queue.go:203-213 | When the Jobs cursor is exhausted, it has produced a correct listing, and no row of the tube has a negative priority. |
| Table.ListingCount | queue.go:194-213 | Jobs lists as many handles as the tube has rows. |
| Table.ListingStartsWithNext | queue.go:194 | The first READY row in a Jobs listing is a row Reserve may return, so Jobs and Reserve use the same order. |
| SimpleQueue.Queue.constructor | queue.go:72-77 | A new queue has an empty table, and its AUTOINCREMENT counter is at 1. |
| SimpleQueue.Queue.Put | queue.go:120-138 | Put inserts exactly one READY row with created = modified = now and the normalised TTR. The new id is larger than every earlier id. No existing row changes. |
| SimpleQueue.Queue.Maintanence | queue.go:84-97 | The table becomes Expire of the old table: every expired RESERVED row is READY again. The invariant is kept. |
| SimpleQueue.Queue.Reserve | queue.go:140-183 | With no READY row in the tube, Reserve returns null with no error and leaves the table unchanged. When the top READY row has a negative priority, Reserve returns an error and leaves the table unchanged. Otherwise it claims a row that no READY row of the tube outranks. Only that row's state (now RESERVED) and modified (now) change. The handle carries the row's id, which is below the AUTOINCREMENT counter, and its tube, created, priority, data and TTR. |
| SimpleQueue.Queue.Jobs | queue.go:186-224 | Jobs changes nothing. It lists every row of the tube once, in any state, ordered by priority DESC, created ASC. Each handle has no queue and has created and modified swapped. Jobs fails, with no handles, exactly when the tube has a row with a negative priority. |
| SimpleQueue.Queue.Tube | queue.go:260-265 | The handle is bound to this queue and to the given name. |
| SimpleQueue.Job.Delete | queue.go:226-239 | The row with the handle's id is removed and nothing else changes. An absent id makes Delete a no-op. |
| SimpleQueue.Job.Touch | queue.go:241-258 | The row with the handle's id gets modified = now and the given TTR. A non-positive TTR means the handle's own TTR. The state is never changed. An absent id is a no-op. The handle's modified becomes now. |
| SimpleQueue.Tube.Put | queue.go:267-269 | Same effect as Queue.Put with the tube's name. |
| SimpleQueue.Tube.Reserve | queue.go:271-273 | Same result and effect as Queue.Reserve with the tube's name. |
| Scenarios.PutThenReserve | queue_test.go:38-47 | A job that was put is reserved with its payload. |
| Scenarios.PutThenList | queue_test.go:49-57 | After one Put, Jobs lists exactly one handle. |
| Scenarios.ReserveTwice | queue_test.go:95-109 | After the only job is reserved, Reserve returns null with no error. |
| Scenarios.ReserveDeleteReserve | queue_test.go:59-73 | After the reserved job is deleted, Reserve returns null with no error. |
| Scenarios.ReserveLapseReserve | queue_test.go:75-93 | A job with TTR 1, reserved at 0 and swept at 3, is returned again by a Reserve at 10 with the same id and payload. |
| Scenarios.TouchKeepsReservation | queue_test.go:111-140 | A job with TTR 2 touched at 0, 1 and 2 survives the sweep at 3, so Reserve returns null. |
| Scenarios.PriorityThenAge | queue.go:155 | Of jobs with priorities 0, 5 and 5, put in that order, Reserve returns the older 5, then the newer 5, then the 0. |
| Scenarios.DeletedJobStaysGone | queue_test.go:59-73 | On any valid queue, a job that Reserve returned and that was then deleted is gone from the table and is not returned by a Reserve after any number of Puts to its tube, whatever their priorities. |

## Left out

- Opening the database and migrating its schema are not modelled. This covers `New`'s `migration.OpenWith`, `defaultGetVersion`, `defaultSetVersion`, `getVersion`, `setVersion` and `createVersionTable`. They are foreign calls into SQLite and a migration library. The `Queue` constructor starts from the empty table they create for a new file. Reopening an existing file, which keeps its rows and its AUTOINCREMENT counter, is not modelled; every method contract holds for any table and counter that satisfy `Valid()`.
- The wake channel `wait`, the `exit` channel, the ticker, the `maintanence` goroutine and `Close` are not modelled. They are concurrency plumbing. Sweeps are explicit `Maintanence` calls.
- Reserve's `timeout` parameter and its timed wait are dropped. Waiting does not touch the table. A later query is a Reserve with a later `now`.
- Put's send on `wait` is not modelled. This includes the fact that the send blocks while the buffer is full.
- Transactions, rollback and storage errors are not modelled. Every operation is atomic and cannot fail on storage. Besides success, the only outcomes modelled are the empty tube (no job, no error) and the failed priority scan. Put and Touch ignore the error from `Begin`, which only matters for I/O.
- Clock reads are not modelled. `now` is an integer Unix second given by the caller. The `time.Time` and `time.Duration` conversions are not modelled, including `TTR.Seconds()` returning a float. A handle's Modified keeps only whole seconds.
- Integers are unbounded. The model ignores 64-bit overflow, both in `modified + ttr` and when AUTOINCREMENT runs out of ids.
- Concurrency between operations is not modelled. In particular, a Touch can race with the sweep, and Reserve's UPDATE is keyed only on the id. Under atomic operations that key cannot matter.
- Job fields other than Modified are constants in the model. Go callers could assign them, but nothing in `queue.go` does.
- SimpleQueue.Job.Touch: requires a handle bound to a queue, which rules out the nil dereference on handles from Jobs. It also requires a TTR of at least one second. Every handle Reserve returns meets both conditions, because Reserve copies a stored TTR and every stored TTR is at least one second.
- SimpleQueue.Job.Delete: requires a handle bound to a queue, for the same nil dereference reason.
- A nil payload versus an empty payload is not distinguished. Data is a byte sequence.
