/**
 The queue of queue.go: a Queue object owning the job table, Job handles that
 Reserve and Jobs hand out, and Tube handles that bind a tube name to a queue.
 Each operation that touches the table runs in one transaction with one SQL
 statement, except Reserve, which SELECTs a row and then UPDATEs it by id in
 the same transaction; Jobs only reads and Tube runs no SQL. Here each is one
 atomic step on the table field, and the current Unix second `now` is passed
 in where the source reads the clock.
 */
module SimpleQueue {
  import opened Table

  class Queue {
    /** The rows of simple_queue, by id. */
    var rows: Rows
    /** The AUTOINCREMENT counter: the id the next INSERT receives. */
    var nextId: int

    /** Every id was handed out earlier, no row is in the Unknown state, and
        every stored TTR is at least one second. */
    ghost predicate Valid()
      reads this
    {
      && nextId >= 1
      && forall id | id in rows ::
           && 1 <= id < nextId
           && rows[id].state != Unknown
           && rows[id].ttr >= 1
    }

    /** A queue over a freshly created, empty table. */
    constructor ()
      ensures Valid()
      ensures rows == map[] && nextId == 1
    {
      rows := map[];
      nextId := 1;
    }

    /** Put: a non-positive TTR becomes one second, and one READY row is
        inserted under an id larger than every id handed out before. */
    method Put(tube: string, priority: int, ttr: int, data: Bytes, now: int)
      requires Valid()
      modifies this
      ensures Valid()
      ensures old(nextId) !in old(rows)
      ensures forall id | id in old(rows) :: id < old(nextId)
      ensures nextId == old(nextId) + 1
      ensures rows == Insert(old(rows), old(nextId), tube, priority, ttr, data, now)
    {
      rows := Insert(rows, nextId, tube, priority, ttr, data, now);
      nextId := nextId + 1;
    }

    /** Maintanence: in one bulk update, every RESERVED row whose deadline
        modified + ttr is before `now` becomes READY again. */
    method Maintanence(now: int)
      requires Valid()
      modifies this
      ensures Valid()
      ensures nextId == old(nextId)
      ensures rows == Expire(old(rows), now)
    {
      rows := Expire(rows, now);
    }

    /** Reserve: select the READY row of `tube` that comes first under
        priority DESC, created ASC, and claim it. With no READY row the
        result is null and no error. The priority is scanned into an unsigned
        integer, so when the chosen row has a negative priority the scan
        fails: Reserve returns null with an error and claims nothing. */
    method Reserve(tube: string, now: int) returns (j: Job?, failed: bool)
      requires Valid()
      modifies this
      ensures Valid()
      ensures nextId == old(nextId)
      ensures j == null && !failed <==> !HasReady(old(rows), tube)
      ensures failed <==> exists id :: IsNext(old(rows), tube, id) && old(rows)[id].priority < 0
      ensures j == null ==> rows == old(rows)
      ensures j != null ==>
        && fresh(j)
        && j.q == this
        && j.id < nextId
        && IsNext(old(rows), tube, j.id)
        && rows == Claim(old(rows), j.id, now)
        && j.Reserved(old(rows)[j.id], now)
    {
      NextExists(rows, tube);
      if !HasReady(rows, tube) {
        return null, false;
      }
      var id :| id in rows && IsNext(rows, tube, id);
      var row := rows[id];
      if row.priority < 0 {
        forall other | IsNext(rows, tube, other) ensures rows[other].priority < 0 {
          NextIsUnique(rows, tube, id, other);
        }
        return null, true;
      }
      j := new Job(this, id, tube, row.created, now, State.Reserved, row.priority, row.data, row.ttr);
      rows := Claim(rows, id, now);
      failed := false;
      forall other | IsNext(old(rows), tube, other) ensures old(rows)[other].priority >= 0 {
        NextIsUnique(old(rows), tube, id, other);
      }
    }

    /** Jobs: every row of `tube`, whatever its state, as a handle, in the
        order Reserve uses; read-only. The handles carry no queue, and their
        Created and Modified come back swapped: the query selects created,
        modified but scans them into Modified, Created. A row with a negative
        priority cannot be scanned, so then Jobs returns no handles and an
        error. */
    method Jobs(tube: string) returns (jobs: seq<Job>, failed: bool)
      ensures failed <==> exists id :: InTube(rows, tube, id) && rows[id].priority < 0
      ensures failed ==> jobs == []
      ensures !failed ==> Listing(rows, tube, IdsOf(jobs))
      ensures !failed ==> forall i :: 0 <= i < |jobs| ==>
        jobs[i].id in rows && jobs[i].Listed(rows[jobs[i].id])
    {
      var remaining := TubeIds(rows, tube);
      jobs := [];
      ScanStart(rows, tube);
      while remaining != {}
        invariant Scanned(rows, tube, IdsOf(jobs), remaining)
        invariant forall i :: 0 <= i < |jobs| ==> jobs[i].id in rows && jobs[i].Listed(rows[jobs[i].id])
        decreases remaining
      {
        ghost var best := BestOf(rows, remaining);
        var id :| id in remaining && forall o | o in remaining :: !Outranks(rows[o], rows[id]);
        var row := rows[id];
        if row.priority < 0 {
          return [], true;
        }
        var j := new Job(null, id, tube, row.modified, row.created, row.state, row.priority, row.data, row.ttr);
        ScanStep(rows, tube, IdsOf(jobs), remaining, id);
        assert IdsOf(jobs + [j]) == IdsOf(jobs) + [id];
        jobs := jobs + [j];
        remaining := remaining - {id};
      }
      ScanDone(rows, tube, IdsOf(jobs));
      failed := false;
    }

    /** Tube: a handle for the tube `name` on this queue. */
    method Tube(name: string) returns (t: Tube)
      ensures fresh(t)
      ensures t.q == this && t.name == name
    {
      t := new Tube(this, name);
    }
  }

  /** The ids of a list of handles, in order. */
  function IdsOf(jobs: seq<Job>): seq<int>
  {
    seq(|jobs|, i requires 0 <= i < |jobs| => jobs[i].id)
  }

  /** A job handle. Only Modified ever changes after it is made (Touch). */
  class Job {
    /** The queue the handle acts on; null for the handles Jobs returns. */
    const q: Queue?
    const id: int
    const tube: string
    const created: int
    var modified: int
    const state: State
    const priority: nat
    const data: Bytes
    /** TTR in seconds. */
    const ttr: int

    constructor (q: Queue?, id: int, tube: string, created: int, modified: int, state: State,
                 priority: nat, data: Bytes, ttr: int)
      ensures this.q == q && this.id == id && this.tube == tube && this.created == created
      ensures this.modified == modified && this.state == state && this.priority == priority
      ensures this.data == data && this.ttr == ttr
    {
      this.q := q;
      this.id := id;
      this.tube := tube;
      this.created := created;
      this.modified := modified;
      this.state := state;
      this.priority := priority;
      this.data := data;
      this.ttr := ttr;
    }

    /** The handle Reserve builds for `row`, claimed at `now`. */
    predicate Reserved(row: Row, now: int)
      reads this
    {
      && tube == row.tube && created == row.created && modified == now
      && state == State.Reserved && priority == row.priority && data == row.data && ttr == row.ttr
    }

    /** The handle Jobs builds for `row`: no queue, and created and modified
        exchanged. */
    predicate Listed(row: Row)
      reads this
    {
      && q == null
      && tube == row.tube && created == row.modified && modified == row.created
      && state == row.state && priority == row.priority && data == row.data && ttr == row.ttr
    }

    /** Delete: the row with this handle's id is gone and nothing else
        changes; an id that is already gone makes this a no-op. */
    method Delete()
      requires q != null && q.Valid()
      modifies q
      ensures q.Valid()
      ensures q.nextId == old(q.nextId)
      ensures q.rows == old(q.rows) - {id}
    {
      q.rows := q.rows - {id};
    }

    /** Touch: re-arm the deadline from `now`. A non-positive `ttr` reuses
        this handle's TTR. The row's state is not checked and not changed, and
        the handle's Modified becomes `now`. */
    method Touch(ttr: int, now: int)
      requires q != null && q.Valid() && this.ttr >= 1
      modifies this, q
      ensures q.Valid()
      ensures q.nextId == old(q.nextId)
      ensures modified == now
      ensures q.rows == Rearm(old(q.rows), id, if ttr <= 0 then this.ttr else ttr, now)
    {
      var armed := if ttr <= 0 then this.ttr else ttr;
      modified := now;
      q.rows := Rearm(q.rows, id, armed, now);
    }
  }

  /** A tube name bound to a queue; its operations only delegate. */
  class Tube {
    const q: Queue
    const name: string

    constructor (q: Queue, name: string)
      ensures this.q == q && this.name == name
    {
      this.q := q;
      this.name := name;
    }

    /** Put on the queue with this tube's name. */
    method Put(priority: int, ttr: int, data: Bytes, now: int)
      requires q.Valid()
      modifies q
      ensures q.Valid()
      ensures q.nextId == old(q.nextId) + 1
      ensures q.rows == Insert(old(q.rows), old(q.nextId), name, priority, ttr, data, now)
    {
      q.Put(name, priority, ttr, data, now);
    }

    /** Reserve on the queue with this tube's name. */
    method Reserve(now: int) returns (j: Job?, failed: bool)
      requires q.Valid()
      modifies q
      ensures q.Valid()
      ensures q.nextId == old(q.nextId)
      ensures j == null && !failed <==> !HasReady(old(q.rows), name)
      ensures failed <==> exists id :: IsNext(old(q.rows), name, id) && old(q.rows)[id].priority < 0
      ensures j == null ==> q.rows == old(q.rows)
      ensures j != null ==>
        && fresh(j)
        && j.q == q
        && j.id < q.nextId
        && IsNext(old(q.rows), name, j.id)
        && q.rows == Claim(old(q.rows), j.id, now)
        && j.Reserved(old(q.rows)[j.id], now)
    {
      j, failed := q.Reserve(name, now);
    }
  }
}
