/**
 The `simple_queue` table of the job queue, held in memory: a map from the
 AUTOINCREMENT id to the row stored under it. Each SQL statement the queue runs
 is a function on that map, and the rules the statements encode (the
 reservation order, the expiry test) are predicates on it.
 */
module Table {

  /** The job payload: opaque bytes the queue never interprets. */
  type Bytes = seq<bv8>

  /** STATE_UNKNOWN (0), STATE_READY (1) and STATE_RESERVED (2). No statement
      ever stores Unknown; it is the zero value of a job handle's State. */
  datatype State = Unknown | Ready | Reserved

  /** One row: the columns tube, priority, created, modified, state, data and
      ttr. Times are Unix seconds and ttr a number of seconds. */
  datatype Row = Row(
    tube: string,
    priority: int,
    created: int,
    modified: int,
    state: State,
    data: Bytes,
    ttr: int)

  type Rows = map<int, Row>

  /** The TTR that Put stores: a non-positive TTR becomes one second, so no
      stored job is ever without a deadline. */
  function NormalTtr(ttr: int): (r: int)
    ensures r >= 1
    ensures ttr >= 1 ==> r == ttr
  {
    if ttr <= 0 then 1 else ttr
  }

  /** `a` comes strictly before `b` under ORDER BY priority DESC, created ASC. */
  predicate Outranks(a: Row, b: Row)
  {
    a.priority > b.priority || (a.priority == b.priority && a.created < b.created)
  }

  predicate InTube(rows: Rows, tube: string, id: int)
  {
    id in rows && rows[id].tube == tube
  }

  /** `id` is a READY row of `tube`: one the Reserve query may select. */
  predicate ReadyIn(rows: Rows, tube: string, id: int)
  {
    InTube(rows, tube, id) && rows[id].state == Ready
  }

  predicate HasReady(rows: Rows, tube: string)
  {
    exists id :: id in rows && ReadyIn(rows, tube, id)
  }

  /** `id` is a row the Reserve query may return: READY in `tube`, and no
      other READY row of the tube strictly outranks it. Rows that tie on both
      priority and created are all eligible; SQL leaves their order open. */
  predicate IsNext(rows: Rows, tube: string, id: int)
  {
    && ReadyIn(rows, tube, id)
    && forall o | o in rows :: ReadyIn(rows, tube, o) ==> !Outranks(rows[o], rows[id])
  }

  /** The ids of every row of `tube`, whatever its state. */
  function TubeIds(rows: Rows, tube: string): set<int>
  {
    set id | id in rows && rows[id].tube == tube
  }

  /** `ids` is an answer to the Jobs query: every row of the tube exactly
      once, in priority DESC, created ASC order. */
  ghost predicate Listing(rows: Rows, tube: string, ids: seq<int>)
  {
    && (forall i :: 0 <= i < |ids| ==> InTube(rows, tube, ids[i]))
    && (forall i, k :: 0 <= i < k < |ids| ==> ids[i] != ids[k])
    && (forall id :: InTube(rows, tube, id) ==> id in ids)
    && (forall i, k :: 0 <= i < k < |ids| ==> !Outranks(rows[ids[k]], rows[ids[i]]))
  }

  /** The Jobs cursor after it has produced `ids`, with the rows `remaining`
      still to come; every row produced so far had a scannable priority. */
  ghost predicate Scanned(rows: Rows, tube: string, ids: seq<int>, remaining: set<int>)
  {
    && remaining <= TubeIds(rows, tube)
    && (forall i :: 0 <= i < |ids| ==>
          InTube(rows, tube, ids[i]) && ids[i] !in remaining && rows[ids[i]].priority >= 0)
    && (forall id :: InTube(rows, tube, id) ==> id in remaining || id in ids)
    && (forall i, k :: 0 <= i < k < |ids| ==> ids[i] != ids[k])
    && (forall i, k :: 0 <= i < k < |ids| ==> !Outranks(rows[ids[k]], rows[ids[i]]))
    && (forall i, o :: 0 <= i < |ids| && o in remaining ==> !Outranks(rows[o], rows[ids[i]]))
  }

  // The statements, one function each.

  /** INSERT of Put: a READY row under `id`, created = modified = now. */
  function Insert(rows: Rows, id: int, tube: string, priority: int, ttr: int, data: Bytes, now: int): Rows
  {
    rows[id := Row(tube, priority, now, now, Ready, data, NormalTtr(ttr))]
  }

  /** UPDATE of Reserve, keyed on the id only: state RESERVED, modified now. */
  function Claim(rows: Rows, id: int, now: int): Rows
  {
    if id in rows then rows[id := rows[id].(state := Reserved, modified := now)] else rows
  }

  /** The WHERE clause of the sweep: a reservation whose deadline has passed. */
  predicate Expired(r: Row, now: int)
  {
    r.state == Reserved && r.modified + r.ttr < now
  }

  /** UPDATE of Maintanence: every expired row goes back to READY. */
  function Expire(rows: Rows, now: int): Rows
  {
    map id | id in rows :: if Expired(rows[id], now) then rows[id].(state := Ready) else rows[id]
  }

  /** UPDATE of Touch, keyed on the id only: new modified and ttr. */
  function Rearm(rows: Rows, id: int, ttr: int, now: int): Rows
  {
    if id in rows then rows[id := rows[id].(modified := now, ttr := ttr)] else rows
  }

  // Properties of the rules.

  /** Some member of a non-empty set. */
  lemma Pick(s: set<int>) returns (x: int)
    requires s != {}
    ensures x in s
  {
    if forall y :: y !in s {
      assert false;
    }
    x :| x in s;
  }

  /** Every non-empty set of rows has a member that none of the set outranks. */
  lemma {:induction false} BestOf(rows: Rows, s: set<int>) returns (m: int)
    requires s != {} && s <= rows.Keys
    ensures m in s
    ensures forall o :: o in s ==> !Outranks(rows[o], rows[m])
    decreases s
  {
    var x := Pick(s);
    if s == {x} {
      m := x;
    } else {
      var rest := BestOf(rows, s - {x});
      m := if Outranks(rows[x], rows[rest]) then x else rest;
    }
  }

  /** Reserve finds a row exactly when the tube has a READY row. */
  lemma NextExists(rows: Rows, tube: string)
    ensures HasReady(rows, tube) <==> exists id :: IsNext(rows, tube, id)
  {
    if HasReady(rows, tube) {
      var w :| w in rows && ReadyIn(rows, tube, w);
      var ready := set id | id in rows && ReadyIn(rows, tube, id);
      assert w in ready;
      var m := BestOf(rows, ready);
      assert IsNext(rows, tube, m);
    }
  }

  /** The rows Reserve may choose between tie on both priority and created. */
  lemma NextIsUnique(rows: Rows, tube: string, a: int, b: int)
    requires IsNext(rows, tube, a) && IsNext(rows, tube, b)
    ensures rows[a].priority == rows[b].priority && rows[a].created == rows[b].created
  {
  }

  /** Successive reservations on one tube never go up in the order: after a
      row is claimed, the next one chosen is a different row that does not
      outrank it. */
  lemma SuccessiveReserves(rows: Rows, tube: string, a: int, now: int, b: int)
    requires IsNext(rows, tube, a) && IsNext(Claim(rows, a, now), tube, b)
    ensures b != a && !Outranks(rows[b], rows[a])
  {
    assert ReadyIn(rows, tube, b);
  }

  /** A row that has been claimed cannot be claimed again until it expires. */
  lemma ClaimedIsNotReady(rows: Rows, tube: string, a: int, now: int)
    requires a in rows
    ensures !ReadyIn(Claim(rows, a, now), tube, a)
    ensures a in Claim(rows, a, now)
  {
  }

  /** A row reserved at `t` goes back to READY in a sweep at `now` exactly
      when its deadline t + ttr is before `now`; nothing else changes. */
  lemma ReservationLapses(rows: Rows, a: int, t: int, now: int)
    requires a in rows
    ensures Expire(Claim(rows, a, t), now)[a].state == (if t + rows[a].ttr < now then Ready else Reserved)
    ensures Expire(Claim(rows, a, t), now)[a].(state := Reserved) == Claim(rows, a, t)[a]
  {
  }

  /** The sweep keeps the ids, changes no column but state, only turns
      RESERVED into READY, and leaves every unexpired row alone. */
  lemma ExpireOnlyRevives(rows: Rows, now: int)
    ensures Expire(rows, now).Keys == rows.Keys
    ensures forall id | id in rows ::
      && Expire(rows, now)[id].(state := rows[id].state) == rows[id]
      && (Expired(rows[id], now) ==> Expire(rows, now)[id].state == Ready)
      && (!Expired(rows[id], now) ==> Expire(rows, now)[id] == rows[id])
  {
  }

  /** Two sweeps at the same time do what one does. */
  lemma ExpireIdempotent(rows: Rows, now: int)
    ensures Expire(Expire(rows, now), now) == Expire(rows, now)
  {
  }

  /** A row touched at `t` with a TTR of `ttr` survives every sweep up to
      t + ttr, and Touch never changes a state. */
  lemma TouchedSurvivesSweep(rows: Rows, a: int, ttr: int, t: int, now: int)
    requires a in rows && now <= t + ttr
    ensures Rearm(rows, a, ttr, t)[a].state == rows[a].state
    ensures Expire(Rearm(rows, a, ttr, t), now)[a] == Rearm(rows, a, ttr, t)[a]
  {
  }

  /** A deleted row is never chosen again, not even after the next Put:
      while every id is below the AUTOINCREMENT counter `n`, the deleted id
      `a` is below it too, and Put inserts under `n` itself. */
  lemma DeletedIsNeverReserved(rows: Rows, a: int, n: int, tube: string,
                               t: string, p: int, ttr: int, data: Bytes, now: int)
    requires forall x | x in rows :: x < n
    requires a < n
    ensures !IsNext(rows - {a}, tube, a)
    ensures !IsNext(Insert(rows - {a}, n, t, p, ttr, data, now), tube, a)
    ensures forall x | x in Insert(rows - {a}, n, t, p, ttr, data, now) :: x < n + 1
  {
  }

  /** Before the first row, the whole tube is still to come. */
  lemma ScanStart(rows: Rows, tube: string)
    ensures Scanned(rows, tube, [], TubeIds(rows, tube))
  {
  }

  /** Producing a best remaining row keeps the cursor in order. */
  lemma ScanStep(rows: Rows, tube: string, ids: seq<int>, remaining: set<int>, id: int)
    requires Scanned(rows, tube, ids, remaining)
    requires id in remaining && rows[id].priority >= 0
    requires forall o | o in remaining :: !Outranks(rows[o], rows[id])
    ensures Scanned(rows, tube, ids + [id], remaining - {id})
  {
  }

  /** A cursor with nothing left has listed the tube, and no row of the tube
      has a negative priority. */
  lemma ScanDone(rows: Rows, tube: string, ids: seq<int>)
    requires Scanned(rows, tube, ids, {})
    ensures Listing(rows, tube, ids)
    ensures forall id :: InTube(rows, tube, id) ==> rows[id].priority >= 0
  {
  }

  /** A distinct sequence has as many members as its set. */
  lemma {:induction false} DistinctCard(ids: seq<int>)
    requires forall i, k :: 0 <= i < k < |ids| ==> ids[i] != ids[k]
    ensures |set i | i in ids| == |ids|
  {
    if ids != [] {
      DistinctCard(ids[1..]);
      assert (set i | i in ids) == (set i | i in ids[1..]) + {ids[0]};
      assert ids[0] !in ids[1..];
    }
  }

  /** Jobs lists as many handles as the tube has rows. */
  lemma ListingCount(rows: Rows, tube: string, ids: seq<int>)
    requires Listing(rows, tube, ids)
    ensures |ids| == |TubeIds(rows, tube)|
  {
    DistinctCard(ids);
    forall id | id in ids ensures id in TubeIds(rows, tube) {
      var k :| 0 <= k < |ids| && ids[k] == id;
      assert InTube(rows, tube, ids[k]);
    }
    forall id | id in TubeIds(rows, tube) ensures id in ids {
      assert InTube(rows, tube, id);
    }
    assert (set i | i in ids) == TubeIds(rows, tube);
  }

  /** Jobs and Reserve use the same order: the first READY row of a listing
      is one Reserve may return. */
  lemma ListingStartsWithNext(rows: Rows, tube: string, ids: seq<int>, i: int)
    requires Listing(rows, tube, ids)
    requires 0 <= i < |ids| && rows[ids[i]].state == Ready
    requires forall k :: 0 <= k < i ==> rows[ids[k]].state != Ready
    ensures IsNext(rows, tube, ids[i])
  {
  }
}
