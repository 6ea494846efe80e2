/**
 The sequential scenarios of queue_test.go, written as client code of the
 model and verified against its contracts: each replay creates a queue,
 performs the test's steps at explicit times, and promises in its
 postcondition what the test asserts. Two members are additions rather than
 replays: PriorityThenAge shows the reservation order on three jobs, and
 DeletedJobStaysGone generalises TestJobDelete to any valid queue given as a
 parameter and any number of later Puts. The sleeps of the tests become later
 values of `now`, and the background sweep that runs every three seconds in
 the tests becomes an explicit Maintanence call.
 */
module Scenarios {
  import opened Table
  import opened SimpleQueue

  /** The payload "testing" as ASCII bytes. */
  const Testing: Bytes := [0x74, 0x65, 0x73, 0x74, 0x69, 0x6e, 0x67]

  /** TestReserve: a job that was put is reserved with its payload intact. */
  method PutThenReserve() returns (data: Bytes)
    ensures data == Testing
  {
    var q := new Queue();
    q.Put("test", 0, 600, Testing, 0);
    assert ReadyIn(q.rows, "test", 1);
    var j, failed := q.Reserve("test", 0);
    data := j.data;
  }

  /** TestJobs: one job put, one handle listed. */
  method PutThenList() returns (count: nat, failed: bool)
    ensures count == 1 && !failed
  {
    var q := new Queue();
    q.Put("test", 0, 600, Testing, 0);
    var jobs;
    jobs, failed := q.Jobs("test");
    ListingCount(q.rows, "test", IdsOf(jobs));
    assert TubeIds(q.rows, "test") == {1};
    count := |jobs|;
  }

  /** TestEmpty: the only job is reserved, so a second Reserve finds nothing
      and reports no error. */
  method ReserveTwice() returns (data: Bytes, empty: bool)
    ensures data == Testing && empty
  {
    var q := new Queue();
    q.Put("test", 0, 600, Testing, 0);
    assert ReadyIn(q.rows, "test", 1);
    var j, failed := q.Reserve("test", 0);
    data := j.data;
    var j2, failed2 := q.Reserve("test", 0);
    empty := j2 == null && !failed2;
  }

  /** TestJobDelete: after the reserved job is deleted, Reserve finds
      nothing. */
  method ReserveDeleteReserve() returns (data: Bytes, empty: bool)
    ensures data == Testing && empty
  {
    var q := new Queue();
    q.Put("test", 0, 600, Testing, 0);
    assert ReadyIn(q.rows, "test", 1);
    var j, failed := q.Reserve("test", 0);
    data := j.data;
    j.Delete();
    var j2, failed2 := q.Reserve("test", 1);
    empty := j2 == null && !failed2;
  }

  /** TestExpire: a job put with a TTR of one second and reserved at 0 is
      READY again after the sweep at 3, so a Reserve at 10 returns it again. */
  method ReserveLapseReserve() returns (first: int, second: int, data: Bytes)
    ensures first == second && data == Testing
  {
    var q := new Queue();
    q.Put("test", 0, 1, Testing, 0);
    assert ReadyIn(q.rows, "test", 1);
    var j, failed := q.Reserve("test", 0);
    first := j.id;
    q.Maintanence(3);
    assert ReadyIn(q.rows, "test", 1);
    var j2, failed2 := q.Reserve("test", 10);
    second := j2.id;
    data := j2.data;
  }

  /** TestJobTouch: a job put with a TTR of two seconds is touched with the
      handle's TTR at 0, 1 and 2, so the sweep at 3 leaves it reserved and a
      Reserve at 3 finds nothing. */
  method TouchKeepsReservation() returns (empty: bool)
    ensures empty
  {
    var q := new Queue();
    q.Put("test", 0, 2, Testing, 0);
    assert ReadyIn(q.rows, "test", 1);
    var j, failed := q.Reserve("test", 0);
    j.Touch(0, 0);
    j.Touch(0, 1);
    j.Touch(0, 2);
    q.Maintanence(3);
    var j2, failed2 := q.Reserve("test", 3);
    empty := j2 == null && !failed2;
  }

  /** Reservation order: of two jobs with priority 5 and one with priority 0,
      the older priority-5 job comes first, then the newer, then the
      priority-0 job. */
  method PriorityThenAge() returns (order: seq<int>)
    ensures order == [2, 3, 1]
  {
    var q := new Queue();
    q.Put("t", 0, 60, Testing, 0);
    q.Put("t", 5, 60, Testing, 1);
    q.Put("t", 5, 60, Testing, 2);
    assert ReadyIn(q.rows, "t", 2);
    var a, fa := q.Reserve("t", 3);
    assert ReadyIn(q.rows, "t", 3);
    var b, fb := q.Reserve("t", 4);
    assert ReadyIn(q.rows, "t", 1);
    var c, fc := q.Reserve("t", 5);
    order := [a.id, b.id, c.id];
  }

  /** Delete is final: a job reserved and deleted is not returned by a later
      Reserve on its tube, whatever jobs were put in between and whatever
      their priorities, because every Put takes a new id from the counter. */
  method DeletedJobStaysGone(q: Queue, tube: string, priorities: seq<int>, now: int)
    returns (first: Job?, later: Job?)
    requires q.Valid()
    modifies q
    ensures first != null && later != null ==> later.id != first.id
    ensures first != null ==> first.id !in q.rows
  {
    var failed;
    first, failed := q.Reserve(tube, now);
    if first == null {
      later := null;
      return;
    }
    first.Delete();
    var i := 0;
    while i < |priorities|
      invariant 0 <= i <= |priorities|
      invariant q.Valid()
      invariant first.id !in q.rows && first.id < q.nextId
    {
      q.Put(tube, priorities[i], 600, Testing, now);
      i := i + 1;
    }
    later, failed := q.Reserve(tube, now);
  }
}
