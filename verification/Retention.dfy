/**
  Retention: deleting old rows in batches, committing between batches, against a clock that
  moves on while the job works.
*/
module Retention {
  import opened Common

  const DELETE_BATCH_SIZE := 5000

  /** Identifier to the moment the retention rule looks at. */
  type Rows = map<nat, Time>

  function Doomed(rows: Rows, cutoff: Time): set<nat> {
    set id | id in rows && rows[id] < cutoff
  }

  function Below(ids: set<nat>, id: nat): set<nat> {
    set j | j in ids && j < id
  }

  function Rank(ids: set<nat>, id: nat): nat {
    |Below(ids, id)|
  }

  /** `ORDER BY id LIMIT n`, as a set. */
  function First(ids: set<nat>, n: nat): set<nat> {
    set id | id in ids && Rank(ids, id) < n
  }

  /** One statement: the first `size` rows past the cutoff go. */
  function Batch(rows: Rows, cutoff: Time, size: nat): Rows {
    rows - First(Doomed(rows, cutoff), size)
  }

  // ----- How much one batch takes -----

  ghost predicate Largest(ids: set<nat>, m: nat) {
    m in ids && forall j :: j in ids ==> j <= m
  }

  lemma {:induction false} HasLargest(ids: set<nat>)
    requires ids != {}
    ensures exists m :: Largest(ids, m)
    decreases ids
  {
    var x :| x in ids;
    var rest := ids - {x};
    if rest == {} {
      assert ids == {x} && Largest(ids, x);
    } else {
      HasLargest(rest);
      var m :| Largest(rest, m);
      assert forall j :: j in ids ==> j == x || j in rest;
      assert Largest(ids, if x < m then m else x);
    }
  }

  function Least(a: nat, b: nat): nat {
    if a < b then a else b
  }

  /** Dropping the last identifier leaves a limit that does not reach it alone. */
  lemma FirstWithoutLargest(ids: set<nat>, m: nat, n: nat)
    requires Largest(ids, m)
    ensures First(ids, n) == if n < |ids| then First(ids - {m}, n) else First(ids - {m}, n) + {m}
  {
    var rest := ids - {m};
    forall id | id in rest
      ensures Rank(ids, id) == Rank(rest, id)
    {
      assert Below(ids, id) == Below(rest, id);
    }
    assert Below(ids, m) == rest;
    assert |rest| == |ids| - 1;
  }

  /** A limit of n takes n, or all there are. */
  lemma {:induction false} LimitTakes(ids: set<nat>, n: nat)
    ensures |First(ids, n)| == Least(n, |ids|)
    decreases ids
  {
    if ids != {} {
      HasLargest(ids);
      var m :| Largest(ids, m);
      FirstWithoutLargest(ids, m, n);
      LimitTakes(ids - {m}, n);
      assert |ids - {m}| == |ids| - 1;
    }
  }

  lemma {:induction false} SubsetSize(a: set<nat>, b: set<nat>)
    requires a <= b
    ensures |a| <= |b|
    decreases a
  {
    if a != {} {
      var x :| x in a;
      SubsetSize(a - {x}, b - {x});
    }
  }

  /** Earlier identifiers go first. */
  lemma FirstIsDownwardClosed(ids: set<nat>, n: nat, a: nat, b: nat)
    requires a in ids && b in First(ids, n) && a < b
    ensures a in First(ids, n)
  {
    SubsetSize(Below(ids, a), Below(ids, b));
  }

  lemma BatchTakes(rows: Rows, cutoff: Time, size: nat)
    ensures |rows| - |Batch(rows, cutoff, size)| == Least(size, |Doomed(rows, cutoff)|)
  {
    var gone := First(Doomed(rows, cutoff), size);
    LimitTakes(Doomed(rows, cutoff), size);
    var kept := Batch(rows, cutoff, size);
    assert kept.Keys == rows.Keys - gone;
    assert gone <= rows.Keys;
    assert |rows.Keys - gone| == |rows.Keys| - |gone|;
    assert |rows| == |rows.Keys| && |kept| == |kept.Keys|;
  }

  // ----- The whole job -----

  /** What a table lost, and nothing else about it changed. */
  ghost predicate LostOnly(rows: Rows, now: Rows, cutoff: Time) {
    && (forall id :: id in now ==> id in rows && now[id] == rows[id])
    && (forall id :: id in rows && id !in now ==> rows[id] < cutoff)
  }

  function NotBefore(rows: Rows, cutoff: Time): Rows {
    map id | id in rows && !(rows[id] < cutoff) :: rows[id]
  }

  /** What the loop relies on in a batch: it takes at most `size` expired rows, and all of them if it comes back short. */
  ghost predicate Took(rows: Rows, next: Rows, cutoff: Time, size: nat) {
    && LostOnly(rows, next, cutoff)
    && |rows| - size <= |next| <= |rows|
    && (|rows| - size < |next| ==> next == NotBefore(rows, cutoff))
  }

  lemma ShortLimitTakesAll(ids: set<nat>, n: nat)
    requires |ids| <= n
    ensures First(ids, n) == ids
  {
    forall id | id in ids
      ensures id in First(ids, n)
    {
      SubsetSize(Below(ids, id), ids - {id});
    }
  }

  /** The statement does what the loop relies on. */
  lemma BatchTook(rows: Rows, cutoff: Time, size: nat)
    ensures Took(rows, Batch(rows, cutoff, size), cutoff, size)
  {
    BatchTakes(rows, cutoff, size);
    if |Doomed(rows, cutoff)| <= size {
      ShortLimitTakesAll(Doomed(rows, cutoff), size);
    }
  }

  /** A clock never goes back. */
  ghost predicate Monotone(clock: nat -> Time) {
    forall i: nat, j: nat :: i <= j ==> clock(i) <= clock(j)
  }

  ghost predicate TookAt(states: seq<Rows>, clock: nat -> Time, retention: Time, i: nat)
    requires i + 1 < |states|
  {
    Took(states[i], states[i + 1], clock(i) - retention, DELETE_BATCH_SIZE)
  }

  /** The table at the start and after each commit; the i-th batch uses the clock's i-th reading. */
  ghost predicate Batches(states: seq<Rows>, clock: nat -> Time, retention: Time) {
    |states| > 0 && forall i: nat :: i < |states| - 1 ==> TookAt(states, clock, retention, i)
  }

  predicate Full(states: seq<Rows>, i: nat)
    requires i + 1 < |states|
  {
    |states[i]| - |states[i + 1]| == DELETE_BATCH_SIZE
  }

  ghost predicate FirstFull(states: seq<Rows>, k: nat)
    requires k < |states|
  {
    forall i: nat :: i < k ==> Full(states, i)
  }

  /** A job under way: every batch so far was full. */
  ghost predicate Draining(states: seq<Rows>, clock: nat -> Time, retention: Time) {
    Batches(states, clock, retention) && FirstFull(states, |states| - 1)
  }

  /** A finished job: every batch was full except the last. */
  ghost predicate Drained(states: seq<Rows>, clock: nat -> Time, retention: Time) {
    && |states| > 1
    && Batches(states, clock, retention)
    && FirstFull(states, |states| - 2)
    && !Full(states, |states| - 2)
  }

  lemma ExtendBatches(states: seq<Rows>, clock: nat -> Time, retention: Time, next: Rows)
    requires Batches(states, clock, retention)
    requires Took(states[|states| - 1], next, clock(|states| - 1) - retention, DELETE_BATCH_SIZE)
    ensures Batches(states + [next], clock, retention)
  {
    var more, last := states + [next], |states| - 1;
    forall i: nat | i < |more| - 1
      ensures TookAt(more, clock, retention, i)
    {
      assert i < last ==> TookAt(states, clock, retention, i);
      assert more[i] == states[i] && more[i + 1] == if i < last then states[i + 1] else next;
    }
  }

  lemma ExtendFull(states: seq<Rows>, next: Rows, k: nat)
    requires k < |states| && FirstFull(states, k)
    ensures FirstFull(states + [next], k)
  {
    forall i: nat | i < k
      ensures Full(states + [next], i)
    {
      assert Full(states, i);
    }
  }

  lemma OneMoreBatch(states: seq<Rows>, clock: nat -> Time, retention: Time, next: Rows)
    requires Draining(states, clock, retention)
    requires Took(states[|states| - 1], next, clock(|states| - 1) - retention, DELETE_BATCH_SIZE)
    ensures var more := states + [next];
      if |states[|states| - 1]| - |next| == DELETE_BATCH_SIZE then Draining(more, clock, retention)
      else Drained(more, clock, retention)
  {
    ExtendBatches(states, clock, retention, next);
    ExtendFull(states, next, |states| - 1);
  }

  lemma LossesAddUp(rows: Rows, mid: Rows, now: Rows, early: Time, late: Time)
    requires LostOnly(rows, mid, early) && LostOnly(mid, now, late) && early <= late
    ensures LostOnly(rows, now, late)
  {
  }

  lemma LaterCutoff(rows: Rows, mid: Rows, early: Time, late: Time)
    requires LostOnly(rows, mid, early) && early <= late
    ensures NotBefore(mid, late) == NotBefore(rows, late)
  {
  }

  /** Stopping after any batch has deleted only rows past retention at that batch's reading of the clock. */
  lemma {:induction false} EveryCommitIsSafe(states: seq<Rows>, clock: nat -> Time, retention: Time, i: nat)
    requires Monotone(clock) && Batches(states, clock, retention) && i + 1 < |states|
    ensures LostOnly(states[0], states[i + 1], clock(i) - retention)
    decreases i
  {
    assert TookAt(states, clock, retention, i);
    if i > 0 {
      EveryCommitIsSafe(states, clock, retention, i - 1);
      LossesAddUp(states[0], states[i], states[i + 1], clock(i - 1) - retention, clock(i) - retention);
    }
  }

  /** A finished job leaves exactly the rows not older than the last reading allows. */
  lemma DrainIsExact(states: seq<Rows>, clock: nat -> Time, retention: Time)
    requires Monotone(clock) && Drained(states, clock, retention)
    ensures states[|states| - 1] == NotBefore(states[0], clock(|states| - 2) - retention)
  {
    var last := |states| - 2;
    assert TookAt(states, clock, retention, last);
    if last > 0 {
      EveryCommitIsSafe(states, clock, retention, last - 1);
      LaterCutoff(states[0], states[last], clock(last - 1) - retention, clock(last) - retention);
    }
  }

  lemma {:induction false} FullBatchesAddUp(states: seq<Rows>, k: nat)
    requires k < |states| && FirstFull(states, k)
    ensures |states[0]| - |states[k]| == k * DELETE_BATCH_SIZE
    decreases k
  {
    if k > 0 {
      FullBatchesAddUp(states, k - 1);
      assert Full(states, k - 1);
    }
  }

  /** The number of rows removed fixes the number of batches. */
  lemma BatchCount(states: seq<Rows>, clock: nat -> Time, retention: Time)
    requires Drained(states, clock, retention)
    ensures |states| - 1 == (|states[0]| - |states[|states| - 1]|) / 5000 + 1
  {
    var last := |states| - 2;
    FullBatchesAddUp(states, last);
    assert TookAt(states, clock, retention, last);
  }

  // ----- The job over its table -----

  class LogTable {
    var rows: Rows

    constructor (rows: Rows)
      ensures this.rows == rows
    {
      this.rows := rows;
    }

    method DeleteBatchBefore(cutoff: Time, size: nat) returns (affected: nat)
      modifies this
      ensures rows == Batch(old(rows), cutoff, size)
      ensures affected == |old(rows)| - |rows|
      ensures Took(old(rows), rows, cutoff, size)
    {
      var doomed := First(Doomed(rows, cutoff), size);
      BatchTakes(rows, cutoff, size);
      LimitTakes(Doomed(rows, cutoff), size);
      BatchTook(rows, cutoff, size);
      rows := rows - doomed;
      affected := |doomed|;
    }

    method PruneBatch(now: Time, retention: Time, size: nat) returns (affected: nat)
      modifies this
      ensures affected == |old(rows)| - |rows|
      ensures Took(old(rows), rows, now - retention, size)
    {
      affected := DeleteBatchBefore(now - retention, size);
    }

    /** Batch after batch, each at the clock's next reading, until one comes back short; `states` are the commits. */
    method Drain(clock: nat -> Time, retention: Time) returns (removed: nat, readings: nat, ghost states: seq<Rows>)
      requires Monotone(clock)
      modifies this
      ensures Drained(states, clock, retention) && states[0] == old(rows) && states[|states| - 1] == rows
      ensures readings == |states| - 1 == removed / 5000 + 1
      ensures rows == NotBefore(old(rows), clock(readings - 1) - retention)
      ensures removed == |old(rows)| - |rows|
    {
      removed := 0;
      readings := 0;
      states := [rows];
      while true
        invariant |states| == readings + 1 && states[0] == old(rows) && states[readings] == rows
        invariant removed == |old(rows)| - |rows|
        invariant Draining(states, clock, retention)
        decreases |rows|
      {
        var batch := PruneBatch(clock(readings), retention, DELETE_BATCH_SIZE);
        OneMoreBatch(states, clock, retention, rows);
        states := states + [rows];
        readings := readings + 1;
        removed := removed + batch;
        if batch < DELETE_BATCH_SIZE {
          break;
        }
      }
      DrainIsExact(states, clock, retention);
      BatchCount(states, clock, retention);
    }
  }
}
