/** The two roll-up formulas: a task's percentage from its subtasks and a
    goal's percentage from its tasks, both rounded half up. */
module Rollup {
  import opened Records

  /** The nearest integer to p/q, halves rounded up, for p >= 0 and q > 0. */
  function RoundHalfUp(p: nat, q: nat): (r: nat)
    requires q > 0
    ensures 2 * q * r <= 2 * p + q < 2 * q * (r + 1)
  {
    var d := 2 * q;
    var x := 2 * p + q;
    var r := x / d;
    assert x == d * r + x % d && 0 <= x % d < d;
    assert d * (r + 1) == d * r + d;
    r
  }

  lemma MulLeftMono(q: nat, a: int, b: int)
    requires a <= b
    ensures q * a <= q * b
  {
    assert q * b - q * a == q * (b - a);
  }

  lemma MulLeftStrict(q: nat, a: int, b: int)
    requires q > 0 && a < b
    ensures q * a < q * b
  {
    assert q * b - q * a == q * (b - a);
    MulLeftMono(q, 1, b - a);
  }

  lemma MulLeftLess(q: nat, a: int, b: int)
    requires q > 0 && q * a < q * b
    ensures a < b
  {
    if a >= b {
      MulLeftMono(q, b, a);
      assert false;
    }
  }

  /** The rounding interval determines the rounded value. */
  lemma RoundIs(p: nat, q: nat, v: nat)
    requires q > 0
    requires 2 * q * v <= 2 * p + q < 2 * q * (v + 1)
    ensures RoundHalfUp(p, q) == v
  {
    var r := RoundHalfUp(p, q);
    assert 2 * q * r < 2 * q * (v + 1);
    MulLeftLess(2 * q, r, v + 1);
    assert 2 * q * v < 2 * q * (r + 1);
    MulLeftLess(2 * q, v, r + 1);
  }

  /** If p/q is at most c, so is its rounding. */
  lemma RoundAtMost(p: nat, q: nat, c: nat)
    requires q > 0 && p <= c * q
    ensures RoundHalfUp(p, q) <= c
  {
    var r := RoundHalfUp(p, q);
    assert 2 * q * r <= 2 * p + q;
    assert 2 * p + q < 2 * q * c + 2 * q;
    assert 2 * q * c + 2 * q == 2 * q * (c + 1);
    MulLeftLess(2 * q, r, c + 1);
  }

  /** Rounding is monotone in the quotient: p1/q1 <= p2/q2 gives round(p1/q1) <= round(p2/q2). */
  lemma RoundMonotone(p1: nat, q1: nat, p2: nat, q2: nat)
    requires q1 > 0 && q2 > 0
    requires p1 * q2 <= p2 * q1
    ensures RoundHalfUp(p1, q1) <= RoundHalfUp(p2, q2)
  {
    var r1 := RoundHalfUp(p1, q1);
    var r2 := RoundHalfUp(p2, q2);
    var q := q1 * q2;
    MulLeftStrict(q1, 0, q2);
    // Scale the interval of r1 by q2 and the interval of r2 by q1.
    MulLeftMono(q2, 2 * q1 * r1, 2 * p1 + q1);
    MulLeftStrict(q1, 2 * p2 + q2, 2 * q2 * (r2 + 1));
    ScaledBounds(p1, q1, p2, q2, r1, r2);
    MulLeftLess(q, 2 * r1, 2 * r2 + 2);
  }

  lemma ScaledBounds(p1: nat, q1: nat, p2: nat, q2: nat, r1: nat, r2: nat)
    requires p1 * q2 <= p2 * q1
    requires q2 * (2 * q1 * r1) <= q2 * (2 * p1 + q1)
    requires q1 * (2 * p2 + q2) < q1 * (2 * q2 * (r2 + 1))
    ensures (q1 * q2) * (2 * r1) < (q1 * q2) * (2 * r2 + 2)
  {
    assert q2 * (2 * q1 * r1) == (q1 * q2) * (2 * r1);
    assert q2 * (2 * p1 + q1) == 2 * (p1 * q2) + q1 * q2;
    assert q1 * (2 * p2 + q2) == 2 * (p2 * q1) + q1 * q2;
    assert q1 * (2 * q2 * (r2 + 1)) == (q1 * q2) * (2 * r2 + 2);
  }

  /** The number of completed subtasks in a list. */
  function Completed(ss: seq<Subtask>): (c: nat)
    ensures c <= |ss|
  {
    if ss == [] then 0 else (if ss[0].isCompleted then 1 else 0) + Completed(ss[1..])
  }

  /** All subtasks are completed exactly when the count reaches the total. */
  lemma {:induction false} CompletedAll(ss: seq<Subtask>)
    ensures Completed(ss) == |ss| <==> forall i :: 0 <= i < |ss| ==> ss[i].isCompleted
  {
    if ss != [] {
      CompletedAll(ss[1..]);
      assert forall i :: 1 <= i < |ss| ==> ss[i] == ss[1..][i - 1];
    }
  }

  /** No subtask is completed exactly when the count is zero. */
  lemma {:induction false} CompletedNone(ss: seq<Subtask>)
    ensures Completed(ss) == 0 <==> forall i :: 0 <= i < |ss| ==> !ss[i].isCompleted
  {
    if ss != [] {
      CompletedNone(ss[1..]);
      assert forall i :: 1 <= i < |ss| ==> ss[i] == ss[1..][i - 1];
    }
  }

  /** The sum of the progress values of a list of tasks. */
  function SumProgress(ts: seq<Task>): (s: nat)
  {
    if ts == [] then 0 else ts[0].progress + SumProgress(ts[1..])
  }

  /** Percentages sum to at most 100 per task. */
  lemma {:induction false} SumProgressBound(ts: seq<Task>)
    requires forall i :: 0 <= i < |ts| ==> ts[i].progress <= 100
    ensures SumProgress(ts) <= 100 * |ts|
  {
    if ts != [] {
      assert forall i :: 1 <= i < |ts| ==> ts[1..][i - 1] == ts[i];
      SumProgressBound(ts[1..]);
    }
  }

  /** Appending a task adds its progress to the sum. */
  lemma {:induction false} SumProgressAppend(ts: seq<Task>, t: Task)
    ensures SumProgress(ts + [t]) == SumProgress(ts) + t.progress
  {
    if ts == [] {
      assert [t][1..] == [];
    } else {
      assert (ts + [t])[1..] == ts[1..] + [t];
      SumProgressAppend(ts[1..], t);
    }
  }

  /** The progress of a task with the given (non-empty) list of subtasks:
      the percentage of them that are completed, rounded half up. */
  function TaskRollup(ss: seq<Subtask>): (r: nat)
    requires |ss| > 0
    ensures r <= 100
    ensures r == 0 <==> 200 * Completed(ss) < |ss|
    ensures r == 100 <==> 200 * (|ss| - Completed(ss)) <= |ss|
    ensures Completed(ss) == |ss| ==> r == 100
    ensures Completed(ss) == 0 ==> r == 0
  {
    TaskRollupBounds(|ss|, Completed(ss));
    RoundHalfUp(100 * Completed(ss), |ss|)
  }

  lemma TaskRollupBounds(n: nat, c: nat)
    requires 0 < n && c <= n
    ensures RoundHalfUp(100 * c, n) <= 100
    ensures RoundHalfUp(100 * c, n) == 0 <==> 200 * c < n
    ensures RoundHalfUp(100 * c, n) == 100 <==> 200 * (n - c) <= n
  {
    var r := RoundHalfUp(100 * c, n);
    RoundAtMost(100 * c, n, 100);
    if 200 * c < n { RoundIs(100 * c, n, 0); }
    if r == 0 { assert 200 * c + n < 2 * n; }
    if 200 * (n - c) <= n { RoundIs(100 * c, n, 100); }
    if r == 100 { assert 2 * n * 100 <= 200 * c + n; }
  }

  /** The progress of a goal with the given (non-empty) list of tasks: the
      unweighted mean of their progress values, rounded half up. */
  function GoalRollup(ts: seq<Task>): (r: nat)
    requires |ts| > 0
  {
    RoundHalfUp(SumProgress(ts), |ts|)
  }

  /** The mean of percentages is a percentage. */
  lemma GoalRollupBound(ts: seq<Task>)
    requires |ts| > 0
    requires forall i :: 0 <= i < |ts| ==> ts[i].progress <= 100
    ensures GoalRollup(ts) <= 100
  {
    SumProgressBound(ts);
    RoundAtMost(SumProgress(ts), |ts|, 100);
  }

  /** A task's progress is round(100 * completed / total), halves up. */
  lemma TaskRollupIsRounded(ss: seq<Subtask>)
    requires |ss| > 0
    ensures var r := TaskRollup(ss);
      2 * |ss| * r <= 200 * Completed(ss) + |ss| < 2 * |ss| * (r + 1)
  {
    var n, c := |ss|, Completed(ss);
    var r := RoundHalfUp(100 * c, n);
    assert TaskRollup(ss) == r;
    assert 2 * n * r <= 2 * (100 * c) + n < 2 * n * (r + 1);
  }

  /** A goal's progress is round(sum / count), halves up. */
  lemma GoalRollupIsRoundedMean(ts: seq<Task>)
    requires |ts| > 0
    ensures var r := GoalRollup(ts);
      2 * |ts| * r <= 2 * SumProgress(ts) + |ts| < 2 * |ts| * (r + 1)
  {
    var n, total := |ts|, SumProgress(ts);
    var r := RoundHalfUp(total, n);
    assert GoalRollup(ts) == r;
    assert 2 * n * r <= 2 * total + n < 2 * n * (r + 1);
  }
}
