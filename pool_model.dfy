/**
 * Value model of a `task_system`'s queues: the placement rule of `async`,
 * the effect of `setDone` on every queue, and what a run of submissions
 * does to the pool. The outcome of every try-lock is an input: `locks[n]`
 * says whether the probe at offset `n` got its queue's lock.
 */
module PoolModel {
  import opened QueueModel

  /** The queues right after construction: `n` empty, not-done queues. */
  function Initial(n: nat): (qs: seq<Queue>)
    ensures |qs| == n
    ensures forall j :: 0 <= j < n ==> qs[j].tasks == [] && !qs[j].done
  {
    seq(n, _ => Empty)
  }

  /** The smallest probe offset whose try-lock succeeds, or |locks| when none does. */
  function FirstSuccess(locks: seq<bool>): (k: nat)
    ensures k <= |locks|
    ensures k < |locks| ==> locks[k]
    ensures forall n :: 0 <= n < k ==> !locks[n]
  {
    if locks == [] then 0
    else if locks[0] then 0
    else 1 + FirstSuccess(locks[1..])
  }

  /**
   * The queue `async` with counter value `i` puts its task in: the first
   * probed queue `(i + k) % count` whose lock was acquired, else the home
   * queue `i % count`.
   */
  function Target(i: nat, count: nat, locks: seq<bool>): (t: nat)
    requires count > 0 && |locks| == count
    ensures t < count
    ensures (exists k :: 0 <= k < count && locks[k]) ==>
      exists k :: 0 <= k < count && locks[k] && t == (i + k) % count &&
        forall n :: 0 <= n < k ==> !locks[n]
    ensures (forall n :: 0 <= n < count ==> !locks[n]) ==> t == i % count
  {
    var k := FirstSuccess(locks);
    if k < count then
      assert locks[k] && forall n :: 0 <= n < k ==> !locks[n];
      (i + k) % count
    else
      i % count
  }

  /**
   * `async(str)` with counter value `i`: exactly one queue gains `str` at
   * its back, no `done` flag changes and every other queue is unchanged.
   */
  function Async(qs: seq<Queue>, i: nat, str: string, locks: seq<bool>): (r: seq<Queue>)
    requires |qs| > 0 && |locks| == |qs|
    ensures |r| == |qs|
    ensures exists t :: (0 <= t < |qs| && r[t] == Push(qs[t], str) &&
      forall j :: 0 <= j < |qs| && j != t ==> r[j] == qs[j])
  {
    var t := Target(i, |qs|, locks);
    qs[t := Push(qs[t], str)]
  }

  /** The placement rule as one expression: the first successful probe, else home. */
  lemma TargetIsFirstSuccess(i: nat, count: nat, locks: seq<bool>)
    requires count > 0 && |locks| == count
    ensures var k := FirstSuccess(locks);
      Target(i, count, locks) == if k < count then (i + k) % count else i % count
  {
  }

  /**
   * Which queue `async` fills: with `k` the smallest offset whose try-lock
   * succeeded, queue `(i + k) % count` gains the task, and the home queue
   * `i % count` does when every probe failed.
   */
  lemma AsyncPlacement(qs: seq<Queue>, i: nat, str: string, locks: seq<bool>)
    requires |qs| > 0 && |locks| == |qs|
    ensures var k := FirstSuccess(locks);
      var t := if k < |qs| then (i + k) % |qs| else i % |qs|;
      Async(qs, i, str, locks) == qs[t := Push(qs[t], str)]
  {
    TargetIsFirstSuccess(i, |qs|, locks);
  }

  /** `setDone` of the pool: every queue done, every queue's tasks unchanged. */
  function SetAllDone(qs: seq<Queue>): (r: seq<Queue>)
    ensures |r| == |qs|
    ensures forall j :: 0 <= j < |qs| ==> r[j].done && r[j].tasks == qs[j].tasks
  {
    seq(|qs|, j requires 0 <= j < |qs| => SetDone(qs[j]))
  }

  /** Every task held by the pool, counted with multiplicity. */
  function AllTasks(qs: seq<Queue>): multiset<string>
  {
    if qs == [] then multiset{} else multiset(qs[0].tasks) + AllTasks(qs[1..])
  }

  /** Probe outcomes fit for a pool of `count` queues, one run per submission. */
  predicate WellFormedProbes(probes: seq<seq<bool>>, count: nat) {
    forall m :: 0 <= m < |probes| ==> |probes[m]| == count
  }

  /**
   * A run of `async` calls from counter value `i`: the `m`-th submits
   * `strs[m]` with counter `i + m` and probe outcomes `probes[m]`.
   */
  function Submissions(qs: seq<Queue>, i: nat, strs: seq<string>, probes: seq<seq<bool>>): (r: seq<Queue>)
    requires |qs| > 0 && |probes| == |strs| && WellFormedProbes(probes, |qs|)
    ensures |r| == |qs|
    decreases |strs|
  {
    if strs == [] then qs
    else Submissions(Async(qs, i, strs[0], probes[0]), i + 1, strs[1..], probes[1..])
  }

  /** Probe outcomes of a run of submissions in which no lock is ever contended. */
  predicate NoContention(probes: seq<seq<bool>>, count: nat) {
    && WellFormedProbes(probes, count)
    && forall m, n :: 0 <= m < |probes| && 0 <= n < count ==> probes[m][n]
  }

  /** The queue probe offset `t` reaches from counter value `i`. */
  function Slot(i: nat, t: nat, count: nat): (j: nat)
    requires count > 0
    ensures j < count
  {
    (i + t) % count
  }

  /** Pushing onto one queue adds exactly that task to the pool. */
  lemma {:induction false} AllTasksPush(qs: seq<Queue>, j: nat, str: string)
    requires j < |qs|
    ensures AllTasks(qs[j := Push(qs[j], str)]) == AllTasks(qs) + multiset{str}
    decreases |qs|
  {
    var qs' := qs[j := Push(qs[j], str)];
    var tail := qs[1..];
    if j == 0 {
      assert qs'[1..] == tail;
      assert qs'[0].tasks == qs[0].tasks + [str];
      assert AllTasks(qs') == multiset(qs[0].tasks) + multiset{str} + AllTasks(tail);
    } else {
      assert qs'[1..] == tail[j - 1 := Push(tail[j - 1], str)];
      AllTasksPush(tail, j - 1, str);
      assert AllTasks(qs') == multiset(qs[0].tasks) + (AllTasks(tail) + multiset{str});
    }
  }

  /** `async` adds exactly its task to the pool and loses none. */
  lemma AsyncAddsOne(qs: seq<Queue>, i: nat, str: string, locks: seq<bool>)
    requires |qs| > 0 && |locks| == |qs|
    ensures AllTasks(Async(qs, i, str, locks)) == AllTasks(qs) + multiset{str}
    ensures |AllTasks(Async(qs, i, str, locks))| == |AllTasks(qs)| + 1
  {
    AllTasksPush(qs, Target(i, |qs|, locks), str);
  }

  /** No submission is ever lost: the pool gains exactly the submitted tasks. */
  lemma {:induction false} SubmissionsAddAll(qs: seq<Queue>, i: nat, strs: seq<string>, probes: seq<seq<bool>>)
    requires |qs| > 0 && |probes| == |strs| && WellFormedProbes(probes, |qs|)
    ensures AllTasks(Submissions(qs, i, strs, probes)) == AllTasks(qs) + multiset(strs)
    ensures |AllTasks(Submissions(qs, i, strs, probes))| == |AllTasks(qs)| + |strs|
    decreases |strs|
  {
    if strs != [] {
      AsyncAddsOne(qs, i, strs[0], probes[0]);
      SubmissionsAddAll(Async(qs, i, strs[0], probes[0]), i + 1, strs[1..], probes[1..]);
      assert strs == [strs[0]] + strs[1..];
    }
  }

  /** Marking the pool done changes no queue's tasks. */
  lemma {:induction false} SetAllDoneKeepsTasks(qs: seq<Queue>)
    ensures AllTasks(SetAllDone(qs)) == AllTasks(qs)
    decreases |qs|
  {
    if qs != [] {
      assert SetAllDone(qs)[1..] == SetAllDone(qs[1..]);
      SetAllDoneKeepsTasks(qs[1..]);
    }
  }

  /** Marking every queue done twice is the same as marking them once. */
  lemma SetAllDoneIdempotent(qs: seq<Queue>)
    ensures SetAllDone(SetAllDone(qs)) == SetAllDone(qs)
  {
  }

  /** If `c > 0` and `c * m` lies strictly between `-c` and `c`, then `m == 0`. */
  lemma MultipleInRange(c: int, m: int)
    requires c > 0 && -c < c * m < c
    ensures m == 0
  {
  }

  /** Two numbers less than `c` apart with the same remainder modulo `c` are equal. */
  lemma SameRemainder(x: nat, y: nat, c: nat)
    requires c > 0 && x <= y < x + c && x % c == y % c
    ensures x == y
  {
    var m := y / c - x / c;
    assert y - x == c * (y / c) - c * (x / c);
    assert c * (y / c) - c * (x / c) == c * m;
    MultipleInRange(c, m);
  }

  /** Distinct probe offsets below `count` hit distinct queues. */
  lemma OffsetsDistinct(i: nat, a: nat, b: nat, count: nat)
    requires count > 0 && a < count && b < count && a != b
    ensures (i + a) % count != (i + b) % count
  {
    if (i + a) % count == (i + b) % count {
      if a < b { SameRemainder(i + a, i + b, count); } else { SameRemainder(i + b, i + a, count); }
    }
  }

  /** Every queue is reached from counter value `i` by some probe offset below `count`. */
  lemma OffsetReaches(i: nat, j: nat, count: nat) returns (t: nat)
    requires count > 0 && j < count
    ensures t < count && (i + t) % count == j
  {
    var r := i % count;
    var q := i / count;
    assert i == count * q + r;
    if j >= r {
      t := j - r;
      assert i + t == count * q + j;
      Remainder(i + t, count, q, j);
    } else {
      t := count - r + j;
      assert i + t == count * (q + 1) + j;
      Remainder(i + t, count, q + 1, j);
    }
  }

  /** The remainder is unique: `x == c * q + r` with `0 <= r < c` gives `x % c == r`. */
  lemma Remainder(x: nat, c: nat, q: int, r: nat)
    requires c > 0 && r < c && x == c * q + r
    ensures x % c == r
  {
    var m := q - x / c;
    assert c * q - c * (x / c) == c * m;
    assert c * m == x % c - r;
    MultipleInRange(c, m);
  }

  /** With no contention the first probe succeeds, so the task goes to the home queue. */
  lemma AsyncUncontended(qs: seq<Queue>, i: nat, str: string, locks: seq<bool>)
    requires |qs| > 0 && |locks| == |qs| && forall n :: 0 <= n < |locks| ==> locks[n]
    ensures Async(qs, i, str, locks) == qs[i % |qs| := Push(qs[i % |qs|], str)]
  {
    assert FirstSuccess(locks) == 0;
  }

  /** One uncontended submission, then the rest of the run. */
  lemma SubmissionsUncontendedStep(qs: seq<Queue>, i: nat, strs: seq<string>, probes: seq<seq<bool>>)
    requires |qs| > 0 && strs != [] && |probes| == |strs| && NoContention(probes, |qs|)
    ensures NoContention(probes[1..], |qs|)
    ensures Submissions(qs, i, strs, probes) ==
      Submissions(qs[i % |qs| := Push(qs[i % |qs|], strs[0])], i + 1, strs[1..], probes[1..])
  {
    AsyncUncontended(qs, i, strs[0], probes[0]);
  }

  /** The probe offsets after the first reach the queues of offsets 1, 2, ... and never the first. */
  lemma NextSlots(i: nat, t: nat, count: nat)
    requires t + 1 < count
    ensures Slot(i + 1, t, count) == Slot(i, t + 1, count) != Slot(i, 0, count)
  {
    OffsetsDistinct(i, 0, t + 1, count);
  }

  /**
   * Uncontended submissions leave alone every queue that none of their
   * counter values reaches.
   */
  lemma {:induction false} RoundRobinMisses(qs: seq<Queue>, i: nat, strs: seq<string>, probes: seq<seq<bool>>, j: nat)
    requires |qs| > 0 && |probes| == |strs| && NoContention(probes, |qs|)
    requires j < |qs| && forall t :: 0 <= t < |strs| ==> Slot(i, t, |qs|) != j
    ensures Submissions(qs, i, strs, probes)[j] == qs[j]
    decreases |strs|
  {
    var c := |qs|;
    if strs != [] {
      SubmissionsUncontendedStep(qs, i, strs, probes);
      var qs' := qs[i % c := Push(qs[i % c], strs[0])];
      assert Slot(i, 0, c) != j;
      var next := i + 1;
      forall t | 0 <= t < |strs| - 1
        ensures Slot(next, t, c) != j
      {
        assert Slot(i, t + 1, c) != j;
      }
      RoundRobinMisses(qs', i + 1, strs[1..], probes[1..], j);
    }
  }

  /** The first of a run of uncontended submissions lands at the back of its home queue. */
  lemma RoundRobinFirst(qs: seq<Queue>, i: nat, strs: seq<string>, probes: seq<seq<bool>>)
    requires |qs| > 0 && 0 < |strs| <= |qs| && |probes| == |strs| && NoContention(probes, |qs|)
    ensures Submissions(qs, i, strs, probes)[Slot(i, 0, |qs|)] == Push(qs[Slot(i, 0, |qs|)], strs[0])
  {
    var c := |qs|;
    var home := Slot(i, 0, c);
    SubmissionsUncontendedStep(qs, i, strs, probes);
    var qs' := qs[home := Push(qs[home], strs[0])];
    var next := i + 1;
    forall u | 0 <= u < |strs| - 1
      ensures Slot(next, u, c) != home
    {
      NextSlots(i, u, c);
    }
    RoundRobinMisses(qs', next, strs[1..], probes[1..], home);
  }

  /**
   * Round-robin spread, the prefix form: `m <= count` uncontended
   * submissions from counter `i` put `strs[t]` at the back of queue
   * `(i + t) % count`.
   */
  lemma {:induction false} RoundRobinHits(qs: seq<Queue>, i: nat, strs: seq<string>, probes: seq<seq<bool>>, t: nat)
    requires |qs| > 0 && |strs| <= |qs| && |probes| == |strs| && NoContention(probes, |qs|)
    requires t < |strs|
    ensures Submissions(qs, i, strs, probes)[Slot(i, t, |qs|)] == Push(qs[Slot(i, t, |qs|)], strs[t])
    decreases |strs|
  {
    if t == 0 {
      RoundRobinFirst(qs, i, strs, probes);
    } else {
      var rest := strs[1..];
      assert rest[t - 1] == strs[t];
      var c := |qs|;
      var home := Slot(i, 0, c);
      SubmissionsUncontendedStep(qs, i, strs, probes);
      var qs' := qs[home := Push(qs[home], strs[0])];
      var slot := Slot(i, t, c);
      NextSlots(i, t - 1, c);
      assert qs'[slot] == qs[slot];
      RoundRobinHits(qs', i + 1, rest, probes[1..], t - 1);
    }
  }

  /**
   * Queue `j` of `r` is queue `j` of `qs` with, at its back, the task some
   * probe offset from counter value `i` brings to it.
   */
  predicate GainsOneAt(qs: seq<Queue>, r: seq<Queue>, i: nat, strs: seq<string>, j: nat)
    requires 0 <= j < |qs| == |r|
  {
    exists t :: 0 <= t < |strs| && Slot(i, t, |qs|) == j && r[j] == Push(qs[j], strs[t])
  }

  /**
   * Round-robin spread: `count` uncontended submissions from any counter
   * value each land in a different queue, so every queue gains exactly one
   * of them, at its back.
   */
  lemma RoundRobin(qs: seq<Queue>, i: nat, strs: seq<string>, probes: seq<seq<bool>>)
    requires |qs| > 0 && |strs| == |qs| && |probes| == |strs| && NoContention(probes, |qs|)
    ensures forall j :: 0 <= j < |qs| ==> GainsOneAt(qs, Submissions(qs, i, strs, probes), i, strs, j)
  {
    forall j | 0 <= j < |qs|
      ensures GainsOneAt(qs, Submissions(qs, i, strs, probes), i, strs, j)
    {
      var t := OffsetReaches(i, j, |qs|);
      RoundRobinHits(qs, i, strs, probes, t);
    }
  }
}
