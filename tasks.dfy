/**
 * The two structs of the task system as objects whose fields change in
 * place: `notification_queue` and `task_system`. Each method is tied to the
 * value model of QueueModel and PoolModel, where its properties are proved.
 * Mutexes become boolean lock outcomes passed in; threads are not modelled.
 */
module Tasks {
  import Q = QueueModel
  import P = PoolModel

  /** A FIFO of string tasks with a one-way `done` flag. */
  class NotificationQueue {
    var q: seq<string>
    var done: bool

    /** The queue's data as a value. */
    function Value(): Q.Queue
      reads this
    {
      Q.Queue(q, done)
    }

    /** A new queue holds no task and is not done. */
    constructor ()
      ensures Value() == Q.Empty
    {
      q := [];
      done := false;
    }

    /** `try_pop`, given whether its non-blocking lock attempt succeeded. */
    method TryPop(acquired: bool) returns (str: string)
      modifies this
      ensures (str, Value()) == Q.TryPop(old(Value()), acquired)
    {
      if !acquired || q == [] {
        return Q.Nothing;
      }
      str := q[0];
      q := q[1..];
    }

    /** `try_push`, given whether its non-blocking lock attempt succeeded. */
    method TryPush(acquired: bool, str: string) returns (ok: bool)
      modifies this
      ensures (ok, Value()) == Q.TryPush(old(Value()), acquired, str)
    {
      if !acquired {
        return false;
      }
      q := q + [str];
      ok := true;
    }

    /** `pop`, taken once the wake-up predicate `!q.empty() || done` holds. */
    method Pop() returns (str: string)
      requires Q.Ready(Value())
      modifies this
      ensures (str, Value()) == Q.Pop(old(Value()))
    {
      if q == [] {
        return Q.Nothing;
      }
      str := q[0];
      q := q[1..];
    }

    /** `push`: appends at the back, whatever `done` says. */
    method Push(str: string)
      modifies this
      ensures Value() == Q.Push(old(Value()), str)
    {
      q := q + [str];
    }

    /** `setDone`: raises `done`, tasks untouched. */
    method SetDone()
      modifies this
      ensures Value() == Q.SetDone(old(Value()))
    {
      done := true;
    }
  }

  /**
   * A fixed array of `count` queues and the submission counter `index`.
   * The worker threads are not part of this model.
   */
  class TaskSystem {
    const count: nat
    const queues: array<NotificationQueue>
    var index: nat

    /** One queue per worker, all of them distinct objects. */
    ghost predicate Valid()
      reads queues
    {
      && count > 0
      && queues.Length == count
      && forall j, k :: 0 <= j < k < queues.Length ==> queues[j] != queues[k]
    }

    /** The data of every queue, in index order. */
    ghost function Snapshot(): (r: seq<Q.Queue>)
      reads queues, queues[..]
      ensures |r| == queues.Length && forall k :: 0 <= k < queues.Length ==> r[k] == queues[k].Value()
    {
      seq(queues.Length, j reads queues, queues[..] requires 0 <= j < queues.Length => queues[j].Value())
    }

    /** The constructor, minus spawning the `nbWorker` threads. */
    constructor (nbWorker: nat)
      requires nbWorker > 0
      ensures Valid() && count == nbWorker && index == 0
      ensures Snapshot() == P.Initial(nbWorker)
      ensures fresh(queues) && forall j :: 0 <= j < queues.Length ==> fresh(queues[j])
    {
      var made: seq<NotificationQueue> := [];
      while |made| < nbWorker
        invariant |made| <= nbWorker
        invariant forall j :: 0 <= j < |made| ==> fresh(made[j]) && made[j].Value() == Q.Empty
        invariant forall j, k :: 0 <= j < k < |made| ==> made[j] != made[k]
      {
        var nq := new NotificationQueue();
        made := made + [nq];
      }
      count := nbWorker;
      queues := new NotificationQueue[nbWorker](j requires 0 <= j < |made| => made[j]);
      index := 0;
      new;
      assert queues[..] == made;
    }

    /**
     * `async(str)`: takes the counter value `i`, probes the queues
     * `(i + n) % count` for `n = 0 .. count - 1` with `try_push`, stopping at
     * the first success, and otherwise blocks in `push` on queue
     * `i % count`. `locks[n]` is the outcome of the n-th probe's lock attempt.
     */
    method Async(str: string, locks: seq<bool>)
      requires Valid() && |locks| == count
      modifies this, queues[..]
      ensures Valid() && index == old(index) + 1
      ensures Snapshot() == P.Async(old(Snapshot()), old(index), str, locks)
    {
      ghost var before := Snapshot();
      var i := index;
      index := index + 1;
      var n := 0;
      while n != count
        modifies queues[..]
        invariant 0 <= n <= count
        invariant forall k :: 0 <= k < n ==> !locks[k]
        invariant forall k :: 0 <= k < count ==> queues[k].Value() == before[k]
      {
        var t := (i + n) % count;
        var ok := queues[t].TryPush(locks[n], str);
        if ok {
          assert P.FirstSuccess(locks) == n;
          PushedOne(before, i, str, locks, t);
          return;
        }
        n := n + 1;
      }
      assert P.FirstSuccess(locks) == count;
      var home := i % count;
      queues[home].Push(str);
      PushedOne(before, i, str, locks, home);
    }

    /**
     * When queue `t`, the target of the placement rule, gained `str` at its
     * back and no other queue changed, the queues are as `async` promises.
     */
    lemma PushedOne(before: seq<Q.Queue>, i: nat, str: string, locks: seq<bool>, t: nat)
      requires Valid() && |before| == count && |locks| == count && t == P.Target(i, count, locks)
      requires queues[t].Value() == Q.Push(before[t], str)
      requires forall k :: 0 <= k < count && k != t ==> queues[k].Value() == before[k]
      ensures Snapshot() == P.Async(before, i, str, locks)
    {
      assert Snapshot() == before[t := Q.Push(before[t], str)];
    }

    /** `setDone`, minus joining the threads: every queue is marked done. */
    method SetDone()
      requires Valid()
      modifies queues[..]
      ensures Valid()
      ensures Snapshot() == P.SetAllDone(old(Snapshot()))
    {
      ghost var before := Snapshot();
      var n := 0;
      while n != count
        invariant 0 <= n <= count
        invariant forall k :: 0 <= k < n ==> queues[k].Value() == Q.SetDone(before[k])
        invariant forall k :: n <= k < count ==> queues[k].Value() == before[k]
      {
        queues[n].SetDone();
        n := n + 1;
      }
      assert Snapshot() == P.SetAllDone(before);
    }
  }

  /**
   * FIFO through the object: a new queue fed `xs` by `push` hands them back,
   * in order, to as many `pop` calls, and is empty afterwards.
   */
  method PushThenPop(xs: seq<string>) returns (popped: seq<string>, left: seq<string>)
    ensures popped == xs
    ensures left == []
  {
    var nq := new NotificationQueue();
    var n := 0;
    while n < |xs|
      invariant n <= |xs| && nq.q == xs[..n] && !nq.done
    {
      nq.Push(xs[n]);
      n := n + 1;
    }
    assert xs[..n] == xs;
    popped := [];
    while |popped| < |xs|
      invariant popped + nq.q == xs
    {
      var x := nq.Pop();
      popped := popped + [x];
    }
    left := nq.q;
  }
}
