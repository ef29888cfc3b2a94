/**
 * Value model of one `notification_queue`: the FIFO of string tasks and its
 * one-way `done` flag. The mutex is abstracted away: every `try_*` operation
 * is given the outcome of its lock attempt as a boolean, and `pop` is taken
 * at the moment its wake-up predicate holds.
 */
module QueueModel {

  /** The string a pop hands out when it has no task: the "nothing" sentinel. */
  const Nothing: string := ""

  /** The data a queue protects with its mutex. */
  datatype Queue = Queue(tasks: seq<string>, done: bool)

  /** A freshly constructed queue: no tasks, not done. */
  const Empty: Queue := Queue([], false)

  /** The predicate `pop` waits for on its condition variable. */
  predicate Ready(s: Queue) {
    s.tasks != [] || s.done
  }

  /** True when no queued task is the empty string. */
  predicate NoNothingQueued(s: Queue) {
    forall k :: 0 <= k < |s.tasks| ==> s.tasks[k] != Nothing
  }

  /**
   * `try_pop`: gives back the sentinel and leaves the queue alone when the
   * lock is not acquired or there is no task; otherwise hands out the front
   * task and removes exactly it.
   */
  function TryPop(s: Queue, acquired: bool): (r: (string, Queue))
    ensures r.1.done == s.done
    ensures !acquired || s.tasks == [] ==> r.0 == Nothing && r.1 == s
    ensures acquired && s.tasks != [] ==> [r.0] + r.1.tasks == s.tasks
  {
    if !acquired || s.tasks == [] then (Nothing, s)
    else (s.tasks[0], s.(tasks := s.tasks[1..]))
  }

  /** `push`: the task goes to the back, whether or not the queue is done. */
  function Push(s: Queue, str: string): (r: Queue)
    ensures r.tasks == s.tasks + [str]
    ensures r.done == s.done
  {
    s.(tasks := s.tasks + [str])
  }

  /**
   * `try_push`: reports whether the lock was acquired; only then does the
   * task go to the back of the queue.
   */
  function TryPush(s: Queue, acquired: bool, str: string): (r: (bool, Queue))
    ensures r.0 == acquired
    ensures r.1.done == s.done
    ensures acquired ==> r.1.tasks == s.tasks + [str]
    ensures !acquired ==> r.1 == s
  {
    if acquired then (true, Push(s, str)) else (false, s)
  }

  /**
   * `pop`, taken once its wake-up predicate holds: the sentinel when the
   * wait ended because of `done` with no task left, else the front task,
   * which is removed.
   */
  function Pop(s: Queue): (r: (string, Queue))
    requires Ready(s)
    ensures r.1.done == s.done
    ensures s.tasks == [] ==> s.done && r.0 == Nothing && r.1 == s
    ensures s.tasks != [] ==> [r.0] + r.1.tasks == s.tasks
  {
    if s.tasks == [] then (Nothing, s)
    else (s.tasks[0], s.(tasks := s.tasks[1..]))
  }

  /** `setDone`: raises the flag and never touches the tasks. */
  function SetDone(s: Queue): (r: Queue)
    ensures r.done && r.tasks == s.tasks
  {
    s.(done := true)
  }

  /** A run of `push` calls, one per element of `xs`, in order. */
  function PushAll(s: Queue, xs: seq<string>): (r: Queue)
    ensures r.tasks == s.tasks + xs
    ensures r.done == s.done
    decreases |xs|
  {
    if xs == [] then s
    else PushAll(Push(s, xs[0]), xs[1..])
  }

  /** A run of `n` `pop` calls; it never waits, as each finds a task. */
  function PopAll(s: Queue, n: nat): (r: (seq<string>, Queue))
    requires n <= |s.tasks|
    ensures r.0 == s.tasks[..n]
    ensures r.1.tasks == s.tasks[n..]
    ensures r.1.done == s.done
    decreases n
  {
    if n == 0 then ([], s)
    else
      var (x, s') := Pop(s);
      var (xs, s'') := PopAll(s', n - 1);
      ([x] + xs, s'')
  }

  /** A successful `try_push` has exactly the effect of `push`. */
  lemma TryPushAcquiredIsPush(s: Queue, str: string)
    ensures TryPush(s, true, str) == (true, Push(s, str))
  {
  }

  /** A `try_pop` that gets the lock behaves as `pop` wherever `pop` may proceed. */
  lemma TryPopAcquiredIsPop(s: Queue)
    requires Ready(s)
    ensures TryPop(s, true) == Pop(s)
  {
  }

  /**
   * The sentinel is not a distinct value: `pop` hands out "" exactly when
   * the queue is empty or its front task is itself "".
   */
  lemma PopNothingIff(s: Queue)
    requires Ready(s)
    ensures Pop(s).0 == Nothing <==> (s.tasks == [] || s.tasks[0] == Nothing)
  {
  }

  /** With no "" task queued, `pop` hands out the sentinel iff the queue is empty. */
  lemma PopNothingIffEmpty(s: Queue)
    requires Ready(s) && NoNothingQueued(s)
    ensures Pop(s).0 == Nothing <==> s.tasks == []
  {
    if s.tasks != [] {
      assert s.tasks[0] != Nothing;
    }
  }

  /** FIFO: pushes followed by as many pops return the tasks in order and empty the queue. */
  lemma Fifo(done: bool, xs: seq<string>)
    ensures PopAll(PushAll(Queue([], done), xs), |xs|) == (xs, Queue([], done))
  {
    var s := PushAll(Queue([], done), xs);
    assert s.tasks == xs;
    assert s.tasks[..|xs|] == xs;
  }

  /** Calling `setDone` twice is the same as calling it once. */
  lemma SetDoneIdempotent(s: Queue)
    ensures SetDone(SetDone(s)) == SetDone(s)
  {
  }

  /**
   * After `setDone`, `pop` still hands out the queued tasks in order, then
   * the drained queue gives the sentinel without waiting and without
   * changing.
   */
  lemma DrainAfterDone(s: Queue)
    ensures PopAll(SetDone(s), |s.tasks|) == (s.tasks, Queue([], true))
    ensures var left := PopAll(SetDone(s), |s.tasks|).1;
      Ready(left) && Pop(left) == (Nothing, left)
  {
    var d := SetDone(s);
    assert d.tasks[..|s.tasks|] == s.tasks;
  }

  /** `push` does not look at `done`: it appends after `setDone` too. */
  lemma PushAfterDone(s: Queue, str: string)
    ensures Push(SetDone(s), str) == Queue(s.tasks + [str], true)
  {
  }
}
