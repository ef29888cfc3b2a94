# Multithreaded-Queue: the task queues, their scheduler and the lookup table

This project models the sequential logic behind the thread pool of the
Multithreaded-Queue repository, and proves properties of it in Dafny.

- `notification_queue` is a FIFO of string tasks with a one-way `done` flag.
  It offers `try_pop` and `try_push`, which never wait for the lock. It
  offers `pop`, which waits until there is a task or `done` is set. It offers
  `push` and `setDone`. The empty string `""` is the "nothing" answer of a
  pop.
- `task_system` owns `count` queues and an atomic submission counter
  `index`. `async(str)` takes the counter value `i`. It then tries `try_push`
  on the queues `(i + n) % count` for `n = 0 .. count - 1` and stops at the
  first success. If every probe fails, it falls back to a blocking `push` on
  the home queue `i % count`. `setDone` marks every queue done.
- `customTable` maps string keys to lists of strings. `insert` never
  overwrites an existing entry. `get` creates an empty entry on a miss, and
  `find` tests whether a key is present.

Locking is abstracted away. Every non-blocking lock attempt becomes a boolean
input: `acquired` for one queue, and `locks[n]` for the n-th probe of `async`.
`pop` is modelled at the moment its wake-up predicate holds, which is its
precondition `Ready`.

Files:

- `queue_model.dfy` (module `QueueModel`): the queue as a value
  `Queue(tasks, done)`, one function per operation, and the FIFO and `done`
  lemmas.
- `pool_model.dfy` (module `PoolModel`): the pool as a `seq<Queue>`, with the
  placement rule of `async`, `setDone` of the pool, runs of submissions, and
  the lemmas for no lost task and round-robin spread.
- `tasks.dfy` (module `Tasks`): the classes `NotificationQueue` (fields `q`
  and `done`) and `TaskSystem` (an `array<NotificationQueue>` and the counter
  `index`). Each method's postcondition ties the new state to the value
  model.
- `table_model.dfy` (module `TableModel`) and `custom_table.dfy` (module
  `ThreadClass`): `customTable` as a map value with its lemmas, and as a
  class with the field `theTable`.

Two behaviours of the code are easy to miss, and the model keeps both:

- The sentinel `""` is not a separate value. A task that is itself `""` is
  handed out by `pop` and `try_pop` exactly like "nothing". So `pop` returns
  `""` exactly when the queue is empty or its front task is `""`
  (`PopNothingIff`). It returns `""` iff the queue is empty only when no
  queued task is `""` (`PopNothingIffEmpty`).
- `push` and `try_push` do not look at `done`. A task pushed after `setDone`
  is still appended (`PushAfterDone`).

## Model

| member | source | states |
|---|---|---|
| QueueModel.Ready | tasks.hpp:46 | the wake-up predicate `pop` waits for: the queue holds a task or is done |
| QueueModel.TryPop | tasks.hpp:22-29 | with the lock missed or no task: returns `""` and the queue is unchanged; otherwise returns the front task and the queue is exactly the rest; `done` never changes |
| QueueModel.TryPush | tasks.hpp:31-41 | returns whether the lock was acquired; only then is the task appended at the back; `done` never changes |
| QueueModel.Pop | tasks.hpp:43-51 | callable only when the wait predicate holds; with no task (so `done` holds) returns `""` and changes nothing; otherwise returns the front and removes exactly it |
| QueueModel.Push | tasks.hpp:53-60 | the task is appended at the back and `done` is unchanged |
| QueueModel.SetDone | tasks.hpp:61-68 | `done` becomes true and the tasks are unchanged |
| QueueModel.PushAll | tasks.hpp:53-60 | a run of pushes appends its tasks at the back in order |
| QueueModel.PopAll | tasks.hpp:43-51 | `n` pops on a queue with at least `n` tasks never wait, return the first `n` tasks in order and leave the rest |
| QueueModel.TryPushAcquiredIsPush | tasks.hpp:31-41 | a `try_push` that gets the lock is exactly a `push` that reports true |
| QueueModel.TryPopAcquiredIsPop | tasks.hpp:22-29 | a `try_pop` that gets the lock is exactly a `pop` wherever `pop` may proceed |
| QueueModel.PopNothingIff | tasks.hpp:46-50 | `pop` returns `""` iff the queue is empty or its front task is `""` |
| QueueModel.PopNothingIffEmpty | tasks.hpp:46-50 | with no `""` task queued, `pop` returns `""` iff the queue is empty |
| QueueModel.Fifo | tasks.hpp:43-60 | pushes followed by as many pops return the tasks in insertion order and leave the queue empty |
| QueueModel.SetDoneIdempotent | tasks.hpp:61-68 | `setDone` twice is the same as once |
| QueueModel.DrainAfterDone | tasks.hpp:43-51 | after `setDone`, pops still hand out every queued task in order and leave an empty, done queue, on which `pop` returns `""` at once and changes nothing |
| QueueModel.PushAfterDone | tasks.hpp:53-60 | `push` after `setDone` still appends |
| PoolModel.Initial | tasks.hpp:85-88 | the constructor yields exactly `n` queues, each empty and not done |
| PoolModel.FirstSuccess | tasks.hpp:98-103 | the probe loop stops at the smallest offset whose lock was acquired: every earlier probe failed, and the result is `count` when all failed |
| PoolModel.Target | tasks.hpp:96-106 | the chosen queue is `(i + k) % count` for the smallest offset `k` whose try-lock succeeded, and `i % count` when none did |
| PoolModel.Async | tasks.hpp:94-107 | exactly one queue gains the task at its back; every other queue, and every `done` flag, is unchanged |
| PoolModel.AsyncPlacement | tasks.hpp:96-106 | with `k` the smallest offset whose try-lock succeeded, `async` appends the task to queue `(i + k) % count`, or to the home queue `i % count` when every probe failed, and changes no other queue |
| PoolModel.Submissions | tasks.hpp:94-107 | a run of `async` calls in which the m-th submits `strs[m]` with counter value `i + m` and probe outcomes `probes[m]`; its contract states only that the pool keeps its number of queues |
| PoolModel.AsyncAddsOne | tasks.hpp:94-107 | `async` adds exactly its task to the multiset of all queued tasks, so the total grows by exactly one |
| PoolModel.SubmissionsAddAll | tasks.hpp:94-107 | a run of `async` calls, under any lock outcomes, adds exactly the submitted tasks to the pool, none lost or duplicated |
| PoolModel.AsyncUncontended | tasks.hpp:98-102 | with no contention the first probe succeeds, so the task goes to the home queue `i % count` |
| PoolModel.OffsetsDistinct | tasks.hpp:101 | distinct probe offsets below `count` reach distinct queues |
| PoolModel.OffsetReaches | tasks.hpp:101 | every queue is reached from any counter value by some probe offset below `count` |
| PoolModel.RoundRobinMisses | tasks.hpp:96-101 | uncontended submissions leave every queue that none of their counter values reaches unchanged |
| PoolModel.RoundRobinHits | tasks.hpp:96-101 | up to `count` uncontended submissions from counter `i` put the `t`-th task at the back of queue `(i + t) % count` |
| PoolModel.RoundRobin | tasks.hpp:96-106 | `count` uncontended submissions from any counter value give every queue exactly one of the tasks, at its back |
| PoolModel.SetAllDone | tasks.hpp:108-113 | every queue is done and every queue's tasks are unchanged |
| PoolModel.SetAllDoneKeepsTasks | tasks.hpp:108-113 | marking the pool done changes the multiset of queued tasks not at all |
| PoolModel.SetAllDoneIdempotent | tasks.hpp:110-113 | marking every queue done twice is the same as marking them once |
| Tasks.NotificationQueue.constructor | tasks.hpp:17-18 | a new queue has no task and is not done |
| Tasks.NotificationQueue.TryPop | tasks.hpp:22-29 | the returned string and the new fields are those of `QueueModel.TryPop` on the old fields |
| Tasks.NotificationQueue.TryPush | tasks.hpp:31-41 | the returned flag and the new fields are those of `QueueModel.TryPush` on the old fields |
| Tasks.NotificationQueue.Pop | tasks.hpp:43-51 | requires the wait predicate; the returned string and the new fields are those of `QueueModel.Pop` |
| Tasks.NotificationQueue.Push | tasks.hpp:53-60 | the new fields are those of `QueueModel.Push` on the old fields |
| Tasks.NotificationQueue.SetDone | tasks.hpp:61-68 | the new fields are those of `QueueModel.SetDone` on the old fields |
| Tasks.PushThenPop | tasks.hpp:43-60 | on one queue object, pushing `xs` and then popping as many times returns `xs` in order and leaves no task |
| Tasks.TaskSystem.constructor | tasks.hpp:83-93 | `count == nbWorker > 0`, `index == 0`, and `nbWorker` fresh, distinct queues, each empty and not done |
| Tasks.TaskSystem.Async | tasks.hpp:94-107 | the counter grows by exactly one and the queues become `PoolModel.Async` of the old queues at the old counter value |
| Tasks.TaskSystem.SetDone | tasks.hpp:108-113 | the queues become `PoolModel.SetAllDone` of the old queues |
| TableModel.Insert | threadClass.hpp:48-52 | the key is present afterwards; an existing entry keeps its list; a new key maps to the inserted list; every other key is unchanged |
| TableModel.Find | threadClass.hpp:53-57 | `find(name)` holds exactly when `name` has an entry |
| TableModel.Get | threadClass.hpp:58-62 | returns the list now stored under the key; a present key leaves the table unchanged; an absent key gets the empty list; every other key is unchanged |
| TableModel.GetThenFind | threadClass.hpp:53-62 | after `get(k)`, `find(k)` holds |
| TableModel.GetIdempotent | threadClass.hpp:58-62 | a second `get` of the same key changes nothing and returns the same list |
| TableModel.InsertKeepsFirst | threadClass.hpp:48-52 | a second `insert` of a key never replaces the first value |
| TableModel.GetAfterInsert | threadClass.hpp:48-62 | `get` after `insert` returns the old list if the key was present, otherwise the inserted one |
| TableModel.InsertAfterGetMiss | threadClass.hpp:48-62 | after `get` on a missing key, `insert` of that key is ignored and the entry stays empty |
| TableModel.InsertThenFind | threadClass.hpp:48-56 | after `insert(k, v)`, `find(k)` holds |
| ThreadClass.CustomTable.constructor | threadClass.hpp:44 | a new table is empty |
| ThreadClass.CustomTable.Insert | threadClass.hpp:48-52 | the new table is `TableModel.Insert` of the old one |
| ThreadClass.CustomTable.Find | threadClass.hpp:53-57 | returns `TableModel.Find` of the table, so true iff the key is present, and modifies nothing |
| ThreadClass.CustomTable.Get | threadClass.hpp:58-62 | the returned list and the new table are those of `TableModel.Get` on the old table |

## Left out

- Threads are not modelled: creating the workers (tasks.hpp:89-92), joining them in `setDone` (tasks.hpp:114-117), and the caller-supplied worker function `f`. This is concurrency with foreign code.
- Mutexes, `std::try_to_lock` and `condition_variable` wait and notify are not modelled. Lock outcomes are inputs, and `pop`'s wait is its precondition. Wake-ups, lost notifications and interleavings such as `async` racing `setDone` belong to concurrency, not to this sequential model.
- Tasks.NotificationQueue.Pop: does not model the blocking wait itself; a caller must establish the wake-up predicate, as a woken thread would observe it.
- PoolModel.SetAllDoneIdempotent: covers only the queue-marking loop (tasks.hpp:110-113). The source's `setDone` then joins every worker (tasks.hpp:114-117), so a second call would throw at `join` on threads that are no longer joinable; joining is not modelled.
- `index` is a plain natural number. The atomicity of `index++` is not modelled, and neither are the overflow of the signed `int` counter and the negative remainder `(i + n) % count` would then give.
- `count` is a natural number with `nbWorker > 0` required by the `TaskSystem` constructor. The source does not check this; with `nbWorker == 0`, `i % count` divides by zero.
- The `printf` in the constructor (tasks.hpp:87) is I/O and is left out.
- ThreadClass.CustomTable.Get: returns the list by value. The source returns a pointer into the map, and later writes through that pointer are not modelled.
- The mutex of `customTable` only serialises calls and is not modelled.
- The commented-out `customWorkQ` (threadClass.hpp:9-39) is dead code.
