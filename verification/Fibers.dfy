/** Vocabulary shared by the scheduler, the event table, the timers and the semaphores. */
module Fibers {

  type FiberId = nat
  type ThreadId = int

  /** The thread number that means "any worker" in a queue entry. */
  const ANY_THREAD: ThreadId := -1

  datatype Option<+T> = None | Some(value: T)

  /** The sequence without its element number `i`. */
  function RemoveAt<T>(q: seq<T>, i: nat): seq<T>
    requires i < |q|
  {
    q[..i] + q[i + 1..]
  }

  lemma {:induction false} Regroup<T>(a: seq<T>, b: seq<T>, c: seq<T>)
    ensures (a + b) + c == a + (b + c)
  {
  }

  ghost predicate Distinct<T(!new)>(xs: seq<T>) {
    forall a, b :: 0 <= a < b < |xs| ==> xs[a] != xs[b]
  }

  datatype FiberState = INIT | HOLD | EXEC | TERM | READY | EXCEPT

  datatype Event = Read | Write

  /** A `do_io` call in progress or past: its arguments, and a number that stands for the flag it shares
      with its timers. */
  datatype IoCall = IoCall(number: nat, fd: nat, event: Event)

  /** What a callback does when it is run. `ResumeFiber` is the callback the hooked sleep functions
      arm, `TimeoutCancel` the one `do_io` arms, `UserCallback` anything else. */
  datatype Callback =
    | ResumeFiber(fiber: FiberId)
    | TimeoutCancel(call: IoCall)
    | UserCallback(id: nat)

  /** The runnable object of a queue entry: a fiber or a callback, never both and never neither. */
  datatype Work = FiberWork(fiber: FiberId) | CallbackWork(cb: Callback)

  /** The fiber that running this callback would put back on the queue. */
  function CallbackToken(cb: Callback): Option<FiberId> {
    if cb.ResumeFiber? then Some(cb.fiber) else None
  }

  /** The fiber whose wake-up travels with this work. */
  function Token(work: Work): Option<FiberId> {
    match work
    case FiberWork(f) => Some(f)
    case CallbackWork(cb) => CallbackToken(cb)
  }
}
