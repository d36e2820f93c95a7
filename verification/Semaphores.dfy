/** The fiber semaphore: permits, and fibers parked in order of arrival. */
module Semaphores {
  import opened Fibers

  datatype Semaphore = Semaphore(concurrency: nat, waiters: seq<FiberId>)

  datatype Op = TryWait | Wait(fiber: FiberId) | Notify

  /** What one call does: the new semaphore, whether the caller got a permit at once, and the fiber
      that was parked or handed to the scheduler. */
  datatype Effect = Effect(sem: Semaphore, granted: bool, parked: seq<FiberId>, scheduled: seq<FiberId>)

  function Step(s: Semaphore, op: Op): Effect {
    match op
    case TryWait =>
      if s.concurrency > 0 then Effect(s.(concurrency := s.concurrency - 1), true, [], [])
      else Effect(s, false, [], [])
    case Wait(f) =>
      if s.concurrency > 0 then Effect(s.(concurrency := s.concurrency - 1), true, [], [])
      else Effect(s.(waiters := s.waiters + [f]), false, [f], [])
    case Notify =>
      if s.waiters != [] then Effect(s.(waiters := s.waiters[1..]), false, [], [s.waiters[0]])
      else Effect(s.(concurrency := s.concurrency + 1), false, [], [])
  }

  /** What a whole run did. Handing a parked fiber to the scheduler grants it its permit. */
  datatype Totals = Totals(sem: Semaphore, notifies: nat, grants: nat, parked: seq<FiberId>, scheduled: seq<FiberId>)

  function Run(initial: nat, ops: seq<Op>): Totals {
    if ops == [] then Totals(Semaphore(initial, []), 0, 0, [], [])
    else
      var t := Run(initial, ops[..|ops| - 1]);
      var op := ops[|ops| - 1];
      var e := Step(t.sem, op);
      Totals(e.sem,
             t.notifies + (if op.Notify? then 1 else 0),
             t.grants + (if e.granted then 1 else 0) + |e.scheduled|,
             t.parked + e.parked,
             t.scheduled + e.scheduled)
  }

  /** Over every run: permits are conserved, fibers wait only when no permit is left, and the parked
      fibers are the scheduled ones followed by those still waiting, so each is scheduled at most once
      and in order of arrival. */
  lemma {:induction false} PermitsConserved(initial: nat, ops: seq<Op>)
    ensures var t := Run(initial, ops);
      && initial + t.notifies == t.grants + t.sem.concurrency
      && (t.sem.waiters != [] ==> t.sem.concurrency == 0)
      && t.parked == t.scheduled + t.sem.waiters
  {
    if ops != [] {
      PermitsConserved(initial, ops[..|ops| - 1]);
    }
  }

  /** At any moment of any run: a permit that is there is granted at once, by `tryWait` as by `wait`; without
      one `tryWait` changes nothing and `wait` parks the caller behind the others; and a notification wakes
      the first waiter or else leaves a permit. */
  lemma {:induction false} GrantsExactly(initial: nat, ops: seq<Op>, f: FiberId)
    ensures var s := Run(initial, ops).sem;
      var t, w, n := Step(s, TryWait), Step(s, Wait(f)), Step(s, Notify);
      && (t.granted <==> s.concurrency > 0) && (w.granted <==> s.concurrency > 0)
      && (s.concurrency > 0 ==> t.sem == w.sem == Semaphore(s.concurrency - 1, s.waiters) && w.parked == [])
      && (s.concurrency == 0 ==> t.sem == s && w.sem == Semaphore(0, s.waiters + [f]) && w.parked == [f])
      && (if s.waiters == [] then n.sem == Semaphore(s.concurrency + 1, []) && n.scheduled == []
          else n.sem == Semaphore(0, s.waiters[1..]) && n.scheduled == [s.waiters[0]])
  {
    PermitsConserved(initial, ops);
  }

  class FiberSemaphore {
    var concurrency: nat
    var waiters: seq<FiberId>

    ghost function Value(): Semaphore
      reads this
    {
      Semaphore(concurrency, waiters)
    }

    constructor (initial: nat)
      ensures Value() == Run(initial, []).sem
    {
      concurrency, waiters := initial, [];
    }

    method TryAcquire() returns (ok: bool)
      modifies this
      ensures Value() == Step(old(Value()), TryWait).sem
      ensures ok == Step(old(Value()), TryWait).granted == (old(concurrency) > 0)
      ensures waiters == old(waiters) && concurrency == if ok then old(concurrency) - 1 else old(concurrency)
    {
      if concurrency > 0 {
        concurrency := concurrency - 1;
        return true;
      }
      return false;
    }

    /** The caller yields to HOLD exactly when `mustYield`. */
    method Acquire(self: FiberId) returns (mustYield: bool)
      modifies this
      ensures Value() == Step(old(Value()), Wait(self)).sem
      ensures mustYield == !Step(old(Value()), Wait(self)).granted == (old(concurrency) == 0)
      ensures waiters == if mustYield then old(waiters) + [self] else old(waiters)
      ensures concurrency == if mustYield then 0 else old(concurrency) - 1
    {
      if concurrency > 0 {
        concurrency := concurrency - 1;
        return false;
      }
      waiters := waiters + [self];
      return true;
    }

    method Release() returns (next: Option<FiberId>)
      modifies this
      ensures Value() == Step(old(Value()), Notify).sem
      ensures Step(old(Value()), Notify).scheduled == if next.Some? then [next.value] else []
      ensures next == if old(waiters) == [] then None else Some(old(waiters)[0])
      ensures waiters == if next.Some? then old(waiters)[1..] else []
      ensures concurrency == if next.Some? then old(concurrency) else old(concurrency) + 1
    {
      if waiters != [] {
        next := Some(waiters[0]);
        waiters := waiters[1..];
      } else {
        next := None;
        concurrency := concurrency + 1;
      }
    }
  }
}
