/** Tickets, the active count and shutdown, kept by every step. */
module Accounting {
  import opened Fibers
  import opened TaskQueue
  import opened Runtime
  import opened WakeTokens
  import opened Execution

  // ---------------------------------------------------------------- tickets

  ghost function HeldTickets(workers: Workers): set<nat> {
    set w | w in workers && workers[w].pc.Picked? :: workers[w].pc.entry.ticket
  }

  /** Every accepted task is in the queue, in the hands of exactly one worker, or consumed. */
  ghost predicate TicketsOk(queue: seq<Entry>, next: nat, consumed: set<nat>, workers: Workers) {
    && InArrivalOrder(queue, next)
    && Tickets(queue) !! consumed
    && (forall w | w in workers && workers[w].pc.Picked? ::
          workers[w].pc.entry.ticket !in Tickets(queue) && workers[w].pc.entry.ticket !in consumed)
    && (forall v, w | v in workers && w in workers && workers[v].pc.Picked? && workers[w].pc.Picked? && v != w ::
          workers[v].pc.entry.ticket != workers[w].pc.entry.ticket)
    && (forall t :: t in Tickets(queue) + HeldTickets(workers) + consumed <==> 0 <= t < next)
  }

  lemma {:induction false} HeldUpdate(workers: Workers, w: ThreadId, wk: Worker)
    requires w in workers
    ensures HeldTickets(workers[w := wk]) ==
      (set v | v in workers && v != w && workers[v].pc.Picked? :: workers[v].pc.entry.ticket)
      + (if wk.pc.Picked? then {wk.pc.entry.ticket} else {})
  {
    var ws := workers[w := wk];
    forall t | t in HeldTickets(ws)
      ensures t in (set v | v in workers && v != w && workers[v].pc.Picked? :: workers[v].pc.entry.ticket)
                || (wk.pc.Picked? && t == wk.pc.entry.ticket)
    {
      var v :| v in ws && ws[v].pc.Picked? && ws[v].pc.entry.ticket == t;
    }
    forall v | v in workers && v != w && workers[v].pc.Picked?
      ensures workers[v].pc.entry.ticket in HeldTickets(ws)
    {
      assert v in ws && ws[v] == workers[v];
    }
    assert wk.pc.Picked? ==> w in ws && ws[w].pc.entry.ticket in HeldTickets(ws);
  }

  lemma {:induction false} PickKeepsTickets(s: State, w: ThreadId, i: nat)
    requires TicketsOk(s.tasks.queue, s.tasks.next, s.consumed, s.workers)
    requires w in s.workers && !s.workers[w].pc.Picked? && i < |s.tasks.queue|
    ensures TicketsOk(RemoveAt(s.tasks.queue, i), s.tasks.next, s.consumed,
                      s.workers[w := s.workers[w].(pc := Picked(s.tasks.queue[i]))])
  {
    RemoveAtKeepsOrder(s.tasks.queue, i, s.tasks.next);
    RemoveAtTickets(s.tasks.queue, i, s.tasks.next);
    HeldUpdate(s.workers, w, s.workers[w]);
    HeldUpdate(s.workers, w, s.workers[w].(pc := Picked(s.tasks.queue[i])));
    assert s.workers[w := s.workers[w]] == s.workers;
    var ws := s.workers[w := s.workers[w].(pc := Picked(s.tasks.queue[i]))];
    assert Tickets(RemoveAt(s.tasks.queue, i)) + HeldTickets(ws) == Tickets(s.tasks.queue) + HeldTickets(s.workers);
  }

  lemma {:induction false} ConsumeKeepsTickets(s: State, w: ThreadId, wk: Worker)
    requires TicketsOk(s.tasks.queue, s.tasks.next, s.consumed, s.workers)
    requires w in s.workers && s.workers[w].pc.Picked? && !wk.pc.Picked?
    ensures TicketsOk(s.tasks.queue, s.tasks.next, s.consumed + {s.workers[w].pc.entry.ticket}, s.workers[w := wk])
  {
    HeldUpdate(s.workers, w, s.workers[w]);
    HeldUpdate(s.workers, w, wk);
    assert s.workers[w := s.workers[w]] == s.workers;
    var t := s.workers[w].pc.entry.ticket;
    assert HeldTickets(s.workers) == HeldTickets(s.workers[w := wk]) + {t};
    assert Tickets(s.tasks.queue) + HeldTickets(s.workers) + s.consumed
        == Tickets(s.tasks.queue) + HeldTickets(s.workers[w := wk]) + (s.consumed + {t});
  }

  lemma {:induction false} MoveOnKeepsTickets(s: State, w: ThreadId, wk: Worker)
    requires TicketsOk(s.tasks.queue, s.tasks.next, s.consumed, s.workers)
    requires w in s.workers && !s.workers[w].pc.Picked? && !wk.pc.Picked?
    ensures TicketsOk(s.tasks.queue, s.tasks.next, s.consumed, s.workers[w := wk])
  {
    HeldUpdate(s.workers, w, s.workers[w]);
    HeldUpdate(s.workers, w, wk);
    assert s.workers[w := s.workers[w]] == s.workers;
  }

  lemma {:induction false} PushKeepsTickets(q: seq<Entry>, next: nat, e: Entry, consumed: set<nat>, workers: Workers)
    requires TicketsOk(q, next, consumed, workers) && e.ticket == next
    ensures TicketsOk(q + [e], next + 1, consumed, workers)
  {
    assert forall x :: x in q + [e] <==> x in q || x == e;
    assert Tickets(q + [e]) == Tickets(q) + {next};
    assert next !in Tickets(q) + HeldTickets(workers) + consumed;
    forall w | w in workers && workers[w].pc.Picked?
      ensures workers[w].pc.entry.ticket != next
    {
      assert workers[w].pc.entry.ticket in HeldTickets(workers);
    }
  }

  lemma {:induction false} AppendsKeepsTickets(q: seq<Entry>, next: nat, q': seq<Entry>, next': nat,
                                               consumed: set<nat>, workers: Workers)
    requires TicketsOk(q, next, consumed, workers) && Appends(q, next, q', next')
    ensures TicketsOk(q', next', consumed, workers)
    decreases |q'|
  {
    if |q'| > |q| {
      var n := |q'| - 1;
      assert q'[..n][..|q|] == q'[..|q|];
      AppendsKeepsTickets(q, next, q'[..n], next' - 1, consumed, workers);
      PushKeepsTickets(q'[..n], next' - 1, q'[n], consumed, workers);
      assert q' == q'[..n] + [q'[n]];
    } else {
      assert q' == q;
    }
  }

  // ---------------------------------------------------------------- the active count

  /** Between picking a task and counting itself out. */
  predicate IsActive(pc: Pc) {
    pc.Picked? || pc.Running? || pc.Returned?
  }

  ghost function ActiveWorkers(workers: Workers): set<ThreadId> {
    set w | w in workers && IsActive(workers[w].pc)
  }

  lemma {:induction false} WithOne(a: set<ThreadId>, rest: set<ThreadId>, w: ThreadId)
    requires w !in rest
    requires forall v :: v in a && v != w <==> v in rest
    ensures |a| == |rest| + if w in a then 1 else 0
  {
    assert forall v :: v in a - {w} <==> v in rest;
    assert a - {w} == rest;
    if w !in a {
      assert a == rest;
    }
  }

  lemma {:induction false} ActiveUpdate(workers: Workers, w: ThreadId, wk: Worker)
    requires w in workers
    ensures |ActiveWorkers(workers[w := wk])| == |ActiveWorkers(workers)|
      - (if IsActive(workers[w].pc) then 1 else 0) + (if IsActive(wk.pc) then 1 else 0)
  {
    var rest := set v | v in workers && v != w && IsActive(workers[v].pc);
    WithOne(ActiveWorkers(workers), rest, w);
    WithOne(ActiveWorkers(workers[w := wk]), rest, w);
  }

  // ---------------------------------------------------------------- shutdown

  ghost predicate AllExited(workers: Workers) {
    forall w | w in workers :: workers[w].pc.Exited?
  }

  ghost predicate NothingUnpinned(queue: seq<Entry>) {
    forall e | e in queue :: e.thread != ANY_THREAD
  }

  /** Workers leave only after stop, and the last one to leave leaves no unpinned task behind. */
  ghost predicate ShutdownOk(s: State) {
    && (exists w :: w in s.workers)
    && (forall w | w in s.workers && s.workers[w].idleDone :: s.stopped)
    && (forall w | w in s.workers && s.workers[w].pc.Exited? :: s.workers[w].idleDone)
    && (AllExited(s.workers) ==> NothingUnpinned(s.tasks.queue))
  }

  /** A step of a worker that does not leave. */
  lemma {:induction false} StayingKeepsShutdown(s: State, u: State, w: ThreadId)
    requires ShutdownOk(s) && w in s.workers && w in u.workers
    requires u.workers == s.workers[w := u.workers[w]] && u.stopped == s.stopped
    requires !u.workers[w].pc.Exited?
    requires u.workers[w].idleDone ==> s.workers[w].idleDone || s.stopped
    ensures ShutdownOk(u)
  {
  }

  /** An unpinned entry that a scan passed over is on the stack of another worker, still there. */
  lemma {:induction false} PassedOver(s: State, w: ThreadId, e: Entry)
    requires Exec(s) && w in s.workers && s.workers[w].pc.Scanning?
    requires e.thread == ANY_THREAD && !Eligible(e, w, s.fstate)
    ensures !AllExited(SetPc(s, w, Exited).workers)
  {
    var v := s.runner[e.work.fiber];
    assert Executing(s.workers[v].pc) == Some(e.work.fiber);
    assert SetPc(s, w, Exited).workers[v] == s.workers[v];
  }

  lemma {:induction false} LeavingKeepsShutdown(s: State, w: ThreadId)
    requires ShutdownOk(s) && Exec(s) && w in s.workers && s.workers[w].pc.Scanning? && s.workers[w].idleDone
    requires ScanResult(s, w) == |s.tasks.queue|
    ensures ShutdownOk(SetPc(s, w, Exited))
  {
    var u := SetPc(s, w, Exited);
    assert w in u.workers;
    forall e | e in s.tasks.queue && e.thread == ANY_THREAD
      ensures !AllExited(u.workers)
    {
      var k :| 0 <= k < |s.tasks.queue| && s.tasks.queue[k] == e;
      PassedOver(s, w, s.tasks.queue[k]);
    }
  }

  /** Somebody who may act is a worker that is still there, or acts before any worker may leave. */
  lemma {:induction false} ActorsAreThere(s: State, a: Actor)
    requires ShutdownOk(s) && MayAct(s, a)
    ensures !AllExited(s.workers)
  {
    var w :| w in s.workers;
    assert a.External? ==> !s.workers[w].pc.Exited?;
  }

  /** A call by a running fiber, or by an outsider before stop. */
  lemma {:induction false} CallKeepsShutdown(s: State, u: State, a: Actor)
    requires ShutdownOk(s) && MayAct(s, a) && u.workers == s.workers && u.stopped == s.stopped
    ensures ShutdownOk(u)
  {
    ActorsAreThere(s, a);
  }
}
