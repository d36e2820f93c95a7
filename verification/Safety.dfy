/** What holds in every reachable state of the runtime. */
module Safety {
  import opened Fibers
  import opened TaskQueue
  import opened EventTable
  import opened Runtime
  import opened WakeTokens
  import opened Execution
  import opened Accounting
  import opened Deliveries
  import opened Landing
  import opened TableSteps
  import opened IoCalls

  /** Tickets, the active count and shutdown. */
  ghost predicate Accounts(s: State) {
    && TicketsOk(s.tasks.queue, s.tasks.next, s.consumed, s.workers)
    && s.active == |ActiveWorkers(s.workers)|
    && ShutdownOk(s)
  }

  /** What every step keeps: tokens, stacks, the event table, the accounts, shutdown. */
  ghost predicate Safe(s: State) {
    && Tokens(s)
    && Exec(s)
    && EventTable.Inv(s.fds)
    && Accounts(s)
  }

  /** ... and that no token is in transit, the record of accepted tasks is right, and registrations are
      linked to the `do_io` calls that made them. */
  ghost predicate Inv(s: State) {
    && Safe(s)
    && Landed(s.loc)
    && Linked(s.fds, s.io)
    && Recorded(s.tasks.queue, s.tasks.next, s.tasks.accepted, s.workers)
    && Delivered(s.fds, s.tasks.accepted)
  }

  lemma {:induction false} InitTokens(s: State)
    requires Init(s)
    ensures Tokens(s)
  {
    InitialInv();
    assert forall f, l :: !At(s, f, l);
  }

  lemma {:induction false} InitExec(s: State)
    requires Init(s)
    ensures Exec(s)
  {
  }

  lemma {:induction false} InitAccounts(s: State)
    requires Init(s)
    ensures Accounts(s)
  {
    assert forall w :: w !in ActiveWorkers(s.workers);
    assert ActiveWorkers(s.workers) == {};
    assert HeldTickets(s.workers) == {} && Tickets(s.tasks.queue) == {};
    var w :| w in s.workers;
    assert !AllExited(s.workers);
  }

  lemma {:induction false} InitRecord(s: State)
    requires Init(s)
    ensures EventTable.Inv(s.fds) && Landed(s.loc) && Linked(s.fds, s.io)
    ensures Recorded(s.tasks.queue, s.tasks.next, s.tasks.accepted, s.workers) && Delivered(s.fds, s.tasks.accepted)
  {
    InitialInv();
    BlankIsUnset(s.fds);
  }

  lemma {:induction false} BlankIsUnset(t: Table)
    requires t == Initial()
    ensures forall fd: nat, ev :: !IsSet(t.fds, fd, ev)
  {
  }

  lemma {:induction false} InitInv(s: State)
    requires Init(s)
    ensures Inv(s)
  {
    InitTokens(s);
    InitExec(s);
    InitAccounts(s);
    InitRecord(s);
  }

  // ---------------------------------------------------------------- every step

  function ActorOf(st: CallStep): Actor {
    match st
    case Spawn(a, _, _) => a
    case SpawnCallback(a, _, _) => a
    case Adopt(a, _, _) => a
    case AddCallbackEvent(a, _, _, _, _) => a
    case DeleteEvent(a, _, _, _) => a
    case CancelOne(a, _, _, _) => a
    case CancelBoth(a, _, _) => a
    case SemNotify(a, _) => a
    case ArmTimer(a, _, _) => a
    case DisarmTimer(a, _) => a
    case SwitchTo(w, _) => ByFiber(w)
    case AddFiberEvent(w, _, _, _) => ByFiber(w)
    case SemWait(w, _) => ByFiber(w)
    case SemTryWait(w, _) => ByFiber(w)
    case Sleep(w, _) => ByFiber(w)
    case EnterIo(w, _) => ByFiber(w)
    case LeaveIo(w) => ByFiber(w)
    case Stop => External
  }

  lemma {:induction false} CallerMayAct(s: State, st: CallStep)
    requires CallEnabled(s, st) && !st.Stop?
    ensures MayAct(s, ActorOf(st))
  {
  }

  /** A call entered, a call left, the order to stop. */
  lemma {:induction false} BookkeepingKeepsSafe(s: State, u: State)
    requires Safe(s) && u == s.(io := u.io, stopped := u.stopped)
    requires s.stopped ==> u.stopped
    ensures Safe(u)
  {
    BookkeepingKeeps(s, u);
    assert Exec(u) && ShutdownOk(u);
  }

  lemma {:induction false} CallKeepsSafe(s: State, st: CallStep)
    requires Safe(s) && CallEnabled(s, st)
    ensures Safe(CallApply(s, st))
  {
    if st.Stop? {
      BookkeepingKeepsSafe(s, s.(stopped := true));
    } else if st.EnterIo? || st.LeaveIo? {
      BookkeepingKeepsSafe(s, CallApply(s, st));
    } else {
      OtherCallKeepsSafe(s, st);
    }
  }

  lemma {:induction false} OtherCallKeepsSafe(s: State, st: CallStep)
    requires Safe(s) && CallEnabled(s, st) && (IsSchedulingCall(st) || IsEventCall(st) || IsParkingCall(st))
    ensures Safe(CallApply(s, st))
  {
    var u := CallApply(s, st);
    CallKeeps(s, st);
    CallsKeepExec(s, u);
    CallKeepsTable(s, st);
    AppendsKeepsTickets(s.tasks.queue, s.tasks.next, u.tasks.queue, u.tasks.next, s.consumed, s.workers);
    CallerMayAct(s, st);
    CallKeepsShutdown(s, u, ActorOf(st));
  }

  lemma {:induction false} YieldKeeps(s: State, w: ThreadId)
    requires Tokens(s) && Exec(s) && LoopEnabled(s, YieldToHold(w))
    ensures Tokens(LoopApply(s, YieldToHold(w))) && Exec(LoopApply(s, YieldToHold(w)))
  {
    var l := s.loc[Self(s, w)];
    assert Self(s, w) in s.runner;
    LeaveKeeps(s, w, EXEC, if l.Own? then Orphan else l);
  }

  predicate IsPickStep(st: LoopStep) {
    st.Pick? || st.EmptyScan? || st.SwapIn? || st.Drop? || st.StartCallback?
  }

  /** The steps between a scan and the first instruction of the fiber. */
  lemma {:induction false} PickStepKeepsTokens(s: State, st: LoopStep)
    requires Tokens(s) && Exec(s) && LoopEnabled(s, st) && IsPickStep(st)
    ensures Tokens(LoopApply(s, st)) && Exec(LoopApply(s, st))
  {
    match st
    case Pick(w) => PickKeepsTokens(s, w); PickKeepsExec(s, w);
    case EmptyScan(w) => IdlePhaseKeeps(s, LoopApply(s, st), w);
    case SwapIn(w) => SwapInKeeps(s, w);
    case Drop(w) => DropKeeps(s, w);
    case StartCallback(w, spare) => StartKeeps(s, w, spare);
  }

  predicate IsFiberStep(st: LoopStep) {
    st.RunJob? || st.YieldToHold? || st.YieldToReady? || st.Finish? || st.Decrement? || st.Settle?
  }

  lemma {:induction false} LeavingStepKeepsTokens(s: State, st: LoopStep)
    requires Tokens(s) && Exec(s) && LoopEnabled(s, st) && (st.YieldToHold? || st.YieldToReady? || st.Finish?)
    ensures Tokens(LoopApply(s, st)) && Exec(LoopApply(s, st))
  {
    match st
    case YieldToHold(w) => YieldKeeps(s, w);
    case YieldToReady(w) => LeaveKeeps(s, w, READY, Own);
    case Finish(w, normally) => LeaveKeeps(s, w, if normally then TERM else EXCEPT, Done);
  }

  /** From the first instruction of the fiber until the worker has settled it. */
  lemma {:induction false} FiberStepKeepsTokens(s: State, st: LoopStep)
    requires Tokens(s) && Exec(s) && LoopEnabled(s, st) && IsFiberStep(st)
    ensures Tokens(LoopApply(s, st)) && Exec(LoopApply(s, st))
  {
    if st.YieldToHold? || st.YieldToReady? || st.Finish? {
      LeavingStepKeepsTokens(s, st);
      return;
    }
    match st
    case RunJob(w, willing) => JobKeepsTokens(s, w, willing); JobKeepsExec(s, w, willing);
    case Decrement(w) => DecrementKeeps(s, w);
    case Settle(w) => SettleKeeps(s, w);
  }

  /** The idle fiber. */
  lemma {:induction false} IdleStepKeepsTokens(s: State, st: LoopStep)
    requires Tokens(s) && Exec(s) && LoopEnabled(s, st) && !IsPickStep(st) && !IsFiberStep(st)
    ensures Tokens(LoopApply(s, st)) && Exec(LoopApply(s, st))
  {
    match st
    case Expire(w, t) => ExpireKeepsTokens(s, w, t); ExpireKeepsExec(s, w, t);
    case PushExpired(w) => PushExpiredKeepsTokens(s, w); PushExpiredKeepsExec(s, w);
    case Report(w, fd, reported, err, willing) =>
      ReportKeepsTokens(s, fd, reported, err, willing);
      ReportCalls(s, fd, reported, err, willing);
      CallsKeepExec(s, LoopApply(s, st));
    case IdleStop(w) => IdlePhaseKeeps(s, LoopApply(s, st), w);
    case LeaveIdle(w) => IdlePhaseKeeps(s, LoopApply(s, st), w);
  }

  lemma {:induction false} LoopKeepsTokens(s: State, st: LoopStep)
    requires Tokens(s) && Exec(s) && LoopEnabled(s, st)
    ensures Tokens(LoopApply(s, st)) && Exec(LoopApply(s, st))
  {
    if IsPickStep(st) {
      PickStepKeepsTokens(s, st);
    } else if IsFiberStep(st) {
      FiberStepKeepsTokens(s, st);
    } else {
      IdleStepKeepsTokens(s, st);
    }
  }

  // ---------------------------------------------------------------- the accounts of a worker

  function Weight(pc: Pc): int {
    if IsActive(pc) then 1 else 0
  }

  /** A worker moves on without picking or using up an entry, perhaps scheduling something. */
  lemma {:induction false} MoveOnAccounts(s: State, u: State, w: ThreadId)
    requires Accounts(s) && w in s.workers && w in u.workers
    requires u.workers == s.workers[w := u.workers[w]] && u.stopped == s.stopped && u.consumed == s.consumed
    requires !s.workers[w].pc.Picked? && !u.workers[w].pc.Picked? && !u.workers[w].pc.Exited?
    requires u.workers[w].idleDone ==> s.workers[w].idleDone || s.stopped
    requires u.active == s.active - Weight(s.workers[w].pc) + Weight(u.workers[w].pc)
    requires Appends(s.tasks.queue, s.tasks.next, u.tasks.queue, u.tasks.next)
    ensures Accounts(u)
  {
    MoveOnKeepsTickets(s, w, u.workers[w]);
    AppendsKeepsTickets(s.tasks.queue, s.tasks.next, u.tasks.queue, u.tasks.next, u.consumed, u.workers);
    ActiveUpdate(s.workers, w, u.workers[w]);
    StayingKeepsShutdown(s, u, w);
  }

  lemma {:induction false} PickAccounts(s: State, w: ThreadId)
    requires Accounts(s) && w in s.workers && s.workers[w].pc.Scanning? && ScanResult(s, w) < |s.tasks.queue|
    ensures Accounts(PickStep(s, w))
  {
    var u := PickStep(s, w);
    PickKeepsTickets(s, w, ScanResult(s, w));
    ActiveUpdate(s.workers, w, u.workers[w]);
    StayingKeepsShutdown(s, u, w);
  }

  /** A worker uses up the entry it picked. */
  lemma {:induction false} ConsumeAccounts(s: State, u: State, w: ThreadId)
    requires Accounts(s) && HasPicked(s, w) && w in u.workers
    requires u.workers == s.workers[w := u.workers[w]] && u.stopped == s.stopped
    requires u.consumed == s.consumed + {s.workers[w].pc.entry.ticket}
    requires u.tasks.queue == s.tasks.queue && u.tasks.next == s.tasks.next
    requires !u.workers[w].pc.Picked? && !u.workers[w].pc.Exited? && u.workers[w].idleDone == s.workers[w].idleDone
    requires u.active == s.active - 1 + Weight(u.workers[w].pc)
    ensures Accounts(u)
  {
    ConsumeKeepsTickets(s, w, u.workers[w]);
    ActiveUpdate(s.workers, w, u.workers[w]);
    StayingKeepsShutdown(s, u, w);
  }

  lemma {:induction false} EmptyScanAccounts(s: State, w: ThreadId)
    requires Accounts(s) && Exec(s) && LoopEnabled(s, EmptyScan(w))
    ensures Accounts(LoopApply(s, EmptyScan(w)))
  {
    var u := LoopApply(s, EmptyScan(w));
    if s.workers[w].idleDone {
      LeavingKeepsShutdown(s, w);
      MoveOnKeepsTickets(s, w, u.workers[w]);
      ActiveUpdate(s.workers, w, u.workers[w]);
    } else {
      MoveOnAccounts(s, u, w);
    }
  }

  lemma {:induction false} CallsAccounts(s: State, u: State, w: ThreadId)
    requires Accounts(s) && Calls(s, u) && w in s.workers && !s.workers[w].pc.Exited?
    ensures Accounts(u)
  {
    AppendsKeepsTickets(s.tasks.queue, s.tasks.next, u.tasks.queue, u.tasks.next, s.consumed, s.workers);
  }

  lemma {:induction false} CancelJobAccounts(s: State, w: ThreadId, willing: bool)
    requires Accounts(s) && Tokens(s) && Exec(s)
    requires w in s.workers && s.workers[w].pc.Running? && s.workers[w].pc.job.Cancel?
    ensures Accounts(CancelStep(s, w, willing))
  {
    var u := GoOn(s, w, Plain);
    MoveOnAccounts(s, u, w);
    CancelJobCalls(s, u, w, willing);
    CallsAccounts(u, CancelStep(s, w, willing), w);
  }

  lemma {:induction false} ResumeAccounts(s: State, w: ThreadId)
    requires Accounts(s)
    requires w in s.workers && s.workers[w].pc.Running? && s.workers[w].pc.job.Resume?
    ensures Accounts(ResumeStep(s, w))
  {
    MoveOnAccounts(s, ResumeStep(s, w), w);
  }

  lemma {:induction false} TimeoutAccounts(s: State, w: ThreadId)
    requires Accounts(s)
    requires w in s.workers && s.workers[w].pc.Running? && IsFlagJob(s.workers[w].pc.job)
    ensures Accounts(TimeoutStep(s, w))
  {
    var u := TimeoutStep(s, w);
    TimeoutWorkers(s, w);
    assert u == s.(workers := u.workers, io := u.io);
    MoveOnAccounts(s, u, w);
  }

  lemma {:induction false} JobAccounts(s: State, w: ThreadId, willing: bool)
    requires Accounts(s) && Tokens(s) && Exec(s)
    requires w in s.workers && s.workers[w].pc.Running?
    ensures Accounts(JobStep(s, w, willing))
  {
    match s.workers[w].pc.job
    case Plain =>
    case Resume(_) => ResumeAccounts(s, w);
    case Cancel(_) => CancelJobAccounts(s, w, willing);
    case _ => TimeoutAccounts(s, w);
  }

  /** The steps between a scan and the first instruction of the fiber. */
  lemma {:induction false} PickStepAccounts(s: State, st: LoopStep)
    requires Accounts(s) && Exec(s) && LoopEnabled(s, st) && IsPickStep(st)
    ensures Accounts(LoopApply(s, st))
  {
    match st
    case Pick(w) => PickAccounts(s, w);
    case EmptyScan(w) => EmptyScanAccounts(s, w);
    case SwapIn(w) => ConsumeAccounts(s, LoopApply(s, st), w);
    case Drop(w) => ConsumeAccounts(s, LoopApply(s, st), w);
    case StartCallback(w, _) => ConsumeAccounts(s, LoopApply(s, st), w);
  }

  predicate IsMoveOnStep(st: LoopStep) {
    st.YieldToHold? || st.YieldToReady? || st.Finish? || st.Decrement? || st.Expire? || st.IdleStop? || st.LeaveIdle?
  }

  lemma {:induction false} MoveOnStepAccounts(s: State, st: LoopStep)
    requires Accounts(s) && LoopEnabled(s, st) && IsMoveOnStep(st)
    ensures Accounts(LoopApply(s, st))
  {
    MoveOnAccounts(s, LoopApply(s, st), st.w);
  }

  lemma {:induction false} PushLeaves(s: State, work: Work, thread: ThreadId)
    ensures var u := Push(s, work, thread);
      && u.workers == s.workers && u.stopped == s.stopped && u.active == s.active
      && u.consumed == s.consumed
      && Appends(s.tasks.queue, s.tasks.next, u.tasks.queue, u.tasks.next)
  {
  }

  lemma {:induction false} OffStackAccounts(s: State, w: ThreadId, st: FiberState, loc: Locs, ended: bool)
    requires Accounts(s) && w in s.workers && s.workers[w].pc.Settling?
    ensures Accounts(OffStack(s, w, st, loc, ended))
    ensures w in OffStack(s, w, st, loc, ended).workers && !OffStack(s, w, st, loc, ended).workers[w].pc.Exited?
  {
    MoveOnAccounts(s, OffStack(s, w, st, loc, ended), w);
  }

  /** Scheduling by a worker that is there. */
  lemma {:induction false} PushAccounts(s: State, work: Work, thread: ThreadId, w: ThreadId)
    requires Accounts(s) && w in s.workers && !s.workers[w].pc.Exited?
    ensures Accounts(Push(s, work, thread))
  {
    PushLeaves(s, work, thread);
    var u := Push(s, work, thread);
    AppendsKeepsTickets(s.tasks.queue, s.tasks.next, u.tasks.queue, u.tasks.next, s.consumed, s.workers);
  }

  lemma {:induction false} SettleAccounts(s: State, w: ThreadId)
    requires Accounts(s)
    requires w in s.workers && s.workers[w].pc.Settling? && s.workers[w].pc.fiber in s.fstate
    ensures Accounts(SettleStep(s, w))
  {
    var f, st := s.workers[w].pc.fiber, s.fstate[s.workers[w].pc.fiber];
    if st.READY? {
      OffStackAccounts(s, w, READY, s.loc[f := Transit], false);
      PushAccounts(OffStack(s, w, READY, s.loc[f := Transit], false), FiberWork(f), ANY_THREAD, w);
    } else if !Ended(st) {
      OffStackAccounts(s, w, HOLD, s.loc, false);
    } else if s.workers[w].pc.mode.Direct? {
      OffStackAccounts(s, w, st, s.loc, true);
    } else {
      OffStackAccounts(s, w, INIT, s.loc[f := Cached(w)], true);
    }
  }

  lemma {:induction false} PushExpiredAccounts(s: State, w: ThreadId)
    requires Accounts(s) && IsIdling(s, w) && s.workers[w].pc.cbs != []
    ensures Accounts(PushExpiredStep(s, w))
  {
    MoveOnAccounts(s, PushExpiredStep(s, w), w);
  }

  lemma {:induction false} ReportAccounts(s: State, st: LoopStep)
    requires Accounts(s) && Tokens(s) && Exec(s) && LoopEnabled(s, st) && st.Report?
    ensures Accounts(LoopApply(s, st))
  {
    ReportCalls(s, st.fd, st.reported, st.errorOrHangup, st.willing);
    CallsAccounts(s, LoopApply(s, st), st.w);
  }

  lemma {:induction false} LoopKeepsAccounts(s: State, st: LoopStep)
    requires Accounts(s) && Tokens(s) && Exec(s) && LoopEnabled(s, st)
    ensures Accounts(LoopApply(s, st))
  {
    if IsPickStep(st) {
      PickStepAccounts(s, st);
    } else if IsMoveOnStep(st) {
      MoveOnStepAccounts(s, st);
    } else {
      match st
      case RunJob(w, willing) => JobAccounts(s, w, willing);
      case Report(_, _, _, _, _) => ReportAccounts(s, st);
      case Settle(w) => SettleAccounts(s, w);
      case PushExpired(w) => PushExpiredAccounts(s, w);
    }
  }

  lemma {:induction false} StepKeepsSafe(s: State, st: Step)
    requires Safe(s) && Enabled(s, st)
    ensures Safe(Apply(s, st))
  {
    match st
    case Call(c) => CallKeepsSafe(s, c);
    case Loop(l) =>
      LoopKeepsTokens(s, l);
      LoopKeepsTable(s, l);
      LoopKeepsAccounts(s, l);
  }

  lemma {:induction false} StepKeepsInv(s: State, st: Step)
    requires Inv(s) && Enabled(s, st)
    ensures Inv(Apply(s, st))
  {
    StepKeepsSafe(s, st);
    StepLands(s, st);
    StepKeepsLinks(s, st);
    StepKeepsRecord(s, st);
    StepKeepsDelivered(s, st);
  }

  /** Every state of every run satisfies the invariant. */
  lemma {:induction false} RunKeepsInv(s: State, steps: seq<Step>)
    requires Inv(s) && IsRun(s, steps)
    ensures Inv(After(s, steps))
    decreases |steps|
  {
    if steps != [] {
      StepKeepsInv(s, steps[0]);
      RunKeepsInv(Apply(s, steps[0]), steps[1..]);
    }
  }

  lemma {:induction false} ReachableInv(s: State)
    requires Reachable(s)
    ensures Inv(s)
  {
    var s0: State, steps: seq<Step> :| Init(s0) && IsRun(s0, steps) && s == After(s0, steps);
    InitInv(s0);
    RunKeepsInv(s0, steps);
  }

  // ---------------------------------------------------------------- theorems

  /** No fiber is on the stack of two workers, and the assertions of `swapIn` and of the yields never
      fail: a fiber about to be switched in is not in EXEC, even if it was queued again before it had
      finished yielding, and a running fiber is in EXEC. */
  lemma {:induction false} NoFiberRunsTwice(s: State)
    requires Reachable(s)
    ensures forall v, w | v in s.workers && w in s.workers && v != w && Executing(s.workers[v].pc).Some? ::
      Executing(s.workers[v].pc) != Executing(s.workers[w].pc)
    ensures forall w | HasPicked(s, w) && s.workers[w].pc.entry.work.FiberWork? ::
      var f := s.workers[w].pc.entry.work.fiber;
      f in s.fstate && !s.fstate[f].EXEC? && (forall v | v in s.workers :: Executing(s.workers[v].pc) != Some(f))
    ensures forall w | w in s.workers && s.workers[w].pc.Running? ::
      s.workers[w].pc.fiber in s.fstate && s.fstate[s.workers[w].pc.fiber].EXEC?
  {
    ReachableInv(s);
    forall w | HasPicked(s, w) && s.workers[w].pc.entry.work.FiberWork?
      ensures var f := s.workers[w].pc.entry.work.fiber;
        f in s.fstate && !s.fstate[f].EXEC? && (forall v | v in s.workers :: Executing(s.workers[v].pc) != Some(f))
    {
      PickedIsIdle(s, w);
    }
  }

  /** A fiber is mentioned in at most one place: no two of event contexts, waiter lists, timers, queue
      entries, workers' hands and workers' caches mention it, and none mentions it twice. */
  lemma {:induction false} OneWakeToken(s: State, f: FiberId)
    requires Reachable(s)
    ensures forall l, m :: At(s, f, l) && At(s, f, m) ==> l == m
    ensures forall i, j :: 0 <= i < j < |s.tasks.queue| && Token(s.tasks.queue[i].work) == Some(f) ==> Token(s.tasks.queue[j].work) != Some(f)
    ensures forall i | i in s.sems :: multiset(s.sems[i].waiters)[f] <= 1
    ensures forall w, a, b | IsIdling(s, w) && 0 <= a < b < |s.workers[w].pc.cbs| ::
      s.workers[w].pc.cbs[a] == ResumeFiber(f) ==> s.workers[w].pc.cbs[b] != ResumeFiber(f)
  {
    ReachableInv(s);
    QueuedOnce(s, f);
    assert forall w | w in s.workers :: HeldOnce(s.workers[w].pc);
    forall i | i in s.sems
      ensures multiset(s.sems[i].waiters)[f] <= 1
    {
      DistinctCounts(s.sems[i].waiters, f);
    }
  }

  lemma {:induction false} QueuedOnce(s: State, f: FiberId)
    requires Tokens(s)
    ensures forall i, j :: 0 <= i < j < |s.tasks.queue| && Token(s.tasks.queue[i].work) == Some(f) ==>
      Token(s.tasks.queue[j].work) != Some(f)
  {
    forall i | 0 <= i < |s.tasks.queue| && Token(s.tasks.queue[i].work) == Some(f)
      ensures At(s, f, Queued(s.tasks.queue[i]))
    {
    }
    forall i, j | 0 <= i < j < |s.tasks.queue| && Token(s.tasks.queue[i].work) == Some(f)
      ensures Token(s.tasks.queue[j].work) != Some(f)
    {
      assert s.tasks.queue[i].ticket < s.tasks.queue[j].ticket;
    }
  }

  lemma {:induction false} DistinctCounts(ws: seq<FiberId>, f: FiberId)
    requires Distinct(ws)
    ensures multiset(ws)[f] == if f in ws then 1 else 0
  {
    if ws != [] {
      var n := |ws| - 1;
      DistinctCounts(ws[..n], f);
      assert ws == ws[..n] + [ws[n]];
    }
  }

  /** When a callback is about to start, the cached fiber it is started on is in INIT and nothing but
      the cache refers to it, so a suspended fiber is never overwritten. */
  lemma {:induction false} StackReuseIsSafe(s: State, w: ThreadId)
    requires Reachable(s) && HasPicked(s, w) && s.workers[w].cbFiber.Some?
    ensures var c := s.workers[w].cbFiber.value;
      c in s.fstate && s.fstate[c].INIT? && (forall l :: At(s, c, l) ==> l == Cached(w))
  {
    ReachableInv(s);
    assert At(s, s.workers[w].cbFiber.value, Cached(w));
  }

  /** When a callback's fiber has ended and is about to be reset and kept, it is the cached one, and
      nothing refers to it. */
  lemma {:induction false} EndedFiberIsFree(s: State, w: ThreadId)
    requires Reachable(s) && w in s.workers && s.workers[w].pc.Settling? && s.workers[w].pc.mode.ViaCallback?
    ensures var f := s.workers[w].pc.fiber;
      && s.workers[w].cbFiber == Some(f) && f in s.fstate
      && (Ended(s.fstate[f]) ==> forall l :: !At(s, f, l))
  {
    ReachableInv(s);
    EndedIsDone(s, w);
    if Ended(s.fstate[s.workers[w].pc.fiber]) {
      OwnIsNowhere(s, s.workers[w].pc.fiber);
    }
  }

  lemma {:induction false} EndedIsDone(s: State, w: ThreadId)
    requires Exec(s) && w in s.workers && s.workers[w].pc.Settling? && s.workers[w].pc.mode.ViaCallback?
    ensures var f := s.workers[w].pc.fiber;
      && s.workers[w].cbFiber == Some(f) && f in s.fstate && f in s.loc
      && (Ended(s.fstate[f]) ==> s.loc[f].Done?)
  {
    assert CacheOk(s.workers[w]);
    assert s.workers[w].pc.fiber in s.runner;
  }

  /** No fiber gets lost: every known fiber is on a worker's stack, or mentioned by exactly one place
      that will bring it back or keeps it for reuse, or done, or an orphan that registered nowhere. A
      fiber that is done has ended, and nothing mentions it or an orphan. */
  lemma {:induction false} EveryFiberIsSomewhere(s: State, f: FiberId)
    requires Reachable(s) && f in s.fstate
    ensures f in s.loc
    ensures s.loc[f].Own? ==> exists w :: w in s.workers && Executing(s.workers[w].pc) == Some(f)
    ensures !s.loc[f].Own? && !s.loc[f].Done? && !s.loc[f].Orphan? ==>
      At(s, f, s.loc[f]) && forall l :: At(s, f, l) ==> l == s.loc[f]
    ensures s.loc[f].Done? ==> Ended(s.fstate[f])
    ensures s.loc[f].Done? || s.loc[f].Orphan? ==> forall l :: !At(s, f, l)
  {
    ReachableInv(s);
    if s.loc[f].Done? || s.loc[f].Orphan? {
      OwnIsNowhere(s, f);
    }
    OwnIsExecuting(s.fstate, s.loc, s.runner, s.workers, f);
    PlaceMentions(s, f);
  }

  lemma {:induction false} OwnIsExecuting(fstate: States, loc: Locs, runner: Runners, workers: Workers, f: FiberId)
    requires StatesOk(fstate, loc, runner) && RunnerOk(runner, workers) && f in loc
    ensures loc[f].Own? ==> exists w :: w in workers && Executing(workers[w].pc) == Some(f)
  {
    if loc[f].Own? {
      var w := runner[f];
      assert w in workers && Executing(workers[w].pc) == Some(f);
    }
  }

  lemma {:induction false} PlaceMentions(s: State, f: FiberId)
    requires OnePlace(s) && Landed(s.loc) && f in s.loc
    ensures !s.loc[f].Own? && !s.loc[f].Done? && !s.loc[f].Orphan? ==>
      At(s, f, s.loc[f]) && forall l :: At(s, f, l) ==> l == s.loc[f]
  {
    assert !s.loc[f].Transit?;
    assert !s.loc[f].Own? && !s.loc[f].Done? && !s.loc[f].Orphan? ==> IsPlace(s.loc[f]);
  }

  /** Every accepted task is in the queue exactly once, in the hands of exactly one worker, or
      consumed, with the work and the thread it was accepted with; a bound task is only ever in the
      hands of its own thread; and the active count is the number of workers between a pick and its
      decrement. */
  lemma {:induction false} TasksConserved(s: State, t: nat)
    requires Reachable(s) && t < s.tasks.next
    ensures t in Tickets(s.tasks.queue) || t in HeldTickets(s.workers) || t in s.consumed
    ensures !(t in Tickets(s.tasks.queue) && t in HeldTickets(s.workers))
    ensures !(t in Tickets(s.tasks.queue) && t in s.consumed)
    ensures !(t in HeldTickets(s.workers) && t in s.consumed)
    ensures forall i, j :: 0 <= i < |s.tasks.queue| && 0 <= j < |s.tasks.queue| && s.tasks.queue[i].ticket == s.tasks.queue[j].ticket ==> i == j
    ensures forall v, w | HasPicked(s, v) && HasPicked(s, w) && v != w ::
      s.workers[v].pc.entry.ticket != s.workers[w].pc.entry.ticket
    ensures |s.tasks.accepted| == s.tasks.next && s.tasks.accepted[t].entry.ticket == t
    ensures forall i | 0 <= i < |s.tasks.queue| && s.tasks.queue[i].ticket == t :: s.tasks.queue[i] == s.tasks.accepted[t].entry
    ensures forall w | HasPicked(s, w) && s.workers[w].pc.entry.ticket == t :: s.workers[w].pc.entry == s.tasks.accepted[t].entry
    ensures forall w | HasPicked(s, w) :: s.workers[w].pc.entry.thread == ANY_THREAD || s.workers[w].pc.entry.thread == w
    ensures s.active == |ActiveWorkers(s.workers)|
  {
    ReachableInv(s);
    assert t in Tickets(s.tasks.queue) + HeldTickets(s.workers) + s.consumed;
    if t in HeldTickets(s.workers) {
      var w :| w in s.workers && s.workers[w].pc.Picked? && s.workers[w].pc.entry.ticket == t;
    }
    forall w | HasPicked(s, w)
      ensures s.workers[w].pc.entry.thread == ANY_THREAD || s.workers[w].pc.entry.thread == w
    {
      assert PickOk(w, s.workers[w].pc, s.runner);
    }
  }

  /** When every worker has left `run`, the queue holds no task that any thread could have run. */
  lemma {:induction false} ShutdownLeavesNothingUnpinned(s: State)
    requires Reachable(s) && forall w | w in s.workers :: s.workers[w].pc.Exited?
    ensures s.stopped
    ensures forall e | e in s.tasks.queue :: e.thread != ANY_THREAD
  {
    ReachableInv(s);
    var w :| w in s.workers;
    assert s.workers[w].idleDone;
  }

  /** Under every interleaving of readiness reports, do_io time-outs and cancellations: a registration is
      put on the queue exactly once if it was triggered and never otherwise, as the work it was made for
      and for any thread; a registration in force has not been put there; and the flag of a do_io call is
      raised iff one of its time-out callbacks raised it. */
  lemma {:induction false} RegistrationsWakeOnce(s: State)
    requires Reachable(s)
    ensures forall i, j :: 0 <= i < j < |s.tasks.accepted| && s.tasks.accepted[i].reg.Some? ==>
      s.tasks.accepted[i].reg != s.tasks.accepted[j].reg
    ensures forall r :: r in s.fds.woken <==> exists t :: 0 <= t < |s.tasks.accepted| && s.tasks.accepted[t].reg == Some(r)
    ensures forall t :: 0 <= t < |s.tasks.accepted| && s.tasks.accepted[t].reg.Some? ==>
      && s.tasks.accepted[t].reg.value < |s.fds.owners|
      && s.tasks.accepted[t].entry.work == s.fds.owners[s.tasks.accepted[t].reg.value]
      && s.tasks.accepted[t].entry.thread == ANY_THREAD
    ensures forall fd: nat, ev, t | IsSet(s.fds.fds, fd, ev) && 0 <= t < |s.tasks.accepted| ::
      s.tasks.accepted[t].reg != Some(Reg(s.fds.fds, fd, ev))
    ensures |s.fds.owners| == CountBits(s.fds.fds) + s.fds.dels + |s.fds.woken|
    ensures forall call | call in s.io.infos :: s.io.infos[call] <==> call in s.io.timeouts
  {
    ReachableInv(s);
    forall i, j | 0 <= i < j < |s.tasks.accepted| && s.tasks.accepted[i].reg.Some?
      ensures s.tasks.accepted[i].reg != s.tasks.accepted[j].reg
    {
      RegsOnce(s.tasks.accepted, i, j);
    }
    forall r ensures r in s.fds.woken <==> exists t :: 0 <= t < |s.tasks.accepted| && s.tasks.accepted[t].reg == Some(r) {
      if r >= 0 { RegsFacts(s.tasks.accepted, r); }
    }
    forall fd: nat, ev, t | IsSet(s.fds.fds, fd, ev) && 0 <= t < |s.tasks.accepted|
      ensures s.tasks.accepted[t].reg != Some(Reg(s.fds.fds, fd, ev))
    {
      assert Reg(s.fds.fds, fd, ev) !in s.fds.woken;
      RegsFacts(s.tasks.accepted, Reg(s.fds.fds, fd, ev));
    }
  }

  /** In every reachable state, every step puts on the queue exactly what it asks for. */
  lemma {:induction false} ReachableStepAccepts(s: State, st: Step)
    requires Reachable(s) && Enabled(s, st)
    ensures Records(s, Apply(s, st), Requests(s, st))
    ensures !(st.Loop? && st.loop.Pick?) ==> Accepts(s, Apply(s, st), Requests(s, st))
  {
    ReachableInv(s);
    StepAccepts(s, st);
  }
}
