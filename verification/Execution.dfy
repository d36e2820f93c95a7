/** Which fiber is on whose stack, and what its state says about it. */
module Execution {
  import opened Fibers
  import opened TaskQueue
  import opened EventTable
  import opened Semaphores
  import opened Runtime
  import opened WakeTokens

  /** The state of a fiber on a worker's stack, against the place of its token. */
  predicate Fits(st: FiberState, l: Loc) {
    match st
    case EXEC => !l.Done? && !l.Cached?
    case READY => l.Own?
    case TERM => l.Done?
    case EXCEPT => l.Done?
    case _ => false
  }

  function ModeOf(pc: Pc): Option<Mode> {
    match pc
    case Running(_, m, _) => Some(m)
    case Returned(_, m) => Some(m)
    case Settling(_, m) => Some(m)
    case _ => None
  }

  /** The cached fiber is the one running a callback, and never one that runs for itself. */
  predicate CacheOk(w: Worker) {
    && (ModeOf(w.pc) == Some(ViaCallback) ==> w.cbFiber == Executing(w.pc))
    && (ModeOf(w.pc) == Some(Direct) ==> w.cbFiber != Executing(w.pc))
  }

  predicate PickOk(me: ThreadId, pc: Pc, runner: map<FiberId, ThreadId>) {
    pc.Picked? ==>
      && (pc.entry.thread == ANY_THREAD || pc.entry.thread == me)
      && (pc.entry.work.FiberWork? ==> pc.entry.work.fiber !in runner)
  }

  type States = map<FiberId, FiberState>
  type Locs = map<FiberId, Loc>
  type Runners = map<FiberId, ThreadId>
  type Workers = map<ThreadId, Worker>

  /** `runner` says exactly who executes whom. */
  ghost predicate RunnerOk(runner: Runners, workers: Workers) {
    && (forall w | w in workers && Executing(workers[w].pc).Some? ::
          var f := Executing(workers[w].pc).value; f in runner && runner[f] == w)
    && (forall f | f in runner :: runner[f] in workers && Executing(workers[runner[f]].pc) == Some(f))
  }

  ghost predicate StatesOk(fstate: States, loc: Locs, runner: Runners) {
    && (forall f | f in runner :: f in fstate && f in loc && Fits(fstate[f], loc[f]))
    && (forall f | f in fstate && fstate[f].EXEC? :: f in runner)
    && (forall f | f in loc && loc[f].Own? :: f in runner)
    && (forall f | f in loc && loc[f].Cached? :: f in fstate && fstate[f].INIT?)
    && (forall f | f in loc && loc[f].Done? :: f in fstate && Ended(fstate[f]))
  }

  ghost predicate WorkersOk(fstate: States, runner: Runners, workers: Workers) {
    && (forall w | w in workers && workers[w].pc.Running? ::
          workers[w].pc.fiber in fstate && fstate[workers[w].pc.fiber].EXEC?)
    && (forall w | w in workers :: CacheOk(workers[w]) && PickOk(w, workers[w].pc, runner))
  }

  predicate Leaving(pc: Pc) {
    pc.Returned? || pc.Settling?
  }

  /** A fiber that yielded to HOLD has given its token away. */
  ghost predicate LeavingOk(fstate: States, loc: Locs, workers: Workers) {
    forall w | w in workers && Leaving(workers[w].pc) ::
      var f := workers[w].pc.fiber;
      f in fstate && f in loc && (fstate[f].EXEC? ==> !loc[f].Own?)
  }

  ghost predicate Exec(s: State) {
    && LeavingOk(s.fstate, s.loc, s.workers)
    && RunnerOk(s.runner, s.workers)
    && StatesOk(s.fstate, s.loc, s.runner)
    && WorkersOk(s.fstate, s.runner, s.workers)
  }

  // ---------------------------------------------------------------- calls

  /** The token of `f` may be moved: `f` is not cached, and not READY or ended on a stack. */
  predicate Loose(f: FiberId, fstate: States, loc: Locs, runner: Runners) {
    && (f in loc ==> !loc[f].Cached?)
    && (f in runner ==> f in fstate && fstate[f].EXEC?)
  }

  /** The queue grew at the back, with consecutive tickets. */
  ghost predicate Appends(q: seq<Entry>, next: nat, q': seq<Entry>, next': nat) {
    && |q| <= |q'|
    && q'[..|q|] == q
    && next' == next + (|q'| - |q|)
    && (forall k :: |q| <= k < |q'| ==> q'[k].ticket == next + (k - |q|))
  }

  /** No fiber changes state; new fibers are in INIT. */
  ghost predicate Grows(fstate: States, fstate': States, runner: Runners) {
    && fstate.Keys <= fstate'.Keys
    && (forall f | f in fstate :: fstate'[f] == fstate[f])
    && (forall f | f in fstate' && f !in fstate :: fstate'[f].INIT? && f !in runner)
  }

  predicate Parked(l: Loc) {
    !l.Own? && !l.Done? && !l.Cached?
  }

  /** Only loose tokens move, and only to parking places and the queue. */
  ghost predicate Shifts(fstate: States, loc: Locs, loc': Locs, runner: Runners) {
    && loc.Keys <= loc'.Keys
    && (forall f | f in loc' ::
          (f in loc && loc'[f] == loc[f]) || (Loose(f, fstate, loc, runner) && Parked(loc'[f])))
  }

  /** What calls into the runtime do to workers and fibers: no worker moves, no fiber changes state,
      tokens move between parking places and the queue. */
  ghost predicate Calls(s: State, u: State) {
    && u.runner == s.runner && u.workers == s.workers && u.active == s.active && u.consumed == s.consumed
    && u.stopped == s.stopped
    && Grows(s.fstate, u.fstate, s.runner)
    && Shifts(s.fstate, s.loc, u.loc, s.runner)
    && Appends(s.tasks.queue, s.tasks.next, u.tasks.queue, u.tasks.next)
  }

  lemma {:induction false} CallsCompose(s: State, u: State, v: State)
    requires Calls(s, u) && Calls(u, v)
    ensures Calls(s, v)
  {
    assert v.tasks.queue[..|s.tasks.queue|] == v.tasks.queue[..|u.tasks.queue|][..|s.tasks.queue|];
  }

  lemma {:induction false} CallsKeepExec(s: State, u: State)
    requires Exec(s) && Calls(s, u)
    ensures Exec(u)
  {
  }

  /** A token that waits in some place belongs to a fiber that is off the stack or still in EXEC. */
  lemma {:induction false} WaitingIsLoose(s: State, f: FiberId)
    requires Exec(s) && f in s.loc && !s.loc[f].Own? && !s.loc[f].Done? && !s.loc[f].Cached?
    ensures Loose(f, s.fstate, s.loc, s.runner)
  {
  }

  lemma {:induction false} PushCalls(s: State, work: Work, thread: ThreadId, reg: Option<nat> := None)
    requires Token(work).Some? ==> Token(work).value in s.loc && Loose(Token(work).value, s.fstate, s.loc, s.runner)
    ensures Calls(s, Push(s, work, thread, reg))
  {
  }

  /** Moving one loose token to a parking place, whatever happens to the places themselves. */
  lemma {:induction false} MoveCalls(s: State, u: State, token: Option<FiberId>, l: Loc)
    requires token.Some? ==> token.value in s.loc && Loose(token.value, s.fstate, s.loc, s.runner)
    requires Parked(l)
    requires u == s.(loc := Move(s.loc, token, l), fds := u.fds, sems := u.sems, timers := u.timers, io := u.io)
    ensures Calls(s, u)
  {
  }

  lemma {:induction false} WakeCalls(s: State, fd: nat, ev: Event)
    requires Tokens(s) && Exec(s) && IsSet(s.fds.fds, fd, ev)
    ensures Calls(s, WakeFrom(s, fd, ev))
  {
    var c := s.fds.fds[fd].Ctx(ev);
    var u := s.(fds := Trigger(s.fds, fd, ev), loc := Move(s.loc, FdToken(c), Transit));
    if FdToken(c).Some? {
      assert At(s, FdToken(c).value, AtFd(fd, ev));
      WaitingIsLoose(s, FdToken(c).value);
    }
    MoveCalls(s, u, FdToken(c), Transit);
    if Fires(c).Some? {
      PushCalls(u, Fires(c).value, ANY_THREAD, Some(c.reg));
      CallsCompose(s, u, WakeFrom(s, fd, ev));
    }
  }

  lemma {:induction false} CancelCalls(s: State, fd: nat, ev: Event, willing: bool)
    requires Tokens(s) && Exec(s)
    ensures Calls(s, DoCancelEvent(s, fd, ev, willing))
  {
    MoveCalls(s, s, None, Transit);
    if Removable(s.fds, fd, ev, willing) {
      var left := s.fds.fds[fd].events - {ev};
      var u := s.(fds := Shrink(s.fds, fd, left));
      ShrinkKeepsTokens(s, fd, left);
      MoveCalls(s, u, None, Transit);
      WakeCalls(u, fd, ev);
      CallsCompose(s, u, WakeFrom(u, fd, ev));
    }
  }

  /** Waking at most one event and then at most the other. */
  lemma {:induction false} WakeBothCalls(s: State, u: State, fd: nat, read: bool, write: bool)
    requires Tokens(s) && Exec(s) && fd < |s.fds.fds|
    requires read ==> Read in s.fds.fds[fd].events
    requires write ==> Write in s.fds.fds[fd].events
    requires u == WakeIf(s, fd, Read, read)
    ensures fd < |u.fds.fds| && Calls(s, WakeIf(u, fd, Write, write))
  {
    MoveCalls(s, s, None, Transit);
    if read {
      WakeCalls(s, fd, Read);
      WakeKeepsTokens(s, fd, Read);
      WakeLeavesOther(s, fd);
      CallsKeepExec(s, u);
    }
    if write {
      WakeCalls(u, fd, Write);
      CallsCompose(s, u, WakeIf(u, fd, Write, write));
    }
  }

  lemma {:induction false} CancelAllCalls(s: State, fd: nat, willing: bool)
    requires Tokens(s) && Exec(s)
    ensures Calls(s, DoCancelAll(s, fd, willing))
  {
    MoveCalls(s, s, None, Transit);
    if Cancellable(s.fds, fd, willing) {
      ShrinkKeepsTokens(s, fd, {});
      var u := s.(fds := Shrink(s.fds, fd, {}));
      MoveCalls(s, u, None, Transit);
      var events := u.fds.fds[fd].events;
      var v := WakeIf(u, fd, Read, Read in events);
      WakeLeavesOther(u, fd);
      WakeBothCalls(u, v, fd, Read in events, Write in events);
      CallsCompose(s, u, WakeIf(v, fd, Write, Write in events));
    }
  }

  lemma {:induction false} ReportCalls(s: State, fd: nat, reported: set<Event>, err: bool, willing: bool)
    requires Tokens(s) && Exec(s) && fd < |s.fds.fds| && Dispatch(s.fds, fd, reported, err, willing).Dispatched?
    ensures Calls(s, DoDispatch(s, fd, reported, err, willing))
  {
    MoveCalls(s, s, None, Transit);
    var ready := RealEvents(s.fds, fd, reported, err);
    if Dispatchable(s.fds, fd, ready, willing) {
      var left := s.fds.fds[fd].events - ready;
      ShrinkKeepsTokens(s, fd, left);
      var u := s.(fds := Shrink(s.fds, fd, left));
      MoveCalls(s, u, None, Transit);
      var v := WakeIf(u, fd, Read, Read in ready);
      WakeBothCalls(u, v, fd, Read in ready, Write in ready);
      CallsCompose(s, u, WakeIf(v, fd, Write, Write in ready));
    }
  }

  /** A fiber that holds its own token is in EXEC. */
  lemma {:induction false} OwnIsLoose(s: State, w: ThreadId)
    requires Exec(s) && HoldsOwn(s, w)
    ensures Loose(Self(s, w), s.fstate, s.loc, s.runner) && Self(s, w) in s.runner
  {
  }

  lemma {:induction false} TransitKeepsTokens(s: State, f: FiberId)
    requires Tokens(s) && f in s.loc && !IsPlace(s.loc[f])
    ensures Tokens(s.(loc := s.loc[f := Transit]))
  {
    var u := s.(loc := s.loc[f := Transit]);
    assert forall g, m :: At(u, g, m) <==> At(s, g, m);
    MoveKeepsOnePlace(s, u, Some(f), Transit);
  }

  /** Taking a token into transit and pushing the fiber. */
  lemma {:induction false} RequeueKeeps(s: State, f: FiberId, thread: ThreadId)
    requires Tokens(s) && f in s.loc && !IsPlace(s.loc[f]) && Loose(f, s.fstate, s.loc, s.runner)
    ensures Tokens(Push(s.(loc := s.loc[f := Transit]), FiberWork(f), thread))
    ensures Calls(s, Push(s.(loc := s.loc[f := Transit]), FiberWork(f), thread))
  {
    var u := s.(loc := s.loc[f := Transit]);
    TransitKeepsTokens(s, f);
    PushKeepsTokens(u, FiberWork(f), thread);
    MoveCalls(s, u, Some(f), Transit);
    PushCalls(u, FiberWork(f), thread);
    CallsCompose(s, u, Push(u, FiberWork(f), thread));
  }

  lemma {:induction false} SpawnKeepsTokens(s: State, f: FiberId, thread: ThreadId)
    requires Tokens(s) && f !in s.fstate && f !in s.loc
    ensures Tokens(Push(s.(fstate := s.fstate[f := INIT], loc := s.loc[f := Transit]), FiberWork(f), thread))
  {
    var u := s.(fstate := s.fstate[f := INIT], loc := s.loc[f := Transit]);
    assert u.tasks.queue == s.tasks.queue && u.fds == s.fds && u.sems == s.sems && u.timers == s.timers && u.workers == s.workers;
    assert forall g, m :: At(u, g, m) <==> At(s, g, m);
    MoveKeepsOnePlace(s, u, Some(f), Transit);
    PushKeepsTokens(u, FiberWork(f), thread);
  }

  lemma {:induction false} SpawnKeeps(s: State, f: FiberId, thread: ThreadId)
    requires Tokens(s) && Exec(s) && f !in s.fstate && f !in s.loc
    ensures var u := Push(s.(fstate := s.fstate[f := INIT], loc := s.loc[f := Transit]), FiberWork(f), thread);
      Tokens(u) && Calls(s, u)
  {
    SpawnKeepsTokens(s, f, thread);
    SpawnCalls(s, s.(fstate := s.fstate[f := INIT], loc := s.loc[f := Transit]), f, thread);
  }

  lemma {:induction false} SpawnCalls(s: State, u: State, f: FiberId, thread: ThreadId)
    requires Exec(s) && f !in s.fstate && f !in s.loc
    requires u == s.(fstate := s.fstate[f := INIT], loc := s.loc[f := Transit])
    ensures Calls(s, Push(u, FiberWork(f), thread))
  {
    PushCalls(u, FiberWork(f), thread);
    CallsCompose(s, u, Push(u, FiberWork(f), thread));
  }

  lemma {:induction false} SleepKeeps(s: State, u: State, f: FiberId, t: nat)
    requires Tokens(s) && f in s.loc && !IsPlace(s.loc[f]) && Loose(f, s.fstate, s.loc, s.runner) && t !in s.timers
    requires u == s.(timers := s.timers[t := Armed(ResumeFiber(f), false)], loc := s.loc[f := AtTimer(t)])
    ensures Tokens(u) && Calls(s, u)
  {
    forall g, m
      ensures At(u, g, m) <==> At(s, g, m) || (g == f && m == AtTimer(t))
    {
    }
    MoveKeepsOnePlace(s, u, Some(f), AtTimer(t));
    MoveCalls(s, u, Some(f), AtTimer(t));
  }

  /** Timers whose callbacks resume nobody come and go. */
  lemma {:induction false} TimersKeep(s: State, u: State, t: nat)
    requires Tokens(s) && u == s.(timers := u.timers)
    requires u.timers.Keys == s.timers.Keys + {t} || u.timers.Keys == s.timers.Keys - {t}
    requires forall x | x in u.timers && x != t :: u.timers[x] == s.timers[x]
    requires t in s.timers ==> !s.timers[t].cb.ResumeFiber?
    requires t in u.timers ==> !u.timers[t].cb.ResumeFiber?
    ensures Tokens(u) && Calls(s, u)
  {
    forall g, m
      ensures At(u, g, m) <==> At(s, g, m)
    {
      if m.AtTimer? {
        assert m.timer != t ==> (m.timer in u.timers <==> m.timer in s.timers);
      }
    }
  }

  lemma {:induction false} SemWaitCalls(s: State, w: ThreadId, i: nat)
    requires Exec(s) && CallEnabled(s, SemWait(w, i))
    ensures Calls(s, SemWaitStep(s, w, i))
  {
    OwnIsLoose(s, w);
    MoveCalls(s, SemWaitStep(s, w, i), if s.sems[i].concurrency > 0 then None else Some(Self(s, w)), AtSem(i));
  }

  lemma {:induction false} SemNotifyCalls(s: State, i: nat)
    requires Tokens(s) && Exec(s) && i in s.sems
    ensures Calls(s, SemNotifyStep(s, i))
  {
    var ws := s.sems[i].waiters;
    if ws != [] {
      assert At(s, ws[0], AtSem(i));
      WaitingIsLoose(s, ws[0]);
      var u := s.(sems := s.sems[i := s.sems[i].(waiters := ws[1..])], loc := s.loc[ws[0] := Transit]);
      MoveCalls(s, u, Some(ws[0]), Transit);
      PushCalls(u, FiberWork(ws[0]), ANY_THREAD);
      CallsCompose(s, u, SemNotifyStep(s, i));
    } else {
      MoveCalls(s, SemNotifyStep(s, i), None, Transit);
    }
  }

  lemma {:induction false} AddFiberCalls(s: State, w: ThreadId, fd: nat, ev: Event, willing: bool)
    requires Exec(s) && CallEnabled(s, AddFiberEvent(w, fd, ev, willing))
    ensures Calls(s, AddFiberStep(s, w, fd, ev, willing))
  {
    OwnIsLoose(s, w);
    var added := AddEvent(s.fds, fd, ev, OwnFiber(Self(s, w)), willing).Added?;
    MoveCalls(s, AddFiberStep(s, w, fd, ev, willing), if added then Some(Self(s, w)) else None, AtFd(fd, ev));
  }

  lemma {:induction false} AddCallbackCalls(s: State, a: Actor, id: nat, fd: nat, ev: Event, willing: bool)
    requires CallEnabled(s, AddCallbackEvent(a, id, fd, ev, willing))
    ensures Calls(s, CallApply(s, AddCallbackEvent(a, id, fd, ev, willing)))
  {
    var u := CallApply(s, AddCallbackEvent(a, id, fd, ev, willing));
    assert u == s.(fds := u.fds);
    MoveCalls(s, u, None, Transit);
  }

  lemma {:induction false} DeleteCalls(s: State, fd: nat, ev: Event, willing: bool)
    requires Tokens(s) && Exec(s)
    ensures Calls(s, DeleteStep(s, fd, ev, willing))
  {
    if Removable(s.fds, fd, ev, willing) {
      var token := FdToken(s.fds.fds[fd].Ctx(ev));
      if token.Some? {
        assert At(s, token.value, AtFd(fd, ev));
        WaitingIsLoose(s, token.value);
      }
      MoveCalls(s, DeleteStep(s, fd, ev, willing), token, Orphan);
    } else {
      MoveCalls(s, s, None, Transit);
    }
  }

  lemma {:induction false} BookkeepingKeeps(s: State, u: State)
    requires Tokens(s) && u == s.(io := u.io, stopped := u.stopped)
    ensures Tokens(u)
  {
    assert forall g, m :: At(u, g, m) <==> At(s, g, m);
  }

  predicate IsSchedulingCall(st: CallStep) {
    st.Spawn? || st.SpawnCallback? || st.Adopt? || st.SwitchTo?
  }

  predicate IsEventCall(st: CallStep) {
    st.AddFiberEvent? || st.AddCallbackEvent? || st.DeleteEvent? || st.CancelOne? || st.CancelBoth?
  }

  predicate IsParkingCall(st: CallStep) {
    st.SemWait? || st.SemTryWait? || st.SemNotify? || st.Sleep? || st.ArmTimer? || st.DisarmTimer?
  }

  lemma {:induction false} SchedulingKeeps(s: State, st: CallStep)
    requires Tokens(s) && Exec(s) && CallEnabled(s, st) && IsSchedulingCall(st)
    ensures Tokens(CallApply(s, st)) && Calls(s, CallApply(s, st))
  {
    match st
    case Spawn(_, f, thread) => SpawnKeeps(s, f, thread);
    case SpawnCallback(_, id, thread) =>
      PushKeepsTokens(s, CallbackWork(UserCallback(id)), thread);
      PushCalls(s, CallbackWork(UserCallback(id)), thread);
    case Adopt(_, f, thread) =>
      if s.loc[f].Orphan? { WaitingIsLoose(s, f); }
      RequeueKeeps(s, f, thread);
    case SwitchTo(w, thread) =>
      OwnIsLoose(s, w);
      RequeueKeeps(s, Self(s, w), thread);
  }

  lemma {:induction false} EventCallKeeps(s: State, st: CallStep)
    requires Tokens(s) && Exec(s) && CallEnabled(s, st) && IsEventCall(st)
    ensures Tokens(CallApply(s, st)) && Calls(s, CallApply(s, st))
  {
    if st.AddFiberEvent? {
      AddFiberKeepsTokens(s, st.w, st.fd, st.ev, st.willing);
      AddFiberCalls(s, st.w, st.fd, st.ev, st.willing);
    } else if st.AddCallbackEvent? {
      AddCallbackKeepsTokens(s, st.a, st.id, st.fd, st.ev, st.willing);
      AddCallbackCalls(s, st.a, st.id, st.fd, st.ev, st.willing);
    } else if st.DeleteEvent? {
      DeleteKeepsTokens(s, st.fd, st.ev, st.willing);
      DeleteCalls(s, st.fd, st.ev, st.willing);
    } else {
      CancelCallKeeps(s, st);
    }
  }

  lemma {:induction false} CancelCallKeeps(s: State, st: CallStep)
    requires Tokens(s) && Exec(s) && CallEnabled(s, st) && (st.CancelOne? || st.CancelBoth?)
    ensures Tokens(CallApply(s, st)) && Calls(s, CallApply(s, st))
  {
    if st.CancelOne? {
      CancelKeepsTokens(s, st.fd, st.ev, st.willing);
      CancelCalls(s, st.fd, st.ev, st.willing);
    } else {
      CancelAllKeepsTokens(s, st.fd, st.willing);
      CancelAllCalls(s, st.fd, st.willing);
    }
  }

  lemma {:induction false} SemaphoreCallKeeps(s: State, st: CallStep)
    requires Tokens(s) && Exec(s) && CallEnabled(s, st) && (st.SemWait? || st.SemTryWait? || st.SemNotify?)
    ensures Tokens(CallApply(s, st)) && Calls(s, CallApply(s, st))
  {
    if st.SemWait? {
      SemWaitKeepsTokens(s, st.w, st.sem);
      SemWaitCalls(s, st.w, st.sem);
    } else if st.SemTryWait? {
      PermitKeepsTokens(s, st.sem, Semaphores.Step(s.sems[st.sem], TryWait).sem.concurrency);
      MoveCalls(s, CallApply(s, st), None, Transit);
    } else {
      NotifyKeepsTokens(s, st.sem);
      SemNotifyCalls(s, st.sem);
    }
  }

  lemma {:induction false} TimerCallKeeps(s: State, st: CallStep)
    requires Tokens(s) && Exec(s) && CallEnabled(s, st) && (st.Sleep? || st.ArmTimer? || st.DisarmTimer?)
    ensures Tokens(CallApply(s, st)) && Calls(s, CallApply(s, st))
  {
    if st.Sleep? {
      OwnIsLoose(s, st.w);
      SleepKeeps(s, CallApply(s, st), Self(s, st.w), st.timer);
    } else {
      TimersKeep(s, CallApply(s, st), st.timer);
    }
  }

  lemma {:induction false} ParkingKeeps(s: State, st: CallStep)
    requires Tokens(s) && Exec(s) && CallEnabled(s, st) && IsParkingCall(st)
    ensures Tokens(CallApply(s, st)) && Calls(s, CallApply(s, st))
  {
    if st.Sleep? || st.ArmTimer? || st.DisarmTimer? {
      TimerCallKeeps(s, st);
    } else {
      SemaphoreCallKeeps(s, st);
    }
  }

  /** Every call keeps the token invariant and acts on workers and fibers as `Calls` says. */
  lemma {:induction false} CallKeeps(s: State, st: CallStep)
    requires Tokens(s) && Exec(s) && CallEnabled(s, st)
    requires IsSchedulingCall(st) || IsEventCall(st) || IsParkingCall(st)
    ensures Tokens(CallApply(s, st)) && Calls(s, CallApply(s, st))
  {
    if IsSchedulingCall(st) {
      SchedulingKeeps(s, st);
    } else if IsEventCall(st) {
      EventCallKeeps(s, st);
    } else {
      ParkingKeeps(s, st);
    }
  }

  // ---------------------------------------------------------------- the loop of a worker

  lemma {:induction false} OntoTheStack(runner: Runners, workers: Workers, workers': Workers, w: ThreadId, f: FiberId)
    requires RunnerOk(runner, workers) && w in workers && Executing(workers[w].pc).None? && f !in runner && w in workers'
    requires workers' == workers[w := workers'[w]] && Executing(workers'[w].pc) == Some(f)
    ensures RunnerOk(runner[f := w], workers')
  {
  }

  lemma {:induction false} StatesWith(fstate: States, loc: Locs, runner: Runners, w: ThreadId, f: FiberId)
    requires StatesOk(fstate, loc, runner) && f !in runner
    ensures StatesOk(fstate[f := EXEC], loc[f := Own], runner[f := w])
  {
  }

  lemma {:induction false} WorkersWith(fstate: States, runner: Runners, workers: Workers, workers': Workers, w: ThreadId, f: FiberId)
    requires WorkersOk(fstate, runner, workers) && w in workers && w in workers' && workers' == workers[w := workers'[w]]
    requires workers'[w].pc.Running? && workers'[w].pc.fiber == f && CacheOk(workers'[w])
    requires forall v | v in workers && v != w :: workers[v].pc.Picked? ==> workers[v].pc.entry.work != FiberWork(f)
    ensures WorkersOk(fstate[f := EXEC], runner[f := w], workers')
  {
  }

  lemma {:induction false} LeavingWith(fstate: States, loc: Locs, runner: Runners, workers: Workers, workers': Workers,
                                       w: ThreadId, f: FiberId)
    requires LeavingOk(fstate, loc, workers) && RunnerOk(runner, workers) && f !in runner
    requires w in workers' && workers' == workers[w := workers'[w]] && workers'[w].pc.Running?
    ensures LeavingOk(fstate[f := EXEC], loc[f := Own], workers')
  {
    forall v | v in workers' && Leaving(workers'[v].pc) ensures workers'[v].pc.fiber != f {
      assert Executing(workers[v].pc) == Some(workers[v].pc.fiber);
    }
  }

  /** A fiber comes onto the stack of a worker that had none. */
  lemma {:induction false} Starts(s: State, u: State, w: ThreadId, f: FiberId)
    requires Exec(s) && w in s.workers && w in u.workers && Executing(s.workers[w].pc).None?
    requires f !in s.runner
    requires u.workers == s.workers[w := u.workers[w]] && u.runner == s.runner[f := w]
    requires u.fstate == s.fstate[f := EXEC] && u.loc == s.loc[f := Own]
    requires u.workers[w].pc.Running? && u.workers[w].pc.fiber == f && CacheOk(u.workers[w])
    requires forall v | v in s.workers && v != w :: s.workers[v].pc.Picked? ==> s.workers[v].pc.entry.work != FiberWork(f)
    ensures Exec(u)
  {
    OntoTheStack(s.runner, s.workers, u.workers, w, f);
    StatesWith(s.fstate, s.loc, s.runner, w, f);
    WorkersWith(s.fstate, s.runner, s.workers, u.workers, w, f);
    LeavingWith(s.fstate, s.loc, s.runner, s.workers, u.workers, w, f);
  }

  /** A worker changes but the fiber on its stack, if any, stays and keeps its state. */
  lemma {:induction false} Continues(s: State, u: State, w: ThreadId)
    requires Exec(s) && w in s.workers && w in u.workers
    requires u.workers == s.workers[w := u.workers[w]] && u.runner == s.runner && u.fstate == s.fstate
    requires StatesOk(u.fstate, u.loc, u.runner)
    requires s.loc.Keys <= u.loc.Keys && forall f | f in u.loc && u.loc[f].Own? :: f in s.loc && s.loc[f].Own?
    requires Executing(u.workers[w].pc) == Executing(s.workers[w].pc)
    requires u.workers[w].pc.Running? ==> s.workers[w].pc.Running?
    requires Leaving(u.workers[w].pc) ==> Leaving(s.workers[w].pc)
    requires CacheOk(u.workers[w]) && PickOk(w, u.workers[w].pc, u.runner)
    ensures Exec(u)
  {
  }

  lemma {:induction false} MoveKeepsStates(fstate: States, loc: Locs, runner: Runners, token: Option<FiberId>, l: Loc)
    requires StatesOk(fstate, loc, runner) && Parked(l)
    requires token.Some? ==> Loose(token.value, fstate, loc, runner)
    ensures StatesOk(fstate, Move(loc, token, l), runner)
  {
  }

  /** A worker changes as in `Continues` while a loose token moves to a parking place. */
  lemma {:induction false} ContinuesMoving(s: State, u: State, w: ThreadId, token: Option<FiberId>, l: Loc)
    requires Exec(s) && w in s.workers && w in u.workers && Parked(l)
    requires token.Some? ==> token.value in s.loc && Parked(s.loc[token.value])
    requires u.loc == Move(s.loc, token, l)
    requires u.workers == s.workers[w := u.workers[w]] && u.runner == s.runner && u.fstate == s.fstate
    requires Executing(u.workers[w].pc) == Executing(s.workers[w].pc)
    requires u.workers[w].pc.Running? ==> s.workers[w].pc.Running?
    requires Leaving(u.workers[w].pc) ==> Leaving(s.workers[w].pc)
    requires CacheOk(u.workers[w]) && PickOk(w, u.workers[w].pc, u.runner)
    ensures Exec(u)
  {
    if token.Some? {
      WaitingIsLoose(s, token.value);
    }
    MoveKeepsStates(s.fstate, s.loc, s.runner, token, l);
    Continues(s, u, w);
  }

  /** An eligible fiber in the queue is on nobody's stack. */
  lemma {:induction false} EligibleIsIdle(s: State, w: ThreadId, e: Entry)
    requires Exec(s) && Eligible(e, w, s.fstate)
    requires e.work.FiberWork? ==> e.work.fiber in s.loc && s.loc[e.work.fiber] == Queued(e)
    ensures PickOk(w, Picked(e), s.runner)
  {
  }

  lemma {:induction false} PickKeepsExec(s: State, w: ThreadId)
    requires Tokens(s) && Exec(s) && w in s.workers && s.workers[w].pc.Scanning? && ScanResult(s, w) < |s.tasks.queue|
    ensures Exec(PickStep(s, w))
  {
    var e := s.tasks.queue[ScanResult(s, w)];
    assert Token(e.work).Some? ==> At(s, Token(e.work).value, Queued(e));
    EligibleIsIdle(s, w, e);
    ContinuesMoving(s, PickStep(s, w), w, Token(e.work), Held(w));
  }

  lemma {:induction false} OnlyThere(s: State, f: FiberId, l: Loc, m: Loc)
    requires OnePlace(s) && At(s, f, l) && m != l
    ensures !At(s, f, m)
  {
  }

  /** The picked fiber is on nobody's stack: its token is in the hands of this worker alone. */
  lemma {:induction false} PickedIsIdle(s: State, w: ThreadId)
    requires Tokens(s) && Exec(s) && HasPicked(s, w) && s.workers[w].pc.entry.work.FiberWork?
    ensures var f := s.workers[w].pc.entry.work.fiber;
      && f in s.fstate && !s.fstate[f].EXEC? && f !in s.runner && s.loc[f] == Held(w)
      && s.workers[w].cbFiber != Some(f)
      && (forall v | v in s.workers && v != w && s.workers[v].pc.Picked? :: s.workers[v].pc.entry.work != FiberWork(f))
  {
    var f := s.workers[w].pc.entry.work.fiber;
    assert At(s, f, Held(w));
    OnlyThere(s, f, Held(w), Cached(w));
    forall v | v in s.workers && v != w && s.workers[v].pc.Picked?
      ensures s.workers[v].pc.entry.work != FiberWork(f)
    {
      OnlyThere(s, f, Held(w), Held(v));
    }
  }

  lemma {:induction false} SwapInKeeps(s: State, w: ThreadId)
    requires Tokens(s) && Exec(s) && HasPicked(s, w) && s.workers[w].pc.entry.work.FiberWork?
    ensures Tokens(SwapInStep(s, w)) && Exec(SwapInStep(s, w))
  {
    var f := s.workers[w].pc.entry.work.fiber;
    PickedIsIdle(s, w);
    WorkerLetsGo(s, SwapInStep(s, w), w, Some(f), Own);
    Starts(s, SwapInStep(s, w), w, f);
  }

  lemma {:induction false} DropKeeps(s: State, w: ThreadId)
    requires Tokens(s) && Exec(s) && HasPicked(s, w) && s.workers[w].pc.entry.work.FiberWork?
    requires s.workers[w].pc.entry.work.fiber in s.fstate && Ended(s.fstate[s.workers[w].pc.entry.work.fiber])
    ensures Tokens(DropStep(s, w)) && Exec(DropStep(s, w))
  {
    PickedIsIdle(s, w);
    WorkerLetsGo(s, DropStep(s, w), w, Some(s.workers[w].pc.entry.work.fiber), Done);
    Continues(s, DropStep(s, w), w);
  }

  function CallbackFiber(s: State, w: ThreadId, spare: FiberId): FiberId
    requires w in s.workers
  {
    if s.workers[w].cbFiber.Some? then s.workers[w].cbFiber.value else spare
  }

  /** The fiber a callback is started on is either new, or the cached one, which is in INIT and
      mentioned by no place but the cache. */
  lemma {:induction false} CallbackFiberIsFree(s: State, w: ThreadId, spare: FiberId)
    requires Tokens(s) && Exec(s) && HasPicked(s, w) && s.workers[w].pc.entry.work.CallbackWork?
    requires s.workers[w].cbFiber.None? ==> spare !in s.fstate && spare !in s.loc
    ensures var c := CallbackFiber(s, w, spare);
      && c !in s.runner
      && (s.workers[w].cbFiber.Some? ==> c in s.fstate && s.fstate[c].INIT? && s.loc[c] == Cached(w))
      && (forall m :: At(s, c, m) ==> m == Cached(w))
  {
    if s.workers[w].cbFiber.Some? {
      assert At(s, s.workers[w].cbFiber.value, Cached(w));
    }
  }

  /** What a worker holds and caches when it starts a callback on the fiber `c`. */
  lemma {:induction false} StartedWorker(before: Worker, after: Worker, c: FiberId)
    requires before.pc.Picked? && before.pc.entry.work.CallbackWork? && !Holds(before.pc, c)
    requires after == Worker(Running(c, ViaCallback, JobOf(before.pc.entry.work.cb)), Some(c), before.idleDone)
    requires before.cbFiber.None? || before.cbFiber == Some(c)
    ensures forall g: FiberId :: Holds(after.pc, g) <==> Holds(before.pc, g) && g != c
    ensures forall g: FiberId :: Caches(after, g) <==> Caches(before, g) && g != c
  {
  }

  lemma {:induction false} StartKeepsTokens(s: State, w: ThreadId, spare: FiberId)
    requires Tokens(s) && HasPicked(s, w) && s.workers[w].pc.entry.work.CallbackWork?
    requires forall m :: At(s, CallbackFiber(s, w, spare), m) ==> m == Cached(w)
    requires s.workers[w].cbFiber.None? ==> spare !in s.loc
    ensures Tokens(StartStep(s, w, spare))
  {
    var c := CallbackFiber(s, w, spare);
    var u := StartStep(s, w, spare);
    assert !At(s, c, Held(w));
    assert s.workers[w].cbFiber.Some? ==> At(s, c, Cached(w));
    StartedWorker(s.workers[w], u.workers[w], c);
    WorkerLetsGo(s, u, w, Some(c), Own);
  }

  lemma {:induction false} StartKeeps(s: State, w: ThreadId, spare: FiberId)
    requires Tokens(s) && Exec(s) && HasPicked(s, w) && s.workers[w].pc.entry.work.CallbackWork?
    requires s.workers[w].cbFiber.None? ==> spare !in s.fstate && spare !in s.loc
    ensures Tokens(StartStep(s, w, spare)) && Exec(StartStep(s, w, spare))
  {
    var c := CallbackFiber(s, w, spare);
    CallbackFiberIsFree(s, w, spare);
    StartKeepsTokens(s, w, spare);
    forall v | v in s.workers && s.workers[v].pc.Picked?
      ensures s.workers[v].pc.entry.work != FiberWork(c)
    {
      assert !At(s, c, Held(v));
    }
    Starts(s, StartStep(s, w, spare), w, c);
  }

  /** The fiber on the stack of `w` changes its own state on the way out. */
  lemma {:induction false} LeaveKeepsStates(fstate: States, loc: Locs, runner: Runners, f: FiberId, st: FiberState, l: Loc)
    requires StatesOk(fstate, loc, runner) && f in runner && Fits(st, l) && fstate[f].EXEC?
    ensures StatesOk(fstate[f := st], loc[f := l], runner)
  {
  }

  lemma {:induction false} LeaveKeepsWorkers(s: State, u: State, w: ThreadId, st: FiberState, l: Loc)
    requires Exec(s) && IsRunning(s, w) && w in u.workers
    requires u.workers == s.workers[w := s.workers[w].(pc := Returned(Self(s, w), s.workers[w].pc.mode))]
    requires u.runner == s.runner && u.fstate == s.fstate[Self(s, w) := st] && u.loc == s.loc[Self(s, w) := l]
    requires st.EXEC? ==> !l.Own?
    ensures RunnerOk(u.runner, u.workers) && WorkersOk(u.fstate, u.runner, u.workers)
    ensures LeavingOk(u.fstate, u.loc, u.workers)
  {
    forall v | v in u.workers && v != w && Executing(u.workers[v].pc).Some?
      ensures Executing(u.workers[v].pc) != Some(Self(s, w))
    {
      assert s.runner[Executing(s.workers[v].pc).value] == v;
      assert s.runner[Self(s, w)] == w;
    }
  }

  lemma {:induction false} LeaveKeeps(s: State, w: ThreadId, st: FiberState, l: Loc)
    requires Tokens(s) && Exec(s) && IsRunning(s, w) && Self(s, w) in s.loc && Fits(st, l)
    requires st.EXEC? ==> !l.Own?
    requires if s.loc[Self(s, w)].Own? then !IsPlace(l) else l == s.loc[Self(s, w)]
    ensures Tokens(LeaveStep(s, w, st, l)) && Exec(LeaveStep(s, w, st, l))
  {
    LeaveKeepsTokens(s, w, st, l);
    LeaveKeepsStates(s.fstate, s.loc, s.runner, Self(s, w), st, l);
    LeaveKeepsWorkers(s, LeaveStep(s, w, st, l), w, st, l);
  }

  lemma {:induction false} LeaveKeepsTokens(s: State, w: ThreadId, st: FiberState, l: Loc)
    requires Tokens(s) && IsRunning(s, w) && Self(s, w) in s.loc
    requires if s.loc[Self(s, w)].Own? then !IsPlace(l) else l == s.loc[Self(s, w)]
    ensures Tokens(LeaveStep(s, w, st, l))
  {
    var f := Self(s, w);
    var u := LeaveStep(s, w, st, l);
    if s.loc[f].Own? {
      assert !At(s, f, Held(w)) && !At(s, f, Cached(w));
      WorkerLetsGo(s, u, w, Some(f), l);
    } else {
      assert u.loc == s.loc;
      WorkerLetsGo(s, u, w, None, Transit);
    }
  }

  lemma {:induction false} DecrementKeeps(s: State, w: ThreadId)
    requires Tokens(s) && Exec(s) && w in s.workers && s.workers[w].pc.Returned?
    ensures Tokens(DecrementStep(s, w)) && Exec(DecrementStep(s, w))
  {
    WorkerLetsGo(s, DecrementStep(s, w), w, None, Transit);
    Continues(s, DecrementStep(s, w), w);
  }

  // ---------------------------------------------------------------- settling

  /** The fiber leaves the stack for good. */
  lemma {:induction false} Stops(s: State, u: State, w: ThreadId)
    requires Exec(s) && w in s.workers && s.workers[w].pc.Settling? && w in u.workers
    requires u.workers == s.workers[w := u.workers[w]] && u.workers[w].pc.Scanning?
    requires u.runner == s.runner - {s.workers[w].pc.fiber}
    requires u.fstate.Keys == s.fstate.Keys && u.loc.Keys == s.loc.Keys
    requires forall f | f in s.fstate && f != s.workers[w].pc.fiber :: u.fstate[f] == s.fstate[f]
    requires forall f | f in s.loc && f != s.workers[w].pc.fiber :: u.loc[f] == s.loc[f]
    requires s.workers[w].pc.fiber in s.fstate && s.workers[w].pc.fiber in s.loc
    requires !u.fstate[s.workers[w].pc.fiber].EXEC? && !u.loc[s.workers[w].pc.fiber].Own?
    requires u.loc[s.workers[w].pc.fiber].Cached? ==> u.fstate[s.workers[w].pc.fiber].INIT?
    requires u.loc[s.workers[w].pc.fiber].Done? ==> Ended(u.fstate[s.workers[w].pc.fiber])
    ensures Exec(u)
  {
    var g := s.workers[w].pc.fiber;
    OffTheStack(s.runner, s.workers, u.workers, w);
    StatesWithout(s.fstate, s.loc, s.runner, u.fstate, u.loc, g);
    WorkersWithout(s.fstate, s.runner, s.workers, u.fstate, u.workers, w, g);
    LeavingWithout(s.fstate, s.loc, s.workers, u.fstate, u.loc, u.workers, w, g);
  }

  lemma {:induction false} WorkersWithout(fstate: States, runner: Runners, workers: Workers, fstate': States,
                                          workers': Workers, w: ThreadId, g: FiberId)
    requires WorkersOk(fstate, runner, workers) && w in workers && w in workers' && workers' == workers[w := workers'[w]]
    requires workers'[w].pc.Scanning? && fstate'.Keys == fstate.Keys
    requires forall f | f in fstate && f != g :: fstate'[f] == fstate[f]
    requires forall v | v in workers && v != w && Executing(workers[v].pc).Some? :: Executing(workers[v].pc) != Some(g)
    ensures WorkersOk(fstate', runner - {g}, workers')
  {
    forall v | v in workers' && workers'[v].pc.Running?
      ensures workers'[v].pc.fiber in fstate' && fstate'[workers'[v].pc.fiber].EXEC?
    {
      assert Executing(workers[v].pc) == Some(workers[v].pc.fiber);
    }
  }

  lemma {:induction false} LeavingWithout(fstate: States, loc: Locs, workers: Workers, fstate': States, loc': Locs,
                                          workers': Workers, w: ThreadId, g: FiberId)
    requires LeavingOk(fstate, loc, workers) && w in workers' && workers' == workers[w := workers'[w]]
    requires workers'[w].pc.Scanning? && fstate'.Keys == fstate.Keys && loc'.Keys == loc.Keys
    requires forall f | f in fstate && f != g :: fstate'[f] == fstate[f]
    requires forall f | f in loc && f != g :: loc'[f] == loc[f]
    requires forall v | v in workers && v != w && Executing(workers[v].pc).Some? :: Executing(workers[v].pc) != Some(g)
    ensures LeavingOk(fstate', loc', workers')
  {
    forall v | v in workers' && Leaving(workers'[v].pc) ensures workers'[v].pc.fiber != g {
      assert Executing(workers[v].pc) == Some(workers[v].pc.fiber);
    }
  }

  lemma {:induction false} OffTheStack(runner: Runners, workers: Workers, workers': Workers, w: ThreadId)
    requires RunnerOk(runner, workers) && w in workers && workers[w].pc.Settling? && w in workers'
    requires workers' == workers[w := workers'[w]] && workers'[w].pc.Scanning?
    ensures RunnerOk(runner - {workers[w].pc.fiber}, workers')
    ensures forall v | v in workers && v != w && Executing(workers[v].pc).Some? ::
              Executing(workers[v].pc) != Some(workers[w].pc.fiber)
  {
    forall v | v in workers && v != w && Executing(workers[v].pc).Some?
      ensures Executing(workers[v].pc) != Some(workers[w].pc.fiber)
    {
      assert runner[Executing(workers[v].pc).value] == v;
      assert runner[workers[w].pc.fiber] == w;
    }
  }

  lemma {:induction false} StatesWithout(fstate: States, loc: Locs, runner: Runners, fstate': States, loc': Locs, g: FiberId)
    requires StatesOk(fstate, loc, runner) && g in fstate && g in loc
    requires fstate'.Keys == fstate.Keys && loc'.Keys == loc.Keys
    requires forall f | f in fstate && f != g :: fstate'[f] == fstate[f]
    requires forall f | f in loc && f != g :: loc'[f] == loc[f]
    requires !fstate'[g].EXEC? && !loc'[g].Own? && (loc'[g].Cached? ==> fstate'[g].INIT?)
    requires loc'[g].Done? ==> Ended(fstate'[g])
    ensures StatesOk(fstate', loc', runner - {g})
  {
  }

  /** What `Stops` asks for when the fiber goes off the stack. */
  lemma {:induction false} OffStackKeepsExec(s: State, w: ThreadId, st: FiberState, loc: Locs, ended: bool)
    requires Exec(s) && w in s.workers && s.workers[w].pc.Settling?
    requires s.workers[w].pc.fiber in s.fstate && s.workers[w].pc.fiber in s.loc && loc.Keys == s.loc.Keys
    requires forall f | f in s.loc && f != s.workers[w].pc.fiber :: loc[f] == s.loc[f]
    requires !st.EXEC? && !loc[s.workers[w].pc.fiber].Own?
    requires (loc[s.workers[w].pc.fiber].Cached? ==> st.INIT?) && (loc[s.workers[w].pc.fiber].Done? ==> Ended(st))
    ensures Exec(OffStack(s, w, st, loc, ended))
  {
    Stops(s, OffStack(s, w, st, loc, ended), w);
  }

  lemma {:induction false} OnStackIsKnown(s: State, w: ThreadId)
    requires Exec(s) && w in s.workers && s.workers[w].pc.Settling?
    ensures var f := s.workers[w].pc.fiber;
      && f in s.runner && f in s.fstate && f in s.loc && Fits(s.fstate[f], s.loc[f])
      && (s.fstate[f].EXEC? ==> !s.loc[f].Own?)
      && (s.workers[w].pc.mode.ViaCallback? ==> s.workers[w].cbFiber == Some(f))
      && (s.workers[w].pc.mode.Direct? ==> s.workers[w].cbFiber != Some(f))
  {
    var f := s.workers[w].pc.fiber;
    assert Executing(s.workers[w].pc) == Some(f) && CacheOk(s.workers[w]) && Leaving(s.workers[w].pc);
    assert f in s.runner;
  }

  lemma {:induction false} SettleReadyExec(s: State, w: ThreadId)
    requires Exec(s) && w in s.workers && s.workers[w].pc.Settling?
    requires s.workers[w].pc.fiber in s.fstate && s.fstate[s.workers[w].pc.fiber].READY?
    ensures Exec(SettleStep(s, w))
  {
    var f := s.workers[w].pc.fiber;
    OnStackIsKnown(s, w);
    var u := OffStack(s, w, READY, s.loc[f := Transit], false);
    OffStackKeepsExec(s, w, READY, s.loc[f := Transit], false);
    PushCalls(u, FiberWork(f), ANY_THREAD);
    CallsKeepExec(u, SettleStep(s, w));
  }

  lemma {:induction false} SettleReadyTokens(s: State, w: ThreadId)
    requires Tokens(s) && Exec(s) && w in s.workers && s.workers[w].pc.Settling?
    requires s.workers[w].pc.fiber in s.fstate && s.fstate[s.workers[w].pc.fiber].READY?
    ensures Tokens(SettleStep(s, w))
  {
    var f := s.workers[w].pc.fiber;
    OnStackIsKnown(s, w);
    var u := OffStack(s, w, READY, s.loc[f := Transit], false);
    OwnIsNowhere(s, f);
    WorkerLetsGo(s, u, w, Some(f), Transit);
    PushKeepsTokens(u, FiberWork(f), ANY_THREAD);
  }

  lemma {:induction false} OwnIsNowhere(s: State, f: FiberId)
    requires OnePlace(s) && f in s.loc && !IsPlace(s.loc[f])
    ensures forall l :: !At(s, f, l)
  {
    assert forall l :: At(s, f, l) ==> IsPlace(l);
  }

  /** Leaving the stack moves no token if the fiber is not the one cached, or loses its cache. */
  lemma {:induction false} OffStackKeepsTokens(s: State, w: ThreadId, st: FiberState, ended: bool)
    requires Tokens(s) && w in s.workers && s.workers[w].pc.Settling? && s.workers[w].pc.fiber in s.fstate
    requires s.workers[w].pc.mode.ViaCallback? ==> s.workers[w].cbFiber == Some(s.workers[w].pc.fiber) && !ended
    requires s.workers[w].pc.mode.Direct? ==> s.workers[w].cbFiber != Some(s.workers[w].pc.fiber)
    ensures Tokens(OffStack(s, w, st, s.loc, ended))
  {
    WorkerLetsGo(s, OffStack(s, w, st, s.loc, ended), w, None, Transit);
  }

  lemma {:induction false} SettleHoldKeeps(s: State, w: ThreadId)
    requires Tokens(s) && Exec(s) && w in s.workers && s.workers[w].pc.Settling?
    requires s.workers[w].pc.fiber in s.fstate && s.fstate[s.workers[w].pc.fiber].EXEC?
    ensures Tokens(SettleStep(s, w)) && Exec(SettleStep(s, w))
  {
    OnStackIsKnown(s, w);
    OffStackKeepsExec(s, w, HOLD, s.loc, false);
    OffStackKeepsTokens(s, w, HOLD, false);
  }

  lemma {:induction false} CachedPlaces(s: State, u: State, w: ThreadId, f: FiberId, g: FiberId, m: Loc)
    requires w in s.workers && Executing(s.workers[w].pc) == Some(f) && s.workers[w].cbFiber == Some(f)
    requires s.workers[w].pc.Settling? && u.workers == s.workers[w := s.workers[w].(pc := Scanning)]
    requires u.tasks == s.tasks && u.fds == s.fds && u.sems == s.sems && u.timers == s.timers
    ensures At(u, g, m) <==> At(s, g, m) || (g == f && m == Cached(w))
  {
    if !m.Cached? && !m.Held? {
      OtherPlaces(s, u, g, m);
    } else if m.worker != w {
      assert m.worker in u.workers <==> m.worker in s.workers;
      assert m.worker in s.workers ==> u.workers[m.worker] == s.workers[m.worker];
    } else {
      assert !Holds(u.workers[w].pc, g) && !Holds(s.workers[w].pc, g) && !Caches(s.workers[w], g);
    }
  }

  lemma {:induction false} SettleEndedKeepsTokens(s: State, u: State, w: ThreadId)
    requires Tokens(s) && w in s.workers && s.workers[w].pc.Settling? && s.workers[w].pc.mode.ViaCallback?
    requires s.workers[w].cbFiber == Some(s.workers[w].pc.fiber)
    requires s.workers[w].pc.fiber in s.loc && s.loc[s.workers[w].pc.fiber].Done?
    requires u == OffStack(s, w, INIT, s.loc[s.workers[w].pc.fiber := Cached(w)], true)
    ensures Tokens(u)
  {
    var f := s.workers[w].pc.fiber;
    assert u.tasks.queue == s.tasks.queue && u.fds == s.fds && u.sems == s.sems && u.timers == s.timers && u.tasks.next == s.tasks.next;
    assert u.workers[w] == s.workers[w].(pc := Scanning);
    forall g: FiberId, m
      ensures At(u, g, m) <==> At(s, g, m) || (g == f && m == Cached(w))
    {
      CachedPlaces(s, u, w, f, g, m);
    }
    MoveKeepsOnePlace(s, u, Some(f), Cached(w));
  }

  lemma {:induction false} SettleEndedDirect(s: State, w: ThreadId)
    requires Tokens(s) && Exec(s) && w in s.workers && s.workers[w].pc.Settling? && s.workers[w].pc.mode.Direct?
    requires s.workers[w].pc.fiber in s.fstate && Ended(s.fstate[s.workers[w].pc.fiber])
    ensures Tokens(SettleStep(s, w)) && Exec(SettleStep(s, w))
  {
    OnStackIsKnown(s, w);
    var st := s.fstate[s.workers[w].pc.fiber];
    OffStackKeepsExec(s, w, st, s.loc, true);
    OffStackKeepsTokens(s, w, st, true);
  }

  lemma {:induction false} SettleEndedViaCallback(s: State, w: ThreadId)
    requires Tokens(s) && Exec(s) && w in s.workers && s.workers[w].pc.Settling? && s.workers[w].pc.mode.ViaCallback?
    requires s.workers[w].pc.fiber in s.fstate && Ended(s.fstate[s.workers[w].pc.fiber])
    ensures Tokens(SettleStep(s, w)) && Exec(SettleStep(s, w))
  {
    var f := s.workers[w].pc.fiber;
    OnStackIsKnown(s, w);
    OffStackKeepsExec(s, w, INIT, s.loc[f := Cached(w)], true);
    SettleEndedKeepsTokens(s, OffStack(s, w, INIT, s.loc[f := Cached(w)], true), w);
  }

  lemma {:induction false} SettleKeeps(s: State, w: ThreadId)
    requires Tokens(s) && Exec(s) && w in s.workers && s.workers[w].pc.Settling? && s.workers[w].pc.fiber in s.fstate
    ensures Tokens(SettleStep(s, w)) && Exec(SettleStep(s, w))
  {
    var f := s.workers[w].pc.fiber;
    assert f in s.runner;
    if s.fstate[f].READY? {
      SettleReadyTokens(s, w);
      SettleReadyExec(s, w);
    } else if s.fstate[f].EXEC? {
      SettleHoldKeeps(s, w);
    } else if s.workers[w].pc.mode.Direct? {
      SettleEndedDirect(s, w);
    } else {
      SettleEndedViaCallback(s, w);
    }
  }

  // ---------------------------------------------------------------- the idle fiber and callbacks

  lemma {:induction false} ExpireKeepsExec(s: State, w: ThreadId, t: nat)
    requires Tokens(s) && Exec(s) && IsIdling(s, w) && t in s.timers
    ensures Exec(ExpireStep(s, w, t))
  {
    var token := CallbackToken(s.timers[t].cb);
    assert token.Some? ==> At(s, token.value, AtTimer(t));
    ContinuesMoving(s, ExpireStep(s, w, t), w, token, Held(w));
  }

  lemma {:induction false} PushExpiredKeepsExec(s: State, w: ThreadId)
    requires Tokens(s) && Exec(s) && IsIdling(s, w) && s.workers[w].pc.cbs != []
    ensures Exec(PushExpiredStep(s, w))
  {
    var cbs := s.workers[w].pc.cbs;
    var token := CallbackToken(cbs[0]);
    var u := SetPc(s, w, Idling(cbs[1..])).(loc := Move(s.loc, token, Transit));
    assert token.Some? ==> At(s, token.value, Held(w));
    ContinuesMoving(s, u, w, token, Transit);
    if token.Some? { WaitingIsLoose(u, token.value); }
    PushCalls(u, CallbackWork(cbs[0]), ANY_THREAD);
    CallsKeepExec(u, PushExpiredStep(s, w));
  }

  lemma {:induction false} ResumeKeepsExec(s: State, w: ThreadId, f: FiberId)
    requires Tokens(s) && Exec(s) && w in s.workers && s.workers[w].pc.Running? && s.workers[w].pc.job == Resume(f)
    ensures Exec(ResumeStep(s, w))
  {
    var u := GoOn(s, w, Plain).(loc := s.loc[f := Transit]);
    assert At(s, f, Held(w));
    ContinuesMoving(s, u, w, Some(f), Transit);
    WaitingIsLoose(u, f);
    PushCalls(u, FiberWork(f), ANY_THREAD);
    CallsKeepExec(u, ResumeStep(s, w));
  }

  /** Running a cancellation is moving on and then calling `cancelEvent`. */
  lemma {:induction false} CancelJobCalls(s: State, u: State, w: ThreadId, willing: bool)
    requires Tokens(s) && Exec(s) && w in s.workers && s.workers[w].pc.Running? && s.workers[w].pc.job.Cancel?
    requires u == GoOn(s, w, Plain)
    ensures Exec(u) && Calls(u, CancelStep(s, w, willing))
  {
    var job := s.workers[w].pc.job;
    JobDoneKeepsTokens(s, w);
    ContinuesMoving(s, u, w, None, Transit);
    CancelCalls(u, job.call.fd, job.call.event, willing);
  }

  lemma {:induction false} CancelJobKeepsExec(s: State, w: ThreadId, willing: bool)
    requires Tokens(s) && Exec(s) && w in s.workers && s.workers[w].pc.Running? && s.workers[w].pc.job.Cancel?
    ensures Exec(CancelStep(s, w, willing))
  {
    var u := GoOn(s, w, Plain);
    CancelJobCalls(s, u, w, willing);
    CallsKeepExec(u, CancelStep(s, w, willing));
  }

  lemma {:induction false} TimeoutJobKeepsExec(s: State, w: ThreadId)
    requires Exec(s) && w in s.workers && s.workers[w].pc.Running? && IsFlagJob(s.workers[w].pc.job)
    ensures Exec(TimeoutStep(s, w))
  {
    ContinuesMoving(s, TimeoutStep(s, w), w, None, Transit);
  }

  lemma {:induction false} JobKeepsExec(s: State, w: ThreadId, willing: bool)
    requires Tokens(s) && Exec(s) && w in s.workers && s.workers[w].pc.Running?
    ensures Exec(JobStep(s, w, willing))
  {
    var job := s.workers[w].pc.job;
    if job.Resume? {
      ResumeKeepsExec(s, w, job.fiber);
    } else if job.Cancel? {
      CancelJobKeepsExec(s, w, willing);
    } else if IsFlagJob(job) {
      TimeoutJobKeepsExec(s, w);
    }
  }

  /** The worker goes from one phase of its loop to another with nothing in hand and no fiber. */
  lemma {:induction false} IdlePhaseKeeps(s: State, u: State, w: ThreadId)
    requires Tokens(s) && Exec(s) && w in s.workers
    requires s.workers[w].pc == Scanning || s.workers[w].pc == Idling([])
    requires w in u.workers && u == s.(workers := s.workers[w := u.workers[w]])
    requires u.workers[w].cbFiber == s.workers[w].cbFiber
    requires u.workers[w].pc == Scanning || u.workers[w].pc == Idling([]) || u.workers[w].pc == Exited
    ensures Tokens(u) && Exec(u)
  {
    WorkerLetsGo(s, u, w, None, Transit);
    Continues(s, u, w);
  }
}
