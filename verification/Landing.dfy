/** No step leaves a token in transit: what it takes out of one place it puts into another, or gives to
    the running fiber, or marks as done or orphaned. */
module Landing {
  import opened Fibers
  import opened EventTable
  import opened Semaphores
  import opened Runtime
  import opened Deliveries

  ghost predicate Landed(loc: map<FiberId, Loc>) {
    forall f | f in loc :: !loc[f].Transit?
  }

  /** At most this token is in transit. */
  ghost predicate LandedBut(loc: map<FiberId, Loc>, token: Option<FiberId>) {
    forall f | f in loc && token != Some(f) :: !loc[f].Transit?
  }

  lemma {:induction false} PushLands(s: State, work: Work, thread: ThreadId, reg: Option<nat>)
    requires LandedBut(s.loc, Token(work))
    ensures Landed(Push(s, work, thread, reg).loc)
  {
  }

  lemma {:induction false} WakeLands(s: State, fd: nat, ev: Event)
    requires Landed(s.loc) && fd < |s.fds.fds|
    ensures Landed(WakeFrom(s, fd, ev).loc)
  {
    var c := s.fds.fds[fd].Ctx(ev);
    var u := s.(fds := Trigger(s.fds, fd, ev), loc := Move(s.loc, FdToken(c), Transit));
    if Fires(c).Some? {
      PushLands(u, Fires(c).value, ANY_THREAD, Some(c.reg));
    }
  }

  lemma {:induction false} WakeBothLands(s: State, fd: nat, read: bool, write: bool)
    requires Landed(s.loc) && fd < |s.fds.fds|
    ensures var v := WakeIf(s, fd, Read, read); fd < |v.fds.fds| && Landed(WakeIf(v, fd, Write, write).loc)
  {
    WakeKeepsWorkers(s, fd, Read);
    WakeLands(s, fd, Read);
    WakeLands(WakeIf(s, fd, Read, read), fd, Write);
  }

  lemma {:induction false} CancelLands(s: State, fd: nat, ev: Event, willing: bool)
    requires Landed(s.loc)
    ensures Landed(DoCancelEvent(s, fd, ev, willing).loc)
  {
    if Removable(s.fds, fd, ev, willing) {
      WakeLands(s.(fds := Shrink(s.fds, fd, s.fds.fds[fd].events - {ev})), fd, ev);
    }
  }

  lemma {:induction false} CancelAllLands(s: State, fd: nat, willing: bool)
    requires Landed(s.loc)
    ensures Landed(DoCancelAll(s, fd, willing).loc)
  {
    if Cancellable(s.fds, fd, willing) {
      var u := s.(fds := Shrink(s.fds, fd, {}));
      var read := Read in u.fds.fds[fd].events;
      WakeBothLands(u, fd, read, Write in WakeIf(u, fd, Read, read).fds.fds[fd].events);
    }
  }

  lemma {:induction false} ReportLands(s: State, fd: nat, reported: set<Event>, err: bool, willing: bool)
    requires Landed(s.loc) && fd < |s.fds.fds|
    ensures Landed(DoDispatch(s, fd, reported, err, willing).loc)
  {
    var ready := RealEvents(s.fds, fd, reported, err);
    if Dispatchable(s.fds, fd, ready, willing) {
      var u := s.(fds := Shrink(s.fds, fd, s.fds.fds[fd].events - ready));
      WakeBothLands(u, fd, Read in ready, Write in ready);
    }
  }

  lemma {:induction false} SchedulingLands(s: State, st: CallStep)
    requires Landed(s.loc) && CallEnabled(s, st) && (st.Spawn? || st.SpawnCallback? || st.Adopt? || st.SwitchTo?)
    ensures Landed(CallApply(s, st).loc)
  {
    match st
    case Spawn(_, f, thread) =>
      PushLands(s.(fstate := s.fstate[f := INIT], loc := s.loc[f := Transit]), FiberWork(f), thread, None);
    case SpawnCallback(_, id, thread) => PushLands(s, CallbackWork(UserCallback(id)), thread, None);
    case Adopt(_, f, thread) => PushLands(s.(loc := s.loc[f := Transit]), FiberWork(f), thread, None);
    case SwitchTo(w, thread) =>
      PushLands(s.(loc := s.loc[Self(s, w) := Transit]), FiberWork(Self(s, w)), thread, None);
  }

  lemma {:induction false} NotifyLands(s: State, i: nat)
    requires Landed(s.loc) && i in s.sems
    ensures Landed(SemNotifyStep(s, i).loc)
  {
    var e := Semaphores.Step(s.sems[i], Notify);
    if e.scheduled != [] {
      var u := s.(sems := s.sems[i := e.sem], loc := s.loc[e.scheduled[0] := Transit]);
      PushLands(u, FiberWork(e.scheduled[0]), ANY_THREAD, None);
    }
  }

  lemma {:induction false} AddFiberLands(s: State, w: ThreadId, fd: nat, ev: Event, willing: bool)
    requires Landed(s.loc) && IsRunning(s, w) && |s.fds.fds| >= 2
    requires !AddEvent(s.fds, fd, ev, OwnFiber(Self(s, w)), willing).Aborted?
    ensures Landed(AddFiberStep(s, w, fd, ev, willing).loc)
  {
    var u, f := AddFiberStep(s, w, fd, ev, willing), Self(s, w);
    assert u.loc == s.loc || u.loc == s.loc[f := AtFd(fd, ev)];
  }

  lemma {:induction false} DeleteLands(s: State, fd: nat, ev: Event, willing: bool)
    requires Landed(s.loc)
    ensures Landed(DeleteStep(s, fd, ev, willing).loc)
  {
  }

  lemma {:induction false} ParkingLands(s: State, st: CallStep)
    requires Landed(s.loc) && CallEnabled(s, st) && (IsQuietCall(st) || st.AddCallbackEvent?)
    ensures Landed(CallApply(s, st).loc)
  {
  }

  lemma {:induction false} CallLands(s: State, st: CallStep)
    requires Landed(s.loc) && CallEnabled(s, st)
    ensures Landed(CallApply(s, st).loc)
  {
    if st.Spawn? || st.SpawnCallback? || st.Adopt? || st.SwitchTo? {
      SchedulingLands(s, st);
    } else if st.CancelOne? {
      CancelLands(s, st.fd, st.ev, st.willing);
    } else if st.CancelBoth? {
      CancelAllLands(s, st.fd, st.willing);
    } else if st.SemNotify? {
      NotifyLands(s, st.sem);
    } else if st.AddFiberEvent? {
      AddFiberLands(s, st.w, st.fd, st.ev, st.willing);
    } else if st.DeleteEvent? {
      DeleteLands(s, st.fd, st.ev, st.willing);
    } else {
      ParkingLands(s, st);
    }
  }

  lemma {:induction false} SettleLands(s: State, w: ThreadId)
    requires Landed(s.loc) && w in s.workers && s.workers[w].pc.Settling? && s.workers[w].pc.fiber in s.fstate
    ensures Landed(SettleStep(s, w).loc)
  {
    var f := s.workers[w].pc.fiber;
    if s.fstate[f].READY? {
      var u := OffStack(s, w, READY, s.loc[f := Transit], false);
      PushLands(u, FiberWork(f), ANY_THREAD, None);
    }
  }

  lemma {:induction false} ResumeLands(s: State, w: ThreadId)
    requires Landed(s.loc) && w in s.workers && s.workers[w].pc.Running? && s.workers[w].pc.job.Resume?
    ensures Landed(ResumeStep(s, w).loc)
  {
    var pc := s.workers[w].pc;
    var f := pc.job.fiber;
    PushLands(GoOn(s, w, Plain).(loc := s.loc[f := Transit]), FiberWork(f), ANY_THREAD, None);
  }

  lemma {:induction false} CancelJobLands(s: State, w: ThreadId, willing: bool)
    requires Landed(s.loc) && w in s.workers && s.workers[w].pc.Running? && s.workers[w].pc.job.Cancel?
    ensures Landed(CancelStep(s, w, willing).loc)
  {
    var pc := s.workers[w].pc;
    CancelLands(GoOn(s, w, Plain), pc.job.call.fd, pc.job.call.event, willing);
  }

  lemma {:induction false} TimeoutLands(s: State, w: ThreadId)
    requires Landed(s.loc) && w in s.workers && s.workers[w].pc.Running? && IsFlagJob(s.workers[w].pc.job)
    ensures Landed(TimeoutStep(s, w).loc)
  {
    assert TimeoutStep(s, w).loc == s.loc;
  }

  lemma {:induction false} JobLands(s: State, w: ThreadId, willing: bool)
    requires Landed(s.loc) && LoopEnabled(s, RunJob(w, willing))
    ensures Landed(JobStep(s, w, willing).loc)
  {
    var job := s.workers[w].pc.job;
    if job.Resume? {
      ResumeLands(s, w);
    } else if job.Cancel? {
      CancelJobLands(s, w, willing);
    } else {
      TimeoutLands(s, w);
    }
  }

  lemma {:induction false} PushExpiredLands(s: State, w: ThreadId)
    requires Landed(s.loc) && LoopEnabled(s, PushExpired(w))
    ensures Landed(PushExpiredStep(s, w).loc)
  {
    var cbs := s.workers[w].pc.cbs;
    var u := SetPc(s, w, Idling(cbs[1..])).(loc := Move(s.loc, CallbackToken(cbs[0]), Transit));
    PushLands(u, CallbackWork(cbs[0]), ANY_THREAD, None);
  }

  lemma {:induction false} QuietLands(s: State, st: LoopStep)
    requires Landed(s.loc) && LoopEnabled(s, st) && (IsQuietLoop(st) || st.Pick?)
    ensures Landed(LoopApply(s, st).loc)
  {
  }

  lemma {:induction false} LoopLands(s: State, st: LoopStep)
    requires Landed(s.loc) && LoopEnabled(s, st)
    ensures Landed(LoopApply(s, st).loc)
  {
    if st.Settle? {
      SettleLands(s, st.w);
    } else if st.RunJob? {
      JobLands(s, st.w, st.willing);
    } else if st.PushExpired? {
      PushExpiredLands(s, st.w);
    } else if st.Report? {
      ReportLands(s, st.fd, st.reported, st.errorOrHangup, st.willing);
    } else {
      QuietLands(s, st);
    }
  }

  /** After every step every token is somewhere. */
  lemma {:induction false} StepLands(s: State, st: Step)
    requires Landed(s.loc) && Enabled(s, st)
    ensures Landed(Apply(s, st).loc)
  {
    match st
    case Call(c) => CallLands(s, c);
    case Loop(l) => LoopLands(s, l);
  }
}
