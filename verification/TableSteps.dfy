/** What the steps of the runtime do to the event table: the operations of `EventTable`, or nothing. */
module TableSteps {
  import opened Fibers
  import opened EventTable
  import opened Runtime
  import opened WakeTokens
  import opened Execution
  import opened Deliveries

  lemma {:induction false} WakeIsTableTrigger(s: State, fd: nat, ev: Event)
    requires fd < |s.fds.fds|
    ensures WakeFrom(s, fd, ev).fds == Trigger(s.fds, fd, ev)
  {
    var c := s.fds.fds[fd].Ctx(ev);
    var u := s.(fds := Trigger(s.fds, fd, ev), loc := Move(s.loc, FdToken(c), Transit));
    assert u.fds == Trigger(s.fds, fd, ev);
  }

  lemma {:induction false} WakeBothIsTableTrigger(s: State, v: State, fd: nat, read: bool, write: bool)
    requires fd < |s.fds.fds| && v == WakeIf(s, fd, Read, read)
    ensures v.fds == TriggerIf(s.fds, fd, Read, read)
    ensures WakeIf(v, fd, Write, write).fds == TriggerIf(v.fds, fd, Write, write)
  {
    if read { WakeIsTableTrigger(s, fd, Read); }
    if write { WakeIsTableTrigger(v, fd, Write); }
  }

  lemma {:induction false} CancelIsTableCancel(s: State, fd: nat, ev: Event, willing: bool)
    ensures DoCancelEvent(s, fd, ev, willing).fds == EventTable.CancelEvent(s.fds, fd, ev, willing)
  {
    if Removable(s.fds, fd, ev, willing) {
      WakeIsTableTrigger(s.(fds := Shrink(s.fds, fd, s.fds.fds[fd].events - {ev})), fd, ev);
    }
  }

  lemma {:induction false} CancelAllIsTableCancel(s: State, fd: nat, willing: bool)
    ensures DoCancelAll(s, fd, willing).fds == EventTable.CancelAll(s.fds, fd, willing)
  {
    if Cancellable(s.fds, fd, willing) {
      var u := s.(fds := Shrink(s.fds, fd, {}));
      var v := WakeIf(u, fd, Read, Read in u.fds.fds[fd].events);
      WakeBothIsTableTrigger(u, v, fd, Read in u.fds.fds[fd].events, Write in v.fds.fds[fd].events);
    }
  }

  lemma {:induction false} ReportIsTableDispatch(s: State, fd: nat, reported: set<Event>, err: bool, willing: bool)
    requires fd < |s.fds.fds| && Dispatch(s.fds, fd, reported, err, willing).Dispatched?
    ensures DoDispatch(s, fd, reported, err, willing).fds == Dispatch(s.fds, fd, reported, err, willing).table
  {
    var ready := RealEvents(s.fds, fd, reported, err);
    if Dispatchable(s.fds, fd, ready, willing) {
      var u := s.(fds := Shrink(s.fds, fd, s.fds.fds[fd].events - ready));
      var v := WakeIf(u, fd, Read, Read in ready);
      WakeBothIsTableTrigger(u, v, fd, Read in ready, Write in ready);
    }
  }

  lemma {:induction false} OtherCallLeavesTable(s: State, st: CallStep)
    requires CallEnabled(s, st) && !IsEventCall(st)
    ensures CallApply(s, st).fds == s.fds
  {
    if !IsQuietCall(st) {
      if st.SemNotify? {
        NotifyLeavesTable(s, st.sem);
      }
    }
  }

  lemma {:induction false} NotifyLeavesTable(s: State, i: nat)
    requires i in s.sems
    ensures SemNotifyStep(s, i).fds == s.fds
  {
    if s.sems[i].waiters == [] {
      NotifyIsPermit(s, i);
    } else {
      NotifyIsPush(s, i);
    }
  }

  lemma {:induction false} CallKeepsTable(s: State, st: CallStep)
    requires EventTable.Inv(s.fds) && CallEnabled(s, st)
    ensures EventTable.Inv(CallApply(s, st).fds)
  {
    if st.CancelOne? {
      CancelEventKeepsInv(s.fds, st.fd, st.ev, st.willing);
      CancelIsTableCancel(s, st.fd, st.ev, st.willing);
    } else if st.CancelBoth? {
      CancelAllKeepsInv(s.fds, st.fd, st.willing);
      CancelAllIsTableCancel(s, st.fd, st.willing);
    } else if IsEventCall(st) {
      RegisteringKeepsTable(s, st);
    } else {
      OtherCallLeavesTable(s, st);
    }
  }

  lemma {:induction false} RegisteringKeepsTable(s: State, st: CallStep)
    requires EventTable.Inv(s.fds) && CallEnabled(s, st) && (st.AddFiberEvent? || st.AddCallbackEvent? || st.DeleteEvent?)
    ensures EventTable.Inv(CallApply(s, st).fds)
  {
    if st.AddFiberEvent? {
      AddEventKeepsInv(s.fds, st.fd, st.ev, OwnFiber(Self(s, st.w)), st.willing);
    } else if st.AddCallbackEvent? {
      AddEventKeepsInv(s.fds, st.fd, st.ev, OwnCallback(UserCallback(st.id)), st.willing);
    } else {
      DelEventKeepsInv(s.fds, st.fd, st.ev, st.willing);
    }
  }

  lemma {:induction false} ResumeLeavesTable(s: State, w: ThreadId)
    requires w in s.workers && s.workers[w].pc.Running? && s.workers[w].pc.job.Resume?
    ensures ResumeStep(s, w).fds == s.fds
  {
    assert GoOn(s, w, Plain).(loc := s.loc[s.workers[w].pc.job.fiber := Transit]).fds == s.fds;
  }

  lemma {:induction false} TimeoutLeavesTable(s: State, w: ThreadId)
    requires w in s.workers && s.workers[w].pc.Running? && IsFlagJob(s.workers[w].pc.job)
    ensures TimeoutStep(s, w).fds == s.fds
  {
  }

  lemma {:induction false} CancelKeepsTable(s: State, w: ThreadId, willing: bool)
    requires EventTable.Inv(s.fds) && w in s.workers && s.workers[w].pc.Running? && s.workers[w].pc.job.Cancel?
    ensures EventTable.Inv(CancelStep(s, w, willing).fds)
  {
    var job, u := s.workers[w].pc.job, GoOn(s, w, Plain);
    assert u.fds == s.fds;
    CancelEventKeepsInv(s.fds, job.call.fd, job.call.event, willing);
    CancelIsTableCancel(u, job.call.fd, job.call.event, willing);
  }

  lemma {:induction false} JobKeepsTable(s: State, w: ThreadId, willing: bool)
    requires EventTable.Inv(s.fds) && w in s.workers && s.workers[w].pc.Running?
    ensures EventTable.Inv(JobStep(s, w, willing).fds)
  {
    match s.workers[w].pc.job
    case Plain =>
    case Resume(_) => ResumeLeavesTable(s, w);
    case Cancel(_) => CancelKeepsTable(s, w, willing);
    case _ => TimeoutLeavesTable(s, w);
  }

  lemma {:induction false} LoopKeepsTable(s: State, st: LoopStep)
    requires EventTable.Inv(s.fds) && LoopEnabled(s, st)
    ensures EventTable.Inv(LoopApply(s, st).fds)
  {
    match st
    case RunJob(w, willing) => JobKeepsTable(s, w, willing);
    case Report(_, fd, reported, err, willing) =>
      DispatchKeepsInv(s.fds, fd, reported, err, willing);
      ReportIsTableDispatch(s, fd, reported, err, willing);
    case _ =>
      assert LoopApply(s, st).fds == s.fds;
  }
}
