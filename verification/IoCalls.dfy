/** The flags of `do_io` calls, and which call made which registration, kept by every step. */
module IoCalls {
  import opened Fibers
  import opened EventTable
  import opened Runtime
  import opened WakeTokens
  import opened Execution
  import opened Deliveries
  import opened TableSteps

  /** The flags raised are those of the calls in the record of raises. */
  ghost predicate FlagsOk(io: Io) {
    && (forall c | c in io.infos :: io.infos[c] <==> c in io.timeouts)
    && (forall c | c in io.timeouts :: c in io.infos)
  }

  /** A fiber is in at most one call, no two fibers are in the same one, and every call has a flag. */
  ghost predicate OpenOk(io: Io) {
    && (forall f | f in io.open :: io.open[f] in io.infos)
    && (forall f, g | f in io.open && g in io.open && f != g :: io.open[f] != io.open[g])
  }

  /** The call that a registration in force belongs to: the one its fiber is in. */
  function CallOf(work: Work, open: map<FiberId, IoCall>): Option<IoCall> {
    if work.FiberWork? && work.fiber in open then Some(open[work.fiber]) else None
  }

  /** What is in force at an event was registered by this call, or by none. */
  ghost predicate LinkOk(t: Table, calls: map<nat, IoCall>, fd: nat, ev: Event, call: Option<IoCall>)
    requires IsSet(t.fds, fd, ev)
  {
    var r := Reg(t.fds, fd, ev);
    if call.Some? then r in calls && calls[r] == call.value && call.value.fd == fd && call.value.event == ev
    else r !in calls
  }

  /** Fibers are registered as such, not through callbacks that resume them. */
  predicate IsPlain(work: Work) {
    work.FiberWork? || !work.cb.ResumeFiber?
  }

  ghost predicate LinksOk(t: Table, open: map<FiberId, IoCall>, calls: map<nat, IoCall>) {
    && (forall r | r in calls :: r < t.adds)
    && (forall i :: 0 <= i < |t.owners| ==> IsPlain(t.owners[i]))
    && (forall fd: nat, ev | IsSet(t.fds, fd, ev) && Reg(t.fds, fd, ev) < |t.owners| ::
          LinkOk(t, calls, fd, ev, CallOf(t.owners[Reg(t.fds, fd, ev)], open)))
  }

  // ---------------------------------------------------------------- registrations go

  /** No new registration; those in force are among the old ones. */
  ghost predicate Fewer(t: Table, u: Table) {
    && u.owners == t.owners && u.adds == t.adds
    && (forall fd: nat, ev :: IsSet(u.fds, fd, ev) ==> IsSet(t.fds, fd, ev) && Reg(u.fds, fd, ev) == Reg(t.fds, fd, ev))
  }

  lemma {:induction false} FewerKeepsLinks(t: Table, u: Table, open: map<FiberId, IoCall>, calls: map<nat, IoCall>)
    requires LinksOk(t, open, calls) && Fewer(t, u)
    ensures LinksOk(u, open, calls)
  {
    forall fd: nat, ev | IsSet(u.fds, fd, ev) && Reg(u.fds, fd, ev) < |u.owners|
      ensures LinkOk(u, calls, fd, ev, CallOf(u.owners[Reg(u.fds, fd, ev)], open))
    {
      assert LinkOk(t, calls, fd, ev, CallOf(t.owners[Reg(t.fds, fd, ev)], open));
    }
  }

  lemma {:induction false} FewerOn(t: Table, u: Table, v: Table)
    requires Fewer(t, u) && Fewer(u, v)
    ensures Fewer(t, v)
  {
  }

  lemma {:induction false} UninstallIsFewer(t: Table, fd: nat, ev: Event)
    requires fd < |t.fds|
    ensures Fewer(t, Uninstall(t, fd, ev)) && |Uninstall(t, fd, ev).fds| == |t.fds|
  {
  }

  lemma {:induction false} TriggerIsFewer(t: Table, fd: nat, ev: Event, want: bool)
    requires fd < |t.fds|
    ensures Fewer(t, TriggerIf(t, fd, ev, want)) && |TriggerIf(t, fd, ev, want).fds| == |t.fds|
  {
    UninstallIsFewer(t, fd, ev);
  }

  lemma {:induction false} TriggersAreFewer(t: Table, fd: nat, left: set<Event>, read: bool, write: bool)
    requires fd < |t.fds|
    ensures var v := TriggerIf(Shrink(t, fd, left), fd, Read, read);
      fd < |v.fds| && Fewer(t, TriggerIf(v, fd, Write, write))
  {
    var u := Shrink(t, fd, left);
    assert Fewer(t, u);
    TriggerIsFewer(u, fd, Read, read);
    var v := TriggerIf(u, fd, Read, read);
    TriggerIsFewer(v, fd, Write, write);
    FewerOn(t, u, v);
    FewerOn(t, v, TriggerIf(v, fd, Write, write));
  }

  lemma {:induction false} CancelIsFewer(t: Table, fd: nat, ev: Event, willing: bool)
    ensures Fewer(t, EventTable.CancelEvent(t, fd, ev, willing))
  {
    if Removable(t, fd, ev, willing) {
      var u := Shrink(t, fd, t.fds[fd].events - {ev});
      TriggerIsFewer(u, fd, ev, true);
    }
  }

  lemma {:induction false} CancelAllIsFewer(t: Table, fd: nat, willing: bool)
    ensures Fewer(t, EventTable.CancelAll(t, fd, willing))
  {
    if Cancellable(t, fd, willing) {
      var u := Shrink(t, fd, {});
      var v := TriggerIf(u, fd, Read, Read in u.fds[fd].events);
      TriggerIsFewer(u, fd, Read, Read in u.fds[fd].events);
      TriggersAreFewer(t, fd, {}, Read in u.fds[fd].events, Write in v.fds[fd].events);
    }
  }

  lemma {:induction false} DispatchIsFewer(t: Table, fd: nat, reported: set<Event>, err: bool, willing: bool)
    requires fd < |t.fds| && Dispatch(t, fd, reported, err, willing).Dispatched?
    ensures Fewer(t, Dispatch(t, fd, reported, err, willing).table)
  {
    var ready := RealEvents(t, fd, reported, err);
    TriggersAreFewer(t, fd, t.fds[fd].events - ready, Read in ready, Write in ready);
  }

  lemma {:induction false} DeleteIsFewer(t: Table, fd: nat, ev: Event, willing: bool)
    ensures Fewer(t, DelEvent(t, fd, ev, willing))
  {
    if Removable(t, fd, ev, willing) {
      UninstallIsFewer(Shrink(t, fd, t.fds[fd].events - {ev}), fd, ev);
    }
  }

  // ---------------------------------------------------------------- registrations come

  /** What `addEvent` does to the history. */
  lemma {:induction false} AddedLast(t: Table, fd: nat, ev: Event, owner: Owner, willing: bool)
    requires |t.fds| >= 2 && !AddEvent(t, fd, ev, owner, willing).Aborted?
    ensures var r := AddEvent(t, fd, ev, owner, willing);
      if r.Added? then r.table.owners == t.owners + [WorkOf(owner)] && r.table.adds == t.adds + 1
      else r.table.owners == t.owners && r.table.adds == t.adds
  {
  }

  lemma {:induction false} RefusedKeepsLinks(t: Table, u: Table, fd: nat, ev: Event, owner: Owner, willing: bool,
                                             open: map<FiberId, IoCall>, calls: map<nat, IoCall>)
    requires Core(t) && LinksOk(t, open, calls)
    requires AddEvent(t, fd, ev, owner, willing) == Refused(u)
    ensures LinksOk(u, open, calls)
  {
    AddLeaves(t, fd, ev, owner, willing);
    AddedLast(t, fd, ev, owner, willing);
    FewerKeepsLinks(t, u, open, calls);
  }

  lemma {:induction false} AddedKeepsLinks(t: Table, u: Table, fd: nat, ev: Event, owner: Owner, willing: bool,
                                           open: map<FiberId, IoCall>, calls: map<nat, IoCall>, calls': map<nat, IoCall>)
    requires Core(t) && LinksOk(t, open, calls)
    requires AddEvent(t, fd, ev, owner, willing) == Added(u) && IsPlain(WorkOf(owner))
    requires var call := CallOf(WorkOf(owner), open);
      && (call.Some? ==> call.value.fd == fd && call.value.event == ev)
      && calls' == if call.Some? then calls[t.adds := call.value] else calls
    ensures LinksOk(u, open, calls')
  {
    AddLeaves(t, fd, ev, owner, willing);
    AddedLast(t, fd, ev, owner, willing);
    forall g: nat, e | IsSet(u.fds, g, e) && Reg(u.fds, g, e) < |u.owners|
      ensures LinkOk(u, calls', g, e, CallOf(u.owners[Reg(u.fds, g, e)], open))
    {
      if IsSet(t.fds, g, e) {
        assert Reg(u.fds, g, e) == Reg(t.fds, g, e) < t.adds;
        assert LinkOk(t, calls, g, e, CallOf(t.owners[Reg(t.fds, g, e)], open));
      } else {
        assert Reg(u.fds, g, e) == t.adds && u.owners[t.adds] == WorkOf(owner);
      }
    }
  }

  lemma {:induction false} AddFiberKeepsLinks(s: State, w: ThreadId, fd: nat, ev: Event, willing: bool)
    requires Core(s.fds) && LinksOk(s.fds, s.io.open, s.io.calls) && IsRunning(s, w)
    requires Self(s, w) in s.io.open ==> s.io.open[Self(s, w)].fd == fd && s.io.open[Self(s, w)].event == ev
    requires !AddEvent(s.fds, fd, ev, OwnFiber(Self(s, w)), willing).Aborted?
    ensures var u := AddFiberStep(s, w, fd, ev, willing);
      u.io == s.io.(calls := u.io.calls) && LinksOk(u.fds, u.io.open, u.io.calls)
  {
    var owner := OwnFiber(Self(s, w));
    var r := AddEvent(s.fds, fd, ev, owner, willing);
    if r.Added? {
      AddedKeepsLinks(s.fds, r.table, fd, ev, owner, willing, s.io.open, s.io.calls, LinkTo(s, Self(s, w)));
    } else {
      RefusedKeepsLinks(s.fds, r.table, fd, ev, owner, willing, s.io.open, s.io.calls);
    }
  }

  lemma {:induction false} AddCallbackKeepsLinks(s: State, a: Actor, id: nat, fd: nat, ev: Event, willing: bool)
    requires Core(s.fds) && LinksOk(s.fds, s.io.open, s.io.calls) && CallEnabled(s, AddCallbackEvent(a, id, fd, ev, willing))
    ensures var u := CallApply(s, AddCallbackEvent(a, id, fd, ev, willing));
      u.io == s.io.(calls := u.io.calls) && LinksOk(u.fds, u.io.open, u.io.calls)
  {
    var owner := OwnCallback(UserCallback(id));
    var r := AddEvent(s.fds, fd, ev, owner, willing);
    if r.Added? {
      AddedKeepsLinks(s.fds, r.table, fd, ev, owner, willing, s.io.open, s.io.calls, s.io.calls);
    } else {
      RefusedKeepsLinks(s.fds, r.table, fd, ev, owner, willing, s.io.open, s.io.calls);
    }
  }

  // ---------------------------------------------------------------- calls come and go

  /** A fiber that holds its own token has no registration in force. */
  lemma {:induction false} OwnIsUnregistered(s: State, f: FiberId, fd: nat, ev: Event)
    requires OnePlace(s) && Core(s.fds) && f in s.loc && s.loc[f].Own? && IsSet(s.fds.fds, fd, ev)
    ensures Reg(s.fds.fds, fd, ev) < |s.fds.owners| && s.fds.owners[Reg(s.fds.fds, fd, ev)] != FiberWork(f)
  {
    var r := Reg(s.fds.fds, fd, ev);
    assert Fires(s.fds.fds[fd].Ctx(ev)) == Some(s.fds.owners[r]);
    assert !At(s, f, AtFd(fd, ev));
  }

  /** Only the call of a fiber with its own token changes. */
  lemma {:induction false} OpenKeepsLinks(s: State, f: FiberId, open: map<FiberId, IoCall>)
    requires OnePlace(s) && Core(s.fds) && LinksOk(s.fds, s.io.open, s.io.calls) && f in s.loc && s.loc[f].Own?
    requires forall g | g != f :: (g in open <==> g in s.io.open) && (g in open ==> open[g] == s.io.open[g])
    ensures LinksOk(s.fds, open, s.io.calls)
  {
    forall fd: nat, ev | IsSet(s.fds.fds, fd, ev) && Reg(s.fds.fds, fd, ev) < |s.fds.owners|
      ensures LinkOk(s.fds, s.io.calls, fd, ev, CallOf(s.fds.owners[Reg(s.fds.fds, fd, ev)], open))
    {
      OwnIsUnregistered(s, f, fd, ev);
      var work := s.fds.owners[Reg(s.fds.fds, fd, ev)];
      assert CallOf(work, open) == CallOf(work, s.io.open);
    }
  }

  ghost predicate Linked(t: Table, io: Io) {
    FlagsOk(io) && OpenOk(io) && LinksOk(t, io.open, io.calls)
  }

  lemma {:induction false} EnterKeepsOpen(io: Io, f: FiberId, call: IoCall)
    requires FlagsOk(io) && OpenOk(io) && call !in io.infos
    ensures var u := io.(infos := io.infos[call := false], open := io.open[f := call]); FlagsOk(u) && OpenOk(u)
  {
  }

  lemma {:induction false} RaiseKeepsFlags(io: Io, call: IoCall)
    requires FlagsOk(io) && OpenOk(io)
    ensures FlagsOk(Raised(io, call)) && OpenOk(Raised(io, call))
  {
    assert forall c :: c in io.timeouts + [call] <==> c in io.timeouts || c == call;
  }

  lemma {:induction false} EnterKeepsLinks(s: State, w: ThreadId, call: IoCall)
    requires Linked(s.fds, s.io) && OnePlace(s) && Core(s.fds) && CallEnabled(s, EnterIo(w, call))
    ensures var u := CallApply(s, EnterIo(w, call)); Linked(u.fds, u.io)
  {
    EnterKeepsOpen(s.io, Self(s, w), call);
    OpenKeepsLinks(s, Self(s, w), s.io.open[Self(s, w) := call]);
  }

  lemma {:induction false} LeaveKeepsLinks(s: State, w: ThreadId)
    requires Linked(s.fds, s.io) && OnePlace(s) && Core(s.fds) && CallEnabled(s, LeaveIo(w))
    ensures var u := CallApply(s, LeaveIo(w)); Linked(u.fds, u.io)
  {
    OpenKeepsLinks(s, Self(s, w), s.io.open - {Self(s, w)});
  }

  // ---------------------------------------------------------------- every step

  /** The calls are as before, and so are the registrations except for some that are gone. */
  lemma {:induction false} FewerKeepsLinked(s: State, u: State)
    requires Linked(s.fds, s.io) && SameCalls(s, u) && Fewer(s.fds, u.fds)
    ensures Linked(u.fds, u.io)
  {
    FewerKeepsLinks(s.fds, u.fds, s.io.open, s.io.calls);
  }

  lemma {:induction false} DeleteKeepsLinks(s: State, fd: nat, ev: Event, willing: bool)
    requires Linked(s.fds, s.io)
    ensures var u := DeleteStep(s, fd, ev, willing); Linked(u.fds, u.io)
  {
    DeleteIsFewer(s.fds, fd, ev, willing);
    FewerKeepsLinked(s, DeleteStep(s, fd, ev, willing));
  }

  lemma {:induction false} CancelAllKeepsLinks(s: State, fd: nat, willing: bool)
    requires Linked(s.fds, s.io)
    ensures var u := DoCancelAll(s, fd, willing); Linked(u.fds, u.io)
  {
    CancelAllIsFewer(s.fds, fd, willing);
    CancelAllIsTableCancel(s, fd, willing);
    CancelAllKeepsWorkers(s, fd, willing);
    FewerKeepsLinked(s, DoCancelAll(s, fd, willing));
  }

  lemma {:induction false} EventCallKeepsLinks(s: State, st: CallStep)
    requires Linked(s.fds, s.io) && EventTable.Inv(s.fds) && CallEnabled(s, st) && IsEventCall(st)
    ensures var u := CallApply(s, st); Linked(u.fds, u.io)
  {
    if st.AddFiberEvent? || st.AddCallbackEvent? {
      AddingKeepsLinks(s, st);
    } else if st.DeleteEvent? {
      DeleteKeepsLinks(s, st.fd, st.ev, st.willing);
    } else if st.CancelOne? {
      CancelKeepsLinks(s, st.fd, st.ev, st.willing);
    } else {
      CancelAllKeepsLinks(s, st.fd, st.willing);
    }
  }

  lemma {:induction false} AddingKeepsLinks(s: State, st: CallStep)
    requires Linked(s.fds, s.io) && EventTable.Inv(s.fds) && CallEnabled(s, st) && (st.AddFiberEvent? || st.AddCallbackEvent?)
    ensures var u := CallApply(s, st); Linked(u.fds, u.io)
  {
    if st.AddFiberEvent? {
      AddFiberKeepsLinks(s, st.w, st.fd, st.ev, st.willing);
    } else {
      AddCallbackKeepsLinks(s, st.a, st.id, st.fd, st.ev, st.willing);
    }
  }

  lemma {:induction false} CancelKeepsLinks(s: State, fd: nat, ev: Event, willing: bool)
    requires Linked(s.fds, s.io)
    ensures var u := DoCancelEvent(s, fd, ev, willing); Linked(u.fds, u.io)
  {
    CancelIsFewer(s.fds, fd, ev, willing);
    CancelIsTableCancel(s, fd, ev, willing);
    CancelKeepsWorkers(s, fd, ev, willing);
    FewerKeepsLinked(s, DoCancelEvent(s, fd, ev, willing));
  }

  lemma {:induction false} OtherCallKeepsCalls(s: State, st: CallStep)
    requires CallEnabled(s, st) && !IsEventCall(st) && !st.EnterIo? && !st.LeaveIo?
    ensures SameCalls(s, CallApply(s, st))
  {
  }

  lemma {:induction false} CallKeepsLinks(s: State, st: CallStep)
    requires Linked(s.fds, s.io) && OnePlace(s) && EventTable.Inv(s.fds) && CallEnabled(s, st)
    ensures var u := CallApply(s, st); Linked(u.fds, u.io)
  {
    if st.EnterIo? {
      EnterKeepsLinks(s, st.w, st.call);
    } else if st.LeaveIo? {
      LeaveKeepsLinks(s, st.w);
    } else if IsEventCall(st) {
      EventCallKeepsLinks(s, st);
    } else {
      OtherCallLeavesTable(s, st);
      OtherCallKeepsCalls(s, st);
      FewerKeepsLinked(s, CallApply(s, st));
    }
  }

  /** The accesses to the flag. */
  lemma {:induction false} TimeoutKeepsLinks(s: State, u: State, w: ThreadId)
    requires Linked(s.fds, s.io) && w in s.workers && s.workers[w].pc.Running? && IsFlagJob(s.workers[w].pc.job)
    requires u == TimeoutStep(s, w)
    ensures Linked(u.fds, u.io)
  {
    var job := s.workers[w].pc.job;
    RaiseKeepsFlags(s.io, job.call);
    assert u.fds == s.fds && u.io == if job.Raise? then Raised(s.io, job.call) else s.io;
  }

  lemma {:induction false} ResumeKeepsCalls(s: State, w: ThreadId)
    requires w in s.workers && s.workers[w].pc.Running? && s.workers[w].pc.job.Resume?
    ensures SameCalls(s, ResumeStep(s, w))
  {
  }

  lemma {:induction false} CancelJobKeepsCalls(s: State, w: ThreadId, willing: bool)
    requires w in s.workers && s.workers[w].pc.Running? && s.workers[w].pc.job.Cancel?
    ensures SameCalls(s, CancelStep(s, w, willing))
  {
    var call := s.workers[w].pc.job.call;
    CancelKeepsWorkers(GoOn(s, w, Plain), call.fd, call.event, willing);
  }

  lemma {:induction false} CancelJobKeepsLinks(s: State, w: ThreadId, u: State, willing: bool)
    requires Linked(s.fds, s.io) && w in s.workers && s.workers[w].pc.Running? && s.workers[w].pc.job.Cancel?
    requires u == CancelStep(s, w, willing)
    ensures Linked(u.fds, u.io)
  {
    var call := s.workers[w].pc.job.call;
    assert GoOn(s, w, Plain).fds == s.fds && GoOn(s, w, Plain).io == s.io;
    CancelKeepsLinks(GoOn(s, w, Plain), call.fd, call.event, willing);
  }

  lemma {:induction false} JobKeepsLinks(s: State, w: ThreadId, willing: bool)
    requires Linked(s.fds, s.io) && w in s.workers && s.workers[w].pc.Running?
    ensures var u := JobStep(s, w, willing); Linked(u.fds, u.io)
  {
    match s.workers[w].pc.job
    case Plain =>
    case Resume(_) => ResumeLeavesTable(s, w); ResumeKeepsCalls(s, w);
    case Cancel(_) => CancelJobKeepsLinks(s, w, CancelStep(s, w, willing), willing);
    case _ => TimeoutKeepsLinks(s, TimeoutStep(s, w), w);
  }

  lemma {:induction false} ReportKeepsLinks(s: State, fd: nat, reported: set<Event>, err: bool, willing: bool)
    requires Linked(s.fds, s.io) && fd < |s.fds.fds| && Dispatch(s.fds, fd, reported, err, willing).Dispatched?
    ensures var u := DoDispatch(s, fd, reported, err, willing); Linked(u.fds, u.io)
  {
    DispatchIsFewer(s.fds, fd, reported, err, willing);
    ReportIsTableDispatch(s, fd, reported, err, willing);
    ReportKeepsWorkers(s, fd, reported, err, willing);
    FewerKeepsLinked(s, DoDispatch(s, fd, reported, err, willing));
  }

  lemma {:induction false} OtherLoopKeepsCalls(s: State, st: LoopStep)
    requires LoopEnabled(s, st) && !st.RunJob? && !st.Report?
    ensures SameCalls(s, LoopApply(s, st)) && LoopApply(s, st).fds == s.fds
  {
  }

  lemma {:induction false} LoopKeepsLinks(s: State, st: LoopStep)
    requires Linked(s.fds, s.io) && LoopEnabled(s, st)
    ensures var u := LoopApply(s, st); Linked(u.fds, u.io)
  {
    match st
    case RunJob(w, willing) => JobKeepsLinks(s, w, willing);
    case Report(_, fd, reported, err, willing) => ReportKeepsLinks(s, fd, reported, err, willing);
    case _ => OtherLoopKeepsCalls(s, st);
  }

  /** Every step keeps the links between registrations and the calls that made them. */
  lemma {:induction false} StepKeepsLinks(s: State, st: Step)
    requires Linked(s.fds, s.io) && OnePlace(s) && EventTable.Inv(s.fds) && Enabled(s, st)
    ensures var u := Apply(s, st); Linked(u.fds, u.io)
  {
    match st
    case Call(c) => CallKeepsLinks(s, c);
    case Loop(l) => LoopKeepsLinks(s, l);
  }
}
