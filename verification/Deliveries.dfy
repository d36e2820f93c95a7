/** What each step puts on the queue, and the record of it: every accepted task keeps the work and the
    thread it was accepted with, and every triggered registration is accepted exactly once. */
module Deliveries {
  import opened Fibers
  import opened TaskQueue
  import opened EventTable
  import opened Runtime

  /** Something a step asks the scheduler to run; `reg` names the registration it answers. */
  datatype Request = Request(work: Work, thread: ThreadId, reg: Option<nat>)

  // ---------------------------------------------------------------- what is asked for

  /** What triggering an event asks for: the work it was registered for. */
  function Woken(t: Table, fd: nat, ev: Event): seq<Request> {
    if IsSet(t.fds, fd, ev) && Reg(t.fds, fd, ev) < |t.owners|
    then [Request(t.owners[Reg(t.fds, fd, ev)], ANY_THREAD, Some(Reg(t.fds, fd, ev)))]
    else []
  }

  function WokenIf(t: Table, fd: nat, ev: Event, want: bool): seq<Request> {
    if want then Woken(t, fd, ev) else []
  }

  function CallRequests(s: State, st: CallStep): seq<Request>
    requires CallEnabled(s, st)
  {
    match st
    case Spawn(_, f, thread) => [Request(FiberWork(f), thread, None)]
    case SpawnCallback(_, id, thread) => [Request(CallbackWork(UserCallback(id)), thread, None)]
    case Adopt(_, f, thread) => [Request(FiberWork(f), thread, None)]
    case SwitchTo(w, thread) => [Request(FiberWork(Self(s, w)), thread, None)]
    case CancelOne(_, fd, ev, willing) => WokenIf(s.fds, fd, ev, willing)
    case CancelBoth(_, fd, willing) => WokenIf(s.fds, fd, Read, willing) + WokenIf(s.fds, fd, Write, willing)
    case SemNotify(_, i) =>
      if s.sems[i].waiters == [] then [] else [Request(FiberWork(s.sems[i].waiters[0]), ANY_THREAD, None)]
    case _ => []
  }

  function LoopRequests(s: State, st: LoopStep): seq<Request>
    requires LoopEnabled(s, st)
  {
    match st
    case Settle(w) =>
      var f := s.workers[w].pc.fiber;
      if s.fstate[f].READY? then [Request(FiberWork(f), ANY_THREAD, None)] else []
    case PushExpired(w) => [Request(CallbackWork(s.workers[w].pc.cbs[0]), ANY_THREAD, None)]
    case RunJob(w, willing) => (
      match s.workers[w].pc.job
      case Resume(f) => [Request(FiberWork(f), ANY_THREAD, None)]
      case Cancel(call) => WokenIf(s.fds, call.fd, call.event, willing)
      case _ => [])
    case Report(_, fd, reported, err, willing) =>
      var ready := RealEvents(s.fds, fd, reported, err);
      WokenIf(s.fds, fd, Read, willing && Read in ready) + WokenIf(s.fds, fd, Write, willing && Write in ready)
    case _ => []
  }

  function Requests(s: State, st: Step): seq<Request>
    requires Enabled(s, st)
  {
    match st
    case Loop(l) => LoopRequests(s, l)
    case Call(c) => CallRequests(s, c)
  }

  // ---------------------------------------------------------------- the record

  function Numbered(rs: seq<Request>, next: nat): (acc: seq<Acceptance>)
    ensures |acc| == |rs|
    ensures forall i :: 0 <= i < |rs| ==>
              acc[i] == Acceptance(Entry(rs[i].work, rs[i].thread, next + i), rs[i].reg)
  {
    seq(|rs|, i requires 0 <= i < |rs| => Acceptance(Entry(rs[i].work, rs[i].thread, next + i), rs[i].reg))
  }

  function EntriesOf(acc: seq<Acceptance>): (q: seq<Entry>)
    ensures |q| == |acc| && forall i :: 0 <= i < |acc| ==> q[i] == acc[i].entry
  {
    seq(|acc|, i requires 0 <= i < |acc| => acc[i].entry)
  }

  /** The registrations among the accepted tasks, in order. */
  function Regs(acc: seq<Acceptance>): seq<nat> {
    if acc == [] then []
    else Regs(acc[..|acc| - 1]) + if acc[|acc| - 1].reg.Some? then [acc[|acc| - 1].reg.value] else []
  }

  /** From `s` to `u` exactly the requests `rs` are accepted, in order, and exactly their registrations
      are marked as woken. */
  ghost predicate Records(s: State, u: State, rs: seq<Request>) {
    && u.tasks.accepted == s.tasks.accepted + Numbered(rs, s.tasks.next)
    && u.tasks.next == s.tasks.next + |rs|
    && u.fds.woken == s.fds.woken + Regs(Numbered(rs, s.tasks.next))
    && s.fds.owners <= u.fds.owners
  }

  /** ... and put at the back of the queue. */
  ghost predicate Accepts(s: State, u: State, rs: seq<Request>) {
    Records(s, u, rs) && u.tasks.queue == s.tasks.queue + EntriesOf(Numbered(rs, s.tasks.next))
  }

  lemma {:induction false} RegsConcat(a: seq<Acceptance>, b: seq<Acceptance>)
    ensures Regs(a + b) == Regs(a) + Regs(b)
  {
    if b == [] {
      assert a + b == a;
    } else {
      var n := |b| - 1;
      RegsConcat(a, b[..n]);
      assert (a + b)[..|a + b| - 1] == a + b[..n];
    }
  }

  lemma {:induction false} NumberedConcat(a: seq<Request>, b: seq<Request>, next: nat)
    ensures Numbered(a + b, next) == Numbered(a, next) + Numbered(b, next + |a|)
  {
  }

  lemma {:induction false} AcceptsNothing(s: State, u: State)
    requires u.tasks == s.tasks
    requires u.fds.woken == s.fds.woken && s.fds.owners <= u.fds.owners
    ensures Accepts(s, u, [])
  {
  }

  lemma {:induction false} AcceptsBoth(s: State, u: State, v: State, a: seq<Request>, b: seq<Request>)
    requires Accepts(s, u, a) && Accepts(u, v, b)
    ensures Accepts(s, v, a + b)
  {
    var x, y := Numbered(a, s.tasks.next), Numbered(b, u.tasks.next);
    NumberedConcat(a, b, s.tasks.next);
    Regroup(s.tasks.accepted, x, y);
    RegsConcat(x, y);
    Regroup(s.fds.woken, Regs(x), Regs(y));
    EntriesConcat(x, y);
    Regroup(s.tasks.queue, EntriesOf(x), EntriesOf(y));
    assert Records(s, v, a + b);
  }

  lemma {:induction false} EntriesConcat(a: seq<Acceptance>, b: seq<Acceptance>)
    ensures EntriesOf(a + b) == EntriesOf(a) + EntriesOf(b)
  {
  }

  /** `schedule`, from a state in which the wake-up has been marked. */
  lemma {:induction false} PushAccepts(s: State, v: State, work: Work, thread: ThreadId, reg: Option<nat>)
    requires v.tasks == s.tasks
    requires v.fds.woken == s.fds.woken + (if reg.Some? then [reg.value] else [])
    requires s.fds.owners <= v.fds.owners
    ensures Accepts(s, Push(v, work, thread, reg), [Request(work, thread, reg)])
  {
    var acc := Numbered([Request(work, thread, reg)], s.tasks.next);
    assert acc == [Acceptance(Entry(work, thread, s.tasks.next), reg)];
    assert acc[..0] == [] && Regs([]) == [];
    assert Regs(acc) == if reg.Some? then [reg.value] else [];
  }

  /** Another start with the same queue and the same record. */
  lemma {:induction false} AcceptsFrom(s: State, u: State, v: State, rs: seq<Request>)
    requires Accepts(u, v, rs)
    requires u.tasks == s.tasks
    requires u.fds.woken == s.fds.woken && u.fds.owners == s.fds.owners
    ensures Accepts(s, v, rs)
  {
  }

  // ---------------------------------------------------------------- triggered events

  lemma {:induction false} WakeAccepts(s: State, fd: nat, ev: Event)
    requires Core(s.fds) && IsSet(s.fds.fds, fd, ev)
    ensures Accepts(s, WakeFrom(s, fd, ev), Woken(s.fds, fd, ev))
  {
    var c := s.fds.fds[fd].Ctx(ev);
    var r := Reg(s.fds.fds, fd, ev);
    assert r < s.fds.adds && Fires(c) == Some(s.fds.owners[r]);
    var u := s.(fds := Trigger(s.fds, fd, ev), loc := Move(s.loc, FdToken(c), Transit));
    PushAccepts(s, u, Fires(c).value, ANY_THREAD, Some(r));
  }

  lemma {:induction false} CancelAccepts(s: State, fd: nat, ev: Event, willing: bool)
    requires Inv(s.fds)
    ensures Accepts(s, DoCancelEvent(s, fd, ev, willing), WokenIf(s.fds, fd, ev, willing))
  {
    CancelEventKeepsInv(s.fds, fd, ev, willing);
    if Removable(s.fds, fd, ev, willing) {
      var u := s.(fds := Shrink(s.fds, fd, s.fds.fds[fd].events - {ev}));
      WakeAccepts(u, fd, ev);
    } else {
      AcceptsNothing(s, s);
    }
  }

  /** Waking the reader leaves the writer's registration as it is. */
  lemma {:induction false} WriterStays(s: State, fd: nat)
    requires Core(s.fds) && IsSet(s.fds.fds, fd, Read)
    ensures var v := WakeFrom(s, fd, Read);
      Core(v.fds) && Woken(v.fds, fd, Write) == Woken(s.fds, fd, Write)
      && (IsSet(v.fds.fds, fd, Write) <==> IsSet(s.fds.fds, fd, Write))
  {
    TriggerKeepsCore(s.fds, fd, Read);
    var c := s.fds.fds[fd].Ctx(Read);
    var u := s.(fds := Trigger(s.fds, fd, Read), loc := Move(s.loc, FdToken(c), Transit));
    assert WakeFrom(s, fd, Read).fds == u.fds;
  }

  lemma {:induction false} WakeBothAccepts(s: State, v: State, fd: nat, read: bool, write: bool)
    requires Core(s.fds) && fd < |s.fds.fds| && v == WakeIf(s, fd, Read, read)
    requires (read ==> IsSet(s.fds.fds, fd, Read)) && (write ==> IsSet(s.fds.fds, fd, Write))
    ensures fd < |v.fds.fds|
    ensures Accepts(s, WakeIf(v, fd, Write, write), WokenIf(s.fds, fd, Read, read) + WokenIf(s.fds, fd, Write, write))
  {
    if read {
      WakeAccepts(s, fd, Read);
      WriterStays(s, fd);
    } else {
      AcceptsNothing(s, v);
    }
    assert Core(v.fds) && Woken(v.fds, fd, Write) == Woken(s.fds, fd, Write);
    WakeOneAccepts(v, fd, Write, write);
    AcceptsBoth(s, v, WakeIf(v, fd, Write, write), WokenIf(s.fds, fd, Read, read), WokenIf(s.fds, fd, Write, write));
  }

  lemma {:induction false} WakeOneAccepts(s: State, fd: nat, ev: Event, want: bool)
    requires Core(s.fds) && fd < |s.fds.fds| && (want ==> IsSet(s.fds.fds, fd, ev))
    ensures Accepts(s, WakeIf(s, fd, ev, want), WokenIf(s.fds, fd, ev, want))
  {
    if want {
      WakeAccepts(s, fd, ev);
    } else {
      AcceptsNothing(s, s);
    }
  }

  /** `cancelAll` in two steps, both decided beforehand. */
  lemma {:induction false} CancelAllIs(s: State, u: State, fd: nat, willing: bool)
    requires Core(s.fds) && Cancellable(s.fds, fd, willing) && u == s.(fds := Shrink(s.fds, fd, {}))
    ensures var v := WakeIf(u, fd, Read, IsSet(u.fds.fds, fd, Read));
      fd < |v.fds.fds| && DoCancelAll(s, fd, willing) == WakeIf(v, fd, Write, IsSet(u.fds.fds, fd, Write))
  {
    if IsSet(u.fds.fds, fd, Read) {
      WriterStays(u, fd);
    }
  }

  /** Two wakes in a row, after the kernel was told of what is left. */
  lemma {:induction false} TwoWakesAccept(s: State, u: State, r: State, fd: nat, left: set<Event>, read: bool, write: bool)
    requires Core(s.fds) && fd < |s.fds.fds| && u == s.(fds := Shrink(s.fds, fd, left))
    requires (read ==> IsSet(s.fds.fds, fd, Read)) && (write ==> IsSet(s.fds.fds, fd, Write))
    requires var v := WakeIf(u, fd, Read, read); fd < |v.fds.fds| && r == WakeIf(v, fd, Write, write)
    ensures Accepts(s, r, WokenIf(s.fds, fd, Read, read) + WokenIf(s.fds, fd, Write, write))
  {
    WakeBothAccepts(u, WakeIf(u, fd, Read, read), fd, read, write);
    assert Woken(u.fds, fd, Read) == Woken(s.fds, fd, Read) && Woken(u.fds, fd, Write) == Woken(s.fds, fd, Write);
    AcceptsFrom(s, u, r, WokenIf(s.fds, fd, Read, read) + WokenIf(s.fds, fd, Write, write));
  }

  lemma {:induction false} CancelAllAccepts(s: State, fd: nat, willing: bool)
    requires Inv(s.fds)
    ensures Accepts(s, DoCancelAll(s, fd, willing),
                    WokenIf(s.fds, fd, Read, willing) + WokenIf(s.fds, fd, Write, willing))
  {
    CancelAllKeepsInv(s.fds, fd, willing);
    if Cancellable(s.fds, fd, willing) {
      var u := s.(fds := Shrink(s.fds, fd, {}));
      CancelAllIs(s, u, fd, willing);
      var read, write := IsSet(s.fds.fds, fd, Read), IsSet(s.fds.fds, fd, Write);
      TwoWakesAccept(s, u, DoCancelAll(s, fd, willing), fd, {}, read, write);
      assert WokenIf(s.fds, fd, Read, read) == WokenIf(s.fds, fd, Read, willing);
      assert WokenIf(s.fds, fd, Write, write) == WokenIf(s.fds, fd, Write, willing);
    } else {
      assert WokenIf(s.fds, fd, Read, willing) == [] && WokenIf(s.fds, fd, Write, willing) == [];
      AcceptsNothing(s, s);
    }
  }

  /** A report that is handled names registered events only. */
  lemma {:induction false} HandledIsRegistered(t: Table, fd: nat, reported: set<Event>, err: bool, willing: bool)
    requires Inv(t) && fd < |t.fds| && Dispatch(t, fd, reported, err, willing).Dispatched?
    ensures var ready := RealEvents(t, fd, reported, err);
      && (Dispatchable(t, fd, ready, willing) ==> willing && forall ev :: ev in ready ==> IsSet(t.fds, fd, ev))
      && (!Dispatchable(t, fd, ready, willing) ==> !willing || forall ev :: ev in ready ==> !IsSet(t.fds, fd, ev))
  {
    DispatchKeepsInv(t, fd, reported, err, willing);
    var ready := RealEvents(t, fd, reported, err);
    if t.fds[fd].events * ready != {} {
      RemovalIsLegal(t, fd, t.fds[fd].events - ready);
    } else {
      forall ev | ev in ready ensures !IsSet(t.fds, fd, ev) {
        assert ev !in t.fds[fd].events * ready;
      }
    }
  }

  lemma {:induction false} ReportIs(s: State, u: State, fd: nat, reported: set<Event>, err: bool, willing: bool)
    requires fd < |s.fds.fds| && Dispatchable(s.fds, fd, RealEvents(s.fds, fd, reported, err), willing)
    requires u == s.(fds := Shrink(s.fds, fd, s.fds.fds[fd].events - RealEvents(s.fds, fd, reported, err)))
    ensures var ready := RealEvents(s.fds, fd, reported, err);
      var v := WakeIf(u, fd, Read, Read in ready);
      fd < |v.fds.fds| && DoDispatch(s, fd, reported, err, willing) == WakeIf(v, fd, Write, Write in ready)
  {
  }

  lemma {:induction false} ReportAccepts(s: State, fd: nat, reported: set<Event>, err: bool, willing: bool)
    requires Inv(s.fds) && fd < |s.fds.fds| && Dispatch(s.fds, fd, reported, err, willing).Dispatched?
    ensures var ready := RealEvents(s.fds, fd, reported, err);
      Accepts(s, DoDispatch(s, fd, reported, err, willing),
              WokenIf(s.fds, fd, Read, willing && Read in ready) + WokenIf(s.fds, fd, Write, willing && Write in ready))
  {
    HandledIsRegistered(s.fds, fd, reported, err, willing);
    var ready := RealEvents(s.fds, fd, reported, err);
    if Dispatchable(s.fds, fd, ready, willing) {
      var left := s.fds.fds[fd].events - ready;
      var u := s.(fds := Shrink(s.fds, fd, left));
      ReportIs(s, u, fd, reported, err, willing);
      TwoWakesAccept(s, u, DoDispatch(s, fd, reported, err, willing), fd, left, Read in ready, Write in ready);
    } else {
      AcceptsNothing(s, s);
    }
  }

  // ---------------------------------------------------------------- each step accepts what it asks for

  lemma {:induction false} AddHistory(t: Table, fd: nat, ev: Event, owner: Owner, willing: bool)
    requires |t.fds| >= 2 && !AddEvent(t, fd, ev, owner, willing).Aborted?
    ensures var u := AddEvent(t, fd, ev, owner, willing).table; u.woken == t.woken && t.owners <= u.owners
  {
  }

  lemma {:induction false} SchedulingAccepts(s: State, st: CallStep)
    requires CallEnabled(s, st) && (st.Spawn? || st.SpawnCallback? || st.Adopt? || st.SwitchTo?)
    ensures Accepts(s, CallApply(s, st), CallRequests(s, st))
  {
    match st
    case Spawn(_, f, thread) =>
      PushAccepts(s, s.(fstate := s.fstate[f := INIT], loc := s.loc[f := Transit]), FiberWork(f), thread, None);
    case SpawnCallback(_, id, thread) => PushAccepts(s, s, CallbackWork(UserCallback(id)), thread, None);
    case Adopt(_, f, thread) => PushAccepts(s, s.(loc := s.loc[f := Transit]), FiberWork(f), thread, None);
    case SwitchTo(w, thread) =>
      PushAccepts(s, s.(loc := s.loc[Self(s, w) := Transit]), FiberWork(Self(s, w)), thread, None);
  }

  lemma {:induction false} AddFiberAccepts(s: State, w: ThreadId, fd: nat, ev: Event, willing: bool)
    requires IsRunning(s, w) && |s.fds.fds| >= 2
    requires !AddEvent(s.fds, fd, ev, OwnFiber(Self(s, w)), willing).Aborted?
    ensures Accepts(s, AddFiberStep(s, w, fd, ev, willing), [])
    ensures AddFiberStep(s, w, fd, ev, willing).workers == s.workers
  {
    AddHistory(s.fds, fd, ev, OwnFiber(Self(s, w)), willing);
    var u := AddFiberStep(s, w, fd, ev, willing);
    assert u == s.(fds := u.fds, loc := u.loc, io := u.io);
    AcceptsNothing(s, u);
  }

  lemma {:induction false} DeleteAccepts(s: State, fd: nat, ev: Event, willing: bool)
    ensures Accepts(s, DeleteStep(s, fd, ev, willing), [])
    ensures DeleteStep(s, fd, ev, willing).workers == s.workers
  {
    var u := DeleteStep(s, fd, ev, willing);
    assert u == s.(fds := u.fds, loc := u.loc);
    AcceptsNothing(s, u);
  }

  lemma {:induction false} RegisterAccepts(s: State, st: CallStep)
    requires CallEnabled(s, st) && (st.AddFiberEvent? || st.AddCallbackEvent? || st.DeleteEvent?)
    ensures Accepts(s, CallApply(s, st), []) && CallApply(s, st).workers == s.workers
  {
    if st.AddFiberEvent? {
      AddFiberAccepts(s, st.w, st.fd, st.ev, st.willing);
    } else if st.DeleteEvent? {
      DeleteAccepts(s, st.fd, st.ev, st.willing);
    } else {
      AddHistory(s.fds, st.fd, st.ev, OwnCallback(UserCallback(st.id)), st.willing);
      AcceptsNothing(s, CallApply(s, st));
    }
  }

  lemma {:induction false} NotifyAccepts(s: State, st: CallStep)
    requires CallEnabled(s, st) && st.SemNotify?
    ensures Accepts(s, CallApply(s, st), CallRequests(s, st))
  {
    var ws := s.sems[st.sem].waiters;
    if ws == [] {
      AcceptsNothing(s, CallApply(s, st));
    } else {
      var u := s.(sems := s.sems[st.sem := s.sems[st.sem].(waiters := ws[1..])], loc := s.loc[ws[0] := Transit]);
      PushAccepts(s, u, FiberWork(ws[0]), ANY_THREAD, None);
    }
  }

  predicate IsQuietCall(st: CallStep) {
    || st.SemWait? || st.SemTryWait? || st.Sleep? || st.ArmTimer? || st.DisarmTimer?
    || st.EnterIo? || st.LeaveIo? || st.Stop?
  }

  lemma {:induction false} ParkingAccepts(s: State, st: CallStep)
    requires CallEnabled(s, st) && IsQuietCall(st)
    ensures Accepts(s, CallApply(s, st), []) && CallApply(s, st).workers == s.workers
  {
    var u := CallApply(s, st);
    assert u.tasks == s.tasks && u.fds == s.fds;
    AcceptsNothing(s, u);
  }

  lemma {:induction false} CallAccepts(s: State, st: CallStep)
    requires Inv(s.fds) && CallEnabled(s, st)
    ensures Accepts(s, CallApply(s, st), CallRequests(s, st))
  {
    if st.Spawn? || st.SpawnCallback? || st.Adopt? || st.SwitchTo? {
      SchedulingAccepts(s, st);
    } else if st.AddFiberEvent? || st.AddCallbackEvent? || st.DeleteEvent? {
      RegisterAccepts(s, st);
    } else if st.CancelOne? {
      CancelAccepts(s, st.fd, st.ev, st.willing);
    } else if st.CancelBoth? {
      CancelAllAccepts(s, st.fd, st.willing);
    } else if st.SemNotify? {
      NotifyAccepts(s, st);
    } else {
      ParkingAccepts(s, st);
    }
  }

  lemma {:induction false} SettleAccepts(s: State, w: ThreadId)
    requires w in s.workers && s.workers[w].pc.Settling? && s.workers[w].pc.fiber in s.fstate
    ensures var f := s.workers[w].pc.fiber;
      Accepts(s, SettleStep(s, w), if s.fstate[f].READY? then [Request(FiberWork(f), ANY_THREAD, None)] else [])
  {
    var f, st := s.workers[w].pc.fiber, s.fstate[s.workers[w].pc.fiber];
    if st.READY? {
      PushAccepts(s, OffStack(s, w, READY, s.loc[f := Transit], false), FiberWork(f), ANY_THREAD, None);
    } else if !Ended(st) {
      AcceptsNothing(s, OffStack(s, w, HOLD, s.loc, false));
    } else if s.workers[w].pc.mode.Direct? {
      AcceptsNothing(s, OffStack(s, w, st, s.loc, true));
    } else {
      AcceptsNothing(s, OffStack(s, w, INIT, s.loc[f := Cached(w)], true));
    }
  }

  lemma {:induction false} ResumeAccepts(s: State, w: ThreadId, f: FiberId)
    requires w in s.workers && s.workers[w].pc.Running? && s.workers[w].pc.job == Resume(f)
    ensures Accepts(s, ResumeStep(s, w), [Request(FiberWork(f), ANY_THREAD, None)])
  {
    var u := GoOn(s, w, Plain).(loc := s.loc[f := Transit]);
    PushAccepts(s, u, FiberWork(f), ANY_THREAD, None);
  }

  lemma {:induction false} CancelJobAccepts(s: State, w: ThreadId, willing: bool)
    requires Inv(s.fds) && w in s.workers && s.workers[w].pc.Running? && s.workers[w].pc.job.Cancel?
    ensures var job := s.workers[w].pc.job;
      Accepts(s, CancelStep(s, w, willing), WokenIf(s.fds, job.call.fd, job.call.event, willing))
  {
    var pc := s.workers[w].pc;
    var u := GoOn(s, w, Plain);
    assert u.tasks == s.tasks && u.fds == s.fds;
    CancelAccepts(u, pc.job.call.fd, pc.job.call.event, willing);
  }

  lemma {:induction false} TimeoutAccepts(s: State, w: ThreadId)
    requires w in s.workers && s.workers[w].pc.Running? && IsFlagJob(s.workers[w].pc.job)
    ensures Accepts(s, TimeoutStep(s, w), [])
  {
    var u := TimeoutStep(s, w);
    assert u == s.(workers := u.workers, io := u.io);
    AcceptsNothing(s, u);
  }

  lemma {:induction false} JobAccepts(s: State, w: ThreadId, willing: bool)
    requires Inv(s.fds) && LoopEnabled(s, RunJob(w, willing))
    ensures Accepts(s, JobStep(s, w, willing), LoopRequests(s, RunJob(w, willing)))
  {
    var job := s.workers[w].pc.job;
    if job.Resume? {
      ResumeAccepts(s, w, job.fiber);
    } else if job.Cancel? {
      CancelJobAccepts(s, w, willing);
    } else {
      TimeoutAccepts(s, w);
    }
  }

  lemma {:induction false} PushExpiredAccepts(s: State, w: ThreadId)
    requires LoopEnabled(s, PushExpired(w))
    ensures Accepts(s, PushExpiredStep(s, w), LoopRequests(s, PushExpired(w)))
  {
    var cbs := s.workers[w].pc.cbs;
    var u := SetPc(s, w, Idling(cbs[1..])).(loc := Move(s.loc, CallbackToken(cbs[0]), Transit));
    PushAccepts(s, u, CallbackWork(cbs[0]), ANY_THREAD, None);
  }

  predicate IsQuietLoop(st: LoopStep) {
    || st.EmptyScan? || st.SwapIn? || st.Drop? || st.StartCallback? || st.YieldToHold? || st.YieldToReady?
    || st.Finish? || st.Decrement? || st.Expire? || st.IdleStop? || st.LeaveIdle?
  }

  lemma {:induction false} QuietAccepts(s: State, st: LoopStep)
    requires LoopEnabled(s, st) && IsQuietLoop(st)
    ensures Accepts(s, LoopApply(s, st), [])
  {
    var u := LoopApply(s, st);
    assert u.tasks == s.tasks && u.fds == s.fds;
    AcceptsNothing(s, u);
  }

  lemma {:induction false} LoopAccepts(s: State, st: LoopStep)
    requires Inv(s.fds) && LoopEnabled(s, st) && !st.Pick?
    ensures Accepts(s, LoopApply(s, st), LoopRequests(s, st))
  {
    if st.Settle? {
      SettleAccepts(s, st.w);
    } else if st.RunJob? {
      JobAccepts(s, st.w, st.willing);
    } else if st.PushExpired? {
      PushExpiredAccepts(s, st.w);
    } else if st.Report? {
      ReportAccepts(s, st.fd, st.reported, st.errorOrHangup, st.willing);
    } else {
      QuietAccepts(s, st);
    }
  }

  /** Every step puts exactly what it asks for at the back of the queue, with the work, the thread and
      the registration asked for; a pick takes one entry out and asks for nothing. */
  lemma {:induction false} StepAccepts(s: State, st: Step)
    requires Inv(s.fds) && Enabled(s, st)
    ensures Records(s, Apply(s, st), Requests(s, st))
    ensures !(st.Loop? && st.loop.Pick?) ==> Accepts(s, Apply(s, st), Requests(s, st))
    ensures st.Loop? && st.loop.Pick? ==>
              && Requests(s, st) == []
              && Apply(s, st).tasks.queue == RemoveAt(s.tasks.queue, ScanResult(s, st.loop.w))
  {
    match st
    case Call(c) => CallAccepts(s, c);
    case Loop(l) => if !l.Pick? { LoopAccepts(s, l); }
  }

  // ---------------------------------------------------------------- the record is right

  /** Every entry in the queue or in a worker's hands is the one accepted under its ticket. */
  ghost predicate Recorded(queue: seq<Entry>, next: nat, accepted: seq<Acceptance>, workers: map<ThreadId, Worker>) {
    && |accepted| == next
    && (forall t :: 0 <= t < next ==> accepted[t].entry.ticket == t)
    && (forall i :: 0 <= i < |queue| ==> queue[i].ticket < next && accepted[queue[i].ticket].entry == queue[i])
    && (forall w | w in workers && workers[w].pc.Picked? ::
          workers[w].pc.entry.ticket < next && accepted[workers[w].pc.entry.ticket].entry == workers[w].pc.entry)
  }

  /** No worker picks anything. */
  ghost predicate PicksStay(before: map<ThreadId, Worker>, after: map<ThreadId, Worker>) {
    forall w | w in after && after[w].pc.Picked? :: w in before && before[w].pc == after[w].pc
  }

  lemma {:induction false} RecordedGrows(s: State, u: State, rs: seq<Request>)
    requires Recorded(s.tasks.queue, s.tasks.next, s.tasks.accepted, s.workers) && Accepts(s, u, rs) && PicksStay(s.workers, u.workers)
    ensures Recorded(u.tasks.queue, u.tasks.next, u.tasks.accepted, u.workers)
  {
    forall i | 0 <= i < |u.tasks.queue| ensures u.tasks.queue[i].ticket < u.tasks.next && u.tasks.accepted[u.tasks.queue[i].ticket].entry == u.tasks.queue[i] {
      if i >= |s.tasks.queue| {
        assert u.tasks.queue[i] == Numbered(rs, s.tasks.next)[i - |s.tasks.queue|].entry;
      } else {
        assert u.tasks.queue[i] == s.tasks.queue[i];
      }
    }
  }

  lemma {:induction false} RecordedPick(s: State, w: ThreadId)
    requires Recorded(s.tasks.queue, s.tasks.next, s.tasks.accepted, s.workers) && LoopEnabled(s, Pick(w))
    ensures var u := PickStep(s, w); Recorded(u.tasks.queue, u.tasks.next, u.tasks.accepted, u.workers)
  {
    var u := PickStep(s, w);
    var i := ScanResult(s, w);
    forall k | 0 <= k < |u.tasks.queue| ensures u.tasks.queue[k].ticket < u.tasks.next && u.tasks.accepted[u.tasks.queue[k].ticket].entry == u.tasks.queue[k] {
      assert u.tasks.queue[k] == s.tasks.queue[if k < i then k else k + 1];
    }
  }

  /** No `do_io` call begins, ends, registers or is timed out. */
  ghost predicate SameCalls(s: State, u: State) {
    u.io == s.io
  }

  lemma {:induction false} WakeKeepsWorkers(s: State, fd: nat, ev: Event)
    requires fd < |s.fds.fds|
    ensures WakeFrom(s, fd, ev).workers == s.workers && fd < |WakeFrom(s, fd, ev).fds.fds|
    ensures SameCalls(s, WakeFrom(s, fd, ev))
  {
    var c := s.fds.fds[fd].Ctx(ev);
    var u := s.(fds := Trigger(s.fds, fd, ev), loc := Move(s.loc, FdToken(c), Transit));
    assert u.workers == s.workers && SameCalls(s, u);
  }

  lemma {:induction false} CancelKeepsWorkers(s: State, fd: nat, ev: Event, willing: bool)
    ensures DoCancelEvent(s, fd, ev, willing).workers == s.workers && SameCalls(s, DoCancelEvent(s, fd, ev, willing))
  {
    if Removable(s.fds, fd, ev, willing) {
      WakeKeepsWorkers(s.(fds := Shrink(s.fds, fd, s.fds.fds[fd].events - {ev})), fd, ev);
    }
  }

  lemma {:induction false} WakeBothKeepsWorkers(s: State, fd: nat, read: bool, write: bool)
    requires fd < |s.fds.fds|
    ensures var v := WakeIf(s, fd, Read, read);
      && fd < |v.fds.fds| && WakeIf(v, fd, Write, write).workers == s.workers
      && SameCalls(s, WakeIf(v, fd, Write, write))
  {
    WakeKeepsWorkers(s, fd, Read);
    WakeKeepsWorkers(WakeIf(s, fd, Read, read), fd, Write);
  }

  lemma {:induction false} CancelAllKeepsWorkers(s: State, fd: nat, willing: bool)
    ensures DoCancelAll(s, fd, willing).workers == s.workers && SameCalls(s, DoCancelAll(s, fd, willing))
  {
    if Cancellable(s.fds, fd, willing) {
      var u := s.(fds := Shrink(s.fds, fd, {}));
      var read := Read in u.fds.fds[fd].events;
      WakeBothKeepsWorkers(u, fd, read, Write in WakeIf(u, fd, Read, read).fds.fds[fd].events);
    }
  }

  lemma {:induction false} ReportKeepsWorkers(s: State, fd: nat, reported: set<Event>, err: bool, willing: bool)
    requires fd < |s.fds.fds|
    ensures DoDispatch(s, fd, reported, err, willing).workers == s.workers
    ensures SameCalls(s, DoDispatch(s, fd, reported, err, willing))
  {
    var ready := RealEvents(s.fds, fd, reported, err);
    if Dispatchable(s.fds, fd, ready, willing) {
      var u := s.(fds := Shrink(s.fds, fd, s.fds.fds[fd].events - ready));
      WakeBothKeepsWorkers(u, fd, Read in ready, Write in ready);
    }
  }

  lemma {:induction false} CallKeepsPicks(s: State, st: CallStep)
    requires CallEnabled(s, st)
    ensures CallApply(s, st).workers == s.workers
  {
    if st.CancelOne? {
      CancelKeepsWorkers(s, st.fd, st.ev, st.willing);
    } else if st.CancelBoth? {
      CancelAllKeepsWorkers(s, st.fd, st.willing);
    } else if IsQuietCall(st) {
      ParkingAccepts(s, st);
    } else if st.SemNotify? {
      NotifyKeepsWorkers(s, st.sem);
    } else if st.Spawn? || st.SpawnCallback? || st.Adopt? || st.SwitchTo? {
      SchedulingKeepsWorkers(s, st);
    } else {
      RegisterAccepts(s, st);
    }
  }

  lemma {:induction false} PushKeepsWorkers(s: State, work: Work, thread: ThreadId)
    ensures Push(s, work, thread).workers == s.workers
  {
  }

  lemma {:induction false} NotifyKeepsWorkers(s: State, i: nat)
    requires i in s.sems
    ensures SemNotifyStep(s, i).workers == s.workers
  {
  }

  lemma {:induction false} SchedulingKeepsWorkers(s: State, st: CallStep)
    requires CallEnabled(s, st) && (st.Spawn? || st.SpawnCallback? || st.Adopt? || st.SwitchTo?)
    ensures CallApply(s, st).workers == s.workers
  {
    match st
    case Spawn(_, f, thread) =>
      PushKeepsWorkers(s.(fstate := s.fstate[f := INIT], loc := s.loc[f := Transit]), FiberWork(f), thread);
    case SpawnCallback(_, id, thread) => PushKeepsWorkers(s, CallbackWork(UserCallback(id)), thread);
    case Adopt(_, f, thread) => PushKeepsWorkers(s.(loc := s.loc[f := Transit]), FiberWork(f), thread);
    case SwitchTo(w, thread) =>
      PushKeepsWorkers(s.(loc := s.loc[Self(s, w) := Transit]), FiberWork(Self(s, w)), thread);
  }

  /** Only the worker `w` moves on, and it picks nothing. */
  ghost predicate OnlyMoves(before: map<ThreadId, Worker>, after: map<ThreadId, Worker>, w: ThreadId) {
    w in before && w in after && after == before[w := after[w]] && !after[w].pc.Picked?
  }

  lemma {:induction false} ResumeWorkers(s: State, w: ThreadId)
    requires w in s.workers && s.workers[w].pc.Running? && s.workers[w].pc.job.Resume?
    ensures ResumeStep(s, w).workers == s.workers[w := s.workers[w].(pc := s.workers[w].pc.(job := Plain))]
  {
    var f := s.workers[w].pc.job.fiber;
    PushKeepsWorkers(GoOn(s, w, Plain).(loc := s.loc[f := Transit]), FiberWork(f), ANY_THREAD);
  }

  lemma {:induction false} CancelJobWorkers(s: State, w: ThreadId, willing: bool)
    requires w in s.workers && s.workers[w].pc.Running? && s.workers[w].pc.job.Cancel?
    ensures CancelStep(s, w, willing).workers == s.workers[w := s.workers[w].(pc := s.workers[w].pc.(job := Plain))]
  {
    var pc := s.workers[w].pc;
    CancelKeepsWorkers(GoOn(s, w, Plain), pc.job.call.fd, pc.job.call.event, willing);
  }

  lemma {:induction false} TimeoutWorkers(s: State, w: ThreadId)
    requires w in s.workers && s.workers[w].pc.Running? && IsFlagJob(s.workers[w].pc.job)
    ensures TimeoutStep(s, w).workers ==
      s.workers[w := s.workers[w].(pc := s.workers[w].pc.(job := NextJob(s, s.workers[w].pc.job)))]
  {
  }

  lemma {:induction false} JobMovesOne(s: State, w: ThreadId, willing: bool)
    requires w in s.workers && s.workers[w].pc.Running? && !s.workers[w].pc.job.Plain?
    ensures OnlyMoves(s.workers, JobStep(s, w, willing).workers, w)
  {
    match s.workers[w].pc.job
    case Resume(_) => ResumeWorkers(s, w);
    case Cancel(_) => CancelJobWorkers(s, w, willing);
    case _ => TimeoutWorkers(s, w);
  }

  lemma {:induction false} SettleMovesOne(s: State, w: ThreadId)
    requires w in s.workers && s.workers[w].pc.Settling? && s.workers[w].pc.fiber in s.fstate
    ensures OnlyMoves(s.workers, SettleStep(s, w).workers, w) && !HoldsFlag(SettleStep(s, w).workers[w].pc)
  {
    var f := s.workers[w].pc.fiber;
    if s.fstate[f].READY? {
      PushKeepsWorkers(OffStack(s, w, READY, s.loc[f := Transit], false), FiberWork(f), ANY_THREAD);
    }
  }

  /** The steps of a worker from a scan to the first instruction of the fiber. */
  lemma {:induction false} StartingMovesOne(s: State, st: LoopStep)
    requires LoopEnabled(s, st) && (st.EmptyScan? || st.SwapIn? || st.Drop? || st.StartCallback?)
    ensures OnlyMoves(s.workers, LoopApply(s, st).workers, st.w) && !HoldsFlag(LoopApply(s, st).workers[st.w].pc)
  {
  }

  lemma {:induction false} LeavingMovesOne(s: State, st: LoopStep)
    requires LoopEnabled(s, st) && (st.YieldToHold? || st.YieldToReady? || st.Finish? || st.Decrement?)
    ensures OnlyMoves(s.workers, LoopApply(s, st).workers, st.w) && !HoldsFlag(LoopApply(s, st).workers[st.w].pc)
  {
  }

  lemma {:induction false} IdlingMovesOne(s: State, st: LoopStep)
    requires LoopEnabled(s, st) && (st.Expire? || st.PushExpired? || st.IdleStop? || st.LeaveIdle?)
    ensures OnlyMoves(s.workers, LoopApply(s, st).workers, st.w) && !HoldsFlag(LoopApply(s, st).workers[st.w].pc)
  {
  }

  lemma {:induction false} LoopMovesOne(s: State, st: LoopStep)
    requires LoopEnabled(s, st) && !st.Pick?
    ensures OnlyMoves(s.workers, LoopApply(s, st).workers, st.w)
    ensures !st.RunJob? ==> !HoldsFlag(LoopApply(s, st).workers[st.w].pc)
  {
    if st.RunJob? {
      JobMovesOne(s, st.w, st.willing);
    } else if st.Report? {
      ReportKeepsWorkers(s, st.fd, st.reported, st.errorOrHangup, st.willing);
    } else if st.Settle? {
      SettleMovesOne(s, st.w);
    } else if st.EmptyScan? || st.SwapIn? || st.Drop? || st.StartCallback? {
      StartingMovesOne(s, st);
    } else if st.YieldToHold? || st.YieldToReady? || st.Finish? || st.Decrement? {
      LeavingMovesOne(s, st);
    } else {
      IdlingMovesOne(s, st);
    }
  }

  lemma {:induction false} StepKeepsRecord(s: State, st: Step)
    requires Inv(s.fds) && Enabled(s, st) && Recorded(s.tasks.queue, s.tasks.next, s.tasks.accepted, s.workers)
    ensures var u := Apply(s, st); Recorded(u.tasks.queue, u.tasks.next, u.tasks.accepted, u.workers)
  {
    if st.Loop? && st.loop.Pick? {
      RecordedPick(s, st.loop.w);
    } else {
      StepAccepts(s, st);
      if st.Loop? { LoopMovesOne(s, st.loop); } else { CallKeepsPicks(s, st.call); }
      RecordedGrows(s, Apply(s, st), Requests(s, st));
    }
  }

  // ---------------------------------------------------------------- registrations

  /** An accepted task that answers a registration is what was registered, for any thread. */
  ghost predicate Answers(acc: seq<Acceptance>, owners: seq<Work>) {
    forall t :: 0 <= t < |acc| && acc[t].reg.Some? ==>
      && acc[t].reg.value < |owners|
      && acc[t].entry.work == owners[acc[t].reg.value]
      && acc[t].entry.thread == ANY_THREAD
  }

  /** The registrations woken are those among the accepted tasks, in the same order. */
  ghost predicate Delivered(t: Table, acc: seq<Acceptance>) {
    t.woken == Regs(acc) && Answers(acc, t.owners)
  }

  lemma {:induction false} RequestsAnswer(s: State, st: Step)
    requires Enabled(s, st)
    ensures Answers(Numbered(Requests(s, st), s.tasks.next), s.fds.owners)
  {
  }

  lemma {:induction false} StepKeepsDelivered(s: State, st: Step)
    requires Inv(s.fds) && Enabled(s, st) && Delivered(s.fds, s.tasks.accepted)
    ensures Delivered(Apply(s, st).fds, Apply(s, st).tasks.accepted)
  {
    StepAccepts(s, st);
    RequestsAnswer(s, st);
    var rs := Numbered(Requests(s, st), s.tasks.next);
    RegsConcat(s.tasks.accepted, rs);
    AnswersConcat(s.tasks.accepted, rs, s.fds.owners, Apply(s, st).fds.owners);
  }

  lemma {:induction false} AnswersConcat(a: seq<Acceptance>, b: seq<Acceptance>, owners: seq<Work>, owners': seq<Work>)
    requires Answers(a, owners) && Answers(b, owners) && owners <= owners'
    ensures Answers(a + b, owners')
  {
  }

  /** Which registrations are among the accepted tasks; each once if they are pairwise different. */
  lemma {:induction false} RegsFacts(acc: seq<Acceptance>, r: nat)
    ensures r in Regs(acc) <==> exists t :: 0 <= t < |acc| && acc[t].reg == Some(r)
  {
    if acc != [] {
      var n := |acc| - 1;
      RegsFacts(acc[..n], r);
      if exists t :: 0 <= t < n && acc[..n][t].reg == Some(r) {
        var t :| 0 <= t < n && acc[..n][t].reg == Some(r);
        assert acc[t].reg == Some(r);
      }
      forall t | 0 <= t < n && acc[t].reg == Some(r) ensures r in Regs(acc[..n]) {
        assert acc[..n][t].reg == Some(r);
      }
    }
  }

  lemma {:induction false} RegsOnce(acc: seq<Acceptance>, i: nat, j: nat)
    requires forall a, b :: 0 <= a < b < |Regs(acc)| ==> Regs(acc)[a] != Regs(acc)[b]
    requires i < j < |acc| && acc[i].reg.Some?
    ensures acc[i].reg != acc[j].reg
  {
    var a, b := acc[..j], acc[j..];
    assert acc == a + b;
    RegsConcat(a, b);
    forall x, y | 0 <= x < |Regs(a)| && 0 <= y < |Regs(b)| ensures Regs(a)[x] != Regs(b)[y] {
      assert Regs(acc)[x] == Regs(a)[x] && Regs(acc)[|Regs(a)| + y] == Regs(b)[y];
    }
    assert a[i] == acc[i] && b[0] == acc[j];
    RegsFacts(a, acc[i].reg.value);
    RegsFacts(b, acc[i].reg.value);
  }
}
