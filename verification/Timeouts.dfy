/** The time-outs of `do_io`: which registration a time-out wakes, and when a flag is raised again. */
module Timeouts {
  import opened Fibers
  import opened EventTable
  import opened Runtime
  import opened WakeTokens
  import opened Execution
  import opened Deliveries
  import opened IoCalls
  import opened Safety

  // ---------------------------------------------------------------- whom a time-out wakes

  /** The call is in progress and its fiber parked at an event. */
  ghost predicate ParkedCall(s: State, call: IoCall) {
    exists f :: f in s.io.open && s.io.open[f] == call && f in s.loc && s.loc[f].AtFd?
  }

  /** The registration in force at the event of `call` was made by `call`. */
  ghost predicate OwnRegistration(s: State, call: IoCall) {
    && IsSet(s.fds.fds, call.fd, call.event)
    && var r := Reg(s.fds.fds, call.fd, call.event);
       r in s.io.calls && s.io.calls[r] == call
  }

  lemma {:induction false} ParkedIsOwner(s: State, fd: nat, ev: Event, f: FiberId)
    requires OnePlace(s) && Core(s.fds) && LinksOk(s.fds, s.io.open, s.io.calls)
    ensures var rs := Woken(s.fds, fd, ev);
      && (rs == [] <==> !IsSet(s.fds.fds, fd, ev))
      && (|rs| == 1 && rs[0].work == FiberWork(f) <==> f in s.loc && s.loc[f] == AtFd(fd, ev))
  {
    assert At(s, f, AtFd(fd, ev)) <==> f in s.loc && s.loc[f] == AtFd(fd, ev);
    if IsSet(s.fds.fds, fd, ev) {
      var r := Reg(s.fds.fds, fd, ev);
      assert Fires(s.fds.fds[fd].Ctx(ev)) == Some(s.fds.owners[r]);
      assert IsPlain(s.fds.owners[r]);
    }
  }

  lemma {:induction false} LinkAt(s: State, fd: nat, ev: Event)
    requires OwnersOk(s.fds.fds, s.fds.adds, s.fds.owners) && RegistrationsFresh(s.fds.fds, s.fds.adds, s.fds.woken)
    requires LinksOk(s.fds, s.io.open, s.io.calls) && IsSet(s.fds.fds, fd, ev)
    ensures Woken(s.fds, fd, ev) != []
    ensures LinkOk(s.fds, s.io.calls, fd, ev, CallOf(Woken(s.fds, fd, ev)[0].work, s.io.open))
  {
  }

  /** A call is parked exactly when the registration at its event is its own. */
  lemma {:induction false} ParkedIsRegistered(s: State, call: IoCall)
    requires OnePlace(s) && Core(s.fds) && LinksOk(s.fds, s.io.open, s.io.calls)
    ensures OwnRegistration(s, call) <==> ParkedCall(s, call)
  {
    if OwnRegistration(s, call) {
      LinkAt(s, call.fd, call.event);
      var f := Woken(s.fds, call.fd, call.event)[0].work.fiber;
      ParkedIsOwner(s, call.fd, call.event, f);
      assert f in s.io.open && s.io.open[f] == call && f in s.loc && s.loc[f].AtFd?;
    }
    if ParkedCall(s, call) {
      var f :| f in s.io.open && s.io.open[f] == call && f in s.loc && s.loc[f].AtFd?;
      assert At(s, f, s.loc[f]);
      ParkedIsOwner(s, s.loc[f].fd, s.loc[f].event, f);
      LinkAt(s, s.loc[f].fd, s.loc[f].event);
    }
  }

  /** The cancellation that follows a time-out wakes whatever is registered at the event by then. It
      reaches the fiber `f` exactly when `f` is parked there, and it reaches the call that timed out
      exactly when that call is still in progress and parked: otherwise it wakes somebody else's
      registration, a later call of the same fiber included, whenever there is one. */
  lemma {:induction false} TimeoutReachesTheParked(s: State, w: ThreadId, call: IoCall, f: FiberId)
    requires Reachable(s) && w in s.workers && s.workers[w].pc.Running? && s.workers[w].pc.job == Cancel(call)
    ensures Accepts(s, CancelStep(s, w, true), Woken(s.fds, call.fd, call.event))
    ensures var rs := Woken(s.fds, call.fd, call.event);
      && (rs == [] <==> !IsSet(s.fds.fds, call.fd, call.event))
      && (|rs| == 1 && rs[0].work == FiberWork(f) <==> f in s.loc && s.loc[f] == AtFd(call.fd, call.event))
    ensures OwnRegistration(s, call) <==> ParkedCall(s, call)
  {
    ReachableInv(s);
    CancelJobAccepts(s, w, true);
    CancelReaches(s, call, f);
  }

  lemma {:induction false} CancelReaches(s: State, call: IoCall, f: FiberId)
    requires OnePlace(s) && Core(s.fds) && LinksOk(s.fds, s.io.open, s.io.calls)
    ensures var rs := Woken(s.fds, call.fd, call.event);
      && (rs == [] <==> !IsSet(s.fds.fds, call.fd, call.event))
      && (|rs| == 1 && rs[0].work == FiberWork(f) <==> f in s.loc && s.loc[f] == AtFd(call.fd, call.event))
    ensures OwnRegistration(s, call) <==> ParkedCall(s, call)
  {
    ParkedIsOwner(s, call.fd, call.event, f);
    ParkedIsRegistered(s, call);
  }

  // ---------------------------------------------------------------- raising twice

  /** The worker has read the flag of `call` as not raised and is about to raise it. */
  predicate AtRaise(s: State, w: ThreadId, call: IoCall) {
    w in s.workers && s.workers[w].pc.Running? && s.workers[w].pc.job == Raise(call)
  }

  predicate IsJobOf(st: Step, w: ThreadId) {
    st.Loop? && st.loop.RunJob? && st.loop.w == w
  }

  /** The flags that a step raises. */
  function RaisedBy(s: State, st: Step): seq<IoCall> {
    if st.Loop? && st.loop.RunJob? && st.loop.w in s.workers && s.workers[st.loop.w].pc.Running?
       && s.workers[st.loop.w].pc.job.Raise?
    then [s.workers[st.loop.w].pc.job.call] else []
  }

  lemma {:induction false} CallRaisesNothing(s: State, st: CallStep)
    requires CallEnabled(s, st)
    ensures CallApply(s, st).io.timeouts == s.io.timeouts
  {
    if IsEventCall(st) {
      match st
      case CancelOne(_, fd, ev, willing) => CancelKeepsWorkers(s, fd, ev, willing);
      case CancelBoth(_, fd, willing) => CancelAllKeepsWorkers(s, fd, willing);
      case _ =>
    } else if !st.EnterIo? && !st.LeaveIo? {
      OtherCallKeepsCalls(s, st);
    }
  }

  lemma {:induction false} JobRaises(s: State, w: ThreadId, willing: bool)
    requires LoopEnabled(s, RunJob(w, willing))
    ensures JobStep(s, w, willing).io.timeouts == s.io.timeouts + RaisedBy(s, Loop(RunJob(w, willing)))
  {
    match s.workers[w].pc.job
    case Resume(_) => ResumeKeepsCalls(s, w);
    case Cancel(_) => CancelJobKeepsCalls(s, w, willing);
    case _ =>
  }

  /** A time-out is recorded exactly when a worker raises a flag. */
  lemma {:induction false} StepRaises(s: State, st: Step)
    requires Enabled(s, st)
    ensures Apply(s, st).io.timeouts == s.io.timeouts + RaisedBy(s, st)
  {
    match st
    case Call(c) => CallRaisesNothing(s, c);
    case Loop(l) =>
      if l.RunJob? {
        JobRaises(s, l.w, l.willing);
      } else if l.Report? {
        ReportKeepsWorkers(s, l.fd, l.reported, l.errorOrHangup, l.willing);
      } else {
        OtherLoopKeepsCalls(s, l);
      }
  }

  /** A worker in the middle of a callback moves only by going on with it. */
  lemma {:induction false} OthersLeaveIt(s: State, st: Step, w: ThreadId)
    requires Enabled(s, st) && w in s.workers && s.workers[w].pc.Running? && !s.workers[w].pc.job.Plain?
    requires !IsJobOf(st, w)
    ensures w in Apply(s, st).workers && Apply(s, st).workers[w] == s.workers[w]
  {
    match st
    case Call(c) => CallKeepsPicks(s, c);
    case Loop(l) =>
      assert l.w != w;
      if !l.Pick? { LoopMovesOne(s, l); }
  }

  /** Another worker raises the flag of `call` in one of these steps. */
  ghost predicate RaisedMeanwhile(s: State, steps: seq<Step>, w: ThreadId, call: IoCall)
    requires IsRun(s, steps)
    decreases |steps|
  {
    && steps != []
    && ((RaisedBy(s, steps[0]) == [call] && !IsJobOf(steps[0], w))
        || RaisedMeanwhile(Apply(s, steps[0]), steps[1..], w, call))
  }

  lemma {:induction false} RaisedIsRecorded(s: State, steps: seq<Step>, w: ThreadId, call: IoCall)
    requires IsRun(s, steps) && AtRaise(s, w, call) && forall st | st in steps :: !IsJobOf(st, w)
    ensures AtRaise(After(s, steps), w, call)
    ensures call in After(s, steps).io.timeouts <==> call in s.io.timeouts || RaisedMeanwhile(s, steps, w, call)
    decreases |steps|
  {
    if steps != [] {
      var u := Apply(s, steps[0]);
      OthersLeaveIt(s, steps[0], w);
      StepRaises(s, steps[0]);
      RaisedIsRecorded(u, steps[1..], w, call);
    }
  }

  /** From a test that found the flag not raised to the write, whatever happens in between: the write
      raises the flag a second time exactly when another worker raised it in between. */
  lemma {:induction false} RaiseRepeatsExactly(s: State, w: ThreadId, call: IoCall, steps: seq<Step>)
    requires Reachable(s) && w in s.workers && s.workers[w].pc.Running? && s.workers[w].pc.job == Test(call)
    requires call in s.io.infos && !s.io.infos[call]
    requires IsRun(TimeoutStep(s, w), steps) && forall st | st in steps :: !IsJobOf(st, w)
    ensures var u := After(TimeoutStep(s, w), steps);
      && AtRaise(u, w, call)
      && TimeoutStep(u, w).io.timeouts == u.io.timeouts + [call]
      && (call in u.io.timeouts <==> RaisedMeanwhile(TimeoutStep(s, w), steps, w, call))
  {
    ReachableInv(s);
    assert call !in s.io.timeouts;
    RaisedIsRecorded(TimeoutStep(s, w), steps, w, call);
  }

  /** No two workers are about to raise the same flag. */
  ghost predicate Alone(s: State) {
    forall v, w, call :: AtRaise(s, v, call) && AtRaise(s, w, call) ==> v == w
  }

  ghost predicate AlwaysAlone(s: State, steps: seq<Step>)
    requires IsRun(s, steps)
    decreases |steps|
  {
    Alone(s) && (steps != [] ==> AlwaysAlone(Apply(s, steps[0]), steps[1..]))
  }

  /** No flag was raised twice, and those about to be raised have not been. */
  ghost predicate RaisedOnce(s: State) {
    && Distinct(s.io.timeouts)
    && (forall w, call :: AtRaise(s, w, call) ==> call !in s.io.timeouts)
  }

  /** Who is about to raise a flag was so before, or has just read it as not raised. */
  lemma {:induction false} ComesToRaise(s: State, st: Step, w: ThreadId, call: IoCall)
    requires Enabled(s, st) && AtRaise(Apply(s, st), w, call)
    ensures if IsJobOf(st, w) then call in s.io.infos && !s.io.infos[call] && RaisedBy(s, st) == []
            else AtRaise(s, w, call)
  {
    match st
    case Call(c) => CallKeepsPicks(s, c);
    case Loop(l) => LoopComesToRaise(s, l, w, call);
  }

  lemma {:induction false} LoopComesToRaise(s: State, st: LoopStep, w: ThreadId, call: IoCall)
    requires LoopEnabled(s, st) && AtRaise(LoopApply(s, st), w, call)
    ensures if st.RunJob? && st.w == w then call in s.io.infos && !s.io.infos[call] && s.workers[w].pc.job.Test?
            else AtRaise(s, w, call)
  {
    if st.RunJob? {
      JobComesToRaise(s, st.w, st.willing, w, call);
    } else if !st.Pick? {
      LoopMovesOne(s, st);
    }
  }

  lemma {:induction false} JobComesToRaise(s: State, v: ThreadId, willing: bool, w: ThreadId, call: IoCall)
    requires LoopEnabled(s, RunJob(v, willing)) && AtRaise(JobStep(s, v, willing), w, call)
    ensures if v == w then call in s.io.infos && !s.io.infos[call] && s.workers[w].pc.job.Test?
            else AtRaise(s, w, call)
  {
    JobMovesOne(s, v, willing);
    match s.workers[v].pc.job
    case Resume(_) => ResumeWorkers(s, v);
    case Cancel(_) => CancelJobWorkers(s, v, willing);
    case _ => TimeoutWorkers(s, v);
  }

  /** What is raised has not been raised, and nobody else is about to raise it. */
  lemma {:induction false} RaisedIsNew(s: State, st: Step, w: ThreadId, call: IoCall)
    requires Enabled(s, st) && Alone(s) && RaisedOnce(s) && call in RaisedBy(s, st)
    ensures RaisedBy(s, st) == [call] && call !in s.io.timeouts && (AtRaise(s, w, call) ==> IsJobOf(st, w))
  {
    assert AtRaise(s, st.loop.w, call);
  }

  lemma {:induction false} StaysUnraised(s: State, st: Step, w: ThreadId, call: IoCall)
    requires FlagsOk(s.io) && Enabled(s, st) && Alone(s) && RaisedOnce(s) && AtRaise(Apply(s, st), w, call)
    ensures call !in s.io.timeouts + RaisedBy(s, st)
  {
    ComesToRaise(s, st, w, call);
    if call in RaisedBy(s, st) {
      RaisedIsNew(s, st, w, call);
    }
  }

  lemma {:induction false} StepRaisesOnce(s: State, st: Step)
    requires FlagsOk(s.io) && Enabled(s, st) && Alone(s) && RaisedOnce(s)
    ensures RaisedOnce(Apply(s, st))
  {
    var u := Apply(s, st);
    StepRaises(s, st);
    forall w, call | AtRaise(u, w, call) ensures call !in u.io.timeouts {
      StaysUnraised(s, st, w, call);
    }
    if RaisedBy(s, st) != [] {
      RaisedIsNew(s, st, st.loop.w, RaisedBy(s, st)[0]);
    }
  }

  /** Along every run in which no two workers are ever about to raise the same flag, every call is timed
      out at most once, however many of its timers are left over. */
  lemma {:induction false} TimedOutOnceWhileAlone(s: State, steps: seq<Step>)
    requires Init(s) && IsRun(s, steps) && AlwaysAlone(s, steps)
    ensures Distinct(After(s, steps).io.timeouts)
  {
    InitInv(s);
    RunRaisesOnce(s, steps);
  }

  lemma {:induction false} RunRaisesOnce(s: State, steps: seq<Step>)
    requires Safety.Inv(s) && IsRun(s, steps) && AlwaysAlone(s, steps) && RaisedOnce(s)
    ensures RaisedOnce(After(s, steps))
    decreases |steps|
  {
    if steps != [] {
      StepKeepsInv(s, steps[0]);
      StepRaisesOnce(s, steps[0]);
      RunRaisesOnce(Apply(s, steps[0]), steps[1..]);
    }
  }

  /** In every state in which two workers are about to raise the same flag, both can go on, and then the
      flag is raised twice. */
  lemma {:induction false} TwoAtRaiseRepeat(s: State, v: ThreadId, w: ThreadId, call: IoCall)
    requires AtRaise(s, v, call) && AtRaise(s, w, call) && v != w
    ensures var steps := [Loop(RunJob(v, true)), Loop(RunJob(w, true))];
      IsRun(s, steps) && After(s, steps).io.timeouts == s.io.timeouts + [call, call]
  {
    var a, b := Loop(RunJob(v, true)), Loop(RunJob(w, true));
    var u := Apply(s, a);
    OthersLeaveIt(s, a, w);
    StepRaises(s, a);
    StepRaises(u, b);
    assert [a, b][1..] == [b] && [b][1..] == [];
    assert After(u, [b]) == Apply(u, b);
  }

  // ---------------------------------------------------------------- callbacks left over

  /** Some fiber is in the call, or some callback is between taking hold of its flag and cancelling. */
  ghost predicate InUse(s: State, call: IoCall) {
    || (exists f | f in s.io.open :: s.io.open[f] == call)
    || (exists v | v in s.workers ::
          && s.workers[v].pc.Running?
          && (s.workers[v].pc.job == Test(call) || s.workers[v].pc.job == Raise(call) || s.workers[v].pc.job == Cancel(call)))
  }

  /** A time-out callback goes on to the test exactly when the flag of its call is still in use, and stops
      otherwise; it goes on to the write exactly when it reads the flag as not raised. Neither changes
      anything else. */
  lemma {:induction false} CallbackGoesOnExactly(s: State, w: ThreadId, call: IoCall, willing: bool)
    requires w in s.workers && s.workers[w].pc.Running?
    requires s.workers[w].pc.job == Timeout(call) || s.workers[w].pc.job == Test(call)
    ensures var next := if s.workers[w].pc.job == Timeout(call)
                        then (if InUse(s, call) then Test(call) else Plain)
                        else (if call in s.io.infos && !s.io.infos[call] then Raise(call) else Plain);
      JobStep(s, w, willing) == s.(workers := s.workers[w := s.workers[w].(pc := s.workers[w].pc.(job := next))])
  {
    if InUse(s, call) {
      UsedIsAlive(s, call);
    }
  }

  lemma {:induction false} UsedIsAlive(s: State, call: IoCall)
    ensures Alive(s, call) <==> InUse(s, call)
  {
    if InUse(s, call) && !(exists f | f in s.io.open :: s.io.open[f] == call) {
      var v :| v in s.workers && s.workers[v].pc.Running?
        && (s.workers[v].pc.job == Test(call) || s.workers[v].pc.job == Raise(call) || s.workers[v].pc.job == Cancel(call));
      assert HoldsFlag(s.workers[v].pc) && s.workers[v].pc.job.call == call;
    }
    if Alive(s, call) && !(exists f | f in s.io.open :: s.io.open[f] == call) {
      var v :| v in s.workers && HoldsFlag(s.workers[v].pc) && s.workers[v].pc.job.call == call;
      assert s.workers[v].pc.Running?;
    }
  }

  /** The callback of a call that is over stops, whatever its flag says. */
  lemma {:induction false} FreedCallbackStops(s: State, w: ThreadId, call: IoCall, willing: bool)
    requires w in s.workers && s.workers[w].pc.Running? && s.workers[w].pc.job == Timeout(call)
    requires forall f | f in s.io.open :: s.io.open[f] != call
    requires forall v | v in s.workers && s.workers[v].pc.Running? ::
      s.workers[v].pc.job != Test(call) && s.workers[v].pc.job != Raise(call) && s.workers[v].pc.job != Cancel(call)
    ensures LoopEnabled(s, RunJob(w, willing))
    ensures var u := LoopApply(s, RunJob(w, willing));
      && w in u.workers && u.workers[w].pc == s.workers[w].pc.(job := Plain)
      && u.tasks == s.tasks && u.fds == s.fds && u.io == s.io
  {
    CallbackGoesOnExactly(s, w, call, willing);
  }

  /** A call in progress can still be timed out: its callback goes on to the test. */
  lemma {:induction false} OpenCallbackGoesOn(s: State, w: ThreadId, call: IoCall, f: FiberId, willing: bool)
    requires w in s.workers && s.workers[w].pc.Running? && s.workers[w].pc.job == Timeout(call)
    requires f in s.io.open && s.io.open[f] == call
    ensures LoopEnabled(s, RunJob(w, willing))
    ensures w in LoopApply(s, RunJob(w, willing)).workers
    ensures LoopApply(s, RunJob(w, willing)).workers[w].pc == s.workers[w].pc.(job := Test(call))
  {
    CallbackGoesOnExactly(s, w, call, willing);
  }

  // ---------------------------------------------------------------- calls that are over

  /** The call was entered and is not in use any more. */
  ghost predicate Over(s: State, call: IoCall) {
    call in s.io.infos && !InUse(s, call)
  }

  lemma {:induction false} CallOpens(s: State, st: CallStep)
    requires CallEnabled(s, st)
    ensures var u := CallApply(s, st);
      && (forall c | c in s.io.infos :: c in u.io.infos)
      && (forall f | f in u.io.open :: (f in s.io.open && u.io.open[f] == s.io.open[f]) || u.io.open[f] !in s.io.infos)
  {
    if IsEventCall(st) {
      match st
      case CancelOne(_, fd, ev, willing) => CancelKeepsWorkers(s, fd, ev, willing);
      case CancelBoth(_, fd, willing) => CancelAllKeepsWorkers(s, fd, willing);
      case _ =>
    } else if !st.EnterIo? && !st.LeaveIo? {
      OtherCallKeepsCalls(s, st);
    }
  }

  lemma {:induction false} JobOpens(s: State, w: ThreadId, willing: bool)
    requires LoopEnabled(s, RunJob(w, willing))
    ensures var u := JobStep(s, w, willing);
      && (forall c | c in s.io.infos :: c in u.io.infos) && u.io.open == s.io.open
  {
    match s.workers[w].pc.job
    case Resume(_) => ResumeKeepsCalls(s, w);
    case Cancel(_) => CancelJobKeepsCalls(s, w, willing);
    case _ =>
  }

  /** A call is entered only for the first time. */
  lemma {:induction false} StepOpens(s: State, st: Step)
    requires Enabled(s, st)
    ensures var u := Apply(s, st);
      && (forall c | c in s.io.infos :: c in u.io.infos)
      && (forall f | f in u.io.open :: (f in s.io.open && u.io.open[f] == s.io.open[f]) || u.io.open[f] !in s.io.infos)
  {
    match st
    case Call(c) => CallOpens(s, c);
    case Loop(l) =>
      if l.RunJob? {
        JobOpens(s, l.w, l.willing);
      } else if l.Report? {
        ReportKeepsWorkers(s, l.fd, l.reported, l.errorOrHangup, l.willing);
      } else {
        OtherLoopKeepsCalls(s, l);
      }
  }

  /** A callback between the test and the cancellation was there before, or its flag was in use. */
  lemma {:induction false} JobOfUsed(s: State, w: ThreadId, willing: bool, call: IoCall)
    requires LoopEnabled(s, RunJob(w, willing)) && !InUse(s, call)
    ensures var u := JobStep(s, w, willing);
      w in u.workers && !(HoldsFlag(u.workers[w].pc) && u.workers[w].pc.job.call == call)
  {
    var job := s.workers[w].pc.job;
    if job.Resume? {
      ResumeWorkers(s, w);
    } else if job.Cancel? {
      CancelJobWorkers(s, w, willing);
    } else {
      FlagJobOfUsed(s, w, call);
    }
  }

  lemma {:induction false} FlagJobOfUsed(s: State, w: ThreadId, call: IoCall)
    requires w in s.workers && s.workers[w].pc.Running? && IsFlagJob(s.workers[w].pc.job) && !InUse(s, call)
    ensures var u := TimeoutStep(s, w);
      w in u.workers && !(HoldsFlag(u.workers[w].pc) && u.workers[w].pc.job.call == call)
  {
    TimeoutWorkers(s, w);
    UsedIsAlive(s, s.workers[w].pc.job.call);
  }

  lemma {:induction false} StepTakesNoHold(s: State, st: Step, v: ThreadId, call: IoCall)
    requires Enabled(s, st) && !InUse(s, call) && v in Apply(s, st).workers
    ensures var pc := Apply(s, st).workers[v].pc; !(HoldsFlag(pc) && pc.job.call == call)
  {
    match st
    case Call(c) => CallKeepsPicks(s, c);
    case Loop(l) =>
      if l.RunJob? {
        JobOfUsed(s, l.w, l.willing, call);
        JobMovesOne(s, l.w, l.willing);
      } else if !l.Pick? {
        LoopMovesOne(s, l);
      }
  }

  lemma {:induction false} StepKeepsOver(s: State, st: Step, call: IoCall)
    requires Enabled(s, st) && Over(s, call)
    ensures Over(Apply(s, st), call) && call !in RaisedBy(s, st)
  {
    var u := Apply(s, st);
    StepOpens(s, st);
    UsedIsAlive(u, call);
    forall v | v in u.workers ensures !(HoldsFlag(u.workers[v].pc) && u.workers[v].pc.job.call == call) {
      StepTakesNoHold(s, st, v, call);
    }
  }

  /** Once a call is over it stays over: along every run its flag is not raised again, and no callback comes
      to cancel for it, however many of its timers are left. */
  lemma {:induction false} OverStaysOver(s: State, steps: seq<Step>, call: IoCall)
    requires IsRun(s, steps) && call in s.io.infos
    requires forall f | f in s.io.open :: s.io.open[f] != call
    requires forall v | v in s.workers && s.workers[v].pc.Running? ::
      s.workers[v].pc.job != Test(call) && s.workers[v].pc.job != Raise(call) && s.workers[v].pc.job != Cancel(call)
    ensures var u := After(s, steps);
      && multiset(u.io.timeouts)[call] == multiset(s.io.timeouts)[call]
      && (forall f | f in u.io.open :: u.io.open[f] != call)
      && (forall v | v in u.workers && u.workers[v].pc.Running? :: u.workers[v].pc.job != Cancel(call))
  {
    assert Over(s, call);
    RunKeepsOver(s, steps, call);
  }

  lemma {:induction false} RunKeepsOver(s: State, steps: seq<Step>, call: IoCall)
    requires IsRun(s, steps) && Over(s, call)
    ensures Over(After(s, steps), call)
    ensures multiset(After(s, steps).io.timeouts)[call] == multiset(s.io.timeouts)[call]
    decreases |steps|
  {
    if steps != [] {
      StepKeepsOver(s, steps[0], call);
      StepRaises(s, steps[0]);
      RunKeepsOver(Apply(s, steps[0]), steps[1..], call);
    }
  }
}
