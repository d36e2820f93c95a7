/** Two runs of the runtime in which a time-out of `do_io` goes astray: a flag that is raised twice, and a
    cancellation that reaches a later call. */
module TimeoutRuns {
  import opened Fibers
  import opened TaskQueue
  import opened EventTable
  import opened Runtime
  import opened WakeTokens
  import opened IoCalls
  import opened Safety
  import opened Timeouts

  // ---------------------------------------------------------------- one step further

  lemma {:induction false} AfterSnoc(s: State, steps: seq<Step>, st: Step)
    requires IsRun(s, steps) && Enabled(After(s, steps), st)
    ensures IsRun(s, steps + [st]) && After(s, steps + [st]) == Apply(After(s, steps), st)
    decreases |steps|
  {
    if steps == [] {
      assert steps + [st] == [st] && [st][1..] == [];
      assert After(Apply(s, st), []) == Apply(s, st);
    } else {
      assert (steps + [st])[1..] == steps[1..] + [st];
      AfterSnoc(Apply(s, steps[0]), steps[1..], st);
    }
  }

  /** A set of states that no step leaves. */
  ghost predicate Closed(r: State -> bool) {
    forall s: State, st: Step :: r(s) && Enabled(s, st) ==> r(Apply(s, st))
  }

  lemma {:induction false} ReachableIsClosed()
    ensures Closed(s => Reachable(s))
  {
    forall s: State, st: Step | Reachable(s) && Enabled(s, st) ensures Reachable(Apply(s, st)) {
      var s0: State, steps: seq<Step> :| Init(s0) && IsRun(s0, steps) && s == After(s0, steps);
      AfterSnoc(s0, steps, st);
    }
  }

  /** The state with the worker `w` at `pc`. */
  function Moved(s: State, w: ThreadId, pc: Pc): State
    requires w in s.workers
  {
    s.(workers := s.workers[w := s.workers[w].(pc := pc)])
  }

  lemma {:induction false} Overwrites<K, V>(m: map<K, V>, k: K, a: V, b: V)
    ensures m[k := a][k := b] == m[k := b]
  {
  }

  lemma {:induction false} GoesLoop(r: State -> bool, s: State, st: LoopStep)
    requires Closed(r) && r(s) && LoopEnabled(s, st)
    ensures r(LoopApply(s, st))
  {
    assert Enabled(s, Loop(st));
  }

  lemma {:induction false} GoesCall(r: State -> bool, s: State, st: CallStep)
    requires Closed(r) && r(s) && CallEnabled(s, st)
    ensures r(CallApply(s, st))
  {
    assert Enabled(s, Call(st));
  }

  // ---------------------------------------------------------------- single steps

  lemma {:induction false} Yields(r: State -> bool, s: State, w: ThreadId, f: FiberId)
    requires Closed(r) && r(s) && w in s.workers && s.workers[w].pc == Running(f, Direct, Plain)
    requires f in s.loc && s.loc[f].AtFd? && f in s.fstate && s.fstate[f] == EXEC
    ensures r(Moved(s, w, Returned(f, Direct)))
  {
    GoesLoop(r, s, YieldToHold(w));
    assert s.fstate[f := EXEC] == s.fstate && s.loc[f := s.loc[f]] == s.loc;
    assert LoopApply(s, YieldToHold(w)) == Moved(s, w, Returned(f, Direct));
  }

  lemma {:induction false} Decrements(r: State -> bool, s: State, w: ThreadId, f: FiberId)
    requires Closed(r) && r(s) && w in s.workers && s.workers[w].pc == Returned(f, Direct)
    ensures r(Moved(s, w, Settling(f, Direct)).(active := s.active - 1))
  {
    GoesLoop(r, s, Decrement(w));
  }

  lemma {:induction false} Settles(r: State -> bool, s: State, w: ThreadId, f: FiberId)
    requires Closed(r) && r(s) && w in s.workers && s.workers[w].pc == Settling(f, Direct)
    requires f in s.fstate && s.fstate[f] == EXEC
    ensures r(Moved(s, w, Scanning).(fstate := s.fstate[f := HOLD], runner := s.runner - {f}))
  {
    GoesLoop(r, s, Settle(w));
    assert SettleStep(s, w) == OffStack(s, w, HOLD, s.loc, false);
  }

  lemma {:induction false} Scans(r: State -> bool, s: State, w: ThreadId)
    requires Closed(r) && r(s) && w in s.workers && s.workers[w].pc == Scanning && !s.workers[w].idleDone
    requires s.tasks.queue == []
    ensures r(Moved(s, w, Idling([])))
  {
    GoesLoop(r, s, EmptyScan(w));
  }

  lemma {:induction false} Expires(r: State -> bool, s: State, w: ThreadId, t: nat, call: IoCall)
    requires Closed(r) && r(s) && w in s.workers && s.workers[w].pc == Idling([])
    requires t in s.timers && s.timers[t] == Armed(TimeoutCancel(call), false)
    ensures r(Moved(s, w, Idling([TimeoutCancel(call)])).(timers := s.timers - {t}))
  {
    GoesLoop(r, s, Expire(w, t));
    assert [] + [TimeoutCancel(call)] == [TimeoutCancel(call)];
  }

  lemma {:induction false} Pushes(r: State -> bool, s: State, w: ThreadId, cb: Callback) returns (u: State)
    requires Closed(r) && r(s) && w in s.workers && s.workers[w].pc == Idling([cb]) && CallbackToken(cb).None?
    ensures r(u) && u == Moved(s, w, Idling([])).(tasks := u.tasks)
    ensures u.tasks.queue == s.tasks.queue + [Entry(CallbackWork(cb), ANY_THREAD, s.tasks.next)]
  {
    GoesLoop(r, s, PushExpired(w));
    assert [cb][1..] == [];
    u := PushExpiredStep(s, w);
  }

  lemma {:induction false} StopsIdling(r: State -> bool, s: State, w: ThreadId)
    requires Closed(r) && r(s) && w in s.workers && s.workers[w].pc == Idling([])
    ensures r(Moved(s, w, Scanning))
  {
    GoesLoop(r, s, LeaveIdle(w));
  }

  lemma {:induction false} Picks(r: State -> bool, s: State, w: ThreadId, e: Entry)
    requires Closed(r) && r(s) && w in s.workers && s.workers[w].pc == Scanning
    requires s.tasks.queue == [e] && Eligible(e, w, s.fstate)
    ensures r(Moved(s, w, Picked(e)).(tasks := s.tasks.(queue := []), active := s.active + 1,
                                              loc := Move(s.loc, Token(e.work), Held(w))))
  {
    GoesLoop(r, s, Pick(w));
    assert RemoveAt([e], 0) == [];
  }

  lemma {:induction false} SwapsIn(r: State -> bool, s: State, w: ThreadId, e: Entry, f: FiberId)
    requires Closed(r) && r(s) && w in s.workers && s.workers[w].pc == Picked(e) && e.work == FiberWork(f)
    requires f in s.fstate && !Ended(s.fstate[f])
    ensures r(Moved(s, w, Running(f, Direct, Plain)).(
              fstate := s.fstate[f := EXEC], loc := s.loc[f := Own], runner := s.runner[f := w],
              consumed := s.consumed + {e.ticket}))
  {
    GoesLoop(r, s, SwapIn(w));
  }

  lemma {:induction false} Starts(r: State -> bool, s: State, w: ThreadId, e: Entry, call: IoCall, spare: FiberId) returns (u: State)
    requires Closed(r) && r(s) && w in s.workers && s.workers[w].pc == Picked(e) && s.workers[w].cbFiber.None?
    requires e.work == CallbackWork(TimeoutCancel(call)) && spare !in s.fstate && spare !in s.loc
    ensures r(u) && w in u.workers
    ensures u.workers[w] == Worker(Running(spare, ViaCallback, Timeout(call)), Some(spare), s.workers[w].idleDone)
    ensures u == s.(workers := s.workers[w := u.workers[w]], fstate := s.fstate[spare := EXEC],
                    loc := s.loc[spare := Own], runner := u.runner, consumed := u.consumed)
  {
    GoesLoop(r, s, StartCallback(w, spare));
    u := StartStep(s, w, spare);
  }

  lemma {:induction false} Accesses(r: State -> bool, s: State, w: ThreadId, f: FiberId, job: Job)
    requires Closed(r) && r(s) && w in s.workers && s.workers[w].pc == Running(f, ViaCallback, job) && IsFlagJob(job)
    ensures r(Moved(s, w, Running(f, ViaCallback, NextJob(s, job))).(
              io := if job.Raise? then Raised(s.io, job.call) else s.io))
  {
    GoesLoop(r, s, RunJob(w, true));
    assert TimeoutStep(s, w) == Moved(s, w, Running(f, ViaCallback, NextJob(s, job))).(
      io := if job.Raise? then Raised(s.io, job.call) else s.io);
  }

  // ---------------------------------------------------------------- parts of a run

  /** The fiber `f` runs for itself on `w` and has registered nowhere. */
  ghost predicate Runs(s: State, w: ThreadId, f: FiberId) {
    && w in s.workers && s.workers[w].pc == Running(f, Direct, Plain)
    && f in s.loc && s.loc[f] == Own
    && f in s.fstate && s.fstate[f] == EXEC
  }

  /** The fiber waits at the event of its call. */
  ghost predicate Waits(s: State, f: FiberId, call: IoCall) {
    && f in s.loc && s.loc[f] == AtFd(call.fd, call.event)
    && f in s.fstate && s.fstate[f] == HOLD
    && IsSet(s.fds.fds, call.fd, call.event)
    && Fires(s.fds.fds[call.fd].Ctx(call.event)) == Some(FiberWork(f))
  }

  /** Arming the timer of the call. */
  lemma {:induction false} Arms(r: State -> bool, s: State, w: ThreadId, f: FiberId, call: IoCall, t: nat)
    requires Closed(r) && r(s) && Runs(s, w, f) && InCall(s, w, call) && t !in s.timers
    ensures r(s.(timers := s.timers[t := Armed(TimeoutCancel(call), false)]))
  {
    GoesCall(r, s, ArmTimer(ByFiber(w), t, Armed(TimeoutCancel(call), false)));
  }

  /** Registering at the event of the call. */
  lemma {:induction false} Registers(r: State -> bool, s: State, w: ThreadId, f: FiberId, call: IoCall) returns (u: State)
    requires Closed(r) && r(s) && Runs(s, w, f) && InCall(s, w, call)
    requires EventTable.Inv(s.fds) && !IsSet(s.fds.fds, call.fd, call.event)
    ensures r(u) && IsSet(u.fds.fds, call.fd, call.event) && u.io == s.io.(calls := u.io.calls)
    ensures Fires(u.fds.fds[call.fd].Ctx(call.event)) == Some(FiberWork(f))
    ensures u == s.(fds := u.fds, loc := s.loc[f := AtFd(call.fd, call.event)], io := u.io)
  {
    AddEventKeepsInv(s.fds, call.fd, call.event, OwnFiber(f), true);
    AddedIsWhatFires(s.fds, call.fd, call.event, OwnFiber(f), true, call.fd, call.event);
    GoesCall(r, s, AddFiberEvent(w, call.fd, call.event, true));
    u := AddFiberStep(s, w, call.fd, call.event, true);
  }

  /** Leaving the stack after the registration. */
  lemma {:induction false} Leaves(r: State -> bool, s: State, w: ThreadId, f: FiberId) returns (u: State)
    requires Closed(r) && r(s) && w in s.workers && s.workers[w].pc == Running(f, Direct, Plain)
    requires f in s.loc && s.loc[f].AtFd? && f in s.fstate && s.fstate[f] == EXEC
    ensures r(u)
    ensures u == Moved(s, w, Scanning).(fstate := s.fstate[f := HOLD], runner := u.runner, active := u.active)
  {
    Yields(r, s, w, f);
    var a := Moved(s, w, Returned(f, Direct));
    Decrements(r, a, w, f);
    var b := Moved(a, w, Settling(f, Direct)).(active := s.active - 1);
    Settles(r, b, w, f);
    u := Moved(b, w, Scanning).(fstate := s.fstate[f := HOLD], runner := s.runner - {f});
  }

  /** A worker takes the expired timer's callback to the queue. */
  lemma {:induction false} Elapses(r: State -> bool, s: State, w: ThreadId, t: nat, call: IoCall) returns (u: State)
    requires Closed(r) && r(s) && w in s.workers && s.workers[w].pc == Scanning && !s.workers[w].idleDone
    requires s.tasks.queue == [] && t in s.timers && s.timers[t] == Armed(TimeoutCancel(call), false)
    ensures r(u) && u == Moved(s, w, Idling([])).(tasks := u.tasks, timers := s.timers - {t})
    ensures u.tasks.queue == [Entry(CallbackWork(TimeoutCancel(call)), ANY_THREAD, s.tasks.next)]
  {
    Scans(r, s, w);
    var a := Moved(s, w, Idling([]));
    Expires(r, a, w, t, call);
    var b := Moved(a, w, Idling([TimeoutCancel(call)])).(timers := s.timers - {t});
    u := Pushes(r, b, w, TimeoutCancel(call));
  }

  /** A worker runs the callback up to the point where it has found the flag not raised. */
  lemma {:induction false} Tests(r: State -> bool, s: State, w: ThreadId, e: Entry, spare: FiberId, f: FiberId, call: IoCall) returns (u: State)
    requires Closed(r) && r(s) && w in s.workers && s.workers[w].pc == Scanning && s.workers[w].cbFiber.None?
    requires s.tasks.queue == [e] && e.work == CallbackWork(TimeoutCancel(call)) && e.thread == ANY_THREAD
    requires spare !in s.fstate && spare !in s.loc
    requires f in s.io.open && s.io.open[f] == call && call in s.io.infos && !s.io.infos[call]
    ensures r(u) && AtRaise(u, w, call) && u.tasks.queue == []
    ensures u.workers[w] == Worker(Running(spare, ViaCallback, Raise(call)), Some(spare), s.workers[w].idleDone)
    ensures u == s.(workers := s.workers[w := u.workers[w]], fstate := s.fstate[spare := EXEC], loc := s.loc[spare := Own],
                    runner := u.runner, active := u.active, tasks := u.tasks, consumed := u.consumed)
  {
    Picks(r, s, w, e);
    var a := Moved(s, w, Picked(e)).(tasks := s.tasks.(queue := []), active := s.active + 1);
    var b := Starts(r, a, w, e, call, spare);
    Accesses(r, b, w, spare, Timeout(call));
    assert Alive(b, call);
    var c := Moved(b, w, Running(spare, ViaCallback, Test(call)));
    Accesses(r, c, w, spare, Test(call));
    u := Moved(c, w, Running(spare, ViaCallback, Raise(call)));
  }

  /** A scanning worker takes up the fiber in the queue. */
  lemma {:induction false} Takes(r: State -> bool, s: State, w: ThreadId, e: Entry, f: FiberId) returns (u: State)
    requires Closed(r) && r(s) && w in s.workers && s.workers[w].pc == Scanning
    requires s.tasks.queue == [e] && e.work == FiberWork(f) && e.thread == ANY_THREAD
    requires f in s.fstate && (s.fstate[f] == HOLD || s.fstate[f] == INIT)
    ensures r(u) && Runs(u, w, f) && u.tasks.queue == []
    ensures u == Moved(s, w, Running(f, Direct, Plain)).(
              fstate := s.fstate[f := EXEC], loc := s.loc[f := Own], runner := u.runner, active := u.active,
              tasks := u.tasks, consumed := u.consumed)
  {
    Picks(r, s, w, e);
    var a := Moved(s, w, Picked(e)).(tasks := s.tasks.(queue := []), active := s.active + 1, loc := s.loc[f := Held(w)]);
    SwapsIn(r, a, w, e, f);
    Overwrites(s.loc, f, Held(w), Own);
    Overwrites(s.workers, w, s.workers[w].(pc := Picked(e)), s.workers[w].(pc := Running(f, Direct, Plain)));
    u := Moved(a, w, Running(f, Direct, Plain)).(
      fstate := s.fstate[f := EXEC], loc := a.loc[f := Own], runner := s.runner[f := w], consumed := s.consumed + {e.ticket});
  }

  /** Handling the readiness of one registered event is waking what is registered there. */
  lemma {:induction false} ReportIsWake(s: State, fd: nat, ev: Event)
    requires EventTable.Inv(s.fds) && IsSet(s.fds.fds, fd, ev)
    ensures Dispatch(s.fds, fd, {ev}, false, true).Dispatched?
    ensures DoDispatch(s, fd, {ev}, false, true) ==
      WakeFrom(s.(fds := Shrink(s.fds, fd, s.fds.fds[fd].events - {ev})), fd, ev)
  {
    DispatchKeepsInv(s.fds, fd, {ev}, false, true);
    RemovalIsLegal(s.fds, fd, s.fds.fds[fd].events - {ev});
    assert RealEvents(s.fds, fd, {ev}, false) == {ev};
    assert ev in s.fds.fds[fd].events * {ev};
  }

  /** Waking a fiber puts it at the back of the queue. */
  lemma {:induction false} WakeIsPush(s: State, fd: nat, ev: Event, f: FiberId)
    requires IsSet(s.fds.fds, fd, ev) && Fires(s.fds.fds[fd].Ctx(ev)) == Some(FiberWork(f)) && s.tasks.queue == []
    ensures var u := WakeFrom(s, fd, ev);
      && !IsSet(u.fds.fds, fd, ev)
      && u.tasks.queue == [Entry(FiberWork(f), ANY_THREAD, s.tasks.next)]
      && u == s.(loc := s.loc[f := Queued(u.tasks.queue[0])], tasks := u.tasks, fds := u.fds)
  {
    assert s.loc[f := Transit][f := Queued(Entry(FiberWork(f), ANY_THREAD, s.tasks.next))]
        == s.loc[f := Queued(Entry(FiberWork(f), ANY_THREAD, s.tasks.next))];
  }

  /** An idle worker handles the readiness of the event. */
  lemma {:induction false} Reports(r: State -> bool, s: State, w: ThreadId, f: FiberId, call: IoCall) returns (u: State)
    requires Closed(r) && r(s) && w in s.workers && s.workers[w].pc == Idling([]) && s.tasks.queue == []
    requires EventTable.Inv(s.fds) && Waits(s, f, call)
    ensures r(u) && !IsSet(u.fds.fds, call.fd, call.event)
    ensures u.tasks.queue == [Entry(FiberWork(f), ANY_THREAD, s.tasks.next)]
    ensures u == s.(loc := s.loc[f := Queued(u.tasks.queue[0])], tasks := u.tasks, fds := u.fds)
  {
    ReportIsWake(s, call.fd, call.event);
    GoesLoop(r, s, Report(w, call.fd, {call.event}, false, true));
    u := DoDispatch(s, call.fd, {call.event}, false, true);
    WakeIsPush(s.(fds := Shrink(s.fds, call.fd, s.fds.fds[call.fd].events - {call.event})), call.fd, call.event, f);
  }

  /** ... and takes up the fiber that waits there. */
  lemma {:induction false} Wakes(r: State -> bool, s: State, w: ThreadId, f: FiberId, call: IoCall) returns (u: State)
    requires Closed(r) && r(s) && w in s.workers && s.workers[w].pc == Idling([]) && s.tasks.queue == []
    requires EventTable.Inv(s.fds) && Waits(s, f, call)
    ensures r(u) && Runs(u, w, f) && u.tasks.queue == [] && !IsSet(u.fds.fds, call.fd, call.event)
    ensures u == Moved(s, w, Running(f, Direct, Plain)).(
              fstate := s.fstate[f := EXEC], loc := s.loc[f := Own], runner := u.runner, active := u.active,
              tasks := u.tasks, consumed := u.consumed, fds := u.fds)
  {
    var a := Reports(r, s, w, f, call);
    StopsIdling(r, a, w);
    var b := Moved(a, w, Scanning);
    u := Takes(r, b, w, a.tasks.queue[0], f);
    assert a.loc[f := Own] == s.loc[f := Own];
  }

  // ---------------------------------------------------------------- the runs

  /** A closed set of states in which the event table is as it should be. */
  ghost predicate Sound(r: State -> bool) {
    Closed(r) && forall s: State :: r(s) ==> EventTable.Inv(s.fds)
  }

  function Beginning(): State {
    State(map[], map[], map[], Tasks([], 0, []), {},
          map[1 := Worker(Scanning, None, false), 2 := Worker(Scanning, None, false)], 0,
          Initial(), map[], map[], Io(map[], map[], map[], []), false)
  }

  /** The call arms a timer, registers and parks. */
  lemma {:induction false} Parks(r: State -> bool, s: State, w: ThreadId, f: FiberId, call: IoCall) returns (u: State)
    requires Sound(r) && r(s) && Runs(s, w, f) && InCall(s, w, call)
    requires s.timers == map[] && !IsSet(s.fds.fds, call.fd, call.event)
    ensures r(u) && Waits(u, f, call)
    ensures u == Moved(s, w, Scanning).(
              fstate := s.fstate[f := HOLD], loc := s.loc[f := AtFd(call.fd, call.event)], runner := u.runner,
              active := u.active, fds := u.fds, io := u.io, timers := map[0 := Armed(TimeoutCancel(call), false)])
    ensures u.io == s.io.(calls := u.io.calls)
  {
    Arms(r, s, w, f, call, 0);
    var a := s.(timers := map[0 := Armed(TimeoutCancel(call), false)]);
    assert s.timers[0 := Armed(TimeoutCancel(call), false)] == a.timers;
    var b := Registers(r, a, w, f, call);
    u := Leaves(r, b, w, f);
  }

  /** One round of a call: it parks and the timer runs out. */
  lemma {:induction false} TimesOut(r: State -> bool, s: State, w: ThreadId, f: FiberId, call: IoCall) returns (u: State)
    requires Sound(r) && r(s) && Runs(s, w, f) && InCall(s, w, call) && !s.workers[w].idleDone
    requires s.tasks.queue == [] && s.timers == map[] && !IsSet(s.fds.fds, call.fd, call.event)
    ensures r(u) && Waits(u, f, call)
    ensures u == Moved(s, w, Idling([])).(
              fstate := s.fstate[f := HOLD], loc := s.loc[f := AtFd(call.fd, call.event)], runner := u.runner,
              active := u.active, tasks := u.tasks, fds := u.fds, io := u.io)
    ensures u.io == s.io.(calls := u.io.calls)
    ensures u.tasks.queue == [Entry(CallbackWork(TimeoutCancel(call)), ANY_THREAD, s.tasks.next)]
  {
    var c := Parks(r, s, w, f, call);
    u := Elapses(r, c, w, 0, call);
    assert c.timers - {0} == map[];
    Overwrites(s.workers, w, s.workers[w].(pc := Scanning), s.workers[w].(pc := Idling([])));
  }

  /** Fiber 0 is in the call `call` on worker 1, and worker 2 is there. */
  ghost predicate Scene(s: State, call: IoCall, known: set<FiberId>, two: Worker) {
    && Runs(s, 1, 0) && s.workers[1].cbFiber.None? && !s.workers[1].idleDone
    && 2 in s.workers && s.workers[2] == two
    && s.io.open == map[0 := call] && s.io.infos == map[call := false] && s.io.timeouts == []
    && s.tasks.queue == [] && s.timers == map[] && !IsSet(s.fds.fds, call.fd, call.event)
    && s.fstate.Keys == known && s.loc.Keys == known
  }

  lemma {:induction false} Spawns(r: State -> bool)
    requires Closed(r) && r(Beginning())
    ensures var e := Entry(FiberWork(0), ANY_THREAD, 0);
      r(Beginning().(fstate := map[0 := INIT], loc := map[0 := Queued(e)], tasks := Tasks([e], 1, [Acceptance(e, None)])))
  {
    GoesCall(r, Beginning(), Spawn(External, 0, ANY_THREAD));
    var e := Entry(FiberWork(0), ANY_THREAD, 0);
    Overwrites(map[], 0, Transit, Queued(e));
    assert CallApply(Beginning(), Spawn(External, 0, ANY_THREAD)).tasks == Tasks([e], 1, [Acceptance(e, None)]);
  }

  lemma {:induction false} Enters(r: State -> bool, s: State, w: ThreadId, f: FiberId, call: IoCall)
    requires Closed(r) && r(s) && Runs(s, w, f) && f !in s.io.open && call !in s.io.infos
    ensures r(s.(io := s.io.(infos := s.io.infos[call := false], open := s.io.open[f := call])))
  {
    GoesCall(r, s, EnterIo(w, call));
  }

  lemma {:induction false} Returns(r: State -> bool, s: State, w: ThreadId, f: FiberId)
    requires Closed(r) && r(s) && Runs(s, w, f) && f in s.io.open
    ensures r(s.(io := s.io.(open := s.io.open - {f})))
  {
    GoesCall(r, s, LeaveIo(w));
  }

  lemma {:induction false} Opens(r: State -> bool, call: IoCall) returns (u: State)
    requires Sound(r) && r(Beginning())
    ensures r(u) && Scene(u, call, {0}, Worker(Scanning, None, false))
  {
    Spawns(r);
    var e := Entry(FiberWork(0), ANY_THREAD, 0);
    var a := Beginning().(fstate := map[0 := INIT], loc := map[0 := Queued(e)], tasks := Tasks([e], 1, [Acceptance(e, None)]));
    var b := Takes(r, a, 1, e, 0);
    Enters(r, b, 1, 0, call);
    u := b.(io := b.io.(infos := b.io.infos[call := false], open := b.io.open[0 := call]));
  }

  /** Worker 2 stands between the test and the write. */
  lemma {:induction false} Stalls(r: State -> bool, s: State, call: IoCall) returns (u: State)
    requires Sound(r) && r(s) && Scene(s, call, {0}, Worker(Scanning, None, false))
    ensures r(u) && Waits(u, 0, call) && u.tasks.queue == [] && u.timers == map[]
    ensures u.io == s.io.(calls := u.io.calls)
    ensures 1 in u.workers && u.workers[1] == Worker(Idling([]), None, false)
    ensures 2 in u.workers && u.workers[2] == Worker(Running(1, ViaCallback, Raise(call)), Some(1), false)
    ensures u.fstate.Keys == {0, 1} && u.loc.Keys == {0, 1}
  {
    var b := TimesOut(r, s, 1, 0, call);
    u := Tests(r, b, 2, b.tasks.queue[0], 1, 0, call);
  }

  /** Worker 2 stands between the test and the write, and the call goes on on worker 1. */
  lemma {:induction false} GoesOn(r: State -> bool, call: IoCall) returns (u: State)
    requires Sound(r) && r(Beginning())
    ensures r(u) && Scene(u, call, {0, 1}, Worker(Running(1, ViaCallback, Raise(call)), Some(1), false))
  {
    var a := Opens(r, call);
    var c := Stalls(r, a, call);
    u := Wakes(r, c, 1, 0, call);
  }

  /** The retry of the call times out as well, and worker 1 comes to the same point. */
  lemma {:induction false} BothStall(r: State -> bool, call: IoCall) returns (u: State)
    requires Sound(r) && r(Beginning())
    ensures r(u) && 1 in u.workers && 2 in u.workers && u.io.timeouts == []
    ensures u.workers[1].pc == Running(2, ViaCallback, Raise(call)) && u.workers[2].pc == Running(1, ViaCallback, Raise(call))
  {
    var a := GoesOn(r, call);
    var b := TimesOut(r, a, 1, 0, call);
    StopsIdling(r, b, 1);
    var c := Moved(b, 1, Scanning);
    u := Tests(r, c, 1, b.tasks.queue[0], 2, 0, call);
  }

  lemma {:induction false} ReachableIsSound()
    ensures Sound(s => Reachable(s)) && Reachable(Beginning())
  {
    ReachableIsClosed();
    forall s: State | Reachable(s) ensures EventTable.Inv(s.fds) {
      ReachableInv(s);
    }
    var s := Beginning();
    assert 1 in s.workers;
    assert Init(s) && IsRun(s, []) && s == After(s, []);
  }

  /** Both workers raise the flag. */
  lemma {:induction false} BothRaise(r: State -> bool, s: State, call: IoCall) returns (u: State)
    requires Closed(r) && r(s) && 1 in s.workers && 2 in s.workers && s.io.timeouts == []
    requires s.workers[1].pc == Running(2, ViaCallback, Raise(call)) && s.workers[2].pc == Running(1, ViaCallback, Raise(call))
    ensures r(u) && u.io.timeouts == [call, call]
  {
    Accesses(r, s, 1, 2, Raise(call));
    var a := Moved(s, 1, Running(2, ViaCallback, Cancel(call))).(io := Raised(s.io, call));
    Accesses(r, a, 2, 1, Raise(call));
    u := Moved(a, 2, Running(1, ViaCallback, Cancel(call))).(io := Raised(a.io, call));
  }

  /** A call can be timed out twice: a retry arms a second timer with the same flag, and two workers that
      run the two callbacks may both find the flag not raised before either of them raises it. */
  lemma {:induction false} FlagCanBeRaisedTwice(call: IoCall)
    ensures exists s: State, v, w :: Reachable(s) && v != w && AtRaise(s, v, call) && AtRaise(s, w, call)
    ensures exists s: State :: Reachable(s) && s.io.timeouts == [call, call]
  {
    var r := (s: State) => Reachable(s);
    ReachableIsSound();
    var s := BothStall(r, call);
    assert Reachable(s) && AtRaise(s, 1, call) && AtRaise(s, 2, call);
    var u := BothRaise(r, s, call);
    assert Reachable(u);
  }

  /** Worker 2 raises the flag, the call ends, and its fiber enters a later one. */
  lemma {:induction false} Overtakes(r: State -> bool, s: State, call: IoCall, later: IoCall) returns (u: State)
    requires Closed(r) && r(s) && Scene(s, call, {0, 1}, Worker(Running(1, ViaCallback, Raise(call)), Some(1), false))
    requires later != call
    ensures r(u) && Runs(u, 1, 0) && InCall(u, 1, later) && u.fds == s.fds
    ensures 2 in u.workers && u.workers[2].pc == Running(1, ViaCallback, Cancel(call))
    ensures u.io.open == map[0 := later] && u.io.infos == map[call := true, later := false]
  {
    Accesses(r, s, 2, 1, Raise(call));
    var b := Moved(s, 2, Running(1, ViaCallback, Cancel(call))).(io := Raised(s.io, call));
    Returns(r, b, 1, 0);
    var c := b.(io := b.io.(open := b.io.open - {0}));
    Enters(r, c, 1, 0, later);
    u := c.(io := c.io.(infos := c.io.infos[later := false], open := c.io.open[0 := later]));
  }

  /** The call is over and its fiber registered in a later one when worker 2 comes to cancel. */
  lemma {:induction false} CancelsLate(r: State -> bool, call: IoCall, later: IoCall) returns (u: State)
    requires Sound(r) && r(Beginning()) && later != call && later.fd == call.fd && later.event == call.event
    ensures r(u) && 2 in u.workers && u.workers[2].pc == Running(1, ViaCallback, Cancel(call))
    ensures u.io.open == map[0 := later] && u.io.infos == map[call := true, later := false]
    ensures 0 in u.loc && u.loc[0] == AtFd(later.fd, later.event)
  {
    var a := GoesOn(r, call);
    var b := Overtakes(r, a, call, later);
    u := Registers(r, b, 1, 0, later);
  }

  /** A time-out can wake a later call of the same fiber, one that has not timed out: readiness woke the
      fiber first, the call ended, and the next one at the same event registered before the cancellation. */
  lemma {:induction false} TimeoutCanReachALaterCall(call: IoCall, later: IoCall)
    requires later != call && later.fd == call.fd && later.event == call.event
    ensures exists s: State, w ::
              && Reachable(s) && w in s.workers && s.workers[w].pc.Running? && s.workers[w].pc.job == Cancel(call)
              && OwnRegistration(s, later) && !OwnRegistration(s, call)
              && later in s.io.infos && !s.io.infos[later]
  {
    var r := (s: State) => Reachable(s);
    ReachableIsSound();
    var s := CancelsLate(r, call, later);
    assert Reachable(s);
    ReachableInv(s);
    LaterIsParked(s, call, later);
  }

  lemma {:induction false} LaterIsParked(s: State, call: IoCall, later: IoCall)
    requires OnePlace(s) && Core(s.fds) && LinksOk(s.fds, s.io.open, s.io.calls) && later != call
    requires s.io.open == map[0 := later] && 0 in s.loc && s.loc[0] == AtFd(later.fd, later.event)
    ensures OwnRegistration(s, later) && !OwnRegistration(s, call)
  {
    ParkedIsRegistered(s, later);
    ParkedIsRegistered(s, call);
    assert 0 in s.io.open && s.io.open[0] == later;
  }
}
