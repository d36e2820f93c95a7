/** What the workers can do next and what it does, said without the scheduler's own functions: the scan, the
    life of a fiber on a stack, the queue after each call, and that no worker is ever stuck. */
module Progress {
  import opened Fibers
  import opened TaskQueue
  import opened EventTable
  import opened Semaphores
  import opened Runtime
  import opened WakeTokens
  import opened Execution
  import opened Deliveries
  import opened TableSteps
  import opened Safety

  // ---------------------------------------------------------------- the scan

  /** A scanning worker finds nothing exactly when every entry is bound to another thread or is a fiber that
      is still executing; otherwise it takes the first entry that is neither, its own bound tasks included,
      leaves the others in order, and is counted as active. */
  lemma {:induction false} ScansExactly(s: State, w: ThreadId)
    requires w in s.workers && s.workers[w].pc.Scanning?
    ensures LoopEnabled(s, EmptyScan(w)) <==>
      forall e | e in s.tasks.queue ::
        || (e.thread != -1 && e.thread != w)
        || (e.work.FiberWork? && e.work.fiber in s.fstate && s.fstate[e.work.fiber] == EXEC)
    ensures LoopEnabled(s, Pick(w)) <==> !LoopEnabled(s, EmptyScan(w))
    ensures LoopEnabled(s, Pick(w)) ==>
      var q, u := s.tasks.queue, PickStep(s, w);
      exists i :: 0 <= i < |q|
        && (q[i].thread == -1 || q[i].thread == w)
        && !(q[i].work.FiberWork? && q[i].work.fiber in s.fstate && s.fstate[q[i].work.fiber] == EXEC)
        && (forall j :: 0 <= j < i ==>
              || (q[j].thread != -1 && q[j].thread != w)
              || (q[j].work.FiberWork? && q[j].work.fiber in s.fstate && s.fstate[q[j].work.fiber] == EXEC))
        && u.tasks.queue == q[..i] + q[i + 1..]
        && w in u.workers && u.workers[w].pc == Picked(q[i]) && u.active == s.active + 1
  {
    var i := ScanResult(s, w);
    if i < |s.tasks.queue| {
      assert s.tasks.queue[i] in s.tasks.queue;
    }
  }

  // ---------------------------------------------------------------- no worker is stuck

  /** How a worker can go on, decided by where it is: a scan finds an entry or not; a picked fiber is switched
      in unless it has ended, and then dropped; a picked callback is started, on the cached fiber or any new
      one; a running fiber can yield, a callback goes on with its next part; what was switched out is counted
      out and then settled; and the idle fiber schedules what expired and leaves, for good only when the
      scheduler was told to stop, nothing is queued and nobody is active. */
  ghost predicate CanGoOn(s: State, w: ThreadId, spare: FiberId)
    requires w in s.workers
  {
    match s.workers[w].pc
    case Scanning => LoopEnabled(s, Pick(w)) || LoopEnabled(s, EmptyScan(w))
    case Picked(e) => (
      match e.work
      case FiberWork(f) =>
        && f in s.fstate
        && (LoopEnabled(s, SwapIn(w)) <==> s.fstate[f] != TERM && s.fstate[f] != EXCEPT)
        && (LoopEnabled(s, Drop(w)) <==> s.fstate[f] == TERM || s.fstate[f] == EXCEPT)
      case CallbackWork(_) => LoopEnabled(s, StartCallback(w, spare)))
    case Running(_, _, job) => if job == Plain then LoopEnabled(s, YieldToHold(w)) else LoopEnabled(s, RunJob(w, true))
    case Returned(_, _) => LoopEnabled(s, Decrement(w))
    case Settling(_, _) => LoopEnabled(s, Settle(w))
    case Idling(cbs) =>
      && (LoopEnabled(s, PushExpired(w)) <==> cbs != [])
      && (LoopEnabled(s, LeaveIdle(w)) <==> cbs == [])
      && (LoopEnabled(s, IdleStop(w)) <==> cbs == [] && s.stopped && s.tasks.queue == [] && s.active == 0)
      && (forall t :: LoopEnabled(s, Expire(w, t)) <==> t in s.timers)
    case Exited => s.stopped
  }

  /** No worker is ever stuck. */
  lemma {:induction false} WorkerGoesOn(s: State, w: ThreadId, spare: FiberId)
    requires Reachable(s) && w in s.workers && (s.workers[w].cbFiber.None? ==> spare !in s.fstate)
    ensures CanGoOn(s, w, spare)
  {
    ReachableInv(s);
    GoesOn(s, w, spare);
  }

  lemma {:induction false} GoesOn(s: State, w: ThreadId, spare: FiberId)
    requires Tokens(s) && Exec(s) && Accounts(s) && w in s.workers && (s.workers[w].cbFiber.None? ==> spare !in s.fstate)
    ensures CanGoOn(s, w, spare)
  {
    var pc := s.workers[w].pc;
    if pc.Picked? && pc.entry.work.FiberWork? {
      PickedIsIdle(s, w);
      PickedGoesOn(s, w, spare);
    } else if pc.Running? {
      assert pc.fiber in s.loc;
      RunningGoesOn(s, w, spare);
    } else if pc.Settling? {
      OnStackIsKnown(s, w);
      SettlingGoesOn(s, w, spare);
    } else {
      OthersGoOn(s, w, spare);
    }
  }

  lemma {:induction false} PickedGoesOn(s: State, w: ThreadId, spare: FiberId)
    requires HasPicked(s, w) && s.workers[w].pc.entry.work.FiberWork? && s.workers[w].pc.entry.work.fiber in s.fstate
    ensures CanGoOn(s, w, spare)
  {
  }

  lemma {:induction false} RunningGoesOn(s: State, w: ThreadId, spare: FiberId)
    requires w in s.workers && s.workers[w].pc.Running? && s.workers[w].pc.fiber in s.loc
    ensures CanGoOn(s, w, spare)
  {
  }

  lemma {:induction false} SettlingGoesOn(s: State, w: ThreadId, spare: FiberId)
    requires w in s.workers && s.workers[w].pc.Settling? && s.workers[w].pc.fiber in s.fstate
    ensures CanGoOn(s, w, spare)
  {
  }

  lemma {:induction false} OthersGoOn(s: State, w: ThreadId, spare: FiberId)
    requires w in s.workers && !s.workers[w].pc.Running? && !s.workers[w].pc.Settling?
    requires s.workers[w].pc.Picked? ==> s.workers[w].pc.entry.work.CallbackWork?
    requires s.workers[w].cbFiber.None? ==> spare !in s.fstate && spare !in s.loc
    requires s.workers[w].pc.Exited? ==> s.stopped
    ensures CanGoOn(s, w, spare)
  {
  }

  /** The idle phase: after a fruitless scan a worker goes into the idle fiber, or leaves if that has ended. */
  lemma {:induction false} IdlesExactly(s: State, st: LoopStep)
    requires LoopEnabled(s, st) && (st.EmptyScan? || st.LeaveIdle? || st.IdleStop?)
    ensures var k := s.workers[st.w];
      LoopApply(s, st) == s.(workers := s.workers[st.w :=
        if st.EmptyScan? then k.(pc := if k.idleDone then Exited else Idling([]))
        else if st.LeaveIdle? then k.(pc := Scanning)
        else k.(pc := Scanning, idleDone := true)])
  {
  }

  /** When the scheduler was told to stop, nothing is queued and nobody is active, an idle worker that has
      nothing in hand can leave: its idle fiber ends, the next scan finds nothing, and the loop is over. */
  lemma {:induction false} WorkerLeaves(s: State, w: ThreadId)
    requires w in s.workers && s.workers[w].pc == Idling([]) && s.stopped && s.tasks.queue == [] && s.active == 0
    ensures var steps := [Loop(IdleStop(w)), Loop(EmptyScan(w))];
      && IsRun(s, steps) && w in After(s, steps).workers && After(s, steps).workers[w].pc == Exited
  {
    var a, b := Loop(IdleStop(w)), Loop(EmptyScan(w));
    var u := LoopApply(s, IdleStop(w));
    IdlesExactly(s, IdleStop(w));
    IdlesExactly(u, EmptyScan(w));
    assert [a, b][1..] == [b] && [b][1..] == [];
    assert After(u, [b]) == Apply(u, b);
  }

  // ---------------------------------------------------------------- what may be called

  /** Who acts: a running fiber always, anybody else until the scheduler is told to stop. */
  ghost predicate Acts(s: State, a: Actor) {
    match a
    case External => !s.stopped
    case ByFiber(w) => w in s.workers && s.workers[w].pc.Running? && s.workers[w].pc.job == Plain
  }

  /** They may schedule something new, or a fiber that waits for nobody, notify, arm and disarm timers. */
  lemma {:induction false} MaySchedule(s: State, a: Actor, f: FiberId, n: nat, thread: ThreadId, b: bool)
    requires Tokens(s) && Acts(s, a)
    ensures f !in s.fstate ==> CallEnabled(s, Spawn(a, f, thread))
    ensures CallEnabled(s, SpawnCallback(a, n, thread))
    ensures n in s.sems ==> CallEnabled(s, SemNotify(a, n))
    ensures n !in s.timers ==> CallEnabled(s, ArmTimer(a, n, Armed(UserCallback(f), b)))
    ensures n in s.timers && !s.timers[n].cb.ResumeFiber? ==> CallEnabled(s, DisarmTimer(a, n))
    ensures f in s.loc && (s.loc[f] == Orphan || (s.loc[f] == Done && f !in s.runner)) ==> CallEnabled(s, Adopt(a, f, thread))
  {
  }

  /** They may delete and cancel events, and register a callback where nothing is registered. */
  lemma {:induction false} MayUseEvents(s: State, a: Actor, n: nat, fd: nat, ev: Event, b: bool)
    requires EventTable.Inv(s.fds) && Acts(s, a)
    ensures CallEnabled(s, DeleteEvent(a, fd, ev, b)) && CallEnabled(s, CancelOne(a, fd, ev, b)) && CallEnabled(s, CancelBoth(a, fd, b))
    ensures !IsSet(s.fds.fds, fd, ev) ==> CallEnabled(s, AddCallbackEvent(a, n, fd, ev, b))
  {
    AddEventKeepsInv(s.fds, fd, ev, OwnCallback(UserCallback(n)), b);
  }

  /** A running fiber that has registered nowhere may besides wait, sleep, move to another thread, yield, enter
      a `do_io` call, and end outside one. */
  lemma {:induction false} MayPark(s: State, w: ThreadId, f: FiberId, n: nat, thread: ThreadId, call: IoCall, b: bool)
    requires w in s.workers && s.workers[w].pc.Running? && s.workers[w].pc.job == Plain
    requires s.workers[w].pc.fiber == f && f in s.loc && s.loc[f] == Own
    ensures n in s.sems ==> CallEnabled(s, SemWait(w, n)) && CallEnabled(s, SemTryWait(w, n))
    ensures n !in s.timers ==> CallEnabled(s, Sleep(w, n))
    ensures CallEnabled(s, SwitchTo(w, thread)) && LoopEnabled(s, YieldToReady(w)) && LoopEnabled(s, YieldToHold(w))
    ensures f !in s.io.open ==> LoopEnabled(s, Finish(w, b))
    ensures f !in s.io.open && call !in s.io.infos ==> CallEnabled(s, EnterIo(w, call))
  {
  }

  /** Inside a `do_io` call it may arm timers of the call and leave it; and it may register at the event of
      the call, or anywhere outside one, where nothing is registered. */
  lemma {:induction false} MayDoIo(s: State, w: ThreadId, f: FiberId, n: nat, call: IoCall, b: bool)
    requires EventTable.Inv(s.fds) && w in s.workers && s.workers[w].pc.Running? && s.workers[w].pc.job == Plain
    requires s.workers[w].pc.fiber == f && f in s.loc && s.loc[f] == Own
    ensures f in s.io.open && s.io.open[f] == call && n !in s.timers ==>
              CallEnabled(s, ArmTimer(ByFiber(w), n, Armed(TimeoutCancel(call), false)))
    ensures f in s.io.open ==> CallEnabled(s, LeaveIo(w))
    ensures (f in s.io.open ==> s.io.open[f] == call) && !IsSet(s.fds.fds, call.fd, call.event) ==>
              CallEnabled(s, AddFiberEvent(w, call.fd, call.event, b))
  {
    AddEventKeepsInv(s.fds, call.fd, call.event, OwnFiber(f), b);
  }

  // ---------------------------------------------------------------- the life of a fiber on a stack

  /** The fiber `f` is on the stack of `w`, in EXEC, and no place mentions it. */
  ghost predicate OnStack(u: State, w: ThreadId, f: FiberId) {
    && w in u.workers && u.workers[w].pc.Running? && u.workers[w].pc.fiber == f
    && f in u.fstate && u.fstate[f] == EXEC
    && forall l :: !At(u, f, l)
  }

  /** Switching in a picked fiber. */
  lemma {:induction false} SwapsInExactly(s: State, w: ThreadId)
    requires Tokens(s) && Exec(s) && HasPicked(s, w) && s.workers[w].pc.entry.work.FiberWork?
    ensures var e, u := s.workers[w].pc.entry, SwapInStep(s, w);
      && OnStack(u, w, e.work.fiber) && u.fstate == s.fstate[e.work.fiber := EXEC]
      && u.workers[w] == Worker(Running(e.work.fiber, Direct, Plain), s.workers[w].cbFiber, s.workers[w].idleDone)
      && u.active == s.active && u.tasks == s.tasks && u.consumed == s.consumed + {e.ticket}
  {
    SwapInKeeps(s, w);
    OwnIsNowhere(SwapInStep(s, w), s.workers[w].pc.entry.work.fiber);
  }

  /** Starting a picked callback: on the cached fiber, or a new one that is cached from now on. */
  lemma {:induction false} StartsExactly(s: State, w: ThreadId, spare: FiberId, f: FiberId)
    requires Tokens(s) && Exec(s) && HasPicked(s, w) && s.workers[w].pc.entry.work.CallbackWork?
    requires s.workers[w].cbFiber.None? ==> spare !in s.fstate
    requires f == if s.workers[w].cbFiber.Some? then s.workers[w].cbFiber.value else spare
    ensures var e, u := s.workers[w].pc.entry, StartStep(s, w, spare);
      && OnStack(u, w, f) && u.fstate == s.fstate[f := EXEC]
      && u.workers[w].cbFiber == Some(f) && u.workers[w].idleDone == s.workers[w].idleDone
      && u.active == s.active && u.tasks == s.tasks
      && u.consumed == s.consumed + {e.ticket}
      && u.workers[w].pc.job == (
           match e.work.cb
           case ResumeFiber(g) => Resume(g)
           case TimeoutCancel(call) => Timeout(call)
           case UserCallback(_) => Plain)
  {
    StartKeeps(s, w, spare);
    OwnIsNowhere(StartStep(s, w, spare), f);
  }

  /** Settling: a READY fiber goes to the back of the queue for any thread; one that ended stays ended, or is
      reset and kept when it ran a callback; any other is on HOLD. A callback fiber that lives on is let go. */
  lemma {:induction false} SettlesExactly(s: State, w: ThreadId, f: FiberId, mode: Mode)
    requires w in s.workers && s.workers[w].pc == Settling(f, mode) && f in s.fstate
    ensures var u := SettleStep(s, w);
      && w in u.workers && u.workers[w].pc == Scanning && u.active == s.active
      && u.fstate == s.fstate[f :=
           match s.fstate[f]
           case READY => READY
           case TERM => if mode == ViaCallback then INIT else TERM
           case EXCEPT => if mode == ViaCallback then INIT else EXCEPT
           case _ => HOLD]
      && u.tasks.queue == s.tasks.queue + (if s.fstate[f] == READY then [Entry(FiberWork(f), -1, s.tasks.next)] else [])
      && u.workers[w].idleDone == s.workers[w].idleDone
      && u.workers[w].cbFiber ==
           (if mode == Direct || s.fstate[f] == TERM || s.fstate[f] == EXCEPT then s.workers[w].cbFiber else None)
  {
    assert s.fstate[f := s.fstate[f]] == s.fstate;
    if s.fstate[f] == READY {
      SettlesReady(s, w, f, OffStack(s, w, READY, s.loc[f := Transit], false));
    } else {
      SettlesOther(s, w, f, mode);
    }
  }

  lemma {:induction false} SettlesReady(s: State, w: ThreadId, f: FiberId, v: State)
    requires w in s.workers && s.workers[w].pc.Settling? && s.workers[w].pc.fiber == f && f in s.fstate && s.fstate[f] == READY
    requires v == OffStack(s, w, READY, s.loc[f := Transit], false)
    ensures var u := SettleStep(s, w);
      && u.workers == v.workers && u.active == s.active && u.fstate == v.fstate
      && u.tasks.queue == s.tasks.queue + [Entry(FiberWork(f), -1, s.tasks.next)]
  {
  }

  lemma {:induction false} SettlesOther(s: State, w: ThreadId, f: FiberId, mode: Mode)
    requires w in s.workers && s.workers[w].pc == Settling(f, mode) && f in s.fstate && s.fstate[f] != READY
    ensures var u := SettleStep(s, w);
      && w in u.workers && u.workers[w].pc == Scanning && u.active == s.active && u.tasks == s.tasks
      && u.fstate == s.fstate[f :=
           match s.fstate[f]
           case TERM => if mode == ViaCallback then INIT else TERM
           case EXCEPT => if mode == ViaCallback then INIT else EXCEPT
           case _ => HOLD]
      && u.workers[w].idleDone == s.workers[w].idleDone
      && u.workers[w].cbFiber ==
           (if mode == Direct || s.fstate[f] == TERM || s.fstate[f] == EXCEPT then s.workers[w].cbFiber else None)
  {
  }

  // ---------------------------------------------------------------- the queue after each call

  /** What the calls put at the back of the queue: the work and the thread asked for. */
  lemma {:induction false} CallsQueue(s: State, st: CallStep)
    requires CallEnabled(s, st)
    ensures var q, n, r := s.tasks.queue, s.tasks.next, CallApply(s, st).tasks.queue;
      && (st.Spawn? ==> r == q + [Entry(FiberWork(st.f), st.thread, n)])
      && (st.Adopt? ==> r == q + [Entry(FiberWork(st.f), st.thread, n)])
      && (st.SpawnCallback? ==> r == q + [Entry(CallbackWork(UserCallback(st.id)), st.thread, n)])
      && (st.SwitchTo? ==> r == q + [Entry(FiberWork(s.workers[st.w].pc.fiber), st.thread, n)])
      && (st.SemNotify? ==>
            var ws := s.sems[st.sem].waiters;
            r == if ws == [] then q else q + [Entry(FiberWork(ws[0]), -1, n)])
      && (st.SemWait? || st.SemTryWait? || st.Sleep? || st.ArmTimer? || st.DisarmTimer? || st.Stop? ==> r == q)
  {
  }

  /** An expired timer is disarmed unless it recurs; its callback joins those in the worker's hands; and the
      first of them goes to the back of the queue for any thread. */
  lemma {:induction false} ExpiresExactly(s: State, w: ThreadId, t: nat)
    requires w in s.workers && s.workers[w].pc.Idling?
    ensures t in s.timers ==>
      var u := ExpireStep(s, w, t);
      && u.timers == (if s.timers[t].recurring then s.timers else s.timers - {t})
      && w in u.workers && u.workers[w].pc == Idling(s.workers[w].pc.cbs + [s.timers[t].cb]) && u.tasks == s.tasks
    ensures s.workers[w].pc.cbs != [] ==>
      var cbs, u := s.workers[w].pc.cbs, PushExpiredStep(s, w);
      && w in u.workers && u.workers[w].pc == Idling(cbs[1..])
      && u.tasks.queue == s.tasks.queue + [Entry(CallbackWork(cbs[0]), -1, s.tasks.next)]
  {
  }

  /** A readiness report, which the kernel accepts: an error or a hang-up stands for everything registered.
      What is registered and reported goes to the back of the queue, the reader first, for any thread. */
  lemma {:induction false} ReportQueues(s: State, fd: nat, reported: set<Event>, err: bool, read: bool, write: bool)
    requires EventTable.Inv(s.fds) && fd < |s.fds.fds| && Dispatch(s.fds, fd, reported, err, true).Dispatched?
    requires read <==> Read in s.fds.fds[fd].events && (err || Read in reported)
    requires write <==> Write in s.fds.fds[fd].events && (err || Write in reported)
    ensures var owners, c := s.fds.owners, s.fds.fds[fd];
      && (read ==> c.read.reg < |owners|) && (write ==> c.write.reg < |owners|)
      && var works := (if read then [owners[c.read.reg]] else []) + (if write then [owners[c.write.reg]] else []);
         var u := DoDispatch(s, fd, reported, err, true);
         && |u.tasks.queue| == |s.tasks.queue| + |works| && s.tasks.queue <= u.tasks.queue
         && forall i :: 0 <= i < |works| ==>
              u.tasks.queue[|s.tasks.queue| + i] == Entry(works[i], -1, s.tasks.next + i)
  {
    ReportAccepts(s, fd, reported, err, true);
    HandledIsRegistered(s.fds, fd, reported, err, true);
    assert read ==> IsSet(s.fds.fds, fd, Read) && Reg(s.fds.fds, fd, Read) == s.fds.fds[fd].read.reg;
    assert write ==> IsSet(s.fds.fds, fd, Write) && Reg(s.fds.fds, fd, Write) == s.fds.fds[fd].write.reg;
  }

  /** Leaving the stack: a fiber that yields to HOLD is still in EXEC until its worker settles it. */
  lemma {:induction false} LeavesExactly(s: State, w: ThreadId, f: FiberId, st: LoopStep)
    requires IsRunning(s, w) && s.workers[w].pc.fiber == f && LoopEnabled(s, st) && st.w == w
    requires st.YieldToHold? || st.YieldToReady? || st.Finish?
    ensures var u := LoopApply(s, st);
      && w in u.workers && u.workers[w] == s.workers[w].(pc := Returned(f, s.workers[w].pc.mode))
      && u.active == s.active && u.tasks == s.tasks
      && u.fstate == s.fstate[f := if st.YieldToHold? then EXEC
                                   else if st.YieldToReady? then READY
                                   else if st.normally then TERM else EXCEPT]
  {
  }

  /** Timers are armed and disarmed as asked for, and stopping is for good. */
  lemma {:induction false} TimerCallsExactly(s: State, st: CallStep)
    requires CallEnabled(s, st)
    ensures st.ArmTimer? ==> CallApply(s, st).timers == s.timers[st.timer := st.armed]
    ensures st.DisarmTimer? ==> CallApply(s, st).timers == s.timers - {st.timer}
    ensures st.Sleep? ==>
      CallApply(s, st).timers == s.timers[st.timer := Armed(ResumeFiber(s.workers[st.w].pc.fiber), false)]
    ensures st.Stop? ==> CallApply(s, st).stopped
  {
  }

  /** The event calls of fibers are the operations of the event table. */
  lemma {:induction false} EventCallsExactly(s: State, st: CallStep)
    requires CallEnabled(s, st)
    ensures var t, u := s.fds, CallApply(s, st).fds;
      && (st.AddFiberEvent? ==>
            && |t.fds| >= 2
            && var r := EventTable.AddEvent(t, st.fd, st.ev, OwnFiber(s.workers[st.w].pc.fiber), st.willing);
               !r.Aborted? && u == r.table)
      && (st.AddCallbackEvent? ==>
            && |t.fds| >= 2
            && var r := EventTable.AddEvent(t, st.fd, st.ev, OwnCallback(UserCallback(st.id)), st.willing);
               !r.Aborted? && u == r.table)
      && (st.DeleteEvent? ==> u == EventTable.DelEvent(t, st.fd, st.ev, st.willing))
      && (st.CancelOne? ==> u == EventTable.CancelEvent(t, st.fd, st.ev, st.willing))
      && (st.CancelBoth? ==> u == EventTable.CancelAll(t, st.fd, st.willing))
  {
    if st.CancelOne? {
      CancelIsTableCancel(s, st.fd, st.ev, st.willing);
    } else if st.CancelBoth? {
      CancelAllIsTableCancel(s, st.fd, st.willing);
    }
  }

  /** The semaphore calls are the operations of the semaphore, and a fiber that got no permit waits there. */
  lemma {:induction false} SemaphoreCallsExactly(s: State, st: CallStep)
    requires CallEnabled(s, st) && (st.SemWait? || st.SemTryWait? || st.SemNotify?)
    ensures st.sem in s.sems
    ensures CallApply(s, st).sems == s.sems[st.sem :=
      Semaphores.Step(s.sems[st.sem],
                      if st.SemWait? then Wait(s.workers[st.w].pc.fiber) else if st.SemTryWait? then TryWait else Notify).sem]
    ensures st.SemWait? ==>
      CallApply(s, st).loc ==
        if s.sems[st.sem].concurrency > 0 then s.loc else s.loc[s.workers[st.w].pc.fiber := AtSem(st.sem)]
  {
  }
}
