/** The whole runtime as a step system: any number of workers inside `Scheduler::run`, fibers moving
    through their states, and the places a suspended fiber can be parked. Each step is one critical
    section of the program, or one access to the state of a fiber or to the flag of a `do_io` call. */
module Runtime {
  import opened Fibers
  import opened TaskQueue
  import opened EventTable
  import opened Semaphores

  // ---------------------------------------------------------------- state

  /** How a fiber came to run: taken from the queue itself, or created to run a callback. */
  datatype Mode = Direct | ViaCallback

  /** What the callback a fiber runs still has to do: `Resume` schedules a sleeper. The time-out callback
      of a `do_io` call takes hold of the call's flag (`Timeout`), reads it (`Test`), writes it (`Raise`)
      and cancels the event (`Cancel`); other workers may act between any two of these. */
  datatype Job =
    | Plain
    | Resume(fiber: FiberId)
    | Timeout(call: IoCall)
    | Test(call: IoCall)
    | Raise(call: IoCall)
    | Cancel(call: IoCall)

  /** Where a worker is in the loop of `run`. */
  datatype Pc =
    | Scanning
    | Picked(entry: Entry)                             // counted as active, not switched in yet
    | Running(fiber: FiberId, mode: Mode, job: Job)
    | Returned(fiber: FiberId, mode: Mode)             // switched out, still counted as active
    | Settling(fiber: FiberId, mode: Mode)             // no longer counted, state not settled yet
    | Idling(cbs: seq<Callback>)                       // in the idle fiber, holding expired callbacks
    | Exited

  /** `cbFiber` is the cached fiber for callbacks; `idleDone` says that the idle fiber has ended. */
  datatype Worker = Worker(pc: Pc, cbFiber: Option<FiberId>, idleDone: bool)

  /** The place of a fiber's wake token: who is going to put the fiber back on the queue.
      `Orphan` is a fiber that suspended without registering anywhere, or whose registration was
      deleted; `Transit` occurs only inside a step. */
  datatype Loc =
    | Own
    | AtFd(fd: nat, event: Event)
    | AtSem(sem: nat)
    | AtTimer(timer: nat)
    | Queued(entry: Entry)
    | Held(worker: ThreadId)
    | Cached(worker: ThreadId)
    | Orphan
    | Done
    | Transit

  datatype Armed = Armed(cb: Callback, recurring: bool)

  /** An accepted task: the entry made for it and, when an event was triggered for it, the number of the
      registration. */
  datatype Acceptance = Acceptance(entry: Entry, reg: Option<nat>)

  /** The task list and the next ticket. `accepted` is bookkeeping: all tasks ever queued. */
  datatype Tasks = Tasks(queue: seq<Entry>, next: nat, accepted: seq<Acceptance>)

  /** The `do_io` calls: `infos` has the flag of every call so far, `open` the call that a fiber is in.
      `calls` and `timeouts` are bookkeeping: the registrations made by calls, and the flags raised, in
      order. */
  datatype Io = Io(infos: map<IoCall, bool>, open: map<FiberId, IoCall>, calls: map<nat, IoCall>, timeouts: seq<IoCall>)

  /** `loc`, `runner` and `consumed` are bookkeeping: no step is enabled by them except through what a
      well-behaved fiber knows of itself. `consumed` has the tickets of the tasks run or dropped. */
  datatype State = State(
    fstate: map<FiberId, FiberState>,
    loc: map<FiberId, Loc>,
    runner: map<FiberId, ThreadId>,
    tasks: Tasks,
    consumed: set<nat>,
    workers: map<ThreadId, Worker>,
    active: int,
    fds: Table,
    sems: map<nat, Semaphore>,
    timers: map<nat, Armed>,
    io: Io,
    stopped: bool)

  ghost predicate Init(s: State) {
    && s.fstate == map[] && s.loc == map[] && s.runner == map[]
    && s.tasks == Tasks([], 0, []) && s.consumed == {}
    && (exists w :: w in s.workers)
    && (forall w | w in s.workers :: s.workers[w] == Worker(Scanning, None, false))
    && s.active == 0
    && s.fds == Initial()
    && (forall i | i in s.sems :: s.sems[i].waiters == [])
    && s.timers == map[] && s.io == Io(map[], map[], map[], [])
    && !s.stopped
  }

  // ---------------------------------------------------------------- moving tokens

  function Move(loc: map<FiberId, Loc>, token: Option<FiberId>, l: Loc): map<FiberId, Loc> {
    if token.Some? then loc[token.value := l] else loc
  }

  function SetPc(s: State, w: ThreadId, pc: Pc): State
    requires w in s.workers
  {
    s.(workers := s.workers[w := s.workers[w].(pc := pc)])
  }

  /** `schedule`: to the back of the queue. */
  function Push(s: State, work: Work, thread: ThreadId, reg: Option<nat> := None): State {
    var e := Entry(work, thread, s.tasks.next);
    s.(tasks := s.tasks.(queue := s.tasks.queue + [e],
                         next := s.tasks.next + 1,
                         accepted := s.tasks.accepted + [Acceptance(e, reg)]),
       loc := Move(s.loc, Token(work), Queued(e)))
  }

  function FdToken(c: EventContext): Option<FiberId> {
    if Fires(c).Some? then Token(Fires(c).value) else None
  }

  /** `triggerEvent`: the context is emptied and its fiber or callback scheduled. */
  function WakeFrom(s: State, fd: nat, ev: Event): State
    requires fd < |s.fds.fds|
  {
    var c := s.fds.fds[fd].Ctx(ev);
    var u := s.(fds := Trigger(s.fds, fd, ev), loc := Move(s.loc, FdToken(c), Transit));
    if Fires(c).Some? then Push(u, Fires(c).value, ANY_THREAD, Some(c.reg)) else u
  }

  function WakeIf(s: State, fd: nat, ev: Event, want: bool): State
    requires fd < |s.fds.fds|
  {
    if want then WakeFrom(s, fd, ev) else s
  }

  function DoCancelEvent(s: State, fd: nat, ev: Event, willing: bool): State {
    if !Removable(s.fds, fd, ev, willing) then s
    else WakeFrom(s.(fds := Shrink(s.fds, fd, s.fds.fds[fd].events - {ev})), fd, ev)
  }

  function DoCancelAll(s: State, fd: nat, willing: bool): State {
    if !Cancellable(s.fds, fd, willing) then s
    else
      var u := s.(fds := Shrink(s.fds, fd, {}));
      var v := WakeIf(u, fd, Read, Read in u.fds.fds[fd].events);
      WakeIf(v, fd, Write, Write in v.fds.fds[fd].events)
  }

  function DoDispatch(s: State, fd: nat, reported: set<Event>, errorOrHangup: bool, willing: bool): State
    requires fd < |s.fds.fds|
  {
    var ready := RealEvents(s.fds, fd, reported, errorOrHangup);
    if !Dispatchable(s.fds, fd, ready, willing) then s
    else
      var u := s.(fds := Shrink(s.fds, fd, s.fds.fds[fd].events - ready));
      var v := WakeIf(u, fd, Read, Read in ready);
      WakeIf(v, fd, Write, Write in ready)
  }

  // ---------------------------------------------------------------- steps

  /** Who calls into the runtime: code running in a fiber, or a thread that is not a worker. */
  datatype Actor = ByFiber(worker: ThreadId) | External

  /** What a worker does by itself: the loop of `run`, the fiber on its stack leaving it, and the
      idle fiber. */
  datatype LoopStep =
    | Pick(w: ThreadId)
    | EmptyScan(w: ThreadId)
    | SwapIn(w: ThreadId)
    | Drop(w: ThreadId)
    | StartCallback(w: ThreadId, spare: FiberId)
    | RunJob(w: ThreadId, willing: bool)
    | YieldToHold(w: ThreadId)
    | YieldToReady(w: ThreadId)
    | Finish(w: ThreadId, normally: bool)
    | Decrement(w: ThreadId)
    | Settle(w: ThreadId)
    | Expire(w: ThreadId, timer: nat)
    | PushExpired(w: ThreadId)
    | Report(w: ThreadId, fd: nat, reported: set<Event>, errorOrHangup: bool, willing: bool)
    | IdleStop(w: ThreadId)
    | LeaveIdle(w: ThreadId)

  /** Calls into the runtime. */
  datatype CallStep =
    | Spawn(a: Actor, f: FiberId, thread: ThreadId)
    | SpawnCallback(a: Actor, id: nat, thread: ThreadId)
    | Adopt(a: Actor, f: FiberId, thread: ThreadId)
    | SwitchTo(w: ThreadId, thread: ThreadId)
    | AddFiberEvent(w: ThreadId, fd: nat, ev: Event, willing: bool)
    | AddCallbackEvent(a: Actor, id: nat, fd: nat, ev: Event, willing: bool)
    | DeleteEvent(a: Actor, fd: nat, ev: Event, willing: bool)
    | CancelOne(a: Actor, fd: nat, ev: Event, willing: bool)
    | CancelBoth(a: Actor, fd: nat, willing: bool)
    | SemWait(w: ThreadId, sem: nat)
    | SemTryWait(w: ThreadId, sem: nat)
    | SemNotify(a: Actor, sem: nat)
    | Sleep(w: ThreadId, timer: nat)
    | ArmTimer(a: Actor, timer: nat, armed: Armed)
    | DisarmTimer(a: Actor, timer: nat)
    | EnterIo(w: ThreadId, call: IoCall)
    | LeaveIo(w: ThreadId)
    | Stop

  datatype Step = Loop(loop: LoopStep) | Call(call: CallStep)

  predicate IsRunning(s: State, w: ThreadId) {
    w in s.workers && s.workers[w].pc.Running? && s.workers[w].pc.job.Plain?
  }

  predicate IsIdling(s: State, w: ThreadId) {
    w in s.workers && s.workers[w].pc.Idling?
  }

  function Self(s: State, w: ThreadId): FiberId
    requires IsRunning(s, w)
  {
    s.workers[w].pc.fiber
  }

  /** The fiber running on `w` has not registered itself anywhere since it was switched in. */
  predicate HoldsOwn(s: State, w: ThreadId) {
    IsRunning(s, w) && Self(s, w) in s.loc && s.loc[Self(s, w)] == Own
  }

  /** The fiber running on `w` is in the `do_io` call `call`. */
  predicate InCall(s: State, w: ThreadId, call: IoCall) {
    IsRunning(s, w) && Self(s, w) in s.io.open && s.io.open[Self(s, w)] == call
  }

  /** Once the scheduler was told to stop, only tasks act on it. */
  predicate MayAct(s: State, a: Actor) {
    match a
    case ByFiber(w) => IsRunning(s, w)
    case External => !s.stopped
  }

  predicate Ended(st: FiberState) {
    st.TERM? || st.EXCEPT?
  }

  predicate HasPicked(s: State, w: ThreadId) {
    w in s.workers && s.workers[w].pc.Picked?
  }

  function ScanResult(s: State, w: ThreadId): nat {
    FirstEligible(s.tasks.queue, w, s.fstate)
  }

  predicate LoopEnabled(s: State, st: LoopStep) {
    match st
    case Pick(w) => w in s.workers && s.workers[w].pc.Scanning? && ScanResult(s, w) < |s.tasks.queue|
    case EmptyScan(w) => w in s.workers && s.workers[w].pc.Scanning? && ScanResult(s, w) == |s.tasks.queue|
    case SwapIn(w) =>
      && HasPicked(s, w)
      && s.workers[w].pc.entry.work.FiberWork?
      && var f := s.workers[w].pc.entry.work.fiber;
         f in s.fstate && !Ended(s.fstate[f])
    case Drop(w) =>
      && HasPicked(s, w)
      && s.workers[w].pc.entry.work.FiberWork?
      && var f := s.workers[w].pc.entry.work.fiber;
         f in s.fstate && Ended(s.fstate[f])
    case StartCallback(w, spare) =>
      && HasPicked(s, w)
      && s.workers[w].pc.entry.work.CallbackWork?
      && (s.workers[w].cbFiber.None? ==> spare !in s.fstate && spare !in s.loc)
    case Decrement(w) => w in s.workers && s.workers[w].pc.Returned?
    case Settle(w) => w in s.workers && s.workers[w].pc.Settling? && s.workers[w].pc.fiber in s.fstate
    case YieldToHold(w) => IsRunning(s, w) && Self(s, w) in s.loc
    case YieldToReady(w) => HoldsOwn(s, w)
    case Finish(w, _) => HoldsOwn(s, w) && Self(s, w) !in s.io.open
    case Report(w, fd, reported, err, willing) =>
      && IsIdling(s, w) && fd < |s.fds.fds|
      && Dispatch(s.fds, fd, reported, err, willing).Dispatched?
    case Expire(w, t) => IsIdling(s, w) && t in s.timers
    case PushExpired(w) => IsIdling(s, w) && s.workers[w].pc.cbs != []
    case RunJob(w, _) => w in s.workers && s.workers[w].pc.Running? && !s.workers[w].pc.job.Plain?
    case IdleStop(w) => IsIdling(s, w) && s.workers[w].pc.cbs == [] && s.stopped && s.tasks.queue == [] && s.active == 0
    case LeaveIdle(w) => IsIdling(s, w) && s.workers[w].pc.cbs == []
  }

  predicate CallEnabled(s: State, st: CallStep) {
    match st
    case Spawn(a, f, _) => MayAct(s, a) && f !in s.fstate && f !in s.loc
    case SpawnCallback(a, _, _) => MayAct(s, a)
    case Adopt(a, f, _) =>
      && MayAct(s, a) && f in s.loc
      && (s.loc[f].Orphan? || (s.loc[f].Done? && f !in s.runner))
    case SwitchTo(w, _) => HoldsOwn(s, w)
    case AddFiberEvent(w, fd, ev, willing) =>
      && HoldsOwn(s, w) && |s.fds.fds| >= 2
      && (Self(s, w) in s.io.open ==> s.io.open[Self(s, w)].fd == fd && s.io.open[Self(s, w)].event == ev)
      && !AddEvent(s.fds, fd, ev, OwnFiber(Self(s, w)), willing).Aborted?
    case AddCallbackEvent(a, id, fd, ev, willing) =>
      && MayAct(s, a) && |s.fds.fds| >= 2
      && !AddEvent(s.fds, fd, ev, OwnCallback(UserCallback(id)), willing).Aborted?
    case DeleteEvent(a, _, _, _) => MayAct(s, a)
    case CancelOne(a, _, _, _) => MayAct(s, a)
    case CancelBoth(a, _, _) => MayAct(s, a)
    case SemWait(w, i) => HoldsOwn(s, w) && i in s.sems
    case SemTryWait(w, i) => IsRunning(s, w) && i in s.sems
    case SemNotify(a, i) => MayAct(s, a) && i in s.sems
    case Sleep(w, t) => HoldsOwn(s, w) && t !in s.timers
    case ArmTimer(a, t, armed) =>
      && MayAct(s, a) && t !in s.timers && !armed.cb.ResumeFiber?
      && (armed.cb.TimeoutCancel? ==> a.ByFiber? && InCall(s, a.worker, armed.cb.call) && !armed.recurring)
    case DisarmTimer(a, t) => MayAct(s, a) && t in s.timers && !s.timers[t].cb.ResumeFiber?
    case EnterIo(w, call) => HoldsOwn(s, w) && Self(s, w) !in s.io.open && call !in s.io.infos
    case LeaveIo(w) => HoldsOwn(s, w) && Self(s, w) in s.io.open
    case Stop => true
  }

  function JobOf(cb: Callback): Job {
    match cb
    case ResumeFiber(f) => Resume(f)
    case TimeoutCancel(call) => Timeout(call)
    case UserCallback(_) => Plain
  }

  function PickStep(s: State, w: ThreadId): State
    requires w in s.workers && ScanResult(s, w) < |s.tasks.queue|
  {
    var i := ScanResult(s, w);
    var e := s.tasks.queue[i];
    SetPc(s, w, Picked(e)).(tasks := s.tasks.(queue := RemoveAt(s.tasks.queue, i)),
                            active := s.active + 1,
                            loc := Move(s.loc, Token(e.work), Held(w)))
  }

  /** `swapIn`: the fiber is in EXEC and on the stack of `w`; the entry is used up. */
  function SwitchIn(s: State, w: ThreadId, f: FiberId, mode: Mode, job: Job, cbFiber: Option<FiberId>): State
    requires HasPicked(s, w)
  {
    s.(workers := s.workers[w := Worker(Running(f, mode, job), cbFiber, s.workers[w].idleDone)],
       fstate := s.fstate[f := EXEC],
       loc := s.loc[f := Own],
       runner := s.runner[f := w],
       consumed := s.consumed + {s.workers[w].pc.entry.ticket})
  }

  function DropStep(s: State, w: ThreadId): State
    requires HasPicked(s, w) && s.workers[w].pc.entry.work.FiberWork?
  {
    SetPc(s, w, Scanning).(
      active := s.active - 1,
      loc := s.loc[s.workers[w].pc.entry.work.fiber := Done],
      consumed := s.consumed + {s.workers[w].pc.entry.ticket})
  }

  function StartStep(s: State, w: ThreadId, spare: FiberId): State
    requires HasPicked(s, w) && s.workers[w].pc.entry.work.CallbackWork?
  {
    var c := if s.workers[w].cbFiber.Some? then s.workers[w].cbFiber.value else spare;
    SwitchIn(s, w, c, ViaCallback, JobOf(s.workers[w].pc.entry.work.cb), Some(c))
  }

  /** A worker after settling: scanning again, and without its callback fiber unless that ended. */
  function Settled(w: Worker, ended: bool): Worker
    requires w.pc.Settling?
  {
    w.(pc := Scanning, cbFiber := if w.pc.mode.ViaCallback? && !ended then None else w.cbFiber)
  }

  /** The fiber of a settling worker is off the stack. */
  function OffStack(s: State, w: ThreadId, st: FiberState, loc: map<FiberId, Loc>, ended: bool): State
    requires w in s.workers && s.workers[w].pc.Settling?
  {
    s.(runner := s.runner - {s.workers[w].pc.fiber},
       workers := s.workers[w := Settled(s.workers[w], ended)],
       fstate := s.fstate[s.workers[w].pc.fiber := st],
       loc := loc)
  }

  /** READY: the fiber is queued again. A fiber that neither ended nor is READY is put on HOLD; a callback
      fiber that ended is reset and kept. */
  function SettleStep(s: State, w: ThreadId): State
    requires w in s.workers && s.workers[w].pc.Settling? && s.workers[w].pc.fiber in s.fstate
  {
    var f, st := s.workers[w].pc.fiber, s.fstate[s.workers[w].pc.fiber];
    if st.READY? then Push(OffStack(s, w, READY, s.loc[f := Transit], false), FiberWork(f), ANY_THREAD)
    else if !Ended(st) then OffStack(s, w, HOLD, s.loc, false)
    else if s.workers[w].pc.mode.Direct? then OffStack(s, w, st, s.loc, true)
    else OffStack(s, w, INIT, s.loc[f := Cached(w)], true)
  }

  function LeaveStep(s: State, w: ThreadId, st: FiberState, l: Loc): State
    requires IsRunning(s, w)
  {
    var f := Self(s, w);
    SetPc(s, w, Returned(f, s.workers[w].pc.mode)).(fstate := s.fstate[f := st], loc := s.loc[f := l])
  }

  /** The registrations made by `do_io` calls, with the next one if `f` is in such a call. */
  function LinkTo(s: State, f: FiberId): map<nat, IoCall> {
    if f in s.io.open then s.io.calls[s.fds.adds := s.io.open[f]] else s.io.calls
  }

  function AddFiberStep(s: State, w: ThreadId, fd: nat, ev: Event, willing: bool): State
    requires IsRunning(s, w) && |s.fds.fds| >= 2
    requires !AddEvent(s.fds, fd, ev, OwnFiber(Self(s, w)), willing).Aborted?
  {
    var r := AddEvent(s.fds, fd, ev, OwnFiber(Self(s, w)), willing);
    if r.Refused? then s.(fds := r.table)
    else s.(fds := r.table, loc := s.loc[Self(s, w) := AtFd(fd, ev)], io := s.io.(calls := LinkTo(s, Self(s, w))))
  }

  function DeleteStep(s: State, fd: nat, ev: Event, willing: bool): State {
    if !Removable(s.fds, fd, ev, willing) then s
    else s.(fds := DelEvent(s.fds, fd, ev, willing),
            loc := Move(s.loc, FdToken(s.fds.fds[fd].Ctx(ev)), Orphan))
  }

  function SemWaitStep(s: State, w: ThreadId, i: nat): State
    requires IsRunning(s, w) && i in s.sems
  {
    var e := Semaphores.Step(s.sems[i], Wait(Self(s, w)));
    s.(sems := s.sems[i := e.sem],
       loc := if e.granted then s.loc else s.loc[Self(s, w) := AtSem(i)])
  }

  function SemNotifyStep(s: State, i: nat): State
    requires i in s.sems
  {
    var e := Semaphores.Step(s.sems[i], Notify);
    var u := s.(sems := s.sems[i := e.sem]);
    if e.scheduled == [] then u
    else Push(u.(loc := s.loc[e.scheduled[0] := Transit]), FiberWork(e.scheduled[0]), ANY_THREAD)
  }

  function ExpireStep(s: State, w: ThreadId, t: nat): State
    requires IsIdling(s, w) && t in s.timers
  {
    var a := s.timers[t];
    SetPc(s, w, Idling(s.workers[w].pc.cbs + [a.cb])).(
      timers := if a.recurring then s.timers else s.timers - {t},
      loc := Move(s.loc, CallbackToken(a.cb), Held(w)))
  }

  function PushExpiredStep(s: State, w: ThreadId): State
    requires IsIdling(s, w) && s.workers[w].pc.cbs != []
  {
    var cbs := s.workers[w].pc.cbs;
    var u := SetPc(s, w, Idling(cbs[1..])).(loc := Move(s.loc, CallbackToken(cbs[0]), Transit));
    Push(u, CallbackWork(cbs[0]), ANY_THREAD)
  }

  /** The callback of a worker goes on to another part. */
  function GoOn(s: State, w: ThreadId, job: Job): State
    requires w in s.workers && s.workers[w].pc.Running?
  {
    SetPc(s, w, s.workers[w].pc.(job := job))
  }

  /** The callback of a sleep function. */
  function ResumeStep(s: State, w: ThreadId): State
    requires w in s.workers && s.workers[w].pc.Running? && s.workers[w].pc.job.Resume?
  {
    var f := s.workers[w].pc.job.fiber;
    Push(GoOn(s, w, Plain).(loc := s.loc[f := Transit]), FiberWork(f), ANY_THREAD)
  }

  /** A callback that has taken hold of a flag and not let go of it. */
  predicate HoldsFlag(pc: Pc) {
    pc.Running? && (pc.job.Test? || pc.job.Raise? || pc.job.Cancel?)
  }

  /** The flag has not been freed: the call is in progress, or a callback uses it. */
  predicate Alive(s: State, call: IoCall) {
    || (exists f | f in s.io.open :: s.io.open[f] == call)
    || (exists w | w in s.workers :: HoldsFlag(s.workers[w].pc) && s.workers[w].pc.job.call == call)
  }

  /** Before the cancellation. */
  predicate IsFlagJob(job: Job) {
    job.Timeout? || job.Test? || job.Raise?
  }

  function NextJob(s: State, job: Job): Job
    requires IsFlagJob(job)
  {
    match job
    case Timeout(call) => if Alive(s, call) then Test(call) else Plain
    case Test(call) => if call in s.io.infos && !s.io.infos[call] then Raise(call) else Plain
    case Raise(call) => Cancel(call)
  }

  function Raised(io: Io, call: IoCall): Io {
    io.(infos := io.infos[call := true], timeouts := io.timeouts + [call])
  }

  /** One access of the time-out callback of `do_io` to the flag. */
  function TimeoutStep(s: State, w: ThreadId): State
    requires w in s.workers && s.workers[w].pc.Running? && IsFlagJob(s.workers[w].pc.job)
  {
    var job := s.workers[w].pc.job;
    GoOn(s, w, NextJob(s, job)).(io := if job.Raise? then Raised(s.io, job.call) else s.io)
  }

  /** ... and its cancellation. */
  function CancelStep(s: State, w: ThreadId, willing: bool): State
    requires w in s.workers && s.workers[w].pc.Running? && s.workers[w].pc.job.Cancel?
  {
    DoCancelEvent(GoOn(s, w, Plain), s.workers[w].pc.job.call.fd, s.workers[w].pc.job.call.event, willing)
  }

  function JobStep(s: State, w: ThreadId, willing: bool): State
    requires w in s.workers && s.workers[w].pc.Running?
  {
    match s.workers[w].pc.job
    case Plain => s
    case Resume(_) => ResumeStep(s, w)
    case Cancel(_) => CancelStep(s, w, willing)
    case _ => TimeoutStep(s, w)
  }

  function SwapInStep(s: State, w: ThreadId): State
    requires HasPicked(s, w) && s.workers[w].pc.entry.work.FiberWork?
  {
    SwitchIn(s, w, s.workers[w].pc.entry.work.fiber, Direct, Plain, s.workers[w].cbFiber)
  }

  function DecrementStep(s: State, w: ThreadId): State
    requires w in s.workers && s.workers[w].pc.Returned?
  {
    SetPc(s, w, Settling(s.workers[w].pc.fiber, s.workers[w].pc.mode)).(active := s.active - 1)
  }

  function LoopApply(s: State, st: LoopStep): State
    requires LoopEnabled(s, st)
  {
    match st
    case Pick(w) => PickStep(s, w)
    case EmptyScan(w) => SetPc(s, w, if s.workers[w].idleDone then Exited else Idling([]))
    case SwapIn(w) => SwapInStep(s, w)
    case Drop(w) => DropStep(s, w)
    case StartCallback(w, spare) => StartStep(s, w, spare)
    case Decrement(w) => DecrementStep(s, w)
    case Settle(w) => SettleStep(s, w)
    case YieldToHold(w) =>
      LeaveStep(s, w, EXEC, if s.loc[Self(s, w)].Own? then Orphan else s.loc[Self(s, w)])
    case YieldToReady(w) => LeaveStep(s, w, READY, Own)
    case Finish(w, normally) => LeaveStep(s, w, if normally then TERM else EXCEPT, Done)
    case Report(_, fd, reported, err, willing) => DoDispatch(s, fd, reported, err, willing)
    case Expire(w, t) => ExpireStep(s, w, t)
    case PushExpired(w) => PushExpiredStep(s, w)
    case RunJob(w, willing) => JobStep(s, w, willing)
    case IdleStop(w) => s.(workers := s.workers[w := s.workers[w].(pc := Scanning, idleDone := true)])
    case LeaveIdle(w) => SetPc(s, w, Scanning)
  }

  function CallApply(s: State, st: CallStep): State
    requires CallEnabled(s, st)
  {
    match st
    case Spawn(_, f, thread) =>
      Push(s.(fstate := s.fstate[f := INIT], loc := s.loc[f := Transit]), FiberWork(f), thread)
    case SpawnCallback(_, id, thread) => Push(s, CallbackWork(UserCallback(id)), thread)
    case Adopt(_, f, thread) => Push(s.(loc := s.loc[f := Transit]), FiberWork(f), thread)
    case SwitchTo(w, thread) => Push(s.(loc := s.loc[Self(s, w) := Transit]), FiberWork(Self(s, w)), thread)
    case AddFiberEvent(w, fd, ev, willing) => AddFiberStep(s, w, fd, ev, willing)
    case AddCallbackEvent(_, id, fd, ev, willing) =>
      s.(fds := AddEvent(s.fds, fd, ev, OwnCallback(UserCallback(id)), willing).table)
    case DeleteEvent(_, fd, ev, willing) => DeleteStep(s, fd, ev, willing)
    case CancelOne(_, fd, ev, willing) => DoCancelEvent(s, fd, ev, willing)
    case CancelBoth(_, fd, willing) => DoCancelAll(s, fd, willing)
    case SemWait(w, i) => SemWaitStep(s, w, i)
    case SemTryWait(_, i) => s.(sems := s.sems[i := Semaphores.Step(s.sems[i], TryWait).sem])
    case SemNotify(_, i) => SemNotifyStep(s, i)
    case Sleep(w, t) =>
      s.(timers := s.timers[t := Armed(ResumeFiber(Self(s, w)), false)], loc := s.loc[Self(s, w) := AtTimer(t)])
    case ArmTimer(_, t, armed) => s.(timers := s.timers[t := armed])
    case DisarmTimer(_, t) => s.(timers := s.timers - {t})
    case EnterIo(w, call) =>
      s.(io := s.io.(infos := s.io.infos[call := false], open := s.io.open[Self(s, w) := call]))
    case LeaveIo(w) => s.(io := s.io.(open := s.io.open - {Self(s, w)}))
    case Stop => s.(stopped := true)
  }

  predicate Enabled(s: State, st: Step) {
    match st
    case Loop(l) => LoopEnabled(s, l)
    case Call(c) => CallEnabled(s, c)
  }

  function Apply(s: State, st: Step): State
    requires Enabled(s, st)
  {
    match st
    case Loop(l) => LoopApply(s, l)
    case Call(c) => CallApply(s, c)
  }

  // ---------------------------------------------------------------- runs

  /** `steps` can be taken one after the other from `s`. */
  ghost predicate IsRun(s: State, steps: seq<Step>)
    decreases |steps|
  {
    steps == [] || (Enabled(s, steps[0]) && IsRun(Apply(s, steps[0]), steps[1..]))
  }

  ghost function After(s: State, steps: seq<Step>): State
    requires IsRun(s, steps)
    decreases |steps|
  {
    if steps == [] then s else After(Apply(s, steps[0]), steps[1..])
  }

  ghost predicate Reachable(s: State) {
    exists s0: State, steps: seq<Step> :: Init(s0) && IsRun(s0, steps) && s == After(s0, steps)
  }
}
