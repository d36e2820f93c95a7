/** The per-descriptor event contexts of the I/O manager and the epoll interest set they mirror. */
module EventTable {
  import opened Fibers

  /** `reg` numbers the successful registrations; it is bookkeeping for the proofs. */
  datatype EventContext = EventContext(scheduler: bool, fiber: Option<FiberId>, cb: Option<Callback>, reg: nat)

  const EMPTY: EventContext := EventContext(false, None, None, 0)

  datatype FdContext = FdContext(events: set<Event>, read: EventContext, write: EventContext) {
    function Ctx(ev: Event): EventContext {
      if ev.Read? then read else write
    }

    function WithCtx(ev: Event, c: EventContext): FdContext {
      if ev.Read? then this.(read := c) else this.(write := c)
    }
  }

  const BLANK: FdContext := FdContext({}, EMPTY, EMPTY)

  datatype EpollOp = ADD | MOD | DEL

  /** `kernel` is the epoll interest set. `adds`, `owners`, `dels` and `woken` record the history: how
      many registrations succeeded and for what work, how many were deleted, and which ones were
      triggered, in order. */
  datatype Table = Table(fds: seq<FdContext>, kernel: map<nat, set<Event>>, pending: int,
                         adds: nat, owners: seq<Work>, dels: nat, woken: seq<nat>)

  function Initial(): Table {
    Table(seq(32, i => BLANK), map[], 0, 0, [], 0, [])
  }

  // ---------------------------------------------------------------- the kernel side

  /** epoll_ctl refuses to add a descriptor twice and to modify or delete an absent one. */
  predicate Legal(kernel: map<nat, set<Event>>, op: EpollOp, fd: nat) {
    op.ADD? <==> fd !in kernel
  }

  function Control(kernel: map<nat, set<Event>>, op: EpollOp, fd: nat, mask: set<Event>): map<nat, set<Event>> {
    if op.DEL? then kernel - {fd} else kernel[fd := mask]
  }

  // ---------------------------------------------------------------- the operations

  function Registered(t: Table, fd: nat): set<Event> {
    if fd < |t.fds| then t.fds[fd].events else {}
  }

  /** Growing to one and a half times the descriptor number. */
  function Grow(t: Table, fd: nat): Table {
    if fd < |t.fds| then t
    else t.(fds := t.fds + seq(if fd * 3 / 2 > |t.fds| then fd * 3 / 2 - |t.fds| else 0, i => BLANK))
  }

  /** `Aborted` is a failed assertion, which ends the process. */
  datatype AddResult = Added(table: Table) | Refused(table: Table) | Aborted

  datatype Owner = OwnFiber(fiber: FiberId) | OwnCallback(cb: Callback)

  function WorkOf(owner: Owner): Work {
    match owner
    case OwnFiber(f) => FiberWork(f)
    case OwnCallback(cb) => CallbackWork(cb)
  }

  /** The context a registration leaves behind. */
  function NewContext(owner: Owner, reg: nat): EventContext {
    match owner
    case OwnFiber(f) => EventContext(true, Some(f), None, reg)
    case OwnCallback(cb) => EventContext(true, None, Some(cb), reg)
  }

  function Install(t: Table, fd: nat, ev: Event, owner: Owner): Table
    requires fd < |t.fds|
  {
    var c := t.fds[fd];
    t.(fds := t.fds[fd := c.(events := c.events + {ev}).WithCtx(ev, NewContext(owner, t.adds))],
       pending := t.pending + 1,
       adds := t.adds + 1,
       owners := t.owners + [WorkOf(owner)])
  }

  /** `addEvent` in the context of `fd`; `willing` is false when the kernel refuses for reasons of its own. */
  function AddInContext(t: Table, fd: nat, ev: Event, owner: Owner, willing: bool): AddResult
    requires fd < |t.fds|
  {
    var events := t.fds[fd].events;
    var op := if events == {} then ADD else MOD;
    if ev in events then Aborted
    else if !willing || !Legal(t.kernel, op, fd) then Refused(t)
    else if t.fds[fd].Ctx(ev).scheduler || t.fds[fd].Ctx(ev).fiber.Some? || t.fds[fd].Ctx(ev).cb.Some? then Aborted
    else Added(Install(t.(kernel := Control(t.kernel, op, fd, events + {ev})), fd, ev, owner))
  }

  function AddEvent(t: Table, fd: nat, ev: Event, owner: Owner, willing: bool): AddResult
    requires |t.fds| >= 2
  {
    AddInContext(Grow(t, fd), fd, ev, owner, willing)
  }

  function Uninstall(t: Table, fd: nat, ev: Event): Table
    requires fd < |t.fds|
  {
    var c := t.fds[fd];
    t.(fds := t.fds[fd := c.(events := c.events - {ev}).WithCtx(ev, EMPTY)], pending := t.pending - 1)
  }

  function ReductionOp(left: set<Event>): EpollOp {
    if left == {} then DEL else MOD
  }

  /** The call goes through: the event is registered and the kernel accepts the change. */
  predicate Removable(t: Table, fd: nat, ev: Event, willing: bool) {
    && fd < |t.fds|
    && ev in t.fds[fd].events
    && willing
    && Legal(t.kernel, ReductionOp(t.fds[fd].events - {ev}), fd)
  }

  function Shrink(t: Table, fd: nat, left: set<Event>): Table {
    t.(kernel := Control(t.kernel, ReductionOp(left), fd, left))
  }

  function DelEvent(t: Table, fd: nat, ev: Event, willing: bool): Table {
    if !Removable(t, fd, ev, willing) then t
    else
      var u := Shrink(t, fd, t.fds[fd].events - {ev});
      Uninstall(u, fd, ev).(dels := t.dels + 1)
  }

  /** The work that triggering this context puts on the queue. */
  function Fires(c: EventContext): Option<Work> {
    if c.cb.Some? then Some(CallbackWork(c.cb.value))
    else if c.fiber.Some? then Some(FiberWork(c.fiber.value))
    else None
  }

  /** `triggerEvent` together with the decrement of the pending count that accompanies it. */
  function Trigger(t: Table, fd: nat, ev: Event): Table
    requires fd < |t.fds|
  {
    Uninstall(t, fd, ev).(woken := t.woken + [t.fds[fd].Ctx(ev).reg])
  }

  function CancelEvent(t: Table, fd: nat, ev: Event, willing: bool): Table {
    if !Removable(t, fd, ev, willing) then t
    else Trigger(Shrink(t, fd, t.fds[fd].events - {ev}), fd, ev)
  }

  function TriggerIf(t: Table, fd: nat, ev: Event, want: bool): Table
    requires fd < |t.fds|
  {
    if want then Trigger(t, fd, ev) else t
  }

  predicate Cancellable(t: Table, fd: nat, willing: bool) {
    fd < |t.fds| && t.fds[fd].events != {} && willing && Legal(t.kernel, DEL, fd)
  }

  function CancelAll(t: Table, fd: nat, willing: bool): Table {
    if !Cancellable(t, fd, willing) then t
    else
      var u := Shrink(t, fd, {});
      var v := TriggerIf(u, fd, Read, Read in u.fds[fd].events);
      TriggerIf(v, fd, Write, Write in v.fds[fd].events)
  }

  /** The events a readiness report stands for: an error or hang-up stands for all registered ones. */
  function RealEvents(t: Table, fd: nat, reported: set<Event>, errorOrHangup: bool): set<Event>
    requires fd < |t.fds|
  {
    reported + if errorOrHangup then t.fds[fd].events else {}
  }

  predicate Dispatchable(t: Table, fd: nat, ready: set<Event>, willing: bool)
    requires fd < |t.fds|
  {
    && t.fds[fd].events * ready != {}
    && willing
    && Legal(t.kernel, ReductionOp(t.fds[fd].events - ready), fd)
  }

  datatype DispatchResult = Dispatched(table: Table) | AssertFailed

  /** One readiness report handled by the idle loop. */
  function Dispatch(t: Table, fd: nat, reported: set<Event>, errorOrHangup: bool, willing: bool): DispatchResult
    requires fd < |t.fds|
  {
    var ready := RealEvents(t, fd, reported, errorOrHangup);
    if !Dispatchable(t, fd, ready, willing) then Dispatched(t)
    else
      var u := Shrink(t, fd, t.fds[fd].events - ready);
      if Read in ready && Read !in u.fds[fd].events then AssertFailed
      else
        var v := TriggerIf(u, fd, Read, Read in ready);
        if Write in ready && Write !in v.fds[fd].events then AssertFailed
        else Dispatched(TriggerIf(v, fd, Write, Write in ready))
  }

  // ---------------------------------------------------------------- the invariant

  /** A bit is set exactly when its context holds a scheduler and exactly one of fiber and callback. */
  predicate ContextOk(isSet: bool, x: EventContext) {
    && (isSet <==> x.scheduler)
    && (isSet <==> x.fiber.Some? || x.cb.Some?)
    && !(x.fiber.Some? && x.cb.Some?)
  }

  predicate FdOk(c: FdContext) {
    ContextOk(Read in c.events, c.read) && ContextOk(Write in c.events, c.write)
  }

  ghost predicate ContextsOk(fds: seq<FdContext>) {
    forall fd :: 0 <= fd < |fds| ==> FdOk(fds[fd])
  }

  /** The kernel watches a descriptor iff it has registered events, and for exactly those events. */
  ghost predicate KernelMirrors(t: Table) {
    forall fd: nat ::
      && (fd in t.kernel <==> Registered(t, fd) != {})
      && (fd in t.kernel ==> t.kernel[fd] == Registered(t, fd))
  }

  function Bits(events: set<Event>): nat {
    (if Read in events then 1 else 0) + (if Write in events then 1 else 0)
  }

  function CountBits(fds: seq<FdContext>): nat {
    if fds == [] then 0 else CountBits(fds[..|fds| - 1]) + Bits(fds[|fds| - 1].events)
  }

  predicate Conserved(bits: nat, pending: int, adds: nat, dels: nat, woken: nat) {
    pending == bits == adds - dels - woken
  }

  predicate IsSet(fds: seq<FdContext>, fd: nat, ev: Event) {
    fd < |fds| && ev in fds[fd].events
  }

  function Reg(fds: seq<FdContext>, fd: nat, ev: Event): nat
    requires IsSet(fds, fd, ev)
  {
    fds[fd].Ctx(ev).reg
  }

  /** The registrations in force at `fd` for the events `evs`, the reader's first. */
  function RegsAt(t: Table, fd: nat, evs: set<Event>): seq<nat> {
    (if Read in evs && IsSet(t.fds, fd, Read) then [Reg(t.fds, fd, Read)] else [])
    + (if Write in evs && IsSet(t.fds, fd, Write) then [Reg(t.fds, fd, Write)] else [])
  }

  /** The registrations now in force are pairwise different, and none of them was ever woken. */
  ghost predicate RegistrationsFresh(fds: seq<FdContext>, adds: nat, woken: seq<nat>) {
    && (forall fd: nat, ev :: IsSet(fds, fd, ev) ==> Reg(fds, fd, ev) < adds && Reg(fds, fd, ev) !in woken)
    && (forall fd: nat, ev, gd: nat, ew :: IsSet(fds, fd, ev) && IsSet(fds, gd, ew) ==>
          Reg(fds, fd, ev) == Reg(fds, gd, ew) ==> fd == gd && ev == ew)
  }

  /** No registration was put back on the queue twice. */
  ghost predicate WokenOnce(adds: nat, woken: seq<nat>) {
    && (forall i :: 0 <= i < |woken| ==> woken[i] < adds)
    && (forall i, j :: 0 <= i < j < |woken| ==> woken[i] != woken[j])
  }

  /** A registration in force would put on the queue what it was made for. */
  ghost predicate OwnersOk(fds: seq<FdContext>, adds: nat, owners: seq<Work>) {
    && |owners| == adds
    && (forall fd: nat, ev :: IsSet(fds, fd, ev) && Reg(fds, fd, ev) < |owners| ==>
          Fires(fds[fd].Ctx(ev)) == Some(owners[Reg(fds, fd, ev)]))
  }

  /** Everything but the kernel mirror, which is out of step while a descriptor's lock is held. */
  ghost predicate Core(t: Table) {
    && |t.fds| >= 32
    && ContextsOk(t.fds)
    && Conserved(CountBits(t.fds), t.pending, t.adds, t.dels, |t.woken|)
    && RegistrationsFresh(t.fds, t.adds, t.woken)
    && OwnersOk(t.fds, t.adds, t.owners)
    && WokenOnce(t.adds, t.woken)
  }

  ghost predicate Inv(t: Table) {
    Core(t) && KernelMirrors(t)
  }

  /** From `t` to `u` the events `gone` are no longer registered at `fd`, and every other registration stays
      what it was. */
  ghost predicate Only(t: Table, u: Table, fd: nat, gone: set<Event>) {
    forall g: nat, e ::
      && (IsSet(u.fds, g, e) <==> IsSet(t.fds, g, e) && !(g == fd && e in gone))
      && (IsSet(u.fds, g, e) ==> u.fds[g].Ctx(e) == t.fds[g].Ctx(e))
  }

  // ---------------------------------------------------------------- counting

  lemma {:induction false} CountBitsUpdate(fds: seq<FdContext>, fd: nat, c: FdContext)
    requires fd < |fds|
    ensures CountBits(fds[fd := c]) == CountBits(fds) - Bits(fds[fd].events) + Bits(c.events)
  {
    var n := |fds| - 1;
    if fd == n {
      assert fds[fd := c][..n] == fds[..n];
    } else {
      assert fds[fd := c][..n] == fds[..n][fd := c];
      CountBitsUpdate(fds[..n], fd, c);
    }
  }

  lemma {:induction false} CountBitsBlank(fds: seq<FdContext>, k: nat)
    ensures CountBits(fds + seq(k, i => BLANK)) == CountBits(fds)
  {
    var all := fds + seq(k, i => BLANK);
    if k == 0 {
      assert all == fds;
    } else {
      assert all[..|all| - 1] == fds + seq(k - 1, i => BLANK);
      CountBitsBlank(fds, k - 1);
    }
  }

  // ---------------------------------------------------------------- every operation keeps the invariant

  lemma {:induction false} InitialInv()
    ensures Inv(Initial()) && |Initial().fds| == 32 && forall fd: nat, ev :: !IsSet(Initial().fds, fd, ev)
  {
    BlankIsEmpty(32);
    var t := Initial();
    forall fd: nat, ev ensures !IsSet(t.fds, fd, ev) {
    }
  }

  lemma {:induction false} BlankIsEmpty(k: nat)
    ensures CountBits(seq(k, i => BLANK)) == 0
  {
    assert seq(k, i => BLANK) == [] + seq(k, i => BLANK);
    CountBitsBlank([], k);
  }

  lemma {:induction false} GrowKeepsInv(t: Table, fd: nat)
    requires Inv(t)
    ensures Inv(Grow(t, fd)) && fd < |Grow(t, fd).fds|
    ensures |Grow(t, fd).fds| == if fd < |t.fds| then |t.fds| else fd + fd / 2
    ensures forall g: nat :: Registered(Grow(t, fd), g) == Registered(t, g)
  {
    if fd >= |t.fds| {
      CountBitsBlank(t.fds, fd * 3 / 2 - |t.fds|);
      var u := Grow(t, fd);
      assert forall g: nat, e :: IsSet(u.fds, g, e) ==> IsSet(t.fds, g, e) && Reg(u.fds, g, e) == Reg(t.fds, g, e);
    }
  }

  /** The mirror is restored when a descriptor's contexts catch up with what the kernel was told. */
  lemma {:induction false} MirrorCatchesUp(t: Table, u: Table, op: EpollOp, fd: nat, mask: set<Event>)
    requires KernelMirrors(t)
    requires u.kernel == Control(t.kernel, op, fd, mask) && (op.DEL? <==> mask == {})
    requires Registered(u, fd) == mask
    requires forall g: nat :: g != fd ==> Registered(u, g) == Registered(t, g)
    ensures KernelMirrors(u)
  {
    forall g: nat
      ensures g in u.kernel <==> Registered(u, g) != {}
      ensures g in u.kernel ==> u.kernel[g] == Registered(u, g)
    {
      assert g != fd ==> Registered(u, g) == Registered(t, g);
    }
  }

  lemma {:induction false} InstallKeepsCore(t: Table, fd: nat, ev: Event, owner: Owner)
    requires Core(t) && fd < |t.fds| && ev !in t.fds[fd].events
    ensures Core(Install(t, fd, ev, owner))
    ensures Registered(Install(t, fd, ev, owner), fd) == t.fds[fd].events + {ev}
  {
    var u := Install(t, fd, ev, owner);
    CountBitsUpdate(t.fds, fd, u.fds[fd]);
    assert FdOk(u.fds[fd]);
    forall g: nat, e | IsSet(u.fds, g, e)
      ensures if g == fd && e == ev then Reg(u.fds, g, e) == t.adds
              else IsSet(t.fds, g, e) && Reg(u.fds, g, e) == Reg(t.fds, g, e)
    {
    }
  }

  lemma {:induction false} UninstallKeeps(t: Table, fd: nat, ev: Event)
    requires Core(t) && fd < |t.fds| && ev in t.fds[fd].events
    ensures var u := Uninstall(t, fd, ev);
      && ContextsOk(u.fds)
      && CountBits(u.fds) == CountBits(t.fds) - 1
      && Registered(u, fd) == t.fds[fd].events - {ev}
      && (forall g: nat, e :: IsSet(u.fds, g, e) <==> IsSet(t.fds, g, e) && !(g == fd && e == ev))
      && (forall g: nat, e :: IsSet(u.fds, g, e) ==> Reg(u.fds, g, e) == Reg(t.fds, g, e))
      && Only(t, u, fd, {ev})
  {
    var u := Uninstall(t, fd, ev);
    CountBitsUpdate(t.fds, fd, u.fds[fd]);
    assert FdOk(t.fds[fd]);
    assert FdOk(u.fds[fd]);
  }

  lemma {:induction false} TriggerKeepsCore(t: Table, fd: nat, ev: Event)
    requires Core(t) && fd < |t.fds| && ev in t.fds[fd].events
    ensures Core(Trigger(t, fd, ev))
    ensures Registered(Trigger(t, fd, ev), fd) == t.fds[fd].events - {ev}
  {
    UninstallKeeps(t, fd, ev);
    assert IsSet(t.fds, fd, ev) && Reg(t.fds, fd, ev) < t.adds;
  }

  /** Adding keeps the invariant; the choice between ADD and MOD is legal, so only the kernel's own
      unwillingness refuses; and the process aborts exactly when the event is already registered, so
      the assertion that the context is empty never fails. */
  lemma {:induction false} AddEventKeepsInv(t: Table, fd: nat, ev: Event, owner: Owner, willing: bool)
    requires Inv(t)
    ensures AddEvent(t, fd, ev, owner, willing).Aborted? <==> ev in Registered(t, fd)
    ensures AddEvent(t, fd, ev, owner, willing).Refused? <==> ev !in Registered(t, fd) && !willing
    ensures var r := AddEvent(t, fd, ev, owner, willing);
      && (r.Refused? ==> Inv(r.table) && Registered(r.table, fd) == Registered(t, fd))
      && (r.Added? ==> Inv(r.table) && Registered(r.table, fd) == Registered(t, fd) + {ev})
  {
    GrowKeepsInv(t, fd);
    var u := Grow(t, fd);
    var events := Registered(u, fd);
    assert events == Registered(t, fd) && FdOk(u.fds[fd]);
    var op := if events == {} then ADD else MOD;
    if ev !in events && willing {
      var v := u.(kernel := Control(u.kernel, op, fd, events + {ev}));
      InstallKeepsCore(v, fd, ev, owner);
      MirrorCatchesUp(u, Install(v, fd, ev, owner), op, fd, events + {ev});
    }
  }

  /** What a later trigger puts on the queue is what was registered; every other context is as before. */
  lemma {:induction false} AddedIsWhatFires(t: Table, fd: nat, ev: Event, owner: Owner, willing: bool, gd: nat, ew: Event)
    requires Inv(t) && AddEvent(t, fd, ev, owner, willing).Added?
    ensures var u := AddEvent(t, fd, ev, owner, willing).table;
      && IsSet(u.fds, fd, ev)
      && Fires(u.fds[fd].Ctx(ev)) == Some(if owner.OwnFiber? then FiberWork(owner.fiber) else CallbackWork(owner.cb))
      && (gd != fd || ew != ev ==>
            && (IsSet(u.fds, gd, ew) <==> IsSet(t.fds, gd, ew))
            && (IsSet(t.fds, gd, ew) ==> u.fds[gd].Ctx(ew) == t.fds[gd].Ctx(ew)))
  {
    GrowKeepsInv(t, fd);
    assert Registered(Grow(t, fd), gd) == Registered(t, gd);
  }

  /** The kernel never rejects the operation chosen by a removal. */
  lemma {:induction false} RemovalIsLegal(t: Table, fd: nat, left: set<Event>)
    requires Inv(t) && Registered(t, fd) != {}
    ensures Legal(t.kernel, ReductionOp(left), fd)
  {
  }

  /** Deleting keeps the invariant and wakes nobody; it fails only when the event is not registered
      or the kernel is unwilling. */
  lemma {:induction false} DelEventKeepsInv(t: Table, fd: nat, ev: Event, willing: bool)
    requires Inv(t)
    ensures Inv(DelEvent(t, fd, ev, willing))
    ensures Removable(t, fd, ev, willing) <==> ev in Registered(t, fd) && willing
    ensures var u := DelEvent(t, fd, ev, willing);
      && u.woken == t.woken && u.owners == t.owners
      && u.dels == t.dels + (if IsSet(t.fds, fd, ev) && willing then 1 else 0)
      && Only(t, u, fd, if willing then {ev} else {})
  {
    if ev in Registered(t, fd) {
      var left := t.fds[fd].events - {ev};
      RemovalIsLegal(t, fd, left);
      if willing {
        UninstallKeeps(Shrink(t, fd, left), fd, ev);
        MirrorCatchesUp(t, DelEvent(t, fd, ev, willing), ReductionOp(left), fd, left);
      }
    }
  }

  /** Which registrations two triggers in a row wake. */
  lemma {:induction false} TriggeredBoth(t: Table, fd: nat, ready: set<Event>, left: set<Event>)
    requires fd < |t.fds| && ready <= t.fds[fd].events
    ensures var v := TriggerIf(Shrink(t, fd, left), fd, Read, Read in ready);
      && fd < |v.fds|
      && TriggerIf(v, fd, Write, Write in ready).woken == t.woken + RegsAt(t, fd, ready)
  {
  }

  lemma {:induction false} OnlyBoth(t: Table, u: Table, v: Table, w: Table, fd: nat, ready: set<Event>)
    requires u.fds == t.fds
    requires if Read in ready then Only(u, v, fd, {Read}) else v == u
    requires if Write in ready then Only(v, w, fd, {Write}) else w == v
    ensures Only(t, w, fd, ready)
  {
    forall g: nat, e
      ensures IsSet(w.fds, g, e) <==> IsSet(t.fds, g, e) && !(g == fd && e in ready)
      ensures IsSet(w.fds, g, e) ==> w.fds[g].Ctx(e) == t.fds[g].Ctx(e)
    {
      assert e == Read || e == Write;
    }
  }

  /** Triggering a set of registered events after the kernel was told of the rest. */
  lemma {:induction false} TriggerBothKeepsInv(t: Table, fd: nat, ready: set<Event>)
    requires Inv(t) && fd < |t.fds| && ready <= t.fds[fd].events
    requires var left := t.fds[fd].events - ready; Legal(t.kernel, ReductionOp(left), fd)
    ensures var u := Shrink(t, fd, t.fds[fd].events - ready);
      var v := TriggerIf(u, fd, Read, Read in ready);
      var w := TriggerIf(v, fd, Write, Write in ready);
      && Inv(w) && Registered(w, fd) == t.fds[fd].events - ready
      && w.woken == t.woken + RegsAt(t, fd, ready)
  {
    var left := t.fds[fd].events - ready;
    var u := Shrink(t, fd, left);
    TriggeredBoth(t, fd, ready, left);
    var v := TriggerIf(u, fd, Read, Read in ready);
    var w := TriggerIf(v, fd, Write, Write in ready);
    if Read in ready { TriggerKeepsCore(u, fd, Read); }
    if Write in ready { TriggerKeepsCore(v, fd, Write); }
    forall e
      ensures e in Registered(w, fd) <==> e in left
    {
      assert e == Read || e == Write;
    }
    assert Registered(w, fd) == left;
    MirrorCatchesUp(t, w, ReductionOp(left), fd, left);
  }

  /** Cancelling keeps the invariant and wakes exactly the registration that was in force. */
  lemma {:induction false} CancelEventKeepsInv(t: Table, fd: nat, ev: Event, willing: bool)
    requires Inv(t)
    ensures Inv(CancelEvent(t, fd, ev, willing))
    ensures Removable(t, fd, ev, willing) <==> ev in Registered(t, fd) && willing
    ensures CancelEvent(t, fd, ev, willing).woken ==
      t.woken + if IsSet(t.fds, fd, ev) && willing then [Reg(t.fds, fd, ev)] else []
  {
    if ev in Registered(t, fd) {
      var left := t.fds[fd].events - {ev};
      RemovalIsLegal(t, fd, left);
      if willing {
        TriggerKeepsCore(Shrink(t, fd, left), fd, ev);
        MirrorCatchesUp(t, CancelEvent(t, fd, ev, willing), ReductionOp(left), fd, left);
      }
    }
  }

  /** Cancelling everything on a descriptor keeps the invariant, leaves nothing registered there and
      wakes exactly the registrations that were in force there, the reader's first. */
  lemma {:induction false} CancelAllKeepsInv(t: Table, fd: nat, willing: bool)
    requires Inv(t)
    ensures Inv(CancelAll(t, fd, willing))
    ensures Cancellable(t, fd, willing) <==> Registered(t, fd) != {} && willing
    ensures Cancellable(t, fd, willing) ==> Registered(CancelAll(t, fd, willing), fd) == {}
    ensures CancelAll(t, fd, willing).woken ==
      t.woken + if Cancellable(t, fd, willing) then RegsAt(t, fd, Registered(t, fd)) else []
  {
    if Registered(t, fd) != {} {
      RemovalIsLegal(t, fd, {});
      if willing {
        assert t.fds[fd].events - t.fds[fd].events == {};
        TriggerBothKeepsInv(t, fd, t.fds[fd].events);
      }
    }
  }

  /** Handling a report keeps the invariant and wakes exactly the reported registrations that are in
      force; and the assertion inside `triggerEvent` fails exactly
      when the report names a registered event together with one that is no longer registered. */
  lemma {:induction false} DispatchKeepsInv(t: Table, fd: nat, reported: set<Event>, errorOrHangup: bool, willing: bool)
    requires Inv(t) && fd < |t.fds|
    ensures var r := Dispatch(t, fd, reported, errorOrHangup, willing);
      var ready := if errorOrHangup then reported + t.fds[fd].events else reported;
      && (r.AssertFailed? <==> willing && ready * Registered(t, fd) != {} && !(ready <= Registered(t, fd)))
      && (r.Dispatched? ==> Inv(r.table))
      && (r.Dispatched? ==> r.table.woken == t.woken + if willing then RegsAt(t, fd, ready) else [])
      && (r.Dispatched? && willing ==> Registered(r.table, fd) == Registered(t, fd) - ready)
  {
    var ready := RealEvents(t, fd, reported, errorOrHangup);
    var events := t.fds[fd].events;
    if events * ready != {} {
      RemovalIsLegal(t, fd, events - ready);
      if ready <= events {
        TriggerBothKeepsInv(t, fd, ready);
      } else {
        var e :| e in ready && e !in events;
        assert e == Read || e == Write;
      }
    }
  }

  lemma {:induction false} TriggerTakesOnly(t: Table, fd: nat, ev: Event, want: bool)
    requires fd < |t.fds|
    ensures Only(t, TriggerIf(t, fd, ev, want), fd, if want then {ev} else {})
  {
  }

  lemma {:induction false} TriggersTakeOnly(t: Table, fd: nat, left: set<Event>, ready: set<Event>)
    requires fd < |t.fds|
    ensures var v := TriggerIf(Shrink(t, fd, left), fd, Read, Read in ready);
      fd < |v.fds| && Only(t, TriggerIf(v, fd, Write, Write in ready), fd, ready)
  {
    var u := Shrink(t, fd, left);
    var v := TriggerIf(u, fd, Read, Read in ready);
    TriggerTakesOnly(u, fd, Read, Read in ready);
    TriggerTakesOnly(v, fd, Write, Write in ready);
    OnlyBoth(t, u, v, TriggerIf(v, fd, Write, Write in ready), fd, ready);
  }

  /** Cancelling takes away the event, or all events of the descriptor, and leaves every other registration
      what it was. */
  lemma {:induction false} CancelsOnly(t: Table, fd: nat, ev: Event, willing: bool)
    requires Inv(t)
    ensures Only(t, CancelEvent(t, fd, ev, willing), fd, if willing then {ev} else {})
    ensures Only(t, CancelAll(t, fd, willing), fd, if willing then {Read, Write} else {})
  {
    CancelEventKeepsInv(t, fd, ev, willing);
    if Removable(t, fd, ev, willing) {
      TriggerTakesOnly(Shrink(t, fd, t.fds[fd].events - {ev}), fd, ev, true);
    }
    CancelAllTakesOnly(t, fd, willing);
  }

  lemma {:induction false} CancelAllTakesOnly(t: Table, fd: nat, willing: bool)
    requires Inv(t)
    ensures Only(t, CancelAll(t, fd, willing), fd, if willing then {Read, Write} else {})
  {
    CancelAllKeepsInv(t, fd, willing);
    if Cancellable(t, fd, willing) {
      var events := t.fds[fd].events;
      TriggersTakeOnly(t, fd, {}, events);
      AllOrAll(t, CancelAll(t, fd, willing), fd, events);
    }
  }

  lemma {:induction false} AllOrAll(t: Table, u: Table, fd: nat, events: set<Event>)
    requires fd < |t.fds| && events == t.fds[fd].events && Only(t, u, fd, events)
    ensures Only(t, u, fd, {Read, Write})
  {
    forall g: nat, e ensures IsSet(u.fds, g, e) <==> IsSet(t.fds, g, e) && !(g == fd && e in {Read, Write}) {
      assert e == Read || e == Write;
    }
  }

  /** A report that is handled takes away the registered events it stands for, and leaves every other
      registration what it was. */
  lemma {:induction false} DispatchesOnly(t: Table, fd: nat, reported: set<Event>, errorOrHangup: bool, willing: bool)
    requires Inv(t) && fd < |t.fds| && Dispatch(t, fd, reported, errorOrHangup, willing).Dispatched?
    ensures Only(t, Dispatch(t, fd, reported, errorOrHangup, willing).table, fd,
                 if !willing then {} else if errorOrHangup then reported + t.fds[fd].events else reported)
  {
    var ready := if errorOrHangup then reported + t.fds[fd].events else reported;
    assert ready == RealEvents(t, fd, reported, errorOrHangup);
    if Dispatchable(t, fd, ready, willing) {
      TriggersTakeOnly(t, fd, t.fds[fd].events - ready, ready);
    } else if willing {
      if t.fds[fd].events * ready != {} {
        RemovalIsLegal(t, fd, t.fds[fd].events - ready);
      }
      forall e | e in ready ensures !IsSet(t.fds, fd, e) {
        assert e !in t.fds[fd].events * ready;
      }
    }
  }

  /** An error or a hang-up alone wakes everything registered at the descriptor, the reader first, and leaves
      nothing registered there; without one exactly the reported events that are registered are woken. */
  lemma {:induction false} ErrorWakesAll(t: Table, fd: nat, reported: set<Event>, errorOrHangup: bool)
    requires Inv(t) && fd < |t.fds| && reported <= t.fds[fd].events
    ensures Dispatch(t, fd, reported, errorOrHangup, true).Dispatched?
    ensures var u := Dispatch(t, fd, reported, errorOrHangup, true).table;
      if errorOrHangup
      then u.fds[fd].events == {} && u.woken == t.woken + RegsAt(t, fd, t.fds[fd].events)
      else u.fds[fd].events == t.fds[fd].events - reported && u.woken == t.woken + RegsAt(t, fd, reported)
  {
    DispatchKeepsInv(t, fd, reported, errorOrHangup, true);
    assert errorOrHangup ==> reported + t.fds[fd].events == t.fds[fd].events;
    SizeStays(t, fd, reported, errorOrHangup);
  }

  lemma {:induction false} SizeStays(t: Table, fd: nat, reported: set<Event>, errorOrHangup: bool)
    requires fd < |t.fds| && Dispatch(t, fd, reported, errorOrHangup, true).Dispatched?
    ensures |Dispatch(t, fd, reported, errorOrHangup, true).table.fds| == |t.fds|
  {
  }
}
