/** The single-wake-token invariant: a place mentions a fiber if and only if it is the place of that
    fiber's token, so every fiber is mentioned in at most one place. Every step moves tokens by taking
    one out of a place and putting it into another. */
module WakeTokens {
  import opened Fibers
  import opened TaskQueue
  import opened EventTable
  import opened Runtime

  /** The tokens a worker has in its hands. */
  predicate Holds(pc: Pc, f: FiberId) {
    match pc
    case Picked(e) => Token(e.work) == Some(f)
    case Running(_, _, job) => job == Resume(f)
    case Idling(cbs) => ResumeFiber(f) in cbs
    case _ => false
  }

  /** The fiber on the stack of a worker. */
  function Executing(pc: Pc): Option<FiberId> {
    match pc
    case Running(f, _, _) => Some(f)
    case Returned(f, _) => Some(f)
    case Settling(f, _) => Some(f)
    case _ => None
  }

  predicate Caches(w: Worker, f: FiberId) {
    w.cbFiber == Some(f) && Executing(w.pc) != Some(f)
  }

  /** The place `l` mentions `f`. */
  ghost predicate At(s: State, f: FiberId, l: Loc) {
    match l
    case AtFd(fd, ev) => IsSet(s.fds.fds, fd, ev) && FdToken(s.fds.fds[fd].Ctx(ev)) == Some(f)
    case AtSem(i) => i in s.sems && f in s.sems[i].waiters
    case AtTimer(t) => t in s.timers && s.timers[t].cb == ResumeFiber(f)
    case Queued(e) => e in s.tasks.queue && Token(e.work) == Some(f)
    case Held(w) => w in s.workers && Holds(s.workers[w].pc, f)
    case Cached(w) => w in s.workers && Caches(s.workers[w], f)
    case _ => false
  }

  predicate IsPlace(l: Loc) {
    l.AtFd? || l.AtSem? || l.AtTimer? || l.Queued? || l.Held? || l.Cached?
  }

  ghost predicate OnePlace(s: State) {
    && (forall f, l :: At(s, f, l) ==> f in s.loc && s.loc[f] == l)
    && (forall f | f in s.loc && IsPlace(s.loc[f]) :: At(s, f, s.loc[f]))
  }

  /** No callback in hand resumes the same fiber as another. */
  ghost predicate HeldOnce(pc: Pc) {
    pc.Idling? ==>
      forall a, b :: 0 <= a < b < |pc.cbs| && pc.cbs[a].ResumeFiber? ==> pc.cbs[a] != pc.cbs[b]
  }

  /** No place mentions a fiber twice. */
  ghost predicate OnceEach(s: State) {
    && InArrivalOrder(s.tasks.queue, s.tasks.next)
    && ContextsOk(s.fds.fds)
    && (forall i | i in s.sems :: Distinct(s.sems[i].waiters))
    && (forall t | t in s.timers && s.timers[t].cb.ResumeFiber? :: !s.timers[t].recurring)
    && (forall w | w in s.workers :: HeldOnce(s.workers[w].pc))
  }

  ghost predicate Tokens(s: State) {
    s.fstate.Keys == s.loc.Keys && OnePlace(s) && OnceEach(s)
  }

  /** From `s` to `u` the token of `f` moves to `l` and no place changes otherwise. */
  ghost predicate Moves(s: State, u: State, f: FiberId, l: Loc) {
    && u.loc == s.loc[f := l]
    && (forall g, m :: At(u, g, m) <==> if g == f then m == l && IsPlace(l) else At(s, g, m))
  }

  ghost predicate Stays(s: State, u: State) {
    && u.loc == s.loc
    && (forall g, m :: At(u, g, m) <==> At(s, g, m))
  }

  ghost predicate MovesToken(s: State, u: State, token: Option<FiberId>, l: Loc) {
    if token.Some? then Moves(s, u, token.value, l) else Stays(s, u)
  }

  /** A token that goes through `k` on its way. */
  lemma {:induction false} MovesOn(s: State, u: State, v: State, token: Option<FiberId>, k: Loc, l: Loc)
    requires MovesToken(s, u, token, k) && MovesToken(u, v, token, l)
    ensures MovesToken(s, v, token, l)
  {
  }

  lemma {:induction false} MoveKeepsOnePlace(s: State, u: State, token: Option<FiberId>, l: Loc)
    requires OnePlace(s) && MovesToken(s, u, token, l)
    ensures OnePlace(u)
  {
  }

  /** A place that did not change mentions whom it mentioned. */
  lemma {:induction false} OtherPlaces(s: State, u: State, f: FiberId, l: Loc)
    requires l.AtFd? ==> u.fds.fds == s.fds.fds
    requires l.AtSem? ==> u.sems == s.sems
    requires l.AtTimer? ==> u.timers == s.timers
    requires l.Queued? ==> u.tasks.queue == s.tasks.queue
    requires l.Held? || l.Cached? ==> u.workers == s.workers
    ensures At(u, f, l) <==> At(s, f, l)
  {
  }

  // ---------------------------------------------------------------- the queue

  /** Putting a token that is in no place at the back of the queue. */
  lemma {:induction false} PushKeepsTokens(s: State, work: Work, thread: ThreadId, reg: Option<nat> := None)
    requires Tokens(s)
    requires Token(work).Some? ==> Token(work).value in s.loc && !IsPlace(s.loc[Token(work).value])
    ensures Tokens(Push(s, work, thread, reg))
    ensures MovesToken(s, Push(s, work, thread, reg), Token(work), Queued(Entry(work, thread, s.tasks.next)))
  {
    var e := Entry(work, thread, s.tasks.next);
    var u := Push(s, work, thread, reg);
    assert e !in s.tasks.queue;
    forall g: FiberId, m
      ensures At(u, g, m) <==> At(s, g, m) || (m == Queued(e) && Token(work) == Some(g))
    {
      if m.Queued? {
        assert forall x :: x in u.tasks.queue <==> x in s.tasks.queue || x == e;
      } else {
        OtherPlaces(s, u, g, m);
      }
    }
    MoveKeepsOnePlace(s, u, Token(work), Queued(e));
  }

  lemma {:induction false} PickKeepsTokens(s: State, w: ThreadId)
    requires Tokens(s) && w in s.workers && s.workers[w].pc.Scanning? && ScanResult(s, w) < |s.tasks.queue|
    ensures Tokens(PickStep(s, w))
    ensures MovesToken(s, PickStep(s, w), Token(s.tasks.queue[ScanResult(s, w)].work), Held(w))
  {
    var i := ScanResult(s, w);
    var e := s.tasks.queue[i];
    var u := PickStep(s, w);
    RemoveAtKeepsOrder(s.tasks.queue, i, s.tasks.next);
    assert Token(e.work).Some? ==> At(s, Token(e.work).value, Queued(e));
    forall g, m
      ensures At(u, g, m) <==> if Token(e.work) == Some(g) then m == Held(w) else At(s, g, m)
    {
      assert At(s, g, m) ==> s.loc[g] == m;
    }
    MoveKeepsOnePlace(s, u, Token(e.work), Held(w));
  }

  // ---------------------------------------------------------------- events

  /** Emptying one context changes no other. */
  lemma {:induction false} UninstallLeaves(t: Table, fd: nat, ev: Event)
    requires ContextsOk(t.fds) && IsSet(t.fds, fd, ev)
    ensures var u := Uninstall(t, fd, ev);
      && ContextsOk(u.fds)
      && (forall g: nat, e :: IsSet(u.fds, g, e) <==> IsSet(t.fds, g, e) && !(g == fd && e == ev))
      && (forall g: nat, e :: IsSet(u.fds, g, e) ==> u.fds[g].Ctx(e) == t.fds[g].Ctx(e))
  {
    assert FdOk(t.fds[fd]);
    assert FdOk(Uninstall(t, fd, ev).fds[fd]);
  }

  /** Taking the token out of a context. */
  lemma {:induction false} TakeFromContext(s: State, u: State, fd: nat, ev: Event, l: Loc)
    requires Tokens(s) && IsSet(s.fds.fds, fd, ev) && !IsPlace(l)
    requires u == s.(fds := u.fds, loc := Move(s.loc, FdToken(s.fds.fds[fd].Ctx(ev)), l))
    requires u.fds.fds == Uninstall(s.fds, fd, ev).fds
    ensures Tokens(u) && MovesToken(s, u, FdToken(s.fds.fds[fd].Ctx(ev)), l)
  {
    var token := FdToken(s.fds.fds[fd].Ctx(ev));
    UninstallLeaves(s.fds, fd, ev);
    assert token.Some? ==> At(s, token.value, AtFd(fd, ev));
    forall g, m
      ensures At(u, g, m) <==> At(s, g, m) && m != AtFd(fd, ev)
    {
    }
    MoveKeepsOnePlace(s, u, token, l);
  }

  lemma {:induction false} WakeKeepsTokens(s: State, fd: nat, ev: Event)
    requires Tokens(s) && IsSet(s.fds.fds, fd, ev)
    ensures Tokens(WakeFrom(s, fd, ev))
    ensures var c := s.fds.fds[fd].Ctx(ev);
      && Fires(c).Some?
      && MovesToken(s, WakeFrom(s, fd, ev), FdToken(c), Queued(Entry(Fires(c).value, ANY_THREAD, s.tasks.next)))
  {
    var c := s.fds.fds[fd].Ctx(ev);
    assert FdOk(s.fds.fds[fd]);
    var u := s.(fds := Trigger(s.fds, fd, ev), loc := Move(s.loc, FdToken(c), Transit));
    TakeFromContext(s, u, fd, ev, Transit);
    PushKeepsTokens(u, Fires(c).value, ANY_THREAD, Some(c.reg));
    MovesOn(s, u, WakeFrom(s, fd, ev), FdToken(c), Transit, Queued(Entry(Fires(c).value, ANY_THREAD, s.tasks.next)));
  }

  lemma {:induction false} ShrinkKeepsTokens(s: State, fd: nat, left: set<Event>)
    requires Tokens(s)
    ensures Tokens(s.(fds := Shrink(s.fds, fd, left)))
  {
    var u := s.(fds := Shrink(s.fds, fd, left));
    assert forall g, m :: At(u, g, m) <==> At(s, g, m);
  }

  lemma {:induction false} CancelKeepsTokens(s: State, fd: nat, ev: Event, willing: bool)
    requires Tokens(s)
    ensures Tokens(DoCancelEvent(s, fd, ev, willing))
  {
    if Removable(s.fds, fd, ev, willing) {
      var left := s.fds.fds[fd].events - {ev};
      ShrinkKeepsTokens(s, fd, left);
      WakeKeepsTokens(s.(fds := Shrink(s.fds, fd, left)), fd, ev);
    }
  }

  lemma {:induction false} WakeLeavesOther(s: State, fd: nat)
    requires fd < |s.fds.fds|
    ensures fd < |WakeFrom(s, fd, Read).fds.fds|
    ensures Write in s.fds.fds[fd].events <==> Write in WakeFrom(s, fd, Read).fds.fds[fd].events
  {
  }

  lemma {:induction false} CancelAllKeepsTokens(s: State, fd: nat, willing: bool)
    requires Tokens(s)
    ensures Tokens(DoCancelAll(s, fd, willing))
  {
    if Cancellable(s.fds, fd, willing) {
      ShrinkKeepsTokens(s, fd, {});
      var u := s.(fds := Shrink(s.fds, fd, {}));
      WakeLeavesOther(u, fd);
      if Read in u.fds.fds[fd].events { WakeKeepsTokens(u, fd, Read); }
      var v := WakeIf(u, fd, Read, Read in u.fds.fds[fd].events);
      if Write in v.fds.fds[fd].events { WakeKeepsTokens(v, fd, Write); }
    }
  }

  lemma {:induction false} ReportKeepsTokens(s: State, fd: nat, reported: set<Event>, err: bool, willing: bool)
    requires Tokens(s) && fd < |s.fds.fds| && Dispatch(s.fds, fd, reported, err, willing).Dispatched?
    ensures Tokens(DoDispatch(s, fd, reported, err, willing))
  {
    var ready := RealEvents(s.fds, fd, reported, err);
    if Dispatchable(s.fds, fd, ready, willing) {
      var left := s.fds.fds[fd].events - ready;
      ShrinkKeepsTokens(s, fd, left);
      var u := s.(fds := Shrink(s.fds, fd, left));
      WakeLeavesOther(u, fd);
      if Read in ready { WakeKeepsTokens(u, fd, Read); }
      var v := WakeIf(u, fd, Read, Read in ready);
      if Write in ready { WakeKeepsTokens(v, fd, Write); }
    }
  }

  lemma {:induction false} InstallLeaves(t: Table, fd: nat, ev: Event, owner: Owner)
    requires ContextsOk(t.fds) && fd < |t.fds| && ev !in t.fds[fd].events
    ensures var u := Install(t, fd, ev, owner);
      && ContextsOk(u.fds)
      && IsSet(u.fds, fd, ev) && u.fds[fd].Ctx(ev) == NewContext(owner, t.adds)
      && (forall g: nat, e :: IsSet(u.fds, g, e) <==> IsSet(t.fds, g, e) || (g == fd && e == ev))
      && (forall g: nat, e :: IsSet(t.fds, g, e) ==> u.fds[g].Ctx(e) == t.fds[g].Ctx(e))
  {
    assert FdOk(t.fds[fd]);
    assert FdOk(Install(t, fd, ev, owner).fds[fd]);
  }

  lemma {:induction false} GrowLeaves(t: Table, fd: nat)
    requires ContextsOk(t.fds)
    ensures var u := Grow(t, fd);
      && ContextsOk(u.fds)
      && (forall g: nat, e :: IsSet(u.fds, g, e) <==> IsSet(t.fds, g, e))
      && (forall g: nat, e :: IsSet(t.fds, g, e) ==> u.fds[g].Ctx(e) == t.fds[g].Ctx(e))
  {
  }

  /** What a registration does to the contexts. */
  lemma {:induction false} AddLeaves(t: Table, fd: nat, ev: Event, owner: Owner, willing: bool)
    requires ContextsOk(t.fds) && |t.fds| >= 2
    requires !AddEvent(t, fd, ev, owner, willing).Aborted?
    ensures var r := AddEvent(t, fd, ev, owner, willing); var u := r.table;
      && ContextsOk(u.fds)
      && (forall g: nat, e :: IsSet(u.fds, g, e) <==> IsSet(t.fds, g, e) || (r.Added? && g == fd && e == ev))
      && (forall g: nat, e :: IsSet(t.fds, g, e) ==> u.fds[g].Ctx(e) == t.fds[g].Ctx(e))
      && (r.Added? ==> !IsSet(t.fds, fd, ev) && IsSet(u.fds, fd, ev)
                       && u.fds[fd].Ctx(ev) == NewContext(owner, t.adds))
  {
    GrowLeaves(t, fd);
    var r := AddEvent(t, fd, ev, owner, willing);
    if r.Added? {
      var g := Grow(t, fd);
      var op := if g.fds[fd].events == {} then ADD else MOD;
      InstallLeaves(g.(kernel := Control(g.kernel, op, fd, g.fds[fd].events + {ev})), fd, ev, owner);
    }
  }

  /** Putting a token that is in no place into an empty context. */
  lemma {:induction false} PutInContext(s: State, u: State, f: FiberId, fd: nat, ev: Event)
    requires Tokens(s) && f in s.loc && !IsPlace(s.loc[f])
    requires u == s.(fds := u.fds, loc := s.loc[f := AtFd(fd, ev)], io := u.io)
    requires ContextsOk(u.fds.fds) && !IsSet(s.fds.fds, fd, ev)
    requires forall g: nat, e :: IsSet(u.fds.fds, g, e) <==> IsSet(s.fds.fds, g, e) || (g == fd && e == ev)
    requires forall g: nat, e :: IsSet(s.fds.fds, g, e) ==>
      IsSet(u.fds.fds, g, e) && u.fds.fds[g].Ctx(e) == s.fds.fds[g].Ctx(e)
    requires IsSet(u.fds.fds, fd, ev) && FdToken(u.fds.fds[fd].Ctx(ev)) == Some(f)
    ensures Tokens(u) && Moves(s, u, f, AtFd(fd, ev))
  {
    forall g, m
      ensures At(u, g, m) <==> At(s, g, m) || (g == f && m == AtFd(fd, ev))
    {
      if !m.AtFd? {
        OtherPlaces(s, u, g, m);
      }
    }
    MoveKeepsOnePlace(s, u, Some(f), AtFd(fd, ev));
  }

  /** New contexts that mention no fiber. */
  lemma {:induction false} PutNothing(s: State, u: State)
    requires Tokens(s) && u == s.(fds := u.fds)
    requires ContextsOk(u.fds.fds)
    requires forall g: nat, e :: IsSet(s.fds.fds, g, e) ==>
      IsSet(u.fds.fds, g, e) && u.fds.fds[g].Ctx(e) == s.fds.fds[g].Ctx(e)
    requires forall g: nat, e :: IsSet(u.fds.fds, g, e) && !IsSet(s.fds.fds, g, e) ==> FdToken(u.fds.fds[g].Ctx(e)).None?
    ensures Tokens(u) && Stays(s, u)
  {
    assert forall g, m :: At(u, g, m) <==> At(s, g, m);
  }

  lemma {:induction false} AddFiberKeepsTokens(s: State, w: ThreadId, fd: nat, ev: Event, willing: bool)
    requires Tokens(s) && CallEnabled(s, AddFiberEvent(w, fd, ev, willing))
    ensures Tokens(AddFiberStep(s, w, fd, ev, willing))
    ensures if AddEvent(s.fds, fd, ev, OwnFiber(Self(s, w)), willing).Added?
            then Moves(s, AddFiberStep(s, w, fd, ev, willing), Self(s, w), AtFd(fd, ev))
            else Stays(s, AddFiberStep(s, w, fd, ev, willing))
  {
    AddLeaves(s.fds, fd, ev, OwnFiber(Self(s, w)), willing);
    var u := AddFiberStep(s, w, fd, ev, willing);
    if AddEvent(s.fds, fd, ev, OwnFiber(Self(s, w)), willing).Added? {
      PutInContext(s, u, Self(s, w), fd, ev);
    } else {
      PutNothing(s, u);
    }
  }

  lemma {:induction false} AddCallbackKeepsTokens(s: State, a: Actor, id: nat, fd: nat, ev: Event, willing: bool)
    requires Tokens(s) && CallEnabled(s, AddCallbackEvent(a, id, fd, ev, willing))
    ensures Tokens(CallApply(s, AddCallbackEvent(a, id, fd, ev, willing)))
  {
    AddLeaves(s.fds, fd, ev, OwnCallback(UserCallback(id)), willing);
    PutNothing(s, CallApply(s, AddCallbackEvent(a, id, fd, ev, willing)));
  }

  lemma {:induction false} DeleteKeepsTokens(s: State, fd: nat, ev: Event, willing: bool)
    requires Tokens(s)
    ensures Tokens(DeleteStep(s, fd, ev, willing))
  {
    if Removable(s.fds, fd, ev, willing) {
      TakeFromContext(s, DeleteStep(s, fd, ev, willing), fd, ev, Orphan);
    }
  }

  // ---------------------------------------------------------------- semaphores and timers

  lemma {:induction false} PermitKeepsTokens(s: State, i: nat, permits: nat)
    requires Tokens(s) && i in s.sems
    ensures var u := s.(sems := s.sems[i := s.sems[i].(concurrency := permits)]); Tokens(u) && Stays(s, u)
  {
    var u := s.(sems := s.sems[i := s.sems[i].(concurrency := permits)]);
    assert forall g, m :: At(u, g, m) <==> At(s, g, m);
  }

  lemma {:induction false} DistinctSnoc(ws: seq<FiberId>, f: FiberId)
    requires Distinct(ws) && f !in ws
    ensures Distinct(ws + [f])
  {
  }

  lemma {:induction false} JoinWaiters(s: State, u: State, f: FiberId, i: nat)
    requires Tokens(s) && i in s.sems && f in s.loc && !IsPlace(s.loc[f])
    requires u == s.(sems := s.sems[i := s.sems[i].(waiters := s.sems[i].waiters + [f])],
                     loc := s.loc[f := AtSem(i)])
    ensures Tokens(u)
  {
    assert u.tasks == s.tasks && u.fds == s.fds && u.timers == s.timers && u.workers == s.workers;
    assert !At(s, f, AtSem(i));
    forall g, m
      ensures At(u, g, m) <==> At(s, g, m) || (g == f && m == AtSem(i))
    {
      if m.AtSem? {
        assert g in s.sems[i].waiters + [f] <==> g in s.sems[i].waiters || g == f;
      } else {
        OtherPlaces(s, u, g, m);
      }
    }
    MoveKeepsOnePlace(s, u, Some(f), AtSem(i));
    DistinctSnoc(s.sems[i].waiters, f);
  }

  lemma {:induction false} SemWaitKeepsTokens(s: State, w: ThreadId, i: nat)
    requires Tokens(s) && CallEnabled(s, SemWait(w, i))
    ensures Tokens(SemWaitStep(s, w, i))
  {
    if s.sems[i].concurrency > 0 {
      PermitKeepsTokens(s, i, s.sems[i].concurrency - 1);
    } else {
      JoinWaiters(s, SemWaitStep(s, w, i), Self(s, w), i);
    }
  }

  lemma {:induction false} TakeFirstWaiter(s: State, u: State, i: nat)
    requires Tokens(s) && i in s.sems && s.sems[i].waiters != []
    requires u == s.(sems := s.sems[i := s.sems[i].(waiters := s.sems[i].waiters[1..])],
                     loc := s.loc[s.sems[i].waiters[0] := Transit])
    ensures Tokens(u) && Moves(s, u, s.sems[i].waiters[0], Transit)
  {
    assert u.tasks == s.tasks && u.fds == s.fds && u.timers == s.timers && u.workers == s.workers;
    var ws := s.sems[i].waiters;
    var f := ws[0];
    assert At(s, f, AtSem(i)) && Distinct(ws);
    forall g, m
      ensures At(u, g, m) <==> At(s, g, m) && g != f
    {
      assert At(s, g, m) ==> s.loc[g] == m;
      if m.AtSem? {
        assert g in ws <==> g == f || g in ws[1..];
      } else {
        OtherPlaces(s, u, g, m);
      }
    }
    MoveKeepsOnePlace(s, u, Some(f), Transit);
  }

  lemma {:induction false} NotifyIsPush(s: State, i: nat)
    requires i in s.sems && s.sems[i].waiters != []
    ensures var ws := s.sems[i].waiters;
      var u := s.(sems := s.sems[i := s.sems[i].(waiters := ws[1..])], loc := s.loc[ws[0] := Transit]);
      SemNotifyStep(s, i) == Push(u, FiberWork(ws[0]), ANY_THREAD)
  {
  }

  lemma {:induction false} FirstWaiterMoves(s: State, u: State, i: nat, f: FiberId)
    requires Tokens(s) && i in s.sems && s.sems[i].waiters != [] && f == s.sems[i].waiters[0]
    requires u == s.(sems := s.sems[i := s.sems[i].(waiters := s.sems[i].waiters[1..])], loc := s.loc[f := Transit])
    ensures Tokens(Push(u, FiberWork(f), ANY_THREAD))
    ensures Moves(s, Push(u, FiberWork(f), ANY_THREAD), f, Queued(Entry(FiberWork(f), ANY_THREAD, s.tasks.next)))
  {
    TakeFirstWaiter(s, u, i);
    PushKeepsTokens(u, FiberWork(f), ANY_THREAD);
    MovesOn(s, u, Push(u, FiberWork(f), ANY_THREAD), Some(f), Transit, Queued(Entry(FiberWork(f), ANY_THREAD, s.tasks.next)));
  }

  lemma {:induction false} NotifyIsPermit(s: State, i: nat)
    requires i in s.sems && s.sems[i].waiters == []
    ensures SemNotifyStep(s, i) == s.(sems := s.sems[i := s.sems[i].(concurrency := s.sems[i].concurrency + 1)])
  {
  }

  lemma {:induction false} NotifyKeepsTokens(s: State, i: nat)
    requires Tokens(s) && i in s.sems
    ensures Tokens(SemNotifyStep(s, i))
    ensures var ws := s.sems[i].waiters;
      if ws == [] then Stays(s, SemNotifyStep(s, i))
      else Moves(s, SemNotifyStep(s, i), ws[0], Queued(Entry(FiberWork(ws[0]), ANY_THREAD, s.tasks.next)))
  {
    var ws := s.sems[i].waiters;
    if ws == [] {
      NotifyIsPermit(s, i);
      PermitKeepsTokens(s, i, s.sems[i].concurrency + 1);
    } else {
      NotifyIsPush(s, i);
      FirstWaiterMoves(s, s.(sems := s.sems[i := s.sems[i].(waiters := ws[1..])], loc := s.loc[ws[0] := Transit]), i, ws[0]);
    }
  }

  /** A worker changes and at most one token that it had in hand, in its cache or on its stack leaves
      for `l`, which is no place. */
  lemma {:induction false} WorkerMoves(s: State, u: State, w: ThreadId, token: Option<FiberId>, l: Loc)
    requires Tokens(s) && w in s.workers && w in u.workers
    requires u.workers == s.workers[w := u.workers[w]] && u.loc == Move(s.loc, token, l) && !IsPlace(l)
    requires u.tasks == s.tasks && u.fds == s.fds && u.sems == s.sems && u.timers == s.timers
    requires u.fstate.Keys == u.loc.Keys
    requires HeldOnce(u.workers[w].pc)
    requires token.Some? && token.value in s.loc ==>
      s.loc[token.value] == Held(w) || s.loc[token.value] == Cached(w) || !IsPlace(s.loc[token.value])
    requires forall g: FiberId :: Holds(u.workers[w].pc, g) <==> Holds(s.workers[w].pc, g) && token != Some(g)
    requires forall g: FiberId :: Caches(u.workers[w], g) <==> Caches(s.workers[w], g) && token != Some(g)
    ensures Tokens(u) && MovesToken(s, u, token, l)
  {
    forall g: FiberId, m
      ensures At(u, g, m) <==> At(s, g, m) && token != Some(g)
    {
      assert At(s, g, m) ==> s.loc[g] == m;
      if !m.Held? && !m.Cached? {
        OtherPlaces(s, u, g, m);
      }
    }
    MoveKeepsOnePlace(s, u, token, l);
  }

  lemma {:induction false} WorkerLetsGo(s: State, u: State, w: ThreadId, token: Option<FiberId>, l: Loc)
    requires Tokens(s) && w in s.workers && w in u.workers
    requires u.workers == s.workers[w := u.workers[w]] && u.loc == Move(s.loc, token, l) && !IsPlace(l)
    requires u.tasks == s.tasks && u.fds == s.fds && u.sems == s.sems && u.timers == s.timers
    requires u.fstate.Keys == u.loc.Keys
    requires HeldOnce(u.workers[w].pc)
    requires token.Some? && token.value in s.loc ==>
      s.loc[token.value] == Held(w) || s.loc[token.value] == Cached(w) || !IsPlace(s.loc[token.value])
    requires forall g: FiberId :: Holds(u.workers[w].pc, g) <==> Holds(s.workers[w].pc, g) && token != Some(g)
    requires forall g: FiberId :: Caches(u.workers[w], g) <==> Caches(s.workers[w], g) && token != Some(g)
    ensures Tokens(u)
  {
    WorkerMoves(s, u, w, token, l);
  }

  /** Callbacks in hand: one more at the end, one less at the front. */
  lemma {:induction false} InHand(cbs: seq<Callback>, cb: Callback)
    requires HeldOnce(Idling(cbs))
    ensures forall g: FiberId :: Holds(Idling(cbs + [cb]), g) <==> Holds(Idling(cbs), g) || CallbackToken(cb) == Some(g)
    ensures (CallbackToken(cb).Some? ==> !Holds(Idling(cbs), cb.fiber)) ==> HeldOnce(Idling(cbs + [cb]))
    ensures cbs != [] ==> HeldOnce(Idling(cbs[1..]))
    ensures cbs != [] ==> forall g: FiberId :: Holds(Idling(cbs[1..]), g) <==> Holds(Idling(cbs), g) && CallbackToken(cbs[0]) != Some(g)
  {
    forall g: FiberId
      ensures ResumeFiber(g) in cbs + [cb] <==> ResumeFiber(g) in cbs || cb == ResumeFiber(g)
      ensures cbs != [] ==> (ResumeFiber(g) in cbs <==> ResumeFiber(g) == cbs[0] || ResumeFiber(g) in cbs[1..])
    {
    }
  }

  lemma {:induction false} ExpireKeepsTokens(s: State, w: ThreadId, t: nat)
    requires Tokens(s) && IsIdling(s, w) && t in s.timers
    ensures Tokens(ExpireStep(s, w, t))
  {
    var u := ExpireStep(s, w, t);
    var cb := s.timers[t].cb;
    assert HeldOnce(s.workers[w].pc);
    assert cb.ResumeFiber? ==> At(s, cb.fiber, AtTimer(t)) && !At(s, cb.fiber, Held(w));
    InHand(s.workers[w].pc.cbs, cb);
    forall g: FiberId, m
      ensures At(u, g, m) <==> if CallbackToken(cb) == Some(g) then m == Held(w) else At(s, g, m)
    {
      assert At(s, g, m) ==> s.loc[g] == m;
    }
    MoveKeepsOnePlace(s, u, CallbackToken(cb), Held(w));
  }

  lemma {:induction false} PushExpiredKeepsTokens(s: State, w: ThreadId)
    requires Tokens(s) && IsIdling(s, w) && s.workers[w].pc.cbs != []
    ensures Tokens(PushExpiredStep(s, w))
  {
    var cbs := s.workers[w].pc.cbs;
    var u := SetPc(s, w, Idling(cbs[1..])).(loc := Move(s.loc, CallbackToken(cbs[0]), Transit));
    assert HeldOnce(s.workers[w].pc);
    InHand(cbs, cbs[0]);
    assert cbs[0].ResumeFiber? ==> At(s, cbs[0].fiber, Held(w)) && !At(s, cbs[0].fiber, Cached(w));
    WorkerLetsGo(s, u, w, CallbackToken(cbs[0]), Transit);
    PushKeepsTokens(u, CallbackWork(cbs[0]), ANY_THREAD);
  }

  lemma {:induction false} ResumeKeepsTokens(s: State, w: ThreadId, f: FiberId)
    requires Tokens(s) && w in s.workers && s.workers[w].pc.Running? && s.workers[w].pc.job == Resume(f)
    ensures Tokens(ResumeStep(s, w))
    ensures Moves(s, ResumeStep(s, w), f, Queued(Entry(FiberWork(f), ANY_THREAD, s.tasks.next)))
  {
    var u := GoOn(s, w, Plain).(loc := s.loc[f := Transit]);
    assert At(s, f, Held(w)) && !At(s, f, Cached(w));
    assert u.workers == s.workers[w := s.workers[w].(pc := s.workers[w].pc.(job := Plain))];
    WorkerMoves(s, u, w, Some(f), Transit);
    PushKeepsTokens(u, FiberWork(f), ANY_THREAD);
    MovesOn(s, u, ResumeStep(s, w), Some(f), Transit, Queued(Entry(FiberWork(f), ANY_THREAD, s.tasks.next)));
  }

  /** A callback that holds no token goes on to another part that holds none. */
  lemma {:induction false} JobGoesOn(s: State, u: State, w: ThreadId, job: Job)
    requires Tokens(s) && w in s.workers && s.workers[w].pc.Running?
    requires !s.workers[w].pc.job.Resume? && !job.Resume?
    requires u.workers == s.workers[w := s.workers[w].(pc := s.workers[w].pc.(job := job))]
    requires u.tasks == s.tasks && u.fds == s.fds && u.sems == s.sems && u.timers == s.timers
    requires u.fstate == s.fstate && u.loc == s.loc
    ensures Tokens(u) && Stays(s, u)
  {
    WorkerMoves(s, u, w, None, Transit);
  }

  lemma {:induction false} TimeoutKeepsTokens(s: State, w: ThreadId)
    requires Tokens(s) && w in s.workers && s.workers[w].pc.Running? && IsFlagJob(s.workers[w].pc.job)
    ensures Tokens(TimeoutStep(s, w)) && Stays(s, TimeoutStep(s, w))
  {
    JobGoesOn(s, TimeoutStep(s, w), w, NextJob(s, s.workers[w].pc.job));
  }

  lemma {:induction false} JobDoneKeepsTokens(s: State, w: ThreadId)
    requires Tokens(s) && w in s.workers && s.workers[w].pc.Running? && s.workers[w].pc.job.Cancel?
    ensures Tokens(GoOn(s, w, Plain))
  {
    JobGoesOn(s, GoOn(s, w, Plain), w, Plain);
  }

  lemma {:induction false} JobKeepsTokens(s: State, w: ThreadId, willing: bool)
    requires Tokens(s) && w in s.workers && s.workers[w].pc.Running?
    ensures Tokens(JobStep(s, w, willing))
  {
    match s.workers[w].pc.job
    case Plain =>
    case Resume(f) =>
      ResumeKeepsTokens(s, w, f);
    case Cancel(call) =>
      JobDoneKeepsTokens(s, w);
      CancelKeepsTokens(GoOn(s, w, Plain), call.fd, call.event, willing);
    case _ =>
      TimeoutKeepsTokens(s, w);
  }
}
