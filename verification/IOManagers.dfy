/** The descriptor objects and the I/O manager, whose methods carry out the operations of `EventTable`. */
module IOManagers {
  import opened Fibers
  import opened EventTable

  /** What an event context holds: whether a scheduler is set, and the fiber or callback to resume. */
  datatype Slot = Slot(scheduler: bool, fiber: Option<FiberId>, cb: Option<Callback>)

  const FREE: Slot := Slot(false, None, None)

  predicate SlotMatches(x: Slot, c: EventContext) {
    x.scheduler == c.scheduler && x.fiber == c.fiber && x.cb == c.cb
  }

  class FdObject {
    var events: set<Event>
    var read: Slot
    var write: Slot

    constructor ()
      ensures Matches(BLANK)
    {
      events, read, write := {}, FREE, FREE;
    }

    ghost predicate Matches(c: FdContext)
      reads this
    {
      events == c.events && SlotMatches(read, c.read) && SlotMatches(write, c.write)
    }

    function GetContext(ev: Event): Slot
      reads this
    {
      if ev.Read? then read else write
    }

    method SetContext(ev: Event, x: Slot)
      modifies this`read, this`write
      ensures GetContext(ev) == x
      ensures if ev.Read? then write == old(write) else read == old(read)
    {
      if ev.Read? {
        read := x;
      } else {
        write := x;
      }
    }

    /** `triggerEvent`: the fiber or callback moves out of the context into the queue. */
    method TriggerEvent(ev: Event) returns (work: seq<Work>)
      requires ev in events
      modifies this
      ensures events == old(events) - {ev} && GetContext(ev) == FREE
      ensures if ev.Read? then write == old(write) else read == old(read)
      ensures work == Queued(old(GetContext(ev)))
      ensures var x := old(GetContext(ev));
        work == if x.cb.Some? then [CallbackWork(x.cb.value)]
                else if x.fiber.Some? then [FiberWork(x.fiber.value)]
                else []
    {
      events := events - {ev};
      var ctx := GetContext(ev);
      if ctx.cb.Some? {
        work := [CallbackWork(ctx.cb.value)];
      } else if ctx.fiber.Some? {
        work := [FiberWork(ctx.fiber.value)];
      } else {
        work := [];
      }
      SetContext(ev, FREE);
    }
  }

  function Queued(x: Slot): seq<Work> {
    if x.cb.Some? then [CallbackWork(x.cb.value)]
    else if x.fiber.Some? then [FiberWork(x.fiber.value)]
    else []
  }

  /** The work that triggering the event registered at `fd` queues. */
  function FiresAt(t: Table, fd: nat, ev: Event): seq<Work> {
    if fd < |t.fds| && ev in t.fds[fd].events && Fires(t.fds[fd].Ctx(ev)).Some?
    then [Fires(t.fds[fd].Ctx(ev)).value] else []
  }

  datatype Status = Success | Failure | Abort

  class IOManager {
    var fdContexts: seq<FdObject>
    var pending: int
    var kernel: map<nat, set<Event>>     // the interest set behind the epoll descriptor
    ghost var t: Table

    /** The objects hold what the model says. */
    ghost predicate Mirrors()
      reads this, fdContexts
    {
      && |fdContexts| == |t.fds|
      && (forall i :: 0 <= i < |fdContexts| ==> fdContexts[i].Matches(t.fds[i]))
      && (forall i, j :: 0 <= i < j < |fdContexts| ==> fdContexts[i] != fdContexts[j])
      && pending == t.pending && kernel == t.kernel
    }

    ghost predicate Valid()
      reads this, fdContexts
    {
      Mirrors() && Inv(t)
    }

    constructor ()
      ensures Valid() && t == Initial() && fresh(fdContexts)
    {
      fdContexts, pending, kernel := [], 0, map[];
      t := Initial();
      new;
      ContextResize(32);
      t := Initial();
      InitialInv();
    }

    /** `contextResize`: cut off at `size`, or blank contexts up to it. */
    method ContextResize(size: nat)
      requires forall i, j :: 0 <= i < j < |fdContexts| ==> fdContexts[i] != fdContexts[j]
      modifies this`fdContexts
      ensures |fdContexts| == size
      ensures forall i :: 0 <= i < size && i < old(|fdContexts|) ==> fdContexts[i] == old(fdContexts[i])
      ensures forall i :: old(|fdContexts|) <= i < size ==> fresh(fdContexts[i]) && fdContexts[i].Matches(BLANK)
      ensures forall i, j :: 0 <= i < j < size ==> fdContexts[i] != fdContexts[j]
    {
      if size < |fdContexts| {
        fdContexts := fdContexts[..size];
      }
      while |fdContexts| < size
        invariant |fdContexts| <= size && (|fdContexts| < size ==> old(|fdContexts|) <= |fdContexts|)
        invariant forall i :: 0 <= i < |fdContexts| && i < old(|fdContexts|) ==> fdContexts[i] == old(fdContexts[i])
        invariant forall i :: old(|fdContexts|) <= i < |fdContexts| ==> fresh(fdContexts[i]) && fdContexts[i].Matches(BLANK)
        invariant forall i, j :: 0 <= i < j < |fdContexts| ==> fdContexts[i] != fdContexts[j]
        decreases size - |fdContexts|
      {
        var c := new FdObject();
        fdContexts := fdContexts + [c];
      }
    }

    /** epoll_ctl: fails when the kernel is unwilling or the operation does not fit its interest set. */
    method EpollCtl(op: EpollOp, fd: nat, mask: set<Event>, willing: bool) returns (ok: bool)
      modifies this`kernel
      ensures ok == (willing && Legal(old(kernel), op, fd))
      ensures kernel == if ok then Control(old(kernel), op, fd, mask) else old(kernel)
    {
      ok := willing && Legal(kernel, op, fd);
      if ok {
        kernel := Control(kernel, op, fd, mask);
      }
    }

    /** Finds the context of `fd`, growing the table when it is too short. */
    method Lookup(fd: nat)
      requires Valid()
      modifies this`fdContexts, this`t
      ensures Valid() && t == Grow(old(t), fd) && fd < |fdContexts|
      ensures old(fdContexts) <= fdContexts
      ensures forall i :: old(|fdContexts|) <= i < |fdContexts| ==> fresh(fdContexts[i])
    {
      GrowKeepsInv(t, fd);
      if fd >= |fdContexts| {
        ContextResize(fd * 3 / 2);
        t := Grow(t, fd);
      }
    }

    /** Puts the registration into the context. */
    method Register(fd: nat, ev: Event, owner: Owner)
      requires Mirrors() && fd < |fdContexts|
      modifies this`pending, this`t, fdContexts[fd]
      ensures Mirrors() && t == Install(old(t), fd, ev, owner)
    {
      var c := fdContexts[fd];
      pending := pending + 1;
      c.events := c.events + {ev};
      if owner.OwnCallback? {
        c.SetContext(ev, Slot(true, None, Some(owner.cb)));
      } else {
        c.SetContext(ev, Slot(true, Some(owner.fiber), None));
      }
      t := Install(t, fd, ev, owner);
    }

    /** `addEvent`: aborts exactly when the event is registered already; the context it fills is empty. */
    method AddEvent(fd: nat, ev: Event, owner: Owner, willing: bool) returns (r: Status)
      requires Valid()
      modifies this, fdContexts
      ensures match EventTable.AddEvent(old(t), fd, ev, owner, willing)
              case Added(u) => r == Success && Valid() && t == u
              case Refused(u) => r == Failure && Valid() && t == u
              case Aborted => r == Abort
      ensures r == Abort <==> ev in Registered(old(t), fd)
    {
      AddEventKeepsInv(t, fd, ev, owner, willing);
      GrowKeepsInv(t, fd);
      Lookup(fd);
      r := AddToContext(fd, ev, owner, willing);
    }

    /** `addEvent` once the context is there. */
    method AddToContext(fd: nat, ev: Event, owner: Owner, willing: bool) returns (r: Status)
      requires Mirrors() && fd < |fdContexts|
      modifies this`kernel, this`pending, this`t, fdContexts[fd]
      ensures r != Abort ==> Mirrors()
      ensures match EventTable.AddInContext(old(t), fd, ev, owner, willing)
              case Added(u) => r == Success && t == u
              case Refused(u) => r == Failure && t == u
              case Aborted => r == Abort
    {
      var c := fdContexts[fd];
      if ev in c.events {
        return Abort;
      }
      var op := if c.events == {} then ADD else MOD;
      var mask := c.events + {ev};
      var ok := EpollCtl(op, fd, mask, willing);
      if !ok {
        return Failure;
      }
      t := t.(kernel := kernel);
      if c.GetContext(ev) != FREE {
        return Abort;
      }
      Register(fd, ev, owner);
      r := Success;
    }

    /** The `epoll_ctl` call of the three removing operations. */
    method Reduce(fd: nat, left: set<Event>, willing: bool) returns (ok: bool)
      requires Mirrors() && fd < |fdContexts|
      modifies this`kernel, this`t
      ensures Mirrors() && ok == (willing && Legal(old(t).kernel, ReductionOp(left), fd))
      ensures t == if ok then Shrink(old(t), fd, left) else old(t)
    {
      ok := EpollCtl(if left == {} then DEL else MOD, fd, left, willing);
      if ok {
        t := Shrink(t, fd, left);
      }
    }

    /** `triggerEvent` and the decrement that goes with it, when `want` holds. */
    method TriggerIfWanted(fd: nat, ev: Event, want: bool) returns (work: seq<Work>)
      requires Mirrors() && fd < |fdContexts| && (want ==> ev in fdContexts[fd].events)
      modifies this`pending, this`t, fdContexts[fd]
      ensures Mirrors() && t == TriggerIf(old(t), fd, ev, want)
      ensures work == if want then FiresAt(old(t), fd, ev) else []
    {
      work := [];
      if want {
        work := fdContexts[fd].TriggerEvent(ev);
        pending := pending - 1;
        t := Trigger(t, fd, ev);
      }
    }

    /** Clears the context without triggering it. */
    method Unregister(fd: nat, ev: Event)
      requires Mirrors() && fd < |fdContexts|
      modifies this`pending, this`t, fdContexts[fd]
      ensures Mirrors() && t == Uninstall(old(t), fd, ev)
    {
      pending := pending - 1;
      fdContexts[fd].events := fdContexts[fd].events - {ev};
      fdContexts[fd].SetContext(ev, FREE);
      t := Uninstall(t, fd, ev);
    }

    /** `delEvent`. */
    method DelEvent(fd: nat, ev: Event, willing: bool) returns (ok: bool)
      requires Valid()
      modifies this`pending, this`kernel, this`t, fdContexts
      ensures Valid() && t == EventTable.DelEvent(old(t), fd, ev, willing)
      ensures ok == (ev in Registered(old(t), fd) && willing)
    {
      ghost var goal := EventTable.DelEvent(t, fd, ev, willing);
      DelEventKeepsInv(t, fd, ev, willing);
      if |fdContexts| <= fd || ev !in fdContexts[fd].events {
        return false;
      }
      ok := Reduce(fd, fdContexts[fd].events - {ev}, willing);
      if ok {
        Unregister(fd, ev);
        t := goal;
      }
    }

    /** `cancelEvent`: what was registered goes onto the queue. */
    method CancelEvent(fd: nat, ev: Event, willing: bool) returns (ok: bool, work: seq<Work>)
      requires Valid()
      modifies this`pending, this`kernel, this`t, fdContexts
      ensures Valid() && t == EventTable.CancelEvent(old(t), fd, ev, willing)
      ensures ok == (ev in Registered(old(t), fd) && willing)
      ensures work == if ok then FiresAt(old(t), fd, ev) else []
    {
      CancelEventKeepsInv(t, fd, ev, willing);
      if |fdContexts| <= fd || ev !in fdContexts[fd].events {
        return false, [];
      }
      ok := Reduce(fd, fdContexts[fd].events - {ev}, willing);
      work := TriggerIfWanted(fd, ev, ok);
    }

    /** `cancelAll`: everything registered at `fd` goes onto the queue, reading before writing. */
    method CancelAll(fd: nat, willing: bool) returns (ok: bool, work: seq<Work>)
      requires Valid()
      modifies this`pending, this`kernel, this`t, fdContexts
      ensures Valid() && t == EventTable.CancelAll(old(t), fd, willing)
      ensures ok == (Registered(old(t), fd) != {} && willing)
      ensures work == if ok then FiresAt(old(t), fd, Read) + FiresAt(old(t), fd, Write) else []
    {
      CancelAllKeepsInv(t, fd, willing);
      if |fdContexts| <= fd || fdContexts[fd].events == {} {
        return false, [];
      }
      ok := Reduce(fd, {}, willing);
      if !ok {
        return false, [];
      }
      var first := TriggerIfWanted(fd, Read, Read in fdContexts[fd].events);
      var second := TriggerIfWanted(fd, Write, Write in fdContexts[fd].events);
      work := first + second;
    }

    /** One readiness report of the idle loop; `Abort` is the assertion of `triggerEvent`. */
    method Dispatch(fd: nat, reported: set<Event>, errorOrHangup: bool, willing: bool)
      returns (r: Status, work: seq<Work>)
      requires Valid() && fd < |fdContexts|
      modifies this`pending, this`kernel, this`t, fdContexts
      ensures r == Abort <==> EventTable.Dispatch(old(t), fd, reported, errorOrHangup, willing) == AssertFailed
      ensures r != Abort ==> Valid() && Dispatched(t) == EventTable.Dispatch(old(t), fd, reported, errorOrHangup, willing)
      ensures r == Success ==>
                var ready := if errorOrHangup then reported + old(t).fds[fd].events else reported;
                work == (if Read in ready then FiresAt(old(t), fd, Read) else [])
                      + (if Write in ready then FiresAt(old(t), fd, Write) else [])
    {
      DispatchKeepsInv(t, fd, reported, errorOrHangup, willing);
      var ready := if errorOrHangup then reported + fdContexts[fd].events else reported;
      assert ready == RealEvents(t, fd, reported, errorOrHangup);
      if fdContexts[fd].events * ready == {} {
        return Failure, [];
      }
      var ok := Reduce(fd, fdContexts[fd].events - ready, willing);
      if !ok {
        return Failure, [];
      }
      if Read in ready && Read !in fdContexts[fd].events {
        return Abort, [];
      }
      var first := TriggerIfWanted(fd, Read, Read in ready);
      if Write in ready && Write !in fdContexts[fd].events {
        return Abort, [];
      }
      var second := TriggerIfWanted(fd, Write, Write in ready);
      r, work := Success, first + second;
    }
  }
}
