/** Whole runs of the event operations on the descriptor table. */
module EventRuns {
  import opened Fibers
  import opened EventTable

  datatype Op =
    | AddOp(fd: nat, ev: Event, owner: Owner, willing: bool)
    | DelOp(fd: nat, ev: Event, willing: bool)
    | CancelOp(fd: nat, ev: Event, willing: bool)
    | CancelAllOp(fd: nat, willing: bool)
    | ReportOp(fd: nat, reported: set<Event>, errorOrHangup: bool, willing: bool)

  /** The table after one operation; None when an assertion of the program failed. */
  function Apply(t: Table, op: Op): Option<Table> {
    match op
    case AddOp(fd, ev, owner, willing) =>
      if |t.fds| < 2 then None else
        (match AddEvent(t, fd, ev, owner, willing)
         case Added(u) => Some(u)
         case Refused(u) => Some(u)
         case Aborted => None)
    case DelOp(fd, ev, willing) => Some(DelEvent(t, fd, ev, willing))
    case CancelOp(fd, ev, willing) => Some(CancelEvent(t, fd, ev, willing))
    case CancelAllOp(fd, willing) => Some(CancelAll(t, fd, willing))
    case ReportOp(fd, reported, err, willing) =>
      if fd >= |t.fds| then Some(t) else
        match Dispatch(t, fd, reported, err, willing)
        case Dispatched(u) => Some(u)
        case AssertFailed => None
  }

  function After(ops: seq<Op>): Option<Table> {
    if ops == [] then Some(Initial()) else
      var t := After(ops[..|ops| - 1]);
      if t.None? then None else Apply(t.value, ops[|ops| - 1])
  }

  /** What makes an assertion of the program fail: adding what is there, or a report that names a
      registered event together with one that is not registered. */
  predicate Fatal(t: Table, op: Op) {
    match op
    case AddOp(fd, ev, _, _) => ev in Registered(t, fd)
    case ReportOp(fd, reported, err, willing) =>
      && fd < |t.fds| && willing
      && RealEvents(t, fd, reported, err) * Registered(t, fd) != {}
      && !(RealEvents(t, fd, reported, err) <= Registered(t, fd))
    case _ => false
  }

  lemma {:induction false} ApplyKeepsInv(t: Table, op: Op)
    requires Inv(t)
    ensures Apply(t, op).None? <==> Fatal(t, op)
    ensures Apply(t, op).Some? ==> Inv(Apply(t, op).value)
  {
    match op
    case AddOp(fd, ev, owner, willing) => AddEventKeepsInv(t, fd, ev, owner, willing);
    case DelOp(fd, ev, willing) => DelEventKeepsInv(t, fd, ev, willing);
    case CancelOp(fd, ev, willing) => CancelEventKeepsInv(t, fd, ev, willing);
    case CancelAllOp(fd, willing) => CancelAllKeepsInv(t, fd, willing);
    case ReportOp(fd, reported, err, willing) =>
      if fd < |t.fds| {
        DispatchKeepsInv(t, fd, reported, err, willing);
      }
  }

  lemma {:induction false} RunKeepsInv(ops: seq<Op>)
    ensures After(ops).Some? ==> Inv(After(ops).value)
  {
    if ops == [] {
      InitialInv();
    } else {
      RunKeepsInv(ops[..|ops| - 1]);
      var t := After(ops[..|ops| - 1]);
      if t.Some? {
        ApplyKeepsInv(t.value, ops[|ops| - 1]);
      }
    }
  }

  /** After every run the kernel watches each descriptor for exactly its registered events, the pending
      count is the number of registered bits and equals additions minus deletions minus triggers, and a
      bit is set exactly when its context holds a scheduler and one of fiber and callback. */
  lemma {:induction false} KernelMirrorsTable(ops: seq<Op>, fd: nat)
    requires After(ops).Some?
    ensures var t := After(ops).value;
            && (fd in t.kernel <==> Registered(t, fd) != {})
            && (fd in t.kernel ==> t.kernel[fd] == Registered(t, fd))
            && t.pending == CountBits(t.fds) == t.adds - t.dels - |t.woken|
            && (fd < |t.fds| ==> FdOk(t.fds[fd]))
  {
    RunKeepsInv(ops);
  }

  /** The run goes on unless the operation is fatal: no assertion fails otherwise. */
  lemma {:induction false} OnlyFatalAborts(ops: seq<Op>, op: Op)
    requires After(ops).Some?
    ensures After(ops + [op]).None? <==> Fatal(After(ops).value, op)
  {
    RunKeepsInv(ops);
    assert (ops + [op])[..|ops|] == ops;
    ApplyKeepsInv(After(ops).value, op);
  }

  /** A report of both events that was fetched before one of them was cancelled aborts the process when
      it is handled afterwards, whatever came before. */
  lemma {:induction false} StaleReportAborts(ops: seq<Op>, fd: nat, ev: Event)
    requires After(ops).Some? && Registered(After(ops).value, fd) == {Read, Write}
    ensures After(ops + [CancelOp(fd, ev, true)]).Some?
    ensures After(ops + [CancelOp(fd, ev, true)] + [ReportOp(fd, {Read, Write}, false, true)]).None?
  {
    var t, c := After(ops).value, CancelOp(fd, ev, true);
    RunKeepsInv(ops);
    assert (ops + [c])[..|ops|] == ops;
    CancelEventKeepsInv(t, fd, ev, true);
    var u := Shrink(t, fd, t.fds[fd].events - {ev});
    TriggerKeepsCore(u, fd, ev);
    assert ev !in Registered(After(ops + [c]).value, fd);
    assert (if ev.Read? then Write else Read) in Registered(After(ops + [c]).value, fd);
    OnlyFatalAborts(ops + [c], ReportOp(fd, {Read, Write}, false, true));
  }

  lemma {:induction false} CanBeRegistered(t: Table, fd: nat, ev: Event, owner: Owner)
    requires Inv(t) && ev !in Registered(t, fd)
    ensures var u := Apply(t, AddOp(fd, ev, owner, true));
      u.Some? && Inv(u.value) && Registered(u.value, fd) == Registered(t, fd) + {ev}
  {
    AddEventKeepsInv(t, fd, ev, owner, true);
  }

  /** There is such a run for every descriptor: register the reader, then the writer. */
  lemma {:induction false} BothCanBeRegistered(fd: nat, f: FiberId, g: FiberId)
    ensures var ops := [AddOp(fd, Read, OwnFiber(f), true), AddOp(fd, Write, OwnFiber(g), true)];
      After(ops).Some? && Registered(After(ops).value, fd) == {Read, Write}
  {
    var a, b := AddOp(fd, Read, OwnFiber(f), true), AddOp(fd, Write, OwnFiber(g), true);
    var t := Initial();
    InitialInv();
    assert Registered(t, fd) == {};
    CanBeRegistered(t, fd, Read, OwnFiber(f));
    CanBeRegistered(Apply(t, a).value, fd, Write, OwnFiber(g));
    assert [a][..0] == [] && [a, b][..1] == [a];
    assert After([]) == Some(t) && After([a]) == Apply(t, a);
    assert {} + {Read} + {Write} == {Read, Write};
  }
}
