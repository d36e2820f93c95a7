/** Whole runs of the timer operations. */
module TimerRuns {
  import opened Fibers
  import opened Timers

  datatype Op =
    | AddOp(addr: nat, start: nat, ms: nat, cb: Callback, recurring: bool)
    | CancelOp(addr: nat)
    | RefreshOp(addr: nat, now: nat)
    | ResetOp(addr: nat, ms: nat, fromNow: bool, now: nat)
    | NextOp(now: nat)
    | ExpireOp(now: nat, probe: nat)

  predicate Enabled(m: Manager, op: Op) {
    match op
    case AddOp(a, _, _, _, _) => a !in m.timers
    case CancelOp(a) => a in m.timers
    case RefreshOp(a, _) => a in m.timers
    case ResetOp(a, _, _, _) => a in m.timers
    case NextOp(_) => true
    case ExpireOp(_, _) => KeysKnown(m)
  }

  function Apply(m: Manager, op: Op): Manager {
    if !Enabled(m, op) then m else
      match op
      case AddOp(a, start, ms, cb, recurring) => AddTimer(m, a, start, ms, cb, recurring)
      case CancelOp(a) => Cancel(m, a).0
      case RefreshOp(a, now) => Refresh(m, a, now).0
      case ResetOp(a, ms, fromNow, now) => Reset(m, a, ms, fromNow, now).0
      case NextOp(now) => NextTimer(m, now).0
      case ExpireOp(now, probe) => ListExpired(m, now, probe).0
  }

  function After(m: Manager, ops: seq<Op>): Manager {
    if ops == [] then m else Apply(After(m, ops[..|ops| - 1]), ops[|ops| - 1])
  }

  lemma {:induction false} ApplyKeepsInv(m: Manager, op: Op)
    requires Inv(m)
    ensures Inv(Apply(m, op))
  {
    if Enabled(m, op) {
      match op
      case AddOp(a, start, ms, cb, recurring) => AddTimerKeepsInv(m, a, start, ms, cb, recurring);
      case CancelOp(a) => CancelKeepsInv(m, a);
      case RefreshOp(a, now) => RefreshKeepsInv(m, a, now);
      case ResetOp(a, ms, fromNow, now) => ResetKeepsInv(m, a, ms, fromNow, now);
      case NextOp(now) => SameSet(m, NextTimer(m, now).0);
      case ExpireOp(now, probe) => ListExpiredKeepsInv(m, now, probe);
    }
  }

  /** In every reachable state the set is sorted, its keys are those of its timers, a timer is in it
      exactly while it has its callback, and every timer's account balances. */
  lemma {:induction false} RunKeepsInv(t0: nat, ops: seq<Op>)
    ensures Inv(After(Initial(t0), ops))
  {
    if ops == [] {
      InitialInv(t0);
    } else {
      RunKeepsInv(t0, ops[..|ops| - 1]);
      ApplyKeepsInv(After(Initial(t0), ops[..|ops| - 1]), ops[|ops| - 1]);
    }
  }

  /** Over any run a one-shot timer is delivered at most once or cancelled at most once, never both, and
      it has had one of the two exactly when it is no longer in the set. */
  lemma {:induction false} OneShotEndsOnce(t0: nat, ops: seq<Op>, a: nat)
    requires a in After(Initial(t0), ops).timers && !After(Initial(t0), ops).timers[a].recurring
    ensures var m := After(Initial(t0), ops);
            var t := m.timers[a];
            && t.delivered + t.cancelled <= 1
            && (t.delivered + t.cancelled == 0 <==> exists k :: k in m.queue && k.addr == a)
  {
    RunKeepsInv(t0, ops);
    var m := After(Initial(t0), ops);
    assert Account(m.timers[a]);
    if m.timers[a].cb.Some? {
      assert KeyOf(m, a) in m.queue && KeyOf(m, a).addr == a;
    }
    forall k | k in m.queue && k.addr == a ensures m.timers[a].cb.Some? {
    }
  }

  /** `cancel` erases an element that is there, in every reachable state. */
  lemma {:induction false} CancelNeverErasesEnd(t0: nat, ops: seq<Op>, a: nat)
    requires a in After(Initial(t0), ops).timers
    ensures Cancel(After(Initial(t0), ops), a).1 != ErasedEnd
  {
    RunKeepsInv(t0, ops);
    CancelKeepsInv(After(Initial(t0), ops), a);
  }

  // ------------------------------------------------------------ the announcement of earlier deadlines

  /** A deadline before the one last reported; without timers none was reported. */
  predicate Below(reported: Option<nat>, next: nat) {
    reported.None? || next < reported.value
  }

  /** The earliest deadline is before the one last reported. */
  predicate EarlierThanReported(m: Manager) {
    m.queue != [] && Below(m.reported, m.queue[0].next)
  }

  /** An earlier deadline than reported has set the flag. */
  predicate Announced(m: Manager) {
    EarlierThanReported(m) ==> m.tickled
  }

  /** The call moves a timer before the reported deadline without an announcement: `refresh` and the
      re-arming of recurring timers skip the front test. */
  ghost predicate Hides(m: Manager, op: Op) {
    match op
    case RefreshOp(a, now) =>
      && a in m.timers && m.timers[a].cb.Some? && !m.tickled
      && Below(m.reported, Plus(now, m.timers[a].ms))
    case ExpireOp(now, probe) =>
      && KeysKnown(m) && !m.tickled
      && exists i :: && 0 <= i < ExpiredCount(m, now, probe)
                     && m.timers[m.queue[i].addr].recurring
                     && Below(m.reported, Plus(now, m.timers[m.queue[i].addr].ms))
    case _ => false
  }

  lemma {:induction false} EarlierIff(m: Manager)
    requires Sorted(m.queue)
    ensures EarlierThanReported(m) <==> exists k :: k in m.queue && Below(m.reported, k.next)
  {
    if m.queue != [] {
      assert m.queue[0] in m.queue;
      forall k | k in m.queue ensures m.queue[0].next <= k.next {
        FrontFirst(m.queue, k);
      }
    }
  }

  lemma {:induction false} FrontFirst(q: seq<Key>, k: Key)
    requires Sorted(q) && k in q
    ensures q[0].next <= k.next
  {
    var i :| 0 <= i < |q| && q[i] == k;
    if i > 0 {
      assert Less(q[0], q[i]);
    }
  }

  /** The earliest deadline has not moved forward. */
  lemma {:induction false} NotEarlier(m: Manager, u: Manager)
    requires u.tickled == m.tickled && u.reported == m.reported && Announced(m)
    requires u.queue != [] ==> m.queue != [] && m.queue[0].next <= u.queue[0].next
    ensures Announced(u)
  {
  }

  /** The private `addTimer` announces every timer that becomes the earliest. */
  lemma {:induction false} PutTimerAnnounces(m: Manager, a: nat)
    requires Sorted(m.queue) && a in m.timers && Announced(m)
    ensures Announced(PutTimer(m, a))
  {
    InsertKeepsOrder(m.queue, KeyOf(m, a));
  }

  lemma {:induction false} AddAnnounces(m: Manager, a: nat, start: nat, ms: nat, cb: Callback, recurring: bool)
    requires Inv(m) && Announced(m)
    ensures Announced(AddTimer(m, a, start, ms, cb, recurring))
  {
    PutTimerAnnounces(m.(timers := m.timers[a := Timer(recurring, ms, Plus(start, ms), Some(cb), 0, 0)]), a);
  }

  lemma {:induction false} CancelAnnounces(m: Manager, a: nat)
    requires Inv(m) && Announced(m) && a in m.timers
    ensures Announced(Cancel(m, a).0)
  {
    CancelKeepsInv(m, a);
    if m.timers[a].cb.Some? {
      FindFinds(m.queue, KeyOf(m, a));
      RemoveKeepsOrder(m.queue, Find(m.queue, KeyOf(m, a)).value);
      NotEarlier(m, Cancel(m, a).0);
    }
  }

  /** `reset` goes through the front test, so it announces whatever it does to the deadline. */
  lemma {:induction false} ResetAnnounces(m: Manager, a: nat, ms: nat, fromNow: bool, now: nat)
    requires Inv(m) && Announced(m) && a in m.timers
    ensures Announced(Reset(m, a, ms, fromNow, now).0)
  {
    var next := Plus(ResetStart(m.timers[a], fromNow, now), ms);
    TakeOutKeeps(m, a, ms, next);
    if m.timers[a].cb.Some? && !(ms == m.timers[a].ms && !fromNow) {
      var u := TakeOut(m, a, ms, next).value;
      NotEarlier(m, u);
      PutTimerAnnounces(u, a);
    }
  }

  lemma {:induction false} RefreshLeavesFlags(m: Manager, a: nat, now: nat)
    requires a in m.timers
    ensures var u := Refresh(m, a, now).0;
      u.tickled == m.tickled && u.notified == m.notified && u.reported == m.reported
  {
  }

  /** A refresh hides a deadline exactly when the new one is before the reported one and no
      announcement is pending. */
  lemma {:induction false} RefreshHidesExactly(m: Manager, a: nat, now: nat)
    requires Inv(m) && Announced(m) && a in m.timers
    ensures Announced(Refresh(m, a, now).0) <==> !Hides(m, RefreshOp(a, now))
  {
    var u := Refresh(m, a, now).0;
    RefreshKeepsInv(m, a, now);
    RefreshLeavesFlags(m, a, now);
    if m.timers[a].cb.Some? {
      EarlierIff(m);
      EarlierIff(u);
      var k := Key(Plus(now, m.timers[a].ms), a);
      assert k in u.queue;
    }
  }

  /** Where a key of the set comes from after an expiry. */
  lemma {:induction false} AfterExpiryKey(m: Manager, now: nat, probe: nat, k: Key)
    requires Inv(m) && k in ListExpired(m, now, probe).0.queue && k !in m.queue
    ensures exists i :: && 0 <= i < ExpiredCount(m, now, probe)
                        && m.timers[m.queue[i].addr].recurring
                        && k.next == Plus(now, m.timers[m.queue[i].addr].ms)
  {
    var n := ExpiredCount(m, now, probe);
    ListExpiredExactly(m, now, probe);
    assert k !in m.queue[n..];
    var i :| 0 <= i < n && m.queue[..n][i].addr == k.addr;
    assert m.queue[i].addr == k.addr;
  }

  lemma {:induction false} RearmedKey(m: Manager, now: nat, probe: nat, i: nat)
    requires Inv(m) && i < ExpiredCount(m, now, probe) && m.timers[m.queue[i].addr].recurring
    ensures var a := m.queue[i].addr; Key(Plus(now, m.timers[a].ms), a) in ListExpired(m, now, probe).0.queue
  {
    var n := ExpiredCount(m, now, probe);
    ListExpiredExactly(m, now, probe);
    assert m.queue[..n][i] == m.queue[i];
    assert m.queue[i].addr in Addrs(m.queue[..n]);
  }

  /** An expiry hides a deadline exactly when no announcement is pending and some recurring timer it
      takes is re-armed before the reported one; a rollover makes no exception. */
  lemma {:induction false} ExpiryHidesExactly(m: Manager, now: nat, probe: nat)
    requires Inv(m) && Announced(m)
    ensures Announced(ListExpired(m, now, probe).0) <==> !Hides(m, ExpireOp(now, probe))
  {
    var u := ListExpired(m, now, probe).0;
    ListExpiredKeepsInv(m, now, probe);
    ExpiryLeavesFlags(m, now, probe);
    EarlierIff(m);
    EarlierIff(u);
    if !m.tickled {
      if EarlierThanReported(u) {
        var k :| k in u.queue && Below(u.reported, k.next);
        AfterExpiryKey(m, now, probe, k);
      }
      if i :| 0 <= i < ExpiredCount(m, now, probe) && m.timers[m.queue[i].addr].recurring
              && Below(m.reported, Plus(now, m.timers[m.queue[i].addr].ms)) {
        RearmedKey(m, now, probe, i);
      }
    }
  }

  /** Whether an operation leaves an earlier deadline unannounced can be told before it is called. */
  lemma {:induction false} HidesExactly(m: Manager, op: Op)
    requires Inv(m) && Announced(m)
    ensures Announced(Apply(m, op)) <==> !Hides(m, op)
  {
    if Enabled(m, op) {
      match op
      case AddOp(a, start, ms, cb, recurring) => AddAnnounces(m, a, start, ms, cb, recurring);
      case CancelOp(a) => CancelAnnounces(m, a);
      case RefreshOp(a, now) => RefreshHidesExactly(m, a, now);
      case ResetOp(a, ms, fromNow, now) => ResetAnnounces(m, a, ms, fromNow, now);
      case NextOp(now) =>
      case ExpireOp(now, probe) => ExpiryHidesExactly(m, now, probe);
    }
  }

  /** The state before the i-th operation of a run. */
  function Before(t0: nat, ops: seq<Op>, i: nat): Manager
    requires i <= |ops|
  {
    After(Initial(t0), ops[..i])
  }

  ghost predicate NothingHidden(t0: nat, ops: seq<Op>) {
    forall i | 0 <= i < |ops| :: !Hides(Before(t0, ops, i), ops[i])
  }

  ghost predicate AlwaysAnnounced(t0: nat, ops: seq<Op>) {
    forall i | 0 <= i <= |ops| :: Announced(Before(t0, ops, i))
  }

  lemma {:induction false} BeforeNext(t0: nat, ops: seq<Op>, i: nat)
    requires i < |ops|
    ensures Before(t0, ops, i + 1) == Apply(Before(t0, ops, i), ops[i])
    ensures Inv(Before(t0, ops, i))
  {
    assert ops[..i + 1][..i] == ops[..i];
    RunKeepsInv(t0, ops[..i]);
  }

  lemma {:induction false} AnnouncedUpTo(t0: nat, ops: seq<Op>, i: nat)
    requires NothingHidden(t0, ops) && i <= |ops|
    ensures Announced(Before(t0, ops, i))
  {
    if i > 0 {
      AnnouncedUpTo(t0, ops, i - 1);
      BeforeNext(t0, ops, i - 1);
      HidesExactly(Before(t0, ops, i - 1), ops[i - 1]);
    }
  }

  /** Over every run, whatever the clock does: earlier deadlines are announced all along exactly when no
      operation hides one. */
  lemma {:induction false} AnnouncedExactly(t0: nat, ops: seq<Op>)
    ensures AlwaysAnnounced(t0, ops) <==> NothingHidden(t0, ops)
  {
    if NothingHidden(t0, ops) {
      forall i | 0 <= i <= |ops| ensures Announced(Before(t0, ops, i)) {
        AnnouncedUpTo(t0, ops, i);
      }
    }
    if AlwaysAnnounced(t0, ops) {
      forall i | 0 <= i < |ops| ensures !Hides(Before(t0, ops, i), ops[i]) {
        BeforeNext(t0, ops, i);
        assert Announced(Before(t0, ops, i)) && Announced(Before(t0, ops, i + 1));
        HidesExactly(Before(t0, ops, i), ops[i]);
      }
    }
  }

  lemma {:induction false} ApplyNotifies(m: Manager, op: Op)
    requires Inv(m) && (m.tickled ==> m.notified)
    ensures Apply(m, op).tickled ==> Apply(m, op).notified
  {
    if Enabled(m, op) {
      match op
      case RefreshOp(a, now) => RefreshLeavesFlags(m, a, now);
      case ExpireOp(now, probe) => ExpiryLeavesFlags(m, now, probe);
      case _ =>
    }
  }

  /** Over every run the flag is set only with a notification since the last report. */
  lemma {:induction false} TickledIsNotified(t0: nat, ops: seq<Op>)
    ensures After(Initial(t0), ops).tickled ==> After(Initial(t0), ops).notified
  {
    if ops != [] {
      TickledIsNotified(t0, ops[..|ops| - 1]);
      RunKeepsInv(t0, ops[..|ops| - 1]);
      ApplyNotifies(After(Initial(t0), ops[..|ops| - 1]), ops[|ops| - 1]);
    }
  }

  // ------------------------------------------------------------ with a clock that never goes back

  /** The operation reads a clock that has moved from `clock` to `clock'`: under the lock where the code
      does so, possibly before it in `addTimer` and `listExpiredCb`. Times are 64-bit words. */
  predicate OnTime(clock: nat, op: Op, clock': nat) {
    && clock <= clock' < TWO64
    && match op
       case AddOp(_, start, ms, _, _) => start <= clock' && ms < TWO64
       case CancelOp(_) => true
       case RefreshOp(_, now) => now == clock'
       case ResetOp(_, ms, _, now) => now == clock' && ms < TWO64
       case NextOp(now) => now == clock'
       case ExpireOp(now, _) => now <= clock'
  }

  /** A clock that does not go back is not taken for a rollover. */
  lemma {:induction false} ForwardIsNoRollover(previous: nat, now: nat)
    requires previous <= now
    ensures !Rollover(previous, now)
  {
  }

  predicate StartedBy(t: Timer, clock: nat) {
    t.ms < TWO64 && t.next < TWO64 && Minus(t.next, t.ms) <= clock
  }

  /** Every timer is counted from a time that has passed. */
  ghost predicate Started(m: Manager, clock: nat) {
    forall a :: a in m.timers ==> StartedBy(m.timers[a], clock)
  }

  lemma {:induction false} MinusPlus(start: nat, ms: nat)
    requires start < TWO64 && ms < TWO64
    ensures Plus(start, ms) < TWO64 && Minus(Plus(start, ms), ms) == start
    ensures Plus(start, ms) == if start + ms < TWO64 then start + ms else start + ms - TWO64
  {
  }

  lemma {:induction false} PlusMinus(next: nat, ms: nat)
    requires next < TWO64 && ms < TWO64
    ensures Minus(next, ms) < TWO64 && Plus(Minus(next, ms), ms) == next
  {
  }

  lemma {:induction false} TakenOutStarted(m: Manager, a: nat, ms: nat, start: nat, clock: nat)
    requires a in m.timers && Started(m, clock) && start <= clock < TWO64 && ms < TWO64
    ensures TakeOut(m, a, ms, Plus(start, ms)).Some? ==> Started(TakeOut(m, a, ms, Plus(start, ms)).value, clock)
  {
    MinusPlus(start, ms);
  }

  lemma {:induction false} ExpireStarted(m: Manager, clock: nat, now: nat, probe: nat)
    requires Inv(m) && Started(m, clock) && now <= clock < TWO64
    ensures Started(ListExpired(m, now, probe).0, clock)
  {
    ListExpiredExactly(m, now, probe);
    var u := ListExpired(m, now, probe).0;
    forall a | a in u.timers ensures StartedBy(u.timers[a], clock) {
      assert StartedBy(m.timers[a], clock);
      MinusPlus(now, m.timers[a].ms);
    }
  }

  lemma {:induction false} ApplyStarted(m: Manager, clock: nat, op: Op, clock': nat)
    requires Inv(m) && Started(m, clock) && OnTime(clock, op, clock')
    ensures Started(Apply(m, op), clock')
  {
    assert Started(m, clock');
    if Enabled(m, op) {
      match op
      case AddOp(a, start, ms, cb, recurring) => MinusPlus(start, ms);
      case CancelOp(a) =>
      case RefreshOp(a, now) => TakenOutStarted(m, a, m.timers[a].ms, now, clock');
      case ResetOp(a, ms, fromNow, now) =>
        PlusMinus(m.timers[a].next, m.timers[a].ms);
        TakenOutStarted(m, a, ms, ResetStart(m.timers[a], fromNow, now), clock');
      case NextOp(now) =>
      case ExpireOp(now, probe) => ExpireStarted(m, clock', now, probe);
    }
  }

  /** With time going forward a deadline gets hidden only by wrapping around 2^64, or by an expiry whose
      clock reading was so stale that it was taken for a rollover. */
  ghost predicate HidesLate(m: Manager, op: Op) {
    match op
    case RefreshOp(a, now) =>
      && a in m.timers && m.timers[a].cb.Some? && !m.tickled
      && now + m.timers[a].ms >= TWO64 && Below(m.reported, now + m.timers[a].ms - TWO64)
    case ExpireOp(now, probe) =>
      && KeysKnown(m) && !m.tickled
      && exists i :: && 0 <= i < ExpiredCount(m, now, probe)
                     && m.timers[m.queue[i].addr].recurring
                     && WrapsOrRolls(m, now, m.timers[m.queue[i].addr].ms)
    case _ => false
  }

  predicate WrapsOrRolls(m: Manager, now: nat, ms: nat) {
    if now + ms >= TWO64 then Below(m.reported, now + ms - TWO64)
    else Rollover(m.previous, now) && Below(m.reported, now + ms)
  }

  lemma {:induction false} NotBelowFront(m: Manager)
    requires Announced(m) && !m.tickled && m.queue != []
    ensures m.reported.Some? && m.reported.value <= m.queue[0].next
  {
  }

  lemma {:induction false} RefreshHidesByWrapping(m: Manager, clock: nat, a: nat, now: nat)
    requires Inv(m) && Announced(m) && Started(m, clock) && clock <= now < TWO64
    ensures Hides(m, RefreshOp(a, now)) <==> HidesLate(m, RefreshOp(a, now))
  {
    if a in m.timers && m.timers[a].cb.Some? && !m.tickled {
      var t := m.timers[a];
      assert StartedBy(t, clock) && KeyOf(m, a) in m.queue;
      MinusPlus(now, t.ms);
      PlusMinus(t.next, t.ms);
      MinusPlus(Minus(t.next, t.ms), t.ms);
      FrontFirst(m.queue, KeyOf(m, a));
      NotBelowFront(m);
    }
  }

  lemma {:induction false} ExpiryHidesByWrapping(m: Manager, clock: nat, now: nat, probe: nat)
    requires Inv(m) && Announced(m) && Started(m, clock) && now < TWO64
    ensures Hides(m, ExpireOp(now, probe)) <==> HidesLate(m, ExpireOp(now, probe))
  {
    if !m.tickled && ExpiredCount(m, now, probe) > 0 {
      NotBelowFront(m);
      ExpiredAreTheDue(m, now, probe);
      forall i | 0 <= i < ExpiredCount(m, now, probe)
        ensures var ms := m.timers[m.queue[i].addr].ms; Below(m.reported, Plus(now, ms)) <==> WrapsOrRolls(m, now, ms)
      {
        assert StartedBy(m.timers[m.queue[i].addr], clock);
        MinusPlus(now, m.timers[m.queue[i].addr].ms);
      }
    }
  }

  /** The operations of a run read a clock that shows `clocks[i]` before the i-th of them. */
  ghost predicate TimedRun(ops: seq<Op>, clocks: seq<nat>) {
    && |clocks| == |ops| + 1
    && forall i :: 0 <= i < |ops| ==> OnTime(clocks[i], ops[i], clocks[i + 1])
  }

  lemma {:induction false} StartedUpTo(ops: seq<Op>, clocks: seq<nat>, i: nat)
    requires TimedRun(ops, clocks) && i <= |ops|
    ensures Started(Before(clocks[0], ops, i), clocks[i])
  {
    if i > 0 {
      StartedUpTo(ops, clocks, i - 1);
      BeforeNext(clocks[0], ops, i - 1);
      ApplyStarted(Before(clocks[0], ops, i - 1), clocks[i - 1], ops[i - 1], clocks[i]);
    }
  }

  lemma {:induction false} HidingIsLate(ops: seq<Op>, clocks: seq<nat>, i: nat)
    requires TimedRun(ops, clocks) && i < |ops| && Announced(Before(clocks[0], ops, i))
    ensures Hides(Before(clocks[0], ops, i), ops[i]) <==> HidesLate(Before(clocks[0], ops, i), ops[i])
  {
    var m := Before(clocks[0], ops, i);
    StartedUpTo(ops, clocks, i);
    BeforeNext(clocks[0], ops, i);
    assert OnTime(clocks[i], ops[i], clocks[i + 1]);
    match ops[i]
    case RefreshOp(a, now) => RefreshHidesByWrapping(m, clocks[i], a, now);
    case ExpireOp(now, probe) => ExpiryHidesByWrapping(m, clocks[i], now, probe);
    case _ =>
  }

  ghost predicate NothingLate(ops: seq<Op>, clocks: seq<nat>)
    requires TimedRun(ops, clocks)
  {
    forall i | 0 <= i < |ops| :: !HidesLate(Before(clocks[0], ops, i), ops[i])
  }

  lemma {:induction false} AnnouncedWithoutWrapping(ops: seq<Op>, clocks: seq<nat>, i: nat)
    requires TimedRun(ops, clocks) && NothingLate(ops, clocks) && i <= |ops|
    ensures Announced(Before(clocks[0], ops, i))
  {
    if i > 0 {
      AnnouncedWithoutWrapping(ops, clocks, i - 1);
      HidingIsLate(ops, clocks, i - 1);
      BeforeNext(clocks[0], ops, i - 1);
      HidesExactly(Before(clocks[0], ops, i - 1), ops[i - 1]);
    }
  }

  /** With a clock that never goes back, over every run: earlier deadlines than the last one reported are
      announced all along, with the flag set and a notification since the report, if and only if no
      refreshed or re-armed deadline wraps around below the reported one and no stale reading of the
      clock that was taken for a rollover re-arms one below it. */
  lemma {:induction false} EarlierDeadlineIsAnnounced(ops: seq<Op>, clocks: seq<nat>)
    requires TimedRun(ops, clocks)
    ensures NothingLate(ops, clocks) <==>
      forall i | 0 <= i <= |ops| ::
        EarlierThanReported(Before(clocks[0], ops, i)) ==>
          Before(clocks[0], ops, i).tickled && Before(clocks[0], ops, i).notified
  {
    forall i | 0 <= i <= |ops| ensures Before(clocks[0], ops, i).tickled ==> Before(clocks[0], ops, i).notified {
      TickledIsNotified(clocks[0], ops[..i]);
    }
    if NothingLate(ops, clocks) {
      forall i | 0 <= i <= |ops| ensures Announced(Before(clocks[0], ops, i)) {
        AnnouncedWithoutWrapping(ops, clocks, i);
      }
    }
    if AlwaysAnnounced(clocks[0], ops) {
      AnnouncedExactly(clocks[0], ops);
      forall i | 0 <= i < |ops| ensures !HidesLate(Before(clocks[0], ops, i), ops[i]) {
        HidingIsLate(ops, clocks, i);
      }
    }
  }

  // ------------------------------------------------------------ deadlines that do get hidden

  lemma {:induction false} AfterNext(t0: nat, ops: seq<Op>, op: Op)
    ensures After(Initial(t0), ops + [op]) == Apply(After(Initial(t0), ops), op)
  {
    assert (ops + [op])[..|ops|] == ops;
  }

  /** One timer, started when the manager was made. */
  function OneTimer(t0: nat, ms: nat, recurring: bool): Manager {
    Manager(map[1 := Timer(recurring, ms, t0 + ms, Some(UserCallback(0)), 0, 0)], [Key(t0 + ms, 1)], true, t0, None, true)
  }

  lemma {:induction false} OneAdded(t0: nat, ms: nat, recurring: bool)
    requires t0 + ms < TWO64
    ensures After(Initial(t0), [AddOp(1, t0, ms, UserCallback(0), recurring)]) == OneTimer(t0, ms, recurring)
    ensures Inv(OneTimer(t0, ms, recurring))
  {
    var op := AddOp(1, t0, ms, UserCallback(0), recurring);
    assert [] + [op] == [op];
    AfterNext(t0, [], op);
    MinusPlus(t0, ms);
    var m := Apply(Initial(t0), op);
    assert m.queue == [Key(t0 + ms, 1)];
    assert m.timers == map[1 := Timer(recurring, ms, t0 + ms, Some(UserCallback(0)), 0, 0)];
    RunKeepsInv(t0, [op]);
  }

  /** A timer of the longest period, refreshed one tick later, comes due at once and unannounced. */
  lemma {:induction false} WrappedRefreshIsHidden()
    ensures var ops := [AddOp(1, 0, TWO64 - 1, UserCallback(0), false), NextOp(0), RefreshOp(1, 1)];
      var m := After(Initial(0), ops);
      TimedRun(ops, [0, 0, 0, 1]) && EarlierThanReported(m) && !m.tickled && !m.notified
  {
    var a, b, c := AddOp(1, 0, TWO64 - 1, UserCallback(0), false), NextOp(0), RefreshOp(1, 1);
    OneAdded(0, TWO64 - 1, false);
    AfterNext(0, [a], b);
    AfterNext(0, [a, b], c);
    assert [a] + [b] == [a, b] && [a, b] + [c] == [a, b, c];
    var u := After(Initial(0), [a, b]);
    RunKeepsInv(0, [a, b]);
    assert Plus(1, TWO64 - 1) == 0;
    HidesExactly(u, c);
    RefreshLeavesFlags(u, 1, 1);
  }

  /** A recurring timer that is due goes back into the set. */
  lemma {:induction false} OneFires(m: Manager, now: nat)
    requires m == OneTimer(0, 10, true) && 10 <= now && now + 10 < TWO64
    ensures Apply(m, ExpireOp(now, 2)) ==
      m.(timers := map[1 := Timer(true, 10, now + 10, Some(UserCallback(0)), 1, 0)], queue := [Key(now + 10, 1)], previous := now)
  {
    ForwardIsNoRollover(0, now);
    ExpiredAreTheDue(m, now, 2);
    assert m.queue[0].next <= now && ExpiredCount(m, now, 2) == 1;
    var v := m.(previous := now, queue := []);
    assert m.queue[1..] == [] && m.queue[..1] == m.queue && m.queue[..0] == [];
    assert Fire(v, [], now) == (v, []);
    assert Fire(v, m.queue, now).0 == FireOne(v, 1, now);
    MinusPlus(now, 10);
    assert Insert([], Key(now + 10, 1)) == [Key(now + 10, 1)];
  }

  /** The timer fires two hours later, and the new deadline is reported. */
  lemma {:induction false} OneFiredAndReported() returns (u: Manager)
    ensures u == After(Initial(0), [AddOp(1, 0, 10, UserCallback(0), true), ExpireOp(2 * HOUR, 2), NextOp(2 * HOUR)])
    ensures u == Manager(map[1 := Timer(true, 10, 2 * HOUR + 10, Some(UserCallback(0)), 1, 0)],
                         [Key(2 * HOUR + 10, 1)], false, 2 * HOUR, Some(2 * HOUR + 10), false)
  {
    var a, b, c := AddOp(1, 0, 10, UserCallback(0), true), ExpireOp(2 * HOUR, 2), NextOp(2 * HOUR);
    OneAdded(0, 10, true);
    AfterNext(0, [a], b);
    OneFires(OneTimer(0, 10, true), 2 * HOUR);
    AfterNext(0, [a, b], c);
    assert [a] + [b] == [a, b] && [a, b] + [c] == [a, b, c];
    u := After(Initial(0), [a, b, c]);
  }

  /** A thread that stalled for more than an hour between reading the clock and taking the lock re-arms a
      recurring timer in the past, although the clock never went back and every reading was taken after
      the manager was made. */
  lemma {:induction false} StaleExpiryIsHidden()
    ensures var ops := [AddOp(1, 0, 10, UserCallback(0), true), ExpireOp(2 * HOUR, 2), NextOp(2 * HOUR), ExpireOp(0, 2)];
      var m := After(Initial(0), ops);
      TimedRun(ops, [0, 0, 2 * HOUR, 2 * HOUR, 2 * HOUR]) && EarlierThanReported(m) && !m.tickled && !m.notified
  {
    var ops, op := [AddOp(1, 0, 10, UserCallback(0), true), ExpireOp(2 * HOUR, 2), NextOp(2 * HOUR)], ExpireOp(0, 2);
    var u := OneFiredAndReported();
    AfterNext(0, ops, op);
    assert ops + [op] == [ops[0], ops[1], ops[2], op];
    RunKeepsInv(0, ops);
    StaleReadingHides(u);
    HidesExactly(u, op);
    ExpiryLeavesFlags(u, 0, 2);
  }

  lemma {:induction false} StaleReadingHides(u: Manager)
    requires Inv(u) && u.timers == map[1 := Timer(true, 10, 2 * HOUR + 10, Some(UserCallback(0)), 1, 0)]
    requires u.queue == [Key(2 * HOUR + 10, 1)] && !u.tickled && u.previous == 2 * HOUR && u.reported == Some(2 * HOUR + 10)
    ensures Hides(u, ExpireOp(0, 2))
  {
    RolloverExactly(2 * HOUR, 0);
    ExpiredAreTheDue(u, 0, 2);
    assert ExpiredCount(u, 0, 2) == 1;
    assert u.timers[u.queue[0].addr].recurring && Below(u.reported, Plus(0, u.timers[u.queue[0].addr].ms));
  }
}
