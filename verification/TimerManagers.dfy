/** The timer objects and their manager, whose methods carry out the operations of `Timers`. */
module TimerManagers {
  import opened Fibers
  import opened Timers

  class TimerObject {
    const addr: nat
    const recurring: bool
    var ms: nat
    var next: nat
    var cb: Option<Callback>

    constructor (addr: nat, start: nat, ms: nat, cb: Callback, recurring: bool)
      ensures this.addr == addr && this.recurring == recurring && this.ms == ms
      ensures next == Plus(start, ms) && this.cb == Some(cb)
    {
      this.addr, this.recurring, this.ms := addr, recurring, ms;
      this.next, this.cb := Plus(start, ms), Some(cb);
    }

    ghost predicate Matches(t: Timer)
      reads this
    {
      recurring == t.recurring && ms == t.ms && next == t.next && cb == t.cb
    }
  }

  /** The objects `ts` stand in the order of the keys `q`. */
  ghost predicate Listed(ts: seq<TimerObject>, q: seq<Key>, all: map<nat, TimerObject>) {
    && |ts| == |q|
    && forall i :: 0 <= i < |q| ==> q[i].addr in all && ts[i] == all[q[i].addr]
  }

  lemma {:induction false} ListedInsert(ts: seq<TimerObject>, q: seq<Key>, all: map<nat, TimerObject>, i: nat,
                                        t: TimerObject, k: Key)
    requires Listed(ts, q, all) && i <= |q| && k.addr in all && all[k.addr] == t
    ensures Listed(ts[..i] + [t] + ts[i..], q[..i] + [k] + q[i..], all)
  {
  }

  lemma {:induction false} ListedRemove(ts: seq<TimerObject>, q: seq<Key>, all: map<nat, TimerObject>, i: nat)
    requires Listed(ts, q, all) && i < |q|
    ensures Listed(ts[..i] + ts[i + 1..], q[..i] + q[i + 1..], all)
  {
  }

  class TimerManager {
    var timers: seq<TimerObject>              // the set, in its order
    var tickled: bool
    var previous: nat
    ghost var m: Manager
    ghost var all: map<nat, TimerObject>      // every timer made here, by address

    /** The objects hold what the model says. */
    ghost predicate Mirrors()
      reads this, all.Values
    {
      && all.Keys == m.timers.Keys
      && (forall a :: a in all ==> all[a].addr == a && all[a].Matches(m.timers[a]))
      && Listed(timers, m.queue, all)
      && tickled == m.tickled && previous == m.previous
    }

    ghost predicate Valid()
      reads this, all.Values
    {
      Mirrors() && Inv(m)
    }

    ghost predicate Mine(t: TimerObject)
      reads this`all
    {
      t.addr in all && all[t.addr] == t
    }

    constructor (now: nat)
      ensures Valid() && m == Initial(now)
    {
      timers, tickled, previous := [], false, now;
      m, all := Initial(now), map[];
      new;
      InitialInv(now);
    }

    // ------------------------------------------------------------ the ordered set

    method LowerBoundOf(k: Key) returns (i: nat)
      requires Mirrors() && Sorted(m.queue) && KeysKnown(m)
      ensures i == LowerBound(m.queue, k)
    {
      i := 0;
      while i < |timers| && Less(Key(timers[i].next, timers[i].addr), k)
        invariant i <= |timers| && forall j :: 0 <= j < i ==> Less(m.queue[j], k)
      {
        i := i + 1;
      }
      LowerBoundIs(m.queue, k, i);
    }

    method InsertTimer(t: TimerObject) returns (first: bool)
      requires Mirrors() && Sorted(m.queue) && KeysKnown(m) && Mine(t)
      modifies this`timers, this`m
      ensures Mirrors() && m == old(m.(queue := Insert(m.queue, KeyOf(m, t.addr))))
      ensures first == (m.queue != [] && m.queue[0] == KeyOf(m, t.addr))
    {
      var k := Key(t.next, t.addr);
      var i := LowerBoundOf(k);
      var there := i < |timers| && !Less(k, Key(timers[i].next, timers[i].addr));
      first := i == 0;
      ghost var q := Insert(m.queue, k);
      FrontOfInsert(m.queue, k);
      if !there {
        ListedInsert(timers, m.queue, all, i, t, k);
        timers := timers[..i] + [t] + timers[i..];
      }
      m := m.(queue := q);
    }

    method EraseTimer(t: TimerObject) returns (found: bool)
      requires Mirrors() && Sorted(m.queue) && KeysKnown(m) && Mine(t)
      modifies this`timers, this`m
      ensures Mirrors() && found == old(Find(m.queue, KeyOf(m, t.addr))).Some?
      ensures !found ==> m == old(m)
      ensures found ==> old(Find(m.queue, KeyOf(m, t.addr))).value < |old(m.queue)|
                        && m == old(m.(queue := RemoveAt(m.queue, Find(m.queue, KeyOf(m, t.addr)).value)))
    {
      var k := Key(t.next, t.addr);
      var i := LowerBoundOf(k);
      found := i < |timers| && !Less(k, Key(timers[i].next, timers[i].addr));
      if found {
        ListedRemove(timers, m.queue, all, i);
        timers := timers[..i] + timers[i + 1..];
        m := m.(queue := RemoveAt(m.queue, i));
      }
    }

    /** Changes a timer object. */
    method SetFields(t: TimerObject, ms: nat, next: nat, cb: Option<Callback>, ghost rec: Timer)
      requires Mirrors() && Mine(t)
      requires rec.recurring == t.recurring && rec.ms == ms && rec.next == next && rec.cb == cb
      modifies t, this`m
      ensures Mirrors() && m == old(m.(timers := m.timers[t.addr := rec]))
    {
      t.ms, t.next, t.cb := ms, next, cb;
      m := m.(timers := m.timers[t.addr := rec]);
    }

    /** The common part of `refresh` and `reset`: out of the set and changed, if the timer is armed. */
    method TakeOutTimer(t: TimerObject, ms: nat, next: nat) returns (ok: bool)
      requires Valid() && Mine(t)
      modifies this`timers, this`m, t
      ensures Mirrors() && ok == old(t.cb).Some? == TakeOut(old(m), t.addr, ms, next).Some?
      ensures m == if ok then TakeOut(old(m), t.addr, ms, next).value else old(m)
      ensures ok ==> InvExcept(m, {t.addr})
    {
      TakeOutKeeps(m, t.addr, ms, next);
      if t.cb.None? {
        return false;
      }
      ghost var rec := m.timers[t.addr].(ms := ms, next := next);
      ok := EraseTimer(t);
      SetFields(t, ms, next, t.cb, rec);
    }

    // ------------------------------------------------------------ operations

    /** The private `addTimer`. */
    method PutIn(t: TimerObject) returns (notify: bool)
      requires Mirrors() && InvExcept(m, {t.addr}) && Mine(t)
      modifies this`timers, this`m, this`tickled
      ensures Valid() && m == old(PutTimer(m, t.addr))
      ensures notify == (tickled && !old(tickled))
    {
      PutTimerKeepsInv(m, t.addr);
      notify := PutInSet(t);
    }

    method PutInSet(t: TimerObject) returns (notify: bool)
      requires Mirrors() && Sorted(m.queue) && KeysKnown(m) && Mine(t)
      modifies this`timers, this`m, this`tickled
      ensures Mirrors() && m == old(PutTimer(m, t.addr))
      ensures notify == (tickled && !old(tickled))
    {
      ghost var before := m;
      var first := InsertTimer(t);
      notify := first && !tickled;
      if notify {
        tickled := true;
      }
      m := PutTimer(before, t.addr);
    }

    method AddTimer(addr: nat, start: nat, ms: nat, cb: Callback, recurring: bool)
      returns (t: TimerObject, notify: bool)
      requires Valid() && addr !in all
      modifies this
      ensures Valid() && fresh(t) && Mine(t) && all == old(all)[addr := t]
      ensures m == Timers.AddTimer(old(m), addr, start, ms, cb, recurring)
      ensures notify == (tickled && !old(tickled))
    {
      t := new TimerObject(addr, start, ms, cb, recurring);
      AddedIsOutside(m, addr, start, ms, cb, recurring);
      all := all[addr := t];
      m := m.(timers := m.timers[addr := Timer(recurring, ms, Plus(start, ms), Some(cb), 0, 0)]);
      notify := PutIn(t);
    }

    /** `cancel`: true exactly when the timer was armed; the element it erases is there. */
    method Cancel(t: TimerObject) returns (ok: bool)
      requires Valid() && Mine(t)
      modifies this`timers, this`m, t
      ensures Valid() && m == Timers.Cancel(old(m), t.addr).0
      ensures ok == old(t.cb).Some?
    {
      CancelKeepsInv(m, t.addr);
      if t.cb.None? {
        return false;
      }
      ghost var rec := m.timers[t.addr].(cb := None, cancelled := m.timers[t.addr].cancelled + 1);
      ok := EraseTimer(t);
      SetFields(t, t.ms, t.next, None, rec);
    }

    /** `refresh`: true exactly when the timer was armed. */
    method Refresh(t: TimerObject, now: nat) returns (ok: bool)
      requires Valid() && Mine(t)
      modifies this`timers, this`m, t
      ensures Valid() && (m, ok) == Timers.Refresh(old(m), t.addr, now)
      ensures ok == old(t.cb).Some?
    {
      RefreshKeepsInv(m, t.addr, now);
      ok := TakeOutTimer(t, t.ms, Plus(now, t.ms));
      if ok {
        var _ := InsertTimer(t);
      }
    }

    /** `reset`. */
    method Reset(t: TimerObject, ms: nat, fromNow: bool, now: nat) returns (ok: bool, notify: bool)
      requires Valid() && Mine(t)
      modifies this`timers, this`m, this`tickled, t
      ensures Valid() && (m, ok) == Timers.Reset(old(m), t.addr, ms, fromNow, now)
      ensures notify == (tickled && !old(tickled))
    {
      notify := false;
      if ms == t.ms && !fromNow {
        return true, false;
      }
      var start := if fromNow then now else Minus(t.next, t.ms);
      ok := TakeOutTimer(t, ms, Plus(start, ms));
      if ok {
        notify := PutIn(t);
      }
    }

    /** `getNextTimer`. */
    method GetNextTimer(now: nat) returns (ms: nat)
      requires Valid()
      modifies this`tickled, this`m
      ensures Valid() && (m, ms) == NextTimer(old(m), now)
    {
      SameSet(m, NextTimer(m, now).0);
      tickled := false;
      if |timers| == 0 {
        ms := TWO64 - 1;
      } else if now >= timers[0].next {
        ms := 0;
      } else {
        ms := timers[0].next - now;
      }
      m := NextTimer(m, now).0;
    }

    // ------------------------------------------------------------ expiry

    /** `detectClockRollover`. */
    method DetectClockRollover(now: nat) returns (rollover: bool)
      requires Mirrors()
      modifies this`previous, this`m
      ensures Mirrors() && m == old(m).(previous := now) && rollover == Rollover(old(previous), now)
    {
      rollover := now < previous && now < Minus(previous, HOUR);
      previous := now;
      m := m.(previous := now);
    }

    /** Where the expired timers end. */
    method ExpiredEnd(now: nat, probe: nat, rollover: bool) returns (n: nat)
      requires Mirrors() && Sorted(m.queue) && KeysKnown(m)
      ensures n == SkipEqual(m.queue, if rollover then |m.queue| else LowerBound(m.queue, Key(now, probe)), now)
    {
      if rollover {
        n := |timers|;
      } else {
        n := LowerBoundOf(Key(now, probe));
      }
      ghost var goal := SkipEqual(m.queue, n, now);
      while n < |timers| && timers[n].next == now
        invariant n <= |timers| && SkipEqual(m.queue, n, now) == goal
      {
        n := n + 1;
      }
    }

    /** A recurring timer goes back into the set. */
    method Rearm(t: TimerObject, next: nat, ghost rec: Timer, ghost out: set<nat>)
      requires Mirrors() && InvExcept(m, out) && Mine(t) && t.addr in out
      requires t.Matches(rec.(next := t.next)) && rec.next == next && rec.cb.Some? && Account(rec)
      modifies this`timers, this`m, t
      ensures Mirrors()
      ensures m == old(m.(timers := m.timers[t.addr := rec], queue := Insert(m.queue, Key(next, t.addr))))
    {
      ChangeOutside(m, t.addr, rec, out);
      SetFields(t, t.ms, next, t.cb, rec);
      var _ := InsertTimer(t);
    }

    /** One round of the loop over the expired timers. */
    method FireTimer(t: TimerObject, now: nat, ghost out: set<nat>) returns (cb: Option<Callback>)
      requires Mirrors() && InvExcept(m, out) && Mine(t) && t.addr in out
      modifies this`timers, this`m, t
      ensures Mirrors() && InvExcept(m, out - {t.addr})
      ensures m == FireOne(old(m), t.addr, now) && cb == old(m.timers[t.addr].cb)
    {
      FireOneKeeps(m, t.addr, now, out);
      cb := t.cb;
      ghost var rec := m.timers[t.addr].(delivered := m.timers[t.addr].delivered + 1);
      if t.recurring {
        Rearm(t, Plus(now, t.ms), rec.(next := Plus(now, t.ms)), out);
      } else {
        SetFields(t, t.ms, t.next, None, rec.(cb := None));
      }
    }

    method FireAnother(t: TimerObject, now: nat, cbs: seq<Option<Callback>>, ghost ks: seq<Key>, ghost i: nat, ghost m0: Manager)
      returns (more: seq<Option<Callback>>)
      requires Mirrors() && DistinctAddrs(ks) && i < |ks| && Mine(t) && t.addr == ks[i].addr
      requires InvExcept(m, Addrs(ks[i..])) && forall j :: 0 <= j < |ks| ==> ks[j].addr in m0.timers
      requires (m, cbs) == Fire(m0, ks[..i], now)
      modifies this`timers, this`m, t
      ensures Mirrors() && InvExcept(m, Addrs(ks[i + 1..])) && m.timers.Keys == old(m.timers.Keys)
      ensures (m, more) == Fire(m0, ks[..i + 1], now)
    {
      FireNext(m0, ks, i, now);
      var cb := FireTimer(t, now, Addrs(ks[i..]));
      more := cbs + [cb];
    }

    /** The loop over the expired timers. */
    method FireAll(expired: seq<TimerObject>, now: nat, ghost ks: seq<Key>) returns (cbs: seq<Option<Callback>>)
      requires Mirrors() && Listed(expired, ks, all) && DistinctAddrs(ks) && InvExcept(m, Addrs(ks))
      modifies this`timers, this`m, all.Values
      ensures Valid() && (forall i :: 0 <= i < |ks| ==> ks[i].addr in old(m.timers))
      ensures (m, cbs) == Fire(old(m), ks, now)
    {
      ghost var m0 := m;
      cbs := [];
      for i := 0 to |expired|
        invariant Mirrors() && InvExcept(m, Addrs(ks[i..])) && m.timers.Keys == m0.timers.Keys
        invariant (m, cbs) == Fire(m0, ks[..i], now)
      {
        cbs := FireAnother(expired[i], now, cbs, ks, i, m0);
      }
      assert ks[..|ks|] == ks && Addrs(ks[|ks|..]) == {};
      ExceptNone(m);
    }

    /** Takes the first `n` timers out of the set. */
    method TakeFirst(n: nat, ghost m0: Manager) returns (expired: seq<TimerObject>)
      requires Mirrors() && Inv(m0) && m == m0.(previous := m.previous) && n <= |m.queue|
      modifies this`timers, this`m
      ensures Mirrors() && Listed(expired, m0.queue[..n], all) && DistinctAddrs(m0.queue[..n])
      ensures m == old(m).(queue := m0.queue[n..]) && InvExcept(m, Addrs(m0.queue[..n]))
    {
      SplitQueue(m0, n, m.previous);
      expired := timers[..n];
      timers := timers[n..];
      m := m.(queue := m0.queue[n..]);
    }

    /** `listExpiredCb`; `probe` is the address its probe timer gets. */
    method ListExpiredCb(now: nat, probe: nat) returns (cbs: seq<Option<Callback>>)
      requires Valid()
      modifies this`timers, this`m, this`previous, all.Values
      ensures Valid() && (m, cbs) == ListExpired(old(m), now, probe)
    {
      if |timers| == 0 {
        return [];
      }
      ghost var m0 := m;
      var rollover := DetectClockRollover(now);
      if !rollover && timers[0].next > now {
        SameSet(m0, m);
        assert m.queue[0..] == m.queue && m == Fire(m, [], now).0;
        return [];
      }
      var n := ExpiredEnd(now, probe, rollover);
      assert n == ExpiredCount(m0, now, probe);
      var expired := TakeFirst(n, m0);
      cbs := FireAll(expired, now, m0.queue[..n]);
    }
  }

  /** One more step of `Fire`, and what is then still outside the set. */
  lemma {:induction false} FireNext(m: Manager, ks: seq<Key>, i: nat, now: nat)
    requires DistinctAddrs(ks) && i < |ks| && forall j :: 0 <= j < |ks| ==> ks[j].addr in m.timers
    ensures ks[i].addr in Addrs(ks[i..]) && Addrs(ks[i..]) - {ks[i].addr} == Addrs(ks[i + 1..])
    ensures var (u, cbs) := Fire(m, ks[..i], now);
            Fire(m, ks[..i + 1], now) == (FireOne(u, ks[i].addr, now), cbs + [u.timers[ks[i].addr].cb])
  {
    assert ks[..i + 1][..i] == ks[..i];
    var rest := ks[i..];
    assert rest[0] == ks[i] && rest[1..] == ks[i + 1..];
    forall a ensures a in Addrs(rest) && a != ks[i].addr <==> a in Addrs(ks[i + 1..]) {
      if a in Addrs(rest) && a != ks[i].addr {
        var j :| 0 <= j < |rest| && rest[j].addr == a;
        assert ks[i + 1..][j - 1].addr == a;
      }
      if a in Addrs(ks[i + 1..]) {
        var j :| 0 <= j < |ks| - i - 1 && ks[i + 1..][j].addr == a;
        assert rest[j + 1].addr == a && ks[i + 1 + j].addr == a;
      }
    }
  }

  lemma {:induction false} FrontOfInsert(q: seq<Key>, k: Key)
    requires Sorted(q)
    ensures Insert(q, k) != [] && (Insert(q, k)[0] == k <==> LowerBound(q, k) == 0)
  {
    InsertKeepsOrder(q, k);
  }

  lemma {:induction false} LowerBoundIs(q: seq<Key>, k: Key, i: nat)
    requires Sorted(q) && i <= |q|
    requires forall j :: 0 <= j < i ==> Less(q[j], k)
    requires i < |q| ==> !Less(q[i], k)
    ensures i == LowerBound(q, k)
  {
  }
}
