/** The timer set: its order, its operations, and what runs of them keep. */
module Timers {
  import opened Fibers

  const TWO64: nat := 0x1_0000_0000_0000_0000
  const HOUR: nat := 3_600_000

  /** What the set compares: the deadline, then the address. */
  datatype Key = Key(next: nat, addr: nat)

  /** A timer object. `delivered` and `cancelled` count what has happened to it. */
  datatype Timer = Timer(recurring: bool, ms: nat, next: nat, cb: Option<Callback>, delivered: nat, cancelled: nat)

  /** `reported` is the earliest deadline at the last `getNextTimer` (None: there was none), `notified`
      whether onTimerInsertedAtFront has been called since. */
  datatype Manager = Manager(
    timers: map<nat, Timer>,
    queue: seq<Key>,
    tickled: bool,
    previous: nat,
    reported: Option<nat>,
    notified: bool)

  // ------------------------------------------------------------ the order

  predicate Less(a: Key, b: Key) {
    if a.next == b.next then a.addr < b.addr else a.next < b.next
  }

  /** `Timer::Comparator`, null references included. */
  predicate Comparator(lhs: Option<Key>, rhs: Option<Key>) {
    if lhs.None? && rhs.None? then false
    else if lhs.None? then true
    else if rhs.None? then false
    else Less(lhs.value, rhs.value)
  }

  lemma {:induction false} ComparatorIsStrictTotalOrder(a: Option<Key>, b: Option<Key>, c: Option<Key>)
    ensures !Comparator(a, a)
    ensures Comparator(a, b) && Comparator(b, c) ==> Comparator(a, c)
    ensures a == b || Comparator(a, b) || Comparator(b, a)
    ensures !(Comparator(a, b) && Comparator(b, a))
    ensures Comparator(a, b) <==>
      && b.Some?
      && (a.None? || a.value.next < b.value.next || (a.value.next == b.value.next && a.value.addr < b.value.addr))
  {
  }

  ghost predicate Sorted(q: seq<Key>) {
    forall i, j :: 0 <= i < j < |q| ==> Less(q[i], q[j])
  }

  /** std::set::lower_bound: the first element that is not less than `k`. */
  function LowerBound(q: seq<Key>, k: Key): (i: nat)
    ensures i <= |q|
    ensures forall j :: 0 <= j < i ==> Less(q[j], k)
    ensures i < |q| ==> !Less(q[i], k)
  {
    if q == [] || !Less(q[0], k) then 0 else LowerBound(q[1..], k) + 1
  }

  /** std::set::insert. */
  function Insert(q: seq<Key>, k: Key): seq<Key> {
    var i := LowerBound(q, k);
    if i < |q| && !Less(k, q[i]) then q else q[..i] + [k] + q[i..]
  }

  /** std::set::find: an element that is neither less nor greater. */
  function Find(q: seq<Key>, k: Key): Option<nat> {
    var i := LowerBound(q, k);
    if i < |q| && !Less(k, q[i]) then Some(i) else None
  }

  lemma {:induction false} FindFinds(q: seq<Key>, k: Key)
    requires Sorted(q)
    ensures Find(q, k).Some? <==> k in q
    ensures Find(q, k).Some? ==> Find(q, k).value < |q| && q[Find(q, k).value] == k
  {
    var i := LowerBound(q, k);
    if k in q {
      var j :| 0 <= j < |q| && q[j] == k;
      assert j >= i;
    }
  }

  lemma {:induction false} InsertKeepsOrder(q: seq<Key>, k: Key)
    requires Sorted(q)
    ensures Sorted(Insert(q, k)) && Insert(q, k) != []
    ensures forall x :: x in Insert(q, k) <==> x == k || x in q
    ensures Insert(q, k)[0] == k <==> q == [] || !Less(q[0], k)
    ensures q != [] && Less(q[0], k) ==> Insert(q, k)[0] == q[0]
  {
    var i := LowerBound(q, k);
    FindFinds(q, k);
    if !(i < |q| && !Less(k, q[i])) {
      var r := q[..i] + [k] + q[i..];
      InsertAtKeepsOrder(q, i, k);
      forall x ensures x in r <==> x == k || x in q {
        assert q == q[..i] + q[i..];
      }
    }
  }

  lemma {:induction false} InsertAtKeepsOrder(q: seq<Key>, i: nat, k: Key)
    requires Sorted(q) && i <= |q|
    requires forall j :: 0 <= j < i ==> Less(q[j], k)
    requires i < |q| ==> Less(k, q[i])
    ensures Sorted(q[..i] + [k] + q[i..])
  {
    var r := q[..i] + [k] + q[i..];
    forall a, b | 0 <= a < b < |r| ensures Less(r[a], r[b]) {
      if a == i && b > i + 1 {
        assert Less(q[i], q[b - 1]);
      }
    }
  }

  lemma {:induction false} RemoveKeepsOrder(q: seq<Key>, i: nat)
    requires Sorted(q) && i < |q|
    ensures Sorted(RemoveAt(q, i))
    ensures forall x :: x in RemoveAt(q, i) <==> x in q && x != q[i]
    ensures RemoveAt(q, i) != [] ==> q[0].next <= RemoveAt(q, i)[0].next
  {
    var r := RemoveAt(q, i);
    forall x ensures x in r <==> x in q && x != q[i] {
      if x in q && x != q[i] {
        var j :| 0 <= j < |q| && q[j] == x;
        assert x == r[if j < i then j else j - 1];
      }
      if x in r {
        var j :| 0 <= j < |r| && r[j] == x;
        assert x == q[if j < i then j else j + 1];
        assert Less(x, q[i]) || Less(q[i], x);
      }
    }
  }

  // ------------------------------------------------------------ operations

  function Plus(a: nat, b: nat): nat {
    (a + b) % TWO64
  }

  function Minus(a: nat, b: nat): nat {
    (a - b) % TWO64
  }

  function KeyOf(m: Manager, a: nat): Key
    requires a in m.timers
  {
    Key(m.timers[a].next, a)
  }

  function Initial(now: nat): Manager {
    Manager(map[], [], false, now, None, false)
  }

  /** The private `addTimer`: inserts, and notifies when the timer came to the front the first time
      since the last report. */
  function PutTimer(m: Manager, a: nat): Manager
    requires a in m.timers
  {
    var q := Insert(m.queue, KeyOf(m, a));
    var atFront := q != [] && q[0] == KeyOf(m, a) && !m.tickled;
    m.(queue := q, tickled := m.tickled || atFront, notified := m.notified || atFront)
  }

  function AddTimer(m: Manager, a: nat, start: nat, ms: nat, cb: Callback, recurring: bool): Manager {
    PutTimer(m.(timers := m.timers[a := Timer(recurring, ms, Plus(start, ms), Some(cb), 0, 0)]), a)
  }

  datatype CancelResult = Nothing | Cancelled | ErasedEnd

  /** `cancel` erases what `find` returns without looking; erasing end() is undefined. */
  function Cancel(m: Manager, a: nat): (Manager, CancelResult)
    requires a in m.timers
  {
    var t := m.timers[a];
    if t.cb.None? then (m, Nothing) else
      var u := m.(timers := m.timers[a := t.(cb := None, cancelled := t.cancelled + 1)]);
      match Find(m.queue, KeyOf(m, a))
      case None => (u, ErasedEnd)
      case Some(i) => FindIndex(m.queue, KeyOf(m, a));
                      (u.(queue := RemoveAt(m.queue, i)), Cancelled)
  }

  lemma {:induction false} FindIndex(q: seq<Key>, k: Key)
    ensures Find(q, k).Some? ==> Find(q, k).value < |q|
  {
  }

  /** Takes a timer out of the set, changes its period and deadline, and leaves it out. */
  function TakeOut(m: Manager, a: nat, ms: nat, next: nat): (r: Option<Manager>)
    requires a in m.timers
    ensures r.Some? ==> a in r.value.timers
  {
    var t := m.timers[a];
    if t.cb.None? then None else
      match Find(m.queue, KeyOf(m, a))
      case None => None
      case Some(i) => FindIndex(m.queue, KeyOf(m, a));
                      Some(m.(queue := RemoveAt(m.queue, i), timers := m.timers[a := t.(ms := ms, next := next)]))
  }

  /** `refresh` inserts directly, past the front test. */
  function Refresh(m: Manager, a: nat, now: nat): (Manager, bool)
    requires a in m.timers
  {
    match TakeOut(m, a, m.timers[a].ms, Plus(now, m.timers[a].ms))
    case None => (m, false)
    case Some(u) => (u.(queue := Insert(u.queue, KeyOf(u, a))), true)
  }

  function ResetStart(t: Timer, fromNow: bool, now: nat): nat {
    if fromNow then now else Minus(t.next, t.ms)
  }

  function Reset(m: Manager, a: nat, ms: nat, fromNow: bool, now: nat): (Manager, bool)
    requires a in m.timers
  {
    if ms == m.timers[a].ms && !fromNow then (m, true) else
      match TakeOut(m, a, ms, Plus(ResetStart(m.timers[a], fromNow, now), ms))
      case None => (m, false)
      case Some(u) => (PutTimer(u, a), true)
  }

  /** `getNextTimer`: the time to the earliest deadline, all ones when there is none. */
  function NextTimer(m: Manager, now: nat): (Manager, nat) {
    var earliest := if m.queue == [] then None else Some(m.queue[0].next);
    (m.(tickled := false, reported := earliest, notified := false),
     if m.queue == [] then TWO64 - 1
     else if now >= m.queue[0].next then 0 else m.queue[0].next - now)
  }

  predicate Rollover(previous: nat, now: nat) {
    now < previous && now < Minus(previous, HOUR)
  }

  /** Where the loop over equal deadlines stops. */
  function SkipEqual(q: seq<Key>, i: nat, now: nat): (j: nat)
    requires i <= |q|
    ensures i <= j <= |q|
    ensures forall x :: i <= x < j ==> q[x].next == now
    ensures j < |q| ==> q[j].next != now
    decreases |q| - i
  {
    if i < |q| && q[i].next == now then SkipEqual(q, i + 1, now) else i
  }

  /** The number of timers that `listExpiredCb` takes; `probe` is the address of its probe timer. */
  function ExpiredCount(m: Manager, now: nat, probe: nat): (n: nat)
    ensures n <= |m.queue|
  {
    if m.queue == [] then 0
    else if !Rollover(m.previous, now) && m.queue[0].next > now then 0
    else SkipEqual(m.queue, if Rollover(m.previous, now) then |m.queue| else LowerBound(m.queue, Key(now, probe)), now)
  }

  /** The loop over the expired timers: recurring ones go back into the set, the others lose their callback. */
  function Fire(m: Manager, ks: seq<Key>, now: nat): (r: (Manager, seq<Option<Callback>>))
    requires forall i :: 0 <= i < |ks| ==> ks[i].addr in m.timers
    ensures r.0.timers.Keys == m.timers.Keys
  {
    if ks == [] then (m, []) else
      var (u, cbs) := Fire(m, ks[..|ks| - 1], now);
      var a := ks[|ks| - 1].addr;
      assert ks[|ks| - 1] in ks;
      (FireOne(u, a, now), cbs + [u.timers[a].cb])
  }

  function FireOne(m: Manager, a: nat, now: nat): (u: Manager)
    requires a in m.timers
    ensures u.timers.Keys == m.timers.Keys
  {
    var t := m.timers[a].(delivered := m.timers[a].delivered + 1);
    if t.recurring
    then var t' := t.(next := Plus(now, t.ms));
         m.(timers := m.timers[a := t'], queue := Insert(m.queue, Key(t'.next, a)))
    else m.(timers := m.timers[a := t.(cb := None)])
  }

  function ListExpired(m: Manager, now: nat, probe: nat): (Manager, seq<Option<Callback>>)
    requires KeysKnown(m)
  {
    if m.queue == [] then (m, []) else
      var n := ExpiredCount(m, now, probe);
      Fire(m.(previous := now, queue := m.queue[n..]), m.queue[..n], now)
  }

  // ------------------------------------------------------------ invariant

  /** Keys in the set are those of their timers: they have not changed since they went in. */
  predicate KeysKnown(m: Manager) {
    forall i :: 0 <= i < |m.queue| ==> m.queue[i].addr in m.timers && m.queue[i] == KeyOf(m, m.queue[i].addr)
  }

  /** A timer is in the set exactly while it has its callback. */
  ghost predicate InSetIffArmed(m: Manager) {
    forall a :: a in m.timers ==> (m.timers[a].cb.Some? <==> KeyOf(m, a) in m.queue)
  }

  /** Once a timer is gone it was either delivered or cancelled, a recurring one cancelled. */
  predicate Account(t: Timer) {
    && t.cancelled + (if t.recurring then 0 else t.delivered) + (if t.cb.Some? then 1 else 0) == 1
  }

  ghost predicate Inv(m: Manager) {
    && Sorted(m.queue) && KeysKnown(m) && InSetIffArmed(m)
    && forall a :: a in m.timers ==> Account(m.timers[a])
  }

  /** The invariant while the timers at `out` are held outside the set. */
  ghost predicate InvExcept(m: Manager, out: set<nat>) {
    && Sorted(m.queue) && KeysKnown(m)
    && (forall a :: a in m.timers && a !in out ==> (m.timers[a].cb.Some? <==> KeyOf(m, a) in m.queue))
    && (forall a :: a in out ==> a in m.timers && m.timers[a].cb.Some?)
    && (forall k :: k in m.queue ==> k.addr !in out)
    && forall a :: a in m.timers ==> Account(m.timers[a])
  }

  lemma {:induction false} ExceptNone(m: Manager)
    ensures Inv(m) <==> InvExcept(m, {})
  {
  }

  lemma {:induction false} InitialInv(now: nat)
    ensures Inv(Initial(now))
  {
  }

  /** Putting a held timer back into the set. */
  lemma {:induction false} PutBack(m: Manager, a: nat, out: set<nat>)
    requires InvExcept(m, out) && a in out
    ensures InvExcept(m.(queue := Insert(m.queue, KeyOf(m, a))), out - {a})
  {
    InsertKeepsOrder(m.queue, KeyOf(m, a));
    var u := m.(queue := Insert(m.queue, KeyOf(m, a)));
    forall i | 0 <= i < |u.queue| ensures u.queue[i].addr in u.timers && u.queue[i] == KeyOf(u, u.queue[i].addr) {
      assert u.queue[i] in u.queue;
    }
  }

  /** Whatever is done to the period and deadline of a timer outside the set. */
  lemma {:induction false} ChangeOutside(m: Manager, a: nat, t: Timer, out: set<nat>)
    requires InvExcept(m, out) && a in out && t.cb.Some? && Account(t)
    ensures InvExcept(m.(timers := m.timers[a := t]), out)
  {
    var u := m.(timers := m.timers[a := t]);
    forall i | 0 <= i < |u.queue| ensures u.queue[i].addr in u.timers && u.queue[i] == KeyOf(u, u.queue[i].addr) {
      assert m.queue[i] in m.queue;
    }
    forall b | b in u.timers && b !in out ensures u.timers[b].cb.Some? <==> KeyOf(u, b) in u.queue {
      assert KeyOf(u, b) == KeyOf(m, b);
    }
  }

  /** A timer outside the set that has lost its callback belongs there. */
  lemma {:induction false} LeaveOut(m: Manager, a: nat, t: Timer, out: set<nat>)
    requires InvExcept(m, out) && a in out && t.cb.None? && Account(t)
    ensures InvExcept(m.(timers := m.timers[a := t]), out - {a})
  {
    var u := m.(timers := m.timers[a := t]);
    forall i | 0 <= i < |u.queue| ensures u.queue[i].addr in u.timers && u.queue[i] == KeyOf(u, u.queue[i].addr) {
      assert m.queue[i] in m.queue;
    }
    forall b | b in u.timers && b !in out - {a} ensures u.timers[b].cb.Some? <==> KeyOf(u, b) in u.queue {
      if b != a {
        assert KeyOf(u, b) == KeyOf(m, b);
      }
    }
  }

  /** Erasing an armed timer from the set. */
  lemma {:induction false} EraseArmed(m: Manager, a: nat)
    requires Inv(m) && a in m.timers && m.timers[a].cb.Some?
    ensures Find(m.queue, KeyOf(m, a)).Some? && Find(m.queue, KeyOf(m, a)).value < |m.queue|
    ensures InvExcept(m.(queue := RemoveAt(m.queue, Find(m.queue, KeyOf(m, a)).value)), {a})
  {
    FindFinds(m.queue, KeyOf(m, a));
    var i := Find(m.queue, KeyOf(m, a)).value;
    RemoveKeepsOrder(m.queue, i);
    var u := m.(queue := RemoveAt(m.queue, i));
    forall j | 0 <= j < |u.queue| ensures u.queue[j].addr in u.timers && u.queue[j] == KeyOf(u, u.queue[j].addr) {
      assert u.queue[j] in u.queue && u.queue[j] in m.queue;
    }
    forall k | k in u.queue ensures k.addr != a {
      assert k in m.queue;
    }
    forall b | b in u.timers && b != a ensures u.timers[b].cb.Some? <==> KeyOf(u, b) in u.queue {
      assert KeyOf(u, b) == KeyOf(m, b);
    }
  }

  // ------------------------------------------------------------ each operation keeps it

  lemma {:induction false} PutTimerKeepsInv(m: Manager, a: nat)
    requires InvExcept(m, {a})
    ensures Inv(PutTimer(m, a))
  {
    PutBack(m, a, {a});
    var u := m.(queue := Insert(m.queue, KeyOf(m, a)));
    assert {a} - {a} == {};
    ExceptNone(u);
    SameSet(u, PutTimer(m, a));
  }

  /** The invariant is about the timers and the set only. */
  lemma {:induction false} SameSet(m: Manager, u: Manager)
    requires Inv(m) && u.timers == m.timers && u.queue == m.queue
    ensures Inv(u)
  {
    forall a | a in u.timers ensures u.timers[a].cb.Some? <==> KeyOf(u, a) in u.queue {
      assert KeyOf(u, a) == KeyOf(m, a);
    }
  }

  /** A new timer, before it is put into the set. */
  lemma {:induction false} AddedIsOutside(m: Manager, a: nat, start: nat, ms: nat, cb: Callback, recurring: bool)
    requires Inv(m) && a !in m.timers
    ensures InvExcept(m.(timers := m.timers[a := Timer(recurring, ms, Plus(start, ms), Some(cb), 0, 0)]), {a})
  {
    var u := m.(timers := m.timers[a := Timer(recurring, ms, Plus(start, ms), Some(cb), 0, 0)]);
    forall k | k in u.queue ensures k.addr != a && k.addr in m.timers && k == KeyOf(m, k.addr) {
      var i :| 0 <= i < |m.queue| && m.queue[i] == k;
    }
    forall b | b in u.timers && b != a ensures u.timers[b].cb.Some? <==> KeyOf(u, b) in u.queue {
      assert KeyOf(u, b) == KeyOf(m, b);
    }
  }

  lemma {:induction false} AddTimerKeepsInv(m: Manager, a: nat, start: nat, ms: nat, cb: Callback, recurring: bool)
    requires Inv(m) && a !in m.timers
    ensures Inv(AddTimer(m, a, start, ms, cb, recurring))
    ensures var u := AddTimer(m, a, start, ms, cb, recurring);
            var next := (start + ms) % 0x1_0000_0000_0000_0000;
            && u.timers == m.timers[a := Timer(recurring, ms, next, Some(cb), 0, 0)]
            && (forall k :: k in u.queue <==> k in m.queue || k == Key(next, a))
            && (u.tickled <==> m.tickled || u.queue[0] == Key(next, a))
            && (u.notified <==> m.notified || (!m.tickled && u.queue[0] == Key(next, a)))
  {
    InsertKeepsOrder(m.queue, Key(Plus(start, ms), a));
    AddedIsOutside(m, a, start, ms, cb, recurring);
    PutTimerKeepsInv(m.(timers := m.timers[a := Timer(recurring, ms, Plus(start, ms), Some(cb), 0, 0)]), a);
  }

  /** `cancel` never erases a missing element; it succeeds exactly while the timer is armed. */
  lemma {:induction false} CancelKeepsInv(m: Manager, a: nat)
    requires Inv(m) && a in m.timers
    ensures Cancel(m, a).1 == (if m.timers[a].cb.Some? then Cancelled else Nothing)
    ensures Inv(Cancel(m, a).0)
    ensures Cancel(m, a).0.timers[a].cb.None?
    ensures forall b | b in m.timers && b != a :: b in Cancel(m, a).0.timers && Cancel(m, a).0.timers[b] == m.timers[b]
    ensures forall k :: k in Cancel(m, a).0.queue <==> k in m.queue && k.addr != a
  {
    if m.timers[a].cb.Some? {
      EraseArmed(m, a);
      FindFinds(m.queue, KeyOf(m, a));
      RemoveKeepsOrder(m.queue, Find(m.queue, KeyOf(m, a)).value);
      var u := m.(queue := RemoveAt(m.queue, Find(m.queue, KeyOf(m, a)).value));
      var t := m.timers[a];
      LeaveOut(u, a, t.(cb := None, cancelled := t.cancelled + 1), {a});
      assert {a} - {a} == {};
      ExceptNone(Cancel(m, a).0);
    }
    forall k | k in m.queue ensures k.addr == a <==> k == KeyOf(m, a) {
    }
  }

  /** `refresh` and `reset` find the timer exactly while it is armed. */
  lemma {:induction false} TakeOutKeeps(m: Manager, a: nat, ms: nat, next: nat)
    requires Inv(m) && a in m.timers
    ensures TakeOut(m, a, ms, next).Some? <==> m.timers[a].cb.Some?
    ensures TakeOut(m, a, ms, next).Some? ==> InvExcept(TakeOut(m, a, ms, next).value, {a})
    ensures TakeOut(m, a, ms, next).Some? ==>
              forall k :: k in TakeOut(m, a, ms, next).value.queue <==> k in m.queue && k.addr != a
    ensures TakeOut(m, a, ms, next).Some? ==>
              TakeOut(m, a, ms, next).value.queue != [] ==>
                m.queue != [] && m.queue[0].next <= TakeOut(m, a, ms, next).value.queue[0].next
  {
    if m.timers[a].cb.Some? {
      EraseArmed(m, a);
      var i := Find(m.queue, KeyOf(m, a)).value;
      RemoveKeepsOrder(m.queue, i);
      var u := m.(queue := RemoveAt(m.queue, i));
      var t := m.timers[a];
      ChangeOutside(u, a, t.(ms := ms, next := next), {a});
      FindFinds(m.queue, KeyOf(m, a));
      forall k | k in m.queue ensures k.addr == a <==> k == KeyOf(m, a) {
      }
    }
  }

  /** From `m` to `u` the timer at `a` got this period and deadline, in the set too; nothing else changed. */
  ghost predicate Moved(m: Manager, u: Manager, a: nat, ms: nat, next: nat)
    requires a in m.timers
  {
    && u.timers == m.timers[a := m.timers[a].(ms := ms, next := next)]
    && forall k :: k in u.queue <==> (k in m.queue && k.addr != a) || k == Key(next, a)
  }

  lemma {:induction false} RefreshKeepsInv(m: Manager, a: nat, now: nat)
    requires Inv(m) && a in m.timers
    ensures Inv(Refresh(m, a, now).0)
    ensures Refresh(m, a, now).1 <==> m.timers[a].cb.Some?
    ensures if Refresh(m, a, now).1
            then Moved(m, Refresh(m, a, now).0, a, m.timers[a].ms, (now + m.timers[a].ms) % 0x1_0000_0000_0000_0000)
                 && Refresh(m, a, now).0.tickled == m.tickled && Refresh(m, a, now).0.notified == m.notified
            else Refresh(m, a, now).0 == m
  {
    TakeOutKeeps(m, a, m.timers[a].ms, Plus(now, m.timers[a].ms));
    if m.timers[a].cb.Some? {
      var u := TakeOut(m, a, m.timers[a].ms, Plus(now, m.timers[a].ms)).value;
      InsertKeepsOrder(u.queue, KeyOf(u, a));
      PutBack(u, a, {a});
      assert {a} - {a} == {};
      ExceptNone(Refresh(m, a, now).0);
    }
  }

  lemma {:induction false} ResetKeepsInv(m: Manager, a: nat, ms: nat, fromNow: bool, now: nat)
    requires Inv(m) && a in m.timers
    ensures Inv(Reset(m, a, ms, fromNow, now).0)
    ensures Reset(m, a, ms, fromNow, now).1
            <==> m.timers[a].cb.Some? || (ms == m.timers[a].ms && !fromNow)
    ensures var u := Reset(m, a, ms, fromNow, now).0;
            if m.timers[a].cb.None? || (ms == m.timers[a].ms && !fromNow) then u == m
            else Moved(m, u, a, ms, Plus(if fromNow then now else Minus(m.timers[a].next, m.timers[a].ms), ms))
  {
    var next := Plus(ResetStart(m.timers[a], fromNow, now), ms);
    TakeOutKeeps(m, a, ms, next);
    if m.timers[a].cb.Some? && !(ms == m.timers[a].ms && !fromNow) {
      var u := TakeOut(m, a, ms, next).value;
      InsertKeepsOrder(u.queue, KeyOf(u, a));
      PutTimerKeepsInv(u, a);
    }
  }

  // ------------------------------------------------------------ expiry

  ghost function Addrs(ks: seq<Key>): set<nat> {
    set i | 0 <= i < |ks| :: ks[i].addr
  }

  ghost predicate DistinctAddrs(ks: seq<Key>) {
    forall i, j :: 0 <= i < j < |ks| ==> ks[i].addr != ks[j].addr
  }

  lemma {:induction false} QueueAddrsDistinct(m: Manager)
    requires Inv(m)
    ensures DistinctAddrs(m.queue)
  {
    forall i, j | 0 <= i < j < |m.queue| ensures m.queue[i].addr != m.queue[j].addr {
      assert Less(m.queue[i], m.queue[j]);
    }
  }

  /** An element of the set is among the first `n` or among the rest, and its address tells which. */
  lemma {:induction false} WhichPart(q: seq<Key>, n: nat, k: Key)
    requires DistinctAddrs(q) && n <= |q|
    ensures k in q <==> k in q[..n] || k in q[n..]
    ensures k in q[..n] ==> k.addr in Addrs(q[..n])
    ensures k in q[n..] ==> k.addr !in Addrs(q[..n])
  {
    assert q == q[..n] + q[n..];
    if k in q[n..] {
      var j :| 0 <= j < |q| - n && q[n..][j] == k;
      forall i | 0 <= i < n ensures q[..n][i].addr != k.addr {
        assert q[i].addr != q[n + j].addr;
      }
    }
  }

  lemma {:induction false} AddrsInQueue(q: seq<Key>, a: nat)
    requires a in Addrs(q)
    ensures exists k :: k in q && k.addr == a
  {
    var i :| 0 <= i < |q| && q[i].addr == a;
    assert q[i] in q;
  }

  /** Taking the first `n` elements out of the set. */
  lemma {:induction false} SplitQueue(m: Manager, n: nat, now: nat)
    requires Inv(m) && n <= |m.queue|
    ensures DistinctAddrs(m.queue[..n])
    ensures InvExcept(m.(previous := now, queue := m.queue[n..]), Addrs(m.queue[..n]))
  {
    var u := m.(previous := now, queue := m.queue[n..]);
    var out := Addrs(m.queue[..n]);
    QueueAddrsDistinct(m);
    forall a | a in u.timers && a !in out ensures u.timers[a].cb.Some? <==> KeyOf(u, a) in u.queue {
      WhichPart(m.queue, n, KeyOf(m, a));
    }
    forall a | a in out ensures a in u.timers && u.timers[a].cb.Some? {
      AddrsInQueue(m.queue[..n], a);
      var k :| k in m.queue[..n] && k.addr == a;
      WhichPart(m.queue, n, k);
    }
    forall k | k in u.queue ensures k.addr !in out {
      WhichPart(m.queue, n, k);
    }
  }

  lemma {:induction false} FireOneKeeps(m: Manager, a: nat, now: nat, out: set<nat>)
    requires InvExcept(m, out) && a in out
    ensures InvExcept(FireOne(m, a, now), out - {a})
  {
    var t := m.timers[a].(delivered := m.timers[a].delivered + 1);
    if t.recurring {
      var t' := t.(next := Plus(now, t.ms));
      var u := m.(timers := m.timers[a := t']);
      ChangeOutside(m, a, t', out);
      PutBack(u, a, out);
    } else {
      LeaveOut(m, a, t.(cb := None), out);
    }
  }

  lemma {:induction false} FireKeeps(m: Manager, ks: seq<Key>, now: nat, rest: set<nat>)
    requires DistinctAddrs(ks) && (forall i :: 0 <= i < |ks| ==> ks[i].addr in m.timers)
    requires InvExcept(m, Addrs(ks) + rest) && Addrs(ks) !! rest
    ensures InvExcept(Fire(m, ks, now).0, rest)
  {
    if ks == [] {
      assert Addrs(ks) + rest == rest;
    } else {
      var n := |ks| - 1;
      var a := ks[n].addr;
      LastAddr(ks);
      assert Addrs(ks) + rest == Addrs(ks[..n]) + ({a} + rest);
      FireKeeps(m, ks[..n], now, {a} + rest);
      FireOneKeeps(Fire(m, ks[..n], now).0, a, now, {a} + rest);
      assert ({a} + rest) - {a} == rest;
    }
  }

  lemma {:induction false} ListExpiredKeepsInv(m: Manager, now: nat, probe: nat)
    requires Inv(m)
    ensures Inv(ListExpired(m, now, probe).0)
  {
    if m.queue != [] {
      var n := ExpiredCount(m, now, probe);
      SplitQueue(m, n, now);
      var u := m.(previous := now, queue := m.queue[n..]);
      assert Addrs(m.queue[..n]) + {} == Addrs(m.queue[..n]);
      FireKeeps(u, m.queue[..n], now, {});
      ExceptNone(Fire(u, m.queue[..n], now).0);
    }
  }

  /** Without rollover exactly the timers due are taken, wherever the probe timer happens to lie in
      memory; with rollover all of them are. */
  lemma {:induction false} ExpiredAreTheDue(m: Manager, now: nat, probe: nat)
    requires Sorted(m.queue)
    ensures Rollover(m.previous, now) ==> ExpiredCount(m, now, probe) == |m.queue|
    ensures !Rollover(m.previous, now) ==>
              forall i :: 0 <= i < |m.queue| ==> (m.queue[i].next <= now <==> i < ExpiredCount(m, now, probe))
  {
    if m.queue != [] && !Rollover(m.previous, now) {
      var q := m.queue;
      forall i | 0 < i < |q| ensures Less(q[0], q[i]) {
      }
      if q[0].next <= now {
        var l := LowerBound(q, Key(now, probe));
        var n := SkipEqual(q, l, now);
        forall i | 0 <= i < |q| ensures q[i].next <= now <==> i < n {
          assert l < i < |q| ==> Less(q[l], q[i]);
          assert n < i < |q| ==> Less(q[n], q[i]);
          assert l < n < |q| ==> Less(q[l], q[n]);
        }
      }
    }
  }

  lemma {:induction false} LastAddr(ks: seq<Key>)
    requires DistinctAddrs(ks) && ks != []
    ensures var n := |ks| - 1;
      && Addrs(ks) == Addrs(ks[..n]) + {ks[n].addr} && ks[n].addr !in Addrs(ks[..n]) && DistinctAddrs(ks[..n])
  {
    var n := |ks| - 1;
    assert ks == ks[..n] + [ks[n]];
  }

  /** What firing does to the timers: recurring ones are re-armed one period from now, the others end;
      every other timer is as before. */
  lemma {:induction false} FireTimers(m: Manager, ks: seq<Key>, now: nat, a: nat)
    requires DistinctAddrs(ks) && (forall i :: 0 <= i < |ks| ==> ks[i].addr in m.timers) && a in m.timers
    ensures Fire(m, ks, now).0.timers[a] == Fired(m.timers[a], a in Addrs(ks), now)
  {
    if ks != [] {
      LastAddr(ks);
      FireTimers(m, ks[..|ks| - 1], now, a);
    }
  }

  /** Each timer's callback is returned, in order. */
  lemma {:induction false} FireCallbacks(m: Manager, ks: seq<Key>, now: nat)
    requires DistinctAddrs(ks) && (forall i :: 0 <= i < |ks| ==> ks[i].addr in m.timers)
    ensures |Fire(m, ks, now).1| == |ks|
    ensures forall i :: 0 <= i < |ks| ==> Fire(m, ks, now).1[i] == m.timers[ks[i].addr].cb
  {
    if ks != [] {
      var n := |ks| - 1;
      LastAddr(ks);
      FireCallbacks(m, ks[..n], now);
      FireTimers(m, ks[..n], now, ks[n].addr);
      forall i | 0 <= i < |ks| ensures Fire(m, ks, now).1[i] == m.timers[ks[i].addr].cb {
        assert i < n ==> ks[..n][i] == ks[i];
      }
    }
  }

  function Fired(t: Timer, due: bool, now: nat): Timer {
    if !due then t
    else if t.recurring then t.(next := Plus(now, t.ms), delivered := t.delivered + 1)
    else t.(cb := None, delivered := t.delivered + 1)
  }

  /** `listExpiredCb`: the callbacks of the due timers (all timers after a rollover) in the order of the
      set; afterwards the set holds the later timers and the recurring ones re-armed. */
  lemma {:induction false} ListExpiredExactly(m: Manager, now: nat, probe: nat)
    requires Inv(m)
    ensures var n := ExpiredCount(m, now, probe);
            var (u, cbs) := ListExpired(m, now, probe);
            && |cbs| == n
            && (forall i :: 0 <= i < n ==> cbs[i] == m.timers[m.queue[i].addr].cb && cbs[i].Some?)
            && u.timers.Keys == m.timers.Keys
            && (forall a :: a in m.timers ==>
                  u.timers[a] == Fired(m.timers[a], a in Addrs(m.queue[..n]), now))
            && (forall k :: k in u.queue <==>
                  k.addr in m.timers && k == KeyOf(u, k.addr) &&
                  (k in m.queue[n..] || (k.addr in Addrs(m.queue[..n]) && m.timers[k.addr].recurring)))
  {
    var n := ExpiredCount(m, now, probe);
    var (u, cbs) := ListExpired(m, now, probe);
    SplitQueue(m, n, now);
    if m.queue != [] {
      var v := m.(previous := now, queue := m.queue[n..]);
      FireCallbacks(v, m.queue[..n], now);
      forall a | a in m.timers ensures u.timers[a] == Fired(m.timers[a], a in Addrs(m.queue[..n]), now) {
        FireTimers(v, m.queue[..n], now, a);
      }
    }
    ListExpiredKeepsInv(m, now, probe);
    forall i | 0 <= i < n ensures m.timers[m.queue[i].addr].cb.Some? {
      assert m.queue[i] in m.queue;
    }
    forall k ensures k in u.queue <==>
                  k.addr in m.timers && k == KeyOf(u, k.addr) &&
                  (k in m.queue[n..] || (k.addr in Addrs(m.queue[..n]) && m.timers[k.addr].recurring)) {
      AfterExpiry(m, u, n, now, k);
    }
  }

  lemma {:induction false} AfterExpiry(m: Manager, u: Manager, n: nat, now: nat, k: Key)
    requires Inv(m) && Inv(u) && n <= |m.queue| && u.timers.Keys == m.timers.Keys
    requires InvExcept(m.(previous := now, queue := m.queue[n..]), Addrs(m.queue[..n]))
    requires forall a :: a in m.timers ==> u.timers[a] == Fired(m.timers[a], a in Addrs(m.queue[..n]), now)
    ensures k in u.queue <==>
              k.addr in m.timers && k == KeyOf(u, k.addr) &&
              (k in m.queue[n..] || (k.addr in Addrs(m.queue[..n]) && m.timers[k.addr].recurring))
  {
    var v := m.(previous := now, queue := m.queue[n..]);
    if k.addr in m.timers && k == KeyOf(u, k.addr) {
      if k.addr in Addrs(m.queue[..n]) {
        assert v.timers[k.addr].cb.Some?;
      } else {
        assert KeyOf(u, k.addr) == KeyOf(v, k.addr);
      }
    }
  }

  /** `getNextTimer` gives the least distance to a deadline, all ones when there is none, and lets the
      next front insertion be announced. */
  lemma {:induction false} NextTimerIsLeast(m: Manager, now: nat)
    requires Sorted(m.queue)
    ensures m.queue == [] ==> NextTimer(m, now).1 == 0xFFFF_FFFF_FFFF_FFFF
    ensures forall k :: k in m.queue ==> NextTimer(m, now).1 <= (if now >= k.next then 0 else k.next - now)
    ensures m.queue != [] ==>
              exists k :: k in m.queue && NextTimer(m, now).1 == (if now >= k.next then 0 else k.next - now)
    ensures !NextTimer(m, now).0.tickled && NextTimer(m, now).0.queue == m.queue
    ensures NextTimer(m, now).0.timers == m.timers
  {
    forall i | 0 < i < |m.queue| ensures m.queue[0].next <= m.queue[i].next {
      assert Less(m.queue[0], m.queue[i]);
    }
    if m.queue != [] {
      assert m.queue[0] in m.queue;
    }
  }

  /** A rollover is a step back of more than an hour; but in the first hour of the epoch, where the
      subtraction wraps around, it is any step back. */
  lemma {:induction false} RolloverExactly(previous: nat, now: nat)
    requires previous < 0x1_0000_0000_0000_0000
    ensures Rollover(previous, now) <==>
      if previous < 60 * 60 * 1000 then now < previous else now + 60 * 60 * 1000 < previous
  {
  }

  /** A reset that changes something announces the timer exactly when it comes to the front and nothing was
      announced since the last report. Deadlines wrap around at 2^64. */
  lemma {:induction false} ResetAnnouncesFront(m: Manager, a: nat, ms: nat, fromNow: bool, now: nat)
    requires Inv(m) && a in m.timers && m.timers[a].cb.Some? && (ms != m.timers[a].ms || fromNow)
    ensures var u := Reset(m, a, ms, fromNow, now).0;
      var start := if fromNow then now else (m.timers[a].next - m.timers[a].ms) % 0x1_0000_0000_0000_0000;
      && a in u.timers && u.timers[a].next == (start + ms) % 0x1_0000_0000_0000_0000 && u.queue != []
      && (u.tickled <==> m.tickled || u.queue[0].addr == a)
      && (u.notified <==> m.notified || (!m.tickled && u.queue[0].addr == a))
  {
    ResetKeepsInv(m, a, ms, fromNow, now);
    var u := Reset(m, a, ms, fromNow, now).0;
    TakeOutKeeps(m, a, ms, Plus(ResetStart(m.timers[a], fromNow, now), ms));
    assert KeyOf(u, a) in u.queue;
    assert u.queue[0] in u.queue;
  }

  /** What an expiry does to each timer: it fires if and only if it is armed and its deadline has come, or
      the clock was set back by more than an hour; one that recurs then has its deadline a period from now,
      another has lost its callback, and its callback is delivered once. */
  lemma {:induction false} FiresExactly(m: Manager, now: nat, probe: nat, a: nat)
    requires Inv(m) && a in m.timers
    ensures var t, u := m.timers[a], ListExpired(m, now, probe).0;
      && a in u.timers
      && u.timers[a] ==
           (if t.cb.None? || (t.next > now && !Rollover(m.previous, now)) then t
            else if t.recurring then t.(next := (now + t.ms) % 0x1_0000_0000_0000_0000, delivered := t.delivered + 1)
            else t.(cb := None, delivered := t.delivered + 1))
  {
    FiredIs(m, now, probe, a);
    DueIsTaken(m, now, probe, a);
  }

  lemma {:induction false} FiredIs(m: Manager, now: nat, probe: nat, a: nat)
    requires Inv(m) && a in m.timers
    ensures var u := ListExpired(m, now, probe).0;
      a in u.timers && u.timers[a] == Fired(m.timers[a], a in Addrs(m.queue[..ExpiredCount(m, now, probe)]), now)
  {
    ListExpiredExactly(m, now, probe);
  }

  /** It announces nothing. */
  lemma {:induction false} ExpiryLeavesFlags(m: Manager, now: nat, probe: nat)
    requires KeysKnown(m)
    ensures var u := ListExpired(m, now, probe).0;
      u.tickled == m.tickled && u.notified == m.notified && u.reported == m.reported
  {
    if m.queue != [] {
      var n := ExpiredCount(m, now, probe);
      FireLeaves(m.(previous := now, queue := m.queue[n..]), m.queue[..n], now);
    }
  }

  /** It remembers the time, unless there are no timers. */
  lemma {:induction false} ExpiryRemembers(m: Manager, now: nat, probe: nat)
    requires KeysKnown(m)
    ensures ListExpired(m, now, probe).0.previous == if m.queue == [] then m.previous else now
  {
    if m.queue != [] {
      var n := ExpiredCount(m, now, probe);
      FireLeaves(m.(previous := now, queue := m.queue[n..]), m.queue[..n], now);
    }
  }

  lemma {:induction false} FireLeaves(m: Manager, ks: seq<Key>, now: nat)
    requires forall i :: 0 <= i < |ks| ==> ks[i].addr in m.timers
    ensures var u := Fire(m, ks, now).0;
      u.previous == m.previous && u.tickled == m.tickled && u.notified == m.notified && u.reported == m.reported
  {
    if ks != [] {
      FireLeaves(m, ks[..|ks| - 1], now);
      assert ks[|ks| - 1] in ks;
    }
  }

  lemma {:induction false} DueIsTaken(m: Manager, now: nat, probe: nat, a: nat)
    requires Inv(m) && a in m.timers
    ensures a in Addrs(m.queue[..ExpiredCount(m, now, probe)]) <==>
      m.timers[a].cb.Some? && (m.timers[a].next <= now || Rollover(m.previous, now))
  {
    var n := ExpiredCount(m, now, probe);
    ExpiredAreTheDue(m, now, probe);
    if m.timers[a].cb.Some? {
      var i :| 0 <= i < |m.queue| && m.queue[i] == KeyOf(m, a);
      assert i < n ==> m.queue[..n][i].addr == a;
    }
    if a in Addrs(m.queue[..n]) {
      var i :| 0 <= i < n && m.queue[..n][i].addr == a;
      assert m.queue[i] == KeyOf(m, a) && m.queue[i] in m.queue;
    }
  }
}
