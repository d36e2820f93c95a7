/** The locked task list of the scheduler: scheduling at the back, scan-and-pick from the front. */
module TaskQueue {
  import opened Fibers

  /** One element of the list of tasks. `ticket` numbers the accepted tasks in order of arrival; it is
      bookkeeping for the proofs and decides nothing. */
  datatype Entry = Entry(work: Work, thread: ThreadId, ticket: nat)

  /** A scan by thread `me` passes over entries bound to another thread and over fibers that are
      still in EXEC, that is, still on some worker's stack. */
  predicate Eligible(e: Entry, me: ThreadId, states: map<FiberId, FiberState>) {
    && (e.thread == ANY_THREAD || e.thread == me)
    && !(e.work.FiberWork? && e.work.fiber in states && states[e.work.fiber].EXEC?)
  }

  /** Position of the earliest eligible entry; the length of the queue when there is none. */
  function FirstEligible(q: seq<Entry>, me: ThreadId, states: map<FiberId, FiberState>): (i: nat)
    ensures i <= |q|
    ensures i < |q| ==>
              && (q[i].thread == -1 || q[i].thread == me)
              && (q[i].work.FiberWork? && q[i].work.fiber in states ==> states[q[i].work.fiber] != EXEC)
    ensures forall j :: 0 <= j < i ==>
              || (q[j].thread != -1 && q[j].thread != me)
              || (q[j].work.FiberWork? && q[j].work.fiber in states && states[q[j].work.fiber] == EXEC)
  {
    if q == [] || Eligible(q[0], me, states) then 0
    else
      var i := FirstEligible(q[1..], me, states);
      assert forall j :: 0 < j < i + 1 ==> q[j] == q[1..][j - 1];
      i + 1
  }

  /** Tickets grow from front to back, so the list is always in order of arrival. */
  ghost predicate InArrivalOrder(q: seq<Entry>, next: nat) {
    && (forall i :: 0 <= i < |q| ==> q[i].ticket < next)
    && (forall i, j :: 0 <= i < j < |q| ==> q[i].ticket < q[j].ticket)
  }

  /** What remains after a pick is still in order of arrival and holds every entry but the picked one. */
  lemma {:induction false} RemoveAtKeepsOrder(q: seq<Entry>, i: nat, next: nat)
    requires InArrivalOrder(q, next) && i < |q|
    ensures InArrivalOrder(RemoveAt(q, i), next)
    ensures forall e :: e in RemoveAt(q, i) <==> e in q && e != q[i]
  {
    var r := RemoveAt(q, i);
    forall e | e in q && e != q[i]
      ensures e in r
    {
      var k :| 0 <= k < |q| && q[k] == e;
      assert r[if k < i then k else k - 1] == e;
    }
  }

  ghost function Tickets(q: seq<Entry>): set<nat> {
    set e | e in q :: e.ticket
  }

  lemma {:induction false} RemoveAtTickets(q: seq<Entry>, i: nat, next: nat)
    requires InArrivalOrder(q, next) && i < |q|
    ensures Tickets(RemoveAt(q, i)) == Tickets(q) - {q[i].ticket}
    ensures q[i].ticket in Tickets(q)
  {
    RemoveAtKeepsOrder(q, i, next);
    forall t | t in Tickets(q) - {q[i].ticket}
      ensures t in Tickets(RemoveAt(q, i))
    {
      var e :| e in q && e.ticket == t;
      assert e in RemoveAt(q, i);
    }
  }

  /** Was some entry before position `i` bound to a thread other than `me`? */
  predicate SawForeign(q: seq<Entry>, me: ThreadId, i: nat)
    requires i <= |q|
  {
    exists j :: 0 <= j < i && q[j].thread != ANY_THREAD && q[j].thread != me
  }

  /** The entries a batch of work items adds: empty slots are passed over. */
  function Entries(works: seq<Option<Work>>, thread: ThreadId, ticket: nat): (es: seq<Entry>)
    ensures |es| <= |works|
    ensures forall i :: 0 <= i < |es| ==> es[i].thread == thread && es[i].ticket == ticket + i && Some(es[i].work) in works
  {
    if works == [] then []
    else if works[0].None? then Entries(works[1..], thread, ticket)
    else [Entry(works[0].value, thread, ticket)] + Entries(works[1..], thread, ticket + 1)
  }

  lemma {:induction false} EntriesSnoc(works: seq<Option<Work>>, w: Option<Work>, thread: ThreadId, ticket: nat)
    ensures Entries(works + [w], thread, ticket)
         == Entries(works, thread, ticket)
          + Entries([w], thread, ticket + |Entries(works, thread, ticket)|)
  {
    if works == [] {
      assert works + [w] == [w];
    } else {
      assert (works + [w])[1..] == works[1..] + [w];
      EntriesSnoc(works[1..], w, thread, if works[0].None? then ticket else ticket + 1);
    }
  }

  class Scheduler {
    var fibers: seq<Entry>
    var activeThreadCount: nat
    var nextTicket: nat

    constructor ()
      ensures fibers == [] && activeThreadCount == 0 && nextTicket == 0
    {
      fibers, activeThreadCount, nextTicket := [], 0, 0;
    }

    /** Appends the work unless the slot is empty; the answer is whether the list was empty before. */
    method ScheduleNoLock(work: Option<Work>, thread: ThreadId) returns (needTickle: bool)
      modifies this`fibers, this`nextTicket
      ensures fibers == old(fibers) + Entries([work], thread, old(nextTicket))
      ensures nextTicket == old(nextTicket) + |Entries([work], thread, old(nextTicket))|
      ensures fibers == old(fibers) + if work.Some? then [Entry(work.value, thread, old(nextTicket))] else []
      ensures needTickle == (old(fibers) == [])
    {
      needTickle := fibers == [];
      if work.Some? {
        fibers := fibers + [Entry(work.value, thread, nextTicket)];
        nextTicket := nextTicket + 1;
      }
    }

    /** Schedules a batch under one lock and empties the caller's slots. */
    method ScheduleBatch(works: array<Option<Work>>) returns (needTickle: bool)
      modifies this`fibers, this`nextTicket, works
      ensures fibers == old(fibers) + Entries(old(works[..]), ANY_THREAD, old(nextTicket))
      ensures nextTicket == old(nextTicket) + |Entries(old(works[..]), ANY_THREAD, old(nextTicket))|
      ensures forall k :: 0 <= k < works.Length ==> works[k] == None
      ensures needTickle <==> works.Length > 0 && old(fibers) == []
    {
      needTickle := false;
      ghost var was := works[..];
      var k := 0;
      while k < works.Length
        invariant 0 <= k <= works.Length
        invariant forall j :: 0 <= j < k ==> works[j] == None
        invariant forall j :: k <= j < works.Length ==> works[j] == was[j]
        invariant fibers == old(fibers) + Entries(was[..k], ANY_THREAD, old(nextTicket))
        invariant nextTicket == old(nextTicket) + |Entries(was[..k], ANY_THREAD, old(nextTicket))|
        invariant needTickle <==> k > 0 && old(fibers) == []
      {
        EntriesSnoc(was[..k], was[k], ANY_THREAD, old(nextTicket));
        assert was[..k + 1] == was[..k] + [was[k]];
        var slot := works[k];
        works[k] := None;
        var tickle := ScheduleNoLock(slot, ANY_THREAD);
        needTickle := tickle || needTickle;
        k := k + 1;
      }
      assert was[..k] == was;
    }

    /** The scan of `run` under the queue lock: takes the earliest eligible entry, keeps the order of
        the rest and counts the worker as active, or leaves everything alone when nothing is eligible. */
    method Scan(me: ThreadId, states: map<FiberId, FiberState>) returns (ft: Option<Entry>, tickleMe: bool)
      modifies this`fibers, this`activeThreadCount
      ensures var i := FirstEligible(old(fibers), me, states);
        if i < |old(fibers)|
        then ft == Some(old(fibers)[i]) && fibers == RemoveAt(old(fibers), i)
             && activeThreadCount == old(activeThreadCount) + 1
        else ft == None && fibers == old(fibers) && activeThreadCount == old(activeThreadCount)
      ensures var i := FirstEligible(old(fibers), me, states);
        tickleMe <==>
          || (exists j :: 0 <= j < i && old(fibers)[j].thread != -1 && old(fibers)[j].thread != me)
          || i + 1 < |old(fibers)|
    {
      ft, tickleMe := None, false;
      var it := 0;
      while it < |fibers|
        invariant 0 <= it <= |fibers|
        invariant fibers == old(fibers) && activeThreadCount == old(activeThreadCount)
        invariant ft == None
        invariant forall j :: 0 <= j < it ==> !Eligible(fibers[j], me, states)
        invariant tickleMe <==> SawForeign(fibers, me, it)
      {
        var e := fibers[it];
        if e.thread != ANY_THREAD && e.thread != me {
          tickleMe := true;
        } else if !(e.work.FiberWork? && e.work.fiber in states && states[e.work.fiber].EXEC?) {
          ft := Some(e);
          fibers := RemoveAt(fibers, it);
          activeThreadCount := activeThreadCount + 1;
          tickleMe := tickleMe || it != |fibers|;
          return;
        }
        it := it + 1;
      }
    }
  }
}
