/**
 * The event harness that stands in for the simulation library's scheduler: a clock and an
 * arena of scheduled events, each pending, cancelled (skipped when its time comes) or fired.
 */
module Scheduling {

  /** What an event does and whom it targets: a cash register index or a customer number. */
  datatype EventKind = Arrival | Serviced(register: nat) | GiveUp(customer: nat)

  datatype Status = Pending | Cancelled | Fired

  datatype Event = Event(time: real, kind: EventKind, status: Status)

  /** 1 when `e` is a pending event of the given kind, else 0. */
  function Weight(e: Event, kind: EventKind): nat
  {
    if e.status == Pending && e.kind == kind then 1 else 0
  }

  /** The number of pending events of the given kind. */
  function PendingCount(events: seq<Event>, kind: EventKind): (n: nat)
  {
    if events == [] then 0
    else PendingCount(events[..|events| - 1], kind) + Weight(events[|events| - 1], kind)
  }

  lemma PendingCountAppend(events: seq<Event>, e: Event, kind: EventKind)
    ensures PendingCount(events + [e], kind) == PendingCount(events, kind) + Weight(e, kind)
  {
    assert (events + [e])[..|events|] == events;
  }

  /** Counting over events scheduled in two batches. */
  lemma {:induction false} PendingCountConcat(a: seq<Event>, t: seq<Event>, kind: EventKind)
    ensures PendingCount(a + t, kind) == PendingCount(a, kind) + PendingCount(t, kind)
  {
    if t != [] {
      var n := |t| - 1;
      PendingCountConcat(a, t[..n], kind);
      assert (a + t)[..|a| + n] == a + t[..n];
      assert (a + t)[|a| + n] == t[n];
      assert PendingCount(a + t, kind) == PendingCount(a + t[..n], kind) + Weight(t[n], kind);
    } else {
      assert a + t == a;
    }
  }

  /** Changing the status of one event changes each count by that event's weight only. */
  lemma {:induction false} PendingCountSetStatus(events: seq<Event>, h: nat, st: Status, kind: EventKind)
    requires h < |events|
    ensures PendingCount(events[h := events[h].(status := st)], kind)
         == PendingCount(events, kind) - Weight(events[h], kind) + Weight(events[h].(status := st), kind)
  {
    var after := events[h := events[h].(status := st)];
    var n := |events| - 1;
    if h < n {
      PendingCountSetStatus(events[..n], h, st, kind);
      assert after[..n] == events[..n][h := events[h].(status := st)];
    } else {
      assert after[..n] == events[..n];
    }
  }

  /** A pending event of a kind is counted. */
  lemma {:induction false} PendingCountPositive(events: seq<Event>, h: nat, kind: EventKind)
    requires h < |events| && Weight(events[h], kind) == 1
    ensures PendingCount(events, kind) >= 1
  {
    var n := |events| - 1;
    if h < n {
      PendingCountPositive(events[..n], h, kind);
    }
  }

  /** A positive count has a pending event of that kind behind it. */
  lemma {:induction false} PendingCountWitness(events: seq<Event>, kind: EventKind) returns (h: nat)
    requires PendingCount(events, kind) >= 1
    ensures h < |events| && Weight(events[h], kind) == 1
  {
    var n := |events| - 1;
    if Weight(events[n], kind) == 1 {
      h := n;
    } else {
      h := PendingCountWitness(events[..n], kind);
    }
  }

  /** With at most one pending event of a kind, two pending events of that kind are the same event. */
  lemma {:induction false} PendingCountAtMostOne(events: seq<Event>, h1: nat, h2: nat, kind: EventKind)
    requires h1 < |events| && h2 < |events|
    requires Weight(events[h1], kind) == 1 && Weight(events[h2], kind) == 1
    requires PendingCount(events, kind) <= 1
    ensures h1 == h2
  {
    var n := |events| - 1;
    if h1 < n && h2 < n {
      PendingCountAtMostOne(events[..n], h1, h2, kind);
    } else if h1 < n {
      PendingCountPositive(events[..n], h1, kind);
    } else if h2 < n {
      PendingCountPositive(events[..n], h2, kind);
    }
  }

  /** The state after cancelling handle `h`: a pending event becomes cancelled, any other is left as it is. */
  function CancelAt(events: seq<Event>, h: nat): (r: seq<Event>)
    requires h < |events|
    ensures |r| == |events| && r[h].status != Pending
    ensures forall j | 0 <= j < |events| && j != h :: r[j] == events[j]
    ensures r[h] == events[h].(status := r[h].status)
    ensures events[h].status == Pending ==> r[h].status == Cancelled
    ensures events[h].status != Pending ==> r == events
  {
    if events[h].status == Pending then events[h := events[h].(status := Cancelled)] else events
  }

  /** The earliest pending event: no pending event is due before it. Ties are left open. */
  ghost predicate IsEarliestPending(events: seq<Event>, k: nat)
  {
    k < |events| && events[k].status == Pending &&
    forall j | 0 <= j < |events| && events[j].status == Pending :: events[k].time <= events[j].time
  }

  /** The clock and the arena of scheduled events. */
  class Scheduler {
    var now: real
    var events: seq<Event>

    /** No pending event lies in the past. */
    ghost predicate Valid()
      reads this
    {
      forall j | 0 <= j < |events| && events[j].status == Pending :: now <= events[j].time
    }

    /** A reset simulation: time zero, nothing scheduled. */
    constructor ()
      ensures Valid() && now == 0.0 && events == []
    {
      now, events := 0.0, [];
    }

    /** Schedules `kind` at `now + delay` and returns its handle. */
    method Schedule(delay: real, kind: EventKind) returns (h: nat)
      requires Valid() && delay >= 0.0
      modifies this
      ensures Valid() && now == old(now)
      ensures h == |old(events)|
      ensures events == old(events) + [Event(now + delay, kind, Pending)]
    {
      h := |events|;
      events := events + [Event(now + delay, kind, Pending)];
    }

    /** Cancels handle `h`; cancelling a cancelled or fired event does nothing. */
    method Cancel(h: nat)
      requires Valid() && h < |events|
      modifies this
      ensures Valid() && now == old(now)
      ensures events == CancelAt(old(events), h)
    {
      if events[h].status == Pending {
        events := events[h := events[h].(status := Cancelled)];
      }
    }

    /** Takes the earliest pending event out of the arena and moves the clock to its time. */
    method Fire(k: nat)
      requires Valid() && IsEarliestPending(events, k)
      modifies this
      ensures Valid()
      ensures old(now) <= now == old(events)[k].time
      ensures events == old(events)[k := old(events)[k].(status := Fired)]
    {
      now := events[k].time;
      events := events[k := events[k].(status := Fired)];
    }
  }
}
