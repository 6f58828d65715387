/** Every event a run can take keeps the invariant of the checkout model, and what the invariant promises. */
module CheckoutProofs {
  import opened Routing
  import opened Registers
  import opened Scheduling
  import opened Checkout

  /** A fresh run satisfies the invariant. */
  lemma InitialInv(firstArrivalDelay: real)
    requires firstArrivalDelay >= 0.0
    ensures Inv(Initial(firstArrivalDelay))
  {
    var w := Initial(firstArrivalDelay);
    forall i | 0 <= i < |w.queues| ensures BusyOk(w, i) {
      assert w.events == [] + [w.events[0]];
      PendingCountAppend([], w.events[0], Serviced(i));
    }
    PendingCountAppend([], w.events[0], Arrival);
    assert [] + [w.events[0]] == w.events;
  }

  /**
   * Taking the earliest pending event moves the clock forward, spends that one event and
   * changes nothing else: every part of the invariant that does not speak of that event stays.
   */
  lemma {:induction false} FireKeeps(w: State, k: nat)
    requires Inv(w) && IsEarliestPending(w.events, k)
    ensures var w1 := Fire(w, k);
      && w.now <= w1.now
      && |w1.phase| == |w1.customers| && |w1.queues| == NrCashRegisters
      && w1.arriveCount == |w1.customers| && w1.nextCustomerId == |w1.customers| + 1
      && w1.giveUpCount == multiset(w1.phase)[GaveUp]
      && NothingPastDue(w1) && StatsOk(w1)
      && (forall i | 0 <= i < |w1.queues| :: QueueOk(w1, i))
      && (forall c | 0 <= c < |w1.customers| && w.events[k].kind != GiveUp(c) :: CustomerOk(w1, c))
      && (forall e | 0 <= e < |w1.events| :: EventOk(w1, e))
      && (forall kind: EventKind {:trigger PendingCount(w1.events, kind)} ::
            PendingCount(w1.events, kind) == PendingCount(w.events, kind) - Weight(w.events[k], kind))
  {
    var w1 := Fire(w, k);
    forall kind: EventKind
      ensures PendingCount(w1.events, kind) == PendingCount(w.events, kind) - Weight(w.events[k], kind)
    {
      PendingCountSetStatus(w.events, k, Fired, kind);
    }
    forall i | 0 <= i < |w1.queues| ensures QueueOk(w1, i) {
      assert QueueOk(w, i);
    }
    forall c | 0 <= c < |w1.customers| && w.events[k].kind != GiveUp(c) ensures CustomerOk(w1, c) {
      assert CustomerOk(w, c);
    }
    forall e | 0 <= e < |w1.events| ensures EventOk(w1, e) {
      assert EventOk(w, e);
    }
  }

  /** The pending events of a kind among the one or two events an arrival schedules for its register. */
  lemma ArrivalTailCount(g: Event, s: Event, kind: EventKind)
    ensures PendingCount([g, s], kind) == Weight(g, kind) + Weight(s, kind)
    ensures PendingCount([g], kind) == Weight(g, kind)
  {
    assert [g, s][..1] == [g];
    assert [g][..0] == [];
    assert PendingCount([g], kind) == PendingCount([], kind) + Weight(g, kind);
    assert PendingCount([g, s], kind) == PendingCount([g], kind) + Weight(s, kind);
  }

  /** The state right after `CashRegister.customer_arrives` at register i, spelled out field by field. */
  ghost predicate ArrivedAt(w: State, w2: State, i: nat, delay: real)
    requires i < |w.queues|
  {
    var n := |w.customers|;
    var q := w.queues[i];
    var g := Event(w.now + MaxCustomerWaitingTime, GiveUp(n), Pending);
    w2.now == w.now &&
    w2.events == w.events + (if q == [] then [g.(status := Cancelled), Event(w.now + delay, Serviced(i), Pending)] else [g]) &&
    w2.queues == w.queues[i := q + [n]] &&
    w2.customers == w.customers + [Customer(w.nextCustomerId, i, w.now, |w.events|)] &&
    w2.phase == w.phase + [if q == [] then InService else Waiting] &&
    w2.queueLengths == w.queueLengths + [|q| as real] &&
    w2.queueingTimes == w.queueingTimes + (if q == [] then [0.0] else []) &&
    w2.queueingWho == w.queueingWho + (if q == [] then [n] else []) &&
    w2.waitingTimes == w.waitingTimes && w2.waitingWho == w.waitingWho &&
    w2.arriveCount == w.arriveCount + 1 && w2.giveUpCount == w.giveUpCount &&
    w2.nextCustomerId == w.nextCustomerId + 1
  }

  lemma RegisterArrivalShape(w: State, i: nat, delay: real)
    requires i < |w.queues| && |w.phase| == |w.customers|
    ensures ArrivedAt(w, RegisterCustomerArrives(w, i, delay), i, delay)
  {
    var n := |w.customers|;
    var g := Event(w.now + MaxCustomerWaitingTime, GiveUp(n), Pending);
    if w.queues[i] == [] {
      assert CancelAt(w.events + [g], |w.events|) == w.events + [g.(status := Cancelled)];
    }
  }

  /**
   * `CashRegister.customer_arrives` keeps the run consistent: the new customer waits at the
   * tail, or is in service at once with its give-up event cancelled and the register's one
   * Serviced event scheduled; the arrival process is untouched.
   */
  lemma RegisterArrivalKeepsConsistent(w: State, i: nat, delay: real)
    requires Consistent(w) && i < |w.queues| && delay >= 0.0
    ensures var w2 := RegisterCustomerArrives(w, i, delay);
      Consistent(w2) && PendingCount(w2.events, Arrival) == PendingCount(w.events, Arrival)
  {
    RegisterArrivalShape(w, i, delay);
    ArrivedKeepsConsistent(w, RegisterCustomerArrives(w, i, delay), i, delay);
  }

  lemma {:induction false} ArrivedKeepsConsistent(w: State, w2: State, i: nat, delay: real)
    requires Consistent(w) && i < |w.queues| && delay >= 0.0 && ArrivedAt(w, w2, i, delay)
    ensures Consistent(w2) && PendingCount(w2.events, Arrival) == PendingCount(w.events, Arrival)
  {
    var n := |w.customers|;
    var q := w.queues[i];
    assert QueueOk(w, i);
    DistinctBounded(q, n);
    var g := Event(w.now + MaxCustomerWaitingTime, GiveUp(n), Pending);
    var s := Event(w.now + delay, Serviced(i), Pending);
    var tail := if q == [] then [g.(status := Cancelled), s] else [g];
    forall kind: EventKind
      ensures PendingCount(w2.events, kind) == PendingCount(w.events, kind) + PendingCount(tail, kind)
    {
      PendingCountConcat(w.events, tail, kind);
      ArrivalTailCount(tail[0], s, kind);
    }
    ArrivedQueues(w, w2, i, delay);
    ArrivedCustomers(w, w2, i, delay);
    forall e | 0 <= e < |w2.events| ensures EventOk(w2, e) {
      if e < |w.events| {
        assert EventOk(w, e);
      }
    }
    ArrivalTailCount(tail[0], s, Arrival);
    assert PendingCount(tail, Arrival) == 0;
  }

  lemma ArrivedQueues(w: State, w2: State, i: nat, delay: real)
    requires Consistent(w) && i < |w.queues| && delay >= 0.0 && ArrivedAt(w, w2, i, delay)
    ensures forall j | 0 <= j < |w2.queues| :: QueueOk(w2, j) && BusyOk(w2, j)
  {
    var n := |w.customers|;
    var q := w.queues[i];
    var g := Event(w.now + MaxCustomerWaitingTime, GiveUp(n), Pending);
    var s := Event(w.now + delay, Serviced(i), Pending);
    var tail := if q == [] then [g.(status := Cancelled), s] else [g];
    forall j | 0 <= j < |w2.queues| ensures QueueOk(w2, j) && BusyOk(w2, j) {
      assert QueueOk(w, j) && BusyOk(w, j);
      PendingCountConcat(w.events, tail, Serviced(j));
      ArrivalTailCount(tail[0], s, Serviced(j));
    }
  }

  lemma ArrivedCustomers(w: State, w2: State, i: nat, delay: real)
    requires Consistent(w) && i < |w.queues| && delay >= 0.0 && ArrivedAt(w, w2, i, delay)
    ensures forall c | 0 <= c < |w2.customers| :: CustomerOk(w2, c)
  {
    var n := |w.customers|;
    forall c | 0 <= c < |w2.customers| ensures CustomerOk(w2, c) {
      if c < n {
        assert CustomerOk(w, c);
      }
    }
  }

  /** `PaymentSection.schedule_next_arrival` puts back the one pending arrival the run needs. */
  lemma NextArrivalRestores(w: State, delay: real)
    requires Consistent(w) && PendingCount(w.events, Arrival) == 0 && delay >= 0.0
    ensures Inv(ScheduleNextArrival(w, delay))
  {
    var w2 := ScheduleNextArrival(w, delay);
    var a := Event(w.now + delay, Arrival, Pending);
    forall kind: EventKind
      ensures PendingCount(w2.events, kind) == PendingCount(w.events, kind) + Weight(a, kind)
    {
      PendingCountAppend(w.events, a, kind);
    }
    forall i | 0 <= i < |w2.queues| ensures QueueOk(w2, i) && BusyOk(w2, i) {
      assert QueueOk(w, i) && BusyOk(w, i);
    }
    forall c | 0 <= c < |w2.customers| ensures CustomerOk(w2, c) {
      assert CustomerOk(w, c);
    }
    forall e | 0 <= e < |w2.events| ensures EventOk(w2, e) {
      if e < |w.events| {
        assert EventOk(w, e);
      }
    }
  }

  /**
   * The arrival event: the customer is routed to the shortest queue (the first of equally
   * short ones), joins its tail, and only that queue changes; the next arrival is scheduled,
   * and the run stays consistent.
   */
  lemma ArrivalKeepsInv(w: State, k: nat, interarrival: real, service: real)
    requires Inv(w) && IsEarliestPending(w.events, k) && w.events[k].kind == Arrival
    requires interarrival >= 0.0 && service >= 0.0
    ensures var w1 := Fire(w, k);
      var w2 := PaymentSectionCustomerArrives(w1, interarrival, service);
      var i := ShortestQueue(Lengths(w1.queues));
      && Inv(w2)
      && (forall j | 0 <= j < |w1.queues| :: |w1.queues[i]| <= |w1.queues[j]|)
      && (forall j | 0 <= j < i :: |w1.queues[i]| < |w1.queues[j]|)
      && w2.queues == w1.queues[i := w1.queues[i] + [|w1.customers|]]
  {
    FireKeeps(w, k);
    var w1 := Fire(w, k);
    forall i | 0 <= i < |w1.queues| ensures BusyOk(w1, i) {
      assert BusyOk(w, i);
    }
    assert Consistent(w1);
    var i := ShortestQueue(Lengths(w1.queues));
    RegisterArrivalKeepsConsistent(w1, i, service);
    RegisterArrivalShape(w1, i, service);
    NextArrivalRestores(RegisterCustomerArrives(w1, i, service), interarrival);
  }

  /**
   * `CashRegister.customer_arrives` at register i records the queue length the customer found,
   * puts the customer at the tail, and starts its service exactly when the queue was empty; in
   * any case the register then has exactly one Serviced event outstanding.
   */
  lemma RegisterArrivalEffects(w: State, i: nat, delay: real)
    requires Consistent(w) && i < |w.queues| && delay >= 0.0
    ensures var w2 := RegisterCustomerArrives(w, i, delay);
      var n := |w.customers|;
      && |w2.customers| == n + 1 && w2.customers[n].register == i
      && w2.queueLengths == w.queueLengths + [|w.queues[i]| as real]
      && w2.queues[i] == w.queues[i] + [n]
      && (w2.phase[n] == InService <==> w.queues[i] == [])
      && (w2.phase[n] == Waiting <==> w.queues[i] != [])
      && PendingCount(w2.events, Serviced(i)) == 1
      && w2.queueLengths[n] <= |set c: nat | c < n && w.customers[c].register == i| as real
  {
    var q := w.queues[i];
    assert QueueOk(w, i);
    DistinctWithin(q, set c: nat | c < |w.customers| && w.customers[c].register == i);
    RegisterArrivalShape(w, i, delay);
    RegisterArrivalKeepsConsistent(w, i, delay);
    assert BusyOk(RegisterCustomerArrives(w, i, delay), i);
  }

  /**
   * The state right after `CashRegister.handle_serviced` at register i, spelled out: the head
   * c is served and leaves; the next customer d, if any, starts service.
   */
  ghost predicate ServicedAt(w: State, w2: State, i: nat, delay: real)
    requires WellFormed(w) && i < |w.queues| && w.queues[i] != []
  {
    var q := w.queues[i];
    var c := q[0];
    var w1 := w.(waitingTimes := w.waitingTimes + [w.now - w.customers[c].arrivalTime],
                 waitingWho := w.waitingWho + [c],
                 phase := w.phase[c := Served],
                 queues := w.queues[i := q[1..]]);
    if |q| == 1 then w2 == w1
    else
      var d := q[1];
      w2 == w1.(queueingTimes := w.queueingTimes + [w.now - w.customers[d].arrivalTime],
                queueingWho := w.queueingWho + [d],
                phase := w.phase[c := Served][d := InService],
                events := CancelAt(w.events, w.customers[d].giveUpEvent) + [Event(w.now + delay, Serviced(i), Pending)])
  }

  lemma ServicedShape(w: State, i: nat, delay: real)
    requires WellFormed(w) && i < |w.queues| && w.queues[i] != []
    ensures ServicedAt(w, HandleServiced(w, i, delay), i, delay)
  {
  }

  /**
   * The facts HandleServiced relies on after the Serviced event of register i was taken: the
   * run is consistent except that register i has no Serviced event left, and its queue is not empty.
   */
  ghost predicate ServicedPre(w: State, i: nat)
  {
    Core(w) && i < |w.queues| && w.queues[i] != [] &&
    PendingCount(w.events, Serviced(i)) == 0 &&
    forall j | 0 <= j < |w.queues| && j != i :: BusyOk(w, j)
  }

  lemma ServicedKeepsConsistent(w: State, w2: State, i: nat, delay: real)
    requires ServicedPre(w, i) && delay >= 0.0
    requires WellFormed(w) && ServicedAt(w, w2, i, delay)
    ensures Consistent(w2) && PendingCount(w2.events, Arrival) == PendingCount(w.events, Arrival)
  {
    ServicedEvents(w, w2, i, delay);
    ServicedStats(w, w2, i, delay);
    ServicedQueues(w, w2, i, delay);
    ServicedCustomers(w, w2, i, delay);
  }

  lemma ServicedEvents(w: State, w2: State, i: nat, delay: real)
    requires ServicedPre(w, i) && delay >= 0.0
    requires WellFormed(w) && ServicedAt(w, w2, i, delay)
    ensures NothingPastDue(w2) && PendingCount(w2.events, Arrival) == PendingCount(w.events, Arrival)
    ensures forall e | 0 <= e < |w2.events| :: EventOk(w2, e)
  {
    var q := w.queues[i];
    assert QueueOk(w, i);
    if |q| > 1 {
      var d := q[1];
      assert CustomerOk(w, d);
      var g := w.customers[d].giveUpEvent;
      var s := Event(w.now + delay, Serviced(i), Pending);
      assert CancelAt(w.events, g) == w.events[g := w.events[g].(status := Cancelled)];
      PendingCountSetStatus(w.events, g, Cancelled, Arrival);
      PendingCountAppend(CancelAt(w.events, g), s, Arrival);
    }
    forall e | 0 <= e < |w2.events| ensures EventOk(w2, e) {
      if e < |w.events| {
        assert EventOk(w, e);
      }
    }
  }

  lemma ServicedStats(w: State, w2: State, i: nat, delay: real)
    requires ServicedPre(w, i) && delay >= 0.0
    requires WellFormed(w) && ServicedAt(w, w2, i, delay)
    ensures |w2.phase| == |w2.customers| && |w2.queues| == NrCashRegisters
    ensures w2.arriveCount == |w2.customers| && w2.nextCustomerId == |w2.customers| + 1
    ensures w2.giveUpCount == multiset(w2.phase)[GaveUp] && StatsOk(w2)
  {
    var q := w.queues[i];
    assert QueueOk(w, i);
    assert CustomerOk(w, q[0]);
    if |q| > 1 {
      assert CustomerOk(w, q[1]);
    }
  }

  lemma ServicedQueues(w: State, w2: State, i: nat, delay: real)
    requires ServicedPre(w, i) && delay >= 0.0
    requires WellFormed(w) && ServicedAt(w, w2, i, delay)
    ensures forall j | 0 <= j < |w2.queues| :: QueueOk(w2, j) && BusyOk(w2, j)
  {
    var q := w.queues[i];
    assert QueueOk(w, i);
    var c := q[0];
    var s := Event(w.now + delay, Serviced(i), Pending);
    if |q| > 1 {
      var d := q[1];
      var g := w.customers[d].giveUpEvent;
      assert CustomerOk(w, d);
      assert CancelAt(w.events, g) == w.events[g := w.events[g].(status := Cancelled)];
    }
    forall j | 0 <= j < |w2.queues| ensures QueueOk(w2, j) && BusyOk(w2, j) {
      assert QueueOk(w, j);
      if |q| > 1 {
        var g := w.customers[q[1]].giveUpEvent;
        PendingCountSetStatus(w.events, g, Cancelled, Serviced(j));
        PendingCountAppend(CancelAt(w.events, g), s, Serviced(j));
      }
      if j != i {
        assert BusyOk(w, j);
      }
    }
  }

  lemma ServicedCustomers(w: State, w2: State, i: nat, delay: real)
    requires ServicedPre(w, i) && delay >= 0.0
    requires WellFormed(w) && ServicedAt(w, w2, i, delay)
    ensures forall x | 0 <= x < |w2.customers| :: CustomerOk(w2, x)
  {
    var q := w.queues[i];
    assert QueueOk(w, i);
    forall x | 0 <= x < |w2.customers| ensures CustomerOk(w2, x) {
      assert CustomerOk(w, x);
      assert CustomerOk(w, q[0]);
      if |q| > 1 {
        assert CustomerOk(w, q[1]);
      }
    }
  }

  /** A run that is consistent apart from its service events has indices that all point somewhere. */
  lemma CoreWellFormed(w: State)
    requires Core(w)
    ensures WellFormed(w)
  {
    forall c | 0 <= c < |w.customers|
      ensures w.customers[c].register < |w.queues| && w.customers[c].giveUpEvent < |w.events|
    {
      assert CustomerOk(w, c);
    }
    forall i, k | 0 <= i < |w.queues| && 0 <= k < |w.queues[i]| ensures w.queues[i][k] < |w.customers| {
      assert QueueOk(w, i);
    }
  }

  /** Taking the Serviced event of register i leaves a run ready for `handle_serviced`. */
  lemma FireServiced(w: State, k: nat, i: nat)
    requires Inv(w) && IsEarliestPending(w.events, k) && w.events[k].kind == Serviced(i)
    ensures ServicedPre(Fire(w, k), i) && PendingCount(Fire(w, k).events, Arrival) == 1
  {
    FireKeeps(w, k);
    var w1 := Fire(w, k);
    assert EventOk(w, k);
    PendingCountPositive(w.events, k, Serviced(i));
    assert BusyOk(w, i);
    forall j | 0 <= j < |w1.queues| && j != i ensures BusyOk(w1, j) {
      assert BusyOk(w, j);
    }
  }

  /**
   * The Serviced event of register i: that register was busy, its head leaves served, the
   * next customer (if any) starts service with a new Serviced event, and the run stays consistent.
   */
  lemma ServicedKeepsInv(w: State, k: nat, i: nat, delay: real)
    requires Inv(w) && IsEarliestPending(w.events, k) && w.events[k].kind == Serviced(i)
    requires delay >= 0.0
    ensures var w1 := Fire(w, k);
      && i < |w1.queues| && w1.queues[i] != [] && WellFormed(w1)
      && var w2 := HandleServiced(w1, i, delay);
      && Inv(w2)
      && w2.queues[i] == w1.queues[i][1..]
      && w2.phase[w1.queues[i][0]] == Served
      && PendingCount(w2.events, Serviced(i)) == (if w2.queues[i] == [] then 0 else 1)
  {
    FireServiced(w, k, i);
    var w1 := Fire(w, k);
    CoreWellFormed(w1);
    ServicedShape(w1, i, delay);
    var w2 := HandleServiced(w1, i, delay);
    ServicedKeepsConsistent(w1, w2, i, delay);
    assert BusyOk(w2, i);
    assert QueueOk(w1, i);
    if |w1.queues[i]| > 1 {
      assert w1.queues[i][0] != w1.queues[i][1];
    }
  }

  /**
   * A pending give-up event belongs to a waiting customer who stands behind the head of its
   * register's queue: the customer in service can never give up.
   */
  lemma GiveUpTargetWaitsBehindHead(w: State, k: nat, c: nat)
    requires Inv(w) && k < |w.events| && w.events[k].status == Pending && w.events[k].kind == GiveUp(c)
    ensures c < |w.customers| && w.phase[c] == Waiting && w.customers[c].register < |w.queues|
    ensures c in w.queues[w.customers[c].register]
    ensures FirstIndex(w.queues[w.customers[c].register], c) > 0
  {
    assert EventOk(w, k);
    assert CustomerOk(w, c);
    var q := w.queues[w.customers[c].register];
    assert QueueOk(w, w.customers[c].register);
    assert w.phase[q[0]] == InService;
  }

  /**
   * The facts `Customer.give_up` relies on once its event was taken: the run is consistent
   * except for customer c, who still waits in its register's queue while its give-up event is spent.
   */
  ghost predicate GiveUpPre(w: State, c: nat)
  {
    |w.phase| == |w.customers| && |w.queues| == NrCashRegisters &&
    w.arriveCount == |w.customers| && w.nextCustomerId == |w.customers| + 1 &&
    w.giveUpCount == multiset(w.phase)[GaveUp] && NothingPastDue(w) &&
    (forall i | 0 <= i < |w.queues| :: QueueOk(w, i) && BusyOk(w, i)) &&
    (forall x | 0 <= x < |w.customers| && x != c :: CustomerOk(w, x)) &&
    (forall e | 0 <= e < |w.events| :: EventOk(w, e)) && StatsOk(w) &&
    c < |w.customers| && w.phase[c] == Waiting &&
    var cu := w.customers[c];
    cu.id == c + 1 && cu.register < |w.queues| && cu.arrivalTime <= w.now &&
    cu.giveUpEvent < |w.events| &&
    w.events[cu.giveUpEvent] == Event(cu.arrivalTime + MaxCustomerWaitingTime, GiveUp(c), Fired) &&
    c in w.queues[cu.register] &&
    multiset(w.queueingWho)[c] == 0 && multiset(w.waitingWho)[c] == 0
  }

  /** Taking the give-up event of customer c leaves a run ready for `Customer.give_up`. */
  lemma FireGiveUp(w: State, k: nat, c: nat)
    requires Inv(w) && IsEarliestPending(w.events, k) && w.events[k].kind == GiveUp(c)
    ensures GiveUpPre(Fire(w, k), c) && PendingCount(Fire(w, k).events, Arrival) == 1
  {
    GiveUpTargetWaitsBehindHead(w, k, c);
    FireKeeps(w, k);
    var w1 := Fire(w, k);
    assert EventOk(w, k);
    assert CustomerOk(w, c);
    forall i | 0 <= i < |w1.queues| ensures BusyOk(w1, i) {
      assert BusyOk(w, i);
    }
  }

  lemma GiveUpQueues(w: State, c: nat)
    requires GiveUpPre(w, c)
    ensures var w2 := GiveUpWaiting(w, c);
      forall j | 0 <= j < |w2.queues| :: QueueOk(w2, j) && BusyOk(w2, j)
  {
    var w2 := GiveUpWaiting(w, c);
    var r := w.customers[c].register;
    var q := w.queues[r];
    assert QueueOk(w, r);
    var i := FirstIndex(q, c);
    assert i > 0 by {
      assert w.phase[q[0]] == InService;
    }
    RemoveFirstIndices(q, c);
    RemoveFirstDistinct(q, c);
    forall j | 0 <= j < |w2.queues| ensures QueueOk(w2, j) && BusyOk(w2, j) {
      assert QueueOk(w, j) && BusyOk(w, j);
      if j == r {
        var q2 := w2.queues[r];
        forall k | 0 <= k < |q2|
          ensures q2[k] < |w2.customers| && w2.customers[q2[k]].register == r
          ensures w2.phase[q2[k]] == (if k == 0 then InService else Waiting)
        {
          if k < i {
            assert q2[k] == q[k];
          } else {
            assert q2[k] == q[k + 1];
          }
        }
      }
    }
  }

  lemma GiveUpCustomers(w: State, c: nat)
    requires GiveUpPre(w, c)
    ensures var w2 := GiveUpWaiting(w, c);
      forall x | 0 <= x < |w2.customers| :: CustomerOk(w2, x)
  {
    var r := w.customers[c].register;
    var q := w.queues[r];
    assert QueueOk(w, r);
    RemoveFirstDistinct(q, c);
    var w2 := GiveUpWaiting(w, c);
    forall x | 0 <= x < |w2.customers| ensures CustomerOk(w2, x) {
      if x != c {
        assert CustomerOk(w, x);
      }
    }
  }

  lemma GiveUpStats(w: State, c: nat)
    requires GiveUpPre(w, c)
    ensures var w2 := GiveUpWaiting(w, c);
      && w2.giveUpCount == multiset(w2.phase)[GaveUp] && StatsOk(w2)
      && NothingPastDue(w2) && forall e | 0 <= e < |w2.events| :: EventOk(w2, e)
  {
    var w2 := GiveUpWaiting(w, c);
    forall e | 0 <= e < |w2.events| ensures EventOk(w2, e) {
      assert EventOk(w, e);
    }
  }

  /**
   * The give-up event of customer c: the customer leaves its queue (never its head), is
   * counted once more among those who gave up, and the run stays consistent.
   */
  lemma GiveUpKeepsInv(w: State, k: nat, c: nat)
    requires Inv(w) && IsEarliestPending(w.events, k) && w.events[k].kind == GiveUp(c)
    ensures var w1 := Fire(w, k);
      && c < |w1.customers| && |w1.phase| == |w1.customers| && w1.customers[c].register < |w1.queues|
      && var r := w1.customers[c].register;
      && c in w1.queues[r]
      && var w2 := GiveUpWaiting(w1, c);
      && Inv(w2)
      && w2.giveUpCount == w.giveUpCount + 1
      && w2.queues[r] == RemoveFirst(w1.queues[r], c) && c !in w2.queues[r]
      && w2.queues[r] != [] && w2.queues[r][0] == w1.queues[r][0]
  {
    GiveUpTargetWaitsBehindHead(w, k, c);
    FireGiveUp(w, k, c);
    var w1 := Fire(w, k);
    GiveUpQueues(w1, c);
    GiveUpCustomers(w1, c);
    GiveUpStats(w1, c);
    var r := w1.customers[c].register;
    assert QueueOk(w1, r);
    RemoveFirstIndices(w1.queues[r], c);
    RemoveFirstDistinct(w1.queues[r], c);
  }

  /**
   * One event of the run: the scheduler takes the earliest pending event k and the handler
   * its kind is registered with runs. Every such step keeps the invariant and never moves the
   * clock back.
   */
  function Step(w: State, k: nat, interarrival: real, service: real): (w2: State)
    requires Inv(w) && IsEarliestPending(w.events, k)
    requires interarrival >= 0.0 && service >= 0.0
    ensures Inv(w2) && w.now <= w2.now
    ensures w2.arriveCount == w.arriveCount + (if w.events[k].kind == Arrival then 1 else 0)
    ensures w2.giveUpCount == w.giveUpCount + (if w.events[k].kind.GiveUp? then 1 else 0)
    ensures |w.customers| <= |w2.customers| && w2.customers[..|w.customers|] == w.customers
  {
    var w1 := Fire(w, k);
    match w.events[k].kind
    case Arrival =>
      ArrivalKeepsInv(w, k, interarrival, service);
      PaymentSectionCustomerArrives(w1, interarrival, service)
    case Serviced(i) =>
      ServicedKeepsInv(w, k, i, service);
      HandleServiced(w1, i, service)
    case GiveUp(c) =>
      GiveUpKeepsInv(w, k, c);
      GiveUpWaiting(w1, c)
  }

  /** Never more customers gave up than arrived. */
  lemma GiveUpsBounded(w: State)
    requires Inv(w)
    ensures w.giveUpCount <= w.arriveCount
  {
  }

  /**
   * A customer is in service exactly when it is the head of its register's queue; its
   * give-up event is pending exactly when it stands behind the head.
   */
  lemma OnlyHeadInService(w: State, c: nat)
    requires Inv(w) && c < |w.customers|
    ensures w.customers[c].register < |w.queues| && w.customers[c].giveUpEvent < |w.events|
    ensures var r := w.customers[c].register;
      && (w.phase[c] == InService <==> w.queues[r] != [] && w.queues[r][0] == c)
      && (w.events[w.customers[c].giveUpEvent].status == Pending <==>
            c in w.queues[r] && FirstIndex(w.queues[r], c) > 0)
  {
    assert CustomerOk(w, c);
    var r := w.customers[c].register;
    var q := w.queues[r];
    assert QueueOk(w, r);
    if c in q {
      var i := FirstIndex(q, c);
      assert w.phase[q[i]] == (if i == 0 then InService else Waiting);
    }
  }

  /**
   * Each customer has one queueing-time record once its service started or it gave up, and
   * none before; one waiting-time record once it left, and none before. Every record is a
   * duration that is not negative.
   */
  lemma RecordsOnce(w: State, c: nat)
    requires Inv(w) && c < |w.customers|
    ensures multiset(w.queueingWho)[c] == (if w.phase[c] == Waiting then 0 else 1)
    ensures multiset(w.waitingWho)[c] == (if w.phase[c] in {Served, GaveUp} then 1 else 0)
    ensures forall k | 0 <= k < |w.queueingTimes| :: w.queueingTimes[k] >= 0.0
    ensures forall k | 0 <= k < |w.waitingTimes| :: w.waitingTimes[k] >= 0.0
  {
    assert CustomerOk(w, c);
  }

  /** Customer ids count up from 1 in arrival order, so no two customers share one. */
  lemma IdsIncreasing(w: State)
    requires Inv(w)
    ensures forall a, b | 0 <= a < b < |w.customers| :: 1 <= w.customers[a].id < w.customers[b].id < w.nextCustomerId
  {
    forall a, b | 0 <= a < b < |w.customers|
      ensures 1 <= w.customers[a].id < w.customers[b].id < w.nextCustomerId
    {
      assert Core(w);
      assert CustomerOk(w, a) && CustomerOk(w, b);
    }
  }

  /**
   * Register i has a pending Serviced event exactly when its queue is not empty, and never
   * two of them.
   */
  lemma ServicedOutstanding(w: State, i: nat)
    requires Inv(w) && i < |w.queues|
    ensures (exists h | 0 <= h < |w.events| :: w.events[h].status == Pending && w.events[h].kind == Serviced(i))
            <==> w.queues[i] != []
    ensures forall h1, h2 | 0 <= h1 < |w.events| && 0 <= h2 < |w.events| &&
              w.events[h1].status == Pending && w.events[h1].kind == Serviced(i) &&
              w.events[h2].status == Pending && w.events[h2].kind == Serviced(i) :: h1 == h2
  {
    assert BusyOk(w, i);
    if w.queues[i] != [] {
      var h := PendingCountWitness(w.events, Serviced(i));
      assert w.events[h].status == Pending && w.events[h].kind == Serviced(i);
    }
    forall h | 0 <= h < |w.events| && w.events[h].status == Pending && w.events[h].kind == Serviced(i)
      ensures w.queues[i] != []
    {
      PendingCountPositive(w.events, h, Serviced(i));
    }
    forall h1, h2 | 0 <= h1 < |w.events| && 0 <= h2 < |w.events| &&
        w.events[h1].status == Pending && w.events[h1].kind == Serviced(i) &&
        w.events[h2].status == Pending && w.events[h2].kind == Serviced(i)
      ensures h1 == h2
    {
      PendingCountAtMostOne(w.events, h1, h2, Serviced(i));
    }
  }
}
