/**
 * The supermarket checkout simulation as the program runs it: objects whose fields change in
 * place. One `Simulation` object is a run: it holds what the program keeps in module globals
 * (the three accumulators, the arrival and give-up counters, the id counters), the payment
 * section's cash registers, the customers created so far and the event scheduler.
 *
 * Every method is proved against the transition of the same name in module Checkout: the
 * abstract state after the call is that transition applied to the abstract state before it.
 */
module Supermarket {
  import opened Statistics
  import opened Routing
  import opened Registers
  import opened Scheduling
  import opened Checkout
  import opened CheckoutProofs

  class Simulation {
    const sched: Scheduler
    const queueLength: Observation
    const queueingTime: Observation
    const waitingTime: Observation
    /** The payment section's cash registers, in creation order. */
    const registers: seq<CashRegister>
    var arriveCount: nat
    var giveUpCount: nat
    /** The class-level id counters of customers and cash registers. */
    var nextCustomerId: nat
    var nextRegisterId: nat
    /** Customer number c is customers[c]. */
    var customers: seq<Customer>
    /** Where each customer is in its life. */
    ghost var phase: seq<Phase>
    /** Whose time each queueing-time and waiting-time observation is, in order of observation. */
    ghost var queueingWho: seq<nat>
    ghost var waitingWho: seq<nat>

    /** The objects of the run are distinct and each is valid; registers are numbered from 1. */
    ghost predicate Wf()
      reads this, sched, queueLength, queueingTime, waitingTime, registers
    {
      queueLength != queueingTime && queueLength != waitingTime && queueingTime != waitingTime &&
      |registers| == NrCashRegisters &&
      (forall i, j | 0 <= i < j < |registers| :: registers[i] != registers[j]) &&
      (forall i | 0 <= i < |registers| :: registers[i].id == i + 1) &&
      nextRegisterId == |registers| + 1 &&
      sched.Valid() && queueLength.Valid() && queueingTime.Valid() && waitingTime.Valid() &&
      |phase| == |customers|
    }

    /** The queues of the cash registers, register by register. */
    ghost function Queues(): (r: seq<seq<nat>>)
      reads this, registers
      ensures |r| == |registers|
      ensures forall i | 0 <= i < |registers| :: r[i] == registers[i].queue
    {
      seq(|registers|, i requires 0 <= i < |registers| reads registers => registers[i].queue)
    }

    /** The queue lengths of the cash registers, as `min` with `queue_length` as key sees them. */
    function QueueLengths(): (r: seq<nat>)
      reads this, registers
      ensures r == Lengths(Queues())
    {
      seq(|registers|, i requires 0 <= i < |registers| reads registers => registers[i].QueueLength())
    }

    /** The abstract state of the run. */
    ghost function State(): Checkout.State
      reads this, sched, queueLength, queueingTime, waitingTime, registers
    {
      Checkout.State(sched.now, sched.events, Queues(), customers, phase, queueLength.values,
                     queueingTime.values, queueingWho, waitingTime.values, waitingWho,
                     arriveCount, giveUpCount, nextCustomerId)
    }

    /** The invariant of a run between two events. */
    ghost predicate Valid()
      reads this, sched, queueLength, queueingTime, waitingTime, registers
    {
      Wf() && Inv(State())
    }

    /**
     * A fresh run: the scheduler is reset, the payment section creates NrCashRegisters empty
     * cash registers numbered from 1, and the first arrival is scheduled.
     */
    constructor (firstArrivalDelay: real)
      requires firstArrivalDelay >= 0.0
      ensures Valid() && State() == Initial(firstArrivalDelay)
      ensures fresh(sched) && fresh(queueLength) && fresh(queueingTime) && fresh(waitingTime)
      ensures forall i | 0 <= i < |registers| :: fresh(registers[i]) && registers[i].id == i + 1
    {
      var regs: seq<CashRegister> := [];
      var nextId := 1;
      while |regs| < NrCashRegisters
        invariant |regs| <= NrCashRegisters && nextId == |regs| + 1
        invariant forall i | 0 <= i < |regs| :: fresh(regs[i]) && regs[i].id == i + 1 && regs[i].queue == []
        invariant forall i, j | 0 <= i < j < |regs| :: regs[i] != regs[j]
      {
        var r := new CashRegister(nextId);
        nextId := nextId + 1;
        regs := regs + [r];
      }
      registers := regs;
      var s := new Scheduler();
      var _ := s.Schedule(firstArrivalDelay, Arrival);
      sched := s;
      queueLength := new Observation();
      queueingTime := new Observation();
      waitingTime := new Observation();
      nextRegisterId := nextId;
      arriveCount, giveUpCount, nextCustomerId := 0, 0, 1;
      customers := [];
      phase, queueingWho, waitingWho := [], [], [];
      new;
      assert Wf();
      assert Queues() == seq(NrCashRegisters, _ => []);
      assert State() == Initial(firstArrivalDelay);
      InitialInv(firstArrivalDelay);
    }

    /** `PaymentSection.schedule_next_arrival`: one more Arrival event, `delay` from now. */
    method ScheduleNextArrival(delay: real)
      requires Wf() && delay >= 0.0
      modifies sched
      ensures Wf() && State() == Checkout.ScheduleNextArrival(old(State()), delay)
    {
      var _ := sched.Schedule(delay, Arrival);
    }

    /**
     * `Customer.__init__` for a customer of register i: counts the arrival, takes the next id,
     * notes the arrival time and arms the give-up event MaxCustomerWaitingTime ahead.
     */
    method NewCustomer(i: nat) returns (c: nat)
      requires Wf()
      modifies this, sched
      ensures Wf() && c == |old(customers)|
      ensures State() == Checkout.NewCustomer(old(State()), i)
    {
      arriveCount := arriveCount + 1;
      var id := nextCustomerId;
      nextCustomerId := nextCustomerId + 1;
      c := |customers|;
      var h := sched.Schedule(MaxCustomerWaitingTime, GiveUp(c));
      customers := customers + [Customer(id, i, sched.now, h)];
      phase := phase + [Waiting];
    }

    /** `Customer.start_service`: records the queueing time and cancels the give-up event. */
    method StartService(c: nat)
      requires Wf() && c < |customers| && customers[c].giveUpEvent < |sched.events|
      modifies this, sched, queueingTime
      ensures Wf() && State() == Checkout.StartService(old(State()), c)
    {
      queueingTime.Observe(sched.now - customers[c].arrivalTime);
      queueingWho := queueingWho + [c];
      sched.Cancel(customers[c].giveUpEvent);
      phase := phase[c := InService];
    }

    /** `Customer.finish_service`: records the waiting time, service included. */
    method FinishService(c: nat)
      requires Wf() && c < |customers|
      modifies this, waitingTime
      ensures Wf() && State() == Checkout.FinishService(old(State()), c)
    {
      waitingTime.Observe(sched.now - customers[c].arrivalTime);
      waitingWho := waitingWho + [c];
      phase := phase[c := Served];
    }

    /**
     * `Customer.give_up`: counts the give-up, records the time since arrival as both queueing
     * and waiting time, and leaves the queue of its register. `found` is false exactly where
     * `list.remove` would raise.
     */
    method GiveUpWaiting(c: nat) returns (found: bool)
      requires Wf() && c < |customers| && customers[c].register < |registers|
      modifies this, queueingTime, waitingTime, registers[customers[c].register]
      ensures Wf() && State() == Checkout.GiveUpWaiting(old(State()), c)
      ensures found == (c in old(registers[customers[c].register].queue))
    {
      ghost var w := State();
      var r := customers[c].register;
      giveUpCount := giveUpCount + 1;
      var waited := sched.now - customers[c].arrivalTime;
      queueingTime.Observe(waited);
      waitingTime.Observe(waited);
      queueingWho, waitingWho := queueingWho + [c], waitingWho + [c];
      phase := phase[c := GaveUp];
      assert Queues() == w.queues;
      found := registers[r].RemoveCustomer(c);
      assert Queues() == w.queues[r := RemoveFirst(w.queues[r], c)];
    }

    /**
     * `CashRegister.schedule_next_serviced`: the head of register i starts service and the
     * register's Serviced event is scheduled `delay` from now.
     */
    method ScheduleNextServiced(i: nat, delay: real)
      requires Wf() && i < |registers| && registers[i].queue != []
      requires registers[i].queue[0] < |customers|
      requires customers[registers[i].queue[0]].giveUpEvent < |sched.events|
      requires delay >= 0.0
      modifies this, sched, queueingTime
      ensures Wf() && State() == Checkout.ScheduleNextServiced(old(State()), i, delay)
    {
      var c := registers[i].queue[0];
      StartService(c);
      var _ := sched.Schedule(delay, Serviced(i));
    }

    /**
     * `CashRegister.customer_arrives` at register i: a new customer, an observation of the
     * queue length it finds, the customer at the tail, and service started when the queue has
     * just become one long.
     */
    method RegisterCustomerArrives(i: nat, delay: real)
      requires Wf() && i < |registers| && delay >= 0.0
      modifies this, sched, queueLength, queueingTime, registers[i]
      ensures Wf() && State() == Checkout.RegisterCustomerArrives(old(State()), i, delay)
    {
      ghost var w := State();
      var c := NewCustomer(i);
      ghost var w1 := State();
      queueLength.Observe(registers[i].QueueLength() as real);
      registers[i].Append(c);
      assert Queues() == w1.queues[i := w1.queues[i] + [c]];
      if registers[i].QueueLength() == 1 {
        ScheduleNextServiced(i, delay);
      }
    }

    /**
     * `CashRegister.handle_serviced` at register i: its head finishes service and leaves the
     * queue, and the next customer, if any, starts service.
     */
    method HandleServiced(i: nat, delay: real)
      requires Wf() && WellFormed(State()) && i < |registers| && registers[i].queue != []
      requires delay >= 0.0
      modifies this, sched, queueingTime, waitingTime, registers[i]
      ensures Wf() && State() == Checkout.HandleServiced(old(State()), i, delay)
    {
      var c := registers[i].queue[0];
      FinishService(c);
      ghost var before := Queues();
      registers[i].DropHead();
      assert Queues() == before[i := before[i][1..]];
      if registers[i].queue != [] {
        assert registers[i].queue[0] in old(registers[i].queue);
        ScheduleNextServiced(i, delay);
      }
    }

    /**
     * `PaymentSection.customer_arrives`: the customer goes to the register with the shortest
     * queue (the first of equally short ones), then the next arrival is scheduled.
     */
    method CustomerArrives(interarrival: real, service: real) returns (i: nat)
      requires Wf() && interarrival >= 0.0 && service >= 0.0
      modifies this, sched, queueLength, queueingTime, registers
      ensures Wf() && i == ShortestQueue(Lengths(old(State()).queues))
      ensures State() == PaymentSectionCustomerArrives(old(State()), interarrival, service)
    {
      i := ShortestQueue(QueueLengths());
      RegisterCustomerArrives(i, service);
      ScheduleNextArrival(interarrival);
    }

    /**
     * The scheduler takes the earliest pending event k and runs the handler registered for its
     * kind: the payment section's arrival handler, register i's serviced handler, or customer
     * c's give-up handler. `interarrival` and `service` are the delays the handler draws.
     */
    method HandleEvent(k: nat, interarrival: real, service: real)
      requires Valid() && IsEarliestPending(sched.events, k)
      requires interarrival >= 0.0 && service >= 0.0
      modifies this, sched, queueLength, queueingTime, waitingTime, registers
      ensures Valid() && State() == Step(old(State()), k, interarrival, service)
    {
      ghost var w := State();
      var kind := sched.events[k].kind;
      sched.Fire(k);
      assert State() == Fire(w, k);
      match kind
      case Arrival =>
        ArrivalKeepsInv(w, k, interarrival, service);
        var _ := CustomerArrives(interarrival, service);
      case Serviced(i) =>
        ServicedKeepsInv(w, k, i, service);
        HandleServiced(i, service);
      case GiveUp(c) =>
        GiveUpKeepsInv(w, k, c);
        var _ := GiveUpWaiting(c);
    }
  }
}
