/**
 * The abstract state of one simulation run of the supermarket checkout, the transition each
 * handler of the program performs on it, and the invariant every event preserves.
 */
module Checkout {
  import opened Routing
  import opened Registers
  import opened Scheduling

  const NrCashRegisters: nat := 3
  const MaxCustomerWaitingTime: real := 180.0

  /** Where a customer is in its life: the two terminal phases are Served and GaveUp. */
  datatype Phase = Waiting | InService | Served | GaveUp

  /** A customer: its id, the index of its cash register, its arrival time and its give-up event handle. */
  datatype Customer = Customer(id: nat, register: nat, arrivalTime: real, giveUpEvent: nat)

  /**
   * Everything one run keeps. Customer number c is customers[c] (its id is c + 1 in a valid
   * run); queues[i] is the queue of cash register i, head first. The three accumulators appear
   * as the sequences of their observed values; queueingWho and waitingWho name whose time each
   * queueing-time and waiting-time observation is.
   */
  datatype State = State(
    now: real,
    events: seq<Event>,
    queues: seq<seq<nat>>,
    customers: seq<Customer>,
    phase: seq<Phase>,
    queueLengths: seq<real>,
    queueingTimes: seq<real>,
    queueingWho: seq<nat>,
    waitingTimes: seq<real>,
    waitingWho: seq<nat>,
    arriveCount: nat,
    giveUpCount: nat,
    nextCustomerId: nat)

  /** The status a customer's give-up event has in each phase. */
  function GiveUpStatus(p: Phase): Status
  {
    match p
    case Waiting => Pending
    case InService => Cancelled
    case Served => Cancelled
    case GaveUp => Fired
  }

  /** The queue lengths, register by register. */
  function Lengths(queues: seq<seq<nat>>): (r: seq<nat>)
    ensures |r| == |queues|
    ensures forall i | 0 <= i < |queues| :: r[i] == |queues[i]|
  {
    seq(|queues|, i requires 0 <= i < |queues| => |queues[i]|)
  }

  /** The indices the handlers follow all point somewhere. */
  ghost predicate WellFormed(w: State)
  {
    |w.phase| == |w.customers| &&
    (forall c | 0 <= c < |w.customers| ::
       w.customers[c].register < |w.queues| && w.customers[c].giveUpEvent < |w.events|) &&
    (forall i, k | 0 <= i < |w.queues| && 0 <= k < |w.queues[i]| :: w.queues[i][k] < |w.customers|)
  }

  // ---------------------------------------------------------------------------------------
  // The transitions, one per method of the program.
  // ---------------------------------------------------------------------------------------

  /**
   * `Customer.__init__` for a customer of register i: counts the arrival, takes the next id,
   * notes the arrival time and arms the give-up event MaxCustomerWaitingTime ahead.
   */
  function NewCustomer(w: State, i: nat): State
  {
    w.(customers := w.customers + [Customer(w.nextCustomerId, i, w.now, |w.events|)],
       phase := w.phase + [Waiting],
       events := w.events + [Event(w.now + MaxCustomerWaitingTime, GiveUp(|w.customers|), Pending)],
       arriveCount := w.arriveCount + 1,
       nextCustomerId := w.nextCustomerId + 1)
  }

  /** `Customer.start_service`: records the queueing time and cancels the give-up event. */
  function StartService(w: State, c: nat): State
    requires c < |w.customers| && c < |w.phase| && w.customers[c].giveUpEvent < |w.events|
  {
    w.(queueingTimes := w.queueingTimes + [w.now - w.customers[c].arrivalTime],
       queueingWho := w.queueingWho + [c],
       events := CancelAt(w.events, w.customers[c].giveUpEvent),
       phase := w.phase[c := InService])
  }

  /** `Customer.finish_service`: records the waiting time, service included. */
  function FinishService(w: State, c: nat): State
    requires c < |w.customers| && c < |w.phase|
  {
    w.(waitingTimes := w.waitingTimes + [w.now - w.customers[c].arrivalTime],
       waitingWho := w.waitingWho + [c],
       phase := w.phase[c := Served])
  }

  /**
   * `Customer.give_up`: counts the give-up, records the time since arrival as both queueing
   * and waiting time, and leaves the queue of its register (`remove_customer`).
   */
  function GiveUpWaiting(w: State, c: nat): State
    requires c < |w.customers| && c < |w.phase| && w.customers[c].register < |w.queues|
  {
    var r := w.customers[c].register;
    var waited := w.now - w.customers[c].arrivalTime;
    w.(giveUpCount := w.giveUpCount + 1,
       queueingTimes := w.queueingTimes + [waited],
       queueingWho := w.queueingWho + [c],
       waitingTimes := w.waitingTimes + [waited],
       waitingWho := w.waitingWho + [c],
       phase := w.phase[c := GaveUp],
       queues := w.queues[r := RemoveFirst(w.queues[r], c)])
  }

  /** `CashRegister.schedule_next_serviced`: the head starts service; its Serviced event is due `delay` from now. */
  function ScheduleNextServiced(w: State, i: nat, delay: real): State
    requires i < |w.queues| && w.queues[i] != []
    requires w.queues[i][0] < |w.customers| && w.queues[i][0] < |w.phase|
    requires w.customers[w.queues[i][0]].giveUpEvent < |w.events|
  {
    var w1 := StartService(w, w.queues[i][0]);
    w1.(events := w1.events + [Event(w.now + delay, Serviced(i), Pending)])
  }

  /**
   * `CashRegister.customer_arrives` at register i: a new customer observes the queue length
   * it finds, joins the tail, and service starts when the queue has just become one long.
   */
  function RegisterCustomerArrives(w: State, i: nat, delay: real): State
    requires i < |w.queues| && |w.phase| == |w.customers|
  {
    var c := |w.customers|;
    var w1 := NewCustomer(w, i);
    var w2 := w1.(queueLengths := w1.queueLengths + [|w.queues[i]| as real],
                  queues := w1.queues[i := w1.queues[i] + [c]]);
    if |w2.queues[i]| == 1 then ScheduleNextServiced(w2, i, delay) else w2
  }

  /** `CashRegister.handle_serviced`: the head leaves served; the next customer, if any, starts service. */
  function HandleServiced(w: State, i: nat, delay: real): State
    requires WellFormed(w) && i < |w.queues| && w.queues[i] != []
  {
    var c := w.queues[i][0];
    var w1 := FinishService(w, c);
    var w2 := w1.(queues := w1.queues[i := w1.queues[i][1..]]);
    if w2.queues[i] != [] then ScheduleNextServiced(w2, i, delay) else w2
  }

  /** `PaymentSection.schedule_next_arrival`. */
  function ScheduleNextArrival(w: State, delay: real): State
  {
    w.(events := w.events + [Event(w.now + delay, Arrival, Pending)])
  }

  /** `PaymentSection.customer_arrives`: route to the shortest queue, then schedule the next arrival. */
  function PaymentSectionCustomerArrives(w: State, interarrival: real, service: real): State
    requires |w.queues| > 0 && |w.phase| == |w.customers|
  {
    var i := ShortestQueue(Lengths(w.queues));
    ScheduleNextArrival(RegisterCustomerArrives(w, i, service), interarrival)
  }

  /** The scheduler takes event k: the clock moves to its time and the event is spent. */
  function Fire(w: State, k: nat): State
    requires k < |w.events|
  {
    w.(now := w.events[k].time, events := w.events[k := w.events[k].(status := Fired)])
  }

  // ---------------------------------------------------------------------------------------
  // The invariant of a run.
  // ---------------------------------------------------------------------------------------

  /** No pending event is due before now. */
  ghost predicate NothingPastDue(w: State)
  {
    forall j | 0 <= j < |w.events| && w.events[j].status == Pending :: w.now <= w.events[j].time
  }

  /**
   * Customer c: its id, its give-up event (pending while it waits, cancelled once its service
   * starts, fired when it gave up), its presence in its register's queue exactly while it is
   * waiting or in service, and how many queueing-time and waiting-time records it has.
   */
  ghost predicate CustomerOk(w: State, c: nat)
    requires c < |w.customers| && |w.phase| == |w.customers|
  {
    var cu := w.customers[c];
    var g := cu.giveUpEvent;
    cu.id == c + 1 && cu.register < |w.queues| && cu.arrivalTime <= w.now &&
    g < |w.events| && w.events[g].kind == GiveUp(c) &&
    w.events[g].time == cu.arrivalTime + MaxCustomerWaitingTime &&
    w.events[g].status == GiveUpStatus(w.phase[c]) &&
    ((w.phase[c] == Waiting || w.phase[c] == InService) <==> c in w.queues[cu.register]) &&
    multiset(w.queueingWho)[c] == (if w.phase[c] == Waiting then 0 else 1) &&
    multiset(w.waitingWho)[c] == (if w.phase[c] == Served || w.phase[c] == GaveUp then 1 else 0)
  }

  /** Queue i holds distinct customers of register i; its head alone is in service, the rest wait. */
  ghost predicate QueueOk(w: State, i: nat)
    requires i < |w.queues| && |w.phase| == |w.customers|
  {
    var q := w.queues[i];
    (forall k | 0 <= k < |q| ::
       q[k] < |w.customers| && w.customers[q[k]].register == i &&
       w.phase[q[k]] == (if k == 0 then InService else Waiting)) &&
    (forall k, l | 0 <= k < l < |q| :: q[k] != q[l])
  }

  /** Register i has one outstanding Serviced event when its queue is non-empty, none when it is empty. */
  ghost predicate BusyOk(w: State, i: nat)
    requires i < |w.queues|
  {
    PendingCount(w.events, Serviced(i)) == if w.queues[i] == [] then 0 else 1
  }

  /** Each event targets a register or a customer that exists; a give-up event is its customer's own. */
  ghost predicate EventOk(w: State, e: nat)
    requires e < |w.events|
  {
    match w.events[e].kind
    case Arrival => true
    case Serviced(i) => i < |w.queues|
    case GiveUp(c) => c < |w.customers| && w.customers[c].giveUpEvent == e
  }

  /**
   * One queue-length observation per arrival, never more than the customers that arrived
   * before; every duration record belongs to a customer and is not negative.
   */
  ghost predicate StatsOk(w: State)
  {
    |w.queueLengths| == |w.customers| &&
    (forall k | 0 <= k < |w.queueLengths| :: 0.0 <= w.queueLengths[k] <= k as real) &&
    |w.queueingWho| == |w.queueingTimes| &&
    (forall k | 0 <= k < |w.queueingWho| :: w.queueingWho[k] < |w.customers| && w.queueingTimes[k] >= 0.0) &&
    |w.waitingWho| == |w.waitingTimes| &&
    (forall k | 0 <= k < |w.waitingWho| :: w.waitingWho[k] < |w.customers| && w.waitingTimes[k] >= 0.0)
  }

  /** Everything but the service events and the arrival event. */
  ghost predicate Core(w: State)
  {
    |w.phase| == |w.customers| && |w.queues| == NrCashRegisters &&
    w.arriveCount == |w.customers| && w.nextCustomerId == |w.customers| + 1 &&
    w.giveUpCount == multiset(w.phase)[GaveUp] &&
    NothingPastDue(w) &&
    (forall i | 0 <= i < |w.queues| :: QueueOk(w, i)) &&
    (forall c | 0 <= c < |w.customers| :: CustomerOk(w, c)) &&
    (forall e | 0 <= e < |w.events| :: EventOk(w, e)) &&
    StatsOk(w)
  }

  /** The run is consistent apart from the arrival process. */
  ghost predicate Consistent(w: State)
  {
    Core(w) && forall i | 0 <= i < |w.queues| :: BusyOk(w, i)
  }

  /** The invariant between two events: consistent, and the next arrival is always scheduled. */
  ghost predicate Inv(w: State)
  {
    Consistent(w) && PendingCount(w.events, Arrival) == 1
  }

  /** The state of a fresh run: time zero, empty queues, nothing observed, the first arrival pending. */
  function Initial(firstArrivalDelay: real): State
  {
    State(0.0, [Event(firstArrivalDelay, Arrival, Pending)], seq(NrCashRegisters, _ => []),
          [], [], [], [], [], [], [], 0, 0, 1)
  }
}
