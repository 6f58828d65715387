# Supermarket checkout simulation, modelled in Dafny

This project models the discrete-event simulation of a supermarket checkout in
`lesson-1/supermarket.py`. Customers arrive and join the cash register with the shortest
queue. The head of each queue is served. A customer who has waited
`MAX_CUSTOMER_WAITING_TIME` (180) without starting service gives up and leaves the queue. Three
running-mean accumulators record:

- the queue length each arriving customer finds;
- the queueing time, which excludes service;
- the waiting time, which includes service.

Two global counters count arrivals and give-ups.

The files:

- `statistics.dfy`: the `Observation` accumulator, as a class with the running sum and count. A
  ghost sequence holds the observed values.
- `routing.dfy`: `min(cash_registers, key=queue_length)`, which returns the first register
  with the shortest queue.
- `registers.dfy`: the `CashRegister` queue, as a class whose `queue` field the methods
  reassign. It also holds `list.remove` (`RemoveFirst`) and its properties.
- `scheduling.dfy`: an event harness that stands in for the simulation library's scheduler. It
  has a clock and an arena of events. Each event is pending, cancelled or fired.
- `checkout.dfy`: the abstract state of a run, with one transition function per handler of
  the program. It also holds the invariant of a run: queues, customers, events and records
  agree with one another.
- `checkout_proofs.dfy`: a fresh run satisfies the invariant, and each of the three events
  (arrival, service completion, give-up) preserves it. The module also holds what the
  invariant promises.
- `supermarket.dfy`: the run as the program performs it, as class `Simulation`. It holds the
  scheduler, the three accumulators, the cash registers, the counters and the customers.
  Every method is proved to perform its transition from `checkout.dfy`. `HandleEvent` takes
  the earliest pending event and runs its handler, keeping the invariant.

Customer number `c` (counted from 0) has id `c + 1` and is `customers[c]`. The queues hold
customer numbers. Random delays are parameters, and each must be non-negative. Times are
`real`.

## Model

| member | source | states |
|---|---|---|
| Statistics.Observation.constructor | lesson-1/supermarket.py:25-27 | a new accumulator has observed nothing |
| Statistics.Observation.Observe | lesson-1/supermarket.py:29-31 | the count goes up by exactly 1, the sum by exactly the value, and the value joins the observed sequence |
| Statistics.Observation.Average | lesson-1/supermarket.py:33-37 | undefined (None, NaN in the program) exactly when nothing was observed; otherwise the mean times the count is the sum of the observations |
| Statistics.AverageWithinBounds | lesson-1/supermarket.py:33-37 | the mean of observations that all lie in [lo, hi] lies in [lo, hi] |
| Statistics.SingleObservationAverage | lesson-1/supermarket.py:25-37 | a fresh accumulator that observes v once averages to exactly v |
| Routing.ShortestQueue | lesson-1/supermarket.py:62 | the chosen register's queue is no longer than any other, and strictly shorter than every register before it (ties go to the first) |
| Registers.RemoveFirst | lesson-1/supermarket.py:101-102 | an absent customer leaves the queue as it was; a present one makes it exactly one shorter |
| Registers.RemoveFirstSplits | lesson-1/supermarket.py:101-102 | removal cuts out exactly the first occurrence; what comes before and after keeps its order |
| Registers.RemoveFirstOccurrence | lesson-1/supermarket.py:101-102 | removal takes exactly one copy of the customer away and adds nothing |
| Registers.RemoveFirstIndices | lesson-1/supermarket.py:101-102 | positions before the removed customer are unchanged; those after it move up by one |
| Registers.RemoveFirstDistinct | lesson-1/supermarket.py:101-102 | from a queue without repeats, the removed customer is gone, every other customer stays, and there are still no repeats |
| Registers.CashRegister.constructor | lesson-1/supermarket.py:70-73 | a new register has its id and an empty queue |
| Registers.CashRegister.Append | lesson-1/supermarket.py:84 | the customer joins at the tail, the rest unchanged |
| Registers.CashRegister.DropHead | lesson-1/supermarket.py:97 | `queue[1:]`: the head is dropped, the rest keeps its order |
| Registers.CashRegister.RemoveCustomer | lesson-1/supermarket.py:101-102 | the queue loses the first occurrence of the customer; `found` is false exactly where `list.remove` raises |
| Scheduling.CancelAt | lesson-1/supermarket.py:124 | a pending event becomes Cancelled; an event already cancelled or fired is left as it is; no other event changes |
| Scheduling.Scheduler.Schedule | lesson-1/supermarket.py:59 | a new pending event `delay` after now, at the next handle |
| Scheduling.Scheduler.Cancel | lesson-1/supermarket.py:124 | `unschedule`: a pending event becomes cancelled, cancelling again does nothing; the clock stays |
| Scheduling.Scheduler.Fire | lesson-1/supermarket.py:146 | the earliest pending event is spent, and the clock moves forward to its time |
| CheckoutProofs.InitialInv | lesson-1/supermarket.py:48-55 | a fresh run (empty queues, nothing observed, first arrival pending) satisfies the invariant |
| CheckoutProofs.FireKeeps | lesson-1/supermarket.py:146 | taking the earliest pending event never moves the clock back, and changes the pending count of that event's kind only |
| CheckoutProofs.RegisterArrivalKeepsConsistent | lesson-1/supermarket.py:80-86 | an arrival at a register keeps the run consistent and leaves the arrival process untouched |
| CheckoutProofs.RegisterArrivalEffects | lesson-1/supermarket.py:80-86 | the queue length the customer found is recorded; the customer joins the tail; service starts exactly when the queue was empty; the register then has one Serviced event outstanding; the recorded length is at most the number of earlier customers of that register |
| CheckoutProofs.NextArrivalRestores | lesson-1/supermarket.py:57-59 | scheduling the next arrival restores exactly one pending arrival |
| CheckoutProofs.ArrivalKeepsInv | lesson-1/supermarket.py:61-64 | the arrival goes to a shortest queue, the first among ties; only that queue changes; the next arrival is scheduled; the invariant holds |
| CheckoutProofs.ServicedKeepsInv | lesson-1/supermarket.py:94-99 | a Serviced event finds its register busy; the head leaves served, the rest keeps its order, the next customer (if any) starts service, and the invariant holds |
| CheckoutProofs.ServicedOutstanding | lesson-1/supermarket.py:85-99 | a register has a pending Serviced event exactly when its queue is non-empty, and never two |
| CheckoutProofs.GiveUpTargetWaitsBehindHead | lesson-1/supermarket.py:133-140 | a pending give-up belongs to a waiting customer who stands behind the head of its queue |
| CheckoutProofs.GiveUpKeepsInv | lesson-1/supermarket.py:133-140 | a give-up removes exactly that customer, never the head; it counts once more; the invariant holds |
| CheckoutProofs.OnlyHeadInService | lesson-1/supermarket.py:88-92 | a customer is in service exactly when it heads its queue; its give-up is armed exactly when it stands behind the head |
| CheckoutProofs.RecordsOnce | lesson-1/supermarket.py:120-140 | one queueing-time record once service started or the customer gave up, none before; one waiting-time record once it left, none before; all durations are non-negative |
| CheckoutProofs.GiveUpsBounded | lesson-1/supermarket.py:106-140 | the give-up counter never exceeds the arrival counter |
| CheckoutProofs.IdsIncreasing | lesson-1/supermarket.py:106-112 | customer ids count up from 1 in arrival order, so they are unique and below the next id |
| CheckoutProofs.Step | lesson-1/supermarket.py:142-146 | one event of a run keeps the invariant and never moves the clock back; the arrival counter grows by one on an arrival and the give-up counter by one on a give-up, neither otherwise; customers already created are kept |
| Supermarket.Simulation.constructor | lesson-1/supermarket.py:48-55 | a fresh run: three empty registers numbered 1 to 3, zero counters, the first arrival scheduled, invariant established |
| Supermarket.Simulation.QueueLengths | lesson-1/supermarket.py:62 | the lengths `min` compares, register by register |
| Supermarket.Simulation.ScheduleNextArrival | lesson-1/supermarket.py:57-59 | performs the schedule-next-arrival transition |
| Supermarket.Simulation.NewCustomer | lesson-1/supermarket.py:108-117 | counts the arrival, takes the next id, notes the arrival time and arms the give-up 180 ahead |
| Supermarket.Simulation.StartService | lesson-1/supermarket.py:120-125 | records the queueing time and cancels the give-up |
| Supermarket.Simulation.FinishService | lesson-1/supermarket.py:127-131 | records the waiting time |
| Supermarket.Simulation.GiveUpWaiting | lesson-1/supermarket.py:133-140 | counts the give-up, records both times and removes the customer from its queue |
| Supermarket.Simulation.ScheduleNextServiced | lesson-1/supermarket.py:88-92 | the head starts service and its Serviced event is scheduled |
| Supermarket.Simulation.RegisterCustomerArrives | lesson-1/supermarket.py:80-86 | performs the register-arrival transition |
| Supermarket.Simulation.HandleServiced | lesson-1/supermarket.py:94-99 | performs the service-completion transition |
| Supermarket.Simulation.CustomerArrives | lesson-1/supermarket.py:61-64 | routes to the shortest queue and performs the payment-section arrival transition |
| Supermarket.Simulation.HandleEvent | lesson-1/supermarket.py:53-117 | runs the handler of the earliest pending event (arrival, serviced or give-up) and keeps the invariant |

## Left out

- The simulation library's scheduler internals (`_schedule_after`, `_wait`, `EventHandler`,
  `unschedule`, `sim_run`, `sim_reset`, `sim_time`) are not part of this model. The `Scheduler`
  class stands in for them. It keeps pending, cancelled and fired events and a clock. The
  order among events due at the same time is left open: any earliest pending event may fire.
- The handler registrations (`_wait` at lines 53-54, 74-75 and 116-117) are modelled by the
  dispatch in `HandleEvent` on the event's kind and target.
- The `numpy.random.exponential` draws (lines 58 and 91) become non-negative parameters. The
  `AVG_*` constants only feed those draws and are not modelled.
- Floating-point arithmetic is modelled as exact `real` arithmetic. The NaN of `average` is
  `None`.
- `report`, `VERBOSE`, the printed statistics of `run_simulation` and `average_str` are left
  out because they are console output and formatting. This includes the give-up percentage,
  which divides by `ARRIVE_COUNT`.
- The `sim_run` loop up to `SIMULATION_DURATION` is left out. A run is modelled one event at a
  time (`HandleEvent`, `CheckoutProofs.Step`). Every step keeps the invariant, so every reachable
  state does.
- The class-level `next_id` counters and the module-level counters live as long as the Python
  process. The model starts them afresh with each `Simulation`, because the program runs
  one simulation per process.
- `lesson-2/teleportation.py` is not part of this model. It is a quantum-state simulation
  built on foreign qubit operations.
- Registers.CashRegister.RemoveCustomer: returns `found == false` where `list.remove` raises
  `ValueError`, and then leaves the queue as it was. `GiveUpKeepsInv` proves that a give-up
  always finds its customer.
- Supermarket.Simulation.HandleServiced: requires a non-empty queue. The program would raise
  `IndexError` on `queue[0]` otherwise. `ServicedKeepsInv` proves that a Serviced event always
  finds its register busy.
