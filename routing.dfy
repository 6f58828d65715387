/** Shortest-queue routing of the payment section. */
module Routing {

  /**
   * The index chosen by `min(registers, key=queue_length)`: Python's `min` scans left to
   * right and replaces its candidate only on a strictly smaller key, so among the
   * registers with the shortest queue it picks the first.
   */
  function ShortestQueue(lengths: seq<nat>): (r: nat)
    requires |lengths| > 0
    ensures r < |lengths|
    ensures forall j | 0 <= j < |lengths| :: lengths[r] <= lengths[j]
    ensures forall j | 0 <= j < r :: lengths[r] < lengths[j]
  {
    if |lengths| == 1 then 0
    else
      var best := ShortestQueue(lengths[..|lengths| - 1]);
      if lengths[|lengths| - 1] < lengths[best] then |lengths| - 1 else best
  }

}
