/** Running-mean statistics: the `Observation` accumulator of the supermarket simulation. */
module Statistics {

  /** A value that may be absent; `None` stands for the NaN the simulation reports when nothing was observed. */
  datatype Option<T> = None | Some(value: T)

  /** The sum of a sequence of observations, added left to right. */
  function Sum(s: seq<real>): real
  {
    if s == [] then 0.0 else Sum(s[..|s| - 1]) + s[|s| - 1]
  }

  lemma SumAppend(s: seq<real>, v: real)
    ensures Sum(s + [v]) == Sum(s) + v
  {
    assert (s + [v])[..|s|] == s;
  }

  /** A sum of values that all lie in [lo, hi] lies between |s| * lo and |s| * hi. */
  lemma {:induction false} SumBounds(s: seq<real>, lo: real, hi: real)
    requires forall k | 0 <= k < |s| :: lo <= s[k] <= hi
    ensures (|s| as real) * lo <= Sum(s) <= (|s| as real) * hi
  {
    if s != [] {
      SumBounds(s[..|s| - 1], lo, hi);
    }
  }

  /**
   * An accumulator of observed values. The real fields are the running sum and count;
   * the ghost field `values` is the sequence of values observed so far.
   */
  class Observation {
    var sum: real
    var count: nat
    ghost var values: seq<real>

    ghost predicate Valid()
      reads this
    {
      count == |values| && sum == Sum(values)
    }

    constructor ()
      ensures Valid() && values == []
    {
      sum, count := 0.0, 0;
      values := [];
    }

    /** Records one value: the count goes up by exactly one and the sum by exactly `v`. */
    method Observe(v: real)
      requires Valid()
      modifies this
      ensures Valid()
      ensures values == old(values) + [v]
      ensures count == old(count) + 1 && sum == old(sum) + v
    {
      SumAppend(values, v);
      sum := sum + v;
      count := count + 1;
      values := values + [v];
    }

    /** The mean of the observed values; `None` (NaN in the simulation) when nothing was observed. */
    function Average(): (r: Option<real>)
      requires Valid()
      reads this
      ensures r.None? <==> values == []
      ensures r.Some? ==> r.value * (|values| as real) == Sum(values)
    {
      if count == 0 then None else Some(sum / count as real)
    }
  }

  /** The mean of values that all lie in [lo, hi] lies in [lo, hi] too. */
  lemma AverageWithinBounds(o: Observation, lo: real, hi: real)
    requires o.Valid() && o.values != []
    requires forall k | 0 <= k < |o.values| :: lo <= o.values[k] <= hi
    ensures lo <= o.Average().value <= hi
  {
    SumBounds(o.values, lo, hi);
    var n, a := |o.values| as real, o.Average().value;
    assert n > 0.0 && a * n == Sum(o.values);
    assert (a - lo) * n >= 0.0;
    assert (hi - a) * n >= 0.0;
  }

  /** A fresh accumulator that observes `v` once averages to exactly `v`. */
  method SingleObservationAverage(v: real) returns (r: Option<real>)
    ensures r == Some(v)
  {
    var o := new Observation();
    o.Observe(v);
    assert o.values == [v];
    assert Sum(o.values) == Sum([]) + v;
    r := o.Average();
  }
}
