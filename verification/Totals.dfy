/** Sums of an integer weight over the values of a finite map. */
module Totals {

  /** The sum of `weight` over every entry, in no particular order. */
  ghost function Total<V(!new)>(m: map<nat, V>, weight: V -> int): int {
    if m == map[] then
      0
    else
      var k :| k in m;
      weight(m[k]) + Total(m - {k}, weight)
  }

  /** Any entry may be taken out first: the sum does not depend on the order of the entries. */
  lemma {:induction false} TotalSplit<V(!new)>(m: map<nat, V>, weight: V -> int, k: nat)
    requires k in m
    ensures Total(m, weight) == weight(m[k]) + Total(m - {k}, weight)
  {
    var j :| j in m && Total(m, weight) == weight(m[j]) + Total(m - {j}, weight);
    if j != k {
      TotalSplit(m - {j}, weight, k);
      TotalSplit(m - {k}, weight, j);
      assert m - {j} - {k} == m - {k} - {j};
    }
  }

  lemma TotalInsert<V(!new)>(m: map<nat, V>, weight: V -> int, k: nat, v: V)
    requires k !in m
    ensures Total(m[k := v], weight) == Total(m, weight) + weight(v)
  {
    TotalSplit(m[k := v], weight, k);
    assert m[k := v] - {k} == m;
  }

  lemma TotalUpdate<V(!new)>(m: map<nat, V>, weight: V -> int, k: nat, v: V)
    requires k in m
    ensures Total(m[k := v], weight) == Total(m, weight) - weight(m[k]) + weight(v)
  {
    TotalSplit(m, weight, k);
    TotalSplit(m[k := v], weight, k);
    assert m[k := v] - {k} == m - {k};
  }

  lemma RemoveAfterPut<V>(m: map<nat, V>, k: nat, v: V)
    ensures m[k := v] - {k} == m - {k}
  {
  }

  lemma RemoveAbsent<V>(m: map<nat, V>, k: nat)
    requires k !in m
    ensures m - {k} == m
  {
  }

  /** Sums of weights related by `high == low + factor * slope` entry by entry are related likewise. */
  lemma {:induction false} TotalLinear<V(!new)>(m: map<nat, V>, low: V -> int, slope: V -> int, high: V -> int, factor: int)
    requires forall k :: k in m ==> high(m[k]) == low(m[k]) + factor * slope(m[k])
    ensures Total(m, high) == Total(m, low) + factor * Total(m, slope)
  {
    if m != map[] {
      var k :| k in m;
      TotalSplit(m, low, k);
      TotalSplit(m, slope, k);
      TotalSplit(m, high, k);
      TotalLinear(m - {k}, low, slope, high, factor);
      Distribute(factor, slope(m[k]), Total(m - {k}, slope));
    }
  }

  lemma Distribute(factor: int, a: int, b: int)
    ensures factor * (a + b) == factor * a + factor * b
  {
  }

  /** A weight bounded entry by entry by another has a bounded sum. */
  lemma {:induction false} TotalBelow<V(!new)>(m: map<nat, V>, low: V -> int, high: V -> int)
    requires forall k :: k in m ==> low(m[k]) <= high(m[k])
    ensures Total(m, low) <= Total(m, high)
  {
    if m != map[] {
      var k :| k in m;
      TotalSplit(m, low, k);
      TotalSplit(m, high, k);
      TotalBelow(m - {k}, low, high);
    }
  }

  lemma TotalSame<V(!new)>(m: map<nat, V>, a: V -> int, b: V -> int)
    requires forall k :: k in m ==> a(m[k]) == b(m[k])
    ensures Total(m, a) == Total(m, b)
  {
    TotalBelow(m, a, b);
    TotalBelow(m, b, a);
  }

  lemma {:induction false} TotalNonnegative<V(!new)>(m: map<nat, V>, weight: V -> int)
    requires forall k :: k in m ==> 0 <= weight(m[k])
    ensures 0 <= Total(m, weight)
  {
    if m != map[] {
      var k :| k in m;
      TotalSplit(m, weight, k);
      TotalNonnegative(m - {k}, weight);
    }
  }
}
