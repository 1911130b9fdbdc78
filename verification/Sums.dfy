/** Sums over the entries of a finite map. */
module Sums {

  ghost function Sum<K>(m: map<K, nat>): nat {
    if m == map[] then 0 else
    var d :| d in m;
    m[d] + Sum(m - {d})
  }

  /** The sum does not depend on which entry is taken first. */
  lemma {:induction false} SumTake<K>(m: map<K, nat>, d: K)
    requires d in m
    ensures Sum(m) == m[d] + Sum(m - {d})
    decreases |m|
  {
    var first :| first in m && Sum(m) == m[first] + Sum(m - {first});
    if first != d {
      assert |m - {first}| < |m| by { Smaller(m, first); }
      assert |m - {d}| < |m| by { Smaller(m, d); }
      SumTake(m - {first}, d);
      SumTake(m - {d}, first);
      assert m - {first} - {d} == m - {d} - {first};
    }
  }

  lemma Smaller<K>(m: map<K, nat>, d: K)
    requires d in m
    ensures |m - {d}| < |m|
  {
    assert (m - {d}).Keys == m.Keys - {d};
    assert |m - {d}| == |(m - {d}).Keys| && |m| == |m.Keys|;
  }

  lemma SumPut<K>(m: map<K, nat>, d: K, amount: nat)
    requires d !in m
    ensures Sum(m[d := amount]) == Sum(m) + amount
  {
    SumTake(m[d := amount], d);
    assert m[d := amount] - {d} == m;
  }

  /** Part of a map never sums to more than the whole. */
  lemma {:induction false} SumPart<K>(part: map<K, nat>, whole: map<K, nat>)
    requires forall d | d in part :: d in whole && whole[d] == part[d]
    ensures Sum(part) <= Sum(whole)
    decreases |part|
  {
    if part != map[] {
      var d :| d in part;
      Smaller(part, d);
      SumTake(part, d);
      SumTake(whole, d);
      SumPart(part - {d}, whole - {d});
    }
  }
}
