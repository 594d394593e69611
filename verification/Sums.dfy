/** The sum of the values of a finite map, and the sizes of finite sets. */
module Sums {

  ghost function Sum<K(!new)>(m: map<K, nat>): (n: nat) {
    if m == map[] then 0
    else
      var k :| k in m;
      m[k] + Sum(m - {k})
  }

  lemma {:induction false} SumRemove<K(!new)>(m: map<K, nat>, k: K)
    requires k in m
    ensures Sum(m) == m[k] + Sum(m - {k})
    decreases |m|
  {
    var q :| q in m && Sum(m) == m[q] + Sum(m - {q});
    if q != k {
      SumRemove(m - {q}, k);
      SumRemove(m - {k}, q);
      assert m - {q} - {k} == m - {k} - {q};
    }
  }

  lemma SumInsert<K(!new)>(m: map<K, nat>, k: K, v: nat)
    requires k !in m
    ensures Sum(m[k := v]) == Sum(m) + v
  {
    SumRemove(m[k := v], k);
    assert m[k := v] - {k} == m;
  }

  lemma {:induction false} SubsetSize<T>(a: set<T>, b: set<T>)
    requires a <= b
    ensures |a| <= |b|
  {
    if a != {} {
      var x :| x in a;
      SubsetSize(a - {x}, b - {x});
    }
  }

  /** What a union has beyond k, counted one part after the other. */
  lemma UnionLess<T>(x: set<T>, y: set<T>, k: set<T>)
    ensures |(x + y) - k| == |x - k| + |y - (k + x)|
  {
    assert (x + y) - k == (x - k) + (y - (k + x));
  }
}
