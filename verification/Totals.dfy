/** Sums over maps and sizes of sets. */
module Totals {
  lemma {:induction false} SubsetSize<T>(small: set<T>, large: set<T>)
    requires small <= large
    ensures |small| <= |large|
  {
    if small != {} {
      var x :| x in small;
      SubsetSize(small - {x}, large - {x});
    }
  }

  /** A weight for each value of a map, added up over its keys. */
  ghost function Total<K(!new), V(!new)>(m: map<K, V>, weight: V -> nat): nat
    decreases m.Keys
  {
    if m == map[] then 0
    else
      var k :| k in m;
      weight(m[k]) + Total(m - {k}, weight)
  }

  /** Whichever key goes first, its weight is what it adds. */
  lemma {:induction false} TotalWithout<K(!new), V(!new)>(m: map<K, V>, weight: V -> nat, k: K)
    requires k in m
    ensures Total(m, weight) == weight(m[k]) + Total(m - {k}, weight)
    decreases m.Keys
  {
    var first :| first in m && Total(m, weight) == weight(m[first]) + Total(m - {first}, weight);
    if first != k {
      TotalWithout(m - {first}, weight, k);
      TotalWithout(m - {k}, weight, first);
      assert m - {first} - {k} == m - {k} - {first};
    }
  }

  /** A new value changes the total by the difference of the weights. */
  lemma TotalUpdate<K(!new), V(!new)>(m: map<K, V>, weight: V -> nat, k: K, v: V)
    ensures Total(m[k := v], weight) ==
              Total(m, weight) + weight(v) - if k in m then weight(m[k]) else 0
  {
    assert m[k := v] - {k} == m - {k};
    TotalWithout(m[k := v], weight, k);
    if k in m {
      TotalWithout(m, weight, k);
    } else {
      assert m - {k} == m;
    }
  }
}
