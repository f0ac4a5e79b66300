/** The sum of a dictionary's values. */
module Totals {

  ghost function TotalOver<K(!new)>(d: map<K, int>, keys: set<K>): int
    requires keys <= d.Keys
  {
    if keys == {} then 0 else
      var k :| k in keys;
      d[k] + TotalOver(d, keys - {k})
  }

  /** `sum(d.values())`. */
  ghost function Total<K(!new)>(d: map<K, int>): int {
    TotalOver(d, d.Keys)
  }

  /** Any key may be taken out first. */
  lemma {:induction false} TotalSplits<K(!new)>(d: map<K, int>, keys: set<K>, k: K)
    requires keys <= d.Keys && k in keys
    ensures TotalOver(d, keys) == d[k] + TotalOver(d, keys - {k})
    decreases keys
  {
    var j :| j in keys && TotalOver(d, keys) == d[j] + TotalOver(d, keys - {j});
    if j != k {
      TotalSplits(d, keys - {j}, k);
      TotalSplits(d, keys - {k}, j);
      assert keys - {j} - {k} == keys - {k} - {j};
    }
  }

  lemma {:induction false} TotalDepends<K(!new)>(d: map<K, int>, e: map<K, int>, keys: set<K>)
    requires keys <= d.Keys && keys <= e.Keys && forall k :: k in keys ==> d[k] == e[k]
    ensures TotalOver(d, keys) == TotalOver(e, keys)
  {
    if keys != {} {
      var k :| k in keys && TotalOver(d, keys) == d[k] + TotalOver(d, keys - {k});
      TotalDepends(d, e, keys - {k});
      TotalSplits(e, keys, k);
    }
  }

  /** Changing or adding one entry changes the total by as much as the entry. */
  lemma TotalMoves<K(!new)>(d: map<K, int>, k: K, v: int)
    ensures Total(d[k := v]) == Total(d) + v - if k in d then d[k] else 0
  {
    var e := d[k := v];
    var others := d.Keys - {k};
    assert e.Keys - {k} == others;
    TotalSplits(e, e.Keys, k);
    TotalDepends(d, e, others);
    if k in d {
      TotalSplits(d, d.Keys, k);
    } else {
      assert others == d.Keys;
    }
  }

  lemma {:induction false} TotalOverIsNatural<K(!new)>(d: map<K, int>, keys: set<K>)
    requires keys <= d.Keys && forall k :: k in keys ==> d[k] >= 0
    ensures TotalOver(d, keys) >= 0
  {
    if keys != {} {
      var k :| k in keys && TotalOver(d, keys) == d[k] + TotalOver(d, keys - {k});
      TotalOverIsNatural(d, keys - {k});
    }
  }

  lemma TotalIsNatural<K(!new)>(d: map<K, int>)
    requires forall k :: k in d ==> d[k] >= 0
    ensures Total(d) >= 0
  {
    TotalOverIsNatural(d, d.Keys);
  }
}
