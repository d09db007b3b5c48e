/** Total length of the lists held in a map of lists, used to state that
    grouping edges by source neither drops nor duplicates any edge. */
module MapSums {

  /** Sum of `|m[k]|` over all keys `k` of `m`. */
  ghost function SumSizes<V>(m: map<string, seq<V>>): nat
    decreases m.Keys
  {
    if m.Keys == {} then 0
    else
      var k :| k in m.Keys;
      |m[k]| + SumSizes(m - {k})
  }

  /** The sum does not depend on which key is taken first. */
  lemma {:induction false} SumSizesRemove<V>(m: map<string, seq<V>>, k: string)
    requires k in m
    ensures SumSizes(m) == |m[k]| + SumSizes(m - {k})
    decreases m.Keys
  {
    var j :| j in m.Keys && SumSizes(m) == |m[j]| + SumSizes(m - {j});
    if j != k {
      SumSizesRemove(m - {j}, k);
      SumSizesRemove(m - {k}, j);
      assert m - {j} - {k} == m - {k} - {j};
    }
  }

  /** Replacing the list stored under `k` changes the sum by the difference
      of the two lengths. */
  lemma SumSizesUpdate<V>(m: map<string, seq<V>>, k: string, v: seq<V>)
    ensures SumSizes(m[k := v]) + (if k in m then |m[k]| else 0) == SumSizes(m) + |v|
  {
    SumSizesRemove(m[k := v], k);
    assert m[k := v] - {k} == m - {k};
    if k in m {
      SumSizesRemove(m, k);
    } else {
      assert m - {k} == m;
    }
  }
}
