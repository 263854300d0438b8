/** Sums over the values of a finite map. */
module MapSum {

  ghost function Sum<K, V>(m: map<K, V>, f: V -> nat): nat {
    if m == map[] then 0
    else
      var k :| k in m;
      f(m[k]) + Sum(m - {k}, f)
  }

  lemma {:induction false} SumRemove<K, V>(m: map<K, V>, k: K, f: V -> nat)
    requires k in m
    ensures Sum(m, f) == f(m[k]) + Sum(m - {k}, f)
  {
    var j :| j in m && Sum(m, f) == f(m[j]) + Sum(m - {j}, f);
    if j != k {
      SumRemove(m - {j}, k, f);
      SumRemove(m - {k}, j, f);
      assert m - {j} - {k} == m - {k} - {j};
    }
  }

  lemma SumSet<K, V>(m: map<K, V>, k: K, v: V, f: V -> nat)
    ensures Sum(m[k := v], f) == f(v) + Sum(m - {k}, f)
    ensures k !in m ==> Sum(m[k := v], f) == f(v) + Sum(m, f)
    ensures k in m ==> Sum(m[k := v], f) + f(m[k]) == f(v) + Sum(m, f)
  {
    SumRemove(m[k := v], k, f);
    assert m[k := v] - {k} == m - {k};
    if k in m {
      SumRemove(m, k, f);
    } else {
      assert m - {k} == m;
    }
  }

  lemma {:induction false} SumPositive<K, V>(m: map<K, V>, f: V -> nat)
    ensures Sum(m, f) > 0 <==> exists k :: k in m && f(m[k]) > 0
  {
    if m != map[] {
      var j :| j in m && Sum(m, f) == f(m[j]) + Sum(m - {j}, f);
      SumPositive(m - {j}, f);
      forall k | k in m && f(m[k]) > 0 ensures Sum(m, f) > 0 {
        if k != j { assert k in m - {j}; }
      }
      if Sum(m, f) > 0 && f(m[j]) == 0 {
        var k :| k in m - {j} && f((m - {j})[k]) > 0;
        assert f(m[k]) > 0;
      }
    }
  }

  /** A sum of zeroes and ones counts the ones. */
  lemma {:induction false} SumCounts<K, V>(m: map<K, V>, f: V -> nat, ones: set<K>)
    requires forall k :: k in m ==> f(m[k]) == if k in ones then 1 else 0
    requires ones <= m.Keys
    ensures Sum(m, f) == |ones|
    decreases |m|
  {
    if m != map[] {
      var j :| j in m && Sum(m, f) == f(m[j]) + Sum(m - {j}, f);
      assert m.Keys == (m - {j}).Keys + {j};
      SumCounts(m - {j}, f, ones - {j});
      assert j !in ones ==> ones - {j} == ones;
    }
  }
}
