/** Sizes of sets, and sums over maps. */
module Sets {

  lemma {:induction false} SubsetSize<T>(a: set<T>, b: set<T>)
    requires a <= b
    ensures |a| <= |b| && (|a| == |b| ==> a == b)
    decreases a
  {
    if a == {} {
    } else {
      var x :| x in a;
      SubsetSize(a - {x}, b - {x});
      assert a == (a - {x}) + {x} && b == (b - {x}) + {x};
    }
  }

  /** The numbers below n. */
  function Below(n: nat): (r: set<nat>)
    ensures forall i :: i in r <==> 0 <= i < n
    ensures |r| == n
  {
    if n == 0 then {} else Below(n - 1) + {n - 1}
  }

  // ------------------------------------------------------------------- sums

  /** What the values of m weigh together. */
  ghost function Sum<K, V>(m: map<K, V>, weight: V -> nat): nat {
    if m == map[] then 0 else var k :| k in m; weight(m[k]) + Sum(m - {k}, weight)
  }

  lemma {:induction false} SumAt<K, V>(m: map<K, V>, weight: V -> nat, k: K)
    requires k in m
    ensures Sum(m, weight) == weight(m[k]) + Sum(m - {k}, weight)
    decreases |m|
  {
    var v :| v in m && Sum(m, weight) == weight(m[v]) + Sum(m - {v}, weight);
    if v != k {
      SumAt(m - {v}, weight, k);
      SumAt(m - {k}, weight, v);
      assert m - {v} - {k} == m - {k} - {v};
    }
  }

  lemma SumUpdate<K, V>(m: map<K, V>, weight: V -> nat, k: K, x: V)
    ensures Sum(m[k := x], weight) == Sum(m, weight) + weight(x) - if k in m then weight(m[k]) else 0
  {
    SumAt(m[k := x], weight, k);
    if k in m {
      SumAt(m, weight, k);
      assert m[k := x] - {k} == m - {k};
    } else {
      assert m[k := x] - {k} == m;
    }
  }

  /** The sum depends on the weights alone. */
  lemma {:induction false} SumSame<K, V>(m: map<K, V>, n: map<K, V>, weight: V -> nat)
    requires m.Keys == n.Keys && forall k | k in m :: weight(m[k]) == weight(n[k])
    ensures Sum(m, weight) == Sum(n, weight)
    decreases |m|
  {
    if m == map[] {
      assert n.Keys == {};
      assert n == map[];
    } else {
      var k :| k in m;
      SumAt(m, weight, k);
      SumAt(n, weight, k);
      SumSame(m - {k}, n - {k}, weight);
    }
  }
}
