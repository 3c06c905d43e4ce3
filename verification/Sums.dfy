/** Sums over the values of a finite map, the ledger's notion of a total. */
module Sums {

  ghost function Sum(q: map<nat, int>): int
    decreases |q|
  {
    if q == map[] then 0 else
      var k :| k in q;
      assert (q - {k}).Keys == q.Keys - {k};
      q[k] + Sum(q - {k})
  }

  /** The order in which values are added does not matter. */
  lemma {:induction false} SumRemove(q: map<nat, int>, k: nat)
    requires k in q
    ensures Sum(q) == q[k] + Sum(q - {k})
    decreases |q|
  {
    var j :| j in q && Sum(q) == q[j] + Sum(q - {j});
    if j != k {
      assert (q - {j}).Keys == q.Keys - {j};
      assert (q - {k}).Keys == q.Keys - {k};
      SumRemove(q - {j}, k);
      SumRemove(q - {k}, j);
      assert q - {j} - {k} == q - {k} - {j};
    }
  }

  lemma SumInsert(q: map<nat, int>, k: nat, v: int)
    requires k !in q
    ensures Sum(q[k := v]) == Sum(q) + v
  {
    SumRemove(q[k := v], k);
    assert q[k := v] - {k} == q;
  }

  lemma {:induction false} SumMonotone(lo: map<nat, int>, hi: map<nat, int>)
    requires lo.Keys == hi.Keys
    requires forall k :: k in lo ==> lo[k] <= hi[k]
    ensures Sum(lo) <= Sum(hi)
    decreases |lo|
  {
    if lo == map[] {
      assert hi == map[];
    } else {
      var k :| k in lo;
      SumRemove(lo, k);
      SumRemove(hi, k);
      assert (lo - {k}).Keys == lo.Keys - {k};
      SumMonotone(lo - {k}, hi - {k});
    }
  }

  lemma {:induction false} SumNegate(q: map<nat, int>)
    ensures Sum(map k | k in q :: -q[k]) == -Sum(q)
    decreases |q|
  {
    var n := map k | k in q :: -q[k];
    if q == map[] {
      assert n == map[];
    } else {
      var k :| k in q;
      SumRemove(q, k);
      SumRemove(n, k);
      assert (q - {k}).Keys == q.Keys - {k};
      assert n - {k} == map j | j in q - {k} :: -(q - {k})[j];
      SumNegate(q - {k});
    }
  }

  lemma SumNonnegative(q: map<nat, int>)
    requires forall k :: k in q ==> 0 <= q[k]
    ensures 0 <= Sum(q)
    decreases |q|
  {
    if q != map[] {
      var k :| k in q;
      SumRemove(q, k);
      assert (q - {k}).Keys == q.Keys - {k};
      SumNonnegative(q - {k});
    }
  }

  lemma {:induction false} SumUnion(a: map<nat, int>, b: map<nat, int>)
    requires a.Keys !! b.Keys
    ensures Sum(a + b) == Sum(a) + Sum(b)
    decreases |b|
  {
    if b == map[] {
      assert a + b == a;
    } else {
      var k :| k in b;
      assert (b - {k}).Keys == b.Keys - {k};
      SumRemove(b, k);
      SumUnion(a, b - {k});
      UnionRemove(a, b, k);
    }
  }

  lemma UnionRemove(a: map<nat, int>, b: map<nat, int>, k: nat)
    requires a.Keys !! b.Keys && k in b
    ensures Sum(a + b) == b[k] + Sum(a + (b - {k}))
  {
    SumRemove(a + b, k);
    assert (a + b) - {k} == a + (b - {k});
  }
}
