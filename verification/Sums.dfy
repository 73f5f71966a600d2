/** Totals over the entries of a finite map. */
module Sums {

  ghost function Sum<K, V>(m: map<K, V>, f: V -> nat): (total: nat)
    decreases |m|
  {
    if m == map[] then 0
    else
      var k :| k in m;
      f(m[k]) + Sum(m - {k}, f)
  }

  /** Which entry is taken off first does not matter. */
  lemma {:induction false} SumRemove<K, V>(m: map<K, V>, k: K, f: V -> nat)
    requires k in m
    ensures Sum(m, f) == f(m[k]) + Sum(m - {k}, f)
    decreases |m|
  {
    var j :| j in m && Sum(m, f) == f(m[j]) + Sum(m - {j}, f);
    if j != k {
      SumRemove(m - {j}, k, f);
      SumRemove(m - {k}, j, f);
      assert m - {j} - {k} == m - {k} - {j};
    }
  }

  lemma SumInsert<K, V>(m: map<K, V>, k: K, v: V, f: V -> nat)
    requires k !in m
    ensures Sum(m[k := v], f) == Sum(m, f) + f(v)
  {
    SumRemove(m[k := v], k, f);
    assert m[k := v] - {k} == m;
  }

  lemma SumUpdate<K, V>(m: map<K, V>, k: K, v: V, f: V -> nat)
    requires k in m
    ensures Sum(m[k := v], f) + f(m[k]) == Sum(m, f) + f(v)
  {
    SumRemove(m, k, f);
    SumRemove(m[k := v], k, f);
    assert m[k := v] - {k} == m - {k};
  }

  /** What `k` contributes to a total over `m`; nothing when it is absent. */
  function Part<K, V>(m: map<K, V>, k: K, f: V -> nat): (n: nat) {
    if k in m then f(m[k]) else 0
  }

  /** A total is split in two wherever each of its terms is. */
  lemma {:induction false} SumSplit<K, V, A, B>(m: map<K, V>, a: map<K, A>, b: map<K, B>,
                                                f: V -> nat, g: A -> nat, h: B -> nat)
    requires a.Keys <= m.Keys && b.Keys <= m.Keys
    requires forall k :: k in m ==> f(m[k]) == Part(a, k, g) + Part(b, k, h)
    ensures Sum(m, f) == Sum(a, g) + Sum(b, h)
    decreases |m|
  {
    if m == map[] {
      assert a == map[] && b == map[];
    } else {
      var k :| k in m;
      SumRemove(m, k, f);
      if k in a { SumRemove(a, k, g); } else { assert a - {k} == a; }
      if k in b { SumRemove(b, k, h); } else { assert b - {k} == b; }
      forall j | j in m - {k} ensures f((m - {k})[j]) == Part(a - {k}, j, g) + Part(b - {k}, j, h) {}
      SumSplit(m - {k}, a - {k}, b - {k}, f, g, h);
    }
  }

  lemma {:induction false} SumAtMost<K, V>(m: map<K, V>, f: V -> nat, g: V -> nat)
    requires forall k :: k in m ==> f(m[k]) <= g(m[k])
    ensures Sum(m, f) <= Sum(m, g)
    decreases |m|
  {
    if m != map[] {
      var k :| k in m;
      SumRemove(m, k, f);
      SumRemove(m, k, g);
      SumAtMost(m - {k}, f, g);
    }
  }

  lemma SizeWithout<K, V>(m: map<K, V>, k: K)
    requires k in m
    ensures |m - {k}| == |m| - 1
  {
    assert (m - {k}).Keys == m.Keys - {k};
    assert |(m - {k}).Keys| == |m.Keys| - 1;
  }

  lemma SizeWith<K, V>(m: map<K, V>, k: K, v: V)
    ensures |m[k := v]| == |m| + (if k in m then 0 else 1)
  {
    assert m[k := v].Keys == m.Keys + {k};
    if k in m {
      assert m.Keys + {k} == m.Keys;
    }
    assert |m[k := v].Keys| == |m.Keys| + (if k in m then 0 else 1);
  }
}
