/** Sums over the values of a finite map. */
module Sums {

  /** The sum of `f` over the values of `m`. */
  ghost function Sum<K, V>(m: map<K, V>, f: V -> nat): nat
    decreases |m|
  {
    if m == map[] then 0
    else
      var k :| k in m;
      f(m[k]) + Sum(m - {k}, f)
  }

  /** Any key can be taken out first. */
  lemma {:induction false} SumWithout<K, V>(m: map<K, V>, f: V -> nat, k: K)
    requires k in m
    ensures Sum(m, f) == f(m[k]) + Sum(m - {k}, f)
    decreases |m|
  {
    var j :| j in m && Sum(m, f) == f(m[j]) + Sum(m - {j}, f);
    if j != k {
      SumWithout(m - {j}, f, k);
      SumWithout(m - {k}, f, j);
      assert m - {j} - {k} == m - {k} - {j};
    }
  }

  lemma SumPut<K, V>(m: map<K, V>, f: V -> nat, k: K, v: V)
    ensures Sum(m[k := v], f) == Sum(m - {k}, f) + f(v)
    ensures k in m ==> Sum(m[k := v], f) == Sum(m, f) - f(m[k]) + f(v)
    ensures k !in m ==> Sum(m[k := v], f) == Sum(m, f) + f(v)
  {
    SumWithout(m[k := v], f, k);
    assert m[k := v] - {k} == m - {k};
    if k in m {
      SumWithout(m, f, k);
    } else {
      assert m - {k} == m;
    }
  }

  /** A sum of smaller terms is smaller. */
  lemma {:induction false} SumAtMost<K, V>(m: map<K, V>, f: V -> nat, g: V -> nat)
    requires forall k | k in m :: f(m[k]) <= g(m[k])
    ensures Sum(m, f) <= Sum(m, g)
    decreases |m|
  {
    if m != map[] {
      var k :| k in m;
      SumWithout(m, f, k);
      SumWithout(m, g, k);
      SumAtMost(m - {k}, f, g);
    }
  }
}
