/** Sums over the entries of a map, used for the conservation laws. */
module MapSum {

  ghost function Pick<K(!new)>(s: set<K>): (k: K)
    requires s != {}
    ensures k in s
  {
    var k :| k in s;
    k
  }

  ghost function Sum<K(!new), V(!new)>(m: map<K, V>, f: (K, V) -> nat): nat
    decreases |m.Keys|
  {
    if m.Keys == {} then 0
    else
      var k := Pick(m.Keys);
      Rest(m, k);
      f(k, m[k]) + Sum(m - {k}, f)
  }

  lemma Rest<K(!new), V(!new)>(m: map<K, V>, k: K)
    requires k in m
    ensures (m - {k}).Keys == m.Keys - {k}
    ensures |(m - {k}).Keys| < |m.Keys|
  {
    assert (m - {k}).Keys == m.Keys - {k};
  }

  /** Any entry can be taken out of the sum. */
  lemma {:induction false} Split<K(!new), V(!new)>(m: map<K, V>, k: K, f: (K, V) -> nat)
    requires k in m
    ensures Sum(m, f) == f(k, m[k]) + Sum(m - {k}, f)
    decreases |m.Keys|
  {
    var p := Pick(m.Keys);
    Rest(m, p);
    if p != k {
      Rest(m, k);
      Split(m - {p}, k, f);
      Split(m - {k}, p, f);
      assert m - {p} - {k} == m - {k} - {p};
    }
  }

  /** Writing one entry replaces its contribution. */
  lemma Update<K(!new), V(!new)>(m: map<K, V>, k: K, v: V, f: (K, V) -> nat)
    ensures Sum(m[k := v], f) + (if k in m then f(k, m[k]) else 0) == Sum(m, f) + f(k, v)
  {
    Split(m[k := v], k, f);
    if k in m {
      Split(m, k, f);
      assert m[k := v] - {k} == m - {k};
    } else {
      assert m[k := v] - {k} == m;
    }
  }

  /** Deleting one entry removes its contribution. */
  lemma Delete<K(!new), V(!new)>(m: map<K, V>, k: K, f: (K, V) -> nat)
    ensures Sum(m - {k}, f) + (if k in m then f(k, m[k]) else 0) == Sum(m, f)
  {
    if k in m {
      Split(m, k, f);
    } else {
      assert m - {k} == m;
    }
  }

  /** Two weightings that agree on the entries give the same sum. */
  lemma {:induction false} Agree<K(!new), V(!new)>(m: map<K, V>, f: (K, V) -> nat, g: (K, V) -> nat)
    requires forall k :: k in m ==> f(k, m[k]) == g(k, m[k])
    ensures Sum(m, f) == Sum(m, g)
    decreases |m.Keys|
  {
    if m.Keys != {} {
      var k := Pick(m.Keys);
      Rest(m, k);
      Agree(m - {k}, f, g);
    }
  }

  /** One entry contributes at most the sum. */
  lemma Member<K(!new), V(!new)>(m: map<K, V>, k: K, f: (K, V) -> nat)
    requires k in m
    ensures f(k, m[k]) <= Sum(m, f)
  {
    Split(m, k, f);
  }

  /** A sum whose entries all contribute nothing is zero. */
  lemma {:induction false} Zero<K(!new), V(!new)>(m: map<K, V>, f: (K, V) -> nat)
    requires forall k :: k in m ==> f(k, m[k]) == 0
    ensures Sum(m, f) == 0
    decreases |m.Keys|
  {
    if m.Keys != {} {
      var k := Pick(m.Keys);
      Rest(m, k);
      Zero(m - {k}, f);
    }
  }
}
