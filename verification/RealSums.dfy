/** Sums of real quantities over the entries of a finite map and over sequences. The order in
    which a hash map is walked never matters. */
module RealSums {

  ghost function Sum<K, V>(m: map<K, V>, f: (K, V) -> real): real
    decreases |m|
  {
    if m == map[] then 0.0
    else
      var k :| k in m;
      f(k, m[k]) + Sum(m - {k}, f)
  }

  /** Any key may be taken out first. */
  lemma {:induction false} SumExtract<K, V>(m: map<K, V>, f: (K, V) -> real, k: K)
    requires k in m
    ensures Sum(m, f) == f(k, m[k]) + Sum(m - {k}, f)
    decreases |m|
  {
    var first :| first in m && Sum(m, f) == f(first, m[first]) + Sum(m - {first}, f);
    if first != k {
      SumExtract(m - {first}, f, k);
      SumExtract(m - {k}, f, first);
      assert m - {first} - {k} == m - {k} - {first};
    }
  }

  /** Only the values of the measure on the map's own entries matter. */
  lemma {:induction false} SumSame<K, V, W>(m: map<K, V>, f: (K, V) -> real, n: map<K, W>, g: (K, W) -> real)
    requires m.Keys == n.Keys
    requires forall k :: k in m ==> f(k, m[k]) == g(k, n[k])
    ensures Sum(m, f) == Sum(n, g)
    decreases |m|
  {
    if m == map[] {
      assert n == map[];
    } else {
      var k :| k in m;
      SumExtract(m, f, k);
      SumExtract(n, g, k);
      SumSame(m - {k}, f, n - {k}, g);
    }
  }

  /** A measure that splits into two parts splits the sum. */
  lemma {:induction false} SumSplits<K, V>(m: map<K, V>, f: (K, V) -> real, g: (K, V) -> real, h: (K, V) -> real)
    requires forall k :: k in m ==> f(k, m[k]) == g(k, m[k]) + h(k, m[k])
    ensures Sum(m, f) == Sum(m, g) + Sum(m, h)
    decreases |m|
  {
    if m != map[] {
      var k :| k in m;
      SumExtract(m, f, k);
      SumExtract(m, g, k);
      SumExtract(m, h, k);
      SumSplits(m - {k}, f, g, h);
    }
  }

  /** Entries that measure zero may come and go. */
  lemma {:induction false} SumSameSupport<K, V>(m: map<K, V>, n: map<K, V>, f: (K, V) -> real)
    requires forall k :: k in m && k !in n ==> f(k, m[k]) == 0.0
    requires forall k :: k in n && k !in m ==> f(k, n[k]) == 0.0
    requires forall k :: k in m && k in n ==> f(k, m[k]) == f(k, n[k])
    ensures Sum(m, f) == Sum(n, f)
    decreases |m| + |n|
  {
    hide Sum;
    if m != map[] {
      var k :| k in m;
      SumExtract(m, f, k);
      if k in n {
        SumExtract(n, f, k);
        SumSameSupport(m - {k}, n - {k}, f);
      } else {
        SumSameSupport(m - {k}, n, f);
      }
    } else if n != map[] {
      var k :| k in n;
      SumExtract(n, f, k);
      SumSameSupport(m, n - {k}, f);
    } else {
      assert m == n;
    }
  }
}
