/** Sums over finite maps, independent of the order in which keys are visited. */
module BucketSums {
  /** The sum of m over the keys ks. */
  ghost function Sum<K>(m: map<K, int>, ks: set<K>): int
    requires ks <= m.Keys
    decreases ks
  {
    if ks == {} then 0 else var k :| k in ks; m[k] + Sum(m, ks - {k})
  }

  lemma {:induction false} SumPick<K>(m: map<K, int>, ks: set<K>, k: K)
    requires ks <= m.Keys && k in ks
    ensures Sum(m, ks) == m[k] + Sum(m, ks - {k})
    decreases ks
  {
    var first :| first in ks && Sum(m, ks) == m[first] + Sum(m, ks - {first});
    if first != k {
      SumPick(m, ks - {first}, k);
      SumPick(m, ks - {k}, first);
      assert ks - {first} - {k} == ks - {k} - {first};
    }
  }

  lemma {:induction false} SumSame<K>(m: map<K, int>, m': map<K, int>, ks: set<K>)
    requires ks <= m.Keys && ks <= m'.Keys && forall k :: k in ks ==> m[k] == m'[k]
    ensures Sum(m, ks) == Sum(m', ks)
    decreases ks
  {
    if ks != {} {
      var k :| k in ks;
      SumPick(m, ks, k);
      SumPick(m', ks, k);
      SumSame(m, m', ks - {k});
    }
  }

  lemma {:induction false} SumNonNegative<K>(m: map<K, int>, ks: set<K>)
    requires ks <= m.Keys && forall k :: k in ks ==> m[k] >= 0
    ensures Sum(m, ks) >= 0
    decreases ks
  {
    if ks != {} {
      var k :| k in ks;
      SumPick(m, ks, k);
      SumNonNegative(m, ks - {k});
    }
  }

  function At<K(==)>(m: map<K, int>, k: K): int { if k in m then m[k] else 0 }

  function Add<K(==)>(m: map<K, int>, k: K, d: int): map<K, int> { m[k := At(m, k) + d] }

  lemma SumAdd<K>(m: map<K, int>, k: K, d: int)
    ensures Sum(Add(m, k, d), Add(m, k, d).Keys) == Sum(m, m.Keys) + d
  {
    var m' := Add(m, k, d);
    SumPick(m', m'.Keys, k);
    SumSame(m, m', m.Keys - {k});
    if k in m {
      assert m'.Keys == m.Keys;
      SumPick(m, m.Keys, k);
    } else {
      assert m'.Keys - {k} == m.Keys == m.Keys - {k};
    }
  }

  /** Usage at or after a minute: what GetQuotaUsage adds up. */
  ghost function Since(m: map<nat, int>, start: nat): int {
    Sum(m, set b: nat | b in m && b >= start)
  }

  /** Only buckets at or after the minute count. */
  lemma SinceNone(m: map<nat, int>, start: nat)
    requires forall b :: b in m ==> b < start
    ensures Since(m, start) == 0
  {
    assert (set b: nat | b in m && b >= start) == {};
  }

  /** A new unit counts exactly from its bucket backwards. */
  lemma SinceAdd(m: map<nat, int>, b: nat, d: int, start: nat)
    ensures Since(Add(m, b, d), start) == Since(m, start) + if b >= start then d else 0
  {
    var m', ks, ks' := Add(m, b, d), set x: nat | x in m && x >= start, set x: nat | x in Add(m, b, d) && x >= start;
    SumSame(m, m', ks - {b});
    if b >= start {
      SumPick(m', ks', b);
      assert ks' - {b} == ks - {b};
      if b in m { SumPick(m, ks, b); } else { assert ks - {b} == ks; }
    } else {
      assert ks' == ks == ks - {b};
    }
  }

  lemma SinceCoversBucket(m: map<nat, int>, start: nat)
    requires forall b :: b in m ==> m[b] >= 0
    ensures Since(m, start) >= At(m, start) && Since(m, start) >= 0
  {
    var ks := set b: nat | b in m && b >= start;
    SumNonNegative(m, ks);
    if start in m {
      SumPick(m, ks, start);
      SumNonNegative(m, ks - {start});
    }
  }
}
