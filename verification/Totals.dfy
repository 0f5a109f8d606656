/** Sums over the values of a finite map. */
module Totals {

  ghost function Total(m: map<nat, nat>): nat
    decreases |m|
  {
    if m == map[] then 0
    else
      var k :| k in m;
      m[k] + Total(m - {k})
  }

  /** Any key may be split off a total. */
  lemma {:induction false} TotalSplit(m: map<nat, nat>, k: nat)
    requires k in m
    ensures Total(m) == m[k] + Total(m - {k})
    decreases |m|
  {
    var c :| c in m && Total(m) == m[c] + Total(m - {c});
    if c != k {
      TotalSplit(m - {c}, k);
      TotalSplit(m - {k}, c);
      assert m - {c} - {k} == m - {k} - {c};
    }
  }

  /** A total bounds another whose values, with what `extra` adds, it bounds key by key. */
  lemma {:induction false} TotalBound(small: map<nat, nat>, extra: map<nat, nat>, large: map<nat, nat>)
    requires small.Keys == large.Keys == extra.Keys
    requires forall k :: k in small ==> small[k] + extra[k] <= large[k]
    ensures Total(small) + Total(extra) <= Total(large)
    decreases |small|
  {
    if small != map[] {
      var k :| k in small;
      TotalSplit(small, k);
      TotalSplit(extra, k);
      TotalSplit(large, k);
      TotalBound(small - {k}, extra - {k}, large - {k});
    } else {
      assert large == map[] && extra == map[];
    }
  }

  function Indicator(keys: set<nat>, chosen: set<nat>): map<nat, nat> {
    map k | k in keys :: if k in chosen then 1 else 0
  }

  /** Counting the members of a set of keys. */
  lemma {:induction false} TotalIndicator(keys: set<nat>, chosen: set<nat>)
    requires chosen <= keys
    ensures Total(Indicator(keys, chosen)) == |chosen|
    decreases |keys|
  {
    if keys == {} {
      assert Indicator(keys, chosen) == map[];
    } else {
      var k :| k in keys;
      TotalSplit(Indicator(keys, chosen), k);
      assert Indicator(keys, chosen) - {k} == Indicator(keys - {k}, chosen - {k});
      TotalIndicator(keys - {k}, chosen - {k});
      if k !in chosen {
        assert chosen - {k} == chosen;
      }
    }
  }

  lemma UnionWithout(a: map<nat, nat>, b: map<nat, nat>, k: nat)
    requires a.Keys !! b.Keys && k in b
    ensures (a + b) - {k} == a + (b - {k}) && (a + b)[k] == b[k]
  {
  }

  /** The total of two maps with no common key. */
  lemma {:induction false} TotalUnion(a: map<nat, nat>, b: map<nat, nat>)
    requires a.Keys !! b.Keys
    ensures Total(a + b) == Total(a) + Total(b)
    decreases |b|
  {
    if b != map[] {
      var k :| k in b;
      TotalSplit(b, k);
      TotalSplit(a + b, k);
      UnionWithout(a, b, k);
      TotalUnion(a, b - {k});
    } else {
      assert a + b == a;
    }
  }
}
