/** Sums over finite sets and sequences, independent of the order of summation. */
module Sums {
  import opened Int64

  ghost function SumOver<K>(keys: set<K>, g: K -> int): int
    decreases |keys|
  {
    if keys == {} then 0
    else
      var k :| k in keys;
      g(k) + SumOver(keys - {k}, g)
  }

  /** Any element may be taken out first. */
  lemma {:induction false} SumPick<K>(keys: set<K>, g: K -> int, k: K)
    requires k in keys
    ensures SumOver(keys, g) == g(k) + SumOver(keys - {k}, g)
    decreases |keys|
  {
    var j :| j in keys && SumOver(keys, g) == g(j) + SumOver(keys - {j}, g);
    if j != k {
      SumPick(keys - {j}, g, k);
      SumPick(keys - {k}, g, j);
      assert keys - {j} - {k} == keys - {k} - {j};
    }
  }

  lemma SumAdd<K>(keys: set<K>, g: K -> int, k: K)
    requires k !in keys
    ensures SumOver(keys + {k}, g) == g(k) + SumOver(keys, g)
  {
    SumPick(keys + {k}, g, k);
    assert keys + {k} - {k} == keys;
  }

  lemma {:induction false} SumAgree<K>(keys: set<K>, g: K -> int, h: K -> int)
    requires forall k :: k in keys ==> g(k) == h(k)
    ensures SumOver(keys, g) == SumOver(keys, h)
    decreases |keys|
  {
    if keys != {} {
      var k :| k in keys;
      SumPick(keys, g, k);
      SumPick(keys, h, k);
      SumAgree(keys - {k}, g, h);
    }
  }

  /** Changing one term, possibly adding its key, changes the sum by that much. */
  lemma SumChange<K>(keys: set<K>, g: K -> int, h: K -> int, k: K)
    requires forall j :: j in keys && j != k ==> g(j) == h(j)
    requires k !in keys ==> g(k) == 0
    ensures SumOver(keys + {k}, h) == SumOver(keys, g) - g(k) + h(k)
  {
    var rest := keys - {k};
    SumAgree(rest, g, h);
    assert keys + {k} - {k} == rest;
    SumPick(keys + {k}, h, k);
    if k in keys {
      SumPick(keys, g, k);
    } else {
      assert rest == keys;
    }
  }

  lemma {:induction false} SumLinear<K>(keys: set<K>, g: K -> int, h: K -> int, s: K -> int)
    requires forall k :: k in keys ==> s(k) == g(k) + h(k)
    ensures SumOver(keys, s) == SumOver(keys, g) + SumOver(keys, h)
    decreases |keys|
  {
    if keys != {} {
      var k :| k in keys;
      SumPick(keys, g, k);
      SumPick(keys, h, k);
      SumPick(keys, s, k);
      SumLinear(keys - {k}, g, h, s);
    }
  }

  lemma {:induction false} SumBounded<K>(keys: set<K>, g: K -> int, bound: K -> int)
    requires forall k :: k in keys ==> Abs(g(k)) <= bound(k)
    ensures Abs(SumOver(keys, g)) <= SumOver(keys, bound)
    decreases |keys|
  {
    if keys != {} {
      var k :| k in keys;
      SumPick(keys, g, k);
      SumPick(keys, bound, k);
      SumBounded(keys - {k}, g, bound);
    }
  }

  lemma {:induction false} SumScaled<K>(keys: set<K>, g: K -> int, h: K -> int, c: int)
    requires forall k :: k in keys ==> h(k) == c * g(k)
    ensures SumOver(keys, h) == c * SumOver(keys, g)
    decreases |keys|
  {
    if keys != {} {
      var k :| k in keys;
      SumPick(keys, g, k);
      SumPick(keys, h, k);
      SumScaled(keys - {k}, g, h, c);
      assert c * (g(k) + SumOver(keys - {k}, g)) == c * g(k) + c * SumOver(keys - {k}, g);
    }
  }

  /** Summing a duplicate-free list of the keys in its own order. */
  ghost function SumSeq<K>(ks: seq<K>, g: K -> int): int {
    if ks == [] then 0 else SumSeq(ks[..|ks| - 1], g) + g(ks[|ks| - 1])
  }

  predicate Distinct<K(==)>(ks: seq<K>) {
    forall i, j :: 0 <= i < j < |ks| ==> ks[i] != ks[j]
  }

  ghost function Elements<K>(ks: seq<K>): set<K> {
    set k | k in ks
  }

  lemma {:induction false} SumSeqIsSum<K>(ks: seq<K>, g: K -> int)
    requires Distinct(ks)
    ensures SumSeq(ks, g) == SumOver(Elements(ks), g)
  {
    if ks != [] {
      var init, k := ks[..|ks| - 1], ks[|ks| - 1];
      SumSeqIsSum(init, g);
      assert k !in init;
      assert ks == init + [k];
      assert Elements(ks) == Elements(init) + {k};
      SumAdd(Elements(init), g, k);
    }
  }
}
