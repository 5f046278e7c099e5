/** The shared cache the Django code talks to through `cache.get/set/delete/delete_many`,
  * seen as one mutable map from string keys to values, and the `'prefix%d_%d'` keys the
  * action code builds. */
module Memcache {
  import opened Wrappers
  import opened Text

  class Cache<V> {
    var store: map<string, V>

    constructor ()
      ensures store == map[]
    {
      store := map[];
    }

    /** `cache.get(key)`: None on a miss. */
    function Get(key: string): (r: Option<V>)
      reads this
      ensures r.Some? <==> key in store
      ensures r.Some? ==> r.value == store[key]
    {
      if key in store then Some(store[key]) else None
    }

    method Set(key: string, value: V)
      modifies this
      ensures store == old(store)[key := value]
    {
      store := store[key := value];
    }

    method Delete(key: string)
      modifies this
      ensures store == old(store) - {key}
    {
      store := store - {key};
    }

    method DeleteMany(keys: seq<string>)
      modifies this
      ensures store == old(store) - set k | k in keys
    {
      store := store - set k | k in keys;
    }
  }

  /** `prefix + '%d_%d' % (a, b)`: a key naming a campaign and a user. */
  function PairKey(prefix: string, a: nat, b: nat): (k: string)
    ensures |k| > |prefix| && k[..|prefix|] == prefix
  {
    prefix + NatStr(a) + "_" + NatStr(b)
  }

  /** Two pair keys with the same prefix are equal only for the same two numbers: the
    * last underscore separates the numbers, which hold only digits. */
  lemma PairKeyInjective(prefix: string, a1: nat, b1: nat, a2: nat, b2: nat)
    requires PairKey(prefix, a1, b1) == PairKey(prefix, a2, b2)
    ensures a1 == a2 && b1 == b2
  {
    var d1, d2 := NatStr(b1), NatStr(b2);
    assert '_' !in d1 && '_' !in d2 by {
      assert forall k :: 0 <= k < |d1| ==> IsDigit(d1[k]);
      assert forall k :: 0 <= k < |d2| ==> IsDigit(d2[k]);
    }
    SplitAtLastSeparator(prefix + NatStr(a1), prefix + NatStr(a2), d1, d2, '_');
    assert NatStr(a1) == (prefix + NatStr(a1))[|prefix|..];
    assert NatStr(a2) == (prefix + NatStr(a2))[|prefix|..];
    NatStrInjective(a1, a2);
    NatStrInjective(b1, b2);
  }

  /** The keys of one campaign and a list of users. */
  ghost function PairKeys(prefix: string, a: nat, bs: seq<nat>): set<string>
  {
    set b | b in bs :: PairKey(prefix, a, b)
  }

  ghost predicate NoDuplicates<T>(xs: seq<T>)
  {
    forall i, j :: 0 <= i < j < |xs| ==> xs[i] != xs[j]
  }

  /** A list of distinct users names as many distinct keys as it has users. */
  lemma {:induction false} PairKeysCount(prefix: string, a: nat, bs: seq<nat>)
    requires NoDuplicates(bs)
    ensures |PairKeys(prefix, a, bs)| == |bs|
  {
    if bs != [] {
      var init, last := bs[..|bs| - 1], bs[|bs| - 1];
      assert bs == init + [last];
      PairKeysCount(prefix, a, init);
      assert PairKeys(prefix, a, bs) == PairKeys(prefix, a, init) + {PairKey(prefix, a, last)};
      forall b | b in init
        ensures PairKey(prefix, a, b) != PairKey(prefix, a, last)
      {
        var i :| 0 <= i < |init| && init[i] == b;
        assert bs[i] == b && bs[|bs| - 1] == last;
        if PairKey(prefix, a, b) == PairKey(prefix, a, last) {
          PairKeyInjective(prefix, a, b, a, last);
        }
      }
    }
  }
}
