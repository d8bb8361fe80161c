/** Cardinality facts about finite sets and duplicate-free sequences. */
module Sets {
  lemma SubsetSize<T>(a: set<T>, b: set<T>)
    requires a <= b
    ensures |a| <= |b|
  {
    assert b == a + (b - a);
  }

  function Image<K, V>(keys: set<K>, m: map<K, V>): set<V>
    requires keys <= m.Keys
  {
    set k | k in keys :: m[k]
  }

  lemma {:induction false} ImageSize<K, V>(keys: set<K>, m: map<K, V>)
    requires keys <= m.Keys
    ensures |Image(keys, m)| <= |keys|
    decreases keys
  {
    if keys == {} {
      assert Image(keys, m) == {};
    } else {
      var k :| k in keys;
      ImageSize(keys - {k}, m);
      assert Image(keys, m) == Image(keys - {k}, m) + {m[k]};
    }
  }

  lemma {:induction false} DistinctSize<T>(s: seq<T>)
    requires forall i, j :: 0 <= i < j < |s| ==> s[i] != s[j]
    ensures |set x | x in s| == |s|
  {
    if s != [] {
      var n := |s| - 1;
      DistinctSize(s[..n]);
      assert (set x | x in s) == (set x | x in s[..n]) + {s[n]};
    }
  }

  lemma {:induction false} AtMostLength<T>(s: seq<T>)
    ensures |set x | x in s| <= |s|
  {
    if s != [] {
      var n := |s| - 1;
      AtMostLength(s[..n]);
      assert (set x | x in s) == (set x | x in s[..n]) + {s[n]};
    }
  }
}
