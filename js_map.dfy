/** A JavaScript `Map`: its keys in insertion order, and the value of each.
    `set` on a key already present replaces the value and keeps the key's
    place; `get` of a missing key is undefined. */
module JsMap {
  import opened Common

  datatype JsMap<K, V> = JsMap(keys: seq<K>, entries: map<K, V>)

  /** The keys are listed once each, and exactly the keys with a value. */
  ghost predicate Valid<K, V>(m: JsMap<K, V>)
  {
    (forall i, j :: 0 <= i < j < |m.keys| ==> m.keys[i] != m.keys[j]) &&
    (forall i :: 0 <= i < |m.keys| ==> m.keys[i] in m.entries) &&
    |m.entries| == |m.keys|
  }

  /** `new Map()`. */
  function Empty<K, V>(): (m: JsMap<K, V>)
    ensures Valid(m) && m.keys == []
  {
    JsMap([], map[])
  }

  /** `m.get(k)`. */
  function Get<K, V>(m: JsMap<K, V>, k: K): (r: Option<V>)
    ensures r.Some? <==> k in m.entries
    ensures r.Some? ==> r.value == m.entries[k]
  {
    if k in m.entries then Some(m.entries[k]) else None
  }

  /** `m.set(k, v)`. */
  function Set<K, V>(m: JsMap<K, V>, k: K, v: V): (r: JsMap<K, V>)
    ensures r.entries == m.entries[k := v]
    ensures k in m.entries ==> r.keys == m.keys
    ensures k !in m.entries ==> r.keys == m.keys + [k]
  {
    if k in m.entries then
      JsMap(m.keys, m.entries[k := v])
    else
      JsMap(m.keys + [k], m.entries[k := v])
  }

  /** `set` keeps the keys listed once each, and listed exactly when they
      have a value. */
  lemma SetValid<K, V>(m: JsMap<K, V>, k: K, v: V)
    requires Valid(m)
    ensures Valid(Set(m, k, v))
  {
    if k !in m.entries {
      KeysCoverEntries(m);
    }
  }

  /** In a valid map, every key with a value is listed. */
  lemma KeysCoverEntries<K, V>(m: JsMap<K, V>)
    requires Valid(m)
    ensures forall k :: k in m.entries ==> k in m.keys
  {
    var listed := set i | 0 <= i < |m.keys| :: m.keys[i];
    DistinctCount(m.keys);
    assert listed <= m.entries.Keys;
    assert |listed| == |m.entries.Keys|;
    SubsetOfSameSize(listed, m.entries.Keys);
    forall k | k in m.entries ensures k in m.keys {
      assert k in listed;
    }
  }

  /** A sequence without repeats has as many distinct elements as entries. */
  lemma {:induction false} DistinctCount<K>(s: seq<K>)
    requires forall i, j :: 0 <= i < j < |s| ==> s[i] != s[j]
    ensures |set i | 0 <= i < |s| :: s[i]| == |s|
  {
    if s != [] {
      var last := s[|s| - 1];
      var init := s[..|s| - 1];
      DistinctCount(init);
      var a := set i | 0 <= i < |init| :: init[i];
      var b := set i | 0 <= i < |s| :: s[i];
      assert b == a + {last} by {
        forall x | x in b ensures x in a + {last} {
          var i :| 0 <= i < |s| && s[i] == x;
          if i < |s| - 1 { assert init[i] == x; }
        }
        forall x | x in a ensures x in b {
          var i :| 0 <= i < |init| && init[i] == x;
          assert s[i] == x;
        }
      }
    }
  }

  lemma {:induction false} SubsetOfSameSize<K>(a: set<K>, b: set<K>)
    requires a <= b && |a| == |b|
    ensures a == b
  {
    if a != b {
      var x :| x in b && x !in a;
      assert a <= b - {x};
      CardinalityMonotone(a, b - {x});
    }
  }

  lemma {:induction false} CardinalityMonotone<K>(a: set<K>, b: set<K>)
    requires a <= b
    ensures |a| <= |b|
  {
    if a != {} {
      var x :| x in a;
      CardinalityMonotone(a - {x}, b - {x});
    }
  }

  /** The `Map` laws: a `get` after a `set` sees the value set, and every
      other key is left as it was. */
  lemma GetAfterSet<K, V>(m: JsMap<K, V>, k: K, v: V, other: K)
    ensures Get(Set(m, k, v), k) == Some(v)
    ensures other != k ==> Get(Set(m, k, v), other) == Get(m, other)
  {
  }

  /** The distinct elements of ks, each where it first occurs: the key order
      of a map filled by `set` on ks in turn. */
  function FirstOccurrences<K(==)>(ks: seq<K>): (r: seq<K>)
    ensures forall i, j :: 0 <= i < j < |r| ==> r[i] != r[j]
    ensures forall i :: 0 <= i < |r| ==> r[i] in ks
    ensures forall i :: 0 <= i < |ks| ==> ks[i] in r
  {
    if ks == [] then []
    else
      var init := FirstOccurrences(ks[..|ks| - 1]);
      assert ks == ks[..|ks| - 1] + [ks[|ks| - 1]];
      if ks[|ks| - 1] in init then init else init + [ks[|ks| - 1]]
  }

  /** `ks.indexOf(x)`: where x first occurs. */
  function IndexOf<K(==)>(ks: seq<K>, x: K): (i: nat)
    requires x in ks
    ensures i < |ks| && ks[i] == x
    ensures forall j :: 0 <= j < i ==> ks[j] != x
  {
    if x in ks[..|ks| - 1] then IndexOf(ks[..|ks| - 1], x) else |ks| - 1
  }

  /** Keys listed earlier first occur earlier. */
  lemma {:induction false} FirstOccurrencesOrdered<K>(ks: seq<K>)
    ensures forall i, j :: 0 <= i < j < |FirstOccurrences(ks)| ==>
      IndexOf(ks, FirstOccurrences(ks)[i]) < IndexOf(ks, FirstOccurrences(ks)[j])
  {
    if ks != [] {
      var init := ks[..|ks| - 1];
      FirstOccurrencesOrdered(init);
      var r := FirstOccurrences(ks);
      var q := FirstOccurrences(init);
      var k := ks[|ks| - 1];
      assert r == q || (r == q + [k] && k !in init);
      forall i, j | 0 <= i < j < |r| ensures IndexOf(ks, r[i]) < IndexOf(ks, r[j]) {
        assert r[i] == q[i] && q[i] in init;
        assert IndexOf(ks, r[i]) == IndexOf(init, q[i]) < |init|;
        if j < |q| {
          assert r[j] == q[j] && q[j] in init;
          assert IndexOf(ks, r[j]) == IndexOf(init, q[j]);
          assert IndexOf(init, q[i]) < IndexOf(init, q[j]);
        } else {
          assert r[j] == k && IndexOf(ks, k) == |ks| - 1;
        }
      }
    }
  }

  /** The map after `set(ks[i], vs[i])` for each i in turn, from an empty map. */
  function SetEach<K, V>(ks: seq<K>, vs: seq<V>): JsMap<K, V>
    requires |ks| == |vs|
  {
    if ks == [] then Empty()
    else Set(SetEach(ks[..|ks| - 1], vs[..|vs| - 1]), ks[|ks| - 1], vs[|vs| - 1])
  }

  lemma SetEachStep<K, V>(ks: seq<K>, vs: seq<V>, i: nat)
    requires |ks| == |vs| && i < |ks|
    ensures SetEach(ks[..i + 1], vs[..i + 1]) == Set(SetEach(ks[..i], vs[..i]), ks[i], vs[i])
  {
    assert ks[..i + 1][..i] == ks[..i];
    assert vs[..i + 1][..i] == vs[..i];
  }

  lemma {:induction false} SetEachValid<K, V>(ks: seq<K>, vs: seq<V>)
    requires |ks| == |vs|
    ensures Valid(SetEach(ks, vs))
  {
    if ks != [] {
      SetEachValid(ks[..|ks| - 1], vs[..|vs| - 1]);
      SetValid(SetEach(ks[..|ks| - 1], vs[..|vs| - 1]), ks[|ks| - 1], vs[|vs| - 1]);
    }
  }

  /** A later `set` of a key overwrites an earlier one: the value under a key
      is the one set last. */
  lemma {:induction false} SetEachLastWins<K, V>(ks: seq<K>, vs: seq<V>, i: nat)
    requires |ks| == |vs| && i < |ks|
    requires forall j :: i < j < |ks| ==> ks[j] != ks[i]
    ensures Get(SetEach(ks, vs), ks[i]) == Some(vs[i])
  {
    var n := |ks| - 1;
    var init := SetEach(ks[..n], vs[..n]);
    GetAfterSet(init, ks[n], vs[n], ks[i]);
    if i < n {
      assert forall j :: i < j < n ==> ks[..n][j] == ks[j];
      SetEachLastWins(ks[..n], vs[..n], i);
    }
  }

  /** A key never set is missing. */
  lemma {:induction false} SetEachMissing<K, V>(ks: seq<K>, vs: seq<V>, key: K)
    requires |ks| == |vs|
    requires forall j :: 0 <= j < |ks| ==> ks[j] != key
    ensures Get(SetEach(ks, vs), key) == None
  {
    if ks != [] {
      var n := |ks| - 1;
      GetAfterSet(SetEach(ks[..n], vs[..n]), ks[n], vs[n], key);
      assert forall j :: 0 <= j < n ==> ks[..n][j] == ks[j];
      SetEachMissing(ks[..n], vs[..n], key);
    }
  }

  /** The keys are listed once each, where they are first set. */
  lemma {:induction false} SetEachKeyOrder<K, V>(ks: seq<K>, vs: seq<V>)
    requires |ks| == |vs|
    ensures SetEach(ks, vs).keys == FirstOccurrences(ks)
  {
    if ks != [] {
      var n := |ks| - 1;
      SetEachKeyOrder(ks[..n], vs[..n]);
      SetEachValid(ks[..n], vs[..n]);
      KeysCoverEntries(SetEach(ks[..n], vs[..n]));
    }
  }
}
