/** `Array.prototype.sort` with a comparator, as the tables call it. The
    language guarantees a stable sort, and for a comparator that behaves
    consistently the stable sort is unique; it is modelled here as insertion
    sort. A comparator is represented by the sign of its result (negative:
    the first argument goes first, positive: the second goes first, zero: the
    two keep their relative order). */
module StableSort {
  import opened Common

  /** Inserts x into t behind every element that does not compare greater
      than x, scanning from the back as insertion sort does. */
  function Insert<T>(t: seq<T>, x: T, cmp: (T, T) -> int): (r: seq<T>)
    ensures |r| == |t| + 1
  {
    if t == [] || cmp(t[|t| - 1], x) <= 0 then t + [x]
    else
      Insert(t[..|t| - 1], x, cmp) + [t[|t| - 1]]
  }

  /** The result of sorting s with cmp. */
  function Sorted<T>(s: seq<T>, cmp: (T, T) -> int): (r: seq<T>)
    ensures |r| == |s|
  {
    if s == [] then []
    else
      Insert(Sorted(s[..|s| - 1], cmp), s[|s| - 1], cmp)
  }

  /** Insertion adds x and loses nothing. */
  lemma {:induction false} InsertPermutes<T>(t: seq<T>, x: T, cmp: (T, T) -> int)
    ensures multiset(Insert(t, x, cmp)) == multiset(t) + multiset{x}
  {
    if t != [] && cmp(t[|t| - 1], x) > 0 {
      assert t == t[..|t| - 1] + [t[|t| - 1]];
      InsertPermutes(t[..|t| - 1], x, cmp);
    }
  }

  /** Sorting is a permutation. */
  lemma {:induction false} SortedPermutes<T>(s: seq<T>, cmp: (T, T) -> int)
    ensures multiset(Sorted(s, cmp)) == multiset(s)
  {
    if s != [] {
      assert s == s[..|s| - 1] + [s[|s| - 1]];
      SortedPermutes(s[..|s| - 1], cmp);
      InsertPermutes(Sorted(s[..|s| - 1], cmp), s[|s| - 1], cmp);
    }
  }

  /** Neighbours are in the comparator's order. */
  predicate Ordered<T>(s: seq<T>, cmp: (T, T) -> int)
  {
    forall i :: 0 < i < |s| ==> cmp(s[i - 1], s[i]) <= 0
  }

  /** A comparator that says "a after b" also says "b before a". */
  ghost predicate Antisymmetric<T(!new)>(cmp: (T, T) -> int)
  {
    forall a, b :: cmp(a, b) > 0 ==> cmp(b, a) < 0
  }

  /** "Not after" is transitive. */
  ghost predicate Transitive<T(!new)>(cmp: (T, T) -> int)
  {
    forall a, b, c :: cmp(a, b) <= 0 && cmp(b, c) <= 0 ==> cmp(a, c) <= 0
  }

  /** Two elements tied with a third are tied with each other. */
  ghost predicate TiesTransitive<T(!new)>(cmp: (T, T) -> int)
  {
    forall a, b, c :: cmp(a, c) == 0 && cmp(b, c) == 0 ==> cmp(a, b) == 0
  }

  /** The elements that compare equal to e. */
  function TiesWith<T>(cmp: (T, T) -> int, e: T): T -> bool
  {
    y => cmp(y, e) == 0
  }

  /** Sorting a list that is already in order leaves it as it is. */
  lemma {:induction false} SortedIdentity<T>(s: seq<T>, cmp: (T, T) -> int)
    requires Ordered(s, cmp)
    ensures Sorted(s, cmp) == s
  {
    if s != [] {
      var init, x := s[..|s| - 1], s[|s| - 1];
      OrderedInit(s, cmp);
      SortedIdentity(init, cmp);
      assert Insert(init, x, cmp) == init + [x];
      assert init + [x] == s;
    }
  }

  /** Dropping the last element keeps a list in order, and that element
      does not go before the one in front of it. */
  lemma OrderedInit<T>(s: seq<T>, cmp: (T, T) -> int)
    requires s != [] && Ordered(s, cmp)
    ensures Ordered(s[..|s| - 1], cmp)
    ensures |s| > 1 ==> cmp(s[..|s| - 1][|s| - 2], s[|s| - 1]) <= 0
  {
    var init := s[..|s| - 1];
    forall i | 0 < i < |init| ensures cmp(init[i - 1], init[i]) <= 0 {
      assert init[i - 1] == s[i - 1] && init[i] == s[i];
    }
    if |s| > 1 {
      assert init[|s| - 2] == s[|s| - 2];
    }
  }

  /** The last element of an insertion is the inserted element or the last of
      the list it was inserted into. */
  lemma {:induction false} InsertLast<T>(t: seq<T>, x: T, cmp: (T, T) -> int)
    ensures var r := Insert(t, x, cmp);
      r[|r| - 1] == x || (t != [] && r[|r| - 1] == t[|t| - 1] && cmp(t[|t| - 1], x) > 0)
  {
  }

  lemma {:induction false} InsertOrdered<T(!new)>(t: seq<T>, x: T, cmp: (T, T) -> int)
    requires Antisymmetric(cmp)
    requires Ordered(t, cmp)
    ensures Ordered(Insert(t, x, cmp), cmp)
  {
    if t == [] || cmp(t[|t| - 1], x) <= 0 {
      var r := t + [x];
      forall i | 0 < i < |r| ensures cmp(r[i - 1], r[i]) <= 0 {
        if i < |t| { assert r[i - 1] == t[i - 1] && r[i] == t[i]; }
      }
    } else {
      var init := t[..|t| - 1];
      var last := t[|t| - 1];
      assert Ordered(init, cmp) by {
        forall i | 0 < i < |init| ensures cmp(init[i - 1], init[i]) <= 0 {
          assert init[i - 1] == t[i - 1] && init[i] == t[i];
        }
      }
      InsertOrdered(init, x, cmp);
      var p := Insert(init, x, cmp);
      InsertLast(init, x, cmp);
      assert cmp(p[|p| - 1], last) <= 0 by {
        if p[|p| - 1] != x {
          assert init[|init| - 1] == t[|t| - 2];
        }
      }
      var r := p + [last];
      forall i | 0 < i < |r| ensures cmp(r[i - 1], r[i]) <= 0 {
        if i < |p| { assert r[i - 1] == p[i - 1] && r[i] == p[i]; }
      }
    }
  }

  /** Sorting with a comparator that is antisymmetric puts neighbours in order. */
  lemma {:induction false} SortedOrdered<T(!new)>(s: seq<T>, cmp: (T, T) -> int)
    requires Antisymmetric(cmp)
    ensures Ordered(Sorted(s, cmp), cmp)
  {
    if s != [] {
      SortedOrdered(s[..|s| - 1], cmp);
      InsertOrdered(Sorted(s[..|s| - 1], cmp), s[|s| - 1], cmp);
    }
  }

  /** With a transitive comparator, order between neighbours is order between
      every earlier and later element. */
  lemma {:induction false} OrderedAllPairs<T(!new)>(s: seq<T>, cmp: (T, T) -> int, i: nat, j: nat)
    requires Transitive(cmp)
    requires Ordered(s, cmp)
    requires i < j < |s|
    ensures cmp(s[i], s[j]) <= 0
    decreases j - i
  {
    if i + 1 < j {
      OrderedAllPairs(s, cmp, i, j - 1);
    }
  }

  /** Inserting x moves it past no element it is tied with. */
  lemma {:induction false} FilterInsert<T(!new)>(t: seq<T>, x: T, cmp: (T, T) -> int, e: T)
    requires TiesTransitive(cmp)
    ensures Filter(Insert(t, x, cmp), TiesWith(cmp, e))
         == Filter(t, TiesWith(cmp, e)) + Filter([x], TiesWith(cmp, e))
  {
    var p := TiesWith(cmp, e);
    if t == [] || cmp(t[|t| - 1], x) <= 0 {
      FilterAppend(t, [x], p);
    } else {
      var init := t[..|t| - 1];
      var last := t[|t| - 1];
      assert t == init + [last];
      FilterInsert(init, x, cmp, e);
      FilterAppend(Insert(init, x, cmp), [last], p);
      FilterAppend(init, [last], p);
      assert !(p(x) && p(last));
      if p(x) {
        assert Filter([last], p) == [];
      } else {
        assert Filter([x], p) == [];
      }
    }
  }

  /** Stability: the elements tied with any e come out in the order they went
      in. */
  lemma {:induction false} SortedStable<T(!new)>(s: seq<T>, cmp: (T, T) -> int, e: T)
    requires TiesTransitive(cmp)
    ensures Filter(Sorted(s, cmp), TiesWith(cmp, e)) == Filter(s, TiesWith(cmp, e))
  {
    if s != [] {
      var init := s[..|s| - 1];
      SortedStable(init, cmp, e);
      FilterInsert(Sorted(init, cmp), s[|s| - 1], cmp, e);
      FilterAppend(init, [s[|s| - 1]], TiesWith(cmp, e));
      assert init + [s[|s| - 1]] == s;
    }
  }

  /** Sorting one more element inserts it into the sorted prefix. */
  lemma SortedPrefix<T>(s: seq<T>, i: nat, cmp: (T, T) -> int)
    requires i < |s|
    ensures Sorted(s[..i + 1], cmp) == Insert(Sorted(s[..i], cmp), s[i], cmp)
  {
    assert s[..i + 1][..i] == s[..i];
  }

  /** Every earlier element is in order with every later one. */
  predicate OrderedAll<T>(s: seq<T>, cmp: (T, T) -> int)
  {
    forall i, j :: 0 <= i < j < |s| ==> cmp(s[i], s[j]) <= 0
  }

  lemma OrderedAllFromOrdered<T(!new)>(s: seq<T>, cmp: (T, T) -> int)
    requires Transitive(cmp) && Ordered(s, cmp)
    ensures OrderedAll(s, cmp)
  {
    forall i, j | 0 <= i < j < |s| ensures cmp(s[i], s[j]) <= 0 {
      OrderedAllPairs(s, cmp, i, j);
    }
  }

  /** Dropping elements keeps the rest in order. */
  lemma {:induction false} FilterOrderedAll<T>(s: seq<T>, cmp: (T, T) -> int, p: T -> bool)
    requires OrderedAll(s, cmp)
    ensures OrderedAll(Filter(s, p), cmp)
  {
    if s != [] {
      var tail := s[1..];
      OrderedAllTail(s, cmp);
      FilterOrderedAll(tail, cmp, p);
      if p(s[0]) {
        var f := Filter(tail, p);
        forall y | y in f ensures cmp(s[0], y) <= 0 {
          var k :| 0 <= k < |tail| && tail[k] == y;
          assert s[k + 1] == y;
        }
        OrderedAllCons(s[0], f, cmp);
      }
    }
  }

  lemma OrderedAllTail<T>(s: seq<T>, cmp: (T, T) -> int)
    requires s != [] && OrderedAll(s, cmp)
    ensures OrderedAll(s[1..], cmp)
  {
    var tail := s[1..];
    forall i, j | 0 <= i < j < |tail| ensures cmp(tail[i], tail[j]) <= 0 {
      assert tail[i] == s[i + 1] && tail[j] == s[j + 1];
    }
  }

  lemma OrderedAllCons<T>(x: T, f: seq<T>, cmp: (T, T) -> int)
    requires OrderedAll(f, cmp)
    requires forall y :: y in f ==> cmp(x, y) <= 0
    ensures OrderedAll([x] + f, cmp)
  {
    var r := [x] + f;
    forall i, j | 0 <= i < j < |r| ensures cmp(r[i], r[j]) <= 0 {
      assert r[j] == f[j - 1];
      if i > 0 {
        assert r[i] == f[i - 1];
      }
    }
  }

  /** The comparator `(a, b) => key(a) - key(b)` (ascending), or
      `(a, b) => key(b) - key(a)` (descending). */
  function KeyComparator<T>(key: T -> real, descending: bool): (T, T) -> int
  {
    (a: T, b: T) => if descending then Sign(key(b) - key(a)) else Sign(key(a) - key(b))
  }

  /** The comparator that ties everything, `() => 0`. */
  function Unsorted<T>(): (T, T) -> int
  {
    (a: T, b: T) => 0
  }

  /** A key comparator behaves as `Array.prototype.sort` needs. */
  lemma KeyComparatorConsistent<T(!new)>(key: T -> real, descending: bool)
    ensures Antisymmetric(KeyComparator(key, descending))
    ensures Transitive(KeyComparator(key, descending))
    ensures TiesTransitive(KeyComparator(key, descending))
  {
  }

  /** Sorting by a key orders the whole result by that key. */
  lemma SortedByKey<T(!new)>(s: seq<T>, key: T -> real, descending: bool)
    ensures var r := Sorted(s, KeyComparator(key, descending));
      forall i, j :: 0 <= i < j < |r| ==>
        if descending then key(r[i]) >= key(r[j]) else key(r[i]) <= key(r[j])
  {
    var cmp := KeyComparator(key, descending);
    KeyComparatorConsistent(key, descending);
    SortedOrdered(s, cmp);
    OrderedAllFromOrdered(Sorted(s, cmp), cmp);
  }

  /** Sorting with a comparator that ties everything changes nothing. */
  lemma {:induction false} UnsortedIdentity<T>(s: seq<T>)
    ensures Sorted(s, Unsorted()) == s
  {
    SortedIdentity(s, Unsorted());
  }

  /** Sorts a in place, as `a.sort(cmp)` does. */
  method SortInPlace<T>(a: array<T>, cmp: (T, T) -> int)
    modifies a
    ensures a[..] == Sorted(old(a[..]), cmp)
  {
    ghost var s := a[..];
    var i := 0;
    while i < a.Length
      invariant 0 <= i <= a.Length
      invariant a[..] == Sorted(s[..i], cmp) + s[i..]
    {
      SortedPrefix(s, i, cmp);
      InsertInPlace(a, i, cmp);
      i := i + 1;
    }
    assert s[..a.Length] == s;
  }

  /** One step of insertion sort: moves a[i] into place within a[..i + 1]. */
  method InsertInPlace<T>(a: array<T>, i: nat, cmp: (T, T) -> int)
    requires i < a.Length
    modifies a
    ensures a[..] == Insert(old(a[..i]), old(a[i]), cmp) + old(a[i + 1..])
  {
    var x := a[i];
    ghost var t := a[..i];
    ghost var rest := a[i + 1..];
    var j := ShiftGreater(a, i, x, cmp);
    a[j] := x;
    InsertSlot(t, x, j, cmp);
    InsertedAt(a[..], t, x, j, rest);
  }

  /** Moves the elements of a[..i] that compare greater than x, scanning from
      the back, one place right, and returns the slot that opens up. */
  method ShiftGreater<T>(a: array<T>, i: nat, x: T, cmp: (T, T) -> int) returns (j: nat)
    requires i < a.Length
    modifies a
    ensures j <= i
    ensures forall k :: 0 <= k < j ==> a[k] == old(a[k])
    ensures forall k :: j < k <= i ==> a[k] == old(a[k - 1])
    ensures forall k :: i < k < a.Length ==> a[k] == old(a[k])
    ensures j == 0 || cmp(old(a[j - 1]), x) <= 0
    ensures forall k :: j <= k < i ==> cmp(old(a[k]), x) > 0
  {
    j := i;
    while j > 0 && cmp(a[j - 1], x) > 0
      invariant j <= i
      invariant forall k :: 0 <= k < j ==> a[k] == old(a[k])
      invariant forall k :: j < k <= i ==> a[k] == old(a[k - 1])
      invariant forall k :: i < k < a.Length ==> a[k] == old(a[k])
      invariant forall k :: j <= k < i ==> cmp(old(a[k]), x) > 0
    {
      a[j] := a[j - 1];
      j := j - 1;
    }
  }

  /** x goes into t at the slot j behind which every element compares
      greater than x and in front of which the neighbour does not. */
  lemma {:induction false} InsertSlot<T>(t: seq<T>, x: T, j: nat, cmp: (T, T) -> int)
    requires j <= |t| && (j == 0 || cmp(t[j - 1], x) <= 0)
    requires forall k :: j <= k < |t| ==> cmp(t[k], x) > 0
    ensures Insert(t, x, cmp) == t[..j] + [x] + t[j..]
    decreases |t|
  {
    if j == |t| {
      assert t[..j] == t && t[j..] == [];
    } else {
      var init := t[..|t| - 1];
      assert init[..j] == t[..j];
      InsertSlot(init, x, j, cmp);
      assert init[j..] + [t[|t| - 1]] == t[j..];
    }
  }

  /** The array after the shifts and the final write, read as a sequence. */
  lemma InsertedAt<T>(r: seq<T>, t: seq<T>, x: T, j: nat, rest: seq<T>)
    requires j <= |t| && |r| == |t| + 1 + |rest|
    requires forall k :: 0 <= k < j ==> r[k] == t[k]
    requires r[j] == x
    requires forall k :: j < k <= |t| ==> r[k] == t[k - 1]
    requires forall k :: |t| < k < |r| ==> r[k] == rest[k - |t| - 1]
    ensures r == t[..j] + [x] + t[j..] + rest
  {
  }
}
