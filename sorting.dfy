/**
  The two ways the app sorts: `Array.prototype.sort` on a freshly built array, modelled as a
  stable insertion sort on sequences, and the same call on an array it keeps, modelled as an
  in-place insertion sort.
*/
module Sorting {
  import opened Seqs
  import opened Text

  /** Every earlier element is `le` every later one. */
  predicate SortedBy<T>(s: seq<T>, le: (T, T) -> bool)
  {
    forall i, j :: 0 <= i < j < |s| ==> le(s[i], s[j])
  }

  /** `le` is total and transitive, as a sort comparator must be. */
  ghost predicate TotalPreorder<T(!new)>(le: (T, T) -> bool)
  {
    && (forall x, y :: le(x, y) || le(y, x))
    && (forall x, y, z :: le(x, y) && le(y, z) ==> le(x, z))
  }

  /** Put `x` before the first element it is `le`, behind all those it is not. */
  function Insert<T>(x: T, s: seq<T>, le: (T, T) -> bool): (r: seq<T>)
    ensures multiset(r) == multiset(s) + multiset{x}
    ensures |r| == |s| + 1
  {
    if s == [] then [x]
    else if le(x, s[0]) then [x] + s
    else
      assert s == [s[0]] + s[1..];
      [s[0]] + Insert(x, s[1..], le)
  }

  /** A stable sort: `s.slice().sort(compare)` where `le(a, b)` means `compare(a, b) <= 0`. */
  function SortBy<T>(s: seq<T>, le: (T, T) -> bool): (r: seq<T>)
    ensures multiset(r) == multiset(s)
    ensures |r| == |s|
  {
    if s == [] then []
    else
      assert s == [s[0]] + s[1..];
      Insert(s[0], SortBy(s[1..], le), le)
  }

  /** Inserting adds `x` and nothing else. */
  lemma InsertMembers<T>(x: T, s: seq<T>, le: (T, T) -> bool)
    ensures forall y :: y in Insert(x, s, le) <==> y == x || y in s
  {
    var r := Insert(x, s, le);
    assert forall y :: y in r <==> y in multiset(r);
    assert forall y :: y in s <==> y in multiset(s);
  }

  /** A sorted sequence stays sorted behind an element that is `le` all of it. */
  lemma ConsSorted<T>(h: T, s: seq<T>, le: (T, T) -> bool)
    requires SortedBy(s, le)
    requires forall y :: y in s ==> le(h, y)
    ensures SortedBy([h] + s, le)
  {
    forall i, j | 0 <= i < j < |[h] + s|
      ensures le(([h] + s)[i], ([h] + s)[j])
    {
      assert ([h] + s)[j] == s[j - 1];
      if i > 0 {
        assert ([h] + s)[i] == s[i - 1];
      }
    }
  }

  /** The head of a sorted sequence is `le` every element. */
  lemma HeadLeAll<T>(s: seq<T>, le: (T, T) -> bool)
    requires s != [] && SortedBy(s, le)
    requires forall x :: le(x, x)
    ensures forall y :: y in s ==> le(s[0], y)
  {
    forall y | y in s ensures le(s[0], y) {
      var k :| 0 <= k < |s| && s[k] == y;
      if k > 0 {
        assert le(s[0], s[k]);
      }
    }
  }

  lemma {:induction false} InsertSorted<T(!new)>(x: T, s: seq<T>, le: (T, T) -> bool)
    requires TotalPreorder(le) && SortedBy(s, le)
    ensures SortedBy(Insert(x, s, le), le)
  {
    if s != [] {
      assert forall y :: le(y, y) by {
        forall y ensures le(y, y) { assert le(y, y) || le(y, y); }
      }
      HeadLeAll(s, le);
      if le(x, s[0]) {
        ConsSorted(x, s, le);
      } else {
        var tail := s[1..];
        assert SortedBy(tail, le) by {
          forall i, j | 0 <= i < j < |tail| ensures le(tail[i], tail[j]) {
            assert tail[i] == s[i + 1] && tail[j] == s[j + 1];
          }
        }
        InsertSorted(x, tail, le);
        InsertMembers(x, tail, le);
        assert forall y :: y in tail ==> y in s;
        ConsSorted(s[0], Insert(x, tail, le), le);
      }
    }
  }

  /** With a comparator that is a total preorder the result is sorted. */
  lemma {:induction false} SortBySorted<T(!new)>(s: seq<T>, le: (T, T) -> bool)
    requires TotalPreorder(le)
    ensures SortedBy(SortBy(s, le), le)
  {
    if s != [] {
      SortBySorted(s[1..], le);
      InsertSorted(s[0], SortBy(s[1..], le), le);
    }
  }

  /** Leaving elements out of a sorted sequence keeps it sorted. */
  lemma {:induction false} SubseqSorted<T>(r: seq<T>, s: seq<T>, le: (T, T) -> bool)
    requires Subseq(r, s) && SortedBy(s, le)
    ensures SortedBy(r, le)
    decreases |s|
  {
    if r != [] {
      if r[0] == s[0] && Subseq(r[1..], s[1..]) {
        SubseqSorted(r[1..], s[1..], le);
        SubseqMembers(r[1..], s[1..]);
        forall j | 0 < j < |r| ensures le(r[0], r[j]) {
          assert r[j] == r[1..][j - 1];
          assert r[j] in s[1..];
        }
      } else {
        assert SortedBy(s[1..], le);
        SubseqSorted(r, s[1..], le);
      }
    }
  }

  /** The default string order is a valid comparator. */
  lemma StringLeTotalPreorder()
    ensures TotalPreorder(StringLe)
  {
    forall a, b ensures StringLe(a, b) || StringLe(b, a) {
      StringLeTotal(a, b);
    }
    forall a, b, c | StringLe(a, b) && StringLe(b, c) ensures StringLe(a, c) {
      StringLeTransitive(a, b, c);
    }
  }

  /** `Array.from(new Set(names)).sort()`: each value once, in string order. */
  lemma SortedDistinct(names: seq<string>)
    ensures SortedBy(SortBy(Distinct(names), StringLe), StringLe)
    ensures NoDuplicates(SortBy(Distinct(names), StringLe))
    ensures forall x :: x in SortBy(Distinct(names), StringLe) <==> x in names
  {
    var d := Distinct(names);
    StringLeTotalPreorder();
    SortBySorted(d, StringLe);
    NoDuplicatesPermutation(SortBy(d, StringLe), d);
    assert forall x :: x in SortBy(d, StringLe) <==> x in multiset(d);
  }

  /** Inserting a pair adds its key to the keys and its count to the total. */
  lemma {:induction false} InsertPair<K>(x: (K, nat), s: seq<(K, nat)>, le: ((K, nat), (K, nat)) -> bool)
    ensures multiset(Keys(Insert(x, s, le))) == multiset{x.0} + multiset(Keys(s))
    ensures Total(Insert(x, s, le)) == x.1 + Total(s)
  {
    if s == [] {
    } else if le(x, s[0]) {
      PairsCons(x, s);
    } else {
      var rest := Insert(x, s[1..], le);
      InsertPair(x, s[1..], le);
      assert Insert(x, s, le) == [s[0]] + rest;
      PairsCons(s[0], rest);
      assert multiset(Keys([s[0]] + rest)) == multiset{s[0].0} + multiset(Keys(rest));
      PairsCons(s[0], s[1..]);
      assert [s[0]] + s[1..] == s;
      assert multiset(Keys(s)) == multiset{s[0].0} + multiset(Keys(s[1..]));
    }
  }

  /** Keys and total of an association list with one more pair in front. */
  lemma PairsCons<K>(x: (K, nat), s: seq<(K, nat)>)
    ensures Keys([x] + s) == [x.0] + Keys(s)
    ensures Total([x] + s) == x.1 + Total(s)
  {
    assert ([x] + s)[1..] == s;
  }

  /** Sorting an association list keeps its keys, with their multiplicities, and its total. */
  lemma {:induction false} SortPairs<K>(s: seq<(K, nat)>, le: ((K, nat), (K, nat)) -> bool)
    ensures multiset(Keys(SortBy(s, le))) == multiset(Keys(s))
    ensures Total(SortBy(s, le)) == Total(s)
  {
    if s != [] {
      SortPairs(s[1..], le);
      InsertPair(s[0], SortBy(s[1..], le), le);
      assert Keys(s) == [s[0].0] + Keys(s[1..]);
    }
  }

  /** Keys never decrease from left to right. */
  predicate KeySorted<T>(s: seq<T>, key: T -> int)
  {
    forall k, l :: 0 <= k < l < |s| ==> key(s[k]) <= key(s[l])
  }

  /** The elements of `s` whose key is `v`, in their order in `s`. */
  function KeyClass<T(==,!new)>(s: seq<T>, key: T -> int, v: int): seq<T>
  {
    Filter(s, x => key(x) == v)
  }

  /** `r` holds the elements of `s`, and those with equal keys in the same relative order. */
  ghost predicate Stable<T(!new)>(r: seq<T>, s: seq<T>, key: T -> int)
  {
    forall v :: KeyClass(r, key, v) == KeyClass(s, key, v)
  }

  /** Exchanging neighbours with different keys keeps every key class. */
  lemma SwapStable<T(!new)>(s: seq<T>, j: int, key: T -> int)
    requires 0 < j < |s| && key(s[j - 1]) != key(s[j])
    ensures Stable(s[j - 1 := s[j]][j := s[j - 1]], s, key)
  {
    forall v ensures KeyClass(s[j - 1 := s[j]][j := s[j - 1]], key, v) == KeyClass(s, key, v) {
      FilterSwap(s, j, x => key(x) == v);
    }
  }

  /** The key class of a non-empty sequence: its head, if it has the key, then the tail's. */
  lemma KeyClassCons<T(!new)>(s: seq<T>, key: T -> int, v: int)
    requires s != []
    ensures KeyClass(s, key, v) == (if key(s[0]) == v then [s[0]] else []) + KeyClass(s[1..], key, v)
  {
    FilterHead(s, x => key(x) == v);
  }

  /** Sequences with the same key classes are both empty or both not. */
  lemma StableEmpty<T(!new)>(r: seq<T>, s: seq<T>, key: T -> int)
    requires Stable(r, s, key)
    ensures r == [] <==> s == []
  {
    if r != [] {
      assert r[0] in KeyClass(r, key, key(r[0]));
    }
    if s != [] {
      assert s[0] in KeyClass(s, key, key(s[0]));
    }
  }

  /**
    A sorted sequence is fixed by its key classes: two key-sorted sequences in
    which equal keys come in the same order are equal.
  */
  lemma {:induction false} StableSortedUnique<T(!new)>(r: seq<T>, s: seq<T>, key: T -> int)
    requires KeySorted(r, key) && KeySorted(s, key) && Stable(r, s, key)
    ensures r == s
    decreases |r|
  {
    StableEmpty(r, s, key);
    if r != [] {
      var m, n := key(r[0]), key(s[0]);
      assert s[0] in KeyClass(r, key, n);
      assert r[0] in KeyClass(s, key, m);
      assert m == n;
      KeyClassCons(r, key, m);
      KeyClassCons(s, key, m);
      assert r[0] == KeyClass(r, key, m)[0] == KeyClass(s, key, m)[0] == s[0];
      forall v ensures KeyClass(r[1..], key, v) == KeyClass(s[1..], key, v) {
        KeyClassCons(r, key, v);
        KeyClassCons(s, key, v);
        var h := if m == v then [r[0]] else [];
        assert KeyClass(r[1..], key, v) == KeyClass(r, key, v)[|h|..];
        assert KeyClass(s[1..], key, v) == KeyClass(s, key, v)[|h|..];
      }
      StableSortedUnique(r[1..], s[1..], key);
      assert r == [r[0]] + r[1..] && s == [s[0]] + s[1..];
    }
  }

  /** Taking a key class and filtering commute. */
  lemma KeyClassFilter<T(!new)>(r: seq<T>, key: T -> int, p: T -> bool, v: int)
    ensures KeyClass(Filter(r, p), key, v) == Filter(KeyClass(r, key, v), p)
  {
    var both := x => p(x) && key(x) == v;
    FilterFilter(r, p, x => key(x) == v, both);
    FilterFilter(r, x => key(x) == v, p, both);
  }

  /** Filtering both sides keeps key classes equal. */
  lemma FilterStable<T(!new)>(r: seq<T>, s: seq<T>, key: T -> int, p: T -> bool)
    requires Stable(r, s, key)
    ensures Stable(Filter(r, p), Filter(s, p), key)
  {
    forall v ensures KeyClass(Filter(r, p), key, v) == KeyClass(Filter(s, p), key, v) {
      KeyClassFilter(r, key, p, v);
      KeyClassFilter(s, key, p, v);
    }
  }

  /** A comparator that compares keys. */
  ghost predicate ComparesKeys<T(!new)>(le: (T, T) -> bool, key: T -> int)
  {
    forall a, b :: le(a, b) <==> key(a) <= key(b)
  }

  /** Inserting puts `x` in front of the elements with its key. */
  lemma {:induction false} InsertStable<T(!new)>(x: T, s: seq<T>, le: (T, T) -> bool, key: T -> int, v: int)
    requires ComparesKeys(le, key)
    ensures KeyClass(Insert(x, s, le), key, v) == (if key(x) == v then [x] else []) + KeyClass(s, key, v)
  {
    var hx := if key(x) == v then [x] else [];
    if s == [] {
      KeyClassCons([x], key, v);
      assert [x][1..] == [];
    } else if le(x, s[0]) {
      KeyClassCons([x] + s, key, v);
      assert ([x] + s)[1..] == s;
    } else {
      var rest := Insert(x, s[1..], le);
      InsertStable(x, s[1..], le, key, v);
      KeyClassCons([s[0]] + rest, key, v);
      assert ([s[0]] + rest)[1..] == rest;
      KeyClassCons(s, key, v);
    }
  }

  /** `SortBy` with a comparator on keys is stable. */
  lemma {:induction false} SortByStable<T(!new)>(s: seq<T>, le: (T, T) -> bool, key: T -> int)
    requires ComparesKeys(le, key)
    ensures Stable(SortBy(s, le), s, key)
  {
    if s != [] {
      SortByStable(s[1..], le, key);
      forall v ensures KeyClass(SortBy(s, le), key, v) == KeyClass(s, key, v) {
        InsertStable(s[0], SortBy(s[1..], le), le, key, v);
        KeyClassCons(s, key, v);
      }
    }
  }

  /** A key-sorted sequence with the key classes of `s` is the stable sort of `s`. */
  lemma SortedStableIsSortBy<T(!new)>(r: seq<T>, s: seq<T>, le: (T, T) -> bool, key: T -> int)
    requires ComparesKeys(le, key) && KeySorted(r, key) && Stable(r, s, key)
    ensures r == SortBy(s, le)
  {
    var t := SortBy(s, le);
    SortBySorted(s, le);
    SortByStable(s, le, key);
    StableSortedUnique(r, t, key);
  }

  /** Exchange two elements of `a`. */
  method Swap<T>(a: array<T>, i: int, j: int)
    requires 0 <= i < j < a.Length
    modifies a
    ensures a[..] == old(a[..])[i := old(a[j])][j := old(a[i])]
    ensures multiset(a[..]) == multiset(old(a[..]))
  {
    a[i], a[j] := a[j], a[i];
  }

  /**
    The state of the insertion step that sinks the element at `j` into the sorted
    prefix `s[..i]`: the prefix up to `i` without position `j` is in order, and
    the element at `j` is no greater than anything after it up to `i`.
  */
  predicate Sinking<T>(s: seq<T>, j: int, i: int, key: T -> int)
  {
    && 0 <= j <= i < |s|
    && (forall k, l :: 0 <= k < l <= i && k != j && l != j ==> key(s[k]) <= key(s[l]))
    && (forall l :: j < l <= i ==> key(s[j]) <= key(s[l]))
  }

  lemma SinkStart<T>(s: seq<T>, i: int, key: T -> int)
    requires 0 <= i < |s| && KeySorted(s[..i], key)
    ensures Sinking(s, i, i, key)
  {
    forall k, l | 0 <= k < l <= i && k != i && l != i ensures key(s[k]) <= key(s[l]) {
      assert s[k] == s[..i][k] && s[l] == s[..i][l];
    }
  }

  lemma SinkStep<T>(s: seq<T>, j: int, i: int, key: T -> int)
    requires Sinking(s, j, i, key) && j > 0 && key(s[j]) < key(s[j - 1])
    ensures Sinking(s[j - 1 := s[j]][j := s[j - 1]], j - 1, i, key)
  {
  }

  lemma SinkDone<T>(s: seq<T>, j: int, i: int, key: T -> int)
    requires Sinking(s, j, i, key) && (j == 0 || key(s[j - 1]) <= key(s[j]))
    ensures KeySorted(s[..i + 1], key)
  {
    forall k, l | 0 <= k < l <= i ensures key(s[k]) <= key(s[l]) {
      if k == j {
      } else if l == j {
        if k < j - 1 {
          assert key(s[k]) <= key(s[j - 1]);
        }
      }
    }
  }

  /**
    In-place ascending sort of `a` by an integer key: `a.sort((x, y) => key(x) - key(y))`.
    Like `Array.prototype.sort` it is stable: elements with equal keys keep their order.
  */
  method SortByKey<T(==,!new)>(a: array<T>, key: T -> int)
    modifies a
    ensures KeySorted(a[..], key)
    ensures multiset(a[..]) == multiset(old(a[..]))
    ensures Stable(a[..], old(a[..]), key)
  {
    var i := 0;
    while i < a.Length
      invariant 0 <= i <= a.Length
      invariant KeySorted(a[..i], key)
      invariant multiset(a[..]) == multiset(old(a[..]))
      invariant Stable(a[..], old(a[..]), key)
    {
      SinkStart(a[..], i, key);
      var j := i;
      while j > 0 && key(a[j]) < key(a[j - 1])
        invariant Sinking(a[..], j, i, key)
        invariant multiset(a[..]) == multiset(old(a[..]))
        invariant Stable(a[..], old(a[..]), key)
      {
        SinkStep(a[..], j, i, key);
        SwapStable(a[..], j, key);
        Swap(a, j - 1, j);
        j := j - 1;
      }
      SinkDone(a[..], j, i, key);
      i := i + 1;
    }
    assert a[..a.Length] == a[..];
  }
}
