/**
  The id-keyed collection operations every service and reducer repeats: `find`,
  `findIndex` followed by a slot assignment, and `filter(x => x.id !== id)`.
  `key` projects a record to its id.
*/
module Keyed {
  import opened Wrappers
  import opened Seqs

  /** `s.findIndex(x => key(x) === id)`, with None for -1. */
  function FirstIndex<T>(s: seq<T>, key: T -> string, id: string): (r: Option<nat>)
    ensures r.Some? ==> r.value < |s| && key(s[r.value]) == id
    ensures r.Some? ==> forall j :: 0 <= j < r.value ==> key(s[j]) != id
    ensures r.None? <==> forall j :: 0 <= j < |s| ==> key(s[j]) != id
  {
    if s == [] then None
    else if key(s[0]) == id then Some(0)
    else match FirstIndex(s[1..], key, id)
      case None => None
      case Some(k) => Some(k + 1)
  }

  /** `s.find(x => key(x) === id)`: the first record with that id, or None. */
  function Find<T>(s: seq<T>, key: T -> string, id: string): (r: Option<T>)
    ensures r.None? <==> forall j :: 0 <= j < |s| ==> key(s[j]) != id
    ensures r.Some? ==> exists k :: 0 <= k < |s| && s[k] == r.value && key(s[k]) == id
                          && forall j :: 0 <= j < k ==> key(s[j]) != id
  {
    match FirstIndex(s, key, id)
    case None => None
    case Some(k) => Some(s[k])
  }

  /**
    `const i = s.findIndex(x => key(x) === id); if (i !== -1) s[i] = f(s[i]);`:
    the first record with that id is transformed, everything else stays.
  */
  function UpdateFirst<T>(s: seq<T>, key: T -> string, id: string, f: T -> T): (r: seq<T>)
    ensures |r| == |s|
    ensures FirstIndex(s, key, id).None? ==> r == s
    ensures FirstIndex(s, key, id).Some? ==>
              var k := FirstIndex(s, key, id).value;
              r[k] == f(s[k]) && forall j :: 0 <= j < |s| && j != k ==> r[j] == s[j]
  {
    match FirstIndex(s, key, id)
    case None => s
    case Some(k) => s[k := f(s[k])]
  }

  /** The update reducers and services: the first record with `x`'s id is replaced by `x`. */
  function Replace<T>(s: seq<T>, key: T -> string, x: T): seq<T>
  {
    UpdateFirst(s, key, key(x), _ => x)
  }

  /** `s.filter(x => key(x) !== id)`. */
  function RemoveAll<T(==,!new)>(s: seq<T>, key: T -> string, id: string): seq<T>
  {
    Filter(s, x => key(x) != id)
  }

  /** After the removal no record has the id; every other record stays, in order and count. */
  lemma RemoveAllSpec<T(!new)>(s: seq<T>, key: T -> string, id: string)
    ensures forall x :: x in RemoveAll(s, key, id) ==> key(x) != id
    ensures forall x :: x in s && key(x) != id ==> x in RemoveAll(s, key, id)
    ensures forall x :: key(x) != id ==> multiset(RemoveAll(s, key, id))[x] == multiset(s)[x]
    ensures Subseq(RemoveAll(s, key, id), s)
    ensures Find(RemoveAll(s, key, id), key, id) == None
  {
    var r := RemoveAll(s, key, id);
    FilterMultiset(s, x => key(x) != id);
    forall j | 0 <= j < |r| ensures key(r[j]) != id {
      assert r[j] in r;
    }
  }

  /** Removing an id no record has changes nothing. */
  lemma RemoveAllAbsent<T(!new)>(s: seq<T>, key: T -> string, id: string)
    requires forall j :: 0 <= j < |s| ==> key(s[j]) != id
    ensures RemoveAll(s, key, id) == s
  {
    FilterKeepsAll(s, x => key(x) != id);
  }

  /** Removal distributes over concatenation. */
  lemma RemoveAllAppend<T(!new)>(s: seq<T>, t: seq<T>, key: T -> string, id: string)
    ensures RemoveAll(s + t, key, id) == RemoveAll(s, key, id) + RemoveAll(t, key, id)
  {
    FilterAppend(s, t, x => key(x) != id);
  }

  /** A transformation that keeps ids leaves every id lookup where it was. */
  lemma {:induction false} FirstIndexAfterSet<T>(s: seq<T>, key: T -> string, id: string, k: nat, y: T)
    requires k < |s| && key(y) == key(s[k])
    ensures FirstIndex(s[k := y], key, id) == FirstIndex(s, key, id)
  {
    if k > 0 {
      assert s[k := y][1..] == s[1..][k - 1 := y];
      FirstIndexAfterSet(s[1..], key, id, k - 1, y);
    }
  }

  /** Applying an id-preserving update twice applies the transformation twice to one record. */
  lemma UpdateFirstTwice<T>(s: seq<T>, key: T -> string, id: string, f: T -> T)
    requires forall x :: key(f(x)) == key(x)
    ensures FirstIndex(UpdateFirst(s, key, id, f), key, id) == FirstIndex(s, key, id)
    ensures UpdateFirst(UpdateFirst(s, key, id, f), key, id, f)
         == match FirstIndex(s, key, id)
            case None => s
            case Some(k) => s[k := f(f(s[k]))]
  {
    match FirstIndex(s, key, id)
    case None =>
    case Some(k) =>
      FirstIndexAfterSet(s, key, id, k, f(s[k]));
  }

  /** After a replacement, looking up the id finds the new record. */
  lemma ReplaceThenFind<T>(s: seq<T>, key: T -> string, x: T)
    requires exists j :: 0 <= j < |s| && key(s[j]) == key(x)
    ensures Find(Replace(s, key, x), key, key(x)) == Some(x)
    ensures |Replace(s, key, x)| == |s|
  {
    var k := FirstIndex(s, key, key(x)).value;
    FirstIndexAfterSet(s, key, key(x), k, x);
  }

  /** Replacing with the same record twice is the same as once. */
  lemma ReplaceIdempotent<T>(s: seq<T>, key: T -> string, x: T)
    ensures Replace(Replace(s, key, x), key, x) == Replace(s, key, x)
  {
    match FirstIndex(s, key, key(x))
    case None =>
    case Some(k) =>
      FirstIndexAfterSet(s, key, key(x), k, x);
  }

  /** A record appended under a fresh id is what a later lookup of that id returns. */
  lemma {:induction false} FindAppendedFresh<T>(s: seq<T>, key: T -> string, x: T)
    requires forall j :: 0 <= j < |s| ==> key(s[j]) != key(x)
    ensures Find(s + [x], key, key(x)) == Some(x)
  {
    if s != [] {
      assert (s + [x])[1..] == s[1..] + [x];
      FindAppendedFresh(s[1..], key, x);
    }
  }

  /** Appending a record leaves every lookup of another id unchanged. */
  lemma {:induction false} FindAppendedOther<T>(s: seq<T>, key: T -> string, x: T, id: string)
    requires key(x) != id
    ensures Find(s + [x], key, id) == Find(s, key, id)
  {
    if s != [] {
      assert (s + [x])[1..] == s[1..] + [x];
      FindAppendedOther(s[1..], key, x, id);
    }
  }

  /** `s.map(x => key(x) === id ? f(x) : x)`: every record with the id is transformed. */
  function UpdateAll<T>(s: seq<T>, key: T -> string, id: string, f: T -> T): (r: seq<T>)
    ensures |r| == |s|
    ensures forall j :: 0 <= j < |s| ==> r[j] == if key(s[j]) == id then f(s[j]) else s[j]
  {
    seq(|s|, j requires 0 <= j < |s| => if key(s[j]) == id then f(s[j]) else s[j])
  }

  /** No two records share an id. */
  predicate UniqueKeys<T>(s: seq<T>, key: T -> string)
  {
    forall i, j :: 0 <= i < j < |s| ==> key(s[i]) != key(s[j])
  }

  /** When ids are unique, transforming every match is transforming the first one. */
  lemma UpdateAllUnique<T>(s: seq<T>, key: T -> string, id: string, f: T -> T)
    requires UniqueKeys(s, key)
    ensures UpdateAll(s, key, id, f) == UpdateFirst(s, key, id, f)
  {
    var a, b := UpdateAll(s, key, id, f), UpdateFirst(s, key, id, f);
    assert forall j :: 0 <= j < |s| ==> a[j] == b[j];
  }
}
