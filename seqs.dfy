/**
  Sequence operations the app writes with `Array.prototype.filter`, `new Set(...)` and
  plain objects used as counters.
*/
module Seqs {

  /** `r` is `s` with some elements left out and the rest in their original order. */
  predicate Subseq<T(==)>(r: seq<T>, s: seq<T>)
    decreases |s|
  {
    if r == [] then true
    else if s == [] then false
    else (r[0] == s[0] && Subseq(r[1..], s[1..])) || Subseq(r, s[1..])
  }

  /** No value occurs twice. */
  predicate NoDuplicates<T(==)>(s: seq<T>)
  {
    forall i, j :: 0 <= i < j < |s| ==> s[i] != s[j]
  }

  lemma NoDuplicatesCons<T>(x: T, s: seq<T>)
    ensures NoDuplicates(s) && x !in s ==> NoDuplicates([x] + s)
  {
    if NoDuplicates(s) && x !in s {
      forall i, j | 0 <= i < j < |[x] + s|
        ensures ([x] + s)[i] != ([x] + s)[j]
      {
        assert ([x] + s)[j] == s[j - 1];
        if i > 0 {
          assert ([x] + s)[i] == s[i - 1];
        }
      }
    }
  }

  lemma NoDuplicatesTail<T>(s: seq<T>)
    requires s != []
    ensures NoDuplicates(s) ==> NoDuplicates(s[1..]) && s[0] !in s[1..]
  {
    if NoDuplicates(s) {
      forall i, j | 0 <= i < j < |s[1..]|
        ensures s[1..][i] != s[1..][j]
      {
        assert s[1..][i] == s[i + 1] && s[1..][j] == s[j + 1];
      }
    }
  }

  /** No value occurs twice exactly when every value occurs at most once. */
  lemma {:induction false} NoDuplicatesMultiset<T>(s: seq<T>)
    ensures NoDuplicates(s) <==> forall x :: multiset(s)[x] <= 1
  {
    if s != [] {
      var rest := s[1..];
      assert s == [s[0]] + rest;
      NoDuplicatesMultiset(rest);
      NoDuplicatesTail(s);
      NoDuplicatesCons(s[0], rest);
      if !NoDuplicates(s) {
        if NoDuplicates(rest) {
          assert s[0] in rest;
          assert multiset(s)[s[0]] >= 2;
        } else {
          var x :| multiset(rest)[x] > 1;
          assert multiset(s)[x] >= 2;
        }
      }
    }
  }

  /** A permutation of a sequence without duplicates has none either. */
  lemma NoDuplicatesPermutation<T>(r: seq<T>, s: seq<T>)
    requires multiset(r) == multiset(s) && NoDuplicates(s)
    ensures NoDuplicates(r)
  {
    NoDuplicatesMultiset(s);
    NoDuplicatesMultiset(r);
  }

  /** `s.filter(p)`: exactly the elements satisfying `p`, each as often as in `s`, in order. */
  function Filter<T(==,!new)>(s: seq<T>, p: T -> bool): (r: seq<T>)
    ensures |r| <= |s|
    ensures forall x :: x in r <==> x in s && p(x)
    ensures Subseq(r, s)
  {
    if s == [] then []
    else
      assert s == [s[0]] + s[1..];
      if p(s[0]) then [s[0]] + Filter(s[1..], p) else Filter(s[1..], p)
  }

  /** A filter that every element passes returns the sequence unchanged. */
  lemma {:induction false} FilterKeepsAll<T(!new)>(s: seq<T>, p: T -> bool)
    requires forall x :: x in s ==> p(x)
    ensures Filter(s, p) == s
  {
    if s != [] {
      FilterKeepsAll(s[1..], p);
    }
  }

  /** The filter keeps every element satisfying `p` as often as it occurs, and no other. */
  lemma {:induction false} FilterMultiset<T(!new)>(s: seq<T>, p: T -> bool)
    ensures forall x :: multiset(Filter(s, p))[x] == if p(x) then multiset(s)[x] else 0
  {
    if s != [] {
      FilterMultiset(s[1..], p);
      assert s == [s[0]] + s[1..];
    }
  }

  lemma FilterCons<T(!new)>(x: T, s: seq<T>, p: T -> bool)
    ensures Filter([x] + s, p) == if p(x) then [x] + Filter(s, p) else Filter(s, p)
  {
    assert ([x] + s)[0] == x;
    assert ([x] + s)[1..] == s;
  }

  /** Filtering distributes over concatenation. */
  lemma {:induction false} FilterAppend<T(!new)>(s: seq<T>, t: seq<T>, p: T -> bool)
    ensures Filter(s + t, p) == Filter(s, p) + Filter(t, p)
  {
    if s == [] {
      assert s + t == t;
    } else {
      FilterAppend(s[1..], t, p);
      FilterAppendCons(s, t, p);
    }
  }

  /** The inductive step of `FilterAppend`: from the tail of `s` to `s`. */
  lemma FilterAppendCons<T(!new)>(s: seq<T>, t: seq<T>, p: T -> bool)
    requires s != []
    requires Filter(s[1..] + t, p) == Filter(s[1..], p) + Filter(t, p)
    ensures Filter(s + t, p) == Filter(s, p) + Filter(t, p)
  {
    var head := if p(s[0]) then [s[0]] else [];
    FilterHead(s + t, p);
    FilterHead(s, p);
    DropAppend(s, t);
    AppendAssociative(head, Filter(s[1..], p), Filter(t, p));
  }

  /** A non-empty sequence filters to its filtered head followed by its filtered tail. */
  lemma FilterHead<T(!new)>(s: seq<T>, p: T -> bool)
    requires s != []
    ensures Filter(s, p) == (if p(s[0]) then [s[0]] else []) + Filter(s[1..], p)
  {
    if !p(s[0]) {
      assert [] + Filter(s[1..], p) == Filter(s[1..], p);
    }
  }

  lemma DropAppend<T>(s: seq<T>, t: seq<T>)
    requires s != []
    ensures (s + t)[0] == s[0] && (s + t)[1..] == s[1..] + t
  {
  }

  lemma AppendAssociative<T>(a: seq<T>, b: seq<T>, c: seq<T>)
    ensures a + (b + c) == (a + b) + c
  {
  }

  /** Two neighbours that do not both pass the filter can be exchanged without changing it. */
  lemma FilterPairSwap<T(!new)>(x: T, y: T, p: T -> bool)
    requires !(p(x) && p(y))
    ensures Filter([x, y], p) == Filter([y, x], p)
  {
    FilterCons(x, [y], p);
    FilterCons(y, [x], p);
    FilterCons(x, [], p);
    FilterCons(y, [], p);
    assert [x] + [] == [x] && [y] + [] == [y];
    assert [x, y] == [x] + [y] && [y, x] == [y] + [x];
  }

  /** Exchanging neighbours at `j - 1` and `j` that do not both pass leaves the filter unchanged. */
  lemma FilterSwap<T(!new)>(s: seq<T>, j: int, p: T -> bool)
    requires 0 < j < |s| && !(p(s[j - 1]) && p(s[j]))
    ensures Filter(s[j - 1 := s[j]][j := s[j - 1]], p) == Filter(s, p)
  {
    var t := s[j - 1 := s[j]][j := s[j - 1]];
    var pre, post := s[..j - 1], s[j + 1..];
    assert s == pre + ([s[j - 1], s[j]] + post);
    assert t == pre + ([s[j], s[j - 1]] + post);
    FilterAppend(pre, [s[j - 1], s[j]] + post, p);
    FilterAppend(pre, [s[j], s[j - 1]] + post, p);
    FilterAppend([s[j - 1], s[j]], post, p);
    FilterAppend([s[j], s[j - 1]], post, p);
    FilterPairSwap(s[j - 1], s[j], p);
  }

  /** Filters with predicates that agree on the elements give the same result. */
  lemma {:induction false} FilterExt<T(!new)>(s: seq<T>, p: T -> bool, q: T -> bool)
    requires forall x :: x in s ==> p(x) == q(x)
    ensures Filter(s, p) == Filter(s, q)
  {
    if s != [] {
      assert forall x :: x in s[1..] ==> x in s;
      FilterExt(s[1..], p, q);
    }
  }

  /** Filtering by `p` and then by `q` is filtering by their conjunction `r`. */
  lemma {:induction false} FilterFilter<T(!new)>(s: seq<T>, p: T -> bool, q: T -> bool, r: T -> bool)
    requires forall x :: r(x) == (p(x) && q(x))
    ensures Filter(Filter(s, p), q) == Filter(s, r)
  {
    if s != [] {
      FilterFilter(s[1..], p, q, r);
      if p(s[0]) {
        FilterCons(s[0], Filter(s[1..], p), q);
      }
    }
  }

  /** Filtering twice with the same predicate changes nothing the second time. */
  lemma FilterIdempotent<T(!new)>(s: seq<T>, p: T -> bool)
    ensures Filter(Filter(s, p), p) == Filter(s, p)
  {
    FilterKeepsAll(Filter(s, p), p);
  }

  /** Every element of a subsequence comes from the sequence. */
  lemma {:induction false} SubseqMembers<T>(r: seq<T>, s: seq<T>)
    requires Subseq(r, s)
    ensures forall x :: x in r ==> x in s
    decreases |s|
  {
    if r != [] {
      if r[0] == s[0] && Subseq(r[1..], s[1..]) {
        SubseqMembers(r[1..], s[1..]);
        assert r == [r[0]] + r[1..];
      } else {
        SubseqMembers(r, s[1..]);
      }
    }
  }

  /** `Array.from(new Set(s))`: the first occurrence of every value, in order. */
  function Distinct<T(==,!new)>(s: seq<T>): (r: seq<T>)
    ensures forall x :: x in r <==> x in s
    ensures NoDuplicates(r)
    decreases |s|
  {
    if s == [] then []
    else
      var rest := Distinct(Filter(s[1..], x => x != s[0]));
      assert s[0] !in rest;
      NoDuplicatesCons(s[0], rest);
      assert forall x :: x in s <==> x == s[0] || x in s[1..];
      [s[0]] + rest
  }

  /** A value appended to a sequence is appended to its distinct values if it is new. */
  lemma {:induction false} DistinctSnoc<T(!new)>(s: seq<T>, x: T)
    ensures Distinct(s + [x]) == Distinct(s) + (if x in s then [] else [x])
    decreases |s|
  {
    if s == [] {
      assert [] + [x] == [x];
      assert Filter([x][1..], y => y != x) == [];
    } else {
      var t := Filter(s[1..], y => y != s[0]);
      DistinctSnocHead(s, x);
      if x != s[0] {
        DistinctSnoc(t, x);
        assert x in t <==> x in s;
      } else {
        assert t + [] == t;
      }
    }
  }

  /** The first step of Distinct on a non-empty sequence with a value appended. */
  lemma DistinctSnocHead<T(!new)>(s: seq<T>, x: T)
    requires s != []
    ensures var t := Filter(s[1..], y => y != s[0]);
      Distinct(s + [x]) == [s[0]] + Distinct(t + (if x != s[0] then [x] else []))
  {
    var ne := y => y != s[0];
    DropAppend(s, [x]);
    FilterAppend(s[1..], [x], ne);
    FilterCons(x, [], ne);
    assert [x] + [] == [x];
  }

  /** `new Set(s.map(f))`: the values `f` takes on the elements of `s`. */
  function Image<T(==), U>(s: seq<T>, f: T -> U): set<U>
  {
    set x | x in s :: f(x)
  }

  /** The size of `new Set(s.map(f))` is between 1 and |s| for a non-empty `s`. */
  lemma {:induction false} ImageCardBounds<T, U>(s: seq<T>, f: T -> U)
    ensures |Image(s, f)| <= |s|
    ensures s != [] ==> |Image(s, f)| >= 1
  {
    if s != [] {
      ImageCardBounds(s[1..], f);
      var whole, rest := Image(s, f), Image(s[1..], f);
      assert whole == {f(s[0])} + rest by {
        forall y | y in whole ensures y in {f(s[0])} + rest {
          var x :| x in s && f(x) == y;
          if x != s[0] {
            assert x in s[1..];
          }
        }
      }
      assert f(s[0]) in whole;
    }
  }

  /** The number of occurrences of `x` in `s`. */
  function Occurrences<T(==)>(s: seq<T>, x: T): nat
  {
    multiset(s)[x]
  }

  /** The keys of an association list (a JavaScript object read with `Object.entries`). */
  function Keys<K, V>(al: seq<(K, V)>): (r: seq<K>)
    ensures |r| == |al|
    ensures forall i :: 0 <= i < |al| ==> r[i] == al[i].0
  {
    if al == [] then [] else [al[0].0] + Keys(al[1..])
  }

  /** The value stored under `k`, or 0 when there is none (`counter[k] || 0`). */
  function Lookup<K(==)>(al: seq<(K, nat)>, k: K): nat
  {
    if al == [] then 0 else if al[0].0 == k then al[0].1 else Lookup(al[1..], k)
  }

  /** The sum of all counts. */
  function Total<K>(al: seq<(K, nat)>): nat
  {
    if al == [] then 0 else al[0].1 + Total(al[1..])
  }

  /** `counter[k] = (counter[k] || 0) + 1` on an object whose keys keep insertion order. */
  function Bump<K(==)>(al: seq<(K, nat)>, k: K): seq<(K, nat)>
  {
    if al == [] then [(k, 1)]
    else if al[0].0 == k then [(k, al[0].1 + 1)] + al[1..]
    else [al[0]] + Bump(al[1..], k)
  }

  /** Bumping adds `k` to the keys if it is new and adds one to its count, and to the total. */
  lemma {:induction false} BumpCounts<K(!new)>(al: seq<(K, nat)>, k: K)
    ensures forall x :: x in Keys(Bump(al, k)) <==> x in Keys(al) || x == k
    ensures forall x :: Lookup(Bump(al, k), x) == Lookup(al, x) + if x == k then 1 else 0
    ensures Total(Bump(al, k)) == Total(al) + 1
  {
    if al != [] && al[0].0 != k {
      BumpCounts(al[1..], k);
      assert Keys(al) == [al[0].0] + Keys(al[1..]);
      assert Keys(Bump(al, k)) == [al[0].0] + Keys(Bump(al[1..], k));
    } else if al != [] {
      assert Keys(al) == [al[0].0] + Keys(al[1..]);
      assert Keys(Bump(al, k)) == [k] + Keys(al[1..]);
    }
  }

  /** Bumping appends `k` to the keys if it is new and leaves them as they are otherwise. */
  lemma {:induction false} BumpKeys<K(!new)>(al: seq<(K, nat)>, k: K)
    ensures Keys(Bump(al, k)) == Keys(al) + (if k in Keys(al) then [] else [k])
  {
    if al != [] {
      assert Keys(al) == [al[0].0] + Keys(al[1..]);
      if al[0].0 != k {
        BumpKeys(al[1..], k);
        assert Keys(Bump(al, k)) == [al[0].0] + Keys(Bump(al[1..], k));
      } else {
        assert Keys(Bump(al, k)) == [k] + Keys(al[1..]);
      }
    }
  }

  /** Bumping keeps the keys distinct and every count positive. */
  lemma {:induction false} BumpShape<K(!new)>(al: seq<(K, nat)>, k: K)
    requires NoDuplicates(Keys(al))
    requires forall i :: 0 <= i < |al| ==> al[i].1 > 0
    ensures NoDuplicates(Keys(Bump(al, k)))
    ensures forall i :: 0 <= i < |Bump(al, k)| ==> Bump(al, k)[i].1 > 0
  {
    if al != [] {
      assert Keys(al) == [al[0].0] + Keys(al[1..]);
      NoDuplicatesTail(Keys(al));
      if al[0].0 != k {
        BumpShape(al[1..], k);
        BumpCounts(al[1..], k);
        var rest := Bump(al[1..], k);
        assert Keys(Bump(al, k)) == [al[0].0] + Keys(rest);
        NoDuplicatesCons(al[0].0, Keys(rest));
      } else {
        assert Keys(Bump(al, k)) == [k] + Keys(al[1..]);
        NoDuplicatesCons(k, Keys(al[1..]));
      }
    }
  }

  /** In a list with distinct keys, looking a key up finds the value stored beside it. */
  lemma {:induction false} LookupDistinct<K>(al: seq<(K, nat)>, i: nat)
    requires NoDuplicates(Keys(al)) && i < |al|
    ensures Lookup(al, al[i].0) == al[i].1
  {
    if i > 0 {
      assert Keys(al)[0] != Keys(al)[i];
      assert Keys(al[1..]) == Keys(al)[1..];
      LookupDistinct(al[1..], i - 1);
    }
  }

  /**
    `counts` is the tally of `p`: every key of `p` once, in order of first
    appearance, with its positive number of occurrences.
  */
  ghost predicate Tallied<K(!new)>(counts: seq<(K, nat)>, p: seq<K>)
  {
    && NoDuplicates(Keys(counts))
    && (forall i :: 0 <= i < |counts| ==> counts[i].1 > 0)
    && Keys(counts) == Distinct(p)
    && (forall k :: Lookup(counts, k) == Occurrences(p, k))
    && Total(counts) == |p|
  }

  /** Bumping the tally of `p` for `k` gives the tally of `p + [k]`. */
  lemma TallyStep<K(!new)>(counts: seq<(K, nat)>, p: seq<K>, k: K)
    requires Tallied(counts, p)
    ensures Tallied(Bump(counts, k), p + [k])
  {
    BumpCounted(counts, p, k);
    BumpShape(counts, k);
    BumpKeys(counts, k);
    DistinctSnoc(p, k);
  }

  /** Bumping a count that matches the occurrences in `p` matches those in `p + [k]`. */
  lemma BumpCounted<K(!new)>(counts: seq<(K, nat)>, p: seq<K>, k: K)
    requires forall x :: Lookup(counts, x) == Occurrences(p, x)
    requires Total(counts) == |p|
    ensures forall x :: Lookup(Bump(counts, k), x) == Occurrences(p + [k], x)
    ensures Total(Bump(counts, k)) == |p + [k]|
  {
    BumpCounts(counts, k);
    assert multiset(p + [k]) == multiset(p) + multiset{k};
  }

  /**
    Counting keys one at a time, as a `forEach` that bumps a counter object: the result
    lists every key once, in order of first appearance, with its number of occurrences.
  */
  method Tally<K(==,!new)>(keys: seq<K>) returns (counts: seq<(K, nat)>)
    ensures NoDuplicates(Keys(counts))
    ensures forall k :: k in Keys(counts) <==> k in keys
    ensures Keys(counts) == Distinct(keys)
    ensures forall i :: 0 <= i < |counts| ==> counts[i].1 == Occurrences(keys, counts[i].0) > 0
    ensures Total(counts) == |keys|
  {
    counts := [];
    for n := 0 to |keys|
      invariant Tallied(counts, keys[..n])
    {
      assert keys[..n + 1] == keys[..n] + [keys[n]];
      TallyStep(counts, keys[..n], keys[n]);
      counts := Bump(counts, keys[n]);
    }
    assert keys[..|keys|] == keys;
    forall i | 0 <= i < |counts|
      ensures counts[i].1 == Occurrences(keys, counts[i].0) > 0
    {
      LookupDistinct(counts, i);
    }
  }
}
