/** The meaning of the document store's queries on a collection held as a
    sequence: a filter (`find`), the first match (`findOne`), a sort by a
    numeric key (`sort`) and a prefix (`limit`). */
module Seqs {
  import opened Common

  /** The elements of `s` satisfying `p`, in their original order. */
  function Filter<T>(s: seq<T>, p: T -> bool): (r: seq<T>)
    ensures |r| <= |s|
    ensures forall i :: 0 <= i < |r| ==> p(r[i])
    ensures forall i :: 0 <= i < |r| ==> r[i] in s
    ensures forall i :: 0 <= i < |s| && p(s[i]) ==> s[i] in r
    ensures multiset(r) <= multiset(s)
    decreases |s|
  {
    if s == [] then []
    else
      var init := s[..|s| - 1];
      var last := s[|s| - 1];
      assert s == init + [last];
      var r0 := Filter(init, p);
      if p(last) then r0 + [last] else r0
  }

  lemma FilterAppend<T>(s: seq<T>, x: T, p: T -> bool)
    ensures Filter(s + [x], p) == Filter(s, p) + (if p(x) then [x] else [])
  {
    assert (s + [x])[..|s + [x]| - 1] == s;
  }

  /** An element of a filter's result comes from the input and satisfies `p`;
      an element of the input satisfying `p` is in the result. */
  lemma FilterMember<T>(s: seq<T>, p: T -> bool, x: T)
    ensures x in Filter(s, p) <==> x in s && p(x)
  {
    var r := Filter(s, p);
    if x in r {
      var j :| 0 <= j < |r| && r[j] == x;
    }
    if x in s && p(x) {
      var j :| 0 <= j < |s| && s[j] == x;
    }
  }

  /** A filter keeps keys that were pairwise distinct pairwise distinct. */
  lemma {:induction false} FilterDistinct<T>(s: seq<T>, p: T -> bool, key: T -> int)
    requires forall a, b :: 0 <= a < b < |s| ==> key(s[a]) != key(s[b])
    ensures var r := Filter(s, p);
      forall a, b :: 0 <= a < b < |r| ==> key(r[a]) != key(r[b])
    decreases |s|
  {
    if s != [] {
      var init := s[..|s| - 1];
      var last := s[|s| - 1];
      assert s == init + [last];
      FilterAppend(init, last, p);
      FilterDistinct(init, p, key);
      if p(last) {
        var r0 := Filter(init, p);
        var r := r0 + [last];
        forall a, b | 0 <= a < b < |r|
          ensures key(r[a]) != key(r[b])
        {
          assert r[a] == r0[a];
          if b == |r0| {
            var j :| 0 <= j < |init| && init[j] == r0[a];
            assert key(s[j]) != key(s[|s| - 1]);
          } else {
            assert r[b] == r0[b];
          }
        }
      }
    }
  }

  /** When exactly one element satisfies `p`, the filter returns just it. */
  lemma {:induction false} FilterSingle<T>(s: seq<T>, p: T -> bool, k: nat)
    requires k < |s| && p(s[k])
    requires forall i :: 0 <= i < |s| && i != k ==> !p(s[i])
    ensures Filter(s, p) == [s[k]]
  {
    var init := s[..|s| - 1];
    assert s == init + [s[|s| - 1]];
    FilterAppend(init, s[|s| - 1], p);
    if k == |s| - 1 {
      FilterNone(init, p);
    } else {
      FilterSingle(init, p, k);
    }
  }

  lemma {:induction false} FilterNone<T>(s: seq<T>, p: T -> bool)
    requires forall i :: 0 <= i < |s| ==> !p(s[i])
    ensures Filter(s, p) == []
  {
    if s != [] {
      var init := s[..|s| - 1];
      assert s == init + [s[|s| - 1]];
      FilterAppend(init, s[|s| - 1], p);
      FilterNone(init, p);
    }
  }

  /** The index of the first element satisfying `p`, if any. */
  function FirstIndex<T>(s: seq<T>, p: T -> bool): (r: Option<nat>)
    ensures r.Some? ==> r.value < |s| && p(s[r.value])
    ensures r.Some? ==> forall j :: 0 <= j < r.value ==> !p(s[j])
    ensures r.None? ==> forall j :: 0 <= j < |s| ==> !p(s[j])
  {
    if s == [] then None
    else if p(s[0]) then Some(0)
    else
      match FirstIndex(s[1..], p)
      case None => None
      case Some(i) => Some(i + 1)
  }

  /** Non-decreasing by `key`. */
  ghost predicate SortedBy<T>(s: seq<T>, key: T -> int) {
    forall i, j :: 0 <= i < j < |s| ==> key(s[i]) <= key(s[j])
  }

  function Insert<T>(x: T, s: seq<T>, key: T -> int): (r: seq<T>)
    requires SortedBy(s, key)
    ensures SortedBy(r, key)
    ensures multiset(r) == multiset(s) + multiset{x}
    ensures |r| == |s| + 1 && (r[0] == x || (s != [] && r[0] == s[0]))
  {
    if s == [] then [x]
    else if key(x) <= key(s[0]) then
      SortedCons(x, s, key);
      [x] + s
    else
      var rest := Insert(x, s[1..], key);
      assert s == [s[0]] + s[1..];
      SortedCons(s[0], rest, key);
      [s[0]] + rest
  }

  lemma SortedCons<T>(a: T, t: seq<T>, key: T -> int)
    requires SortedBy(t, key)
    requires t != [] ==> key(a) <= key(t[0])
    ensures SortedBy([a] + t, key)
  {
    var u := [a] + t;
    forall i, j | 0 <= i < j < |u|
      ensures key(u[i]) <= key(u[j])
    {
      if i == 0 {
        assert u[j] == t[j - 1];
        assert key(t[0]) <= key(t[j - 1]) || j - 1 == 0;
      } else {
        assert u[i] == t[i - 1] && u[j] == t[j - 1];
      }
    }
  }

  /** An ordering of `s` that is non-decreasing by `key` (insertion sort). */
  function SortBy<T>(s: seq<T>, key: T -> int): (r: seq<T>)
    ensures SortedBy(r, key)
    ensures multiset(r) == multiset(s)
  {
    if s == [] then []
    else
      assert s == [s[0]] + s[1..];
      Insert(s[0], SortBy(s[1..], key), key)
  }

  /** The first `n` elements of `s`, or all of them when there are fewer. */
  function Take<T>(s: seq<T>, n: nat): seq<T> {
    if n < |s| then s[..n] else s
  }

  /** Sorting and then keeping `n` elements yields the `n` smallest by `key`, in
      order: a sub-multiset of the input of size min(n, |s|) such that nothing
      left out has a smaller key than anything kept. */
  lemma SmallestFirst<T>(s: seq<T>, key: T -> int, n: nat)
    ensures var r := Take(SortBy(s, key), n);
      && SortedBy(r, key)
      && |r| == Min(n, |s|)
      && multiset(r) <= multiset(s)
      && (forall x :: x in s && x !in r ==> forall i :: 0 <= i < |r| ==> key(r[i]) <= key(x))
  {
    var sorted := SortBy(s, key);
    assert |sorted| == |s| by {
      assert |multiset(sorted)| == |multiset(s)|;
    }
    forall x | x in s
      ensures x in sorted
    {
      assert x in multiset(s);
    }
    if n < |sorted| {
      PrefixOfSorted(sorted, key, n);
    }
  }

  /** A prefix of a sorted sequence is sorted, and everything after it has a key
      at least that of everything in it. */
  lemma PrefixOfSorted<T>(s: seq<T>, key: T -> int, n: nat)
    requires SortedBy(s, key) && n <= |s|
    ensures SortedBy(s[..n], key)
    ensures multiset(s[..n]) <= multiset(s)
    ensures forall x :: x in s && x !in s[..n] ==> forall i :: 0 <= i < n ==> key(s[i]) <= key(x)
  {
    assert s == s[..n] + s[n..];
    assert multiset(s) == multiset(s[..n]) + multiset(s[n..]);
    forall x | x in s && x !in s[..n]
      ensures forall i :: 0 <= i < n ==> key(s[i]) <= key(x)
    {
      var j :| 0 <= j < |s| && s[j] == x;
    }
  }
}
