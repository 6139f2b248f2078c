/** Reordering hits by a derived integer key, and mapping a conversion over
    a sequence. The sort is specified only by its result being a
    permutation of its input ordered by the key: nothing is promised about
    the relative order of hits with equal keys. */
module Ordering {

  /** `s` is non-decreasing under `key`. */
  predicate SortedBy<T>(s: seq<T>, key: T -> int) {
    forall i, j :: 0 <= i < j < |s| ==> key(s[i]) <= key(s[j])
  }

  /** Insert `x` into a sequence already ordered by `key`. */
  function Insert<T>(x: T, s: seq<T>, key: T -> int): (r: seq<T>)
    requires SortedBy(s, key)
    ensures |r| == |s| + 1
    ensures multiset(r) == multiset(s) + multiset{x}
    ensures SortedBy(r, key)
    decreases |s|
  {
    if |s| == 0 then [x]
    else if key(x) <= key(s[0]) then [x] + s
    else
      assert s == [s[0]] + s[1..];
      var rest := Insert(x, s[1..], key);
      KeysBoundedBelow(rest, s[1..], x, key, key(s[0]));
      [s[0]] + rest
  }

  /** Every element of a permutation of `s` plus `x` has a key at least `b`
      when `x` and every element of `s` do. */
  lemma KeysBoundedBelow<T>(r: seq<T>, s: seq<T>, x: T, key: T -> int, b: int)
    requires multiset(r) == multiset(s) + multiset{x}
    requires b <= key(x)
    requires forall k :: 0 <= k < |s| ==> b <= key(s[k])
    ensures forall j :: 0 <= j < |r| ==> b <= key(r[j])
  {
    forall j | 0 <= j < |r|
      ensures b <= key(r[j])
    {
      assert r[j] in multiset(r);
      if r[j] != x {
        assert r[j] in multiset(s);
        assert r[j] in s;
      }
    }
  }

  /** Order `s` by `key` (the model of the hit sort). */
  function SortByKey<T>(s: seq<T>, key: T -> int): (r: seq<T>)
    ensures |r| == |s|
    ensures multiset(r) == multiset(s)
    ensures SortedBy(r, key)
  {
    if |s| == 0 then []
    else
      assert s == [s[0]] + s[1..];
      Insert(s[0], SortByKey(s[1..], key), key)
  }

  /** Apply `f` to every element, keeping the order. */
  function MapSeq<T, U>(s: seq<T>, f: T -> U): (r: seq<U>)
    ensures |r| == |s|
    ensures forall i :: 0 <= i < |s| ==> r[i] == f(s[i])
  {
    seq(|s|, i requires 0 <= i < |s| => f(s[i]))
  }

  /** Every element of one of two permutations of each other occurs in the
      other. */
  lemma PermutationMembers<T>(s: seq<T>, t: seq<T>)
    requires multiset(s) == multiset(t)
    ensures forall i :: 0 <= i < |s| ==> s[i] in t
  {
    forall i | 0 <= i < |s|
      ensures s[i] in t
    {
      assert s[i] in multiset(t);
    }
  }
}
