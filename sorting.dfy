/**
  * `Array.prototype.sort` with a comparator `(a, b) => key(b) - key(a)`: a
  * stable sort by a key, largest key first. The pages sort expeditions newest
  * first this way, and floor numbers ascending (key `-n`).
  */
module Sorting {

  /** No element has a larger key than the one before it. */
  ghost predicate SortedDesc<T>(s: seq<T>, key: T -> int) {
    forall i, j :: 0 <= i < j < |s| ==> key(s[i]) >= key(s[j])
  }

  /** `x` inserted before the first element with a smaller key: after every element with an equal one. */
  function InsertDesc<T>(x: T, s: seq<T>, key: T -> int): (r: seq<T>)
    ensures |r| == |s| + 1
    ensures multiset(r) == multiset(s) + multiset{x}
    ensures SortedDesc(s, key) ==> SortedDesc(r, key)
  {
    if s == [] then [x]
    else if key(s[0]) < key(x) then
      assert SortedDesc(s, key) ==> forall i :: 0 <= i < |s| ==> key(s[i]) <= key(s[0]);
      [x] + s
    else
      var rest := InsertDesc(x, s[1..], key);
      assert s == [s[0]] + s[1..];
      forall i | 0 <= i < |rest|
        ensures rest[i] == x || rest[i] in s[1..]
      {
        assert rest[i] in multiset(rest);
      }
      [s[0]] + rest
  }

  /** The sorted permutation of `s`, by inserting its elements one after another. */
  function SortDesc<T>(s: seq<T>, key: T -> int): (r: seq<T>)
    ensures |r| == |s|
    ensures multiset(r) == multiset(s)
    ensures SortedDesc(r, key)
  {
    if s == [] then []
    else
      var n := |s| - 1;
      assert s == s[..n] + [s[n]];
      InsertDesc(s[n], SortDesc(s[..n], key), key)
  }

  /** An element whose key no element exceeds goes to the end. */
  lemma {:induction false} InsertLast<T>(x: T, s: seq<T>, key: T -> int)
    requires forall i :: 0 <= i < |s| ==> key(s[i]) >= key(x)
    ensures InsertDesc(x, s, key) == s + [x]
  {
    if s != [] {
      InsertLast(x, s[1..], key);
      assert [s[0]] + (s[1..] + [x]) == s + [x];
    }
  }

  /** Sorting a sorted sequence changes nothing. */
  lemma {:induction false} SortOfSorted<T>(s: seq<T>, key: T -> int)
    requires SortedDesc(s, key)
    ensures SortDesc(s, key) == s
  {
    if s != [] {
      var n := |s| - 1;
      assert SortedDesc(s[..n], key);
      SortOfSorted(s[..n], key);
      InsertLast(s[n], s[..n], key);
      assert s[..n] + [s[n]] == s;
    }
  }

  /** Sorting `s + [x]` inserts `x` into the sorted `s`. */
  lemma SortAppend<T>(s: seq<T>, x: T, key: T -> int)
    ensures SortDesc(s + [x], key) == InsertDesc(x, SortDesc(s, key), key)
  {
    assert (s + [x])[..|s|] == s;
  }

  /** In a sorted sequence no element after position `k` has a larger key than one before it. */
  lemma PrefixDominates<T>(s: seq<T>, key: T -> int, k: nat)
    requires SortedDesc(s, key) && k <= |s|
    ensures forall x, y :: x in s[..k] && y in s[k..] ==> key(x) >= key(y)
  {
    forall x, y | x in s[..k] && y in s[k..]
      ensures key(x) >= key(y)
    {
      var i :| 0 <= i < k && s[..k][i] == x;
      var j :| 0 <= j < |s| - k && s[k..][j] == y;
      assert s[i] == x && s[k + j] == y;
    }
  }

  /** What a prefix leaves of a sequence's elements is the rest of the sequence. */
  lemma PrefixRemainder<T>(s: seq<T>, k: nat)
    requires k <= |s|
    ensures multiset(s[..k]) <= multiset(s)
    ensures multiset(s) - multiset(s[..k]) == multiset(s[k..])
  {
    assert s == s[..k] + s[k..];
  }

  /** The first `k` of a sorted permutation of `s`: in order, taken from `s`, and none left out has a larger key. */
  lemma SortedPrefix<T>(s: seq<T>, sorted: seq<T>, key: T -> int, k: nat)
    requires SortedDesc(sorted, key) && multiset(sorted) == multiset(s) && k <= |sorted|
    ensures SortedDesc(sorted[..k], key)
    ensures multiset(sorted[..k]) <= multiset(s)
    ensures forall x, y :: x in sorted[..k] && y in multiset(s) - multiset(sorted[..k]) ==> key(x) >= key(y)
  {
    var r := sorted[..k];
    PrefixDominates(sorted, key, k);
    PrefixRemainder(sorted, k);
    assert forall i, j :: 0 <= i < j < |r| ==> r[i] == sorted[i] && r[j] == sorted[j];
    assert forall y :: y in multiset(sorted[k..]) ==> y in sorted[k..];
  }
}
