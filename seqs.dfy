/** `Array.prototype.filter` and the facts about it the pages rely on. */
module Seqs {

  /** `r` is `s` with some elements left out, the rest in their original order. */
  ghost predicate Subsequence<T>(r: seq<T>, s: seq<T>)
    decreases |s|
  {
    if r == [] then true
    else if s == [] then false
    else if r[0] == s[0] then Subsequence(r[1..], s[1..])
    else Subsequence(r, s[1..])
  }

  /** `s.filter(keep)`: exactly the elements `keep` accepts, each as often as in `s`, in their order in `s`. */
  function Filter<T(!new)>(s: seq<T>, keep: T -> bool): (r: seq<T>)
    ensures |r| <= |s|
    ensures forall x :: x in r <==> x in s && keep(x)
    ensures Subsequence(r, s)
  {
    if s == [] then []
    else
      var rest := Filter(s[1..], keep);
      assert s == [s[0]] + s[1..];
      assert Subsequence(rest, s[1..]);
      if keep(s[0]) then
        assert ([s[0]] + rest)[1..] == rest;
        [s[0]] + rest
      else
        SubsequenceSkip(rest, s);
        rest
  }

  /** Every sequence is a subsequence of itself. */
  lemma SubsequenceRefl<T>(s: seq<T>)
    ensures Subsequence(s, s)
  {
    if s != [] {
      SubsequenceRefl(s[1..]);
    }
  }

  lemma SubsequenceSkip<T>(r: seq<T>, s: seq<T>)
    requires s != [] && Subsequence(r, s[1..])
    ensures Subsequence(r, s)
    decreases |s|, 0
  {
    if r != [] && r[0] == s[0] {
      SubsequenceDropHead(r, s[1..]);
    }
  }

  /** A subsequence stays one when its first element is dropped. */
  lemma SubsequenceDropHead<T>(r: seq<T>, s: seq<T>)
    requires r != [] && Subsequence(r, s)
    ensures Subsequence(r[1..], s)
    decreases |s|, 1
  {
    if s != [] {
      if r[0] == s[0] {
        SubsequenceSkip(r[1..], s);
      } else {
        SubsequenceDropHead(r, s[1..]);
        SubsequenceSkip(r[1..], s);
      }
    }
  }

  /** Each kept element occurs in the filter as often as in `s`; the others do not occur. */
  lemma {:induction false} FilterMultiset<T(!new)>(s: seq<T>, keep: T -> bool)
    ensures forall x :: multiset(Filter(s, keep))[x] == if keep(x) then multiset(s)[x] else 0
  {
    if s != [] {
      FilterStep(s, keep);
      FilterMultiset(s[1..], keep);
      assert s == [s[0]] + s[1..];
    }
  }

  /** `s.filter(keep)` keeps everything when `keep` accepts every element. */
  lemma FilterAll<T(!new)>(s: seq<T>, keep: T -> bool)
    requires forall x :: x in s ==> keep(x)
    ensures Filter(s, keep) == s
  {
    if s != [] {
      FilterAll(s[1..], keep);
    }
  }

  /** `s.filter(keep)` is empty when `keep` accepts no element. */
  lemma FilterNone<T(!new)>(s: seq<T>, keep: T -> bool)
    requires forall x :: x in s ==> !keep(x)
    ensures Filter(s, keep) == []
  {
    if s != [] {
      FilterNone(s[1..], keep);
    }
  }

  /** The filter of a non-empty sequence, from its first element. */
  lemma FilterStep<T(!new)>(s: seq<T>, keep: T -> bool)
    requires s != []
    ensures Filter(s, keep) == (if keep(s[0]) then [s[0]] else []) + Filter(s[1..], keep)
  {
  }

  /** Filtering a sequence extended by one element extends the filter by that element if it is kept. */
  lemma {:induction false} FilterAppend<T(!new)>(s: seq<T>, x: T, keep: T -> bool)
    ensures Filter(s + [x], keep) == Filter(s, keep) + (if keep(x) then [x] else [])
  {
    if s == [] {
      FilterStep([x], keep);
      assert [] + [x] == [x];
    } else {
      var t := s + [x];
      assert t[0] == s[0] && t[1..] == s[1..] + [x];
      FilterStep(t, keep);
      FilterStep(s, keep);
      FilterAppend(s[1..], x, keep);
    }
  }

  /** The length of a filter, one element at a time. */
  lemma FilterLengthStep<T(!new)>(s: seq<T>, keep: T -> bool)
    requires s != []
    ensures |Filter(s, keep)| == |Filter(s[1..], keep)| + (if keep(s[0]) then 1 else 0)
  {
  }

  /** `s.filter(keep)` is as long as `s` exactly when `keep` accepts every element. */
  lemma {:induction false} FilterKeepsLength<T(!new)>(s: seq<T>, keep: T -> bool)
    ensures |Filter(s, keep)| == |s| <==> forall k :: 0 <= k < |s| ==> keep(s[k])
  {
    if s != [] {
      var tail := s[1..];
      FilterKeepsLength(tail, keep);
      FilterLengthStep(s, keep);
      if forall k :: 0 <= k < |s| ==> keep(s[k]) {
        forall k | 0 <= k < |tail|
          ensures keep(tail[k])
        {
          assert tail[k] == s[k + 1];
        }
      } else {
        var j :| 0 <= j < |s| && !keep(s[j]);
        if j > 0 {
          assert tail[j - 1] == s[j];
        }
      }
    }
  }

  /** Filters with predicates that agree on the elements of `s` give the same result. */
  lemma FilterCongruent<T(!new)>(s: seq<T>, f: T -> bool, g: T -> bool)
    requires forall x :: x in s ==> f(x) == g(x)
    ensures Filter(s, f) == Filter(s, g)
  {
    if s != [] {
      FilterCongruent(s[1..], f, g);
    }
  }
}
