/**
  * The string primitives the pages rely on, restricted to what they need:
  * ASCII decimal digits, JavaScript's `parseInt(s)` and `String(n)` on
  * integers, `trim()`, ASCII `toLowerCase()` and `includes()`.
  */
module Strings {
  import opened Wrappers

  predicate IsDigit(c: char) {
    '0' <= c <= '9'
  }

  predicate AllDigits(s: string) {
    forall i :: 0 <= i < |s| ==> IsDigit(s[i])
  }

  function DigitValue(c: char): (d: nat)
    requires IsDigit(c)
    ensures d < 10
  {
    (c as int - '0' as int) as nat
  }

  function DigitChar(d: nat): (c: char)
    requires d < 10
    ensures IsDigit(c) && DigitValue(c) == d
  {
    ('0' as int + d) as char
  }

  /** The number a string of decimal digits denotes (`Number(s)` on such a string); most significant digit first. */
  function Value(s: string): nat
    requires AllDigits(s)
  {
    if s == [] then 0 else Value(s[..|s| - 1]) * 10 + DigitValue(s[|s| - 1])
  }

  /** The end of the maximal run of decimal digits that starts at `i`. */
  function DigitRun(s: string, i: nat): (j: nat)
    requires i <= |s|
    ensures i <= j <= |s|
    ensures AllDigits(s[i..j])
    ensures j == |s| || !IsDigit(s[j])
    decreases |s| - i
  {
    if i < |s| && IsDigit(s[i]) then DigitRun(s, i + 1) else i
  }

  /** The white space recognised by `trim()` and skipped by `parseInt`: WhiteSpace and LineTerminator of ECMA-262. */
  predicate IsSpace(c: char) {
    c == ' ' || c == '\t' || c == '\n' || c == '\r' || c == '\U{000B}' || c == '\U{000C}'
    || c == '\U{00A0}' || c == '\U{FEFF}' || c == '\U{1680}' || ('\U{2000}' <= c <= '\U{200A}')
    || c == '\U{2028}' || c == '\U{2029}' || c == '\U{202F}' || c == '\U{205F}' || c == '\U{3000}'
  }

  /** The first index at or after `i` that does not hold white space. */
  function SkipSpace(s: string, i: nat): (j: nat)
    requires i <= |s|
    ensures i <= j <= |s|
    ensures forall k :: i <= k < j ==> IsSpace(s[k])
    ensures j == |s| || !IsSpace(s[j])
    decreases |s| - i
  {
    if i < |s| && IsSpace(s[i]) then SkipSpace(s, i + 1) else i
  }

  /**
    * `parseInt(s)` with the default radix on decimal input: leading white space
    * is skipped, one sign is accepted, then the longest run of digits is read and
    * anything after it is ignored. `None` stands for `NaN` (no digit at all).
    */
  function ParseInt(s: string): Option<int> {
    var i := SkipSpace(s, 0);
    var negative := i < |s| && s[i] == '-';
    var k := if i < |s| && (s[i] == '-' || s[i] == '+') then i + 1 else i;
    var j := DigitRun(s, k);
    var magnitude: int := if j == k then 0 else Value(s[k..j]);
    if j == k then None
    else if negative then Some(-magnitude)
    else Some(magnitude)
  }

  /** `String(n)` for a natural number: its decimal digits without leading zeros. */
  function ShowNat(n: nat): (s: string)
    ensures s != [] && AllDigits(s)
  {
    if n < 10 then [DigitChar(n)] else ShowNat(n / 10) + [DigitChar(n % 10)]
  }

  /** `String(n)` for an integer. */
  function ShowInt(n: int): string {
    if n < 0 then "-" + ShowNat(-n) else ShowNat(n)
  }

  lemma {:induction false} ValueOfShowNat(n: nat)
    ensures Value(ShowNat(n)) == n
  {
    var s := ShowNat(n);
    if n >= 10 {
      ValueOfShowNat(n / 10);
      assert s[..|s| - 1] == ShowNat(n / 10);
    }
  }

  lemma DigitRunOfAllDigits(s: string, i: nat)
    requires i <= |s| && AllDigits(s[i..])
    ensures DigitRun(s, i) == |s|
    decreases |s| - i
  {
    if i < |s| {
      assert s[i] == s[i..][0];
      assert s[i + 1..] == s[i..][1..];
      DigitRunOfAllDigits(s, i + 1);
    }
  }

  /** Parsing what `String(n)` printed gives `n` back: the round trip behind `String(rollD20())` and `parseInt`. */
  lemma ParseShowInt(n: int)
    ensures ParseInt(ShowInt(n)) == Some(n)
  {
    var s := ShowInt(n);
    var m: nat := if n < 0 then -n else n;
    var digits := ShowNat(m);
    ValueOfShowNat(m);
    var k := if n < 0 then 1 else 0;
    assert s[k..] == digits;
    assert !IsSpace(s[0]);
    assert SkipSpace(s, 0) == 0;
    DigitRunOfAllDigits(s, k);
    assert s[k..|s|] == digits;
  }

  /** Everything in `s` before `i` and from `j` on is white space. */
  predicate SpaceOutside(s: string, i: nat, j: nat)
    requires i <= j <= |s|
  {
    (forall k :: 0 <= k < i ==> IsSpace(s[k])) && (forall k :: j <= k < |s| ==> IsSpace(s[k]))
  }

  /** `s.trim()`: `s` without its leading and trailing white space. */
  function Trim(s: string): (t: string)
    ensures |t| <= |s|
    ensures t != [] ==> !IsSpace(t[0]) && !IsSpace(t[|t| - 1])
    ensures t == [] <==> forall i :: 0 <= i < |s| ==> IsSpace(s[i])
    ensures exists i, j :: 0 <= i <= j <= |s| && t == s[i..j] && SpaceOutside(s, i, j)
  {
    var i := SkipSpace(s, 0);
    var j := LastNonSpace(s, i, |s|);
    assert SpaceOutside(s, i, j);
    s[i..j]
  }

  /**
    * `trim()` is determined by what it promises: the one slice of `s` that drops
    * only white space at either end and neither starts nor ends with white space.
    */
  lemma TrimUnique(s: string, i: nat, j: nat)
    requires i <= j <= |s| && SpaceOutside(s, i, j)
    requires i < j ==> !IsSpace(s[i]) && !IsSpace(s[j - 1])
    ensures Trim(s) == s[i..j]
  {
    if i == j {
      assert forall k :: 0 <= k < |s| ==> IsSpace(s[k]);
    }
  }

  /** The end of `s[lo..hi]` once trailing white space is dropped. */
  function LastNonSpace(s: string, lo: nat, hi: nat): (j: nat)
    requires lo <= hi <= |s|
    ensures lo <= j <= hi
    ensures forall k :: j <= k < hi ==> IsSpace(s[k])
    ensures j > lo ==> !IsSpace(s[j - 1])
    decreases hi - lo
  {
    if hi > lo && IsSpace(s[hi - 1]) then LastNonSpace(s, lo, hi - 1) else hi
  }

  function ToLowerChar(c: char): char {
    if 'A' <= c <= 'Z' then (c as int + 32) as char else c
  }

  /** ASCII `toLowerCase()`: upper-case Latin letters are mapped to lower case, every other character is kept. */
  function ToLower(s: string): (t: string)
    ensures |t| == |s|
    ensures forall i :: 0 <= i < |s| ==> t[i] == ToLowerChar(s[i])
  {
    seq(|s|, i requires 0 <= i < |s| => ToLowerChar(s[i]))
  }

  /** `needle` occurs in `hay` at position `i`. */
  ghost predicate OccursAt(hay: string, needle: string, i: int) {
    0 <= i && i + |needle| <= |hay| && hay[i..i + |needle|] == needle
  }

  /** `hay.includes(needle)`. */
  function Includes(hay: string, needle: string): (b: bool)
    ensures b <==> exists i :: OccursAt(hay, needle, i)
  {
    IncludesFrom(hay, needle, 0)
  }

  function IncludesFrom(hay: string, needle: string, from: nat): (b: bool)
    ensures b <==> exists i :: from <= i && OccursAt(hay, needle, i)
    decreases |hay| - from
  {
    if from + |needle| > |hay| then
      assert forall i :: from <= i ==> !OccursAt(hay, needle, i);
      false
    else if hay[from..from + |needle|] == needle then
      assert OccursAt(hay, needle, from);
      true
    else
      assert forall i :: from <= i && OccursAt(hay, needle, i) ==> from + 1 <= i;
      IncludesFrom(hay, needle, from + 1)
  }
}
