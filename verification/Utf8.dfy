/** Well-formed UTF-8, after the syntax in section 4 of RFC 3629. */
module Utf8 {
  import opened Common

  predicate IsTail(b: byte) { 0x80 <= b <= 0xBF }

  /** The length of the well-formed character at the front of `s`, or 0. */
  function CharLen(s: seq<byte>): (n: nat)
    ensures n <= |s| && n <= 4
    ensures n > 0 ==> !IsTail(s[0]) && forall i :: 1 <= i < n ==> IsTail(s[i])
  {
    if |s| >= 1 && s[0] <= 0x7F then 1
    else if |s| >= 2 && 0xC2 <= s[0] <= 0xDF && IsTail(s[1]) then 2
    else if |s| >= 3 && SecondOfThree(s[0], s[1]) && IsTail(s[2]) then 3
    else if |s| >= 4 && SecondOfFour(s[0], s[1]) && IsTail(s[2]) && IsTail(s[3]) then 4
    else 0
  }

  predicate SecondOfThree(first: byte, second: byte) {
    || (first == 0xE0 && 0xA0 <= second <= 0xBF)
    || ((0xE1 <= first <= 0xEC || 0xEE <= first <= 0xEF) && IsTail(second))
    || (first == 0xED && 0x80 <= second <= 0x9F)
  }

  predicate SecondOfFour(first: byte, second: byte) {
    || (first == 0xF0 && 0x90 <= second <= 0xBF)
    || (0xF1 <= first <= 0xF3 && IsTail(second))
    || (first == 0xF4 && 0x80 <= second <= 0x8F)
  }

  predicate Valid(s: seq<byte>) {
    s == [] || (CharLen(s) > 0 && Valid(s[CharLen(s)..]))
  }

  /** The number a sequence of one to four bytes stands for in UTF-8. */
  function CodePoint(s: seq<byte>): int
    requires 1 <= |s| <= 4
  {
    if |s| == 1 then s[0] as int
    else if |s| == 2 then (s[0] as int - 0xC0) * 0x40 + (s[1] as int - 0x80)
    else if |s| == 3 then
      (s[0] as int - 0xE0) * 0x1000 + (s[1] as int - 0x80) * 0x40 + (s[2] as int - 0x80)
    else
      (s[0] as int - 0xF0) * 0x4_0000 + (s[1] as int - 0x80) * 0x1000
        + (s[2] as int - 0x80) * 0x40 + (s[3] as int - 0x80)
  }

  /** The bytes stand for a Unicode scalar value, in the shortest form for it: the
      definition in section 3 of RFC 3629. */
  ghost predicate EncodesScalar(s: seq<byte>) {
    && 1 <= |s| <= 4 && (forall i | 1 <= i < |s| :: IsTail(s[i]))
    && match |s|
       case 1 => CodePoint(s) < 0x80
       case 2 => 0xC0 <= s[0] <= 0xDF && 0x80 <= CodePoint(s)
       case 3 => 0xE0 <= s[0] <= 0xEF && 0x800 <= CodePoint(s) && !(0xD800 <= CodePoint(s) <= 0xDFFF)
       case _ => 0xF0 <= s[0] <= 0xF7 && 0x1_0000 <= CodePoint(s) <= 0x10_FFFF
  }

  /** The syntax of section 4 accepts just what section 3 defines. */
  lemma CharLenIff(s: seq<byte>, n: nat)
    requires 1 <= n <= |s|
    ensures CharLen(s) == n <==> EncodesScalar(s[..n])
  {
    if n <= 4 { assert forall i | 0 <= i < n :: s[..n][i] == s[i]; }
  }

  /** `str::is_char_boundary`. */
  predicate IsBoundary(s: seq<byte>, i: nat) {
    i == 0 || i == |s| || (i < |s| && !IsTail(s[i]))
  }

  /** A whole character at the front of a prefix is one at the front of the whole. */
  lemma FrontDecides(s: seq<byte>, prefix: seq<byte>)
    requires prefix <= s && CharLen(prefix) > 0
    ensures CharLen(s) == CharLen(prefix)
  {
    assert forall i :: 0 <= i < |prefix| ==> s[i] == prefix[i];
  }

  /** And the other way round, if the prefix is long enough for it. */
  lemma PrefixKeepsFront(s: seq<byte>, i: nat)
    requires 0 < CharLen(s) <= i <= |s|
    ensures CharLen(s[..i]) == CharLen(s)
  {
    assert forall k :: 0 <= k < i ==> s[..i][k] == s[k];
  }

  lemma {:induction false} ConcatIsValid(a: seq<byte>, b: seq<byte>)
    requires Valid(a) && Valid(b)
    ensures Valid(a + b)
  {
    if a == [] {
      assert a + b == b;
    } else {
      var n := CharLen(a);
      ConcatIsValid(a[n..], b);
      FrontDecides(a + b, a);
      assert (a + b)[n..] == a[n..] + b;
    }
  }

  /** Cutting at a boundary leaves whole characters on both sides. */
  lemma {:induction false} SplitAtBoundary(s: seq<byte>, i: nat)
    requires Valid(s) && i <= |s| && IsBoundary(s, i)
    ensures Valid(s[..i]) && Valid(s[i..])
  {
    if i == 0 {
      assert s[0..] == s;
    } else {
      var n := CharLen(s);
      assert i >= n;
      SplitAtBoundary(s[n..], i - n);
      PrefixKeepsFront(s, i);
      assert s[..i][n..] == s[n..][..i - n];
      assert s[n..][i - n..] == s[i..];
    }
  }

  /** Conversely, whole characters end at boundaries only. */
  lemma {:induction false} ValidPrefixEndsAtBoundary(s: seq<byte>, i: nat)
    requires Valid(s) && i <= |s| && Valid(s[..i])
    ensures IsBoundary(s, i)
  {
    if i > 0 {
      var n := CharLen(s[..i]);
      FrontDecides(s, s[..i]);
      assert s[..i][n..] == s[n..][..i - n];
      ValidPrefixEndsAtBoundary(s[n..], i - n);
    }
  }

  /** In well-formed text the boundaries are the places where it can be cut in two. */
  lemma BoundaryIff(s: seq<byte>, i: nat)
    requires Valid(s) && i <= |s|
    ensures IsBoundary(s, i) <==> Valid(s[..i]) && Valid(s[i..])
  {
    if IsBoundary(s, i) { SplitAtBoundary(s, i); }
    if Valid(s[..i]) { ValidPrefixEndsAtBoundary(s, i); }
  }

  /** Four continuation bytes never stand in a row. */
  lemma {:induction false} NoFourTails(s: seq<byte>, i: nat)
    requires Valid(s) && i + 3 < |s|
    ensures exists k :: i <= k <= i + 3 && !IsTail(s[k])
  {
    var n := CharLen(s);
    if i == 0 {
      assert !IsTail(s[0]);
    } else if i < n {
      assert !IsTail(s[n..][0]);
      assert !IsTail(s[n]);
    } else {
      NoFourTails(s[n..], i - n);
      var k :| i - n <= k <= i - n + 3 && !IsTail(s[n..][k]);
      assert !IsTail(s[k + n]);
    }
  }
}
