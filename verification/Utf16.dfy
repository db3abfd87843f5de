/** Strings of 16-bit code units, their encoding as UTF-8, and the comparison of
    two of them in constant time, which is on bytes. */
module Utf16 {
  import opened Common
  import Utf8

  newtype Unit = x: int | 0 <= x < 0x1_0000

  type Units = seq<Unit>

  predicate IsHigh(u: Unit) { 0xD800 <= u <= 0xDBFF }

  predicate IsLow(u: Unit) { 0xDC00 <= u <= 0xDFFF }

  /** A character beyond the first plane takes two units. */
  predicate StartsWithPair(s: Units) {
    |s| >= 2 && IsHigh(s[0]) && IsLow(s[1])
  }

  function PairValue(high: Unit, low: Unit): int
    requires IsHigh(high) && IsLow(low)
  {
    0x1_0000 + (high as int - 0xD800) * 0x400 + (low as int - 0xDC00)
  }

  /** One unit alone; half of a pair becomes the replacement character. */
  function EncodedUnit(u: Unit): seq<byte> {
    var v := u as int;
    if v < 0x80 then [v as byte]
    else if v < 0x800 then [(0xC0 + v / 0x40) as byte, (0x80 + v % 0x40) as byte]
    else if IsHigh(u) || IsLow(u) then [0xEF, 0xBF, 0xBD]
    else [(0xE0 + v / 0x1000) as byte, (0x80 + v / 0x40 % 0x40) as byte, (0x80 + v % 0x40) as byte]
  }

  function EncodedPair(high: Unit, low: Unit): seq<byte>
    requires IsHigh(high) && IsLow(low)
  {
    var v := PairValue(high, low);
    [(0xF0 + v / 0x4_0000) as byte, (0x80 + v / 0x1000 % 0x40) as byte,
     (0x80 + v / 0x40 % 0x40) as byte, (0x80 + v % 0x40) as byte]
  }

  function Encoded(s: Units): seq<byte>
    decreases |s|
  {
    if s == [] then []
    else if StartsWithPair(s) then EncodedPair(s[0], s[1]) + Encoded(s[2..])
    else EncodedUnit(s[0]) + Encoded(s[1..])
  }

  /** A unit alone is encoded as the one character that it is, or as U+FFFD if it is
      half of a pair; a pair as the one character that it stands for. */
  lemma UnitIsEncoded(u: Unit)
    ensures var e := EncodedUnit(u);
            Utf8.EncodesScalar(e)
            && Utf8.CodePoint(e) == if 0xD800 <= u <= 0xDFFF then 0xFFFD else u as int
  {
  }

  /** A number is made of its digits to the base 64. */
  lemma Digits(v: int)
    requires 0x1_0000 <= v < 0x11_0000
    ensures v == v / 0x4_0000 * 0x4_0000 + v / 0x1000 % 0x40 * 0x1000 + v / 0x40 % 0x40 * 0x40 + v % 0x40
    ensures 0 <= v / 0x4_0000 <= 4
  {
    assert v / 0x1000 == v / 0x40 / 0x40;
    assert v / 0x4_0000 == v / 0x1000 / 0x40;
  }

  lemma PairIsEncoded(high: Unit, low: Unit)
    requires IsHigh(high) && IsLow(low)
    ensures var e := EncodedPair(high, low);
            Utf8.EncodesScalar(e)
            && Utf8.CodePoint(e) == 0x1_0000 + (high as int - 0xD800) * 0x400 + (low as int - 0xDC00)
  {
    Digits(PairValue(high, low));
  }

  lemma {:induction false} EncodingIsValid(s: Units)
    ensures Utf8.Valid(Encoded(s))
    decreases |s|
  {
    if s != [] {
      var first := if StartsWithPair(s) then EncodedPair(s[0], s[1]) else EncodedUnit(s[0]);
      if StartsWithPair(s) {
        PairIsEncoded(s[0], s[1]);
        EncodingIsValid(s[2..]);
      } else {
        UnitIsEncoded(s[0]);
        EncodingIsValid(s[1..]);
      }
      assert first[..|first|] == first;
      Utf8.CharLenIff(first, |first|);
      assert first[|first|..] == [];
      Utf8.ConcatIsValid(first, if StartsWithPair(s) then Encoded(s[2..]) else Encoded(s[1..]));
    }
  }

  /** The encoding begins with the character at the front of the string, two units if
      they are a pair, and goes on with the encoding of the rest. */
  lemma FirstCharacter(s: Units)
    requires s != []
    ensures var e := Encoded(s);
            var n := Utf8.CharLen(e);
            n > 0 &&
            if |s| >= 2 && 0xD800 <= s[0] <= 0xDBFF && 0xDC00 <= s[1] <= 0xDFFF then
              && Utf8.CodePoint(e[..n]) == 0x1_0000 + (s[0] as int - 0xD800) * 0x400 + (s[1] as int - 0xDC00)
              && e[n..] == Encoded(s[2..])
            else
              && Utf8.CodePoint(e[..n]) == (if 0xD800 <= s[0] <= 0xDFFF then 0xFFFD else s[0] as int)
              && e[n..] == Encoded(s[1..])
  {
    var first := if StartsWithPair(s) then EncodedPair(s[0], s[1]) else EncodedUnit(s[0]);
    if StartsWithPair(s) { PairIsEncoded(s[0], s[1]); } else { UnitIsEncoded(s[0]); }
    assert Encoded(s)[..|first|] == first;
    Utf8.CharLenIff(Encoded(s), |first|);
  }

  predicate IsAscii(s: Units) {
    forall i | 0 <= i < |s| :: s[i] < 0x80
  }

  /** The encoding has at least as many bytes as the string has units, and just
      as many exactly when the string is ASCII. */
  lemma {:induction false} EncodedLength(s: Units)
    ensures |Encoded(s)| >= |s|
    ensures |Encoded(s)| == |s| <==> IsAscii(s)
    decreases |s|
  {
    if s != [] {
      if StartsWithPair(s) {
        EncodedLength(s[2..]);
      } else {
        EncodedLength(s[1..]);
        assert forall i | 0 < i < |s| :: s[i] == s[1..][i - 1];
        assert IsAscii(s) <==> s[0] < 0x80 && IsAscii(s[1..]);
      }
    }
  }

  lemma {:induction false} AsciiEncoding(s: Units, i: nat)
    requires IsAscii(s) && i < |s|
    ensures i < |Encoded(s)| && Encoded(s)[i] as int == s[i] as int
  {
    if i > 0 {
      AsciiEncoding(s[1..], i - 1);
    }
  }

  /** How a token supplied compares with the one required: an empty requirement
      matches anything, and strings of one length but different encoded lengths
      make the comparison throw. */
  datatype Comparison = Matches | Differs | Throws

  function Compared(token: Units, required: Units): Comparison {
    if required == [] then Matches
    else if |token| != |required| then Differs
    else if |Encoded(token)| != |Encoded(required)| then Throws
    else if Encoded(token) == Encoded(required) then Matches else Differs
  }

  /** Against an ASCII requirement, as every generated token is, only the token
      itself matches, and only a token of its length that is not ASCII throws. */
  lemma ComparedWithAscii(token: Units, required: Units)
    requires IsAscii(required) && required != []
    ensures Compared(token, required) == Matches <==> token == required
    ensures Compared(token, required) == Throws <==> |token| == |required| && !IsAscii(token)
  {
    EncodedLength(token);
    EncodedLength(required);
    if Compared(token, required) == Matches {
      forall i: nat | i < |token| ensures token[i] == required[i] {
        AsciiEncoding(token, i);
        AsciiEncoding(required, i);
      }
    }
  }
}
