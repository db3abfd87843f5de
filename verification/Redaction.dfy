/** Redaction of runtime messages: a sweep over finding ranges, then truncation
    to a byte limit. */
module Redaction {
  import opened Common
  import opened Utf8

  datatype Range = Range(start: nat, end: nat)

  const MAX_MESSAGE_BYTES: nat := 4096

  /** "[REDACTED]" */
  const MARKER: seq<byte> := [0x5B, 0x52, 0x45, 0x44, 0x41, 0x43, 0x54, 0x45, 0x44, 0x5D]

  predicate Usable(text: seq<byte>, r: Range) {
    r.start < r.end && r.end <= |text| && IsBoundary(text, r.start) && IsBoundary(text, r.end)
  }

  function UsableRanges(text: seq<byte>, findings: seq<Range>): seq<Range> {
    if findings == [] then []
    else (if Usable(text, findings[0]) then [findings[0]] else []) + UsableRanges(text, findings[1..])
  }

  ghost predicate SortedByStart(ranges: seq<Range>) {
    forall i, j :: 0 <= i < j < |ranges| ==> ranges[i].start <= ranges[j].start
  }

  /** An unstable sort may return any of these. */
  ghost predicate SortOf(ranges: seq<Range>, sorted: seq<Range>) {
    SortedByStart(sorted) && multiset(sorted) == multiset(ranges)
  }

  predicate Within(ranges: seq<Range>, length: nat) {
    forall r | r in ranges :: r.start <= r.end <= length
  }

  predicate Covered(ranges: seq<Range>, i: nat) {
    exists r :: r in ranges && r.start <= i < r.end
  }

  /** What the output is made of: stretches of the text, and markers. */
  datatype Piece = Text(lo: nat, hi: nat) | Marker

  /** The sweep: `cursor` is the end of what has been dealt with. */
  function Sweep(length: nat, ranges: seq<Range>, cursor: nat): seq<Piece> {
    if ranges == [] then [Text(cursor, length)]
    else if ranges[0].end <= cursor then Sweep(length, ranges[1..], cursor)
    else [Text(cursor, Max(ranges[0].start, cursor)), Marker] + Sweep(length, ranges[1..], ranges[0].end)
  }

  ghost predicate Copied(pieces: seq<Piece>, i: nat) {
    exists p :: p in pieces && p.Text? && p.lo <= i < p.hi
  }

  /** The stretches follow one another, from `start` on, without overlap. */
  ghost predicate InOrder(pieces: seq<Piece>, start: nat, end: nat) {
    if pieces == [] then start <= end
    else match pieces[0]
      case Marker => InOrder(pieces[1..], start, end)
      case Text(lo, hi) => start <= lo <= hi && InOrder(pieces[1..], hi, end)
  }

  function Render(text: seq<byte>, pieces: seq<Piece>): seq<byte> {
    if pieces == [] then [] else RenderOne(text, pieces[0]) + Render(text, pieces[1..])
  }

  function RenderOne(text: seq<byte>, piece: Piece): seq<byte> {
    match piece
    case Text(lo, hi) => if lo <= hi <= |text| then text[lo..hi] else []
    case Marker => MARKER
  }

  lemma CoveredByRest(ranges: seq<Range>, i: nat)
    requires ranges != []
    ensures Covered(ranges, i) <==> ranges[0].start <= i < ranges[0].end || Covered(ranges[1..], i)
  {
    assert ranges == [ranges[0]] + ranges[1..];
  }

  lemma CopiedByRest(first: seq<Piece>, rest: seq<Piece>, i: nat)
    ensures Copied(first + rest, i) <==> Copied(first, i) || Copied(rest, i)
  {
    assert forall p :: p in first + rest <==> p in first || p in rest;
  }

  /** The sweep copies a byte exactly when no range covers it. */
  lemma {:induction false} SweepCopiesUncovered(length: nat, ranges: seq<Range>, cursor: nat, i: nat)
    requires cursor <= length && SortedByStart(ranges) && Within(ranges, length)
    ensures Copied(Sweep(length, ranges, cursor), i)
            <==> cursor <= i < length && !Covered(ranges, i)
    decreases |ranges|
  {
    if ranges == [] {
      assert Copied([Text(cursor, length)], i) <==> Text(cursor, length).lo <= i < length;
    } else {
      var first, rest := ranges[0], ranges[1..];
      assert ranges == [first] + rest;
      CoveredByRest(ranges, i);
      if first.end <= cursor {
        SweepCopiesUncovered(length, rest, cursor, i);
      } else {
        SweepCopiesUncovered(length, rest, first.end, i);
        var text := Text(cursor, Max(first.start, cursor));
        CopiedByRest([text, Marker], Sweep(length, rest, first.end), i);
        assert Copied([text, Marker], i) <==> text.lo <= i < text.hi;
        if i < first.start {
          assert !Covered(rest, i);
        }
      }
    }
  }

  /** It copies in the original order, each byte at most once. */
  lemma {:induction false} SweepKeepsOrder(length: nat, ranges: seq<Range>, cursor: nat)
    requires cursor <= length && Within(ranges, length)
    ensures InOrder(Sweep(length, ranges, cursor), cursor, length)
    decreases |ranges|
  {
    if ranges != [] {
      var first, rest := ranges[0], ranges[1..];
      assert first in ranges && Within(rest, length);
      SweepKeepsOrder(length, rest, Max(first.end, cursor));
      if cursor < first.end {
        var next := Sweep(length, rest, first.end);
        var text := Text(cursor, Max(first.start, cursor));
        assert ([text, Marker] + next)[1..] == [Marker] + next;
        assert ([Marker] + next)[1..] == next;
        InOrderFromLater(next, text.hi, first.end, length);
      }
    }
  }

  lemma {:induction false} InOrderFromLater(pieces: seq<Piece>, early: nat, late: nat, end: nat)
    requires early <= late && InOrder(pieces, late, end)
    ensures InOrder(pieces, early, end)
  {
    if pieces != [] && pieces[0].Marker? {
      InOrderFromLater(pieces[1..], early, late, end);
    }
  }

  /** Which bytes survive does not depend on the order of the findings, nor on
      how the sort breaks ties. */
  lemma SurvivorsIgnoreOrder(length: nat, ranges: seq<Range>, a: seq<Range>, b: seq<Range>, i: nat)
    requires Within(ranges, length) && SortOf(ranges, a) && SortOf(ranges, b)
    ensures Copied(Sweep(length, a, 0), i) <==> Copied(Sweep(length, b, 0), i)
    ensures Copied(Sweep(length, a, 0), i) <==> i < length && !Covered(ranges, i)
  {
    SortKeepsMembers(ranges, a);
    SortKeepsMembers(ranges, b);
    SweepCopiesUncovered(length, a, 0, i);
    SweepCopiesUncovered(length, b, 0, i);
  }

  /** How many markers appear does depend on ties: two ranges that start
      together give one marker or two. */
  lemma MarkerCountDependsOnTies()
    ensures var long, short := Range(0, 2), Range(0, 1);
            && SortOf([long, short], [long, short]) && SortOf([long, short], [short, long])
            && Render([0, 0], Sweep(2, [long, short], 0)) == MARKER
            && Render([0, 0], Sweep(2, [short, long], 0)) == MARKER + MARKER
  {
    var long, short := Range(0, 2), Range(0, 1);
    var text: seq<byte> := [0, 0];
    var end := [Text(2, 2)];
    assert [long, short][1..] == [short] && [short, long][1..] == [long];
    assert [short][1..] == [] && [long][1..] == [];
    assert Sweep(2, [short], 2) == end;
    assert Sweep(2, [long, short], 0) == [Text(0, 0), Marker] + end;
    assert Sweep(2, [long], 1) == [Text(1, 1), Marker] + end;
    assert Sweep(2, [short, long], 0) == [Text(0, 0), Marker] + ([Text(1, 1), Marker] + end);
    RenderEmptyThenMarker(text, 0, end);
    RenderEmptyThenMarker(text, 1, end);
    RenderEmptyThenMarker(text, 0, [Text(1, 1), Marker] + end);
    assert end[1..] == [] && Render(text, end) == [];
    assert multiset([short, long]) == multiset([long, short]);
  }

  lemma RenderEmptyThenMarker(text: seq<byte>, at: nat, rest: seq<Piece>)
    requires at <= |text|
    ensures Render(text, [Text(at, at), Marker] + rest) == MARKER + Render(text, rest)
  {
    RenderTextThenMarker(text, Text(at, at), rest);
  }

  lemma RenderTextThenMarker(text: seq<byte>, piece: Piece, rest: seq<Piece>)
    ensures Render(text, [piece, Marker] + rest)
            == RenderOne(text, piece) + (MARKER + Render(text, rest))
  {
    assert ([piece, Marker] + rest)[1..] == [Marker] + rest;
    assert ([Marker] + rest)[1..] == rest;
  }

  /** A slice of a string, which must start and end on character boundaries. */
  function Slice(text: seq<byte>, lo: nat, hi: nat): (r: seq<byte>)
    requires lo <= hi <= |text| && IsBoundary(text, lo) && IsBoundary(text, hi)
  {
    text[lo..hi]
  }

  lemma SliceIsValid(text: seq<byte>, lo: nat, hi: nat)
    requires Valid(text) && lo <= hi <= |text| && IsBoundary(text, lo) && IsBoundary(text, hi)
    ensures Valid(text[lo..hi])
  {
    SplitAtBoundary(text, hi);
    assert lo < hi ==> text[..hi][lo] == text[lo];
    SplitAtBoundary(text[..hi], lo);
    assert text[..hi][lo..] == text[lo..hi];
  }

  lemma {:induction false} UsableRangesMembers(text: seq<byte>, findings: seq<Range>)
    ensures forall r :: r in UsableRanges(text, findings) <==> r in findings && Usable(text, r)
  {
    if findings != [] {
      UsableRangesMembers(text, findings[1..]);
      assert findings == [findings[0]] + findings[1..];
    }
  }

  function Inserted(r: Range, sorted: seq<Range>): seq<Range> {
    if sorted == [] || r.start <= sorted[0].start then [r] + sorted
    else [sorted[0]] + Inserted(r, sorted[1..])
  }

  function Sorted(ranges: seq<Range>): seq<Range> {
    if ranges == [] then [] else Inserted(ranges[0], Sorted(ranges[1..]))
  }

  lemma {:induction false} InsertedMultiset(r: Range, sorted: seq<Range>)
    ensures multiset(Inserted(r, sorted)) == multiset(sorted) + multiset{r}
  {
    if sorted != [] && r.start > sorted[0].start {
      assert sorted == [sorted[0]] + sorted[1..];
      InsertedMultiset(r, sorted[1..]);
    }
  }

  lemma InsertedMembers(r: Range, sorted: seq<Range>, x: Range)
    ensures x in Inserted(r, sorted) <==> x == r || x in sorted
  {
    InsertedMultiset(r, sorted);
    assert x in Inserted(r, sorted) <==> x in multiset(Inserted(r, sorted));
    assert x in sorted <==> x in multiset(sorted);
  }

  lemma {:induction false} InsertedIsSorted(r: Range, sorted: seq<Range>)
    requires SortedByStart(sorted)
    ensures SortedByStart(Inserted(r, sorted))
  {
    if sorted != [] && r.start > sorted[0].start {
      InsertedIsSorted(r, sorted[1..]);
      forall x | x in Inserted(r, sorted[1..]) ensures sorted[0].start <= x.start {
        InsertedMembers(r, sorted[1..], x);
      }
    }
  }

  lemma {:induction false} SortedIsSort(ranges: seq<Range>)
    ensures SortOf(ranges, Sorted(ranges))
  {
    if ranges != [] {
      SortedIsSort(ranges[1..]);
      InsertedIsSorted(ranges[0], Sorted(ranges[1..]));
      InsertedMultiset(ranges[0], Sorted(ranges[1..]));
      assert ranges == [ranges[0]] + ranges[1..];
    }
  }

  lemma SortKeepsMembers(ranges: seq<Range>, sorted: seq<Range>)
    requires SortOf(ranges, sorted)
    ensures forall r :: r in sorted <==> r in ranges
  {
    assert forall r :: r in sorted <==> r in multiset(sorted);
    assert forall r :: r in ranges <==> r in multiset(ranges);
  }

  lemma AppendSegment(output: seq<byte>, text: seq<byte>, marker: seq<byte>, rest: seq<byte>)
    ensures output + (text + (marker + rest)) == output + text + marker + rest
  {
  }

  lemma {:induction false} AsciiIsValid(s: seq<byte>)
    requires forall b | b in s :: b <= 0x7F
    ensures Valid(s)
  {
    if s != [] {
      assert s[0] in s && CharLen(s) == 1;
      assert forall b | b in s[1..] :: b in s;
      AsciiIsValid(s[1..]);
    }
  }

  lemma SliceThenMarker(text: seq<byte>, output: seq<byte>, cursor: nat, start: nat)
    requires Valid(text) && Valid(output) && cursor <= start <= |text|
    requires IsBoundary(text, cursor) && IsBoundary(text, start)
    ensures Valid(output + text[cursor..start] + MARKER)
  {
    SliceIsValid(text, cursor, start);
    ConcatIsValid(output, text[cursor..start]);
    AsciiIsValid(MARKER);
    ConcatIsValid(output + text[cursor..start], MARKER);
  }

  lemma LastSlice(text: seq<byte>, output: seq<byte>, cursor: nat)
    requires Valid(text) && Valid(output) && cursor <= |text| && IsBoundary(text, cursor)
    ensures Valid(output + text[cursor..])
    ensures Render(text, [Text(cursor, |text|)]) == text[cursor..]
  {
    SplitAtBoundary(text, cursor);
    ConcatIsValid(output, text[cursor..]);
    assert [Text(cursor, |text|)][1..] == [];
  }

  method SweepRanges(text: seq<byte>, ranges: seq<Range>) returns (output: seq<byte>)
    requires Valid(text) && forall r | r in ranges :: Usable(text, r)
    ensures Valid(output) && output == Render(text, Sweep(|text|, ranges, 0))
  {
    output := [];
    var cursor: nat := 0;
    ghost var whole := Render(text, Sweep(|text|, ranges, 0));
    assert ranges[0..] == ranges;
    for i := 0 to |ranges|
      invariant cursor <= |text| && IsBoundary(text, cursor) && Valid(output)
      invariant output + Render(text, Sweep(|text|, ranges[i..], cursor)) == whole
    {
      var range := ranges[i];
      assert ranges[i..][0] == range && ranges[i..][1..] == ranges[i + 1..];
      if range.end > cursor {
        assert Usable(text, range);
        var start: nat := Max(range.start, cursor);
        var kept := Slice(text, cursor, start);
        SweepStep(text, output, ranges[i..], cursor, kept);
        output := output + kept + MARKER;
        cursor := range.end;
      }
    }
    LastSlice(text, output, cursor);
    assert text[cursor..|text|] == text[cursor..];
    output := output + Slice(text, cursor, |text|);
  }

  /** Stretches and markers alternate from `start` to `end`, and each marker stands for at
      least one byte, so that none is left out and none is there for nothing. */
  ghost predicate Replaced(pieces: seq<Piece>, start: nat, end: nat)
    decreases |pieces|
  {
    && pieces != [] && pieces[0].Text? && pieces[0].lo == start <= pieces[0].hi
    && if |pieces| == 1 then pieces[0].hi == end
       else
         && |pieces| >= 3 && pieces[1] == Marker && pieces[2].Text? && pieces[0].hi < pieces[2].lo
         && Replaced(pieces[2..], pieces[2].lo, end)
  }

  lemma {:induction false} SweepReplaces(length: nat, ranges: seq<Range>, cursor: nat)
    requires cursor <= length && forall r | r in ranges :: r.start < r.end <= length
    ensures Replaced(Sweep(length, ranges, cursor), cursor, length)
    decreases |ranges|
  {
    if ranges != [] {
      assert forall r | r in ranges[1..] :: r in ranges;
      if ranges[0].end <= cursor {
        SweepReplaces(length, ranges[1..], cursor);
      } else {
        var rest := Sweep(length, ranges[1..], ranges[0].end);
        SweepReplaces(length, ranges[1..], ranges[0].end);
        assert Sweep(length, ranges, cursor)[2..] == rest;
      }
    }
  }

  /** Exactly those bytes of the text are copied that no finding covers, of the findings
      that are not empty, lie in the text and start and end between characters. */
  ghost predicate Redacts(text: seq<byte>, findings: seq<Range>, pieces: seq<Piece>) {
    && InOrder(pieces, 0, |text|) && Replaced(pieces, 0, |text|)
    && forall i: nat ::
         Copied(pieces, i)
         <==> (i < |text| && forall r ::
           r in findings && r.start < r.end <= |text| && IsBoundary(text, r.start) && IsBoundary(text, r.end)
           ==> !(r.start <= i < r.end))
  }

  /** Whatever order the sort leaves the usable findings in: the sweep copies the
      bytes that no usable finding covers, in the order of the text. */
  lemma SweepOfUsable(text: seq<byte>, findings: seq<Range>, sorted: seq<Range>)
    requires SortOf(UsableRanges(text, findings), sorted)
    ensures Redacts(text, findings, Sweep(|text|, sorted, 0))
  {
    var usable := UsableRanges(text, findings);
    UsableRangesMembers(text, findings);
    SortKeepsMembers(usable, sorted);
    SweepKeepsOrder(|text|, sorted, 0);
    SweepReplaces(|text|, sorted, 0);
    forall i: nat
      ensures
        Copied(Sweep(|text|, sorted, 0), i)
        <==> (i < |text| && forall r ::
          r in findings && r.start < r.end <= |text| && IsBoundary(text, r.start) && IsBoundary(text, r.end)
          ==> !(r.start <= i < r.end))
    {
      SurvivorsIgnoreOrder(|text|, usable, sorted, sorted, i);
      assert forall r :: r in usable <==> r in findings && Usable(text, r);
    }
  }

  /** `redact_sensitive_text`, up to the exact-value replacements. A byte is copied
      exactly when no finding covers it, of those that are not empty, lie in the text
      and start and end between characters; any other finding removes nothing. */
  method RedactSensitiveText(text: seq<byte>, findings: seq<Range>) returns (output: seq<byte>)
    requires Valid(text)
    ensures Valid(output)
    ensures exists sorted :: && SortOf(UsableRanges(text, findings), sorted)
                             && output == Render(text, Sweep(|text|, sorted, 0))
    ensures exists pieces :: output == Render(text, pieces) && Redacts(text, findings, pieces)
  {
    var usable := UsableRanges(text, findings);
    var ranges := Sorted(usable);
    UsableRangesMembers(text, findings);
    SortedIsSort(usable);
    SortKeepsMembers(usable, ranges);
    output := SweepRanges(text, ranges);
    SweepOfUsable(text, findings, ranges);
  }

  lemma SweepStep(text: seq<byte>, output: seq<byte>, ranges: seq<Range>, cursor: nat, kept: seq<byte>)
    requires Valid(text) && Valid(output) && cursor <= |text| && IsBoundary(text, cursor)
    requires ranges != [] && Usable(text, ranges[0]) && cursor < ranges[0].end
    requires kept == text[cursor..Max(ranges[0].start, cursor)]
    ensures var next := output + kept + MARKER;
            && Valid(next)
            && next + Render(text, Sweep(|text|, ranges[1..], ranges[0].end))
               == output + Render(text, Sweep(|text|, ranges, cursor))
  {
    var start := Max(ranges[0].start, cursor);
    var rest := Sweep(|text|, ranges[1..], ranges[0].end);
    SliceThenMarker(text, output, cursor, start);
    RenderTextThenMarker(text, Text(cursor, start), rest);
    AppendSegment(output, text[cursor..start], MARKER, Render(text, rest));
  }

  /** Truncation keeps the longest prefix of whole characters within the limit,
      giving up at most three bytes to do so. */
  method BoundedUtf8(text: seq<byte>, maxBytes: nat) returns (r: seq<byte>)
    requires Valid(text)
    ensures r <= text && |r| <= maxBytes && Valid(r)
    ensures forall k :: |r| < k <= maxBytes && k <= |text| ==> !Valid(text[..k])
    ensures |text| <= maxBytes ==> r == text
    ensures |text| > maxBytes ==> maxBytes - |r| <= 3
  {
    if |text| <= maxBytes {
      return text;
    }
    var boundary := maxBytes;
    while boundary > 0 && !IsBoundary(text, boundary)
      invariant 0 <= boundary <= maxBytes <= boundary + 3
      invariant forall k :: boundary < k <= maxBytes ==> !IsBoundary(text, k)
    {
      if boundary + 3 == maxBytes {
        NoFourTails(text, boundary);
        var k :| boundary <= k <= maxBytes && !IsTail(text[k]);
        assert IsBoundary(text, k);
      }
      boundary := boundary - 1;
    }
    SplitAtBoundary(text, boundary);
    r := text[..boundary];
    forall k | boundary < k <= maxBytes ensures !Valid(text[..k]) {
      if Valid(text[..k]) {
        ValidPrefixEndsAtBoundary(text, k);
      }
    }
  }

  method SanitizeRuntimeMessage(message: seq<byte>, findings: seq<Range>) returns (r: seq<byte>)
    requires Valid(message)
    ensures Valid(r) && |r| <= MAX_MESSAGE_BYTES
    ensures exists sorted :: && SortOf(UsableRanges(message, findings), sorted)
                             && r <= Render(message, Sweep(|message|, sorted, 0))
    ensures exists pieces :: r <= Render(message, pieces) && Redacts(message, findings, pieces)
  {
    var redacted := RedactSensitiveText(message, findings);
    r := BoundedUtf8(redacted, MAX_MESSAGE_BYTES);
  }
}
