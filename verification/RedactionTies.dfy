/** When the outcome of a redaction depends on how the sort by start breaks ties. */
module RedactionTies {
  import opened Common
  import opened Redaction

  /** The ranges that get a marker: those that reach past everything before them. */
  function Records(ranges: seq<Range>, cursor: nat): seq<Range> {
    if ranges == [] then []
    else if ranges[0].end <= cursor then Records(ranges[1..], cursor)
    else [ranges[0]] + Records(ranges[1..], ranges[0].end)
  }

  /** The other ranges leave no trace in the sweep. */
  lemma {:induction false} SweepOfRecords(length: nat, ranges: seq<Range>, cursor: nat)
    ensures Sweep(length, ranges, cursor) == Sweep(length, Records(ranges, cursor), cursor)
    decreases |ranges|
  {
    if ranges != [] {
      if ranges[0].end <= cursor {
        SweepOfRecords(length, ranges[1..], cursor);
      } else {
        SweepOfRecords(length, ranges[1..], ranges[0].end);
        assert Records(ranges, cursor)[1..] == Records(ranges[1..], ranges[0].end);
      }
    }
  }

  /** `r` is at `i`, and everything before it ends earlier. */
  ghost predicate RecordAt(ranges: seq<Range>, r: Range, i: int) {
    0 <= i < |ranges| && ranges[i] == r && forall j | 0 <= j < i :: ranges[j].end < r.end
  }

  lemma {:induction false} RecordsIff(ranges: seq<Range>, cursor: nat, r: Range)
    ensures r in Records(ranges, cursor) <==> r.end > cursor && exists i :: RecordAt(ranges, r, i)
    decreases |ranges|
  {
    if ranges != [] {
      var first, rest := ranges[0], ranges[1..];
      RecordsIff(rest, if first.end <= cursor then cursor else first.end, r);
      if i :| RecordAt(rest, r, i) {
        assert first.end < r.end ==> RecordAt(ranges, r, i + 1) by {
          assert forall j | 0 < j < i + 1 :: ranges[j] == rest[j - 1];
        }
      }
      if i :| RecordAt(ranges, r, i) {
        if i > 0 { assert RecordAt(rest, r, i - 1); }
      }
      if first == r { assert RecordAt(ranges, r, 0); }
    }
  }

  /** Some range that starts earlier reaches at least as far. */
  ghost predicate Hidden(ranges: seq<Range>, r: Range) {
    exists p :: p in ranges && p.start < r.start && r.end <= p.end
  }

  /** Of two ranges with one start, the shorter is hidden. */
  ghost predicate TiesHidden(ranges: seq<Range>) {
    forall r, q | r in ranges && q in ranges && r.start == q.start && r.end < q.end :: Hidden(ranges, r)
  }

  lemma RecordIsNotHidden(sorted: seq<Range>, r: Range, i: int)
    requires SortedByStart(sorted) && RecordAt(sorted, r, i)
    ensures !Hidden(sorted, r)
  {
    forall p | p in sorted && p.start < r.start ensures p.end < r.end {
      var j :| 0 <= j < |sorted| && sorted[j] == p;
      assert j < i;
    }
  }

  lemma LongestIsRecord(sorted: seq<Range>, r: Range)
    requires SortedByStart(sorted) && r in sorted && !Hidden(sorted, r)
    requires forall q | q in sorted && q.start == r.start :: q.end <= r.end
    ensures exists i :: RecordAt(sorted, r, i)
  {
    var i := FirstIndex(sorted, r);
    forall j | 0 <= j < i ensures sorted[j].end < r.end {
      assert sorted[j] in sorted && sorted[j].start <= r.start;
    }
    assert RecordAt(sorted, r, i);
  }

  lemma {:induction false} FirstIndex(ranges: seq<Range>, r: Range) returns (i: nat)
    requires r in ranges
    ensures i < |ranges| && ranges[i] == r && r !in ranges[..i]
  {
    if ranges[0] == r {
      i := 0;
    } else {
      var k := FirstIndex(ranges[1..], r);
      i := k + 1;
      assert ranges[..i] == [ranges[0]] + ranges[1..][..k];
    }
  }

  /** If ties are hidden, the records are the ranges that are not. */
  lemma RecordsAreTheUnhidden(sorted: seq<Range>, r: Range)
    requires SortedByStart(sorted) && TiesHidden(sorted) && r.start < r.end
    ensures r in Records(sorted, 0) <==> r in sorted && !Hidden(sorted, r)
  {
    RecordsIff(sorted, 0, r);
    if i :| RecordAt(sorted, r, i) { RecordIsNotHidden(sorted, r, i); }
    if r in sorted && !Hidden(sorted, r) { LongestIsRecord(sorted, r); }
  }

  ghost predicate Rising(ranges: seq<Range>) {
    forall i, j :: 0 <= i < j < |ranges| ==> ranges[i].start <= ranges[j].start && ranges[i].end < ranges[j].end
  }

  lemma {:induction false} RecordsMembers(ranges: seq<Range>, cursor: nat)
    ensures forall r | r in Records(ranges, cursor) :: r in ranges && r.end > cursor
    decreases |ranges|
  {
    if ranges != [] {
      RecordsMembers(ranges[1..], if ranges[0].end <= cursor then cursor else ranges[0].end);
    }
  }

  lemma {:induction false} RecordsRise(sorted: seq<Range>, cursor: nat)
    requires SortedByStart(sorted)
    ensures Rising(Records(sorted, cursor))
    decreases |sorted|
  {
    if sorted != [] {
      var next := if sorted[0].end <= cursor then cursor else sorted[0].end;
      RecordsRise(sorted[1..], next);
      RecordsMembers(sorted[1..], next);
    }
  }

  ghost predicate StrictlyByStart(ranges: seq<Range>) {
    forall i, j :: 0 <= i < j < |ranges| ==> ranges[i].start < ranges[j].start
  }

  lemma RecordsStrict(sorted: seq<Range>)
    requires SortedByStart(sorted) && TiesHidden(sorted) && forall r | r in sorted :: r.start < r.end
    ensures StrictlyByStart(Records(sorted, 0))
  {
    var records := Records(sorted, 0);
    RecordsRise(sorted, 0);
    RecordsMembers(sorted, 0);
    forall i, j | 0 <= i < j < |records| ensures records[i].start < records[j].start {
      if records[i].start == records[j].start {
        assert records[i] in records && records[j] in records;
        RecordsAreTheUnhidden(sorted, records[i]);
      }
    }
  }

  lemma FirstIsMember(ranges: seq<Range>)
    ensures ranges != [] ==> ranges[0] in ranges
  {
  }

  lemma {:induction false} SameMembersSameOrder(a: seq<Range>, b: seq<Range>)
    requires StrictlyByStart(a) && StrictlyByStart(b) && forall r :: r in a <==> r in b
    ensures a == b
    decreases |a|
  {
    if a == [] {
      FirstIsMember(b);
    } else {
      assert a[0] in b && b != [] && b[0] in a;
      var i :| 0 <= i < |b| && b[i] == a[0];
      var j :| 0 <= j < |a| && a[j] == b[0];
      assert a[0] == b[0];
      forall r ensures r in a[1..] <==> r in b[1..] {
        RestMembers(a, r);
        RestMembers(b, r);
      }
      SameMembersSameOrder(a[1..], b[1..]);
      assert a == [a[0]] + a[1..] && b == [b[0]] + b[1..];
    }
  }

  lemma RestMembers(a: seq<Range>, r: Range)
    requires StrictlyByStart(a) && a != []
    ensures r in a[1..] <==> r in a && r != a[0]
  {
    if r in a && r != a[0] {
      var i :| 0 <= i < |a| && a[i] == r;
      assert a[1..][i - 1] == r;
    }
  }

  lemma HiddenTiesDoNotMatter(length: nat, ranges: seq<Range>, a: seq<Range>, b: seq<Range>)
    requires (forall r | r in ranges :: r.start < r.end) && TiesHidden(ranges)
    requires SortOf(ranges, a) && SortOf(ranges, b)
    ensures Sweep(length, a, 0) == Sweep(length, b, 0)
  {
    SortKeepsMembers(ranges, a);
    SortKeepsMembers(ranges, b);
    SameHiding(ranges, a);
    SameHiding(ranges, b);
    RecordsStrict(a);
    RecordsStrict(b);
    RecordsMembers(a, 0);
    RecordsMembers(b, 0);
    forall r ensures r in Records(a, 0) <==> r in Records(b, 0) {
      if r.start < r.end {
        RecordsAreTheUnhidden(a, r);
        RecordsAreTheUnhidden(b, r);
      }
    }
    SameMembersSameOrder(Records(a, 0), Records(b, 0));
    SweepOfRecords(length, a, 0);
    SweepOfRecords(length, b, 0);
  }

  lemma SameHiding(a: seq<Range>, b: seq<Range>)
    requires forall r :: r in a <==> r in b
    ensures forall r :: Hidden(a, r) <==> Hidden(b, r)
    ensures TiesHidden(a) <==> TiesHidden(b)
  {
  }

  // The converse: a tie that is not hidden gives two different sweeps.

  ghost predicate TextFrom(pieces: seq<Piece>, at: nat) {
    exists p :: p in pieces && p.Text? && p.lo == at
  }

  lemma {:induction false} SweepStartsAtCursor(length: nat, ranges: seq<Range>, cursor: nat)
    ensures TextFrom(Sweep(length, ranges, cursor), cursor)
    decreases |ranges|
  {
    if ranges != [] && ranges[0].end <= cursor {
      SweepStartsAtCursor(length, ranges[1..], cursor);
    } else if ranges == [] {
      assert Text(cursor, length) in Sweep(length, ranges, cursor);
    } else {
      assert Sweep(length, ranges, cursor)[0] == Text(cursor, Max(ranges[0].start, cursor));
    }
  }

  /** After the first, each stretch of text starts where a record ends. */
  lemma {:induction false} TextFollowsRecords(length: nat, ranges: seq<Range>, cursor: nat, at: nat)
    requires at > cursor
    ensures TextFrom(Sweep(length, ranges, cursor), at)
       <==> exists r :: r in Records(ranges, cursor) && r.end == at
    decreases |ranges|
  {
    if ranges != [] {
      var first, rest := ranges[0], ranges[1..];
      if first.end <= cursor {
        TextFollowsRecords(length, rest, cursor, at);
      } else {
        var head := [Text(cursor, Max(first.start, cursor)), Marker];
        var tail := Sweep(length, rest, first.end);
        assert forall p :: p in head + tail <==> p in head || p in tail;
        assert TextFrom(head + tail, at) <==> TextFrom(tail, at);
        RecordsMembers(rest, first.end);
        SweepStaysBehind(length, rest, first.end);
        if at == first.end {
          SweepStartsAtCursor(length, rest, first.end);
          assert first in Records(ranges, cursor);
        } else if at > first.end {
          TextFollowsRecords(length, rest, first.end, at);
        }
      }
    }
  }

  lemma {:induction false} SweepStaysBehind(length: nat, ranges: seq<Range>, cursor: nat)
    ensures forall p | p in Sweep(length, ranges, cursor) && p.Text? :: p.lo >= cursor
    decreases |ranges|
  {
    if ranges != [] {
      SweepStaysBehind(length, ranges[1..], if ranges[0].end <= cursor then cursor else ranges[0].end);
    }
  }

  /** A sort in which `r` comes before every other range with its start. */
  lemma SortWithFirst(ranges: seq<Range>, r: Range) returns (sorted: seq<Range>, i: nat)
    requires r in ranges
    ensures SortOf(ranges, sorted) && i < |sorted| && sorted[i] == r
    ensures forall j | 0 <= j < i :: sorted[j].start < r.start
  {
    var k :| 0 <= k < |ranges| && ranges[k] == r;
    var others := ranges[..k] + ranges[k + 1..];
    assert ranges == ranges[..k] + [r] + ranges[k + 1..];
    SortedIsSort(others);
    InsertedMultiset(r, Sorted(others));
    InsertedIsSorted(r, Sorted(others));
    sorted := Inserted(r, Sorted(others));
    i := InsertedPosition(r, Sorted(others));
  }

  lemma {:induction false} InsertedPosition(r: Range, sorted: seq<Range>) returns (i: nat)
    ensures i < |Inserted(r, sorted)| && Inserted(r, sorted)[i] == r
    ensures forall j | 0 <= j < i :: Inserted(r, sorted)[j].start < r.start
  {
    if sorted == [] || r.start <= sorted[0].start {
      i := 0;
    } else {
      var k := InsertedPosition(r, sorted[1..]);
      i := k + 1;
      assert forall j | 0 < j < i :: Inserted(r, sorted)[j] == Inserted(r, sorted[1..])[j - 1];
    }
  }

  lemma OpenTieMatters(length: nat, ranges: seq<Range>, r: Range, q: Range)
    returns (a: seq<Range>, b: seq<Range>)
    requires forall x | x in ranges :: x.start < x.end
    requires r in ranges && q in ranges && r.start == q.start && r.end < q.end && !Hidden(ranges, r)
    ensures SortOf(ranges, a) && SortOf(ranges, b) && Sweep(length, a, 0) != Sweep(length, b, 0)
  {
    var i, k;
    a, i := SortWithFirst(ranges, r);
    b, k := SortWithFirst(ranges, q);
    SortKeepsMembers(ranges, a);
    SortKeepsMembers(ranges, b);
    forall j | 0 <= j < i ensures a[j].end < r.end {
      assert a[j] in a;
    }
    assert RecordAt(a, r, i);
    RecordsIff(a, 0, r);
    TextFollowsRecords(length, a, 0, r.end);
    forall x | x in Records(b, 0) ensures x.end != r.end {
      RecordsIff(b, 0, x);
      var n :| RecordAt(b, x, n);
      assert b[n] in b;
      assert n < k ==> b[n].start < q.start;
    }
    TextFollowsRecords(length, b, 0, r.end);
  }

  /** The sweep is the same for every way of breaking ties exactly when, of any
      two findings with one start, the shorter is hidden by one that starts earlier. */
  lemma TiesDoNotMatterIff(length: nat, ranges: seq<Range>)
    requires forall r | r in ranges :: r.start < r.end <= length
    ensures (forall a, b | SortOf(ranges, a) && SortOf(ranges, b) :: Sweep(length, a, 0) == Sweep(length, b, 0))
       <==> TiesHidden(ranges)
  {
    if TiesHidden(ranges) {
      forall a, b | SortOf(ranges, a) && SortOf(ranges, b) ensures Sweep(length, a, 0) == Sweep(length, b, 0) {
        HiddenTiesDoNotMatter(length, ranges, a, b);
      }
    } else {
      var r, q :| r in ranges && q in ranges && r.start == q.start && r.end < q.end && !Hidden(ranges, r);
      var a, b := OpenTieMatters(length, ranges, r, q);
    }
  }

  // The text itself: a tie that is not hidden can add a marker and so lengthen it.

  function TextLength(pieces: seq<Piece>): nat {
    if pieces == [] then 0
    else (if pieces[0].Text? && pieces[0].lo <= pieces[0].hi then pieces[0].hi - pieces[0].lo else 0)
         + TextLength(pieces[1..])
  }

  function Markers(pieces: seq<Piece>): nat {
    if pieces == [] then 0 else (if pieces[0].Marker? then 1 else 0) + Markers(pieces[1..])
  }

  lemma {:induction false} RenderedLength(text: seq<byte>, pieces: seq<Piece>, at: nat)
    requires InOrder(pieces, at, |text|)
    ensures at <= |text| && |Render(text, pieces)| == TextLength(pieces) + |MARKER| * Markers(pieces)
    decreases |pieces|
  {
    if pieces != [] {
      RenderedLength(text, pieces[1..], if pieces[0].Text? then pieces[0].hi else at);
    }
  }

  /** How many of the positions from `lo` to `hi` no range covers. */
  function Uncovered(ranges: seq<Range>, lo: nat, hi: nat): nat
    decreases hi - lo
  {
    if lo >= hi then 0 else (if Covered(ranges, lo) then 0 else 1) + Uncovered(ranges, lo + 1, hi)
  }

  lemma {:induction false} UncoveredAgrees(a: seq<Range>, b: seq<Range>, lo: nat, hi: nat)
    requires forall i | lo <= i < hi :: Covered(a, i) <==> Covered(b, i)
    ensures Uncovered(a, lo, hi) == Uncovered(b, lo, hi)
    decreases hi - lo
  {
    if lo < hi { UncoveredAgrees(a, b, lo + 1, hi); }
  }

  lemma {:induction false} UncoveredSplits(ranges: seq<Range>, lo: nat, mid: nat, hi: nat)
    requires lo <= mid <= hi
    ensures Uncovered(ranges, lo, hi) == Uncovered(ranges, lo, mid) + Uncovered(ranges, mid, hi)
    decreases mid - lo
  {
    if lo < mid { UncoveredSplits(ranges, lo + 1, mid, hi); }
  }

  lemma {:induction false} AllOrNoneCovered(ranges: seq<Range>, lo: nat, hi: nat, covered: bool)
    requires lo <= hi && forall i | lo <= i < hi :: Covered(ranges, i) == covered
    ensures Uncovered(ranges, lo, hi) == if covered then 0 else hi - lo
    decreases hi - lo
  {
    if lo < hi { AllOrNoneCovered(ranges, lo + 1, hi, covered); }
  }

  lemma UncoveredByFirst(sorted: seq<Range>, cursor: nat, length: nat)
    requires SortedByStart(sorted) && sorted != [] && cursor < sorted[0].end <= length
    requires sorted[0].start <= sorted[0].end
    ensures Uncovered(sorted, cursor, length)
         == Max(sorted[0].start, cursor) - cursor + Uncovered(sorted[1..], sorted[0].end, length)
  {
    var first, rest := sorted[0], sorted[1..];
    var from: nat := Max(first.start, cursor);
    UncoveredSplits(sorted, cursor, from, length);
    UncoveredSplits(sorted, from, first.end, length);
    AllOrNoneCovered(sorted, cursor, from, false);
    assert first in sorted;
    AllOrNoneCovered(sorted, from, first.end, true);
    forall i: nat | first.end <= i < length ensures Covered(sorted, i) <==> Covered(rest, i) {
      CoveredByRest(sorted, i);
    }
    UncoveredAgrees(sorted, rest, first.end, length);
  }

  lemma TextThenMarker(lo: nat, hi: nat, tail: seq<Piece>)
    requires lo <= hi
    ensures TextLength([Text(lo, hi), Marker] + tail) == hi - lo + TextLength(tail)
    ensures Markers([Text(lo, hi), Marker] + tail) == 1 + Markers(tail)
  {
    assert ([Text(lo, hi), Marker] + tail)[1..] == [Marker] + tail;
    assert ([Marker] + tail)[1..] == tail;
  }

  lemma UncoveredWithoutFirst(sorted: seq<Range>, cursor: nat, length: nat)
    requires sorted != [] && sorted[0].end <= cursor
    ensures Uncovered(sorted, cursor, length) == Uncovered(sorted[1..], cursor, length)
  {
    forall i: nat | cursor <= i < length ensures Covered(sorted, i) <==> Covered(sorted[1..], i) {
      CoveredByRest(sorted, i);
    }
    UncoveredAgrees(sorted, sorted[1..], cursor, length);
  }

  lemma {:induction false} SweptTextLength(length: nat, sorted: seq<Range>, cursor: nat)
    requires cursor <= length && SortedByStart(sorted) && Within(sorted, length)
    ensures TextLength(Sweep(length, sorted, cursor)) == Uncovered(sorted, cursor, length)
    decreases |sorted|
  {
    if sorted == [] {
      AllOrNoneCovered([], cursor, length, false);
      assert [Text(cursor, length)][1..] == [];
    } else {
      var first, rest := sorted[0], sorted[1..];
      assert sorted == [first] + rest && first in sorted;
      if first.end <= cursor {
        SweptTextLength(length, rest, cursor);
        UncoveredWithoutFirst(sorted, cursor, length);
      } else {
        SweptTextLength(length, rest, first.end);
        UncoveredByFirst(sorted, cursor, length);
        TextThenMarker(cursor, Max(first.start, cursor), Sweep(length, rest, first.end));
      }
    }
  }

  lemma {:induction false} SweptMarkers(length: nat, ranges: seq<Range>, cursor: nat)
    ensures Markers(Sweep(length, ranges, cursor)) == |Records(ranges, cursor)|
    decreases |ranges|
  {
    if ranges == [] {
      assert [Text(cursor, length)][1..] == [];
    } else if ranges[0].end <= cursor {
      SweptMarkers(length, ranges[1..], cursor);
    } else {
      SweptMarkers(length, ranges[1..], ranges[0].end);
      TextThenMarker(cursor, Max(ranges[0].start, cursor), Sweep(length, ranges[1..], ranges[0].end));
    }
  }

  /** The redacted text is as long as what no finding covers, and a marker more for
      each record. */
  lemma RedactedLength(text: seq<byte>, ranges: seq<Range>, sorted: seq<Range>)
    requires Within(ranges, |text|) && SortOf(ranges, sorted)
    ensures |Render(text, Sweep(|text|, sorted, 0))|
         == Uncovered(ranges, 0, |text|) + |MARKER| * |Records(sorted, 0)|
  {
    SortKeepsMembers(ranges, sorted);
    SweepKeepsOrder(|text|, sorted, 0);
    RenderedLength(text, Sweep(|text|, sorted, 0), 0);
    SweptTextLength(|text|, sorted, 0);
    SweptMarkers(|text|, sorted, 0);
    UncoveredAgrees(ranges, sorted, 0, |text|);
  }

  // A sort that puts the longest of each tie first has the fewest records.

  predicate Precedes(x: Range, y: Range) {
    x.start < y.start || (x.start == y.start && x.end >= y.end)
  }

  ghost predicate LongestFirst(ranges: seq<Range>) {
    forall i, j :: 0 <= i < j < |ranges| ==> Precedes(ranges[i], ranges[j])
  }

  function Placed(r: Range, sorted: seq<Range>): seq<Range> {
    if sorted == [] || Precedes(r, sorted[0]) then [r] + sorted else [sorted[0]] + Placed(r, sorted[1..])
  }

  lemma {:induction false} PlacedMultiset(r: Range, sorted: seq<Range>)
    ensures multiset(Placed(r, sorted)) == multiset(sorted) + multiset{r}
    decreases |sorted|
  {
    if sorted != [] && !Precedes(r, sorted[0]) {
      assert sorted == [sorted[0]] + sorted[1..];
      PlacedMultiset(r, sorted[1..]);
    }
  }

  lemma PlacedMembers(r: Range, sorted: seq<Range>, x: Range)
    requires x in Placed(r, sorted)
    ensures x in sorted || x == r
  {
    PlacedMultiset(r, sorted);
    assert x in multiset(Placed(r, sorted));
  }

  lemma {:induction false} PlacedKeepsOrder(r: Range, sorted: seq<Range>)
    requires LongestFirst(sorted)
    ensures LongestFirst(Placed(r, sorted))
    decreases |sorted|
  {
    if sorted != [] && !Precedes(r, sorted[0]) {
      var placed := Placed(r, sorted[1..]);
      PlacedKeepsOrder(r, sorted[1..]);
      forall x | x in placed ensures Precedes(sorted[0], x) { PlacedMembers(r, sorted[1..], x); }
    }
  }

  lemma {:induction false} LongestFirstSort(ranges: seq<Range>) returns (sorted: seq<Range>)
    ensures SortOf(ranges, sorted) && LongestFirst(sorted)
    decreases |ranges|
  {
    if ranges == [] {
      sorted := [];
    } else {
      var rest := LongestFirstSort(ranges[1..]);
      assert ranges == [ranges[0]] + ranges[1..];
      PlacedMultiset(ranges[0], rest);
      PlacedKeepsOrder(ranges[0], rest);
      sorted := Placed(ranges[0], rest);
    }
  }

  lemma FewestRecords(few: seq<Range>, sorted: seq<Range>, x: Range)
    requires LongestFirst(few) && SortedByStart(few) && SortedByStart(sorted)
    requires forall r :: r in few <==> r in sorted
    requires x in Records(few, 0)
    ensures x in Records(sorted, 0)
    ensures forall y | y in few && y.start == x.start :: y.end <= x.end
  {
    RecordsIff(few, 0, x);
    var n :| RecordAt(few, x, n);
    RecordIsNotHidden(few, x, n);
    forall y | y in few && y.start == x.start ensures y.end <= x.end {
      var m :| 0 <= m < |few| && few[m] == y;
    }
    assert few[n] in few;
    LongestIsRecord(sorted, x);
    RecordsIff(sorted, 0, x);
  }

  ghost predicate NoTwice(s: seq<Range>) {
    forall i, j :: 0 <= i < j < |s| ==> s[i] != s[j]
  }

  function Members(s: seq<Range>): set<Range> { set r | r in s }

  lemma {:induction false} SizeOfMembers(s: seq<Range>)
    requires NoTwice(s)
    ensures |Members(s)| == |s|
  {
    if s != [] {
      SizeOfMembers(s[1..]);
      assert s == [s[0]] + s[1..];
      assert Members(s) == Members(s[1..]) + {s[0]};
      assert s[0] !in s[1..];
    }
  }

  lemma ProperMembers(a: seq<Range>, b: seq<Range>, r: Range)
    requires NoTwice(a) && NoTwice(b) && (forall x | x in b :: x in a) && r in a && r !in b
    ensures |b| < |a|
  {
    SizeOfMembers(a);
    SizeOfMembers(b);
    assert Members(b) + (Members(a) - Members(b)) == Members(a);
    assert r in Members(a) - Members(b);
  }

  lemma OpenTieAddsMarker(ranges: seq<Range>, r: Range, q: Range)
    returns (a: seq<Range>, b: seq<Range>)
    requires forall x | x in ranges :: x.start < x.end
    requires r in ranges && q in ranges && r.start == q.start && r.end < q.end && !Hidden(ranges, r)
    ensures SortOf(ranges, a) && SortOf(ranges, b) && |Records(b, 0)| < |Records(a, 0)|
  {
    var i;
    a, i := SortWithFirst(ranges, r);
    b := LongestFirstSort(ranges);
    SortKeepsMembers(ranges, a);
    SortKeepsMembers(ranges, b);
    forall j | 0 <= j < i ensures a[j].end < r.end {
      assert a[j] in a;
    }
    assert RecordAt(a, r, i);
    RecordsIff(a, 0, r);
    forall x | x in Records(b, 0) ensures x in Records(a, 0) && x != r { FewestRecords(b, a, x); }
    RecordsRise(a, 0);
    RecordsRise(b, 0);
    ProperMembers(Records(a, 0), Records(b, 0), r);
  }

  lemma OpenTieChangesText(text: seq<byte>, ranges: seq<Range>) returns (a: seq<Range>, b: seq<Range>)
    requires (forall r | r in ranges :: r.start < r.end <= |text|) && !TiesHidden(ranges)
    ensures SortOf(ranges, a) && SortOf(ranges, b)
    ensures |Render(text, Sweep(|text|, a, 0))| > |Render(text, Sweep(|text|, b, 0))|
  {
    var r, q :| r in ranges && q in ranges && r.start == q.start && r.end < q.end && !Hidden(ranges, r);
    a, b := OpenTieAddsMarker(ranges, r, q);
    RedactedLength(text, ranges, a);
    RedactedLength(text, ranges, b);
  }

  /** The redacted text, too, is the same for every way of breaking ties on just that
      condition, whatever the text. */
  lemma RedactedTextIgnoresTiesIff(text: seq<byte>, ranges: seq<Range>)
    requires forall r | r in ranges :: r.start < r.end <= |text|
    ensures (forall a, b | SortOf(ranges, a) && SortOf(ranges, b) ::
               Render(text, Sweep(|text|, a, 0)) == Render(text, Sweep(|text|, b, 0)))
       <==> TiesHidden(ranges)
  {
    if TiesHidden(ranges) {
      forall a, b | SortOf(ranges, a) && SortOf(ranges, b)
        ensures Render(text, Sweep(|text|, a, 0)) == Render(text, Sweep(|text|, b, 0))
      {
        HiddenTiesDoNotMatter(|text|, ranges, a, b);
      }
    } else {
      var a, b := OpenTieChangesText(text, ranges);
    }
  }
}
