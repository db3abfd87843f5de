/** The serving loop waits for a frame and for an event at once. When an event
    comes first, what was read of an unfinished line is dropped. */
module FrameInterrupts {
  import opened Common
  import opened Frames
  import opened Utf8

  /** The bytes taken from the connection between one interruption and the next;
      the last segment ends with the stream. */
  type Segments = seq<seq<byte>>

  function Joined(segments: Segments): seq<byte> {
    if segments == [] then [] else segments[0] + Joined(segments[1..])
  }

  /** The lines of a segment that are finished. */
  function Finished(segment: seq<byte>): (r: seq<byte>)
    ensures r <= segment && LF !in segment[|r|..]
    ensures r == [] || r[|r| - 1] == LF
  {
    if segment == [] then []
    else
      var rest := Finished(segment[1..]);
      if rest != [] || segment[0] == LF then [segment[0]] + rest else []
  }

  /** What the loop gets to see of the stream. */
  function Kept(segments: Segments): seq<byte> {
    if segments == [] then []
    else if |segments| == 1 then segments[0]
    else Finished(segments[0]) + Kept(segments[1..])
  }

  /** The payloads delivered: finished lines of each segment in turn, until a
      frame ends or fails the connection. */
  function DeliveredAcross(segments: Segments): seq<seq<byte>>
    decreases |segments|, if segments == [] then 0 else |segments[0]|
  {
    if segments == [] then []
    else if |segments| == 1 then Delivered(segments[0])
    else if LF !in segments[0] then DeliveredAcross(segments[1..])
    else
      var (frame, rest) := NextFrame(segments[0]);
      if frame.Ok? && frame.value.Some? then [frame.value.value] + DeliveredAcross([rest] + segments[1..]) else []
  }

  lemma {:induction false} LineLenInPrefix(head: seq<byte>, tail: seq<byte>)
    requires LF in head
    ensures LineLen(head + tail) == LineLen(head) <= |head| && head[LineLen(head) - 1] == LF
  {
    assert (head + tail)[0] == head[0];
    if head[0] != LF {
      assert (head + tail)[1..] == head[1..] + tail;
      LineLenInPrefix(head[1..], tail);
    }
  }

  lemma FrameInPrefix(head: seq<byte>, tail: seq<byte>)
    requires LF in head
    ensures NextFrame(head + tail) == (NextFrame(head).0, NextFrame(head).1 + tail)
    ensures NextFrame(head).1 == head[LineLen(head)..]
  {
    LineLenInPrefix(head, tail);
    var n := LineLen(head);
    assert (head + tail)[..n] == head[..n] && (head + tail)[n..] == head[n..] + tail;
  }

  lemma FinishedCons(b: byte, rest: seq<byte>)
    ensures Finished([b] + rest)
         == if Finished(rest) != [] || b == LF then [b] + Finished(rest) else []
  {
    assert ([b] + rest)[1..] == rest;
  }

  lemma {:induction false} FinishedAfterLine(line: seq<byte>, rest: seq<byte>)
    requires line != [] && line[|line| - 1] == LF
    ensures Finished(line + rest) == line + Finished(rest)
    decreases |line|
  {
    var b, more := line[0], line[1..];
    FinishedCons(b, more + rest);
    ConsAppend(line, rest);
    if more == [] {
      assert more + rest == rest && line == [b];
    } else {
      FinishedAfterLine(more, rest);
      ConsAppend(line, Finished(rest));
    }
  }

  lemma ConsAppend(line: seq<byte>, rest: seq<byte>)
    requires line != []
    ensures line + rest == [line[0]] + (line[1..] + rest)
  {
  }

  lemma FinishedNone(segment: seq<byte>)
    requires LF !in segment
    ensures Finished(segment) == []
  {
    PrefixMember(Finished(segment), segment);
  }

  lemma PrefixMember(prefix: seq<byte>, s: seq<byte>)
    requires prefix <= s
    ensures prefix != [] ==> prefix[|prefix| - 1] in s
  {
    if prefix != [] { assert prefix[|prefix| - 1] == s[|prefix| - 1]; }
  }

  lemma LineOf(segment: seq<byte>)
    requires LF in segment
    ensures var line := segment[..LineLen(segment)];
            LF in line && line[|line| - 1] == LF && LineLen(line) == |line|
  {
    LineLenInPrefix(segment, []);
    var n := LineLen(segment);
    assert segment[..n][n - 1] == LF;
    assert segment == segment[..n] + segment[n..];
    LineLenInPrefix(segment[..n], segment[n..]);
  }

  lemma Associative(a: seq<byte>, b: seq<byte>, c: seq<byte>)
    ensures a + b + c == a + (b + c)
  {
  }

  lemma KeptCons(first: seq<byte>, others: Segments)
    requires others != []
    ensures Kept([first] + others) == Finished(first) + Kept(others)
  {
    assert ([first] + others)[1..] == others;
  }

  lemma KeptAfterLine(line: seq<byte>, rest: seq<byte>, others: Segments)
    requires line != [] && line[|line| - 1] == LF && others != []
    ensures Kept([line + rest] + others) == line + Kept([rest] + others)
  {
    KeptCons(line + rest, others);
    KeptCons(rest, others);
    FinishedAfterLine(line, rest);
    Associative(line, Finished(rest), Kept(others));
  }

  lemma FrameOfLine(line: seq<byte>, rest: seq<byte>)
    requires LF in line && LineLen(line) == |line|
    ensures NextFrame(line + rest) == (NextFrame(line).0, rest)
  {
    FrameInPrefix(line, rest);
    assert line[|line|..] + rest == rest;
  }

  /** The first line of a segment with one, and what the loop sees after it. */
  lemma FirstLine(segments: Segments)
    requires |segments| > 1 && LF in segments[0]
    ensures var rest := NextFrame(segments[0]).1;
            && |rest| < |segments[0]|
            && NextFrame(Kept(segments)) == (NextFrame(segments[0]).0, Kept([rest] + segments[1..]))
  {
    var first, others := segments[0], segments[1..];
    var n := LineLen(first);
    var line, rest := first[..n], first[n..];
    LineOf(first);
    assert first == line + rest;
    assert segments == [line + rest] + others;
    KeptAfterLine(line, rest, others);
    FrameOfLine(line, rest);
    FrameOfLine(line, Kept([rest] + others));
  }

  /** Interrupted or not, the loop delivers what the kept bytes hold. */
  lemma {:induction false} DeliversWhatIsKept(segments: Segments)
    ensures DeliveredAcross(segments) == Delivered(Kept(segments))
    decreases |segments|, if segments == [] then 0 else |segments[0]|
  {
    if |segments| > 1 {
      if LF !in segments[0] {
        FinishedNone(segments[0]);
        DeliversWhatIsKept(segments[1..]);
        assert [] + Kept(segments[1..]) == Kept(segments[1..]);
      } else {
        FirstLine(segments);
        DeliversWhatIsKept([NextFrame(segments[0]).1] + segments[1..]);
      }
    }
  }

  predicate LineEnds(s: seq<byte>) {
    s == [] || s[|s| - 1] == LF
  }

  /** Every interruption came between two lines. */
  predicate CutsBetweenLines(segments: Segments) {
    forall i | 0 <= i < |segments| - 1 :: LineEnds(segments[i])
  }

  lemma FinishedAll(segment: seq<byte>)
    ensures |Finished(segment)| == |segment| <==> LineEnds(segment)
    ensures LineEnds(segment) ==> Finished(segment) == segment
  {
    var r := Finished(segment);
    assert r == segment[..|r|];
    if segment != [] && |r| < |segment| { assert segment[|segment| - 1] == segment[|r|..][|segment| - 1 - |r|]; }
    if |r| == |segment| { assert segment[..|r|] == segment; }
  }

  lemma {:induction false} KeptAllIff(segments: Segments)
    ensures |Kept(segments)| <= |Joined(segments)|
    ensures |Kept(segments)| == |Joined(segments)| <==> CutsBetweenLines(segments)
    ensures CutsBetweenLines(segments) ==> Kept(segments) == Joined(segments)
    decreases |segments|
  {
    if |segments| == 1 {
      assert Joined(segments[1..]) == [] && segments[0] + [] == segments[0];
    } else if |segments| > 1 {
      FinishedAll(segments[0]);
      KeptAllIff(segments[1..]);
      assert forall i | 0 < i < |segments| :: segments[i] == segments[1..][i - 1];
      assert CutsBetweenLines(segments) <==> LineEnds(segments[0]) && CutsBetweenLines(segments[1..]);
    }
  }

  /** The bytes that writing the payloads takes. */
  function Weight(payloads: seq<seq<byte>>): nat {
    if payloads == [] then 0 else |payloads[0]| + 1 + Weight(payloads[1..])
  }

  lemma {:induction false} EncodedWeight(payloads: seq<seq<byte>>)
    ensures |Encoded(payloads)| == Weight(payloads) && LineEnds(Encoded(payloads))
  {
    if payloads != [] {
      EncodedWeight(payloads[1..]);
      var rest := Encoded(payloads[1..]);
      assert Encoded(payloads) == payloads[0] + [LF] + rest;
    }
  }

  lemma {:induction false} DeliveredWeight(stream: seq<byte>)
    requires LineEnds(stream)
    ensures Weight(Delivered(stream)) <= |stream|
    decreases |stream|
  {
    if stream != [] {
      LineLenEnds(stream);
      var n := LineLen(stream);
      DeliveredWeight(stream[n..]);
      TrimmedIsShorter(stream[..n]);
    }
  }

  lemma TrimmedIsShorter(line: seq<byte>)
    requires line != [] && line[|line| - 1] == LF
    ensures var frame := Trimmed(line);
            frame.Ok? && frame.value.Some? ==> |frame.value.value| < |line|
  {
  }

  lemma {:induction false} KeptLineEnds(segments: Segments)
    requires LineEnds(Joined(segments))
    ensures LineEnds(Kept(segments))
    decreases |segments|
  {
    if |segments| == 1 {
      assert Joined(segments[1..]) == [] && segments[0] + [] == segments[0];
    } else if |segments| > 1 {
      var rest := Joined(segments[1..]);
      assert rest != [] ==> rest[|rest| - 1] == Joined(segments)[|Joined(segments)| - 1];
      KeptLineEnds(segments[1..]);
    }
  }

  /** However the writing of some sendable payloads is cut up by events, they all
      come back as written exactly when every interruption came between lines. */
  lemma InterruptedRoundTripsIff(payloads: seq<seq<byte>>, segments: Segments)
    requires (forall p | p in payloads :: Sendable(p)) && Joined(segments) == Encoded(payloads)
    ensures DeliveredAcross(segments) == payloads <==> CutsBetweenLines(segments)
  {
    DeliversWhatIsKept(segments);
    KeptAllIff(segments);
    EncodedWeight(payloads);
    KeptLineEnds(segments);
    DeliveredWeight(Kept(segments));
    if CutsBetweenLines(segments) {
      ConnectionRoundTrips(payloads, []);
      assert Encoded(payloads) + [] == Encoded(payloads);
    }
  }

  lemma EncodedOne(payload: seq<byte>)
    ensures Encoded([payload]) == payload + [LF]
  {
    assert [payload][1..] == [];
  }

  lemma JoinedTwo(first: seq<byte>, second: seq<byte>)
    ensures Joined([first, second]) == first + second
  {
    assert [first, second][1..] == [second] && [second][1..] == [];
    assert Joined([second]) == second;
  }

  /** An interruption in the middle of a line: the second half comes as a frame. */
  lemma HalfReadFrameIsLost(head: seq<byte>, tail: seq<byte>)
    requires head != [] && Sendable(head + tail) && Sendable(tail)
    ensures Joined([head, tail + [LF]]) == Encoded([head + tail])
    ensures DeliveredAcross([head, tail + [LF]]) == [tail]
  {
    EncodedOne(head + tail);
    EncodedOne(tail);
    JoinedTwo(head, tail + [LF]);
    Associative(head, tail, [LF]);
    ConnectionRoundTrips([tail], []);
    assert Encoded([tail]) + [] == Encoded([tail]);
    assert [head, tail + [LF]][1..] == [tail + [LF]];
    assert forall b | b in head :: b in head + tail;
  }

  /** The loop itself, with what was read of a line dropped at each interruption. */
  method Serve(segments: Segments) returns (payloads: seq<seq<byte>>)
    ensures payloads == DeliveredAcross(segments)
  {
    payloads := [];
    var left := segments;
    while left != []
      invariant payloads + DeliveredAcross(left) == DeliveredAcross(segments)
      decreases |left|, if left == [] then 0 else |left[0]|
    {
      if |left| > 1 && LF !in left[0] {
        left := left[1..];
      } else {
        var reader := new Reader(left[0]);
        var frame := reader.ReadCappedLine();
        if frame.Err? || frame.value.None? { return; }
        payloads := payloads + [frame.value.value];
        left := [reader.stream] + left[1..];
      }
    }
  }
}
