/** Newline-delimited frames, bounded in size. */
module Frames {
  import opened Common
  import opened Utf8

  const MAX_FRAME_BYTES: nat := 1024 * 1024
  const LF: byte := 0x0A
  const CR: byte := 0x0D

  datatype FrameError = Oversized | InvalidUtf8

  type Frame = Result<Option<seq<byte>>, FrameError>

  /** How many bytes `read_until` takes: through the first newline, or all. */
  function LineLen(stream: seq<byte>): (n: nat)
    ensures n <= |stream| && (stream != [] ==> n > 0)
  {
    if stream == [] then 0 else if stream[0] == LF then 1 else 1 + LineLen(stream[1..])
  }

  function WithoutLast(s: seq<byte>, b: byte): seq<byte> {
    if s != [] && s[|s| - 1] == b then s[..|s| - 1] else s
  }

  function Trimmed(buffer: seq<byte>): Frame {
    var payload := WithoutLast(WithoutLast(buffer, LF), CR);
    if payload == [] then Ok(None)
    else if Valid(payload) then Ok(Some(payload))
    else Err(InvalidUtf8)
  }

  function NextFrame(stream: seq<byte>): (Frame, seq<byte>) {
    var n := LineLen(stream);
    if stream == [] then (Ok(None), [])
    else if n > MAX_FRAME_BYTES + 1 then (Err(Oversized), stream[n..])
    else (Trimmed(stream[..n]), stream[n..])
  }

  /** The payloads a connection delivers before it ends or fails. */
  function Delivered(stream: seq<byte>): seq<seq<byte>>
    decreases |stream|
  {
    var (frame, rest) := NextFrame(stream);
    if frame.Ok? && frame.value.Some? then [frame.value.value] + Delivered(rest) else []
  }

  function Encoded(payloads: seq<seq<byte>>): seq<byte> {
    if payloads == [] then [] else payloads[0] + [LF] + Encoded(payloads[1..])
  }

  predicate Sendable(payload: seq<byte>) {
    && payload != [] && |payload| <= MAX_FRAME_BYTES
    && LF !in payload && payload[|payload| - 1] != CR && Valid(payload)
  }

  lemma {:induction false} LineLenOf(payload: seq<byte>, rest: seq<byte>)
    ensures LF !in payload ==> LineLen(payload + [LF] + rest) == |payload| + 1
    ensures LF in payload ==> LineLen(payload + [LF] + rest) <= |payload|
  {
    var stream := payload + [LF] + rest;
    if payload != [] {
      assert stream[1..] == payload[1..] + [LF] + rest;
      LineLenOf(payload[1..], rest);
      assert LF in payload <==> payload[0] == LF || LF in payload[1..];
    }
  }

  /** A written payload is read back, leaving the rest of the stream, exactly
      when it is non-empty, free of newlines, within the limit, well-formed
      UTF-8 and not ending in a carriage return. */
  lemma FrameRoundTripsIff(payload: seq<byte>, rest: seq<byte>)
    ensures NextFrame(payload + [LF] + rest) == (Ok(Some(payload)), rest) <==> Sendable(payload)
  {
    var stream := payload + [LF] + rest;
    LineLenOf(payload, rest);
    var n := LineLen(stream);
    if LF !in payload {
      assert stream[..n] == payload + [LF] && stream[n..] == rest;
      assert (payload + [LF])[..|payload|] == payload;
      assert WithoutLast(payload + [LF], LF) == payload;
    } else {
      assert |stream[n..]| > |rest|;
    }
  }

  /** Any list of sendable payloads comes back as written, and the connection
      then ends: at the end of the stream, or at an empty line. */
  lemma {:induction false} ConnectionRoundTrips(payloads: seq<seq<byte>>, after: seq<byte>)
    requires forall p | p in payloads :: Sendable(p)
    requires after == [] || after[0] == LF
    ensures Delivered(Encoded(payloads) + after) == payloads
  {
    if payloads == [] {
      assert Encoded(payloads) + after == after;
      if after != [] {
        assert after[..1] == [LF];
        assert WithoutLast([LF], LF) == [];
      }
    } else {
      var rest := Encoded(payloads[1..]) + after;
      assert Encoded(payloads) + after == payloads[0] + [LF] + rest;
      FrameRoundTripsIff(payloads[0], rest);
      ConnectionRoundTrips(payloads[1..], after);
    }
  }

  /** The buffered read half of a connection. */
  class Reader {
    var stream: seq<byte>

    constructor (bytes: seq<byte>)
      ensures stream == bytes
    {
      stream := bytes;
    }

    method ReadUntilNewline(buffer: seq<byte>) returns (longer: seq<byte>, read: nat)
      modifies this
      ensures read == LineLen(old(stream))
      ensures longer == buffer + old(stream)[..read] && stream == old(stream)[read..]
    {
      longer, read := buffer, 0;
      while read < |stream| && (read == 0 || stream[read - 1] != LF)
        invariant read <= |stream| && stream == old(stream)
        invariant longer == buffer + stream[..read]
        invariant if read > 0 && stream[read - 1] == LF then LineLen(stream) == read
                  else LineLen(stream) == read + LineLen(stream[read..])
      {
        assert stream[read..][1..] == stream[read + 1..];
        longer := longer + [stream[read]];
        read := read + 1;
      }
      stream := stream[read..];
    }

    method ReadCappedLine() returns (frame: Frame)
      modifies this
      ensures (frame, stream) == NextFrame(old(stream))
    {
      var buffer := [];
      while true
        invariant if buffer == [] then stream == old(stream)
                  else stream == [] && buffer == old(stream) && buffer[|buffer| - 1] != LF
                       && LineLen(buffer) == |buffer| <= MAX_FRAME_BYTES + 1
        decreases |stream|
      {
        var read;
        buffer, read := ReadUntilNewline(buffer);
        if read == 0 {
          if buffer == [] {
            return Ok(None);
          }
          assert buffer[..|buffer|] == buffer;
          frame := TrimmedLine(buffer);
          return;
        }
        LineLenEnds(old(stream));
        if |buffer| > MAX_FRAME_BYTES + 1 {
          return Err(Oversized);
        }
        if buffer[|buffer| - 1] == LF {
          frame := TrimmedLine(buffer);
          return;
        }
      }
    }

    method TrimmedLine(line: seq<byte>) returns (frame: Frame)
      ensures frame == Trimmed(line)
    {
      var buffer := line;
      if |buffer| > 0 && buffer[|buffer| - 1] == LF {
        buffer := buffer[..|buffer| - 1];
      }
      if |buffer| > 0 && buffer[|buffer| - 1] == CR {
        buffer := buffer[..|buffer| - 1];
      }
      if |buffer| == 0 {
        return Ok(None);
      }
      frame := if Valid(buffer) then Ok(Some(buffer)) else Err(InvalidUtf8);
    }
  }

  lemma {:induction false} LineLenEnds(stream: seq<byte>)
    requires stream != []
    ensures stream[LineLen(stream) - 1] == LF || LineLen(stream) == |stream|
  {
    if stream[0] != LF && |stream| > 1 {
      LineLenEnds(stream[1..]);
    }
  }
}
