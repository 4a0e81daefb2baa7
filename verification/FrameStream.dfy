/** Reading W3GS frames from a byte stream that hands out its bytes in arbitrary chunks. */
module FrameStream {
  import opened Bytes
  import opened Frames

  datatype Outcome = Got(frame: Frame) | End | Failed(error: FrameError)

  function Flatten(chunks: seq<seq<u8>>): (bytes: seq<u8>)
  {
    if chunks == [] then [] else chunks[0] + Flatten(chunks[1..])
  }

  /** What one completed read yields, in terms of the unread bytes alone. */
  function ReadSpec(bytes: seq<u8>, maximum: nat): (r: (Outcome, seq<u8>))
    ensures r.0.Got? ==> |r.1| < |bytes|
  {
    if bytes == [] then (End, [])
    else if |bytes| < HEADER_LENGTH then (Failed(UnexpectedEof), [])
    else
      var header := DecodeHeader(bytes[..HEADER_LENGTH]);
      var body := bytes[HEADER_LENGTH..];
      if header.Err? then (Failed(header.error), body)
      else if header.value.frameLength > maximum then
        (Failed(FrameTooLarge(header.value.frameLength, maximum)), body)
      else
        var length := header.value.frameLength - HEADER_LENGTH;
        if |body| < length then (Failed(UnexpectedEof), [])
        else (Got(Frame(header.value.packetId, body[..length])), body[length..])
  }

  /** A stream of non-empty chunks; a read never crosses a chunk boundary. */
  class ByteSource {
    var chunks: seq<seq<u8>>

    ghost predicate Valid()
      reads this
    {
      forall i | 0 <= i < |chunks| :: chunks[i] != []
    }

    ghost function Remaining(): (bytes: seq<u8>)
      reads this
    {
      Flatten(chunks)
    }

    constructor (chunks: seq<seq<u8>>)
      requires forall i | 0 <= i < |chunks| :: chunks[i] != []
      ensures Valid() && Remaining() == Flatten(chunks)
    {
      this.chunks := chunks;
    }

    /** At most `limit` bytes from the first chunk; nothing only at the end of the stream. */
    method Read(limit: nat) returns (bytes: seq<u8>)
      requires Valid() && limit > 0
      modifies this
      ensures Valid()
      ensures |bytes| <= limit
      ensures bytes == [] <==> old(Remaining()) == []
      ensures old(Remaining()) == bytes + Remaining()
    {
      if chunks == [] {
        return [];
      }
      var first := chunks[0];
      var taken := if |first| <= limit then |first| else limit;
      bytes := first[..taken];
      if taken == |first| {
        chunks := chunks[1..];
      } else {
        var rest := first[taken..];
        chunks := [rest] + chunks[1..];
        assert chunks[1..] == old(chunks)[1..];
        assert first == bytes + rest;
      }
    }

    /** Exactly `count` bytes, or nothing and the stream is drained. */
    method ReadExact(count: nat) returns (bytes: Option<seq<u8>>)
      requires Valid()
      modifies this
      ensures Valid()
      ensures bytes.Some? <==> |old(Remaining())| >= count
      ensures bytes.Some? ==> bytes.value == old(Remaining())[..count]
      ensures Remaining() == if bytes.Some? then old(Remaining())[count..] else []
    {
      var buffer: seq<u8> := [];
      while |buffer| < count
        invariant Valid()
        invariant |buffer| <= count
        invariant old(Remaining()) == buffer + Remaining()
      {
        var part := Read(count - |buffer|);
        if part == [] {
          return None;
        }
        buffer := buffer + part;
      }
      bytes := Some(buffer);
    }
  }

  class FrameReader {
    const maximum: nat

    constructor (maximum: nat)
      requires ValidMaximum(maximum)
      ensures this.maximum == maximum
    {
      this.maximum := maximum;
    }

    method ReadNext(source: ByteSource) returns (outcome: Outcome)
      requires source.Valid()
      modifies source
      ensures source.Valid()
      ensures (outcome, source.Remaining()) == ReadSpec(old(source.Remaining()), maximum)
    {
      ghost var all := source.Remaining();
      var first := source.Read(1);
      if first == [] {
        return End;
      }
      ghost var tail := source.Remaining();
      var others := source.ReadExact(HEADER_LENGTH - 1);
      if others.None? {
        return Failed(UnexpectedEof);
      }
      var headerBytes := first + others.value;
      assert headerBytes == all[..HEADER_LENGTH];
      assert source.Remaining() == tail[HEADER_LENGTH - 1..] == all[HEADER_LENGTH..];
      var header := DecodeHeader(headerBytes);
      if header.Err? {
        return Failed(header.error);
      }
      if header.value.frameLength > maximum {
        return Failed(FrameTooLarge(header.value.frameLength, maximum));
      }
      var payload := source.ReadExact(header.value.frameLength - HEADER_LENGTH);
      if payload.None? {
        return Failed(UnexpectedEof);
      }
      outcome := Got(Frame(header.value.packetId, payload.value));
    }
  }

  /** The bytes a sender writes for a list of frames. */
  function StreamOf(frames: seq<Frame>): (bytes: seq<u8>)
  {
    if frames == [] then [] else ToBytes(frames[0]) + StreamOf(frames[1..])
  }

  /** All outcomes of reading until the stream ends or a read fails. */
  function ReadAll(bytes: seq<u8>, maximum: nat): (outcomes: seq<Outcome>)
    decreases |bytes|
  {
    var (outcome, rest) := ReadSpec(bytes, maximum);
    if outcome.Got? then [outcome] + ReadAll(rest, maximum) else [outcome]
  }

  function Received(frames: seq<Frame>): (outcomes: seq<Outcome>)
  {
    if frames == [] then [End] else [Got(frames[0])] + Received(frames[1..])
  }

  lemma ReadEncoded(f: Frame, rest: seq<u8>, maximum: nat)
    requires EncodedLength(f) <= maximum
    ensures ReadSpec(ToBytes(f) + rest, maximum) == (Got(f), rest)
  {
    HeaderOfEncoding(f, rest);
    var body := (ToBytes(f) + rest)[HEADER_LENGTH..];
    assert body == f.payload + rest;
  }

  /** Concatenated encodings are read back as exactly the frames written, whatever the chunking. */
  lemma {:induction false} StreamRoundTrip(frames: seq<Frame>, maximum: nat)
    requires forall f | f in frames :: EncodedLength(f) <= maximum
    ensures ReadAll(StreamOf(frames), maximum) == Received(frames)
  {
    if frames != [] {
      ReadEncoded(frames[0], StreamOf(frames[1..]), maximum);
      StreamRoundTrip(frames[1..], maximum);
    }
  }

  /** Two frame lists with the same bytes are the same list: the encoding is prefix-free. */
  lemma {:induction false} StreamInjective(a: seq<Frame>, b: seq<Frame>)
    requires StreamOf(a) == StreamOf(b)
    ensures a == b
  {
    StreamRoundTrip(a, MAX_WIRE_LENGTH);
    StreamRoundTrip(b, MAX_WIRE_LENGTH);
    ReceivedInjective(a, b);
  }

  lemma {:induction false} ReceivedInjective(a: seq<Frame>, b: seq<Frame>)
    requires Received(a) == Received(b)
    ensures a == b
  {
    if a == [] {
      assert Received(b)[0] == End;
    } else {
      assert Received(b)[0] == Got(a[0]);
      assert Received(a)[1..] == Received(a[1..]);
      assert Received(b)[1..] == Received(b[1..]);
      ReceivedInjective(a[1..], b[1..]);
    }
  }

  /** Conversely, a stream read to its end without failure is the encoding of what was read. */
  lemma {:induction false} StreamCanonical(bytes: seq<u8>, maximum: nat, frames: seq<Frame>)
    requires ReadAll(bytes, maximum) == Received(frames)
    ensures StreamOf(frames) == bytes
    decreases |bytes|
  {
    var (outcome, rest) := ReadSpec(bytes, maximum);
    if outcome.Got? {
      assert Received(frames)[0] == outcome;
      assert frames != [];
      assert Received(frames)[1..] == Received(frames[1..]);
      assert ReadAll(bytes, maximum)[1..] == ReadAll(rest, maximum);
      StreamCanonical(rest, maximum, frames[1..]);
      var head := bytes[..HEADER_LENGTH];
      LeCanonical(head[2..4]);
      assert Le(2, EncodedLength(outcome.frame)) == bytes[2..4];
      assert bytes == [bytes[0], bytes[1]] + bytes[2..4] + outcome.frame.payload + rest;
    } else {
      assert Received(frames)[0] == outcome;
      assert outcome == End;
    }
  }
}
