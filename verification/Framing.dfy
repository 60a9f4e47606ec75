/** Length-prefixed frames on a byte stream (src-tauri/src/remote_protocol.rs); the encoding of values,
    CBOR (RFC 8949), is a parameter. */
module Framing {
  import opened Common

  const MAX_FRAME_BYTES: nat := 1024 * 1024

  datatype ProtocolError = Io | Encode | Decode | FrameTooLarge(actual: nat, max: nat) | TruncatedHeader

  datatype Codec<!T> = Codec(encode: T -> Option<seq<Byte>>, decode: seq<Byte> -> Option<T>)

  /** Decoding an encoded value gives the value back. */
  ghost predicate Inverse<T(!new)>(codec: Codec<T>) {
    forall value :: var bytes := codec.encode(value); bytes.Some? ==> codec.decode(bytes.value) == Some(value)
  }

  // ---------------------------------------------------------------- lengths

  /** The four big-endian bytes of a 32-bit number. */
  function BigEndian(n: nat): (bytes: seq<Byte>)
    requires n < 0x1_0000_0000
    ensures |bytes| == 4
  {
    [n / 0x100_0000, n / 0x1_0000 % 0x100, n / 0x100 % 0x100, n % 0x100]
  }

  function FromBigEndian(bytes: seq<Byte>): nat
    requires |bytes| == 4
  {
    var b0: int, b1: int, b2: int, b3: int := bytes[0], bytes[1], bytes[2], bytes[3];
    b0 * 0x100_0000 + b1 * 0x1_0000 + b2 * 0x100 + b3
  }

  lemma LengthRoundTrip(n: nat)
    requires n < 0x1_0000_0000
    ensures FromBigEndian(BigEndian(n)) == n
  {
    var low, mid := n / 0x100, n / 0x1_0000;
    assert n == low * 0x100 + n % 0x100;
    assert low / 0x100 == mid && low == mid * 0x100 + low % 0x100;
    assert mid / 0x100 == n / 0x100_0000 && mid == mid / 0x100 * 0x100 + mid % 0x100;
  }

  // ---------------------------------------------------------------- one frame

  function Frame(payload: seq<Byte>): seq<Byte>
    requires |payload| <= MAX_FRAME_BYTES
  {
    BigEndian(|payload|) + payload
  }

  /** What the front of a stream holds: nothing, a payload and what follows it, or an error. */
  datatype Front = End | Payload(bytes: seq<Byte>, rest: seq<Byte>) | Broken(error: ProtocolError)

  function FrontOf(stream: seq<Byte>): (front: Front)
    ensures front.Payload? ==> |front.bytes| <= MAX_FRAME_BYTES && |front.rest| + 4 + |front.bytes| == |stream|
  {
    if stream == [] then End
    else if |stream| < 4 then Broken(TruncatedHeader)
    else
      var length := FromBigEndian(stream[..4]);
      if length > MAX_FRAME_BYTES then Broken(FrameTooLarge(length, MAX_FRAME_BYTES))
      else if |stream| - 4 < length then Broken(Io)
      else Payload(stream[4..4 + length], stream[4 + length..])
  }

  /** A written frame is read back, and only it is consumed. */
  lemma FrontOfFrame(payload: seq<Byte>, rest: seq<Byte>)
    requires |payload| <= MAX_FRAME_BYTES
    ensures FrontOf(Frame(payload) + rest) == Payload(payload, rest)
  {
    var stream, n := Frame(payload) + rest, |payload|;
    LengthRoundTrip(n);
    assert stream[..4] == BigEndian(n);
    assert stream[4..4 + n] == payload && stream[4 + n..] == rest;
  }

  /** A frame cut anywhere inside is an error: of its header if the cut is there, of the stream if not. */
  lemma FrontOfCutFrame(payload: seq<Byte>, cut: nat)
    requires |payload| <= MAX_FRAME_BYTES && 0 < cut < |Frame(payload)|
    ensures FrontOf(Frame(payload)[..cut]) == Broken(if cut < 4 then TruncatedHeader else Io)
  {
    var stream := Frame(payload)[..cut];
    if cut >= 4 {
      LengthRoundTrip(|payload|);
      assert stream[..4] == BigEndian(|payload|);
    }
  }

  /** A header is refused, whatever follows it, exactly if it announces more than the limit. */
  lemma OversizedIffRefused(length: nat, rest: seq<Byte>)
    requires length < 0x1_0000_0000
    ensures FrontOf(BigEndian(length) + rest) == Broken(FrameTooLarge(length, MAX_FRAME_BYTES))
            <==> length > MAX_FRAME_BYTES
  {
    LengthRoundTrip(length);
    assert (BigEndian(length) + rest)[..4] == BigEndian(length);
  }

  // ---------------------------------------------------------------- whole streams

  function Frames(payloads: seq<seq<Byte>>): seq<Byte>
    requires Small(payloads)
  {
    if payloads == [] then [] else Frame(payloads[0]) + Frames(payloads[1..])
  }

  predicate Small(payloads: seq<seq<Byte>>) {
    forall i | 0 <= i < |payloads| :: |payloads[i]| <= MAX_FRAME_BYTES
  }

  /** The payloads read until the stream ends. */
  function ReadAll(stream: seq<Byte>): seq<seq<Byte>>
    decreases |stream|
  {
    match FrontOf(stream)
    case Payload(bytes, rest) => [bytes] + ReadAll(rest)
    case _ => []
  }

  /** The error reading ends with; none at a clean end. */
  function FinalError(stream: seq<Byte>): Option<ProtocolError>
    decreases |stream|
  {
    match FrontOf(stream)
    case Payload(_, rest) => FinalError(rest)
    case End => None
    case Broken(error) => Some(error)
  }

  lemma ReadOne(payload: seq<Byte>, later: seq<Byte>)
    requires |payload| <= MAX_FRAME_BYTES
    ensures ReadAll(Frame(payload) + later) == [payload] + ReadAll(later)
    ensures FinalError(Frame(payload) + later) == FinalError(later)
  {
    FrontOfFrame(payload, later);
  }

  /** Reading what was written, and then something else, is reading the frames and then the rest. */
  lemma {:induction false} ReadFrames(payloads: seq<seq<Byte>>, rest: seq<Byte>)
    requires Small(payloads)
    ensures ReadAll(Frames(payloads) + rest) == payloads + ReadAll(rest)
    ensures FinalError(Frames(payloads) + rest) == FinalError(rest)
    decreases |payloads|
  {
    if payloads == [] {
      assert Frames(payloads) + rest == rest;
    } else {
      var first, more := payloads[0], payloads[1..];
      ReadFrames(more, rest);
      ReadOne(first, Frames(more) + rest);
      Associative(Frame(first), Frames(more), rest);
      Associative([first], more, ReadAll(rest));
      assert [first] + more == payloads;
    }
  }

  /** Any list of frames is read back whole and in order, and then the stream ends cleanly. */
  lemma WrittenFramesAreRead(payloads: seq<seq<Byte>>)
    requires Small(payloads)
    ensures ReadAll(Frames(payloads)) == payloads && FinalError(Frames(payloads)) == None
  {
    ReadFrames(payloads, []);
    assert Frames(payloads) + [] == Frames(payloads) && payloads + [] == payloads;
  }

  /** A cut inside a frame: the frames before it are read, and then there is an error. */
  lemma CutIsAnError(payloads: seq<seq<Byte>>, last: seq<Byte>, cut: nat)
    requires Small(payloads) && |last| <= MAX_FRAME_BYTES && 0 < cut < |Frame(last)|
    ensures ReadAll(Frames(payloads) + Frame(last)[..cut]) == payloads
    ensures FinalError(Frames(payloads) + Frame(last)[..cut]) == Some(if cut < 4 then TruncatedHeader else Io)
  {
    ReadFrames(payloads, Frame(last)[..cut]);
    FrontOfCutFrame(last, cut);
    assert payloads + [] == payloads;
  }

  lemma BigEndianIsOnto(bytes: seq<Byte>)
    requires |bytes| == 4
    ensures FromBigEndian(bytes) < 0x1_0000_0000 && BigEndian(FromBigEndian(bytes)) == bytes
  {
    var n := FromBigEndian(bytes);
    var b0: int, b1: int, b2: int, b3: int := bytes[0], bytes[1], bytes[2], bytes[3];
    var high := b0 * 0x100 + b1;
    var upper := high * 0x100 + b2;
    assert n == upper * 0x100 + b3;
    assert n / 0x100 == upper && n % 0x100 == b3;
    assert upper / 0x100 == high && upper % 0x100 == b2;
    assert n / 0x1_0000 == high;
    assert high / 0x100 == b0 && high % 0x100 == b1;
    assert n / 0x100_0000 == b0;
  }

  lemma FrameAtFront(stream: seq<Byte>)
    requires FrontOf(stream).Payload?
    ensures Frame(FrontOf(stream).bytes) + FrontOf(stream).rest == stream
  {
    BigEndianIsOnto(stream[..4]);
  }

  lemma FramesFirst(payload: seq<Byte>, more: seq<seq<Byte>>)
    requires |payload| <= MAX_FRAME_BYTES && Small(more)
    ensures Small([payload] + more) && Frames([payload] + more) == Frame(payload) + Frames(more)
  {
    assert ([payload] + more)[1..] == more;
  }

  /** Nothing else reads the same: a stream that ends cleanly is exactly the frames read from it. */
  lemma {:induction false} CleanStreamsAreFrames(stream: seq<Byte>)
    requires FinalError(stream) == None
    ensures Small(ReadAll(stream)) && Frames(ReadAll(stream)) == stream
    decreases |stream|
  {
    if FrontOf(stream).Payload? {
      var bytes, rest := FrontOf(stream).bytes, FrontOf(stream).rest;
      CleanStreamsAreFrames(rest);
      FrameAtFront(stream);
      FramesFirst(bytes, ReadAll(rest));
    }
  }

  // ---------------------------------------------------------------- reading and writing

  /** What a stream that fails after its last byte, instead of ending, makes of a front that is cut. */
  function Failing(front: Front): Front {
    if front.End? || (front.Broken? && !front.error.FrameTooLarge?) then Broken(Io) else front
  }

  /** A byte stream; a read may return fewer bytes than it was asked for.  Behind `rest` it ends, or every
      read fails. */
  class Reader {
    var rest: seq<Byte>
    const fails: bool

    constructor (stream: seq<Byte>, fails: bool)
      ensures rest == stream && this.fails == fails
    {
      rest := stream;
      this.fails := fails;
    }

    /** Nothing for a failure; 0 bytes for the end. */
    method Read(buffer: array<Byte>, from: nat) returns (r: Option<nat>)
      requires from < buffer.Length
      modifies this, buffer
      ensures r.None? <==> old(rest) == [] && fails
      ensures r.Some? ==> r.value <= |old(rest)| && from + r.value <= buffer.Length && rest == old(rest)[r.value..]
      ensures r.Some? ==> (r.value == 0 <==> old(rest) == [])
      ensures r.Some? ==> buffer[..] == old(buffer[..from]) + old(rest)[..r.value] + old(buffer[..])[from + r.value..]
      ensures r.None? ==> rest == []
    {
      if rest == [] {
        return if fails then None else Some(0);
      }
      var n: nat :| 0 < n <= |rest| && from + n <= buffer.Length;
      forall i | from <= i < from + n {
        buffer[i] := rest[i - from];
      }
      rest := rest[n..];
      return Some(n);
    }

    /** Fills the buffer, or says whether the stream failed or ended before. */
    method ReadExact(buffer: array<Byte>) returns (filled: bool)
      modifies this, buffer
      ensures filled <==> buffer.Length <= |old(rest)|
      ensures filled ==> rest == old(rest)[buffer.Length..] && buffer[..] == old(rest)[..buffer.Length]
      ensures !filled ==> rest == []
    {
      var at := 0;
      while at < buffer.Length
        invariant 0 <= at <= buffer.Length && at <= |old(rest)|
        invariant rest == old(rest)[at..]
        invariant buffer[..at] == old(rest)[..at]
      {
        var n := Read(buffer, at);
        if n.None? || n.value == 0 {
          return false;
        }
        at := at + n.value;
      }
      assert buffer[..at] == buffer[..];
      return true;
    }

    /** Reads one value; a clean end of the stream before any header byte is no error. */
    method ReadFrame<T>(codec: Codec<T>) returns (r: Result<Option<T>, ProtocolError>)
      modifies this
      ensures r == FrameRead(codec, if fails then Failing(FrontOf(old(rest))) else FrontOf(old(rest)))
      ensures FrontOf(old(rest)).Payload? ==> rest == FrontOf(old(rest)).rest
    {
      var first := new Byte[1];
      var n := Read(first, 0);
      if n.None? {
        return Err(Io);
      }
      if n.value == 0 {
        return Ok(None);
      }
      var others := new Byte[3];
      var filled := ReadExact(others);
      if !filled {
        return Err(if fails then Io else TruncatedHeader);
      }
      var header := first[..] + others[..];
      assert header == old(rest)[..4];
      var length := FromBigEndian(header);
      if length > MAX_FRAME_BYTES {
        return Err(FrameTooLarge(length, MAX_FRAME_BYTES));
      }
      assert rest == old(rest)[4..];
      if length <= |rest| {
        assert rest[..length] == old(rest)[4..4 + length] && rest[length..] == old(rest)[4 + length..];
      }
      r := ReadPayload(codec, length);
    }

    method ReadPayload<T>(codec: Codec<T>, length: nat) returns (r: Result<Option<T>, ProtocolError>)
      requires length <= MAX_FRAME_BYTES
      modifies this
      ensures |old(rest)| < length ==> r == Err(Io)
      ensures |old(rest)| >= length ==> rest == old(rest)[length..]
      ensures |old(rest)| >= length ==>
                r == (var value := codec.decode(old(rest)[..length]); if value.Some? then Ok(value) else Err(Decode))
    {
      var payload := new Byte[length];
      var filled := ReadExact(payload);
      if !filled {
        return Err(Io);
      }
      var value := codec.decode(payload[..]);
      if value.None? {
        return Err(Decode);
      }
      return Ok(value);
    }
  }

  function FrameRead<T>(codec: Codec<T>, front: Front): Result<Option<T>, ProtocolError> {
    match front
    case End => Ok(None)
    case Broken(error) => Err(error)
    case Payload(bytes, _) =>
      var value := codec.decode(bytes);
      if value.Some? then Ok(value) else Err(Decode)
  }

  /** A sink that takes `room` more bytes before it fails, or never fails. */
  class Writer {
    var written: seq<Byte>
    var room: Option<nat>

    constructor (room: Option<nat>)
      ensures written == [] && this.room == room
    {
      written := [];
      this.room := room;
    }

    method WriteAll(bytes: seq<Byte>) returns (done: bool)
      modifies this
      ensures done <==> old(room).None? || |bytes| <= old(room).value
      ensures done ==> written == old(written) + bytes
      ensures done ==> room == if old(room).Some? then Some(old(room).value - |bytes|) else None
      ensures !done ==> written == old(written) + bytes[..old(room).value] && room == Some(0)
    {
      if room.Some? && |bytes| > room.value {
        written := written + bytes[..room.value];
        room := Some(0);
        return false;
      }
      written := written + bytes;
      if room.Some? {
        room := Some(room.value - |bytes|);
      }
      return true;
    }

    /** Writes one value; nothing if it cannot be encoded or is too large, and the front of its frame if the
        sink fails. */
    method WriteFrame<T>(codec: Codec<T>, value: T) returns (r: Result<(), ProtocolError>)
      modifies this
      ensures codec.encode(value).None? ==> r == Err(Encode) && written == old(written)
      ensures codec.encode(value).Some? && |codec.encode(value).value| > MAX_FRAME_BYTES ==>
                r == Err(FrameTooLarge(|codec.encode(value).value|, MAX_FRAME_BYTES)) && written == old(written)
      ensures codec.encode(value).Some? && |codec.encode(value).value| <= MAX_FRAME_BYTES ==>
                var frame := Frame(codec.encode(value).value);
                if old(room).None? || |frame| <= old(room).value then r == Ok(()) && written == old(written) + frame
                else r == Err(Io) && written == old(written) + frame[..old(room).value]
    {
      var encoded := codec.encode(value);
      if encoded.None? {
        return Err(Encode);
      }
      var payload := encoded.value;
      if |payload| > MAX_FRAME_BYTES {
        return Err(FrameTooLarge(|payload|, MAX_FRAME_BYTES));
      }
      var done := WriteAll(BigEndian(|payload|));
      if !done {
        return Err(Io);
      }
      done := WriteAll(payload);
      if !done {
        return Err(Io);
      }
      return Ok(());
    }
  }

  /** A value that can be written is read back as itself. */
  lemma ValueRoundTrip<T(!new)>(codec: Codec<T>, value: T, rest: seq<Byte>)
    requires Inverse(codec) && codec.encode(value).Some? && |codec.encode(value).value| <= MAX_FRAME_BYTES
    ensures FrameRead(codec, FrontOf(Frame(codec.encode(value).value) + rest)) == Ok(Some(value))
  {
    FrontOfFrame(codec.encode(value).value, rest);
  }

  /** A value is read if and only if the stream begins with the frame of bytes that decode to it; there is no
      value and no error if and only if the stream has ended. */
  lemma ReadIffFramed<T(!new)>(codec: Codec<T>, stream: seq<Byte>, value: T)
    ensures FrameRead(codec, FrontOf(stream)) == Ok(Some(value))
            <==> exists payload, rest ::
                   && |payload| <= MAX_FRAME_BYTES && stream == Frame(payload) + rest
                   && codec.decode(payload) == Some(value)
    ensures FrameRead(codec, FrontOf(stream)) == Ok(None) <==> stream == []
  {
    if FrontOf(stream).Payload? {
      FrameAtFront(stream);
    }
    forall payload, rest | |payload| <= MAX_FRAME_BYTES && stream == Frame(payload) + rest
      ensures FrontOf(stream) == Payload(payload, rest)
    {
      FrontOfFrame(payload, rest);
    }
  }
}
