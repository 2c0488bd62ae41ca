/** common/ModbusTcp.cpp: frames with the MBAP header, and reading them from a byte stream. */
module Modbus {
  import opened Bytes

  const MBAP_HEADER_SIZE: nat := 6
  const MBAP_UNIT_HEADER_SIZE: nat := 7

  /** The length field counts the unit id and the PDU in sixteen bits. */
  const MAX_PDU_SIZE: nat := 65534

  datatype Frame = Frame(transactionId: nat, unitId: Byte, pdu: seq<Byte>)

  /** The result of decode: too little data, a frame with the bytes it took, or an undefined range. */
  datatype Decoded = Incomplete | Complete(frame: Frame, consumed: nat) | UndefinedRange

  function EncodeFrame(f: Frame): (r: seq<Byte>)
    ensures |r| == MBAP_UNIT_HEADER_SIZE + |f.pdu|
  {
    WriteU16(f.transactionId) + WriteU16(0) + WriteU16(|f.pdu| + 1) + [f.unitId] + f.pdu
  }

  /** A length field of zero makes decode assign the PDU from an iterator range that ends before it begins. */
  function DecodeFrame(buffer: seq<Byte>): Decoded {
    if |buffer| < MBAP_UNIT_HEADER_SIZE then Incomplete
    else
      var length := ReadU16(buffer[4..]);
      var total := MBAP_HEADER_SIZE + length;
      if |buffer| < total then Incomplete
      else if total < MBAP_UNIT_HEADER_SIZE then UndefinedRange
      else Complete(Frame(ReadU16(buffer), buffer[6], buffer[7..total]), total)
  }

  /** What decode sees of an encoded frame, whatever comes after it. */
  lemma EncodedHeader(f: Frame, rest: seq<Byte>)
    ensures var data := EncodeFrame(f) + rest;
            && ReadU16(data) == f.transactionId % U16_LIMIT && data[6] == f.unitId
            && ReadU16(data[4..]) == (|f.pdu| + 1) % U16_LIMIT
            && data[7..7 + |f.pdu|] == f.pdu
  {
    var data := EncodeFrame(f) + rest;
    assert data[..2] == WriteU16(f.transactionId);
    assert data[4..][..2] == WriteU16(|f.pdu| + 1);
    SameCount(data, WriteU16(f.transactionId));
    SameCount(data[4..], WriteU16(|f.pdu| + 1));
  }

  lemma SameCount(a: seq<Byte>, b: seq<Byte>)
    requires |a| >= 2 && |b| == 2 && a[..2] == b
    ensures ReadU16(a) == ReadU16(b)
  {
    assert a[0] == a[..2][0] && a[1] == a[..2][1];
  }

  /** decode inverts encode exactly for the PDUs whose size fits the length field. */
  lemma FrameRoundTripIff(f: Frame)
    requires f.transactionId < U16_LIMIT
    ensures DecodeFrame(EncodeFrame(f)) == Complete(f, |EncodeFrame(f)|) <==> |f.pdu| <= MAX_PDU_SIZE
  {
    EncodedHeader(f, []);
    assert EncodeFrame(f) + [] == EncodeFrame(f);
  }

  /** No strict prefix of a frame decodes. */
  lemma PrefixIsIncomplete(f: Frame, k: nat)
    requires |f.pdu| <= MAX_PDU_SIZE && k < |EncodeFrame(f)|
    ensures DecodeFrame(EncodeFrame(f)[..k]) == Incomplete
  {
    EncodedHeader(f, []);
    var data := EncodeFrame(f);
    assert data + [] == data;
    if k >= MBAP_UNIT_HEADER_SIZE {
      assert data[..k][4..][..2] == data[4..][..2];
      SameCount(data[..k][4..], data[4..][..2]);
      SameCount(data[4..], data[4..][..2]);
    }
  }

  // ----- streams -----

  /** The frame at the front of a stream, as read_frame finds it, and the bytes it takes. */
  function NextFrame(stream: seq<Byte>): (r: Option<(Frame, nat)>)
    ensures r.Some? ==> 0 < r.value.1 <= |stream|
  {
    if |stream| < MBAP_HEADER_SIZE then None
    else
      var length := ReadU16(stream[4..]);
      if length == 0 || |stream| < MBAP_HEADER_SIZE + length then None
      else Some((Frame(ReadU16(stream), stream[6], stream[7..6 + length]), MBAP_HEADER_SIZE + length))
  }

  /** All frames of a stream, up to the first place where read_frame fails. */
  function Frames(stream: seq<Byte>): seq<Frame>
    decreases |stream|
  {
    match NextFrame(stream)
    case None => []
    case Some((f, size)) => [f] + Frames(stream[size..])
  }

  lemma FirstFrame(stream: seq<Byte>)
    ensures var next := NextFrame(stream);
            Frames(stream) == if next.None? then [] else [next.value.0] + Frames(stream[next.value.1..])
  {
  }

  function EncodeAll(frames: seq<Frame>): seq<Byte> {
    if frames == [] then [] else EncodeFrame(frames[0]) + EncodeAll(frames[1..])
  }

  predicate Sendable(f: Frame) {
    f.transactionId < U16_LIMIT && |f.pdu| <= MAX_PDU_SIZE
  }

  lemma NextOfEncoded(f: Frame, rest: seq<Byte>)
    requires Sendable(f)
    ensures NextFrame(EncodeFrame(f) + rest) == Some((f, |EncodeFrame(f)|))
  {
    EncodedHeader(f, rest);
  }

  /** A stream of frames is read back as those frames, and reading stops at whatever is not one. */
  lemma {:induction false} FramesOfEncoded(frames: seq<Frame>, rest: seq<Byte>)
    requires forall i :: 0 <= i < |frames| ==> Sendable(frames[i])
    ensures Frames(EncodeAll(frames) + rest) == frames + Frames(rest)
  {
    hide NextFrame, EncodeFrame;
    if frames == [] {
      assert [] + rest == rest;
    } else {
      var first, others := EncodeFrame(frames[0]), EncodeAll(frames[1..]);
      assert EncodeAll(frames) + rest == first + (others + rest);
      NextOfEncoded(frames[0], others + rest);
      assert (first + (others + rest))[|first|..] == others + rest;
      FramesOfEncoded(frames[1..], rest);
      assert frames == [frames[0]] + frames[1..];
    }
  }

  // ----- sockets -----

  /** What one poll and read of a socket meets: some bytes, or an error, hang-up or end of file. */
  datatype Arrival = Chunk(bytes: seq<Byte>) | Fault

  /** The bytes that can be read before the first fault. */
  function Readable(arrivals: seq<Arrival>): seq<Byte> {
    if arrivals == [] || arrivals[0].Fault? || arrivals[0].bytes == [] then []
    else arrivals[0].bytes + Readable(arrivals[1..])
  }

  /** However bytes are cut into non-empty chunks, the same bytes are readable. */
  lemma {:induction false} AnyChunking(chunks: seq<seq<Byte>>, bytes: seq<Byte>)
    requires Concat(chunks) == bytes && forall i :: 0 <= i < |chunks| ==> chunks[i] != []
    ensures Readable(Chunks(chunks)) == bytes
  {
    if chunks != [] {
      AnyChunking(chunks[1..], Concat(chunks[1..]));
      assert Chunks(chunks)[1..] == Chunks(chunks[1..]);
    }
  }

  function Concat(chunks: seq<seq<Byte>>): seq<Byte> {
    if chunks == [] then [] else chunks[0] + Concat(chunks[1..])
  }

  function Chunks(chunks: seq<seq<Byte>>): seq<Arrival> {
    seq(|chunks|, i requires 0 <= i < |chunks| => Chunk(chunks[i]))
  }

  /** The coming sends will accept size bytes before one of them fails. */
  predicate TakesAll(room: seq<nat>, size: nat) {
    size == 0 || (room != [] && room[0] > 0 && (room[0] >= size || TakesAll(room[1..], size - room[0])))
  }

  /**
   * A connected socket: arrivals is what the network will bring, sent what has been accepted from us,
   * and room how many bytes each coming send call will accept.
   */
  class Socket {
    var arrivals: seq<Arrival>
    var sent: seq<Byte>
    var room: seq<nat>

    constructor (arrivals: seq<Arrival>, room: seq<nat>)
      ensures this.arrivals == arrivals && this.room == room && sent == []
    {
      this.arrivals, this.room, sent := arrivals, room, [];
    }

    /** One poll and read: between one and max of the bytes that have arrived, or none on a fault. */
    method ReadSome(max: nat) returns (got: seq<Byte>)
      requires max > 0
      modifies this`arrivals
      ensures |got| <= max && got <= old(Readable(arrivals)) && Readable(arrivals) == old(Readable(arrivals))[|got|..]
      ensures got == [] <==> old(Readable(arrivals)) == []
    {
      if arrivals == [] || arrivals[0].Fault? || arrivals[0].bytes == [] {
        return [];
      }
      var bytes := arrivals[0].bytes;
      ghost var all := Readable(arrivals);
      if |bytes| <= max {
        got := bytes;
        arrivals := arrivals[1..];
        assert all[|got|..] == Readable(arrivals);
      } else {
        got := bytes[..max];
        ghost var rest := arrivals[1..];
        arrivals := [Chunk(bytes[max..])] + arrivals[1..];
        assert arrivals[1..] == rest;
        assert all[max..] == bytes[max..] + Readable(rest);
      }
    }

    /** read_exact: fill the buffer from as many reads as it takes, or fail. */
    method ReadExact(buffer: array<Byte>) returns (ok: bool)
      modifies this`arrivals, buffer
      ensures ok <==> |old(Readable(arrivals))| >= buffer.Length
      ensures ok ==> buffer[..] == old(Readable(arrivals))[..buffer.Length]
                     && Readable(arrivals) == old(Readable(arrivals))[buffer.Length..]
    {
      var total := 0;
      ghost var all := Readable(arrivals);
      while total < buffer.Length
        invariant total <= buffer.Length && total <= |all|
        invariant Readable(arrivals) == all[total..] && buffer[..total] == all[..total]
      {
        var got := ReadSome(buffer.Length - total);
        if got == [] {
          return false;
        }
        forall i | 0 <= i < |got| {
          buffer[total + i] := got[i];
        }
        assert all[total..][..|got|] == got;
        assert buffer[..total + |got|] == buffer[..total] + got;
        total := total + |got|;
      }
      return true;
    }

    /** read_frame: the header, then as many bytes as it announces. The final size check never fails. */
    method ReadFrame() returns (r: Option<Frame>)
      modifies this`arrivals
      ensures var next := NextFrame(old(Readable(arrivals)));
              if next.None? then r == None
              else r == Some(next.value.0) && Readable(arrivals) == old(Readable(arrivals))[next.value.1..]
    {
      ghost var all := Readable(arrivals);
      var header := new Byte[MBAP_HEADER_SIZE];
      var ok := ReadExact(header);
      if !ok {
        return None;
      }
      var length := ReadU16(header[4..]);
      assert header[..] == all[..6];
      assert header[4..][..2] == all[4..][..2];
      SameCount(header[4..], all[4..][..2]);
      SameCount(all[4..], all[4..][..2]);
      if length == 0 {
        return None;
      }
      var rest := new Byte[length];
      ok := ReadExact(rest);
      if !ok {
        return None;
      }
      var buffer := header[..] + rest[..];
      assert buffer == all[..6 + length];
      FrameInBuffer(all, length);
      var decoded := DecodeFrame(buffer);
      if !decoded.Complete? || decoded.consumed != |buffer| {
        assert false;
      }
      return Some(decoded.frame);
    }

    /** The receiving side's loop: frames until one cannot be read. */
    method ReadFrames() returns (frames: seq<Frame>)
      modifies this`arrivals
      ensures frames == Frames(old(Readable(arrivals)))
    {
      hide Frames, NextFrame;
      frames := [];
      ghost var all := Readable(arrivals);
      while true
        invariant frames + Frames(Readable(arrivals)) == Frames(all)
        decreases |Readable(arrivals)|
      {
        ghost var before := Readable(arrivals);
        var frame := ReadFrame();
        FirstFrame(before);
        if frame.None? {
          return;
        }
        frames := frames + [frame.value];
      }
    }

    /** One send: some of the bytes, or none when the connection is gone. */
    method SendSome(bytes: seq<Byte>) returns (n: nat)
      requires bytes != []
      modifies this`sent, this`room
      ensures n == (if old(room) == [] then 0 else if old(room)[0] < |bytes| then old(room)[0] else |bytes|)
      ensures sent == old(sent) + bytes[..n] && room == if old(room) == [] then [] else old(room)[1..]
    {
      if room == [] {
        n := 0;
      } else {
        n := if room[0] < |bytes| then room[0] else |bytes|;
        room := room[1..];
      }
      sent := sent + bytes[..n];
    }

    /** write_exact: everything is sent, or a beginning of it that stops short. */
    method WriteExact(bytes: seq<Byte>) returns (ok: bool)
      modifies this`sent, this`room
      ensures ok <==> TakesAll(old(room), |bytes|)
      ensures ok ==> sent == old(sent) + bytes
      ensures !ok ==> exists n :: 0 <= n < |bytes| && sent == old(sent) + bytes[..n]
    {
      var total := 0;
      while total < |bytes|
        invariant total <= |bytes| && sent == old(sent) + bytes[..total]
        invariant TakesAll(room, |bytes| - total) == TakesAll(old(room), |bytes|)
      {
        var n := SendSome(bytes[total..]);
        assert bytes[..total] + bytes[total..][..n] == bytes[..total + n];
        if n == 0 {
          return false;
        }
        total := total + n;
      }
      assert bytes[..total] == bytes;
      return true;
    }

    /** write_frame. */
    method WriteFrame(f: Frame) returns (ok: bool)
      modifies this`sent, this`room
      ensures ok <==> TakesAll(old(room), |EncodeFrame(f)|)
      ensures ok ==> sent == old(sent) + EncodeFrame(f)
      ensures !ok ==> exists n :: 0 <= n < |EncodeFrame(f)| && sent == old(sent) + EncodeFrame(f)[..n]
    {
      ok := WriteExact(EncodeFrame(f));
    }
  }

  /** The front of a stream and the whole of it agree on the first frame. */
  lemma FrameInBuffer(stream: seq<Byte>, length: nat)
    requires |stream| >= 6 + length && length == ReadU16(stream[4..]) && length > 0
    ensures NextFrame(stream) == Some((Frame(ReadU16(stream), stream[6], stream[7..6 + length]), 6 + length))
    ensures DecodeFrame(stream[..6 + length]) == Complete(NextFrame(stream).value.0, 6 + length)
  {
    var buffer := stream[..6 + length];
    assert buffer[4..][..2] == stream[4..][..2];
    SameCount(buffer[4..], stream[4..][..2]);
    SameCount(stream[4..], stream[4..][..2]);
    assert buffer[..2] == stream[..2];
    SameCount(buffer, stream[..2]);
    SameCount(stream, stream[..2]);
    assert buffer[7..6 + length] == stream[7..6 + length];
  }

  /**
   * Framing does not depend on how the network cuts the stream: whatever frames were written, and however
   * their bytes are split into chunks, reading frame by frame returns exactly those frames.
   */
  method Transmit(frames: seq<Frame>, chunks: seq<seq<Byte>>) returns (received: seq<Frame>)
    requires forall i :: 0 <= i < |frames| ==> Sendable(frames[i])
    requires Concat(chunks) == EncodeAll(frames) && forall i :: 0 <= i < |chunks| ==> chunks[i] != []
    ensures received == frames
  {
    var socket := new Socket(Chunks(chunks), []);
    AnyChunking(chunks, EncodeAll(frames));
    FramesOfEncoded(frames, []);
    assert EncodeAll(frames) + [] == EncodeAll(frames);
    received := socket.ReadFrames();
    assert frames + [] == frames;
  }
}
