/**
 * common/transport/ModbusMessageTransport.cpp: messages over a socket. What one side sends on a
 * connection the other side receives, message for message and in order.
 */
module Transport {
  import opened Bytes
  import opened Messages
  import opened Codec
  import opened Modbus
  import opened Registry
  import opened Server
  import opened ServerSends
  import opened EndToEnd
  import Protocol

  // ----- every exception text of the decoder fits an Error reply -----

  lemma {:induction false} UsersTextFits(data: seq<Byte>, count: nat)
    ensures DecodeUsers(data, count).Thrown? ==> |DecodeUsers(data, count).what| <= MAX_U16_COUNT
    decreases count
  {
    if count > 0 && DecodeUser(data).Ok? {
      UsersTextFits(data[UserSize(DecodeUser(data).value)..], count - 1);
    }
  }

  lemma ChatTextFits(payload: seq<Byte>)
    ensures DecodeChat(payload).Thrown? ==> |DecodeChat(payload).what| <= MAX_U16_COUNT
  {
  }

  lemma DecodeTextFits(pdu: seq<Byte>)
    ensures Decode(pdu).Thrown? ==> |Decode(pdu).what| <= MAX_U16_COUNT
  {
    hide DecodeUsers, DecodeChat;
    if |pdu| >= 4 {
      UsersTextFits(pdu[2..][2..], ReadU16(pdu[2..]));
    }
    if |pdu| >= 2 {
      ChatTextFits(pdu[2..]);
    }
  }

  /** What receive makes of a PDU: a message the decoder returns, or the text of its exception. */
  function Arriving(pdu: seq<Byte>): Incoming {
    match Decode(pdu) case Thrown(what) => Malformed(what) case Ok(m) => Received(m)
  }

  lemma ArrivingCanArrive(pdu: seq<Byte>)
    ensures CanArrive(Arriving(pdu))
  {
    hide Decode;
    DecodeTextFits(pdu);
    if Decode(pdu).Ok? {
      DecodeIff(pdu, Decode(pdu).value);
    }
  }

  /** The server answers a PDU that does not decode with the decoder's words, and handles any other as the message in it. */
  lemma ArrivalIsAnswered(s: Server, fd: Fd, pdu: seq<Byte>, g: Fd)
    requires Valid(s) && fd in s.reg.clients && !Muted(s, fd) && g in s.reg.clients
    ensures Enabled(s, Data(fd, Arriving(pdu)))
    ensures Decode(pdu).Thrown? ==> Refuses(s, Data(fd, Arriving(pdu)), g, Decode(pdu).what)
    ensures Decode(pdu).Ok? ==> Step(s, Data(fd, Arriving(pdu))) == Dispatched(s, fd, Decode(pdu).value)
  {
    hide Decode, Valid, Refuses, Dispatched;
    ArrivingCanArrive(pdu);
    if Decode(pdu).Thrown? {
      MalformedRefusal(s, Data(fd, Arriving(pdu)), g);
    }
  }

  /** receive: read a frame and decode it, in whatever chunks its bytes arrive. */
  method Receive(socket: Socket) returns (incoming: Incoming)
    modifies socket`arrivals
    ensures CanArrive(incoming)
    ensures var next := NextFrame(old(Readable(socket.arrivals)));
            if next.None? then incoming == Closed
            else incoming == Arriving(next.value.0.pdu) && Readable(socket.arrivals) == old(Readable(socket.arrivals))[next.value.1..]
  {
    hide NextFrame, Decode;
    var frame := socket.ReadFrame();
    if frame.None? {
      return Closed;
    }
    ArrivingCanArrive(frame.value.pdu);
    var decoded := Protocol.DecodeAppMessage(frame.value.pdu);
    incoming := if decoded.Ok? then Received(decoded.value) else Malformed(decoded.what);
  }

  /** send: encode, frame and write; a message that cannot be encoded throws before anything is written. */
  method Send(socket: Socket, m: AppMessage) returns (ok: bool)
    modifies socket`sent, socket`room
    ensures ok <==> OnWire(m).Some? && TakesAll(old(socket.room), |OnWire(m).value|)
    ensures ok ==> socket.sent == old(socket.sent) + OnWire(m).value
    ensures OnWire(m).None? ==> socket.sent == old(socket.sent)
  {
    var payload := Encode(m);
    if payload.Thrown? {
      return false;
    }
    ok := socket.WriteFrame(Frame(0, 0, Pdu(m, payload.value)));
  }

  // ----- a connection is a queue -----

  /** The bytes of several messages, one after the other. */
  function AllOnWire(ms: seq<AppMessage>): seq<Byte>
    requires forall i :: 0 <= i < |ms| ==> OnWire(ms[i]).Some?
  {
    if ms == [] then [] else OnWire(ms[0]).value + AllOnWire(ms[1..])
  }

  /** The first message of a stream is received and leaves the rest. */
  lemma FirstArrives(m: AppMessage, rest: seq<Byte>)
    requires WellFormed(m) && Crosses(m)
    ensures var next := NextFrame(OnWire(m).value + rest);
            next.Some? && Arriving(next.value.0.pdu) == Received(m) && (OnWire(m).value + rest)[next.value.1..] == rest
  {
    hide Encode, Decode, NextFrame, EncodeFrame, WellFormed;
    CrossesIff(m);
    var pdu := Pdu(m, Encode(m).value);
    NextOfEncoded(Frame(0, 0, pdu), rest);
    assert FromWire(OnWire(m).value + rest) == Some(m);
  }

  /** Whatever the chunks, the messages sent on a connection are received in order, none lost and none twice. */
  method ReceiveAll(socket: Socket, count: nat, ghost ms: seq<AppMessage>) returns (received: seq<Incoming>)
    requires count == |ms| && forall i :: 0 <= i < |ms| ==> WellFormed(ms[i]) && OnWire(ms[i]).Some? && Crosses(ms[i])
    requires Readable(socket.arrivals) == AllOnWire(ms)
    modifies socket`arrivals
    ensures |received| == |ms| && forall i :: 0 <= i < |ms| ==> received[i] == Received(ms[i])
    ensures Readable(socket.arrivals) == []
  {
    hide NextFrame, Decode, OnWire, Crosses, WellFormed;
    received := [];
    for k := 0 to count
      invariant |received| == k && forall i :: 0 <= i < k ==> received[i] == Received(ms[i])
      invariant forall i :: 0 <= i < |ms| ==> OnWire(ms[i]).Some?
      invariant Readable(socket.arrivals) == AllOnWire(ms[k..])
    {
      assert ms[k..][0] == ms[k] && ms[k..][1..] == ms[k + 1..];
      FirstArrives(ms[k], AllOnWire(ms[k + 1..]));
      var incoming := Receive(socket);
      received := received + [incoming];
    }
    assert ms[count..] == [];
  }
}
