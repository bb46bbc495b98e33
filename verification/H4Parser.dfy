/** The H4 receiver as the firmware runs it: a header array, a packet buffer and
    positions into them, updated byte by byte.  Every method is proved against the
    `Receiver` of H4Framing. */
module H4Parser {
  import opened Hci
  import H4Framing

  datatype ParserState =
    | WaitType
    | ReadEventHeader | ReadEventPayload
    | ReadAclHeader | ReadAclPayload
    | ReadScoHeader | ReadScoPayload
    | ErrorRecovery

  function PayloadOf(state: ParserState): ParserState {
    match state
    case ReadEventHeader => ReadEventPayload
    case ReadAclHeader => ReadAclPayload
    case ReadScoHeader => ReadScoPayload
    case _ => state
  }

  class Parser {
    var state: ParserState
    var kind: Kind
    const header: array<Byte>
    var headerLen: nat
    var headerPos: nat
    const packet: array<Byte>
    var packetPos: Word16
    var packetLen: Word16
    var errorCount: Word32
    var hasCallback: bool
    // What the receive callback has been given, and how many bytes were refused.
    ghost var delivered: seq<Packet>
    ghost var refusals: nat

    predicate InHeader()
      reads this
    {
      state == ReadEventHeader || state == ReadAclHeader || state == ReadScoHeader
    }

    predicate InPayload()
      reads this
    {
      state == ReadEventPayload || state == ReadAclPayload || state == ReadScoPayload
    }

    /** Between two calls the header is never complete. */
    ghost predicate Valid()
      reads this
    {
      Sound() && (InHeader() ==> headerPos < headerLen)
    }

    ghost predicate Sound()
      reads this
    {
      && header.Length == 4 && header != packet
      && H4Framing.Capacity(packet.Length)
      && (state in {ReadEventHeader, ReadEventPayload} ==> kind == Event)
      && (state in {ReadAclHeader, ReadAclPayload} ==> kind == Acl)
      && (state in {ReadScoHeader, ReadScoPayload} ==> kind == Sco)
      && (InHeader() ==> headerLen == H4Framing.HeaderLen(kind) && headerPos <= headerLen)
      && (InPayload() ==> H4Framing.HeaderLen(kind) <= packetPos <= packet.Length)
    }

    ghost function Receiver(): (r: H4Framing.Receiver)
      requires Valid()
      reads this, header, packet
      ensures H4Framing.Sound(r)
    {
      H4Framing.Receiver(
        packet.Length,
        if state == WaitType then H4Framing.WaitType
        else if state == ErrorRecovery then H4Framing.Recovery
        else if InHeader() then H4Framing.InHeader(kind, header[..headerPos])
        else H4Framing.InPayload(kind, packet[..packetPos], packetLen),
        errorCount,
        refusals,
        delivered)
    }

    constructor (storage: array<Byte>, hasCallback: bool)
      requires H4Framing.Capacity(storage.Length)
      ensures Valid() && packet == storage && fresh(header)
      ensures this.hasCallback == hasCallback
      ensures Receiver() == H4Framing.Receiver(storage.Length, H4Framing.WaitType, 0, 0, [])
    {
      state, kind := WaitType, Command;
      header := new Byte[4](_ => 0);
      headerLen, headerPos := 0, 0;
      packet, packetPos, packetLen := storage, 0, 0;
      errorCount, this.hasCallback, delivered, refusals := 0, hasCallback, [], 0;
    }

    /** `next`, less the delivery nobody listens to. */
    ghost function Heard(r: H4Framing.Receiver, next: H4Framing.Receiver): H4Framing.Receiver
      reads this`hasCallback
    {
      if hasCallback then next else next.(delivered := r.delivered)
    }

    method Reset()
      requires Sound()
      modifies this`state, this`headerLen, this`headerPos, this`packetPos, this`packetLen
      ensures Valid() && state == WaitType
    {
      state := WaitType;
      headerLen, headerPos := 0, 0;
      packetPos, packetLen := 0, 0;
    }

    method StartHeader(kind: Kind, headerLen: nat)
      modifies this`kind, this`headerLen, this`headerPos, this`packetPos, this`packetLen
      ensures this.kind == kind && this.headerLen == headerLen && headerPos == 0
    {
      this.kind, this.headerLen := kind, headerLen;
      headerPos, packetPos, packetLen := 0, 0, 0;
    }

    /** Count an error and give up on the packet. */
    method Refuse(ghost r: H4Framing.Receiver)
      requires Sound() && r == H4Framing.Receiver(packet.Length, r.state, errorCount, refusals, delivered)
      modifies this`errorCount, this`refusals
      modifies this`state, this`headerLen, this`headerPos, this`packetPos, this`packetLen
      ensures Valid() && Receiver() == H4Framing.Refuse(r)
    {
      errorCount := Wrap32(errorCount + 1);
      Reset();
      refusals := refusals + 1;
    }

    /** Hand the packet buffer to the callback and wait for the next packet. */
    method DeliverAndReset(ghost r: H4Framing.Receiver)
      requires Sound() && packetLen <= packet.Length
      requires r == H4Framing.Receiver(packet.Length, r.state, errorCount, refusals, delivered)
      modifies this`delivered
      modifies this`state, this`headerLen, this`headerPos, this`packetPos, this`packetLen
      ensures Valid()
      ensures Receiver() == Heard(r, H4Framing.Deliver(r, Packet(kind, old(packet[..packetLen]))))
    {
      if hasCallback {
        delivered := delivered + [Packet(kind, packet[..packetLen])];
      }
      Reset();
    }

    method CopyHeader()
      requires Sound() && InHeader()
      modifies this`packetPos, packet
      ensures packetPos == headerLen && packet[..packetPos] == old(header[..headerLen])
    {
      forall i | 0 <= i < headerLen { packet[i] := header[i]; }
      packetPos := headerLen;
    }

    /** The packet fits and its header is stored: deliver it, or read its payload. */
    method StartPayload(payloadState: ParserState, payloadLen: nat, ghost r: H4Framing.Receiver)
      requires Sound() && InHeader() && payloadState == PayloadOf(state)
      requires packetPos == headerLen && packetLen <= packet.Length
      requires payloadLen == 0 ==> packetLen == packetPos
      requires r == H4Framing.Receiver(packet.Length, r.state, errorCount, refusals, delivered)
      modifies this`delivered
      modifies this`state, this`headerLen, this`headerPos, this`packetPos, this`packetLen
      ensures Valid()
      ensures var header := old(packet[..packetPos]);
              Receiver() == if payloadLen == 0 then Heard(r, H4Framing.Deliver(r, Packet(kind, header)))
                            else r.(state := H4Framing.InPayload(kind, header, old(packetLen)))
    {
      if payloadLen == 0 {
        DeliverAndReset(r);
      } else {
        state := payloadState;
      }
    }

    /** The header is complete: refuse the packet, deliver it, or start its payload. */
    method BeginPayload(payloadState: ParserState, payloadLen: nat, ghost r: H4Framing.Receiver)
      returns (ok: bool)
      requires Sound() && InHeader() && headerPos == headerLen
      requires payloadState == PayloadOf(state)
      requires payloadLen <= 0xffff
      requires r == H4Framing.Receiver(packet.Length, r.state, errorCount, refusals, delivered)
      modifies this, packet
      ensures Valid() && hasCallback == old(hasCallback)
      ensures ok <==> refusals == old(refusals)
      ensures var whole, target := old(header[..headerLen]), Wrap16(old(headerLen) + payloadLen);
              Receiver() == if target > packet.Length then H4Framing.Refuse(r)
                            else if payloadLen == 0 then Heard(r, H4Framing.Deliver(r, Packet(old(kind), whole)))
                            else r.(state := H4Framing.InPayload(old(kind), whole, target))
    {
      packetLen := Wrap16(headerLen + payloadLen);
      if packetLen > packet.Length {
        Refuse(r);
        return false;
      }
      CopyHeader();
      StartPayload(payloadState, payloadLen, r);
      return true;
    }

    /** Store one header byte. */
    method StoreHeaderByte(byte: Byte)
      requires Valid() && InHeader()
      modifies this`headerPos, header
      ensures Sound() && headerPos == old(headerPos) + 1
      ensures header[..headerPos] == old(header[..headerPos]) + [byte]
    {
      header[headerPos] := byte;
      headerPos := headerPos + 1;
    }

    method DeclaredPayloadLen() returns (payloadLen: nat)
      requires Sound() && InHeader() && headerPos == headerLen
      ensures payloadLen == H4Framing.Declared(kind, header[..headerLen]) <= 0xffff
    {
      return if state == ReadAclHeader then Le16(header[2], header[3])
             else if state == ReadScoHeader then header[2]
             else header[1];
    }

    method FinishHeader(payloadState: ParserState, ghost r: H4Framing.Receiver) returns (ok: bool)
      requires Sound() && InHeader() && headerPos == headerLen
      requires payloadState == PayloadOf(state)
      requires r == H4Framing.Receiver(packet.Length, r.state, errorCount, refusals, delivered)
      modifies this, packet
      ensures Valid() && hasCallback == old(hasCallback)
      ensures ok <==> refusals == old(refusals)
      ensures Receiver() == Heard(r, H4Framing.HeaderDone(r, old(kind), old(header[..headerLen])))
    {
      hide H4Framing.Declared;
      var payloadLen := DeclaredPayloadLen();
      ok := BeginPayload(payloadState, payloadLen, r);
    }

    /** A header byte, in any of the three header states. */
    method FeedHeader(payloadState: ParserState, byte: Byte) returns (ok: bool)
      requires Valid() && InHeader()
      requires payloadState == PayloadOf(state)
      modifies this, header, packet
      ensures Valid() && hasCallback == old(hasCallback)
      ensures ok <==> refusals == old(refusals)
      ensures Receiver() == Heard(old(Receiver()), H4Framing.Feed(old(Receiver()), byte))
    {
      hide H4Framing.HeaderDone;
      ghost var r := Receiver();
      StoreHeaderByte(byte);
      if headerPos < headerLen {
        return true;
      }
      ok := FinishHeader(payloadState, r);
    }

    method FeedType(byte: Byte)
      requires Valid() && state == WaitType
      modifies this
      ensures Valid() && hasCallback == old(hasCallback)
      ensures Receiver() == H4Framing.Feed(old(Receiver()), byte)
    {
      if byte == 0x04 {
        StartHeader(Event, 2);
        state := ReadEventHeader;
      } else if byte == 0x02 {
        StartHeader(Acl, 4);
        state := ReadAclHeader;
      } else if byte == 0x03 {
        StartHeader(Sco, 3);
        state := ReadScoHeader;
      } else {
        errorCount := Wrap32(errorCount + 1);
        state := ErrorRecovery;
      }
      assert header[..0] == [];
    }

    /** A payload byte, in any of the three payload states. */
    method FeedPayload(byte: Byte) returns (ok: bool)
      requires Valid() && InPayload()
      modifies this, packet
      ensures Valid() && hasCallback == old(hasCallback)
      ensures ok <==> refusals == old(refusals)
      ensures Receiver() == Heard(old(Receiver()), H4Framing.Feed(old(Receiver()), byte))
    {
      ghost var r := Receiver();
      if packetPos >= packet.Length {
        Refuse(r);
        return false;
      }
      packet[packetPos] := byte;
      packetPos := packetPos + 1;
      assert packet[..packetPos] == r.state.body + [byte];
      if packetPos == packetLen {
        DeliverAndReset(r);
      }
      return true;
    }

    /** One received byte: `Feed`, except that without a callback nothing is delivered. */
    method FeedByte(byte: Byte) returns (ok: bool)
      requires Valid()
      modifies this, header, packet
      ensures Valid() && hasCallback == old(hasCallback)
      ensures ok <==> refusals == old(refusals)
      ensures Receiver() == Heard(old(Receiver()), H4Framing.Feed(old(Receiver()), byte))
    {
      match state {
        case WaitType =>
          FeedType(byte);
          return true;
        case ReadEventHeader => ok := FeedHeader(ReadEventPayload, byte);
        case ReadAclHeader => ok := FeedHeader(ReadAclPayload, byte);
        case ReadScoHeader => ok := FeedHeader(ReadScoPayload, byte);
        case ReadEventPayload => ok := FeedPayload(byte);
        case ReadAclPayload => ok := FeedPayload(byte);
        case ReadScoPayload => ok := FeedPayload(byte);
        case ErrorRecovery =>
          Reset();
          refusals := refusals + 1;
          return false;
      }
    }
  }
}
