/** H4 framing (Bluetooth Core Specification Vol 4 Part A, section 2): what one byte
    does to the receiver, and what a whole byte stream means.

    `Feed` is the receiver seen one byte at a time.  `Decode` reads the same stream
    one frame at a time, with no receiver state at all.  `FeedAllDecodes` says
    the two agree on every stream. */
module H4Framing {
  import opened Hci

  // The receive buffer must hold the longest header; its size is a uint16_t.
  ghost predicate Capacity(capacity: int) {
    4 <= capacity <= 0xffff
  }

  // ---------------------------------------------------------------- byte at a time

  /** `body` is what has been stored so far, header included; `target` is the
      16-bit packet length the receiver waits for. */
  datatype State =
    | WaitType
    | InHeader(kind: Kind, header: seq<Byte>)
    | InPayload(kind: Kind, body: seq<Byte>, target: Word16)
    | Recovery

  /** `refusals` counts the bytes for which `h4_parser_feed_byte` returned false. */
  datatype Receiver = Receiver(capacity: nat, state: State, errors: Word32, refusals: nat,
                               delivered: seq<Packet>)

  function HeaderLen(kind: Kind): nat {
    match kind
    case Event => 2
    case Acl => 4
    case Sco => 3
    case Command => 0
  }

  /** The payload length a complete header declares. */
  function Declared(kind: Kind, header: seq<Byte>): nat
    requires kind != Command && |header| >= HeaderLen(kind)
  {
    match kind
    case Event => header[1]
    case Acl => Le16(header[2], header[3])
    case Sco => header[2]
  }

  predicate IsTypeByte(b: Byte) {
    b == 2 || b == 3 || b == 4
  }

  function KindOf(b: Byte): Kind
    requires IsTypeByte(b)
  {
    if b == 2 then Acl else if b == 3 then Sco else Event
  }

  function TypeByte(kind: Kind): Byte {
    match kind
    case Command => 1
    case Acl => 2
    case Sco => 3
    case Event => 4
  }

  ghost predicate Sound(r: Receiver) {
    && Capacity(r.capacity)
    && match r.state
       case InHeader(kind, header) => kind != Command && |header| < HeaderLen(kind)
       case InPayload(kind, body, target) => HeaderLen(kind) <= |body| <= r.capacity
       case _ => true
  }

  /** An error that also refuses the byte. */
  function Refuse(r: Receiver): Receiver {
    r.(state := WaitType, errors := Wrap32(r.errors + 1), refusals := r.refusals + 1)
  }

  function Deliver(r: Receiver, p: Packet): Receiver {
    r.(state := WaitType, delivered := r.delivered + [p])
  }

  function HeaderDone(r: Receiver, kind: Kind, header: seq<Byte>): Receiver
    requires kind != Command && |header| == HeaderLen(kind)
  {
    var payload := Declared(kind, header);
    var target := Wrap16(|header| + payload);
    if target > r.capacity then Refuse(r)
    else if payload == 0 then Deliver(r, Packet(kind, header))
    else r.(state := InPayload(kind, header, target))
  }

  function Feed(r: Receiver, b: Byte): (r': Receiver)
    requires Sound(r)
    ensures Sound(r') && r'.capacity == r.capacity
  {
    match r.state
    case WaitType =>
      if IsTypeByte(b) then r.(state := InHeader(KindOf(b), []))
      else r.(state := Recovery, errors := Wrap32(r.errors + 1))
    case InHeader(kind, header) =>
      var header' := header + [b];
      if |header'| == HeaderLen(kind) then HeaderDone(r, kind, header')
      else r.(state := InHeader(kind, header'))
    case InPayload(kind, body, target) =>
      if |body| >= r.capacity then Refuse(r)
      else if |body| + 1 == target then Deliver(r, Packet(kind, body + [b]))
      else r.(state := InPayload(kind, body + [b], target))
    case Recovery => r.(state := WaitType, refusals := r.refusals + 1)
  }

  function FeedAll(r: Receiver, s: seq<Byte>): (r': Receiver)
    requires Sound(r)
    ensures Sound(r') && r'.capacity == r.capacity
    decreases |s|
  {
    if s == [] then r else FeedAll(Feed(r, s[0]), s[1..])
  }

  lemma {:induction false} FeedAllConcat(r: Receiver, a: seq<Byte>, b: seq<Byte>)
    requires Sound(r)
    ensures FeedAll(r, a + b) == FeedAll(FeedAll(r, a), b)
    decreases |a|
  {
    if a == [] {
      assert a + b == b;
    } else {
      assert (a + b)[1..] == a[1..] + b;
      FeedAllConcat(Feed(r, a[0]), a[1..], b);
    }
  }

  lemma FeedSnoc(r: Receiver, s: seq<Byte>, b: Byte)
    requires Sound(r)
    ensures FeedAll(r, s + [b]) == Feed(FeedAll(r, s), b)
  {
    FeedAllConcat(r, s, [b]);
    assert [b][1..] == [];
  }

  // --------------------------------------------------------------- frame at a time

  /** The first frame of a stream: not there yet, `size` bytes that deliver nothing and
      count one error, or a packet occupying `size` bytes. */
  datatype Frame = Incomplete | Bad(size: nat) | Good(packet: Packet, size: nat)

  /** A packet length that does not fit 16 bits: only an ACL payload of
      65532..65535 bytes does this.  The wrapped target (0..3) is below the header
      length and is never reached, so the buffer is filled and one more byte
      is lost. */
  predicate LengthWraps(kind: Kind, header: seq<Byte>)
    requires kind != Command && |header| >= HeaderLen(kind)
  {
    HeaderLen(kind) + Declared(kind, header) > 0xffff
  }

  function FirstFrame(capacity: nat, s: seq<Byte>): (f: Frame)
    requires Capacity(capacity)
    ensures f.Bad? || f.Good? ==> 0 < f.size <= |s|
  {
    if s == [] then Incomplete
    else if !IsTypeByte(s[0]) then
      if |s| < 2 then Incomplete else Bad(2)
    else
      var kind := KindOf(s[0]);
      var h := HeaderLen(kind);
      if |s| < 1 + h then Incomplete
      else
        var header := s[1..1 + h];
        var length := h + Declared(kind, header);
        if LengthWraps(kind, header) then
          if |s| < capacity + 2 then Incomplete else Bad(capacity + 2)
        else if length > capacity then Bad(1 + h)
        else if |s| < 1 + length then Incomplete
        else Good(Packet(kind, s[1..1 + length]), 1 + length)
  }

  /** `bad` counts the bad frames; `rest` is the unfinished frame at the end. */
  datatype Decoding = Decoding(packets: seq<Packet>, bad: nat, rest: seq<Byte>)

  function Decode(capacity: nat, s: seq<Byte>): Decoding
    requires Capacity(capacity)
    decreases |s|
  {
    match FirstFrame(capacity, s)
    case Incomplete => Decoding([], 0, s)
    case Bad(size) =>
      var d := Decode(capacity, s[size..]);
      d.(bad := d.bad + 1)
    case Good(packet, size) =>
      var d := Decode(capacity, s[size..]);
      d.(packets := [packet] + d.packets)
  }

  /** A lone bad type byte: its error is counted before its frame is complete. */
  function BadStart(rest: seq<Byte>): nat {
    if rest != [] && !IsTypeByte(rest[0]) then 1 else 0
  }

  /** The receiver state that stands for an unfinished frame. */
  function Pending(rest: seq<Byte>): State {
    if rest == [] then WaitType
    else if !IsTypeByte(rest[0]) then Recovery
    else
      var kind := KindOf(rest[0]);
      var h := HeaderLen(kind);
      if |rest| < 1 + h then InHeader(kind, rest[1..])
      else InPayload(kind, rest[1..], Wrap16(h + Declared(kind, rest[1..1 + h])))
  }

  /** Receiver `r` after a stream that reads as `d`. */
  function Decoded(r: Receiver, d: Decoding): Receiver {
    Receiver(r.capacity, Pending(d.rest), Wrap32(r.errors + d.bad + BadStart(d.rest)),
             r.refusals + d.bad, r.delivered + d.packets)
  }

  // ------------------------------------------------------------ feeding one frame

  lemma {:induction false} FeedHeader(r: Receiver, s: seq<Byte>)
    requires Sound(r) && r.state.InHeader?
    requires |r.state.header| + |s| < HeaderLen(r.state.kind)
    ensures FeedAll(r, s) == r.(state := InHeader(r.state.kind, r.state.header + s))
    decreases |s|
  {
    if s == [] {
      assert r.state.header + s == r.state.header;
    } else {
      FeedHeader(Feed(r, s[0]), s[1..]);
      assert r.state.header + [s[0]] + s[1..] == r.state.header + s;
    }
  }

  lemma {:induction false} FeedPayload(r: Receiver, s: seq<Byte>)
    requires Sound(r) && r.state.InPayload?
    requires |r.state.body| + |s| <= r.capacity
    requires r.state.target <= |r.state.body| || |r.state.body| + |s| < r.state.target
    ensures FeedAll(r, s) == r.(state := InPayload(r.state.kind, r.state.body + s, r.state.target))
    decreases |s|
  {
    if s == [] {
      assert r.state.body + s == r.state.body;
    } else {
      FeedPayload(Feed(r, s[0]), s[1..]);
      assert r.state.body + [s[0]] + s[1..] == r.state.body + s;
    }
  }

  /** Type byte and part of the header. */
  lemma FeedTypeAndHeader(r: Receiver, b: Byte, part: seq<Byte>)
    requires Sound(r) && r.state == WaitType
    requires IsTypeByte(b) && |part| < HeaderLen(KindOf(b))
    ensures FeedAll(r, [b] + part) == r.(state := InHeader(KindOf(b), part))
  {
    FeedHeader(Feed(r, b), part);
    assert [] + part == part;
    assert ([b] + part)[1..] == part;
  }

  /** Type byte and complete header. */
  lemma FeedFullHeader(r: Receiver, b: Byte, header: seq<Byte>)
    requires Sound(r) && r.state == WaitType
    requires IsTypeByte(b) && |header| == HeaderLen(KindOf(b))
    ensures FeedAll(r, [b] + header) == HeaderDone(r, KindOf(b), header)
  {
    var part, last := header[..|header| - 1], header[|header| - 1];
    assert header == part + [last];
    assert [b] + header == [b] + part + [last];
    FeedTypeAndHeader(r, b, part);
    FeedSnoc(r, [b] + part, last);
  }

  /** A header that starts a payload, and some of that payload: short of what completes
      the packet, or of what overflows the buffer when the length wraps. */
  ghost predicate Unfinished(capacity: nat, kind: Kind, header: seq<Byte>, tail: seq<Byte>) {
    && kind != Command && |header| == HeaderLen(kind) && |header| + |tail| <= capacity
    && Declared(kind, header) > 0
    && Wrap16(|header| + Declared(kind, header)) <= capacity
    && (LengthWraps(kind, header) || |tail| < Declared(kind, header))
  }

  lemma FeedUnfinishedPayload(r: Receiver, b: Byte, header: seq<Byte>, tail: seq<Byte>)
    requires Sound(r) && r.state == WaitType
    requires IsTypeByte(b) && Unfinished(r.capacity, KindOf(b), header, tail)
    ensures var target := Wrap16(|header| + Declared(KindOf(b), header));
            FeedAll(r, [b] + header + tail) == r.(state := InPayload(KindOf(b), header + tail, target))
  {
    FeedFullHeader(r, b, header);
    FeedAllConcat(r, [b] + header, tail);
    FeedPayload(HeaderDone(r, KindOf(b), header), tail);
  }

  /** One byte more than fills the buffer. */
  lemma FeedOverflow(r: Receiver, b: Byte, header: seq<Byte>, tail: seq<Byte>, last: Byte)
    requires Sound(r) && r.state == WaitType
    requires IsTypeByte(b) && Unfinished(r.capacity, KindOf(b), header, tail)
    requires |header| + |tail| == r.capacity
    ensures FeedAll(r, [b] + header + tail + [last]) == Refuse(r)
  {
    FeedUnfinishedPayload(r, b, header, tail);
    FeedSnoc(r, [b] + header + tail, last);
  }

  /** The last byte of the declared payload. */
  lemma FeedLastByte(r: Receiver, b: Byte, header: seq<Byte>, tail: seq<Byte>, last: Byte)
    requires Sound(r) && r.state == WaitType
    requires IsTypeByte(b) && Unfinished(r.capacity, KindOf(b), header, tail)
    requires |tail| + 1 == Declared(KindOf(b), header) && |header| + |tail| < r.capacity
    ensures FeedAll(r, [b] + header + tail + [last])
         == Deliver(r, Packet(KindOf(b), header + tail + [last]))
  {
    FeedUnfinishedPayload(r, b, header, tail);
    FeedSnoc(r, [b] + header + tail, last);
  }

  /** An unfinished frame with a complete header, taken apart. */
  lemma IncompleteParts(capacity: nat, s: seq<Byte>) returns (header: seq<Byte>, tail: seq<Byte>)
    requires Capacity(capacity) && FirstFrame(capacity, s).Incomplete?
    requires s != [] && IsTypeByte(s[0]) && |s| >= 1 + HeaderLen(KindOf(s[0]))
    ensures s == [s[0]] + header + tail && Unfinished(capacity, KindOf(s[0]), header, tail)
    ensures Pending(s)
         == InPayload(KindOf(s[0]), header + tail, Wrap16(|header| + Declared(KindOf(s[0]), header)))
  {
    var h := HeaderLen(KindOf(s[0]));
    header, tail := s[1..1 + h], s[1 + h..];
    assert s[1..] == header + tail;
  }

  lemma FeedIncomplete(r: Receiver, s: seq<Byte>)
    requires Sound(r) && r.state == WaitType && FirstFrame(r.capacity, s).Incomplete?
    ensures FeedAll(r, s) == r.(state := Pending(s), errors := Wrap32(r.errors + BadStart(s)))
  {
    if s == [] {
    } else if !IsTypeByte(s[0]) {
      assert s == [] + [s[0]];
      FeedSnoc(r, [], s[0]);
    } else if |s| <= HeaderLen(KindOf(s[0])) {
      assert s == [s[0]] + s[1..];
      FeedTypeAndHeader(r, s[0], s[1..]);
    } else {
      var header, tail := IncompleteParts(r.capacity, s);
      FeedUnfinishedPayload(r, s[0], header, tail);
    }
  }

  lemma FeedBadType(r: Receiver, b: Byte, c: Byte)
    requires Sound(r) && r.state == WaitType && !IsTypeByte(b)
    ensures FeedAll(r, [b, c]) == Refuse(r)
  {
    assert [b, c] == [] + [b] + [c];
    FeedSnoc(r, [], b);
    FeedSnoc(r, [] + [b], c);
  }

  /** A frame whose length wraps, taken apart. */
  lemma WrappedParts(capacity: nat, s: seq<Byte>)
    returns (header: seq<Byte>, tail: seq<Byte>, last: Byte)
    requires Capacity(capacity) && FirstFrame(capacity, s) == Bad(|s|)
    requires IsTypeByte(s[0]) && |s| > 1 + HeaderLen(KindOf(s[0]))
    ensures s == [s[0]] + header + tail + [last] && Unfinished(capacity, KindOf(s[0]), header, tail)
    ensures |header| + |tail| == capacity
  {
    var h, n := HeaderLen(KindOf(s[0])), |s| - 1;
    header, tail, last := s[1..1 + h], s[1 + h..n], s[n];
  }

  lemma FeedBad(r: Receiver, s: seq<Byte>)
    requires Sound(r) && r.state == WaitType && FirstFrame(r.capacity, s) == Bad(|s|)
    ensures FeedAll(r, s) == Refuse(r)
  {
    if !IsTypeByte(s[0]) {
      assert s == [s[0], s[1]];
      FeedBadType(r, s[0], s[1]);
    } else if |s| == 1 + HeaderLen(KindOf(s[0])) {
      assert s == [s[0]] + s[1..|s|];
      FeedFullHeader(r, s[0], s[1..|s|]);
    } else {
      var header, tail, last := WrappedParts(r.capacity, s);
      FeedOverflow(r, s[0], header, tail, last);
    }
  }

  /** A good frame with a payload, taken apart. */
  lemma GoodParts(capacity: nat, s: seq<Byte>)
    returns (header: seq<Byte>, tail: seq<Byte>, last: Byte)
    requires Capacity(capacity) && FirstFrame(capacity, s).Good?
    requires FirstFrame(capacity, s).size == |s| > 1 + HeaderLen(KindOf(s[0]))
    ensures s == [s[0]] + header + tail + [last] && Unfinished(capacity, KindOf(s[0]), header, tail)
    ensures |tail| + 1 == Declared(KindOf(s[0]), header) && |header| + |tail| < capacity
    ensures FirstFrame(capacity, s).packet == Packet(KindOf(s[0]), header + tail + [last])
  {
    var h, n := HeaderLen(KindOf(s[0])), |s| - 1;
    header, tail, last := s[1..1 + h], s[1 + h..n], s[n];
    assert s[1..|s|] == header + tail + [last];
  }

  lemma FeedGood(r: Receiver, s: seq<Byte>)
    requires Sound(r) && r.state == WaitType
    requires FirstFrame(r.capacity, s).Good? && FirstFrame(r.capacity, s).size == |s|
    ensures FeedAll(r, s) == Deliver(r, FirstFrame(r.capacity, s).packet)
  {
    if |s| == 1 + HeaderLen(KindOf(s[0])) {
      assert s == [s[0]] + s[1..|s|];
      FeedFullHeader(r, s[0], s[1..|s|]);
    } else {
      var header, tail, last := GoodParts(r.capacity, s);
      FeedLastByte(r, s[0], header, tail, last);
    }
  }

  /** A frame is decided by its own bytes. */
  lemma FirstFrameLocal(capacity: nat, s: seq<Byte>, t: seq<Byte>)
    requires Capacity(capacity) && !FirstFrame(capacity, s).Incomplete?
    requires t == s[..FirstFrame(capacity, s).size]
    ensures FirstFrame(capacity, t) == FirstFrame(capacity, s)
  {
    if IsTypeByte(s[0]) {
      var h := HeaderLen(KindOf(s[0]));
      SliceOfPrefix(s, |t|, 1, 1 + h);
      SliceOfPrefix(s, |t|, 1, |t|);
    }
  }

  /** The first frame of a stream is received, and the receiver is back in WaitType. */
  lemma FeedFrame(r: Receiver, s: seq<Byte>, f: Frame) returns (r': Receiver)
    requires Sound(r) && r.state == WaitType
    requires f == FirstFrame(r.capacity, s) && !f.Incomplete?
    ensures r' == if f.Bad? then Refuse(r) else Deliver(r, f.packet)
    ensures FeedAll(r, s) == FeedAll(r', s[f.size..])
  {
    var a, b := s[..f.size], s[f.size..];
    assert s == a + b;
    FirstFrameLocal(r.capacity, s, a);
    if f.Bad? { FeedBad(r, a); } else { FeedGood(r, a); }
    r' := FeedAll(r, a);
    FeedAllConcat(r, a, b);
  }

  /** MAIN: on every byte stream, the byte-at-a-time receiver delivers exactly the
      packets of the frame-at-a-time reading, refuses one byte and counts one error for
      each bad frame, and is left in the state of the unfinished frame. */
  lemma {:induction false} FeedAllDecodes(r: Receiver, s: seq<Byte>)
    requires Sound(r) && r.state == WaitType
    ensures FeedAll(r, s) == Decoded(r, Decode(r.capacity, s))
    decreases |s|
  {
    hide FeedAll;
    hide FirstFrame;
    var f := FirstFrame(r.capacity, s);
    if f.Incomplete? {
      FeedIncomplete(r, s);
    } else {
      var r' := FeedFrame(r, s, f);
      FeedAllDecodes(r', s[f.size..]);
      DecodedAfterFrame(r, r', f, Decode(r.capacity, s[f.size..]));
    }
  }

  lemma DecodedAfterFrame(r: Receiver, r': Receiver, f: Frame, d: Decoding)
    requires f.Good? ==> r' == Deliver(r, f.packet)
    requires f.Bad? ==> r' == Refuse(r)
    ensures f.Good? ==> Decoded(r', d) == Decoded(r, d.(packets := [f.packet] + d.packets))
    ensures f.Bad? ==> Decoded(r', d) == Decoded(r, d.(bad := d.bad + 1))
  {
    if f.Bad? {
      Wrap32Add(r.errors + 1, d.bad + BadStart(d.rest));
    } else if f.Good? {
      assert r.delivered + [f.packet] + d.packets == r.delivered + ([f.packet] + d.packets);
    }
  }

  // ------------------------------------------------------------------- round trip

  /** An event, ACL or SCO packet whose bytes are a header and the payload it declares. */
  predicate WellFormedPacket(p: Packet) {
    && p.kind != Command
    && |p.data| >= HeaderLen(p.kind)
    && |p.data| == HeaderLen(p.kind) + Declared(p.kind, p.data)
  }

  function Encode(packets: seq<Packet>): seq<Byte> {
    if packets == [] then []
    else [TypeByte(packets[0].kind)] + packets[0].data + Encode(packets[1..])
  }

  /** MAIN: serialised packets come back, each once, in order, byte for byte; no byte is
      refused and no error counted. */
  lemma RoundTrip(r: Receiver, packets: seq<Packet>)
    requires Sound(r) && r.state == WaitType
    requires forall p :: p in packets ==> WellFormedPacket(p) && |p.data| <= r.capacity
    ensures FeedAll(r, Encode(packets)) == r.(delivered := r.delivered + packets)
  {
    DecodeEncode(r.capacity, packets);
    FeedAllDecodes(r, Encode(packets));
    hide FeedAll;
    hide Encode;
    hide Decode;
  }

  lemma {:induction false} DecodeEncode(capacity: nat, packets: seq<Packet>)
    requires Capacity(capacity)
    requires forall p :: p in packets ==> WellFormedPacket(p) && |p.data| <= capacity
    ensures Decode(capacity, Encode(packets)) == Decoding(packets, 0, [])
  {
    if packets != [] {
      FirstFrameOfEncoded(capacity, packets[0], Encode(packets[1..]));
      assert Encode(packets)[1 + |packets[0].data|..] == Encode(packets[1..]);
      DecodeEncode(capacity, packets[1..]);
    }
  }

  lemma FirstFrameOfEncoded(capacity: nat, p: Packet, rest: seq<Byte>)
    requires Capacity(capacity) && WellFormedPacket(p) && |p.data| <= capacity
    ensures FirstFrame(capacity, [TypeByte(p.kind)] + p.data + rest) == Good(p, 1 + |p.data|)
  {
    var s := [TypeByte(p.kind)] + p.data + rest;
    var h := HeaderLen(p.kind);
    assert s[1..1 + h] == p.data[..h];
    assert s[1..1 + |p.data|] == p.data;
  }

  // ---------------------------------------------------------- every byte stream

  /** Packet `p` stands in `s` at `at`, right after its type byte. */
  ghost predicate StandsAt(p: Packet, s: seq<Byte>, at: int) {
    && 1 <= at && at + |p.data| <= |s|
    && s[at - 1] == TypeByte(p.kind)
    && s[at..at + |p.data|] == p.data
  }

  /** The packets stand in `s` in order, without sharing a byte. */
  ghost predicate Located(packets: seq<Packet>, s: seq<Byte>, at: seq<int>) {
    && |at| == |packets|
    && (forall k :: 0 <= k < |at| ==> StandsAt(packets[k], s, at[k]))
    && (forall k :: 0 <= k < |at| - 1 ==> EndsBeforeNext(packets, at, k))
  }

  predicate EndsBeforeNext(packets: seq<Packet>, at: seq<int>, k: nat)
    requires k + 1 < |at| == |packets|
  {
    at[k] + |packets[k].data| < at[k + 1]
  }

  /** MAIN: whatever bytes arrive, each delivered packet is self-consistent, fits the
      buffer, and is a piece of the stream after its own type byte; the pieces are in
      order and disjoint. */
  lemma {:induction false} DeliveredAreLocated(capacity: nat, s: seq<Byte>)
    requires Capacity(capacity)
    ensures forall p :: p in Decode(capacity, s).packets ==> WellFormedPacket(p) && |p.data| <= capacity
    ensures exists at :: Located(Decode(capacity, s).packets, s, at)
    decreases |s|
  {
    var f := FirstFrame(capacity, s);
    if f.Incomplete? {
      assert Decode(capacity, s).packets == [];
      assert Located(Decode(capacity, s).packets, s, []);
    } else {
      var t := s[f.size..];
      DeliveredAreLocated(capacity, t);
      var tail := Decode(capacity, t).packets;
      var at :| Located(tail, t, at);
      var shifted := LocatedShift(tail, s, f.size, at);
      if f.Good? {
        GoodFrameStands(capacity, s);
        LocatedCons(f.packet, tail, s, shifted);
        assert Decode(capacity, s).packets == [f.packet] + tail;
        assert Located(Decode(capacity, s).packets, s, [1] + shifted);
      } else {
        assert Decode(capacity, s).packets == tail;
        assert Located(Decode(capacity, s).packets, s, shifted);
      }
    }
  }

  lemma LocatedShift(packets: seq<Packet>, s: seq<Byte>, n: nat, at: seq<int>) returns (shifted: seq<int>)
    requires n <= |s| && Located(packets, s[n..], at)
    ensures Located(packets, s, shifted) && (shifted != [] ==> shifted[0] >= n + 1)
  {
    shifted := seq(|at|, k requires 0 <= k < |at| => at[k] + n);
    forall k | 0 <= k < |at| ensures StandsAt(packets[k], s, shifted[k]) {
      assert StandsAt(packets[k], s[n..], at[k]);
      assert s[n..][at[k]..at[k] + |packets[k].data|] == s[shifted[k]..shifted[k] + |packets[k].data|];
    }
    forall k | 0 <= k < |at| - 1 ensures EndsBeforeNext(packets, shifted, k) {
      assert EndsBeforeNext(packets, at, k);
    }
  }

  lemma LocatedCons(p: Packet, packets: seq<Packet>, s: seq<Byte>, at: seq<int>)
    requires StandsAt(p, s, 1) && Located(packets, s, at)
    requires at != [] ==> at[0] > 1 + |p.data|
    ensures Located([p] + packets, s, [1] + at)
  {
    hide StandsAt;
    var all, ats := [p] + packets, [1] + at;
    forall k | 0 <= k < |ats| ensures StandsAt(all[k], s, ats[k]) {
      if k > 0 { assert StandsAt(packets[k - 1], s, at[k - 1]); }
    }
    forall k | 0 <= k < |ats| - 1 ensures EndsBeforeNext(all, ats, k) {
      if k > 0 { assert EndsBeforeNext(packets, at, k - 1); }
    }
  }

  lemma GoodFrameStands(capacity: nat, s: seq<Byte>)
    requires Capacity(capacity) && FirstFrame(capacity, s).Good?
    ensures var f := FirstFrame(capacity, s);
            && WellFormedPacket(f.packet) && |f.packet.data| <= capacity
            && f.size == 1 + |f.packet.data| && StandsAt(f.packet, s, 1)
  {
    var f := FirstFrame(capacity, s);
    var h := HeaderLen(KindOf(s[0]));
    assert f.packet.kind == KindOf(s[0]);
    assert f.packet.data == s[1..f.size];
    assert h < f.size;
    assert forall i :: 0 <= i < h ==> s[1..1 + h][i] == f.packet.data[i];
    assert s[1..1 + h] == f.packet.data[..h];
  }

  /** MAIN: an ACL header whose length wraps never delivers its packet: the receiver
      swallows as many bytes as fill the buffer, refuses one more, and counts one
      error. */
  lemma WrappedLengthNeverDelivers(r: Receiver, header: seq<Byte>, fill: seq<Byte>, last: Byte)
    requires Sound(r) && r.state == WaitType
    requires |header| == 4 && Declared(Acl, header) >= 0xfffc && |header| + |fill| == r.capacity
    ensures FeedAll(r, [TypeByte(Acl)] + header + fill + [last]) == Refuse(r)
  {
    FeedOverflow(r, TypeByte(Acl), header, fill, last);
  }
}
