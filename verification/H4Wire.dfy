/** H4 on the wire, byte by byte (Bluetooth Core Specification Vol 4 Part A, section 2, and Vol 4
    Part E, sections 5.4.2 to 5.4.4): what the receiver makes of packets built field by field. */
module H4Wire {
  import opened Hci
  import opened H4Framing

  /** A packet before it is serialised. */
  datatype Built =
    | EventOf(code: Byte, payload: seq<Byte>)
    | AclOf(handleLow: Byte, handleHigh: Byte, payload: seq<Byte>)
    | ScoOf(handleLow: Byte, handleHigh: Byte, payload: seq<Byte>)

  /** The payload fits the length field: one byte, or two for ACL. */
  predicate Fits(b: Built) {
    |b.payload| <= if b.AclOf? then 65535 else 255
  }

  function BytesOf(b: Built): seq<Byte>
    requires Fits(b)
  {
    var n := |b.payload|;
    match b
    case EventOf(code, payload) => [code, n] + payload
    case AclOf(low, high, payload) => [low, high, n % 256, n / 256] + payload
    case ScoOf(low, high, payload) => [low, high, n] + payload
  }

  function TypeOf(b: Built): Byte {
    match b
    case EventOf(_, _) => 4
    case AclOf(_, _, _) => 2
    case ScoOf(_, _, _) => 3
  }

  function KindOfBuilt(b: Built): Kind {
    match b
    case EventOf(_, _) => Event
    case AclOf(_, _, _) => Acl
    case ScoOf(_, _, _) => Sco
  }

  predicate AllFit(bs: seq<Built>, capacity: nat) {
    forall i :: 0 <= i < |bs| ==> Fits(bs[i]) && |BytesOf(bs[i])| <= capacity
  }

  function PacketOf(b: Built): Packet
    requires Fits(b)
  {
    Packet(KindOfBuilt(b), BytesOf(b))
  }

  function Packets(bs: seq<Built>, capacity: nat): seq<Packet>
    requires AllFit(bs, capacity)
  {
    seq(|bs|, i requires 0 <= i < |bs| => PacketOf(bs[i]))
  }

  /** The bytes on the wire. */
  function Stream(bs: seq<Built>, capacity: nat): seq<Byte>
    requires AllFit(bs, capacity)
  {
    if bs == [] then [] else [TypeOf(bs[0])] + BytesOf(bs[0]) + Stream(bs[1..], capacity)
  }

  lemma BuiltIsWellFormed(b: Built)
    requires Fits(b)
    ensures WellFormedPacket(PacketOf(b)) && TypeByte(PacketOf(b).kind) == TypeOf(b)
  {
  }

  lemma {:induction false} StreamIsEncode(bs: seq<Built>, capacity: nat)
    requires AllFit(bs, capacity)
    ensures Encode(Packets(bs, capacity)) == Stream(bs, capacity)
    decreases |bs|
  {
    if bs != [] {
      var ps := Packets(bs, capacity);
      BuiltIsWellFormed(bs[0]);
      StreamIsEncode(bs[1..], capacity);
      assert ps[1..] == Packets(bs[1..], capacity) && ps[0] == PacketOf(bs[0]);
      hide BytesOf;
    }
  }

  /** MAIN: any events, ACL and SCO packets built from their fields that fit the buffer come back as
      built, once each and in order, with no byte refused and no error. */
  lemma BuiltRoundTrip(r: Receiver, bs: seq<Built>)
    requires Sound(r) && r.state == WaitType && AllFit(bs, r.capacity)
    ensures FeedAll(r, Stream(bs, r.capacity)) == r.(delivered := r.delivered + Packets(bs, r.capacity))
  {
    hide FeedAll;
    hide Encode;
    hide Stream;
    var ps := Packets(bs, r.capacity);
    forall p | p in ps ensures WellFormedPacket(p) && |p.data| <= r.capacity {
      var i :| 0 <= i < |ps| && ps[i] == p;
      BuiltIsWellFormed(bs[i]);
    }
    StreamIsEncode(bs, r.capacity);
    RoundTrip(r, ps);
  }

  lemma WellFormedIsBuilt(p: Packet) returns (b: Built)
    requires WellFormedPacket(p)
    ensures Fits(b) && p == PacketOf(b)
  {
    var d := p.data;
    if p.kind == Event {
      b := EventOf(d[0], d[2..]);
    } else if p.kind == Acl {
      b := AclOf(d[0], d[1], d[4..]);
    } else {
      b := ScoOf(d[0], d[1], d[3..]);
    }
    assert BytesOf(b) == d;
  }

  /** MAIN: conversely, on any stream every delivered packet is one of these, built from some
      fields. */
  lemma DeliveredIsBuilt(capacity: nat, s: seq<Byte>, p: Packet)
    requires Capacity(capacity) && p in Decode(capacity, s).packets
    ensures exists b :: Fits(b) && p == PacketOf(b)
  {
    hide Decode;
    hide WellFormedPacket;
    DeliveredAreLocated(capacity, s);
    var b := WellFormedIsBuilt(p);
  }

  // ------------------------------------------------------------------- bad frames

  lemma FeedOne(r: Receiver, b: Byte)
    requires Sound(r)
    ensures FeedAll(r, [b]) == Feed(r, b)
  {
    assert [b][1..] == [];
    assert FeedAll(Feed(r, b), []) == Feed(r, b);
  }

  lemma FeedTwo(r: Receiver, a: Byte, b: Byte)
    requires Sound(r)
    ensures FeedAll(r, [a, b]) == Feed(Feed(r, a), b)
  {
    assert [a, b] == [a] + [b];
    FeedAllConcat(r, [a], [b]);
    FeedOne(r, a);
    FeedOne(Feed(r, a), b);
  }

  /** MAIN: a byte that is no type byte costs the next byte too, whatever that is: one error, one
      byte refused, nothing delivered. */
  lemma BadTypeCostsTwo(r: Receiver, bad: Byte, next: Byte)
    requires Sound(r) && r.state == WaitType && bad != 2 && bad != 3 && bad != 4
    ensures FeedAll(r, [bad, next]) == r.(errors := (r.errors + 1) % 0x1_0000_0000, refusals := r.refusals + 1)
  {
    FeedTwo(r, bad, next);
  }

  lemma FeedHeaderBytes(r: Receiver, a: Byte, b: Byte, c: Byte, d: Byte)
    requires Sound(r) && r.state == InHeader(Acl, [])
    ensures FeedAll(r, [a, b, c, d]) == HeaderDone(r, Acl, [a, b, c, d])
  {
    var r1, r2, r3 := Feed(r, a), Feed(Feed(r, a), b), Feed(Feed(Feed(r, a), b), c);
    assert r1 == r.(state := InHeader(Acl, [a]));
    assert r2 == r.(state := InHeader(Acl, [a, b]));
    assert r3 == r.(state := InHeader(Acl, [a, b, c]));
    assert [a, b, c, d] == [a, b] + [c, d];
    FeedAllConcat(r, [a, b], [c, d]);
    FeedTwo(r, a, b);
    FeedTwo(r2, c, d);
    assert [a, b, c] + [d] == [a, b, c, d];
    hide FeedAll;
  }

  /** MAIN: an ACL header that declares more than fits is refused at once, with its last byte: one
      error, and the next byte is taken for a type byte. */
  lemma OversizeRefused(r: Receiver, low: Byte, high: Byte, lenLow: Byte, lenHigh: Byte)
    requires Sound(r) && r.state == WaitType
    requires r.capacity < 4 + lenLow + 256 * lenHigh <= 65535
    ensures FeedAll(r, [2, low, high, lenLow, lenHigh])
         == r.(errors := (r.errors + 1) % 0x1_0000_0000, refusals := r.refusals + 1)
  {
    hide FeedAll;
    var r1 := Feed(r, 2);
    assert [2, low, high, lenLow, lenHigh] == [2] + [low, high, lenLow, lenHigh];
    FeedAllConcat(r, [2], [low, high, lenLow, lenHigh]);
    FeedOne(r, 2);
    FeedHeaderBytes(r1, low, high, lenLow, lenHigh);
  }
}
