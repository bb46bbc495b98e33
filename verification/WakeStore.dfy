/** The flash image of the wake list: a 144-byte little-endian record with an FNV-1a
    checksum over itself (its own field taken as zero). */
module WakeStore {
  import opened Hci
  import opened WakePeers

  const STORE_SIZE := 144
  const FLASH_PAGE_SIZE := 256
  const FNV_OFFSET: Word32 := 2166136261

  // ------------------------------------------------------------------------ FNV-1a

  function Pow2(n: nat): nat {
    if n == 0 then 1 else 2 * Pow2(n - 1)
  }

  /** Bitwise exclusive-or. */
  function Xor(a: nat, b: nat): nat
    decreases a + b
  {
    if a == 0 && b == 0 then 0 else 2 * Xor(a / 2, b / 2) + (a % 2 + b % 2) % 2
  }

  lemma {:induction false} XorBelow(a: nat, b: nat, n: nat)
    requires a < Pow2(n) && b < Pow2(n)
    ensures Xor(a, b) < Pow2(n)
  {
    if n > 0 { XorBelow(a / 2, b / 2, n - 1); }
  }

  lemma XorParts(a: nat, b: nat)
    ensures Xor(a, b) / 2 == Xor(a / 2, b / 2) && Xor(a, b) % 2 == (a % 2 + b % 2) % 2
  {
  }

  lemma {:induction false} XorCancels(a: nat, b: nat, c: nat)
    requires Xor(a, b) == Xor(a, c)
    ensures b == c
    decreases a + b + c
  {
    if a + b + c > 0 {
      XorParts(a, b);
      XorParts(a, c);
      XorCancels(a / 2, b / 2, c / 2);
    }
  }

  lemma {:induction false} XorCommutes(a: nat, b: nat)
    ensures Xor(a, b) == Xor(b, a)
    decreases a + b
  {
    if a + b > 0 { XorCommutes(a / 2, b / 2); }
  }

  function XorBytes(a: Byte, b: Byte): Byte {
    assert Xor(a, b) < 0x100 by {
      assert Pow2(8) == 0x100;
      XorBelow(a, b, 8);
    }
    Xor(a, b)
  }

  /** Exclusive-or of a byte into a 32-bit word: only the low byte changes. */
  function XorLow(h: Word32, b: Byte): Word32 {
    h / 0x100 * 0x100 + XorBytes(h % 0x100, b)
  }

  /** One round: exclusive-or, then multiply modulo 2^32. */
  function FnvStep(h: Word32, b: Byte): Word32 {
    (XorLow(h, b) * 16777619) % 0x1_0000_0000
  }

  function Fnv(data: seq<Byte>): Word32 {
    if data == [] then FNV_OFFSET
    else FnvStep(Fnv(data[..|data| - 1]), data[|data| - 1])
  }

  /** The prime is invertible modulo 2^32: times 0x359c449b it is 3513497 * 2^32 + 1. */
  lemma TimesPrimeUndone(x: Word32)
    ensures ((x * 16777619) % 0x1_0000_0000 * 0x359c449b) % 0x1_0000_0000 == x
  {
    var k, r := x * 16777619 / 0x1_0000_0000, (x * 16777619) % 0x1_0000_0000;
    assert x * 16777619 == k * 0x1_0000_0000 + r;
    assert r * 0x359c449b == x + (3513497 * x - 0x359c449b * k) * 0x1_0000_0000;
    DropMultiple(x, 3513497 * x - 0x359c449b * k);
  }

  lemma DropMultiple(x: Word32, t: int)
    ensures (x + t * 0x1_0000_0000) % 0x1_0000_0000 == x
  {
  }

  lemma XorLowParts(h: Word32, b: Byte)
    ensures XorLow(h, b) / 0x100 == h / 0x100 && XorLow(h, b) % 0x100 == XorBytes(h % 0x100, b)
  {
  }

  lemma FnvMixed(h: Word32, b: Byte, g: Word32, c: Byte)
    requires FnvStep(h, b) == FnvStep(g, c)
    ensures h / 0x100 == g / 0x100 && XorBytes(h % 0x100, b) == XorBytes(g % 0x100, c)
  {
    TimesPrimeUndone(XorLow(h, b));
    TimesPrimeUndone(XorLow(g, c));
    XorLowParts(h, b);
    XorLowParts(g, c);
  }

  /** A round loses neither the state nor, given the state, the byte. */
  lemma FnvStepInjective(h: Word32, b: Byte, g: Word32, c: Byte)
    requires FnvStep(h, b) == FnvStep(g, c)
    ensures b == c ==> h == g
    ensures h == g ==> b == c
  {
    FnvMixed(h, b, g, c);
    if b == c {
      XorCommutes(h % 0x100, b);
      XorCommutes(g % 0x100, b);
      XorCancels(b, h % 0x100, g % 0x100);
    }
    if h == g {
      XorCancels(h % 0x100, b, c);
    }
  }

  /** MAIN: changing one byte changes the hash. */
  lemma {:induction false} FnvDetectsOneByte(data: seq<Byte>, k: nat, b: Byte)
    requires k < |data| && data[k] != b
    ensures Fnv(data[k := b]) != Fnv(data)
    decreases |data|
  {
    var n := |data| - 1;
    var changed := data[k := b];
    if k == n {
      assert changed[..n] == data[..n];
      if Fnv(changed) == Fnv(data) {
        FnvStepInjective(Fnv(data[..n]), b, Fnv(data[..n]), data[n]);
      }
    } else {
      assert changed[..n] == data[..n][k := b];
      FnvDetectsOneByte(data[..n], k, b);
      if Fnv(changed) == Fnv(data) {
        FnvStepInjective(Fnv(changed[..n]), data[n], Fnv(data[..n]), data[n]);
      }
    }
  }

  // --------------------------------------------------------------------- the image

  function Le32(s: seq<Byte>): Word32
    requires |s| == 4
  {
    var b0: int, b1: int, b2: int, b3: int := s[0], s[1], s[2], s[3];
    b0 + 0x100 * b1 + 0x1_0000 * b2 + 0x100_0000 * b3
  }

  function Bytes32(n: Word32): (s: seq<Byte>)
    ensures |s| == 4
  {
    var n1 := n / 0x100;
    var n2 := n1 / 0x100;
    [n % 0x100, n1 % 0x100, n2 % 0x100, n2 / 0x100]
  }

  lemma Bytes32RoundTrip(n: Word32)
    ensures Le32(Bytes32(n)) == n
  {
  }

  /** Magic 0x57424c45, version 1 and size 144, as they stand in memory. */
  const PREFIX: seq<Byte> := [0x45, 0x4c, 0x42, 0x57, 1, 0, 144, 0]

  function Checksum(image: seq<Byte>): Word32
    requires |image| == STORE_SIZE
  {
    Fnv(image[..8] + [0, 0, 0, 0] + image[12..])
  }

  predicate ValidImage(image: seq<Byte>)
    requires |image| == STORE_SIZE
  {
    && image[..8] == PREFIX
    && image[12] <= MAX_KNOWN_BLE_PEERS
    && Le32(image[8..12]) == Checksum(image)
  }

  function SlotBytes(image: seq<Byte>, i: nat): (slot: seq<Byte>)
    requires |image| == STORE_SIZE && i < MAX_KNOWN_BLE_PEERS
    ensures |slot| == 8
  {
    image[16 + 8 * i..24 + 8 * i]
  }

  /** The peers in the first `n` slots that are in use. */
  function PeersIn(image: seq<Byte>, n: nat): (list: seq<Peer>)
    requires |image| == STORE_SIZE && n <= MAX_KNOWN_BLE_PEERS
    ensures |list| <= n
  {
    if n == 0 then []
    else
      var slot := SlotBytes(image, n - 1);
      PeersIn(image, n - 1) + if slot[0] == 0 then [] else [Peer(slot[1], slot[2..])]
  }

  /** What load makes of a flash image. */
  function Load(image: seq<Byte>): (list: seq<Peer>)
    requires |image| == STORE_SIZE
    ensures |list| <= MAX_KNOWN_BLE_PEERS
  {
    if ValidImage(image) then PeersIn(image, image[12]) else []
  }

  /** The slots of a packed list: its peers, then zeroes. */
  function Slots(list: seq<Peer>, n: nat): (bytes: seq<Byte>)
    ensures |bytes| == 8 * n
  {
    if n == 0 then []
    else if n <= |list| then
      Slots(list, n - 1) + [1, list[n - 1].addrType] + list[n - 1].addr
    else Slots(list, n - 1) + [0, 0, 0, 0, 0, 0, 0, 0]
  }

  function Body(list: seq<Peer>): (bytes: seq<Byte>)
    requires |list| <= MAX_KNOWN_BLE_PEERS
    ensures |bytes| == STORE_SIZE - 12
  {
    [|list|, 0, 0, 0] + Slots(list, MAX_KNOWN_BLE_PEERS)
  }

  /** The image that save builds. */
  function Save(list: seq<Peer>): (image: seq<Byte>)
    requires |list| <= MAX_KNOWN_BLE_PEERS
    ensures |image| == STORE_SIZE
  {
    PREFIX + Bytes32(Fnv(PREFIX + [0, 0, 0, 0] + Body(list))) + Body(list)
  }

  lemma {:induction false} SlotAt(list: seq<Peer>, n: nat, i: nat)
    requires i < n && i < |list|
    ensures Slots(list, n)[8 * i..8 * i + 8] == [1, list[i].addrType] + list[i].addr
  {
    var front := Slots(list, n - 1);
    if i == n - 1 {
      assert Slots(list, n) == front + ([1, list[i].addrType] + list[i].addr);
      assert Slots(list, n)[8 * i..8 * i + 8] == [1, list[i].addrType] + list[i].addr;
    } else {
      SlotAt(list, n - 1, i);
      assert Slots(list, n)[8 * i..8 * i + 8] == front[8 * i..8 * i + 8];
    }
  }

  lemma SavedSlot(list: seq<Peer>, i: nat)
    requires i < |list| <= MAX_KNOWN_BLE_PEERS
    ensures SlotBytes(Save(list), i) == [1, list[i].addrType] + list[i].addr
  {
    var image, slots := Save(list), Slots(list, MAX_KNOWN_BLE_PEERS);
    SlotAt(list, MAX_KNOWN_BLE_PEERS, i);
    assert image[16..] == slots;
    assert SlotBytes(image, i) == slots[8 * i..8 * i + 8];
  }

  lemma {:induction false} PeersInSaved(list: seq<Peer>, n: nat)
    requires n <= |list| <= MAX_KNOWN_BLE_PEERS
    ensures PeersIn(Save(list), n) == list[..n]
  {
    if n > 0 {
      PeersInSaved(list, n - 1);
      SavedSlot(list, n - 1);
      assert list[..n] == list[..n - 1] + [list[n - 1]];
    }
  }

  /** MAIN: a saved list is loaded back, in order, byte for byte. */
  lemma SaveLoadRoundTrip(list: seq<Peer>)
    requires |list| <= MAX_KNOWN_BLE_PEERS
    ensures ValidImage(Save(list)) && Load(Save(list)) == list
  {
    var image := Save(list);
    assert image[..8] == PREFIX && image[12..] == Body(list);
    Bytes32RoundTrip(Fnv(PREFIX + [0, 0, 0, 0] + Body(list)));
    assert image[8..12] == Bytes32(Fnv(PREFIX + [0, 0, 0, 0] + Body(list)));
    PeersInSaved(list, |list|);
    assert list[..|list|] == list;
  }

  type Page = s: seq<Byte> | |s| == FLASH_PAGE_SIZE witness seq(FLASH_PAGE_SIZE, _ => 0)

  /** What the flash driver did: nothing, or leave this page. */
  datatype FlashWrite = Refused | Wrote(page: Page)

  /** The page that save hands to the driver. */
  function PageOf(list: seq<Peer>): Page
    requires |list| <= MAX_KNOWN_BLE_PEERS
  {
    Save(list) + seq(FLASH_PAGE_SIZE - STORE_SIZE, _ => 0xff)
  }

  /** The driver did as asked. */
  predicate Faithful(write: FlashWrite, list: seq<Peer>)
    requires |list| <= MAX_KNOWN_BLE_PEERS
  {
    write == Wrote(PageOf(list))
  }

  /** The checksum that stands in flash afterwards is the one that was written. */
  predicate ReadsBack(write: FlashWrite, list: seq<Peer>)
    requires |list| <= MAX_KNOWN_BLE_PEERS
  {
    write.Wrote? && Le32(write.page[8..12]) == Le32(Save(list)[8..12])
  }

  lemma SavedChecksum(list: seq<Peer>)
    requires |list| <= MAX_KNOWN_BLE_PEERS
    ensures Le32(Save(list)[8..12]) == Fnv(PREFIX + [0, 0, 0, 0] + Body(list))
  {
    Bytes32RoundTrip(Fnv(PREFIX + [0, 0, 0, 0] + Body(list)));
    assert Save(list)[8..12] == Bytes32(Fnv(PREFIX + [0, 0, 0, 0] + Body(list)));
  }

  lemma FaithfulWrite(list: seq<Peer>)
    requires |list| <= MAX_KNOWN_BLE_PEERS
    ensures Load(PageOf(list)[..STORE_SIZE]) == list
    ensures ReadsBack(Wrote(PageOf(list)), list)
  {
    assert PageOf(list)[..STORE_SIZE] == Save(list);
    assert PageOf(list)[8..12] == Save(list)[8..12];
    SaveLoadRoundTrip(list);
  }

  lemma Le32Injective(s: seq<Byte>, t: seq<Byte>)
    requires |s| == |t| == 4 && Le32(s) == Le32(t)
    ensures s == t
  {
    var m3, n3 := s[2] + 0x100 * (s[3] as int), t[2] + 0x100 * (t[3] as int);
    var m2, n2 := s[1] + 0x100 * m3, t[1] + 0x100 * n3;
    LowByte(s[0], m2, t[0], n2);
    LowByte(s[1], m3, t[1], n3);
    LowByte(s[2], s[3], t[2], t[3]);
  }

  lemma LowByte(a: Byte, m: int, b: Byte, n: int)
    requires a + 0x100 * m == b + 0x100 * n
    ensures a == b && m == n
  {
  }

  /** MAIN: an image that differs from an acceptable one in a single byte, its checksum
      included, is rejected. */
  lemma OneByteCorruptionRejected(image: seq<Byte>, k: nat, b: Byte)
    requires |image| == STORE_SIZE && k < STORE_SIZE && image[k] != b
    ensures ValidImage(image) ==> !ValidImage(image[k := b]) && Load(image[k := b]) == []
  {
    var bad := image[k := b];
    var hashed := image[..8] + [0, 0, 0, 0] + image[12..];
    if 8 <= k < 12 {
      assert bad[..8] + [0, 0, 0, 0] + bad[12..] == hashed;
      assert bad[8..12][k - 8] != image[8..12][k - 8];
      if Le32(bad[8..12]) == Le32(image[8..12]) { Le32Injective(bad[8..12], image[8..12]); }
    } else {
      assert bad[..8] + [0, 0, 0, 0] + bad[12..] == hashed[k := b];
      assert bad[8..12] == image[8..12];
      FnvDetectsOneByte(hashed, k, b);
    }
  }
}
