/** The flash image of the wake list byte by byte, and the hash by published values. */
module WakeImage {
  import opened Hci
  import opened WakePeers
  import opened WakeStore

  type Image = s: seq<Byte> | |s| == 144 witness seq(144, _ => 0)

  function Word(a: int, b: int, c: int, d: int): int {
    a + 0x100 * b + 0x1_0000 * c + 0x100_0000 * d
  }

  /** The image with its checksum field zeroed. */
  function Unsummed(s: Image): Image {
    s[..8] + [0, 0, 0, 0] + s[12..]
  }

  /** Magic, version 1, size 144, and its own checksum. */
  predicate Headed(s: Image) {
    && s[..8] == [0x45, 0x4c, 0x42, 0x57, 0x01, 0x00, 0x90, 0x00]
    && Word(s[8], s[9], s[10], s[11]) == Fnv(Unsummed(s))
  }

  function Slot(s: Image, i: nat): seq<Byte>
    requires i < 16
  {
    s[16 + 8 * i..24 + 8 * i]
  }

  // ---------------------------------------------------------------------- saving

  lemma SavedHead(list: seq<Peer>)
    requires |list| <= 16
    ensures Headed(Save(list)) && Save(list)[12..16] == [|list|, 0, 0, 0]
  {
    hide Fnv;
    hide Slots;
    var s, hashed := Save(list), PREFIX + [0, 0, 0, 0] + Body(list);
    SavedChecksum(list);
    assert s[..8] == PREFIX && s[12..] == Body(list);
    assert Unsummed(s) == hashed;
    assert Le32(s[8..12]) == Word(s[8], s[9], s[10], s[11]);
    assert s[12..16] == Body(list)[..4];
  }

  lemma {:induction false} EmptySlotAt(list: seq<Peer>, n: nat, i: nat)
    requires |list| <= i < n
    ensures Slots(list, n)[8 * i..8 * i + 8] == [0, 0, 0, 0, 0, 0, 0, 0]
  {
    var front := Slots(list, n - 1);
    if i < n - 1 {
      EmptySlotAt(list, n - 1, i);
      assert Slots(list, n)[8 * i..8 * i + 8] == front[8 * i..8 * i + 8];
    }
  }

  lemma SavedSlots(list: seq<Peer>, i: nat)
    requires |list| <= 16 && i < 16
    ensures Slot(Save(list), i)
         == if i < |list| then [1, list[i].addrType] + list[i].addr else [0, 0, 0, 0, 0, 0, 0, 0]
  {
    hide Fnv;
    if i < |list| {
      SavedSlot(list, i);
    } else {
      var image, slots := Save(list), Slots(list, 16);
      EmptySlotAt(list, 16, i);
      assert image[16..] == slots;
      assert Slot(image, i) == slots[8 * i..8 * i + 8];
    }
  }

  /** MAIN: a saved image is magic, version, size and its own checksum, the count and three zeroes, then
      sixteen slots of eight bytes: 1, address type and address for each peer, or zeroes. */
  lemma SavedLayout(list: seq<Peer>)
    requires |list| <= 16
    ensures Headed(Save(list)) && Save(list)[12..16] == [|list|, 0, 0, 0]
    ensures forall i :: 0 <= i < 16
              ==> Slot(Save(list), i)
                  == if i < |list| then [1, list[i].addrType] + list[i].addr else [0, 0, 0, 0, 0, 0, 0, 0]
  {
    hide Headed;
    hide Save;
    hide Slot;
    SavedHead(list);
    forall i | 0 <= i < 16
      ensures Slot(Save(list), i)
           == if i < |list| then [1, list[i].addrType] + list[i].addr else [0, 0, 0, 0, 0, 0, 0, 0]
    {
      SavedSlots(list, i);
    }
  }

  /** MAIN: the page that is written is the image and then 112 bytes of 0xff, and a save succeeds exactly
      if the four checksum bytes in flash are afterwards those of the image. */
  lemma SavedPage(list: seq<Peer>, write: FlashWrite)
    requires |list| <= 16
    ensures PageOf(list)[..144] == Save(list) && forall i :: 144 <= i < 256 ==> PageOf(list)[i] == 0xff
    ensures ReadsBack(write, list) <==> write.Wrote? && write.page[8..12] == Save(list)[8..12]
  {
    hide Save;
    hide Le32;
    if write.Wrote? && Le32(write.page[8..12]) == Le32(Save(list)[8..12]) {
      Le32Injective(write.page[8..12], Save(list)[8..12]);
    }
  }

  // --------------------------------------------------------------------- loading

  /** How many of the first `n` slots are in use. */
  function InUse(s: Image, n: nat): nat
    requires n <= 16
  {
    if n == 0 then 0 else InUse(s, n - 1) + if Slot(s, n - 1)[0] != 0 then 1 else 0
  }

  ghost predicate FoundAt(s: Image, list: seq<Peer>, i: int) {
    0 <= i < 16 && Slot(s, i)[0] != 0
    ==> InUse(s, i) < |list| && list[InUse(s, i)] == Peer(Slot(s, i)[1], Slot(s, i)[2..])
  }

  /** The list is the used ones among the first `n` slots, in order. */
  ghost predicate Found(s: Image, n: nat, list: seq<Peer>) {
    n <= 16 && |list| == InUse(s, n) && forall i :: 0 <= i < n ==> FoundAt(s, list, i)
  }

  lemma {:induction false} PeersInFound(s: Image, n: nat)
    requires n <= 16
    ensures Found(s, n, PeersIn(s, n))
  {
    hide FoundAt;
    if n > 0 {
      PeersInFound(s, n - 1);
      var before, all := PeersIn(s, n - 1), PeersIn(s, n);
      assert Slot(s, n - 1) == SlotBytes(s, n - 1);
      forall i | 0 <= i < n ensures FoundAt(s, all, i) {
        if i < n - 1 {
          assert FoundAt(s, before, i);
          FoundLonger(s, before, all, i);
        } else {
          FoundLast(s, before, all, i);
        }
      }
    }
  }

  lemma FoundLonger(s: Image, before: seq<Peer>, all: seq<Peer>, i: int)
    requires FoundAt(s, before, i) && before <= all
    ensures FoundAt(s, all, i)
  {
  }

  lemma FoundLast(s: Image, before: seq<Peer>, all: seq<Peer>, i: nat)
    requires i < 16 && |before| == InUse(s, i)
    requires Slot(s, i)[0] != 0 ==> all == before + [Peer(Slot(s, i)[1], Slot(s, i)[2..])]
    ensures FoundAt(s, all, i)
  {
    hide InUse;
  }

  /** MAIN: an image is loaded if it begins with that magic, version and size, counts at most sixteen and
      has its own checksum; then the list is the used ones among the counted slots, in order;
      otherwise the list is empty. */
  lemma LoadedLayout(s: Image)
    ensures if Headed(s) && s[12] <= 16 then Found(s, s[12], Load(s)) else Load(s) == []
  {
    hide Fnv;
    hide PeersIn;
    hide Found;
    assert Le32(s[8..12]) == Word(s[8], s[9], s[10], s[11]);
    if s[12] <= 16 { PeersInFound(s, s[12]); }
  }

  // ------------------------------------------------------------------------ FNV-1a

  lemma XorOfA()
    ensures Xor(0xc5, 0x61) == 0xa4
  {
    assert Xor(3, 1) == 2;
    assert Xor(12, 6) == 10;
    assert Xor(49, 24) == 41;
  }

  /** MAIN: two published values of the hash: of no bytes, and of the letter a. */
  lemma FnvVectors()
    ensures Fnv([]) == 0x811c9dc5
    ensures Fnv([0x61]) == 0xe40c292c
  {
    hide Xor;
    XorOfA();
    assert [0x61][..0] == [];
    assert Fnv([0x61]) == FnvStep(0x811c9dc5, 0x61);
  }
}
