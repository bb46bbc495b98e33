/** HCI vocabulary shared by every component: packet kinds, opcodes, event codes
    and the little-endian helpers.  A packet is a kind and its bytes, without the
    H4 type byte. */
module Hci {
  type Byte = x: int | 0 <= x < 0x100
  type Word16 = x: int | 0 <= x < 0x1_0000
  type Word32 = x: int | 0 <= x < 0x1_0000_0000

  datatype Kind = Command | Acl | Sco | Event

  datatype Packet = Packet(kind: Kind, data: seq<Byte>)

  datatype Option<T> = None | Some(value: T)

  const HCI_ACL_MAX_LEN := 2048

  const READ_LOCAL_VERSION: Word16 := 0x1001
  const READ_LOCAL_EXTENDED_FEATURES: Word16 := 0x1004
  const READ_BD_ADDR: Word16 := 0x1009
  const SET_EVENT_MASK: Word16 := 0x0c01
  const LE_SET_EVENT_MASK: Word16 := 0x2001
  const LE_SET_RANDOM_ADDRESS: Word16 := 0x2005
  const LE_SET_SCAN_PARAMETERS: Word16 := 0x200b
  const LE_SET_SCAN_ENABLE: Word16 := 0x200c
  const WRITE_SCAN_ENABLE: Word16 := 0x0c1a
  const WRITE_SIMPLE_PAIRING_MODE: Word16 := 0x0c56

  const EVENT_CONNECTION_REQUEST: Byte := 0x04
  const EVENT_COMMAND_COMPLETE: Byte := 0x0e
  const EVENT_COMMAND_STATUS: Byte := 0x0f
  const EVENT_LE_META: Byte := 0x3e
  const EVENT_VENDOR_SPECIFIC: Byte := 0xff

  const SUBEVENT_LE_CONNECTION_COMPLETE: Byte := 0x01
  const SUBEVENT_LE_ADVERTISING_REPORT: Byte := 0x02
  const SUBEVENT_LE_ENHANCED_CONNECTION_COMPLETE: Byte := 0x0a
  const SUBEVENT_LE_DIRECTED_ADVERTISING_REPORT: Byte := 0x0b
  const SUBEVENT_LE_EXTENDED_ADVERTISING_REPORT: Byte := 0x0d

  function Le16(lo: Byte, hi: Byte): Word16 {
    lo + 0x100 * hi
  }

  /** The `(uint16_t)` cast. */
  function Wrap16(n: int): (w: Word16)
    ensures 0 <= n <= 0xffff ==> w == n
    ensures 0x1_0000 <= n <= 0x1_ffff ==> w == n - 0x1_0000
  {
    n % 0x1_0000
  }

  function Wrap32(n: int): Word32 {
    n % 0x1_0000_0000
  }

  lemma Wrap32Add(a: int, b: int)
    ensures Wrap32(Wrap32(a) + b) == Wrap32(a + b)
  {
  }

  lemma SliceOfPrefix<T>(s: seq<T>, n: nat, i: nat, j: nat)
    requires i <= j <= n <= |s|
    ensures s[..n][i..j] == s[i..j]
  {
  }

  /** The concatenation of a list of byte strings. */
  function Flatten<T>(parts: seq<seq<T>>): seq<T> {
    if parts == [] then [] else parts[0] + Flatten(parts[1..])
  }

  lemma {:induction false} FlattenConcat<T>(a: seq<seq<T>>, b: seq<seq<T>>)
    ensures Flatten(a + b) == Flatten(a) + Flatten(b)
  {
    if a == [] {
      assert a + b == b;
    } else {
      assert (a + b)[1..] == a[1..] + b;
      FlattenConcat(a[1..], b);
    }
  }

  lemma FlattenSnoc<T>(a: seq<seq<T>>, last: seq<T>)
    ensures Flatten(a + [last]) == Flatten(a) + last
  {
    FlattenConcat(a, [last]);
    assert [last][1..] == [];
    assert Flatten([last]) == last + Flatten<T>([]);
  }
}
