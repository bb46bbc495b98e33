/** The wake policy over values: the list, when it is to be saved, and what the flash holds. */
module WakeModel {
  import opened Hci
  import opened WakePeers
  import Advertising
  import WakeStore

  // Times are microseconds since boot.
  const WAKE_PEER_SAVE_DELAY_US := 2000 * 1000

  type PeerList = s: seq<Peer> | |s| <= MAX_KNOWN_BLE_PEERS witness []

  /** The list, where it began and every sighting since; whether a change waits to be saved, and
      when; what loading the flash would give, and whether the last write of it was not done
      as asked. */
  datatype Wake = Wake(list: PeerList, start: PeerList, trace: seq<Peer>, dirty: bool, dirtyAt: nat,
                       stored: PeerList, saveFailed: bool)

  /** Initialised over a flash that holds `stored`. */
  function Booted(stored: PeerList): Wake {
    Wake(stored, stored, [], false, 0, stored, false)
  }

  predicate IsNewest(list: seq<Peer>, peer: Peer) {
    IndexOf(list, peer) + 1 == |list|
  }

  /** One sighting.  A change is to be saved two seconds from now. */
  function Remember(k: Wake, peer: Peer, now: nat): Wake {
    var k1 := k.(list := Touch(k.list, peer), trace := k.trace + [peer]);
    if IsNewest(k.list, peer) then k1 else k1.(dirty := true, dirtyAt := now + WAKE_PEER_SAVE_DELAY_US)
  }

  /** A packet on its way to the host: a successful LE connection is a sighting. */
  function Observe(k: Wake, p: Packet, now: nat): Wake {
    match ConnectedPeer(p)
    case Some(peer) => Remember(k, peer, now)
    case None => k
  }

  function Learned(k: Wake, verdict: Advertising.Verdict, now: nat): Wake {
    if verdict.Learn? then Remember(k, verdict.peer, now) else k
  }

  /** A packet received in standby: a peer may be learned from it. */
  ghost function Hear(k: Wake, p: Packet, now: nat): Wake {
    Learned(k, Advertising.PacketVerdict(k.list, p), now)
  }

  function Save(k: Wake, write: WakeStore.FlashWrite): Wake {
    k.(stored := if write.Refused? then k.stored else WakeStore.Load(write.page[..WakeStore.STORE_SIZE]),
       saveFailed := !WakeStore.Faithful(write, k.list))
  }

  predicate Due(k: Wake, now: nat) {
    k.dirty && now >= k.dirtyAt
  }

  /** A change is saved once it is two seconds old. */
  function SaveIfDue(k: Wake, now: nat, write: WakeStore.FlashWrite): Wake {
    if Due(k, now) then Save(k.(dirty := false), write) else k
  }

  /** Forget every peer, in memory and in flash. */
  function Clear(k: Wake, write: WakeStore.FlashWrite): Wake {
    Save(k.(list := [], start := [], trace := [], dirty := false), write)
  }

  /** The list is what its trace makes of its start, and flash agrees with memory unless a change
      waits or the last save was not done as asked. */
  ghost predicate Kept(k: Wake) {
    k.list == Recency(k.start, k.trace) && (!k.dirty && !k.saveFailed ==> k.stored == k.list)
  }

  lemma NewestStays(list: seq<Peer>, peer: Peer)
    requires IsNewest(list, peer)
    ensures Touch(list, peer) == list
  {
    assert list == RemoveAt(list, |list| - 1) + [peer];
  }

  lemma RememberKept(k: Wake, peer: Peer, now: nat)
    requires Kept(k)
    ensures Kept(Remember(k, peer, now))
  {
    RecencySnoc(k.start, k.trace, peer);
    hide Recency;
    if IsNewest(k.list, peer) { NewestStays(k.list, peer); }
    hide Touch;
  }

  lemma SaveKept(k: Wake, write: WakeStore.FlashWrite)
    requires k.list == Recency(k.start, k.trace)
    ensures Kept(Save(k, write))
  {
    hide Recency;
    WakeStore.FaithfulWrite(k.list);
    hide WakeStore.Load;
  }

  lemma ClearKept(k: Wake, write: WakeStore.FlashWrite)
    ensures Kept(Clear(k, write))
  {
    SaveKept(k.(list := [], start := [], trace := [], dirty := false), write);
  }

  lemma SaveIfDueKept(k: Wake, now: nat, write: WakeStore.FlashWrite)
    requires Kept(k)
    ensures Kept(SaveIfDue(k, now, write))
  {
    if Due(k, now) { SaveKept(k.(dirty := false), write); }
  }
}
