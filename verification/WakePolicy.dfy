/** The standby wake policy: a packed array of peers shifted in place, its delayed copy in
    flash, and the loops that read advertising reports. */
module WakePolicy {
  import opened Hci
  import opened WakePeers
  import opened WakeModel
  import opened Advertising
  import WakeStore

  datatype Slot = Slot(inUse: bool, peer: Peer)

  const EMPTY_SLOT := Slot(false, Peer(0, [0, 0, 0, 0, 0, 0]))

  class Policy {
    const knownBlePeers: array<Slot>
    var peersDirty: bool
    var peersDirtyAt: nat
    const flash: array<Byte>

    // The rest of what WakeModel sees.
    ghost var list: PeerList
    ghost var start: PeerList
    ghost var trace: seq<Peer>
    ghost var stored: PeerList
    ghost var saveFailed: bool

    ghost function Footprint(): set<object> {
      {this, knownBlePeers, flash}
    }

    /** The array holds the list, packed at the front. */
    ghost predicate Packed()
      reads this`list, knownBlePeers
    {
      && knownBlePeers.Length == MAX_KNOWN_BLE_PEERS
      && |list| <= MAX_KNOWN_BLE_PEERS
      && (forall i :: 0 <= i < |list| ==> knownBlePeers[i] == Slot(true, list[i]))
      && (forall i :: |list| <= i < MAX_KNOWN_BLE_PEERS ==> knownBlePeers[i] == EMPTY_SLOT)
    }

    /** `stored` is what loading the flash would give. */
    ghost predicate FlashHolds()
      reads this`stored, flash
    {
      && flash.Length == WakeStore.FLASH_PAGE_SIZE
      && stored == WakeStore.Load(flash[..WakeStore.STORE_SIZE])
    }

    /** The policy as WakeModel sees it. */
    ghost function State(): Wake
      reads this
    {
      Wake(list, start, trace, peersDirty, peersDirtyAt, stored, saveFailed)
    }

    ghost predicate Valid()
      reads this, knownBlePeers, flash
    {
      Packed() && FlashHolds() && Kept(State())
    }

    /** Initialise over whatever the flash holds. */
    constructor (flash: array<Byte>)
      requires flash.Length == WakeStore.FLASH_PAGE_SIZE
      ensures Valid() && this.flash == flash && fresh(Footprint() - {flash})
      ensures State() == Booted(WakeStore.Load(flash[..WakeStore.STORE_SIZE]))
    {
      knownBlePeers := new Slot[MAX_KNOWN_BLE_PEERS](_ => EMPTY_SLOT);
      this.flash := flash;
      peersDirty, peersDirtyAt := false, 0;
      list, start, trace, saveFailed := [], [], [], false;
      stored := WakeStore.Load(flash[..WakeStore.STORE_SIZE]);
      new;
      LoadKnownBlePeers();
      start := list;
    }

    // ------------------------------------------------------------------ persistence

    method LoadKnownBlePeers()
      requires Packed() && list == [] && FlashHolds()
      modifies this`list, knownBlePeers
      ensures Packed() && list == stored
    {
      var store := flash[..WakeStore.STORE_SIZE];
      var checksum := StoreChecksum(store);
      if store[..8] != WakeStore.PREFIX || store[12] > MAX_KNOWN_BLE_PEERS
         || WakeStore.Le32(store[8..12]) != checksum {
        return;
      }
      LoadSlots(store);
    }

    /** One slot of the stored list. */
    method LoadSlot(store: seq<Byte>, i: nat, loaded: nat) returns (loaded': nat)
      requires Packed() && |store| == WakeStore.STORE_SIZE && i < MAX_KNOWN_BLE_PEERS
      requires loaded == |list| <= i && list == WakeStore.PeersIn(store, i)
      modifies this`list, knownBlePeers
      ensures Packed() && loaded' == |list| <= i + 1 && list == WakeStore.PeersIn(store, i + 1)
    {
      hide Packed;
      hide WakeStore.SlotBytes;
      var slot := WakeStore.SlotBytes(store, i);
      if slot[0] == 0 {
        return loaded;
      }
      WriteLast(Peer(slot[1], slot[2..]), loaded);
      return loaded + 1;
    }

    method LoadSlots(store: seq<Byte>)
      requires Packed() && list == []
      requires |store| == WakeStore.STORE_SIZE && store[12] <= MAX_KNOWN_BLE_PEERS
      modifies this`list, knownBlePeers
      ensures Packed() && list == WakeStore.PeersIn(store, store[12])
    {
      assert WakeStore.PeersIn(store, 0) == [];
      hide Packed;
      hide WakeStore.PeersIn;
      var i, loaded := 0, 0;
      while i < store[12] && loaded < MAX_KNOWN_BLE_PEERS
        invariant 0 <= i <= store[12]
        invariant Packed() && loaded == |list| <= i
        invariant list == WakeStore.PeersIn(store, i)
      {
        loaded := LoadSlot(store, i, loaded);
        i := i + 1;
      }
    }

    method ChecksumBytes(data: seq<Byte>) returns (h: Word32)
      ensures h == WakeStore.Fnv(data)
    {
      h := WakeStore.FNV_OFFSET;
      var i := 0;
      while i < |data|
        invariant 0 <= i <= |data|
        invariant h == WakeStore.Fnv(data[..i])
      {
        assert data[..i + 1][..i] == data[..i];
        h := WakeStore.FnvStep(h, data[i]);
        i := i + 1;
      }
      assert data[..i] == data;
    }

    method StoreChecksum(store: seq<Byte>) returns (h: Word32)
      requires |store| == WakeStore.STORE_SIZE
      ensures h == WakeStore.Checksum(store)
    {
      h := ChecksumBytes(store[..8] + [0, 0, 0, 0] + store[12..]);
    }

    /** The bytes of the peer array. */
    method PeerBytes() returns (bytes: seq<Byte>)
      requires Packed()
      ensures bytes == WakeStore.Slots(list, MAX_KNOWN_BLE_PEERS)
    {
      bytes := [];
      var i := 0;
      while i < MAX_KNOWN_BLE_PEERS
        invariant 0 <= i <= MAX_KNOWN_BLE_PEERS
        invariant bytes == WakeStore.Slots(list, i)
      {
        var slot := knownBlePeers[i];
        bytes := bytes + [if slot.inUse then 1 else 0, slot.peer.addrType] + slot.peer.addr;
        i := i + 1;
      }
    }

    /** Write the list to flash, and read its checksum back; `write` is what the flash driver
        did. */
    method SaveKnownBlePeers(write: WakeStore.FlashWrite) returns (saved: bool)
      requires Packed() && FlashHolds()
      modifies this`saveFailed, this`stored, flash
      ensures FlashHolds() && (saved <==> WakeStore.ReadsBack(write, list))
      ensures flash[..] == if write.Refused? then old(flash[..]) else write.page
      ensures State() == Save(old(State()), write) && (!saveFailed ==> saved && stored == list)
    {
      hide WakeStore.Load;
      hide WakeStore.Slots;
      hide WakeStore.Fnv;
      var count := KnownBlePeerCount();
      var peers := PeerBytes();
      var body: seq<Byte> := [count, 0, 0, 0] + peers;
      var checksum := ChecksumBytes(WakeStore.PREFIX + [0, 0, 0, 0] + body);
      ghost var store := WakeStore.PREFIX + WakeStore.Bytes32(checksum) + body;
      assert store == WakeStore.Save(list);
      saveFailed := !WakeStore.Faithful(write, list);
      if write.Refused? {
        return false;
      }
      Program(write.page);
      WakeStore.FaithfulWrite(list);
      WakeStore.SavedChecksum(list);
      saved := WakeStore.Le32(flash[8..12]) == checksum;
    }

    /** The page as the flash driver leaves it. */
    method Program(page: WakeStore.Page)
      requires flash.Length == WakeStore.FLASH_PAGE_SIZE
      modifies this`stored, flash
      ensures FlashHolds() && flash[..] == page
    {
      forall i | 0 <= i < WakeStore.FLASH_PAGE_SIZE { flash[i] := page[i]; }
      assert flash[..] == page;
      stored := WakeStore.Load(flash[..WakeStore.STORE_SIZE]);
    }

    method MarkPeersDirty(now: nat)
      modifies this`peersDirty, this`peersDirtyAt
      ensures State() == old(State()).(dirty := true, dirtyAt := now + WAKE_PEER_SAVE_DELAY_US)
    {
      peersDirty, peersDirtyAt := true, now + WAKE_PEER_SAVE_DELAY_US;
    }

    /** Save a change once it is two seconds old. */
    method Task(now: nat, write: WakeStore.FlashWrite)
      requires Valid()
      modifies this`peersDirty, this`saveFailed, this`stored, flash
      ensures Valid() && State() == SaveIfDue(old(State()), now, write)
      ensures !peersDirty && !saveFailed ==> WakeStore.Load(flash[..WakeStore.STORE_SIZE]) == list
    {
      SaveIfDueKept(State(), now, write);
      if peersDirty && now >= peersDirtyAt {
        peersDirty := false;
        var _ := SaveKnownBlePeers(write);
      }
    }

    /** Forget every peer, in memory and in flash. */
    method ClearKnownPeers(write: WakeStore.FlashWrite)
      requires Valid()
      modifies this, knownBlePeers, flash
      ensures Valid() && State() == WakeModel.Clear(old(State()), write)
      ensures list == [] && (WakeStore.Faithful(write, []) ==> stored == [])
    {
      ClearKept(State(), write);
      hide Kept;
      hide WakeStore.Load;
      hide WakeStore.Save;
      forall i | 0 <= i < MAX_KNOWN_BLE_PEERS { knownBlePeers[i] := EMPTY_SLOT; }
      list, start, trace, peersDirty := [], [], [], false;
      var _ := SaveKnownBlePeers(write);
    }

    // -------------------------------------------------------------- the recency list

    method KnownBlePeerCount() returns (count: nat)
      requires Packed()
      ensures count == |list|
    {
      count := 0;
      var i := 0;
      while i < MAX_KNOWN_BLE_PEERS
        invariant 0 <= i <= MAX_KNOWN_BLE_PEERS
        invariant count == if i < |list| then i else |list|
      {
        if knownBlePeers[i].inUse { count := count + 1; }
        i := i + 1;
      }
    }

    /** Shift everything after `index` one slot down; the list loses that element. */
    method RemoveKnownBlePeerAt(index: nat)
      requires Packed() && index < |list|
      modifies this`list, knownBlePeers
      ensures Packed() && list == RemoveAt(old(list), index)
    {
      var i := index;
      while i + 1 < MAX_KNOWN_BLE_PEERS
        invariant index <= i < MAX_KNOWN_BLE_PEERS && list == old(list)
        invariant forall k :: 0 <= k < index ==> knownBlePeers[k] == old(knownBlePeers[k])
        invariant forall k :: i <= k < MAX_KNOWN_BLE_PEERS ==> knownBlePeers[k] == old(knownBlePeers[k])
        invariant forall k :: index <= k < i ==> knownBlePeers[k] == old(knownBlePeers[k + 1])
      {
        knownBlePeers[i] := knownBlePeers[i + 1];
        i := i + 1;
      }
      knownBlePeers[MAX_KNOWN_BLE_PEERS - 1] := EMPTY_SLOT;
      list := RemoveAt(list, index);
    }

    method WriteLast(peer: Peer, count: nat)
      requires Packed() && count == |list| < MAX_KNOWN_BLE_PEERS
      modifies this`list, knownBlePeers
      ensures Packed() && list == old(list) + [peer]
    {
      knownBlePeers[count] := Slot(true, peer);
      list := list + [peer];
    }

    method AppendKnownBlePeer(peer: Peer)
      requires Packed()
      modifies this`list, knownBlePeers
      ensures Packed()
      ensures list == (if |old(list)| >= MAX_KNOWN_BLE_PEERS then old(list)[1..] else old(list)) + [peer]
    {
      var count := KnownBlePeerCount();
      if count >= MAX_KNOWN_BLE_PEERS {
        RemoveKnownBlePeerAt(0);
        count := MAX_KNOWN_BLE_PEERS - 1;
      }
      WriteLast(peer, count);
    }

    /** Move the peer to the newest place, or add it there.  Nothing is written, and false is
        returned, exactly when it is there already. */
    method TouchArray(peer: Peer) returns (changed: bool)
      requires Packed()
      modifies this`list, knownBlePeers
      ensures Packed() && list == Touch(old(list), peer)
      ensures changed <==> !IsNewest(old(list), peer)
      ensures !changed ==> list == old(list)
    {
      var i := FindPeer(peer);
      if i == MAX_KNOWN_BLE_PEERS {
        AppendKnownBlePeer(peer);
        return true;
      }
      var count := KnownBlePeerCount();
      if count > 0 && i + 1 == count {
        assert list == RemoveAt(list, i) + [peer];
        return false;
      }
      RemoveKnownBlePeerAt(i);
      count := KnownBlePeerCount();
      WriteLast(peer, count);
      return true;
    }

    method TouchAndTrace(peer: Peer) returns (changed: bool)
      requires Packed()
      modifies this`list, this`trace, knownBlePeers
      ensures Packed() && (changed <==> !IsNewest(old(list), peer))
      ensures State() == old(State()).(list := Touch(old(list), peer), trace := old(trace) + [peer])
    {
      hide Packed;
      hide Touch;
      changed := TouchArray(peer);
      trace := trace + [peer];
    }

    /** One sighting.  A change is to be saved two seconds from now. */
    method RememberBlePeer(peer: Peer, now: nat) returns (changed: bool)
      requires Valid()
      modifies this`list, this`trace, this`peersDirty, this`peersDirtyAt, knownBlePeers
      ensures Valid() && State() == Remember(old(State()), peer, now)
      ensures changed <==> !IsNewest(old(list), peer)
    {
      hide Kept;
      hide Packed;
      hide FlashHolds;
      hide Touch;
      hide IsNewest;
      RememberKept(State(), peer, now);
      changed := TouchAndTrace(peer);
      if changed {
        MarkPeersDirty(now);
      }
    }

    /** The first slot that holds `peer`, or sixteen. */
    method FindPeer(peer: Peer) returns (i: nat)
      requires Packed()
      ensures i == if IndexOf(list, peer) < |list| then IndexOf(list, peer) else MAX_KNOWN_BLE_PEERS
      ensures i < MAX_KNOWN_BLE_PEERS <==> peer in list
    {
      i := 0;
      while i < MAX_KNOWN_BLE_PEERS
        invariant 0 <= i <= MAX_KNOWN_BLE_PEERS
        invariant forall k :: 0 <= k < i && k < |list| ==> list[k] != peer
      {
        if knownBlePeers[i].inUse && knownBlePeers[i].peer == peer {
          return;
        }
        i := i + 1;
      }
    }

    /** A packet on its way to the host: a successful LE connection is a sighting. */
    method ObserveHostPacket(p: Packet, now: nat)
      requires Valid()
      modifies this`list, this`trace, this`peersDirty, this`peersDirtyAt, knownBlePeers
      ensures Valid() && State() == Observe(old(State()), p, now)
    {
      hide Remember;
      hide Valid;
      var data := p.data;
      if p.kind != Event || |data| < 2 {
        return;
      }
      if data[0] == EVENT_LE_META && |data| >= 14
         && (data[2] == SUBEVENT_LE_CONNECTION_COMPLETE
             || data[2] == SUBEVENT_LE_ENHANCED_CONNECTION_COMPLETE)
         && data[3] == 0x00 {
        var _ := RememberBlePeer(Peer(data[7], data[8..14]), now);
      }
    }

    // ------------------------------------------------------------------- the matcher

    method AdvertisingDataMatches(d: seq<Byte>) returns (matches: bool)
      ensures matches <==> AdMatches(d)
    {
      var pos := 0;
      while pos < |d|
        invariant 0 <= pos <= |d|
        invariant AdMatches(d) <==> AdMatches(d[pos..])
      {
        var rest := d[pos..];
        var fieldLen := rest[0];
        if fieldLen == 0 || fieldLen > |rest| - 1 {
          break;
        }
        var field := AdField(rest[1], rest[2..1 + fieldLen]);
        AdMatchesFirst(rest);
        if NamesStadia(field) {
          return true;
        }
        assert rest[1 + fieldLen..] == d[pos + 1 + fieldLen..];
        pos := pos + 1 + fieldLen;
      }
      return false;
    }

    /** One report: a listed peer wakes the PC, and so does the name, which is learned. */
    method ReportWakes(r: Report, now: nat) returns (wakes: bool)
      requires Valid()
      modifies this`list, this`trace, this`peersDirty, this`peersDirtyAt, knownBlePeers
      ensures Valid()
      ensures var verdict := JudgeOne(old(list), r);
              (wakes <==> verdict != NoMatch) && State() == Learned(old(State()), verdict, now)
      ensures !wakes ==> unchanged(this, knownBlePeers)
    {
      var i := FindPeer(r.peer);
      if i < MAX_KNOWN_BLE_PEERS {
        return true;
      }
      wakes := AdvertisingDataMatches(r.data);
      if wakes {
        var _ := RememberBlePeer(r.peer, now);
      }
    }

    /** The loop over the reports.  Nothing changes until one of them wakes. */
    method MatchReports(fmt: Format, params: seq<Byte>, now: nat) returns (matches: bool)
      requires Valid() && |params| >= 2
      modifies this`list, this`trace, this`peersDirty, this`peersDirtyAt, knownBlePeers
      ensures Valid()
      ensures var verdict := Judge(old(list), ReportsFrom(fmt, params, 2, params[1]));
              (matches <==> verdict != NoMatch) && State() == Learned(old(State()), verdict, now)
    {
      hide Valid;
      hide Judge;
      hide JudgeOne;
      hide ReportsFrom;
      hide TheReport;
      hide AfterReport;
      var reports := params[1];
      var pos: nat, report: nat := 2, 0;
      ghost var peers := list;
      ghost var verdict := Judge(peers, ReportsFrom(fmt, params, 2, reports));
      while report < reports
        invariant 0 <= report <= reports
        invariant unchanged(this`list, this`trace, this`peersDirty, this`peersDirtyAt, knownBlePeers)
        invariant verdict == Judge(peers, ReportsFrom(fmt, params, pos, reports - report))
      {
        if !ReportAt(fmt, params, pos) {
          break;
        }
        JudgeStep(peers, fmt, params, pos, reports - report);
        matches := ReportWakes(TheReport(fmt, params, pos), now);
        if matches {
          return;
        }
        pos := AfterReport(fmt, params, pos);
        report := report + 1;
      }
      NoReportLeft(peers, fmt, params, pos, reports - report);
      return false;
    }

    /** The legacy and the extended report event.  The list changes only by learning the
        peer whose name decided. */
    method ReportMatches(fmt: Format, params: seq<Byte>, now: nat) returns (matches: bool)
      requires Valid()
      modifies this`list, this`trace, this`peersDirty, this`peersDirtyAt, knownBlePeers
      ensures Valid()
      ensures var verdict := Judge(old(list), Reports(fmt, params));
              (matches <==> verdict != NoMatch) && State() == Learned(old(State()), verdict, now)
    {
      if |params| < 2 || params[0] != fmt.Subevent() {
        return false;
      }
      matches := MatchReports(fmt, params, now);
    }

    method DirectedReportMatches(params: seq<Byte>) returns (matches: bool)
      ensures matches <==> |params| >= 2 && params[0] == SUBEVENT_LE_DIRECTED_ADVERTISING_REPORT
                           && DirectedMatches(params)
    {
      if |params| < 2 || params[0] != SUBEVENT_LE_DIRECTED_ADVERTISING_REPORT {
        return false;
      }
      var reports := params[1];
      var pos: nat, report: nat := 2, 0;
      while report < reports
        invariant 0 <= report <= reports && pos == 2 + 16 * report
        invariant forall i :: 0 <= i < report ==> !DirectedAt(params, i)
      {
        if pos + 16 > |params| {
          assert forall i :: report <= i ==> !DirectedAt(params, i);
          break;
        }
        if params[pos] == 0x01 {
          assert DirectedAt(params, report);
          return true;
        }
        pos, report := pos + 16, report + 1;
      }
      return false;
    }

    /** Whether a packet received in standby should wake the PC. */
    method PacketMatches(p: Packet, now: nat) returns (matches: bool)
      requires Valid()
      modifies this`list, this`trace, this`peersDirty, this`peersDirtyAt, knownBlePeers
      ensures Valid()
      ensures matches <==> PacketVerdict(old(list), p) != NoMatch
      ensures State() == Hear(old(State()), p, now)
    {
      var data := p.data;
      if p.kind != Event || |data| < 2 {
        return false;
      }
      if data[0] == EVENT_CONNECTION_REQUEST {
        return true;
      }
      if data[0] != EVENT_LE_META || |data| < 4 {
        return false;
      }
      if data[2] == SUBEVENT_LE_ADVERTISING_REPORT {
        matches := ReportMatches(Legacy, data[2..], now);
      } else if data[2] == SUBEVENT_LE_DIRECTED_ADVERTISING_REPORT {
        matches := DirectedReportMatches(data[2..]);
      } else if data[2] == SUBEVENT_LE_EXTENDED_ADVERTISING_REPORT {
        matches := ReportMatches(Extended, data[2..], now);
      } else {
        return false;
      }
    }
  }

  /** MAIN: from a list without duplicates, through any number of sightings, the array holds
      the last sixteen peers ever seen, newest last, each once. */
  lemma ArrayIsLastSixteenSeen(p: Policy)
    requires p.Valid() && NoDuplicates(p.start)
    ensures var last := Suffix(KeepLast(p.start + p.trace), MAX_KNOWN_BLE_PEERS);
            && NoDuplicates(last)
            && p.knownBlePeers[..] == seq(MAX_KNOWN_BLE_PEERS, i requires i >= 0 =>
                 if i < |last| then Slot(true, last[i]) else EMPTY_SLOT)
  {
    RecencyIsLastSixteen(p.start, p.trace);
  }

  lemma AdMatchesFirst(d: seq<Byte>)
    requires d != [] && 0 < d[0] <= |d| - 1
    ensures AdMatches(d) <==> NamesStadia(AdField(d[1], d[2..1 + d[0]])) || AdMatches(d[1 + d[0]..])
  {
    var field, rest := AdField(d[1], d[2..1 + d[0]]), AdFields(d[1 + d[0]..]);
    assert AdFields(d) == [field] + rest;
    assert forall f :: f in [field] + rest <==> f == field || f in rest;
  }
}
