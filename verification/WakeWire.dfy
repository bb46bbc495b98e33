/** What the wake policy makes of packets built field by field (Bluetooth Core Specification Vol 4
    Part E, sections 7.7.4, 7.7.65.1, 7.7.65.2, 7.7.65.10, 7.7.65.11 and 7.7.65.13; the name of a
    device is an AD structure, Vol 3 Part C, section 11). */
module WakeWire {
  import opened Hci
  import opened WakePeers
  import opened WakeModel
  import Advertising
  import WakeStore

  // ----------------------------------------------------------------- connections

  /** LE Connection Complete (subevent 1) or LE Enhanced Connection Complete (subevent 10). */
  datatype Connection = Connection(len: Byte, enhanced: bool, status: Byte, handleLow: Byte, handleHigh: Byte,
                                   role: Byte, peerType: Byte, peerAddr: Address, tail: seq<Byte>)

  function ConnectionEvent(c: Connection): Packet {
    Packet(Event, [0x3e, c.len, if c.enhanced then 10 else 1, c.status, c.handleLow, c.handleHigh, c.role, c.peerType]
                  + c.peerAddr + c.tail)
  }

  lemma ConnectionNamesPeer(c: Connection)
    ensures ConnectedPeer(ConnectionEvent(c)) == if c.status == 0 then Some(Peer(c.peerType, c.peerAddr)) else None
  {
    assert ConnectionEvent(c).data[8..14] == c.peerAddr;
  }

  /** The list once `peer` is its newest: every other peer stays in order, the oldest going when
      there are more than sixteen. */
  ghost predicate NewestAdded(list: seq<Peer>, peer: Peer, list': seq<Peer>) {
    && list' == Suffix(Without(list, peer) + [peer], 16)
    && list'[|list'| - 1] == peer
  }

  lemma RememberAdds(k: Wake, peer: Peer, now: nat)
    requires NoDuplicates(k.list)
    ensures var k' := Remember(k, peer, now);
            && NewestAdded(k.list, peer, k'.list) && k'.trace == k.trace + [peer] && k'.start == k.start
            && k'.stored == k.stored && k'.saveFailed == k.saveFailed
            && if k.list != [] && k.list[|k.list| - 1] == peer then k'.dirty == k.dirty && k'.dirtyAt == k.dirtyAt
               else k'.dirty && k'.dirtyAt == now + 2_000_000
  {
    hide Without;
    hide Touch;
    TouchSuffix(k.list, peer);
    NewestIs(k.list, peer);
  }

  lemma NewestIs(list: seq<Peer>, peer: Peer)
    requires NoDuplicates(list)
    ensures IsNewest(list, peer) <==> list != [] && list[|list| - 1] == peer
  {
  }

  /** MAIN: a connection event makes exactly the peer it names the newest of the list, to be saved two
      seconds later unless it was the newest already, if and only if its status is 0. */
  lemma ConnectionLearned(k: Wake, c: Connection, now: nat)
    requires NoDuplicates(k.list)
    ensures var k', peer := Observe(k, ConnectionEvent(c), now), Peer(c.peerType, c.peerAddr);
            if c.status != 0 then k' == k
            else && NewestAdded(k.list, peer, k'.list) && k'.trace == k.trace + [peer] && k'.start == k.start
                 && k'.stored == k.stored && k'.saveFailed == k.saveFailed
                 && if k.list != [] && k.list[|k.list| - 1] == peer then k'.dirty == k.dirty && k'.dirtyAt == k.dirtyAt
                    else k'.dirty && k'.dirtyAt == now + 2_000_000
  {
    hide ConnectedPeer;
    hide ConnectionEvent;
    hide Remember;
    hide NewestAdded;
    ConnectionNamesPeer(c);
    RememberAdds(k, Peer(c.peerType, c.peerAddr), now);
  }

  /** MAIN: nothing else on its way to the host changes the wake policy: every packet is a
      connection event built from some fields with status 0, or leaves it as it is. */
  lemma OnlyConnectionsLearned(k: Wake, p: Packet, now: nat)
    ensures Observe(k, p, now) == k || exists c: Connection :: c.status == 0 && p == ConnectionEvent(c)
    ensures p.kind != Event || |p.data| < 14 ==> Observe(k, p, now) == k
  {
    var d := p.data;
    if p.kind == Event && |d| >= 14 && d[0] == 0x3e && (d[2] == 1 || d[2] == 10) && d[3] == 0 {
      var c := Connection(d[1], d[2] == 10, 0, d[4], d[5], d[6], d[7], d[8..14], d[14..]);
      assert ConnectionEvent(c).data == d;
    }
  }

  // ---------------------------------------------------------------------- saving

  /** MAIN: a change is saved by the first call two seconds after it and by none before, once; a
      faithful write leaves the flash holding the list. */
  lemma SavedAfterTwoSeconds(k: Wake, now: nat, write: WakeStore.FlashWrite)
    ensures var k' := SaveIfDue(k, now, write);
            if k.dirty && now >= k.dirtyAt then
              && !k'.dirty && k'.list == k.list && k'.trace == k.trace && k'.start == k.start
              && (write.Refused? ==> k'.stored == k.stored && k'.saveFailed)
              && (WakeStore.Faithful(write, k.list) ==> k'.stored == k.list && !k'.saveFailed)
            else k' == k
  {
    WakeStore.FaithfulWrite(k.list);
    hide WakeStore.Load;
  }

  // ------------------------------------------------------------- advertising reports

  /** An AD structure. */
  datatype AdStructure = AdStructure(adType: Byte, data: seq<Byte>)

  function AdBytes(ads: seq<AdStructure>): seq<Byte>
    requires forall i :: 0 <= i < |ads| ==> |ads[i].data| <= 254
  {
    if ads == [] then [] else [|ads[0].data| + 1, ads[0].adType] + ads[0].data + AdBytes(ads[1..])
  }

  /** A complete or shortened local name that begins with the six letters of Stadia. */
  predicate IsStadia(ad: AdStructure) {
    var d := ad.data;
    && (ad.adType == 8 || ad.adType == 9)
    && |d| >= 6 && d[0] == 83 && d[1] == 116 && d[2] == 97 && d[3] == 100 && d[4] == 105 && d[5] == 97
  }

  /** One report of a legacy event (subevent 2): event type, peer, data, signal strength; or of an
      extended one (subevent 13): event type of two bytes, peer, fourteen more bytes, data.  The
      data are the AD structures and what follows the last. */
  datatype OnAir = OnAir(typeLow: Byte, typeHigh: Byte, peer: Peer, more: seq<Byte>, rssi: Byte,
                         ads: seq<AdStructure>, tail: seq<Byte>)

  ghost predicate Sendable(a: OnAir) {
    && |a.more| == 14
    && (forall i :: 0 <= i < |a.ads| ==> |a.ads[i].data| <= 254)
    && (a.tail == [] || a.tail[0] == 0 || a.tail[0] >= |a.tail|)
    && |AdBytes(a.ads) + a.tail| <= 255
  }

  ghost predicate AllSendable(airs: seq<OnAir>) {
    forall i :: 0 <= i < |airs| ==> Sendable(airs[i])
  }

  ghost function OnAirBytes(extended: bool, a: OnAir): seq<Byte>
    requires Sendable(a)
  {
    var data := AdBytes(a.ads) + a.tail;
    if extended then [a.typeLow, a.typeHigh, a.peer.addrType] + a.peer.addr + a.more + [|data|] + data
    else [a.typeLow, a.peer.addrType] + a.peer.addr + [|data|] + data + [a.rssi]
  }

  ghost function AllBytes(extended: bool, airs: seq<OnAir>): seq<Byte>
    requires AllSendable(airs)
  {
    if airs == [] then []
    else
      assert Sendable(airs[0]);
      OnAirBytes(extended, airs[0]) + AllBytes(extended, airs[1..])
  }

  ghost function AdvertisingEvent(extended: bool, len: Byte, airs: seq<OnAir>): Packet
    requires AllSendable(airs) && |airs| <= 255
  {
    Packet(Event, [0x3e, len, if extended then 13 else 2, |airs|] + AllBytes(extended, airs))
  }

  /** The report wakes the PC: its peer is listed, or it says Stadia. */
  ghost predicate Calls(peers: seq<Peer>, a: OnAir) {
    a.peer in peers || exists i :: 0 <= i < |a.ads| && IsStadia(a.ads[i])
  }

  // ---- in the matcher's own terms

  function FieldsOf(ads: seq<AdStructure>): seq<Advertising.AdField> {
    if ads == [] then [] else [Advertising.AdField(ads[0].adType, ads[0].data)] + FieldsOf(ads[1..])
  }

  lemma {:induction false} FieldsOfAt(ads: seq<AdStructure>)
    ensures |FieldsOf(ads)| == |ads|
    ensures forall i :: 0 <= i < |ads| ==> FieldsOf(ads)[i] == Advertising.AdField(ads[i].adType, ads[i].data)
  {
    if ads != [] { FieldsOfAt(ads[1..]); }
  }

  lemma {:induction false} AdBytesAgree(ads: seq<AdStructure>)
    requires forall i :: 0 <= i < |ads| ==> |ads[i].data| <= 254
    ensures forall f :: f in FieldsOf(ads) ==> |f.data| <= 254
    ensures Advertising.EncodeAd(FieldsOf(ads)) == AdBytes(ads)
  {
    hide Advertising.EncodeAd;
    if ads != [] {
      AdBytesAgree(ads[1..]);
      EncodeCons(Advertising.AdField(ads[0].adType, ads[0].data), FieldsOf(ads[1..]));
    } else {
      EncodeNone();
    }
  }

  lemma EncodeNone()
    ensures Advertising.EncodeAd([]) == []
  {
  }

  lemma EncodeCons(f: Advertising.AdField, rest: seq<Advertising.AdField>)
    requires |f.data| <= 254 && forall g :: g in rest ==> |g.data| <= 254
    ensures Advertising.EncodeAd([f] + rest) == [|f.data| + 1, f.adType] + f.data + Advertising.EncodeAd(rest)
  {
    assert ([f] + rest)[1..] == rest;
  }

  lemma SaysStadia(ads: seq<AdStructure>, tail: seq<Byte>)
    requires forall i :: 0 <= i < |ads| ==> |ads[i].data| <= 254
    requires tail == [] || tail[0] == 0 || tail[0] >= |tail|
    ensures Advertising.AdMatches(AdBytes(ads) + tail) <==> exists i :: 0 <= i < |ads| && IsStadia(ads[i])
  {
    var fields := FieldsOf(ads);
    AdBytesAgree(ads);
    FieldsOfAt(ads);
    Advertising.AdFieldsRoundTrip(fields, tail);
    forall i | 0 <= i < |ads| ensures Advertising.NamesStadia(fields[i]) <==> IsStadia(ads[i]) {
      NameAgrees(ads[i]);
    }
    hide IsStadia;
    hide Advertising.NamesStadia;
    if i :| 0 <= i < |ads| && IsStadia(ads[i]) {
      assert fields[i] in fields;
    }
  }

  lemma NameAgrees(ad: AdStructure)
    ensures Advertising.NamesStadia(Advertising.AdField(ad.adType, ad.data)) <==> IsStadia(ad)
  {
  }

  ghost function ReportOf(a: OnAir): Advertising.Report
    requires Sendable(a)
  {
    Advertising.Report(a.peer, AdBytes(a.ads) + a.tail)
  }

  ghost function InTerms(extended: bool, a: OnAir): Advertising.AirReport
    requires Sendable(a)
  {
    if extended then Advertising.AirReport([a.typeLow, a.typeHigh], ReportOf(a), a.more, [])
    else Advertising.AirReport([a.typeLow], ReportOf(a), [], [a.rssi])
  }

  ghost function AllInTerms(extended: bool, airs: seq<OnAir>): seq<Advertising.AirReport>
    requires AllSendable(airs)
  {
    if airs == [] then []
    else
      assert Sendable(airs[0]);
      [InTerms(extended, airs[0])] + AllInTerms(extended, airs[1..])
  }

  function FormatOf(extended: bool): Advertising.Format {
    if extended then Advertising.Extended else Advertising.Legacy
  }

  lemma OneAgrees(extended: bool, a: OnAir)
    requires Sendable(a)
    ensures Advertising.Encodable(FormatOf(extended), InTerms(extended, a))
    ensures Advertising.EncodeReport(InTerms(extended, a)) == OnAirBytes(extended, a)
  {
    hide AdBytes;
  }

  lemma {:induction false} AllAgree(extended: bool, airs: seq<OnAir>)
    requires AllSendable(airs)
    ensures var xs := AllInTerms(extended, airs);
            && |xs| == |airs| && Advertising.AllEncodable(FormatOf(extended), xs)
            && Advertising.EncodeReports(FormatOf(extended), xs) == AllBytes(extended, airs)
    ensures forall i :: 0 <= i < |airs| ==> AllInTerms(extended, airs)[i].report == ReportOf(airs[i])
  {
    hide Advertising.Encodable;
    hide Advertising.EncodeReport;
    hide OnAirBytes;
    hide Sendable;
    if airs != [] {
      assert Sendable(airs[0]);
      OneAgrees(extended, airs[0]);
      AllAgree(extended, airs[1..]);
      assert AllInTerms(extended, airs)[1..] == AllInTerms(extended, airs[1..]);
      InTermsReport(extended, airs[0]);
      hide InTerms;
      hide ReportOf;
    }
  }

  lemma InTermsReport(extended: bool, a: OnAir)
    requires Sendable(a)
    ensures InTerms(extended, a).report == ReportOf(a)
  {
  }

  // --------------------------------------------------------------------- verdicts

  lemma {:induction false} JudgeFirst(peers: seq<Peer>, reports: seq<Advertising.Report>, i: nat)
    requires i < |reports| && Advertising.Wakes(peers, reports[i])
    requires forall j :: 0 <= j < i ==> !Advertising.Wakes(peers, reports[j])
    ensures Advertising.Judge(peers, reports)
         == if reports[i].peer in peers then Advertising.Match else Advertising.Learn(reports[i].peer)
  {
    hide Advertising.AdMatches;
    if i > 0 {
      assert !Advertising.Wakes(peers, reports[0]);
      JudgeFirst(peers, reports[1..], i - 1);
    }
  }

  lemma {:induction false} JudgeNone(peers: seq<Peer>, reports: seq<Advertising.Report>)
    requires forall j :: 0 <= j < |reports| ==> !Advertising.Wakes(peers, reports[j])
    ensures Advertising.Judge(peers, reports) == Advertising.NoMatch
  {
    hide Advertising.AdMatches;
    if reports != [] {
      assert !Advertising.Wakes(peers, reports[0]);
      JudgeNone(peers, reports[1..]);
    }
  }

  /** The first report that calls is `i`. */
  ghost predicate FirstCall(peers: seq<Peer>, airs: seq<OnAir>, i: int) {
    && 0 <= i < |airs| && Calls(peers, airs[i])
    && forall j :: 0 <= j < i ==> !Calls(peers, airs[j])
  }

  lemma CallsAgree(peers: seq<Peer>, a: OnAir)
    requires Sendable(a)
    ensures Advertising.Wakes(peers, ReportOf(a)) <==> Calls(peers, a)
  {
    SaysStadia(a.ads, a.tail);
  }

  lemma EventReports(extended: bool, len: Byte, airs: seq<OnAir>, peers: seq<Peer>)
    requires AllSendable(airs) && |airs| <= 255
    ensures Advertising.PacketVerdict(peers, AdvertisingEvent(extended, len, airs))
         == Advertising.Judge(peers, Advertising.Contents(AllInTerms(extended, airs)))
  {
    hide Advertising.Judge;
    hide Advertising.Reports;
    hide Advertising.EncodeReports;
    hide AllBytes;
    AllAgree(extended, airs);
    var fmt, xs := FormatOf(extended), AllInTerms(extended, airs);
    var params := [fmt.Subevent(), |xs|] + Advertising.EncodeReports(fmt, xs);
    Advertising.ReportsRoundTrip(fmt, xs);
    Advertising.ReportPacketVerdict(fmt, peers, len, params);
    assert [0x3e, len] + params == AdvertisingEvent(extended, len, airs).data;
  }

  /** MAIN: an advertising event of either kind, built byte by byte from any reports, wakes the PC
      exactly if one of them comes from a listed peer or says Stadia; the first that does decides,
      and its peer is learned exactly if it is not listed. */
  lemma AdvertisingDecides(extended: bool, len: Byte, airs: seq<OnAir>, peers: seq<Peer>)
    requires AllSendable(airs) && |airs| <= 255
    ensures var verdict := Advertising.PacketVerdict(peers, AdvertisingEvent(extended, len, airs));
            && (verdict == Advertising.NoMatch <==> forall i :: 0 <= i < |airs| ==> !Calls(peers, airs[i]))
            && forall i :: FirstCall(peers, airs, i)
                 ==> verdict == if airs[i].peer in peers then Advertising.Match else Advertising.Learn(airs[i].peer)
  {
    hide Advertising.PacketVerdict;
    hide Advertising.Wakes;
    hide AllInTerms;
    hide Calls;
    hide Sendable;
    EventReports(extended, len, airs, peers);
    AllAgree(extended, airs);
    var xs := AllInTerms(extended, airs);
    var reports := Advertising.Contents(xs);
    forall i | 0 <= i < |airs|
      ensures reports[i] == ReportOf(airs[i]) && reports[i].peer == airs[i].peer
      ensures Advertising.Wakes(peers, reports[i]) <==> Calls(peers, airs[i])
    {
      assert Sendable(airs[i]);
      CallsAgree(peers, airs[i]);
    }
    hide ReportOf;
    forall i | FirstCall(peers, airs, i)
      ensures Advertising.Judge(peers, reports)
           == if airs[i].peer in peers then Advertising.Match else Advertising.Learn(airs[i].peer)
    {
      JudgeFirst(peers, reports, i);
    }
    if forall i :: 0 <= i < |airs| ==> !Calls(peers, airs[i]) {
      JudgeNone(peers, reports);
    } else {
      var i := FirstThatCalls(peers, airs);
    }
  }

  /** MAIN: in standby such an event makes a peer the newest of the list, to be saved two seconds later,
      exactly if the first report that calls is not listed, and then that report's peer. */
  lemma AdvertisingLearned(k: Wake, extended: bool, len: Byte, airs: seq<OnAir>, now: nat)
    requires AllSendable(airs) && |airs| <= 255 && NoDuplicates(k.list)
    ensures var k' := Hear(k, AdvertisingEvent(extended, len, airs), now);
            if i :| FirstCall(k.list, airs, i) && airs[i].peer !in k.list then
              && NewestAdded(k.list, airs[i].peer, k'.list) && k'.dirty && k'.dirtyAt == now + 2_000_000
              && k'.trace == k.trace + [airs[i].peer] && k'.start == k.start
              && k'.stored == k.stored && k'.saveFailed == k.saveFailed
            else k' == k
  {
    hide Advertising.PacketVerdict;
    hide AdvertisingEvent;
    hide Calls;
    hide Remember;
    hide NewestAdded;
    AdvertisingDecides(extended, len, airs, k.list);
    if exists i :: 0 <= i < |airs| && Calls(k.list, airs[i]) {
      var i := FirstThatCalls(k.list, airs);
      OnlyOneFirst(k.list, airs, i);
      RememberAdds(k, airs[i].peer, now);
      assert k.list != [] && k.list[|k.list| - 1] == airs[i].peer ==> airs[i].peer in k.list;
    }
  }

  lemma OnlyOneFirst(peers: seq<Peer>, airs: seq<OnAir>, i: int)
    requires FirstCall(peers, airs, i)
    ensures forall j :: FirstCall(peers, airs, j) ==> j == i
  {
    hide Calls;
  }

  lemma {:induction false} FirstThatCalls(peers: seq<Peer>, airs: seq<OnAir>) returns (i: nat)
    requires exists j :: 0 <= j < |airs| && Calls(peers, airs[j])
    ensures FirstCall(peers, airs, i)
  {
    i := 0;
    while !Calls(peers, airs[i])
      invariant i < |airs| && forall j :: 0 <= j < i ==> !Calls(peers, airs[j])
      decreases |airs| - i
    {
      i := i + 1;
    }
  }

  // ----------------------------------------------------------------- other packets

  /** One report of a directed advertising event (subevent 11): event type and fifteen bytes. */
  datatype Directed = Directed(eventType: Byte, more: seq<Byte>)

  ghost function DirectedBytes(ds: seq<Directed>): seq<Byte> {
    if ds == [] then [] else [ds[0].eventType] + ds[0].more + DirectedBytes(ds[1..])
  }

  lemma {:induction false} DirectedBytesAt(ds: seq<Directed>, i: nat)
    requires i < |ds| && forall j :: 0 <= j < |ds| ==> |ds[j].more| == 15
    ensures |DirectedBytes(ds)| >= 16 * i + 16 && DirectedBytes(ds)[16 * i] == ds[i].eventType
  {
    if i > 0 {
      DirectedBytesAt(ds[1..], i - 1);
      assert DirectedBytes(ds)[16..] == DirectedBytes(ds[1..]);
    }
  }

  lemma {:induction false} DirectedBytesLen(ds: seq<Directed>)
    requires forall j :: 0 <= j < |ds| ==> |ds[j].more| == 15
    ensures |DirectedBytes(ds)| == 16 * |ds|
  {
    if ds != [] { DirectedBytesLen(ds[1..]); }
  }

  /** MAIN: a directed advertising event that declares `n` reports and carries these, complete, and
      less than one more, wakes the PC exactly if one of the declared ones has event type 1. */
  lemma DirectedDecides(len: Byte, n: Byte, ds: seq<Directed>, cut: seq<Byte>, peers: seq<Peer>)
    requires |cut| < 16 && forall j :: 0 <= j < |ds| ==> |ds[j].more| == 15
    ensures Advertising.PacketVerdict(peers, Packet(Event, [0x3e, len, 11, n] + DirectedBytes(ds) + cut))
         == if exists i :: 0 <= i < |ds| && i < n && ds[i].eventType == 1 then Advertising.Match
            else Advertising.NoMatch
  {
    var params := [11, n] + DirectedBytes(ds) + cut;
    var d := [0x3e, len, 11, n] + DirectedBytes(ds) + cut;
    assert d[2..] == params;
    DirectedBytesLen(ds);
    forall i | 0 <= i < |ds|
      ensures Advertising.DirectedAt(params, i) <==> ds[i].eventType == 1
    {
      DirectedBytesAt(ds, i);
      assert params[2 + 16 * i] == DirectedBytes(ds)[16 * i];
    }
    hide DirectedBytes;
    forall i | |ds| <= i ensures !Advertising.DirectedAt(params, i) {
    }
    hide Advertising.DirectedAt;
  }

  /** MAIN: a connection request always wakes the PC; and apart from it only these three
      subevents of LE events ever do. */
  lemma OthersDecide(peers: seq<Peer>, p: Packet)
    ensures p.kind == Event && |p.data| >= 2 && p.data[0] == 4
            ==> Advertising.PacketVerdict(peers, p) == Advertising.Match
    ensures p.kind != Event || |p.data| < 2
            || (p.data[0] != 4 && (p.data[0] != 0x3e || |p.data| < 4 || p.data[2] !in {2, 11, 13}))
            ==> Advertising.PacketVerdict(peers, p) == Advertising.NoMatch
  {
  }

  /** The place of each field of a report, complete or not, at `pos`: the trailing byte of a legacy
      report may be missing. */
  lemma FieldsInPlace(params: seq<Byte>, pos: nat)
    ensures Advertising.ReportAt(Advertising.Legacy, params, pos)
       <==> pos + 9 <= |params| && pos + 9 + params[pos + 8] <= |params|
    ensures Advertising.ReportAt(Advertising.Extended, params, pos)
       <==> pos + 24 <= |params| && pos + 24 + params[pos + 23] <= |params|
    ensures Advertising.ReportAt(Advertising.Legacy, params, pos)
        ==> && Advertising.TheReport(Advertising.Legacy, params, pos)
               == Advertising.Report(Peer(params[pos + 1], params[pos + 2..pos + 8]),
                                     params[pos + 9..pos + 9 + params[pos + 8]])
            && Advertising.AfterReport(Advertising.Legacy, params, pos) == pos + 10 + params[pos + 8]
    ensures Advertising.ReportAt(Advertising.Extended, params, pos)
        ==> && Advertising.TheReport(Advertising.Extended, params, pos)
               == Advertising.Report(Peer(params[pos + 2], params[pos + 3..pos + 9]),
                                     params[pos + 24..pos + 24 + params[pos + 23]])
            && Advertising.AfterReport(Advertising.Extended, params, pos) == pos + 24 + params[pos + 23]
  {
  }
}
