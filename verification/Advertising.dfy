/** Advertising events (Bluetooth Core Specification Vol 4 Part E, sections 7.7.65.2,
    7.7.65.11 and 7.7.65.13) and the AD structures inside them (Vol 3 Part C,
    section 11): what a packet says, and whether it should wake the PC. */
module Advertising {
  import opened Hci
  import opened WakePeers

  // ---------------------------------------------------------------- AD structures

  datatype AdField = AdField(adType: Byte, data: seq<Byte>)

  /** The AD structures before the first length that is zero or runs past the end. */
  function AdFields(d: seq<Byte>): seq<AdField>
    decreases |d|
  {
    if d == [] || d[0] == 0 || d[0] > |d| - 1 then []
    else [AdField(d[1], d[2..1 + d[0]])] + AdFields(d[1 + d[0]..])
  }

  function EncodeAd(fields: seq<AdField>): seq<Byte>
    requires forall f :: f in fields ==> |f.data| <= 254
  {
    if fields == [] then []
    else
      var f := fields[0];
      [1 + |f.data|, f.adType] + f.data + EncodeAd(fields[1..])
  }

  lemma FirstAdField(f: AdField, after: seq<Byte>)
    requires |f.data| <= 254
    ensures AdFields([1 + |f.data|, f.adType] + f.data + after) == [f] + AdFields(after)
  {
    var d := [1 + |f.data|, f.adType] + f.data + after;
    assert d[2..1 + d[0]] == f.data;
    assert d[1 + d[0]..] == after;
  }

  lemma EncodedAdStart(fields: seq<AdField>, tail: seq<Byte>)
    requires fields != [] && forall f :: f in fields ==> |f.data| <= 254
    ensures EncodeAd(fields) + tail
         == [1 + |fields[0].data|, fields[0].adType] + fields[0].data + (EncodeAd(fields[1..]) + tail)
  {
  }

  /** AD structures read back as written; whatever follows a zero or overlong length is
      not looked at. */
  lemma {:induction false} AdFieldsRoundTrip(fields: seq<AdField>, tail: seq<Byte>)
    requires forall f :: f in fields ==> |f.data| <= 254
    requires tail == [] || tail[0] == 0 || tail[0] > |tail| - 1
    ensures AdFields(EncodeAd(fields) + tail) == fields
  {
    if fields == [] {
      assert EncodeAd(fields) + tail == tail;
    } else {
      var f, after := fields[0], EncodeAd(fields[1..]) + tail;
      var d := EncodeAd(fields) + tail;
      EncodedAdStart(fields, tail);
      assert AdFields(d) == [f] + AdFields(after) by { FirstAdField(f, after); }
      assert AdFields(after) == fields[1..] by { AdFieldsRoundTrip(fields[1..], tail); }
    }
  }

  const STADIA: seq<Byte> := [0x53, 0x74, 0x61, 0x64, 0x69, 0x61]

  /** A shortened or complete local name that starts with "Stadia". */
  predicate NamesStadia(f: AdField) {
    (f.adType == 0x08 || f.adType == 0x09) && STADIA <= f.data
  }

  ghost predicate AdMatches(d: seq<Byte>) {
    exists f :: f in AdFields(d) && NamesStadia(f)
  }

  // ---------------------------------------------------------------------- reports

  datatype Report = Report(peer: Peer, data: seq<Byte>)

  /** Legacy reports have 9 bytes before their data and one after, extended ones 24
      before and none after. */
  datatype Format = Legacy | Extended {
    function Subevent(): Byte {
      if this == Legacy then SUBEVENT_LE_ADVERTISING_REPORT else SUBEVENT_LE_EXTENDED_ADVERTISING_REPORT
    }
    function PeerAt(): nat { if this == Legacy then 1 else 2 }
    function HeaderLen(): nat { if this == Legacy then 9 else 24 }
    function TrailerLen(): nat { if this == Legacy then 1 else 0 }
  }

  /** A complete report starts at `pos`. */
  predicate ReportAt(fmt: Format, params: seq<Byte>, pos: nat) {
    && pos + fmt.HeaderLen() <= |params|
    && pos + fmt.HeaderLen() + params[pos + fmt.HeaderLen() - 1] <= |params|
  }

  function TheReport(fmt: Format, params: seq<Byte>, pos: nat): Report
    requires ReportAt(fmt, params, pos)
  {
    var peer, body := pos + fmt.PeerAt(), pos + fmt.HeaderLen();
    Report(Peer(params[peer], params[peer + 1..peer + 7]), params[body..body + params[body - 1]])
  }

  function AfterReport(fmt: Format, params: seq<Byte>, pos: nat): nat
    requires ReportAt(fmt, params, pos)
  {
    pos + fmt.HeaderLen() + params[pos + fmt.HeaderLen() - 1] + fmt.TrailerLen()
  }

  /** The complete reports from `pos` on, at most `n` of them. */
  function ReportsFrom(fmt: Format, params: seq<Byte>, pos: nat, n: nat): seq<Report>
    decreases n
  {
    if n == 0 || !ReportAt(fmt, params, pos) then []
    else [TheReport(fmt, params, pos)] + ReportsFrom(fmt, params, AfterReport(fmt, params, pos), n - 1)
  }

  /** All reports of an event's parameters: subevent code, count, reports. */
  function Reports(fmt: Format, params: seq<Byte>): seq<Report> {
    if |params| < 2 || params[0] != fmt.Subevent() then []
    else ReportsFrom(fmt, params, 2, params[1])
  }

  /** A report on the air: `head` and `rest` are the header bytes the matcher ignores. */
  datatype AirReport = AirReport(head: seq<Byte>, report: Report, rest: seq<Byte>, trailer: seq<Byte>)

  ghost predicate Encodable(fmt: Format, a: AirReport) {
    && |a.head| == fmt.PeerAt() && |a.report.data| <= 255
    && |a.rest| == fmt.HeaderLen() - fmt.PeerAt() - 8 && |a.trailer| == fmt.TrailerLen()
  }

  function EncodeReport(a: AirReport): seq<Byte>
    requires |a.report.data| <= 255
  {
    a.head + [a.report.peer.addrType] + a.report.peer.addr + a.rest
    + [|a.report.data|] + a.report.data + a.trailer
  }

  ghost predicate AllEncodable(fmt: Format, airs: seq<AirReport>) {
    forall i :: 0 <= i < |airs| ==> Encodable(fmt, airs[i])
  }

  ghost function EncodeReports(fmt: Format, airs: seq<AirReport>): seq<Byte>
    requires AllEncodable(fmt, airs)
  {
    if airs == [] then []
    else
      assert Encodable(fmt, airs[0]);
      EncodeReport(airs[0]) + EncodeReports(fmt, airs[1..])
  }

  function Contents(airs: seq<AirReport>): seq<Report> {
    seq(|airs|, i requires 0 <= i < |airs| => airs[i].report)
  }

  lemma EncodedReportFields(fmt: Format, a: AirReport, after: seq<Byte>)
    requires Encodable(fmt, a)
    ensures var s, peer, body := EncodeReport(a) + after, fmt.PeerAt(), fmt.HeaderLen();
            && |s| == body + |a.report.data| + fmt.TrailerLen() + |after|
            && s[body - 1] == |a.report.data| && s[peer] == a.report.peer.addrType
            && s[peer + 1..peer + 7] == a.report.peer.addr
            && s[body..body + |a.report.data|] == a.report.data
            && s[body + |a.report.data| + fmt.TrailerLen()..] == after
  {
  }

  lemma FirstEncodedReport(fmt: Format, params: seq<Byte>, pos: nat, a: AirReport, after: seq<Byte>)
    requires Encodable(fmt, a) && pos <= |params| && params[pos..] == EncodeReport(a) + after
    ensures ReportAt(fmt, params, pos) && TheReport(fmt, params, pos) == a.report
    ensures var next := AfterReport(fmt, params, pos); next <= |params| && params[next..] == after
  {
    EncodedReportFields(fmt, a, after);
    hide EncodeReport;
    hide Encodable;
    var s, peer, body := params[pos..], fmt.PeerAt(), fmt.HeaderLen();
    assert params[pos + body - 1] == s[body - 1];
    assert params[pos + peer] == s[peer];
    assert params[pos + peer + 1..pos + peer + 7] == s[peer + 1..peer + 7];
    assert params[pos + body..pos + body + |a.report.data|] == s[body..body + |a.report.data|];
    var end := body + |a.report.data| + fmt.TrailerLen();
    assert params[pos + end..] == s[end..];
  }

  lemma {:induction false} EncodedReportsFrom(fmt: Format, params: seq<Byte>, pos: nat, airs: seq<AirReport>)
    requires AllEncodable(fmt, airs)
    requires pos <= |params| && params[pos..] == EncodeReports(fmt, airs)
    ensures ReportsFrom(fmt, params, pos, |airs|) == Contents(airs)
    decreases |airs|
  {
    hide ReportAt;
    hide TheReport;
    hide AfterReport;
    hide EncodeReport;
    hide Encodable;
    if airs != [] {
      assert Encodable(fmt, airs[0]);
      FirstEncodedReport(fmt, params, pos, airs[0], EncodeReports(fmt, airs[1..]));
      EncodedReportsFrom(fmt, params, AfterReport(fmt, params, pos), airs[1..]);
      assert Contents(airs) == [airs[0].report] + Contents(airs[1..]);
    }
  }

  /** MAIN: the matcher visits exactly the reports that were put in, in order, for both
      event formats and any header bytes. */
  lemma ReportsRoundTrip(fmt: Format, airs: seq<AirReport>)
    requires |airs| <= 255 && AllEncodable(fmt, airs)
    ensures Reports(fmt, [fmt.Subevent(), |airs|] + EncodeReports(fmt, airs)) == Contents(airs)
  {
    var params := [fmt.Subevent(), |airs|] + EncodeReports(fmt, airs);
    assert params[2..] == EncodeReports(fmt, airs);
    EncodedReportsFrom(fmt, params, 2, airs);
  }

  // --------------------------------------------------------------------- verdicts

  /** Why a report wakes the PC: its peer is listed, or its name is learned now. */
  datatype Verdict = NoMatch | Match | Learn(peer: Peer)

  ghost function JudgeOne(peers: seq<Peer>, r: Report): Verdict {
    if r.peer in peers then Match
    else if AdMatches(r.data) then Learn(r.peer)
    else NoMatch
  }

  /** The verdict of the first report that gives one. */
  ghost function Judge(peers: seq<Peer>, reports: seq<Report>): Verdict {
    if reports == [] then NoMatch
    else if JudgeOne(peers, reports[0]) != NoMatch then JudgeOne(peers, reports[0])
    else Judge(peers, reports[1..])
  }

  lemma JudgeStep(peers: seq<Peer>, fmt: Format, params: seq<Byte>, pos: nat, n: nat)
    requires n > 0 && ReportAt(fmt, params, pos)
    ensures var verdict := JudgeOne(peers, TheReport(fmt, params, pos));
            Judge(peers, ReportsFrom(fmt, params, pos, n))
            == if verdict != NoMatch then verdict
               else Judge(peers, ReportsFrom(fmt, params, AfterReport(fmt, params, pos), n - 1))
  {
  }

  lemma NoReportLeft(peers: seq<Peer>, fmt: Format, params: seq<Byte>, pos: nat, n: nat)
    requires n == 0 || !ReportAt(fmt, params, pos)
    ensures Judge(peers, ReportsFrom(fmt, params, pos, n)) == NoMatch
  {
  }

  ghost predicate Wakes(peers: seq<Peer>, r: Report) {
    r.peer in peers || AdMatches(r.data)
  }

  /** The first report that wakes is `i`, by its name only. */
  ghost predicate FirstToWakeByName(peers: seq<Peer>, reports: seq<Report>, i: int) {
    && 0 <= i < |reports|
    && reports[i].peer !in peers && AdMatches(reports[i].data)
    && forall j :: 0 <= j < i ==> !Wakes(peers, reports[j])
  }

  /** MAIN: a verdict is given exactly when some report is from a listed peer or carries
      the name; a peer is learned only when no earlier report, and not its own address,
      would do. */
  lemma {:induction false} JudgeIffSomeReportWakes(peers: seq<Peer>, reports: seq<Report>)
    ensures Judge(peers, reports) != NoMatch <==> exists r :: r in reports && Wakes(peers, r)
    ensures Judge(peers, reports).Learn? <==> exists i :: FirstToWakeByName(peers, reports, i)
  {
    if reports != [] {
      JudgeIffSomeReportWakes(peers, reports[1..]);
      assert forall r :: r in reports <==> r == reports[0] || r in reports[1..];
      if Wakes(peers, reports[0]) {
        assert reports[0] in reports;
        assert reports[0].peer !in peers ==> FirstToWakeByName(peers, reports, 0);
      } else {
        JudgeTail(peers, reports);
      }
    }
  }

  lemma JudgeTail(peers: seq<Peer>, reports: seq<Report>)
    requires reports != [] && !Wakes(peers, reports[0])
    ensures (exists i :: FirstToWakeByName(peers, reports, i))
       <==> exists i :: FirstToWakeByName(peers, reports[1..], i)
  {
    forall i | FirstToWakeByName(peers, reports, i)
      ensures FirstToWakeByName(peers, reports[1..], i - 1)
    {
    }
    forall i | FirstToWakeByName(peers, reports[1..], i)
      ensures FirstToWakeByName(peers, reports, i + 1)
    {
      assert forall j :: 0 < j < i + 1 ==> reports[j] == reports[1..][j - 1];
    }
  }

  // ---------------------------------------------------------------- whole packets

  /** A complete directed report asks for this adapter (event type 1). */
  ghost predicate DirectedMatches(params: seq<Byte>)
    requires |params| >= 2
  {
    exists i :: 0 <= i < params[1] && DirectedAt(params, i)
  }

  predicate DirectedAt(params: seq<Byte>, i: nat) {
    2 + 16 * i + 16 <= |params| && params[2 + 16 * i] == 1
  }

  /** The verdict on any packet received in standby. */
  ghost function PacketVerdict(peers: seq<Peer>, p: Packet): Verdict {
    if p.kind != Event || |p.data| < 2 then NoMatch
    else if p.data[0] == EVENT_CONNECTION_REQUEST then Match
    else if p.data[0] != EVENT_LE_META || |p.data| < 4 then NoMatch
    else if p.data[2] == SUBEVENT_LE_ADVERTISING_REPORT then
      Judge(peers, Reports(Legacy, p.data[2..]))
    else if p.data[2] == SUBEVENT_LE_DIRECTED_ADVERTISING_REPORT then
      if DirectedMatches(p.data[2..]) then Match else NoMatch
    else if p.data[2] == SUBEVENT_LE_EXTENDED_ADVERTISING_REPORT then
      Judge(peers, Reports(Extended, p.data[2..]))
    else NoMatch
  }

  /** MAIN: an advertising packet, built from any list of reports, wakes the PC exactly
      when one of them is from a listed peer or carries the name. */
  lemma EncodedPacketVerdict(fmt: Format, peers: seq<Peer>, plen: Byte, airs: seq<AirReport>)
    requires |airs| <= 255 && AllEncodable(fmt, airs)
    ensures var data := [EVENT_LE_META, plen, fmt.Subevent(), |airs|] + EncodeReports(fmt, airs);
            PacketVerdict(peers, Packet(Event, data)) != NoMatch
            <==> exists i :: 0 <= i < |airs| && Wakes(peers, airs[i].report)
  {
    var params := [fmt.Subevent(), |airs|] + EncodeReports(fmt, airs);
    assert [EVENT_LE_META, plen] + params
        == [EVENT_LE_META, plen, fmt.Subevent(), |airs|] + EncodeReports(fmt, airs);
    ReportPacketVerdict(fmt, peers, plen, params);
    ReportsRoundTrip(fmt, airs);
    JudgeContents(peers, airs);
  }

  lemma ReportPacketVerdict(fmt: Format, peers: seq<Peer>, plen: Byte, params: seq<Byte>)
    requires |params| >= 2 && params[0] == fmt.Subevent()
    ensures PacketVerdict(peers, Packet(Event, [EVENT_LE_META, plen] + params))
         == Judge(peers, Reports(fmt, params))
  {
    assert ([EVENT_LE_META, plen] + params)[2..] == params;
  }

  lemma JudgeContents(peers: seq<Peer>, airs: seq<AirReport>)
    ensures Judge(peers, Contents(airs)) != NoMatch
       <==> exists i :: 0 <= i < |airs| && Wakes(peers, airs[i].report)
  {
    var reports := Contents(airs);
    JudgeIffSomeReportWakes(peers, reports);
    if i :| 0 <= i < |airs| && Wakes(peers, airs[i].report) {
      assert reports[i] in reports;
    }
  }
}
