/** Who sent each of the four quirk commands, and who was given their completions: when a late
    completion cannot cross from one owner of the controller to the other. */
module LoopLedger {
  import opened Hci
  import opened PowerModel
  import opened LoopLog
  import BridgeModel
  import BridgeQuirks

  /** Commands of one quirk sent by the bridge and by the standby host, and completions of it that
      reached the bridge, the standby host and nobody. */
  datatype Ledger = Ledger(bridgeSent: nat, hostSent: nat, toBridge: nat, toHost: nat, toNobody: nat)
  {
    // Commands sent and not yet completed, whoever sent them and whoever was told.
    function Outstanding(): int { bridgeSent + hostSent - toBridge - toHost - toNobody }
  }

  predicate InHostMode(e: Event) {
    e.Heard? && e.state == HostOnUsbHci && e.enabled
  }

  predicate Completes(e: Event, q: BridgeModel.Quirk) {
    e.Heard? && BridgeQuirks.IsComplete(e.arrival.packet, q)
  }

  predicate IsQuirkSend(e: Event, q: BridgeModel.Quirk) {
    e.Sent? && BridgeQuirks.IsCommand(e.packet, q)
  }

  function Enter(l: Ledger, e: Event, q: BridgeModel.Quirk): Ledger {
    if IsQuirkSend(e, q) then
      if e.byBridge then l.(bridgeSent := l.bridgeSent + 1) else l.(hostSent := l.hostSent + 1)
    else if Completes(e, q) then
      if InHostMode(e) then l.(toBridge := l.toBridge + 1)
      else if e.state == StandbyHciHost then l.(toHost := l.toHost + 1)
      else l.(toNobody := l.toNobody + 1)
    else l
  }

  function LedgerOf(events: seq<Event>, q: BridgeModel.Quirk): Ledger
    decreases |events|
  {
    if events == [] then Ledger(0, 0, 0, 0, 0)
    else Enter(LedgerOf(events[..|events| - 1], q), events[|events| - 1], q)
  }

  lemma LedgerSnoc(events: seq<Event>, e: Event, q: BridgeModel.Quirk)
    ensures LedgerOf(events + [e], q) == Enter(LedgerOf(events, q), e, q)
  {
    assert (events + [e])[..|events|] == events;
  }

  predicate TakesOver(e: Event) {
    e.Entered? && e.mode in {HostOnUsbHci, StandbyHciHost}
  }

  /** At no point has the controller completed more than it was sent, and whenever an owner takes over
      nothing is outstanding. */
  predicate Clean(events: seq<Event>, q: BridgeModel.Quirk)
    decreases |events|
  {
    events == []
    || (Clean(events[..|events| - 1], q) && LedgerOf(events, q).Outstanding() >= 0
        && (TakesOver(events[|events| - 1]) ==> LedgerOf(events, q).Outstanding() == 0))
  }

  /** And at no point does the controller owe the bridge more than 255 completions. */
  predicate Fair(events: seq<Event>, q: BridgeModel.Quirk)
    decreases |events|
  {
    events == []
    || (Fair(events[..|events| - 1], q) && Clean(events, q)
        && LedgerOf(events, q).bridgeSent - LedgerOf(events, q).toBridge <= 255)
  }

  lemma CleanSnoc(events: seq<Event>, e: Event, q: BridgeModel.Quirk)
    ensures Clean(events + [e], q) ==> Clean(events, q)
    ensures Fair(events + [e], q) ==> Fair(events, q) && Clean(events + [e], q)
  {
    assert (events + [e])[..|events|] == events;
  }

  /** Neither owner was ever given more completions than it had sent commands, and what the other
      one had sent was settled when it took over. */
  predicate Own(l: Ledger, owner: PowerState) {
    && l.toBridge <= l.bridgeSent && l.toHost <= l.hostSent
    && (owner == HostOnUsbHci ==> l.hostSent <= l.toHost + l.toNobody)
    && (owner == StandbyHciHost ==> l.bridgeSent <= l.toBridge + l.toNobody)
  }

  lemma OwnStep(l: Ledger, e: Event, q: BridgeModel.Quirk, owner: PowerState)
    requires Own(l, owner) && Rightly(e)
    requires StateOf(e).Some? ==> StateOf(e).value == owner
    requires Enter(l, e, q).Outstanding() >= 0
    requires TakesOver(e) ==> Enter(l, e, q).Outstanding() == 0
    ensures Own(Enter(l, e, q), if e.Entered? then e.mode else owner)
  {
  }

  /** MAIN: if the controller never completes more than it was sent, and nothing is outstanding when
      an owner takes over, then each owner is given no more completions than it sent commands:
      none crosses from one session to the next. */
  lemma {:induction false} CleanIsOwn(events: seq<Event>, q: BridgeModel.Quirk)
    requires Clean(events, q) && InSession(events) && AllRightly(events)
    ensures Own(LedgerOf(events, q), LastEntered(events))
    decreases |events|
  {
    if events != [] {
      var before, e := events[..|events| - 1], events[|events| - 1];
      assert AllRightly(before);
      CleanIsOwn(before, q);
      assert Rightly(e);
      OwnStep(LedgerOf(before, q), e, q, LastEntered(before));
    }
  }

  // ------------------------------------------------------- the ledger and the bridge

  /** What reached the bridge, in order. */
  function HeardInHost(events: seq<Event>): seq<Packet>
    decreases |events|
  {
    if events == [] then []
    else
      var n := |events| - 1;
      HeardInHost(events[..n]) + HeardBy(events[n])
  }

  function HeardBy(e: Event): (heard: seq<Packet>)
    ensures |heard| <= 1
  {
    if InHostMode(e) && e.arrival.packet.kind in {Event, Acl} then [e.arrival.packet] else []
  }

  lemma HeardSnoc(events: seq<Event>, e: Event)
    ensures HeardInHost(events + [e]) == HeardInHost(events) + HeardBy(e)
  {
    assert (events + [e])[..|events|] == events;
  }

  lemma CountMore(ps: seq<Packet>, more: seq<Packet>, q: BridgeModel.Quirk)
    requires |more| <= 1
    ensures BridgeQuirks.CountCommands(ps + more, q)
         == BridgeQuirks.CountCommands(ps, q) + if more != [] && BridgeQuirks.IsCommand(more[0], q) then 1 else 0
    ensures BridgeQuirks.CountCompletes(ps + more, q)
         == BridgeQuirks.CountCompletes(ps, q) + if more != [] && BridgeQuirks.IsComplete(more[0], q) then 1 else 0
  {
    if more == [] {
      assert ps + more == ps;
    } else {
      assert ps + more == ps + [more[0]];
      BridgeQuirks.CountSnoc(ps, more[0], q);
    }
  }

  function SentAs(e: Event, byBridge: bool): (sent: seq<Packet>)
    ensures |sent| <= 1
  {
    if IsSend(e, byBridge) then [e.packet] else []
  }

  lemma EnterCounts(l: Ledger, e: Event, q: BridgeModel.Quirk)
    ensures var byBridge, byHost, heard := SentAs(e, true), SentAs(e, false), HeardBy(e);
            var l' := Enter(l, e, q);
            && l'.bridgeSent == l.bridgeSent + (if byBridge != [] && BridgeQuirks.IsCommand(byBridge[0], q) then 1 else 0)
            && l'.hostSent == l.hostSent + (if byHost != [] && BridgeQuirks.IsCommand(byHost[0], q) then 1 else 0)
            && l'.toBridge == l.toBridge + (if heard != [] && BridgeQuirks.IsComplete(heard[0], q) then 1 else 0)
  {
  }

  /** The ledger agrees with the packets sent and heard. */
  ghost predicate Counted(events: seq<Event>, q: BridgeModel.Quirk) {
    && LedgerOf(events, q).bridgeSent == BridgeQuirks.CountCommands(SentBy(events, true), q)
    && LedgerOf(events, q).hostSent == BridgeQuirks.CountCommands(SentBy(events, false), q)
    && LedgerOf(events, q).toBridge == BridgeQuirks.CountCompletes(HeardInHost(events), q)
  }

  lemma CountedSnoc(events: seq<Event>, e: Event, q: BridgeModel.Quirk)
    requires Counted(events, q)
    ensures Counted(events + [e], q)
  {
    hide Enter;
    hide HeardBy;
    hide BridgeQuirks.IsCommand;
    hide BridgeQuirks.IsComplete;
    hide BridgeQuirks.CountCommands;
    hide BridgeQuirks.CountCompletes;
    hide SentBy;
    hide HeardInHost;
    hide LedgerOf;
    SentBySnoc(events, e, true);
    SentBySnoc(events, e, false);
    HeardSnoc(events, e);
    LedgerSnoc(events, e, q);
    EnterCounts(LedgerOf(events, q), e, q);
    CountMore(SentBy(events, true), SentAs(e, true), q);
    CountMore(SentBy(events, false), SentAs(e, false), q);
    CountMore(HeardInHost(events), HeardBy(e), q);
  }

  lemma NoneCounted(q: BridgeModel.Quirk)
    ensures Counted([], q)
  {
  }

  lemma {:induction false} LedgerCounts(events: seq<Event>, q: BridgeModel.Quirk)
    ensures Counted(events, q)
    decreases |events|
  {
    hide Counted;
    if events == [] {
      NoneCounted(q);
    } else {
      var n := |events| - 1;
      LedgerCounts(events[..n], q);
      CountedSnoc(events[..n], events[n], q);
      assert events == events[..n] + [events[n]];
    }
  }

  /** The bridge's counter holds exactly what it is owed, and it has passed none on. */
  predicate Settled(t: BridgeQuirks.Totals) {
    t.Owing() == t.counter && t.PassedOn() == 0
  }

  lemma SettledMoves(t: BridgeQuirks.Totals, t': BridgeQuirks.Totals)
    requires Settled(t) && BridgeQuirks.Moves(t, t')
    requires t'.arrived <= t'.sent && t'.sent - t'.arrived <= 255
    ensures Settled(t')
  {
  }

  /** For each quirk, as long as the log is fair the bridge is settled. */
  ghost predicate Answered(events: seq<Event>, b: BridgeModel.Bridge) {
    forall q: BridgeModel.Quirk :: Fair(events, q) ==> Settled(BridgeQuirks.TotalsOf(b, q))
  }

  lemma AnsweredStays(events: seq<Event>, e: Event, b: BridgeModel.Bridge)
    requires Answered(events, b)
    ensures Answered(events + [e], b)
  {
    hide Fair;
    hide Settled;
    forall q: BridgeModel.Quirk | Fair(events + [e], q) ensures Settled(BridgeQuirks.TotalsOf(b, q)) {
      CleanSnoc(events, e, q);
    }
  }

  /** A step of the bridge, once the log has what it received and sent. */
  lemma AnsweredStep(events: seq<Event>, b: BridgeModel.Bridge, b': BridgeModel.Bridge)
    requires Answered(events, b) && InSession(events) && AllRightly(events)
    requires SentBy(events, true) == b'.life.sent && HeardInHost(events) == b'.life.arrived
    requires forall q: BridgeModel.Quirk ::
               BridgeQuirks.Moves(BridgeQuirks.TotalsOf(b, q), BridgeQuirks.TotalsOf(b', q))
    ensures Answered(events, b')
  {
    hide BridgeQuirks.Moves;
    hide BridgeQuirks.CountCommands;
    hide BridgeQuirks.CountCompletes;
    hide Settled;
    forall q: BridgeModel.Quirk | Fair(events, q) ensures Settled(BridgeQuirks.TotalsOf(b', q)) {
      var t, t' := BridgeQuirks.TotalsOf(b, q), BridgeQuirks.TotalsOf(b', q);
      LedgerCounts(events, q);
      FairIsOwn(events, q);
      assert BridgeQuirks.Moves(t, t') && Settled(t);
      SettledMoves(t, t');
    }
  }

  lemma FairIsOwn(events: seq<Event>, q: BridgeModel.Quirk)
    requires Fair(events, q) && InSession(events) && AllRightly(events)
    ensures LedgerOf(events, q).toBridge <= LedgerOf(events, q).bridgeSent
    ensures LedgerOf(events, q).bridgeSent - LedgerOf(events, q).toBridge <= 255
  {
    if events != [] { CleanIsOwn(events, q); }
  }
}
