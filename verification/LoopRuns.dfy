/** What the main loop promises over every run: who owns the controller, what each owner sends, and
    why the PC is woken. */
module LoopRuns {
  import opened Hci
  import opened WakePeers
  import opened PowerModel
  import opened LoopLog
  import opened LoopModel
  import opened LoopLedger
  import BridgeQuirks
  import PowerRuns
  import BridgeModel
  import BridgeFlow
  import AclReassembly
  import Advertising
  import WakeModel
  import WakeStore

  // ------------------------------------------------------- the supervisor's moves

  /** The transitions of the supervisor. */
  predicate Edge(from: PowerState, to: PowerState) {
    match from
    case HostOff => to == HostOnUsbHci || to == StandbyHciHost
    case StandbyHciHost => to == HostOnUsbHci || to == WakePulse
    case WakePulse => to == WaitWakeSenseSettle
    case WaitWakeSenseSettle => to == HostOnUsbHci || to == WaitHostBoot
    case WaitHostBoot => to == HostOnUsbHci || to == HostOff
    case HostOnUsbHci => to == HostShuttingDown
    case HostShuttingDown => to == HostOff
    case _ => false
  }

  /** Each supervisor call makes at most one transition, and requests and the override make
      none. */
  lemma StepEdges(s: Supervisor, op: PowerRuns.Op)
    requires s.state != Unknown && s.state != Fault
    ensures var next := PowerRuns.Apply(s, op).state;
            next == s.state || (op.DoTick? && Edge(s.state, next))
  {
  }

  // ------------------------------------------------------------------ what was logged

  /** A run: how the power inputs stood at power-up, what the flash held, and what happens. */
  datatype Setting = Setting(up: PowerRuns.PowerUp, stored: WakeModel.PeerList, hs: seq<Happening>)

  /** The `at`-th thing to happen is a pass that delivered this packet, to its transport call or to
      the waits of an attempt to configure standby. */
  ghost predicate Delivers(hs: seq<Happening>, at: nat, a: Arrival) {
    && at < |hs| && hs[at].Pass?
    && (a in hs[at].input.received || a in HeardIn(hs[at].input.first) || a in HeardIn(hs[at].input.retry))
  }

  ghost predicate AllDelivered(hs: seq<Happening>, events: seq<Event>) {
    forall k :: 0 <= k < |events| && events[k].Heard? ==> Delivers(hs, events[k].at, events[k].arrival)
  }

  /** The log of sends is what the two senders sent, and all of it rightly. */
  ghost predicate Logged(w: World) {
    && SentBy(w.events, true) == w.bridge.life.sent && SentBy(w.events, false) == w.hostSent
    && AllRightly(w.events) && InSession(w.events)
  }

  /** Event `e` is a packet heard in standby that, with the wake list as the log left it before,
      should wake the PC. */
  ghost predicate Waking(stored: WakeModel.PeerList, events: seq<Event>, e: nat) {
    && e < |events| && events[e].Heard? && events[e].state == StandbyHciHost
    && Advertising.PacketVerdict(WakeAfter(stored, events[..e]).list, events[e].arrival.packet)
       != Advertising.NoMatch
  }

  /** A request made at `now` is justified by such a packet, received at that time, or by the
      console. */
  ghost predicate Justifies(stored: WakeModel.PeerList, events: seq<Event>, why: Why, now: nat) {
    match why
    case Unasked => false
    case ByPacket(e) => Waking(stored, events, e) && events[e].arrival.at == now
    case ByConsole => true
  }

  ghost predicate JustifiedAt(stored: WakeModel.PeerList, ops: seq<PowerRuns.Op>, whys: seq<Why>,
                              events: seq<Event>, k: nat)
  {
    k < |ops| && k < |whys| && (ops[k].DoRequest? ==> Justifies(stored, events, whys[k], ops[k].now))
  }

  /** Every request to the supervisor is justified. */
  ghost predicate Justified(stored: WakeModel.PeerList, w: World) {
    && |w.whys| == |w.ops|
    && (forall k :: 0 <= k < |w.ops| ==> JustifiedAt(stored, w.ops, w.whys, w.events, k))
  }

  /** The parts are runs of their own models, over the logged steps. */
  ghost predicate Followed(c: Setting, w: World) {
    && w.power == PowerRuns.Run(c.up, w.ops) && w.bridge == BridgeFlow.Run(w.bridgeOps)
    && w.wake == WakeAfter(c.stored, w.events)
  }

  // ---------------------------------------------------------- kept by every step

  ghost predicate Kept(c: Setting, w: World) {
    && Logged(w) && Justified(c.stored, w) && Followed(c, w) && AllDelivered(c.hs, w.events)
    && Answered(w.events, w.bridge) && w.power.s.state != Unknown && w.power.s.state != Fault
  }

  /** Kept, the supervisor's state is the mode entered last, and of what the log has heard for the
      bridge all but `due` has reached it. */
  ghost predicate Awaiting(c: Setting, w: World, due: seq<Packet>) {
    && Kept(c, w) && LastEntered(w.events) == w.power.s.state
    && HeardInHost(w.events) == w.bridge.life.arrived + due
  }

  ghost predicate Working(c: Setting, w: World) {
    Awaiting(c, w, [])
  }

  /** Nothing about who owns the controller has changed. */
  predicate SameOwner(w: World, w': World) {
    && w'.bridge.enabled == w.bridge.enabled && w'.power.s.state == w.power.s.state
    && w'.lastState == w.lastState && w'.configured == w.configured && w'.count == w.count
  }

  lemma WorkingIsReady(c: Setting, w: World)
    requires Working(c, w)
    ensures Ready(w) && w.power.s.state != Unknown && w.power.s.state != Fault
  {
  }

  lemma WakingStays(stored: WakeModel.PeerList, events: seq<Event>, e: Event, k: nat)
    requires Waking(stored, events, k)
    ensures Waking(stored, events + [e], k) && k < |events| && (events + [e])[k] == events[k]
  {
    assert (events + [e])[..k] == events[..k];
  }

  lemma JustifiedStays(stored: WakeModel.PeerList, w: World, e: Event)
    requires Justified(stored, w)
    ensures Justified(stored, Note(w, e))
  {
    hide Waking;
    forall k | 0 <= k < |w.ops| ensures JustifiedAt(stored, w.ops, w.whys, w.events + [e], k) {
      assert JustifiedAt(stored, w.ops, w.whys, w.events, k);
      if w.ops[k].DoRequest? && w.whys[k].ByPacket? {
        WakingStays(stored, w.events, e, w.whys[k].event);
      }
    }
  }

  /** One more event, with what it does to the wake policy. */
  function Told(w: World, e: Event, wake: WakeModel.Wake): World {
    Note(w, e).(wake := wake)
  }

  lemma RightlySnoc(events: seq<Event>, e: Event)
    requires AllRightly(events) && Rightly(e)
    ensures AllRightly(events + [e])
  {
  }

  lemma NoteLogged(w: World, e: Event)
    requires Logged(w) && Rightly(e) && !e.Sent?
    requires StateOf(e).Some? ==> StateOf(e).value == LastEntered(w.events)
    ensures Logged(Note(w, e))
  {
    SentBySnoc(w.events, e, true);
    SentBySnoc(w.events, e, false);
    SessionSnoc(w.events, e);
    RightlySnoc(w.events, e);
    hide SentBy;
    hide AllRightly;
  }

  /** Anything but a send is told. */
  lemma ToldKeeps(c: Setting, w: World, e: Event, wake: WakeModel.Wake)
    requires Kept(c, w) && wake == WakeStep(w.wake, e) && Rightly(e) && !e.Sent?
    requires StateOf(e).Some? ==> StateOf(e).value == LastEntered(w.events)
    requires e.Heard? ==> Delivers(c.hs, e.at, e.arrival)
    ensures Kept(c, Told(w, e, wake)) && SameOwner(w, Told(w, e, wake))
    ensures LastEntered(Told(w, e, wake).events) == if e.Entered? then e.mode else LastEntered(w.events)
    ensures HeardInHost(Told(w, e, wake).events) == HeardInHost(w.events) + HeardBy(e)
  {    hide Answered;
    hide HeardBy;
    hide Justified;
    hide WakeAfter;
    hide WakeStep;
    hide Delivers;
    hide Rightly;
    hide HeardInHost;
    hide LastEntered;
    hide SentBy;
    hide AllRightly;
    hide PowerRuns.Run;
    hide BridgeFlow.Run;

    HeardSnoc(w.events, e);
    AnsweredStays(w.events, e, w.bridge);
    NoteLogged(w, e);
    JustifiedStays(c.stored, w, e);
    WakeAfterSnoc(c.stored, w.events, e);
    SessionSnoc(w.events, e);
    assert Logged(Told(w, e, wake));
    assert Justified(c.stored, Told(w, e, wake)) by { JustifiedTold(c.stored, w, e, wake); }
  }

  lemma JustifiedTold(stored: WakeModel.PeerList, w: World, e: Event, wake: WakeModel.Wake)
    requires Justified(stored, Note(w, e))
    ensures Justified(stored, Told(w, e, wake))
  {
  }

  // -------------------------------------------------------------------- sending

  /** The world with some packets logged as sent. */
  function Sending(w: World, byBridge: bool, packets: seq<Packet>): World {
    w.(events := w.events + Tagged(w, byBridge, packets))
  }

  lemma SendingSnoc(w: World, byBridge: bool, packets: seq<Packet>, p: Packet)
    ensures Sending(w, byBridge, packets + [p])
         == Note(Sending(w, byBridge, packets), Sent(byBridge, p, w.power.s.state, w.bridge.enabled))
  {
    var e := Sent(byBridge, p, w.power.s.state, w.bridge.enabled);
    assert Tagged(w, byBridge, packets + [p]) == Tagged(w, byBridge, packets) + [e];
    assert w.events + (Tagged(w, byBridge, packets) + [e]) == w.events + Tagged(w, byBridge, packets) + [e];
  }

  /** What sending leaves as it was, and what it adds. */
  ghost predicate SentWell(c: Setting, w: World, w': World, byBridge: bool, packets: seq<Packet>) {
    && SentBy(w'.events, byBridge) == SentBy(w.events, byBridge) + packets
    && SentBy(w'.events, !byBridge) == SentBy(w.events, !byBridge)
    && AllRightly(w'.events) && InSession(w'.events) && LastEntered(w'.events) == LastEntered(w.events)
    && WakeAfter(c.stored, w'.events) == WakeAfter(c.stored, w.events)
    && Justified(c.stored, w') && AllDelivered(c.hs, w'.events)
    && HeardInHost(w'.events) == HeardInHost(w.events) && Answered(w'.events, w.bridge)
  }

  lemma SentWellSnoc(c: Setting, w: World, w1: World, byBridge: bool, packets: seq<Packet>, p: Packet, e: Event)
    requires SentWell(c, w, w1, byBridge, packets)
    requires e.Sent? && e.byBridge == byBridge && e.packet == p && Rightly(e)
    requires e.state == LastEntered(w.events)
    ensures SentWell(c, w, Note(w1, e), byBridge, packets + [p])
  {
    SentBySnoc(w1.events, e, true);
    SentBySnoc(w1.events, e, false);
    SessionSnoc(w1.events, e);
    RightlySnoc(w1.events, e);
    WakeAfterSnoc(c.stored, w1.events, e);
    JustifiedStays(c.stored, w1, e);
    HeardSnoc(w1.events, e);
    AnsweredStays(w1.events, e, w.bridge);
    assert HeardInHost(w.events) + [] == HeardInHost(w.events);
    hide HeardInHost;
    hide Answered;
    hide SentBy;
    hide AllRightly;
    hide Justified;
    hide InSession;
    hide WakeAfter;
    hide Delivers;
    assert SentBy(w.events, byBridge) + packets + [p] == SentBy(w.events, byBridge) + (packets + [p]);
  }

  lemma {:induction false} SendingWell(c: Setting, w: World, byBridge: bool, packets: seq<Packet>)
    requires Kept(c, w) && LastEntered(w.events) == w.power.s.state
    requires packets != [] ==> Rightly(Sent(byBridge, packets[0], w.power.s.state, w.bridge.enabled))
    ensures SentWell(c, w, Sending(w, byBridge, packets), byBridge, packets)
    decreases |packets|
  {
    hide SentWell;
    if packets == [] {
      assert w.events + Tagged(w, byBridge, packets) == w.events;
      NothingSent(c, w, byBridge);
    } else {
      var n := |packets| - 1;
      var before, p := packets[..n], packets[n];
      SendingWell(c, w, byBridge, before);
      assert packets == before + [p];
      SendingSnoc(w, byBridge, before, p);
      SentWellSnoc(c, w, Sending(w, byBridge, before), byBridge, before, p,
                   Sent(byBridge, p, w.power.s.state, w.bridge.enabled));
    }
  }

  lemma NothingSent(c: Setting, w: World, byBridge: bool)
    requires Kept(c, w)
    ensures SentWell(c, w, w, byBridge, [])
  {
    hide SentBy;
    hide WakeAfter;
    hide Justified;
    hide Answered;
    hide HeardInHost;
  }

  // ------------------------------------------------------------------ bridge steps

  /** What a bridge step sends, and when it may. */
  lemma StepSendsRightly(ops: seq<BridgeModel.Op>, op: BridgeModel.Op)
    ensures var b := BridgeFlow.Run(ops);
            var b' := BridgeModel.Step(b, op);
            && b'.life.sent == b.life.sent + NewlySent(b, b')
            && (NewlySent(b, b') != [] ==> op.RunTask? && b.enabled)
            && b'.enabled == if op.Enable? then op.on else b.enabled
  {
    var b := BridgeFlow.Run(ops);
    BridgeFlow.RunSound(ops);
    hide BridgeFlow.Run;
    hide BridgeFlow.Sound;
    if !op.Enable? { BridgeFlow.StepSends(b, op); }
  }

  lemma BridgeRunSnoc(ops: seq<BridgeModel.Op>, op: BridgeModel.Op)
    ensures BridgeFlow.Run(ops + [op]) == BridgeModel.Step(BridgeFlow.Run(ops), op)
  {
    assert (ops + [op])[..|ops|] == ops;
  }

  /** What the bridge is given by a step. */
  function Given(b: BridgeModel.Bridge, op: BridgeModel.Op): seq<Packet> {
    if op.Receive? && b.enabled && op.packet.kind in {Event, Acl} then [op.packet] else []
  }

  lemma {:induction false} DrainArrives(b: BridgeModel.Bridge, sends: seq<bool>)
    ensures BridgeModel.Drain(b, sends).life.arrived == b.life.arrived
    decreases |b.up.queue|
  {
    hide BridgeModel.AsksFeatures;
    if b.up.queue != [] {
      if BridgeModel.HeadAsksFeatures(b) {
        DrainArrives(BridgeModel.AnswerHead(b), sends);
      } else if sends != [] && sends[0] {
        DrainArrives(BridgeModel.SendHead(b), sends[1..]);
      }
    }
  }

  lemma StepArrives(b: BridgeModel.Bridge, op: BridgeModel.Op)
    requires AclReassembly.Sound(b.up.partial)
    ensures BridgeModel.Step(b, op).life.arrived == b.life.arrived + Given(b, op)
  {
    hide BridgeModel.Drain;
    hide BridgeModel.AclFragment;
    assert b.life.arrived + [] == b.life.arrived;
    if op.RunTask? {
      DrainArrives(b.(down := BridgeModel.Expire(b.down, op.now)), op.sends);
    }
  }

  lemma StepMoves(ops: seq<BridgeModel.Op>, op: BridgeModel.Op)
    ensures var b := BridgeFlow.Run(ops);
            forall q: BridgeModel.Quirk ::
              BridgeQuirks.Moves(BridgeQuirks.TotalsOf(b, q), BridgeQuirks.TotalsOf(BridgeModel.Step(b, op), q))
  {
    BridgeFlow.RunSound(ops);
    var b := BridgeFlow.Run(ops);
    forall q: BridgeModel.Quirk
      ensures BridgeQuirks.Moves(BridgeQuirks.TotalsOf(b, q), BridgeQuirks.TotalsOf(BridgeModel.Step(b, op), q))
    {
      BridgeQuirks.StepTotals(b, op, q);
    }
  }

  lemma BridgingAnswers(c: Setting, w: World, op: BridgeModel.Op)
    requires Awaiting(c, w, Given(w.bridge, op)) && (op.RunTask? ==> w.power.s.state == HostOnUsbHci)
    ensures var w' := Bridging(w, op);
            && Answered(w'.events, w'.bridge) && HeardInHost(w'.events) == w'.bridge.life.arrived + []
  {
    hide BridgeFlow.Run;
    hide BridgeModel.Step;
    hide SentBy;
    hide WakeAfter;
    hide JustifiedAt;
    hide AllRightly;
    hide AllDelivered;
    hide Answered;
    hide HeardInHost;
    hide BridgeQuirks.Moves;
    hide BridgeQuirks.TotalsOf;
    hide NewlySent;
    StepSendsRightly(w.bridgeOps, op);
    StepArrives(w.bridge, op);
    StepMoves(w.bridgeOps, op);
    var b' := BridgeModel.Step(w.bridge, op);
    SendingWell(c, w, true, NewlySent(w.bridge, b'));
    AnsweredStep(Bridging(w, op).events, w.bridge, b');
  }

  lemma BridgingKeeps(c: Setting, w: World, op: BridgeModel.Op)
    requires Awaiting(c, w, Given(w.bridge, op)) && (op.RunTask? ==> w.power.s.state == HostOnUsbHci)
    ensures Working(c, Bridging(w, op))
    ensures Bridging(w, op).bridge.enabled == if op.Enable? then op.on else w.bridge.enabled
    ensures SameOwner(w.(bridge := w.bridge.(enabled := Bridging(w, op).bridge.enabled)), Bridging(w, op))
  {
    hide BridgeFlow.Run;
    hide BridgeModel.Step;
    hide SentBy;
    hide WakeAfter;
    hide JustifiedAt;
    hide AllRightly;
    hide AllDelivered;
    hide Answered;
    hide HeardInHost;
    hide NewlySent;
    StepSendsRightly(w.bridgeOps, op);
    BridgeRunSnoc(w.bridgeOps, op);
    BridgingAnswers(c, w, op);
    var packets := NewlySent(w.bridge, BridgeModel.Step(w.bridge, op));
    SendingWell(c, w, true, packets);
  }

  /** A step of the bridge's own, which receives nothing. */
  lemma OwnStepKeeps(c: Setting, w: World, op: BridgeModel.Op)
    requires Working(c, w) && !op.Receive? && (op.RunTask? ==> w.power.s.state == HostOnUsbHci)
    ensures Ready(w) && Working(c, Bridging(w, op))
    ensures Bridging(w, op).bridge.enabled == if op.Enable? then op.on else w.bridge.enabled
    ensures SameOwner(w.(bridge := w.bridge.(enabled := Bridging(w, op).bridge.enabled)), Bridging(w, op))
  {
    hide Kept;
    hide Bridging;
    WorkingIsReady(c, w);
    BridgingKeeps(c, w, op);
  }

  lemma {:induction false} UsbCallbacksKeep(c: Setting, w: World, es: seq<UsbEvent>)
    requires Working(c, w)
    ensures Working(c, UsbCallbacks(w, es)) && SameOwner(w, UsbCallbacks(w, es))
    decreases |es|
  {
    hide Working;
    WorkingIsReady(c, w);
    hide Bridging;
    if es != [] {
      OwnStepKeeps(c, w, AsOp(es[0]));
      UsbCallbacksKeep(c, Bridging(w, AsOp(es[0])), es[1..]);
    }
  }

  // --------------------------------------------------------------- supervisor steps

  lemma RecordJustified(stored: WakeModel.PeerList, w: World, op: PowerRuns.Op, why: Why)
    requires Justified(stored, w)
    requires op.DoRequest? ==> Justifies(stored, w.events, why, op.now)
    ensures Justified(stored, Record(w, op, why))
  {
    hide Justifies;
    forall k | 0 <= k < |w.ops| ensures JustifiedAt(stored, w.ops + [op], w.whys + [why], w.events, k) {
      assert JustifiedAt(stored, w.ops, w.whys, w.events, k);
    }
  }

  lemma RecordKeeps(c: Setting, w: World, op: PowerRuns.Op, why: Why)
    requires Kept(c, w)
    requires op.DoRequest? ==> Justifies(c.stored, w.events, why, op.now)
    ensures Kept(c, Record(w, op, why))
    ensures !op.DoTick? ==> SameOwner(w, Record(w, op, why))
  {
    hide PowerRuns.Run;
    hide PowerRuns.Apply;
    hide Justified;
    hide WakeAfter;
    hide Answered;
    hide AllDelivered;
    hide SentBy;
    hide AllRightly;
    hide BridgeFlow.Run;
    StepEdges(w.power.s, op);
    RecordJustified(c.stored, w, op, why);
    PowerRuns.RunSnoc(c.up, w.ops, op);
  }

  // ---------------------------------------------------------------- packets received

  function Hearing(w: World, a: Arrival): Event {
    Heard(w.count, a, w.power.s.state, w.bridge.enabled)
  }

  lemma WakeCheckKeeps(c: Setting, w: World, a: Arrival)
    requires Working(c, w) && w.power.s.state == StandbyHciHost && !w.bridge.enabled
    requires Delivers(c.hs, w.count, a)
    ensures Working(c, WakeCheck(w, a)) && SameOwner(w, WakeCheck(w, a))
  {
    var e := Hearing(w, a);
    var w1 := Told(w, e, WakeStep(w.wake, e));
    assert WakeStep(w.wake, e) == WakeModel.Hear(w.wake, a.packet, a.at);
    ToldKeeps(c, w, e, WakeStep(w.wake, e));
    if Advertising.PacketVerdict(w.wake.list, a.packet) != Advertising.NoMatch {
      assert Waking(c.stored, w1.events, |w.events|) by {
        assert w1.events[..|w.events|] == w.events;
      }
      RecordKeeps(c, w1, PowerRuns.DoRequest(a.at), ByPacket(|w.events|));
    }
    hide Kept;
  }

  ghost predicate AllDeliver(hs: seq<Happening>, at: nat, arrivals: seq<Arrival>) {
    forall a :: a in arrivals ==> Delivers(hs, at, a)
  }

  lemma {:induction false} WakeChecksKeep(c: Setting, w: World, arrivals: seq<Arrival>)
    requires Working(c, w) && w.power.s.state == StandbyHciHost && !w.bridge.enabled
    requires AllDeliver(c.hs, w.count, arrivals)
    ensures Working(c, WakeChecks(w, arrivals)) && SameOwner(w, WakeChecks(w, arrivals))
    decreases |arrivals|
  {
    hide Working;
    hide WakeCheck;
    hide Delivers;
    if arrivals != [] {
      WakeCheckKeeps(c, w, arrivals[0]);
      WakeChecksKeep(c, WakeCheck(w, arrivals[0]), arrivals[1..]);
    }
  }

  lemma ReceiveKeeps(c: Setting, w: World, a: Arrival)
    requires Working(c, w) && Delivers(c.hs, w.count, a)
    requires w.bridge.enabled <==> w.power.s.state == HostOnUsbHci
    ensures Working(c, Receive(w, a)) && SameOwner(w, Receive(w, a))
  {
    var e := Hearing(w, a);
    if w.power.s.state == StandbyHciHost {
      WakeCheckKeeps(c, w, a);
    } else {
      ToldKeeps(c, w, e, WakeStep(w.wake, e));
      var w1 := Told(w, e, WakeStep(w.wake, e));
      if w.power.s.state == HostOnUsbHci {
        BridgingKeeps(c, w1, BridgeModel.Receive(a.packet));
        assert w1 == Arrive(w, a).(wake := WakeModel.Observe(w.wake, a.packet, a.at));
      } else {
        assert w1 == Arrive(w, a);
      }
    }
    hide Kept;
  }

  lemma {:induction false} TransportKeeps(c: Setting, w: World, arrivals: seq<Arrival>)
    requires Working(c, w) && AllDeliver(c.hs, w.count, arrivals)
    requires w.bridge.enabled <==> w.power.s.state == HostOnUsbHci
    ensures Working(c, Transport(w, arrivals)) && SameOwner(w, Transport(w, arrivals))
    decreases |arrivals|
  {
    hide Working;
    WorkingIsReady(c, w);
    hide Receive;
    hide Delivers;
    if arrivals != [] {
      ReceiveKeeps(c, w, arrivals[0]);
      TransportKeeps(c, Receive(w, arrivals[0]), arrivals[1..]);
    }
  }

  // --------------------------------------------------------------- who is in charge

  /** The bridge is enabled exactly in the state last dispatched as host mode, only standby counts as
      configured, and the log agrees. */
  predicate InCharge(w: World) {
    && (w.bridge.enabled <==> w.lastState == HostOnUsbHci)
    && (w.configured ==> w.lastState == StandbyHciHost)
  }

  lemma ResetKeeps(c: Setting, w: World)
    requires Working(c, w) && w.power.s.state == StandbyHciHost && !w.bridge.enabled
    ensures Working(c, Note(w, ControllerReset(w.power.s.state, w.bridge.enabled)))
  {
    hide Kept;
    var e := ControllerReset(w.power.s.state, w.bridge.enabled);
    ToldKeeps(c, w, e, w.wake);
    assert HeardInHost(w.events) + [] == HeardInHost(w.events);
    assert Told(w, e, w.wake) == Note(w, e);
  }

  lemma CommandsGoneKeep(c: Setting, w: World, attempt: Attempt)
    requires Working(c, w) && w.power.s.state == StandbyHciHost && !w.bridge.enabled
    ensures var w' := CommandsGone(w, attempt);
            Working(c, w') && SameOwner(w.(configured := w'.configured), w')
  {
    hide SentBy;
    hide WakeAfter;
    hide JustifiedAt;
    hide AllRightly;
    hide AllDelivered;
    hide Answered;
    hide HeardInHost;
    hide Commands;
    hide PowerRuns.Run;
    hide BridgeFlow.Run;
    var w1 := Note(w, ControllerReset(w.power.s.state, w.bridge.enabled));
    ResetKeeps(c, w);
    SendingWell(c, w1, false, Commands(attempt));
    assert Tagged(w1, false, Commands(attempt)) == Tagged(w, false, Commands(attempt));
  }

  lemma ConfigureKeeps(c: Setting, w: World, attempt: Attempt)
    requires Working(c, w) && w.power.s.state == StandbyHciHost && !w.bridge.enabled
    requires AllDeliver(c.hs, w.count, HeardIn(attempt))
    ensures var w' := Configure(w, attempt);
            Working(c, w') && SameOwner(w.(configured := w'.configured), w')
  {
    hide Working;
    hide CommandsGone;
    CommandsGoneKeep(c, w, attempt);
    WakeChecksKeep(c, CommandsGone(w, attempt), HeardIn(attempt));
  }

  lemma EnterStandbyKeeps(c: Setting, w: World, attempt: Attempt)
    requires Working(c, w) && w.power.s.state == StandbyHciHost
    requires AllDeliver(c.hs, w.count, HeardIn(attempt))
    ensures var w' := EnterStandby(w, attempt);
            Working(c, w') && SameOwner(w.(bridge := w.bridge.(enabled := false), configured := w'.configured), w')
  {
    hide Working;
    WorkingIsReady(c, w);
    hide Bridging;
    hide Configure;
    OwnStepKeeps(c, w, BridgeModel.Enable(false));
    var w1 := Bridging(w, BridgeModel.Enable(false));
    if !w1.configured { ConfigureKeeps(c, w1, attempt); }
  }

  lemma ForgetKeeps(c: Setting, w: World)
    requires Working(c, w)
    ensures Working(c, w.(configured := false))
  {
    hide SentBy;
    hide WakeAfter;
    hide JustifiedAt;
  }

  lemma EnableKeeps(c: Setting, w: World, on: bool)
    requires Working(c, w)
    ensures var w' := Bridging(w.(configured := false), BridgeModel.Enable(on));
            && Working(c, w') && w'.bridge.enabled == on && !w'.configured
            && w'.power.s.state == w.power.s.state && w'.lastState == w.lastState && w'.count == w.count
  {
    hide Working;
    hide Bridging;
    WorkingIsReady(c, w);
    ForgetKeeps(c, w);
    OwnStepKeeps(c, w.(configured := false), BridgeModel.Enable(on));
    hide Bridging;
  }

  /** What the dispatch may meet: the state just entered, and the one dispatched before. */
  predicate Reached(lastState: PowerState, state: PowerState) {
    || lastState == state || Edge(lastState, state)
    || (lastState == Unknown && state !in {WakePulse, WaitHostBoot})
  }

  /** In every state but two the bridge is left enabled exactly in host mode, and the standby
      configuration is kept only in standby; the pulse and the boot wait leave the bridge as
      it is. */
  predicate InMode(w: World, w': World) {
    && (w'.configured ==> w'.power.s.state == StandbyHciHost
                          || (w.configured && w'.power.s.state == WaitHostBoot))
    && (w'.bridge.enabled <==> if w'.power.s.state in {WakePulse, WaitHostBoot} then w.bridge.enabled
                               else w'.power.s.state == HostOnUsbHci)
    && w'.power.s.state == w.power.s.state && w'.lastState == w.lastState && w'.count == w.count
  }

  lemma EnterModeKeeps(c: Setting, w: World, attempt: Attempt)
    requires Working(c, w) && AllDeliver(c.hs, w.count, HeardIn(attempt))
    ensures Working(c, EnterMode(w, attempt)) && InMode(w, EnterMode(w, attempt))
  {
    hide Working;
    hide Bridging;
    hide EnterStandby;
    WorkingIsReady(c, w);
    ForgetKeeps(c, w);
    match w.power.s.state
    case HostOnUsbHci => EnableKeeps(c, w, true);
    case StandbyHciHost => EnterStandbyKeeps(c, w, attempt);
    case WakePulse =>
    case WaitHostBoot =>
    case _ => EnableKeeps(c, w, false);
  }

  /** The dispatched state does not matter to what is kept. */
  lemma DispatchedKeeps(c: Setting, w: World, state: PowerState)
    requires Working(c, w)
    ensures Working(c, w.(lastState := state))
  {
    hide SentBy;
    hide WakeAfter;
    hide JustifiedAt;
  }

  lemma EnteredKeeps(c: Setting, w: World)
    requires Kept(c, w) && HeardInHost(w.events) == w.bridge.life.arrived + []
    ensures Working(c, Note(w, Entered(w.power.s.state)))
  {
    hide Kept;
    var e := Entered(w.power.s.state);
    ToldKeeps(c, w, e, w.wake);
    assert HeardInHost(w.events) + [] == HeardInHost(w.events);
    assert Told(w, e, w.wake) == Note(w, e);
  }

  lemma AlreadyWorking(c: Setting, w: World)
    requires Kept(c, w) && LastEntered(w.events) == w.power.s.state
    requires HeardInHost(w.events) == w.bridge.life.arrived + []
    ensures Working(c, w)
  {
  }

  lemma EnteredInCharge(w: World, w': World)
    requires InCharge(w) && Reached(w.lastState, w.power.s.state) && w.power.s.state != w.lastState
    requires InMode(Note(w, Entered(w.power.s.state)), w')
    ensures InCharge(w'.(lastState := w.power.s.state))
  {
  }

  lemma DispatchKeeps(c: Setting, w: World, attempt: Attempt)
    requires Kept(c, w) && InCharge(w) && Reached(w.lastState, w.power.s.state)
    requires LastEntered(w.events) == w.lastState && HeardInHost(w.events) == w.bridge.life.arrived + []
    requires AllDeliver(c.hs, w.count, HeardIn(attempt))
    ensures var w' := Dispatch(w, attempt);
            && Working(c, w') && InCharge(w') && w'.count == w.count
            && w'.power.s.state == w.power.s.state == w'.lastState
  {
    assert Ready(w);
    hide Kept;
    hide EnterMode;
    hide Working;
    hide HeardInHost;
    if w.power.s.state == w.lastState {
      AlreadyWorking(c, w);
    } else {
      var w1 := Note(w, Entered(w.power.s.state));
      EnteredKeeps(c, w);
      EnterModeKeeps(c, w1, attempt);
      DispatchedKeeps(c, EnterMode(w1, attempt), w.power.s.state);
      EnteredInCharge(w, EnterMode(w1, attempt));
    }
  }

  // ---------------------------------------------------------------------- a pass

  lemma RunHostModeKeeps(c: Setting, w: World, input: PassInput)
    requires Working(c, w) && w.power.s.state == HostOnUsbHci && w.bridge.enabled
    requires AllDeliver(c.hs, w.count, input.received)
    ensures Working(c, RunHostMode(w, input)) && SameOwner(w, RunHostMode(w, input))
  {
    hide Working;
    WorkingIsReady(c, w);
    hide Bridging;
    hide UsbCallbacks;
    hide Transport;
    var w1 := UsbCallbacks(w, input.usbBefore);
    UsbCallbacksKeep(c, w, input.usbBefore);
    OwnStepKeeps(c, w1, TaskOp(input.taskBefore));
    var w2 := Bridging(w1, TaskOp(input.taskBefore));
    TransportKeeps(c, w2, input.received);
    var w3 := Transport(w2, input.received);
    OwnStepKeeps(c, w3, TaskOp(input.taskAfter));
    UsbCallbacksKeep(c, Bridging(w3, TaskOp(input.taskAfter)), input.usbAfter);
  }

  lemma RunStandbyKeeps(c: Setting, w: World, input: PassInput)
    requires Working(c, w) && w.power.s.state == StandbyHciHost && !w.bridge.enabled
    requires AllDeliver(c.hs, w.count, input.received) && AllDeliver(c.hs, w.count, HeardIn(input.retry))
    ensures var w' := RunStandby(w, input);
            Working(c, w') && SameOwner(w.(configured := w'.configured), w')
  {
    hide Working;
    WorkingIsReady(c, w);
    hide EnterStandby;
    hide UsbCallbacks;
    hide Transport;
    TransportKeeps(c, w, input.received);
    var w1 := Transport(w, input.received);
    if !w1.configured { EnterStandbyKeeps(c, w1, input.retry); }
    UsbCallbacksKeep(c, Retry(w1, input.retry), input.usbAfter);
  }

  lemma RunIdleKeeps(c: Setting, w: World, input: PassInput)
    requires Working(c, w) && AllDeliver(c.hs, w.count, input.received)
    requires !w.bridge.enabled && w.power.s.state != HostOnUsbHci
    ensures Working(c, RunIdle(w, input)) && SameOwner(w, RunIdle(w, input))
  {
    hide Working;
    WorkingIsReady(c, w);
    hide UsbCallbacks;
    hide Transport;
    TransportKeeps(c, w, input.received);
    UsbCallbacksKeep(c, Transport(w, input.received), input.usbAfter);
  }

  lemma RunStateKeeps(c: Setting, w: World, input: PassInput)
    requires Working(c, w) && InCharge(w) && w.lastState == w.power.s.state
    requires AllDeliver(c.hs, w.count, input.received) && AllDeliver(c.hs, w.count, HeardIn(input.retry))
    ensures var w' := RunState(w, input);
            && Working(c, w') && InCharge(w') && w'.count == w.count
            && w'.lastState == w'.power.s.state == w.lastState
  {
    hide Working;
    WorkingIsReady(c, w);
    hide UsbCallbacks;
    hide RunHostMode;
    hide RunStandby;
    hide RunIdle;
    match w.power.s.state
    case HostOnUsbHci => RunHostModeKeeps(c, w, input);
    case StandbyHciHost => RunStandbyKeeps(c, w, input);
    case WaitWakeSenseSettle => UsbCallbacksKeep(c, w, input.usbAfter);
    case _ => RunIdleKeeps(c, w, input);
  }

  /** What holds whenever the loop comes round: before the first pass nothing has been
      dispatched, afterwards the supervisor's state has. */
  ghost predicate Steady(c: Setting, w: World) {
    && Kept(c, w) && InCharge(w) && LastEntered(w.events) == w.lastState
    && HeardInHost(w.events) == w.bridge.life.arrived + []
    && (w.lastState == w.power.s.state
        || (w.lastState == Unknown && w.power.s.state in {HostOnUsbHci, HostOff}))
  }

  lemma FollowKeeps(c: Setting, w: World, input: PassInput)
    requires Steady(c, w) && AllDeliver(c.hs, w.count, HeardIn(input.first))
    ensures var w' := Follow(w, input);
            Working(c, w') && InCharge(w') && w'.lastState == w'.power.s.state && w'.count == w.count
  {
    var op := PowerRuns.DoTick(input.pwrOk, input.usbVbus, input.now, input.later);
    StepEdges(w.power.s, op);
    RecordKeeps(c, w, op, Unasked);
    hide Kept;
    hide PowerRuns.Apply;
    DispatchKeeps(c, Supervise(w, input), input.first);
    hide Dispatch;
    hide Working;
  }

  lemma SavePassKeeps(c: Setting, w: World, now: nat, write: WakeStore.FlashWrite)
    requires Working(c, w)
    ensures Working(c, SavePass(w, now, write)) && SameOwner(w, SavePass(w, now, write))
  {
    var e := SaveCall(now, write);
    ToldKeeps(c, w, e, WakeStep(w.wake, e));
    assert HeardInHost(w.events) + [] == HeardInHost(w.events);
    hide Kept;
  }

  lemma OnePassKeeps(c: Setting, w: World, input: PassInput)
    requires Steady(c, w) && w.count < |c.hs| && c.hs[w.count] == Pass(input)
    ensures var w' := OnePass(w, input);
            Steady(c, w') && w'.lastState == w'.power.s.state && w'.count == w.count
  {
    assert Ready(w);
    hide Kept;
    hide Follow;
    hide RunState;
    FollowKeeps(c, w, input);
    var w1 := Follow(w, input);
    RunStateKeeps(c, w1, input);
    SavePassKeeps(c, RunState(w1, input), input.saveAt, input.write);
  }

  lemma CountKeeps(c: Setting, w: World)
    requires Steady(c, w)
    ensures Steady(c, CountOn(w)) && CountOn(w).count == w.count + 1
    ensures CountOn(w).lastState == w.lastState && CountOn(w).power == w.power
  {
    hide SentBy;
    hide WakeAfter;
    hide JustifiedAt;
  }

  lemma RecordSteady(c: Setting, w: World, op: PowerRuns.Op, why: Why)
    requires Steady(c, w) && !op.DoTick?
    requires op.DoRequest? ==> Justifies(c.stored, w.events, why, op.now)
    ensures Steady(c, Record(w, op, why)) && Record(w, op, why).count == w.count
  {
    hide Kept;
    hide PowerRuns.Watch;
    RecordKeeps(c, w, op, why);
  }

  lemma ClearSteady(c: Setting, w: World, write: WakeStore.FlashWrite)
    requires Steady(c, w)
    ensures Steady(c, ClearPeers(w, write)) && ClearPeers(w, write).count == w.count
  {
    hide Kept;
    hide HeardInHost;
    hide LastEntered;
    hide WakeModel.Clear;
    ToldKeeps(c, w, Cleared(write), WakeStep(w.wake, Cleared(write)));
    assert HeardInHost(w.events) + [] == HeardInHost(w.events);
    assert Told(w, Cleared(write), WakeStep(w.wake, Cleared(write))) == ClearPeers(w, write);
  }

  lemma ActKeeps(c: Setting, w: World, h: Happening)
    requires Steady(c, w) && w.count < |c.hs| && c.hs[w.count] == h
    ensures Steady(c, Act(w, h)) && Act(w, h).count == w.count
    ensures h.Pass? ==> Act(w, h).lastState == Act(w, h).power.s.state
  {
    assert Ready(w);
    hide OnePass;
    hide Steady;
    hide Record;
    match h
    case Pass(input) =>
      OnePassKeeps(c, w, input);
    case Force(force, p, v, at) =>
      RecordSteady(c, w, PowerRuns.DoForce(force, p, v, at), Unasked);
    case AskWake(at) =>
      RecordSteady(c, w, PowerRuns.DoRequest(at), ByConsole);
    case Clear(write) =>
      ClearSteady(c, w, write);
  }

  lemma HappenKeeps(c: Setting, w: World, h: Happening)
    requires Steady(c, w) && w.count < |c.hs| && c.hs[w.count] == h
    ensures Steady(c, Happen(w, h)) && Happen(w, h).count == w.count + 1
    ensures h.Pass? ==> Happen(w, h).lastState == Happen(w, h).power.s.state
  {
    assert Ready(w);
    hide Act;
    hide Steady;
    ActKeeps(c, w, h);
    CountKeeps(c, Act(w, h));
  }

  lemma StartTotals(q: BridgeModel.Quirk)
    ensures BridgeQuirks.TotalsOf(BridgeModel.START, q) == BridgeQuirks.Totals(0, 0, 0, 0, 0, 0)
  {
  }

  lemma StartAnswered()
    ensures Answered([], BridgeModel.START)
  {
    hide Fair;
    hide BridgeQuirks.TotalsOf;
    forall q: BridgeModel.Quirk ensures Settled(BridgeQuirks.TotalsOf(BridgeModel.START, q)) {
      StartTotals(q);
    }
  }

  lemma StartSteady(c: Setting)
    ensures Steady(c, Start(c.up, c.stored))
  {
    StartAnswered();
    hide Answered;
  }

  ghost function RunOf(c: Setting, n: nat): World
    requires n <= |c.hs|
  {
    Run(c.up, c.stored, c.hs, n)
  }

  lemma {:induction false} RunSteady(c: Setting, n: nat)
    requires n <= |c.hs|
    ensures Steady(c, RunOf(c, n)) && RunOf(c, n).count == n
    ensures n > 0 && c.hs[n - 1].Pass? ==> RunOf(c, n).lastState == RunOf(c, n).power.s.state
    decreases n
  {
    hide Happen;
    hide Steady;
    if n == 0 {
      StartSteady(c);
    } else {
      RunSteady(c, n - 1);
      HappenKeeps(c, RunOf(c, n - 1), c.hs[n - 1]);
    }
  }

  // ----------------------------------------------------------------- main results

  /** One client owns the controller: the bridge is enabled exactly in host mode, standby is
      configured only in standby, the two clients' sends are the whole log of sends, each of
      them and each controller reset was made in its owner's own mode, and a disabled bridge
      holds no packet and no part of one. */
  ghost predicate OneOwner(w: World) {
    && (w.bridge.enabled <==> w.lastState == HostOnUsbHci)
    && (w.configured ==> w.lastState == StandbyHciHost)
    && SentBy(w.events, true) == w.bridge.life.sent && SentBy(w.events, false) == w.hostSent
    && (forall i :: 0 <= i < |w.events| ==> Rightly(w.events[i])) && InSession(w.events)
    && (!w.bridge.enabled ==> w.bridge.down.queue == [] && !w.bridge.down.inFlight && w.bridge.up.queue == []
                              && w.bridge.up.partial == AclReassembly.NONE)
  }

  lemma SteadyIsOwned(c: Setting, w: World)
    requires Steady(c, w)
    ensures OneOwner(w) && (w.lastState == w.power.s.state || w.lastState == Unknown)
  {
    BridgeFlow.RunSound(w.bridgeOps);
    hide BridgeFlow.Run;
    hide SentBy;
    hide Rightly;
    hide InSession;
  }

  /** MAIN: at every moment of every run of passes, debug commands and wake-list clears from
      power-up, the controller has one owner, and right after a pass the owner is the one of
      the supervisor's state. */
  lemma AlwaysOneOwner(c: Setting, n: nat)
    requires n <= |c.hs|
    ensures var w := RunOf(c, n);
            && OneOwner(w)
            && (w.lastState == w.power.s.state || w.lastState == Unknown)
            && (n > 0 && c.hs[n - 1].Pass? ==> w.lastState == w.power.s.state)
  {
    hide RunOf;
    hide OneOwner;
    hide Steady;
    RunSteady(c, n);
    SteadyIsOwned(c, RunOf(c, n));
  }

  /** The pulse was given in time, and by a request that had a reason: the console's, or a packet
      that one of the passes delivered in standby and that, with the wake list as it then was,
      should wake the PC. */
  ghost predicate Caused(c: Setting, w: World, i: nat)
    requires i < |w.power.pulses|
  {
    var p := w.power.pulses[i];
    && PowerRuns.GoodPulse(w.power.pulses, i)
    && PowerRuns.AskedIn(w.ops, p.askedBy, p.askedAt) && p.askedBy < |w.whys|
    && match w.whys[p.askedBy]
       case Unasked => false
       case ByConsole => true
       case ByPacket(e) =>
         && Waking(c.stored, w.events, e) && w.events[e].arrival.at == p.askedAt
         && Delivers(c.hs, w.events[e].at, w.events[e].arrival)
  }

  /** MAIN: in every run in which time does not go back, the supervisor made exactly the logged
      steps, and each wake pulse follows such a request, made after the PC was last found off,
      after the arming delay unless the override was used since, and after the last pulse's
      cooldown. */
  lemma EveryPulseCaused(c: Setting, n: nat)
    requires n <= |c.hs| && PowerRuns.TimelyRun(c.up, RunOf(c, n).ops)
    ensures var w := RunOf(c, n);
            && w.power == PowerRuns.Run(c.up, w.ops)
            && forall i :: 0 <= i < |w.power.pulses| ==> Caused(c, w, i)
  {
    hide RunOf;
    RunSteady(c, n);
    AllCaused(c, RunOf(c, n));
    hide Justified;
    hide Logged;
    hide Caused;
  }

  lemma AllCaused(c: Setting, w: World)
    requires Justified(c.stored, w) && w.power == PowerRuns.Run(c.up, w.ops) && AllDelivered(c.hs, w.events)
    requires PowerRuns.TimelyRun(c.up, w.ops)
    ensures forall i :: 0 <= i < |w.power.pulses| ==> Caused(c, w, i)
  {
    PowerRuns.PulsesPaced(c.up, w.ops);
    PowerRuns.PulsesAsked(c.up, w.ops);
    hide PowerRuns.Run;
    hide PowerRuns.TimelyRun;
    hide WakeAfter;
    hide Delivers;
    forall i | 0 <= i < |w.power.pulses| ensures Caused(c, w, i) {
      var p := w.power.pulses[i];
      assert PowerRuns.GoodPulse(w.power.pulses, i);
      assert PowerRuns.AskedIn(w.ops, p.askedBy, p.askedAt);
      assert JustifiedAt(c.stored, w.ops, w.whys, w.events, p.askedBy);
    }
  }

  /** MAIN: at every moment of every run the wake list is the last sixteen of where it began (what
      the flash held, or nothing since a clear) and every peer that a delivered packet has
      shown since; and the flash holds it unless a change waits or the last save failed. */
  lemma ListOverRuns(c: Setting, n: nat)
    requires n <= |c.hs| && NoDuplicates(c.stored)
    ensures var w := RunOf(c, n);
            && w.wake.list == Suffix(KeepLast(ListStart(c.stored, w.events) + ShownSince(c.stored, w.events)),
                                     MAX_KNOWN_BLE_PEERS)
            && NoDuplicates(w.wake.list) && AllDelivered(c.hs, w.events)
            && (!w.wake.dirty && !w.wake.saveFailed ==> w.wake.stored == w.wake.list)
  {
    hide RunOf;
    RunSteady(c, n);
    ListIsLastSixteenShown(c.stored, RunOf(c, n).events);
    hide Justified;
    hide Logged;
    hide WakeAfter;
    hide ShownSince;
    hide ListStart;
    hide Suffix;
    hide KeepLast;
    hide AllDelivered;
  }

  /** MAIN: at every moment of every run, for each of the four quirk commands, both the bridge's and
      the standby host's: while the log is clean, no owner of the controller was given more
      completions than it sent commands; and while it is fair too, the bridge owes and is owed
      what its counter says, has passed none of the controller's own completions on to the PC,
      and has offered it exactly one per command sent. */
  lemma NoneCrosses(c: Setting, n: nat, q: BridgeModel.Quirk)
    requires n <= |c.hs|
    ensures var w := RunOf(c, n);
            var l, t := LedgerOf(w.events, q), BridgeQuirks.TotalsOf(w.bridge, q);
            && t.sent == l.bridgeSent && t.arrived == l.toBridge
            && (Clean(w.events, q) ==> l.toHost <= l.hostSent && l.toBridge <= l.bridgeSent)
            && (Fair(w.events, q) ==> t.PassedOn() == 0 && t.Owing() == t.counter && t.queued + t.refused == t.sent)
  {
    hide RunOf;
    RunSteady(c, n);
    OwnAnswers(c, RunOf(c, n), q);
  }

  lemma OwnAnswers(c: Setting, w: World, q: BridgeModel.Quirk)
    requires Steady(c, w)
    ensures var l, t := LedgerOf(w.events, q), BridgeQuirks.TotalsOf(w.bridge, q);
            && t.sent == l.bridgeSent && t.arrived == l.toBridge
            && (Clean(w.events, q) ==> l.toHost <= l.hostSent && l.toBridge <= l.bridgeSent)
            && (Fair(w.events, q) ==> t.PassedOn() == 0 && t.Owing() == t.counter && t.queued + t.refused == t.sent)
  {
    LedgerCounts(w.events, q);
    BridgeQuirks.OneCompletePerSend(w.bridgeOps, q);
    assert HeardInHost(w.events) + [] == HeardInHost(w.events);
    assert w.bridge.life.arrived + [] == w.bridge.life.arrived;
    hide BridgeFlow.Run;
    hide BridgeQuirks.CountCommands;
    hide BridgeQuirks.CountCompletes;
    hide HeardInHost;
    hide Justified;
    hide Fair;
    if Clean(w.events, q) { CleanIsOwn(w.events, q); }
    hide Clean;
  }
}
