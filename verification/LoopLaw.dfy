/** The law of the main loop: from the inputs of a pass alone, which packets it hears and who gets
    them, which calls the bridge gets, which commands the standby host sends, and which wake
    requests are made. */
module LoopLaw {
  import opened Hci
  import opened PowerModel
  import opened LoopLog
  import opened LoopModel
  import opened LoopRuns
  import PowerRuns
  import BridgeModel
  import BridgeFlow
  import BridgeHistory
  import LoopLedger
  import Advertising
  import HciHostMinimal
  import WakeModel
  import WakeStore

  /** What was done: packets heard, calls of the bridge, commands the standby host sent, and steps of
      the supervisor, each in order. */
  datatype Deeds = Deeds(heard: seq<Arrival>, calls: seq<BridgeModel.Op>, sent: seq<Packet>,
                         ops: seq<PowerRuns.Op>)

  const NOTHING := Deeds([], [], [], [])

  function Plus(d: Deeds, e: Deeds): Deeds {
    Deeds(d.heard + e.heard, d.calls + e.calls, d.sent + e.sent, d.ops + e.ops)
  }

  lemma PlusHeard(a: seq<Arrival>, x: seq<BridgeModel.Op>, m: seq<PowerRuns.Op>,
                  b: seq<Arrival>, y: seq<BridgeModel.Op>, n: seq<PowerRuns.Op>)
    ensures Plus(Deeds(a, x, [], m), Deeds(b, y, [], n)) == Deeds(a + b, x + y, [], m + n)
  {
  }

  /** Everything heard in a log. */
  function HeardOf(events: seq<Event>): seq<Arrival>
    decreases |events|
  {
    if events == [] then []
    else
      var n := |events| - 1;
      HeardOf(events[..n]) + if events[n].Heard? then [events[n].arrival] else []
  }

  lemma HeardSnoc(events: seq<Event>, e: Event)
    ensures HeardOf(events + [e]) == HeardOf(events) + if e.Heard? then [e.arrival] else []
  {
    assert (events + [e])[..|events|] == events;
  }

  lemma {:induction false} HeardSends(w: World, events: seq<Event>, byBridge: bool, packets: seq<Packet>)
    ensures HeardOf(events + Tagged(w, byBridge, packets)) == HeardOf(events)
    decreases |packets|
  {
    if packets == [] {
      assert events + Tagged(w, byBridge, packets) == events;
    } else {
      var n := |packets| - 1;
      var e := Sent(byBridge, packets[n], w.power.s.state, w.bridge.enabled);
      HeardSends(w, events, byBridge, packets[..n]);
      assert events + Tagged(w, byBridge, packets) == (events + Tagged(w, byBridge, packets[..n])) + [e];
      HeardSnoc(events + Tagged(w, byBridge, packets[..n]), e);
    }
  }

  /** From `w` to `w'` exactly this was done, and the supervisor stayed in its state. */
  ghost predicate Did(w: World, w': World, d: Deeds) {
    && HeardOf(w'.events) == HeardOf(w.events) + d.heard
    && w'.bridgeOps == w.bridgeOps + d.calls
    && w'.hostSent == w.hostSent + d.sent
    && w'.ops == w.ops + d.ops
    && w'.power.s.state == w.power.s.state
  }

  lemma DidThen(w: World, w1: World, w2: World, d: Deeds, e: Deeds)
    requires Did(w, w1, d) && Did(w1, w2, e)
    ensures Did(w, w2, Plus(d, e))
  {
    hide HeardOf;
  }

  lemma DidNothing(w: World)
    ensures Did(w, w, NOTHING)
  {
    hide HeardOf;
  }

  /** The bridge's state is sound, and it is on or off. */
  ghost predicate On(w: World, on: bool) {
    BridgeFlow.Sound(w.bridge) && w.bridge.enabled == on
  }

  /** Unlike the steps of the parts, these stay. */
  predicate Untouched(w: World, w': World) {
    w'.wake == w.wake && w'.configured == w.configured && w'.lastState == w.lastState && w'.count == w.count
  }

  lemma BridgingDoes(w: World, op: BridgeModel.Op)
    requires Ready(w)
    ensures Did(w, Bridging(w, op), Deeds([], [op], [], [])) && Untouched(w, Bridging(w, op))
    ensures BridgeFlow.Sound(w.bridge)
        ==> On(Bridging(w, op), if op.Enable? then op.on else w.bridge.enabled)
  {
    hide HeardOf;
    hide Tagged;
    hide NewlySent;
    hide BridgeModel.Step;
    HeardSends(w, w.events, true, NewlySent(w.bridge, BridgeModel.Step(w.bridge, op)));
    if BridgeFlow.Sound(w.bridge) {
      BridgeFlow.StepSound(w.bridge, op);
      if !op.Enable? { BridgeHistory.StepKeepsOn(w.bridge, op); } else { EnableSets(w.bridge, op.on); }
    }
    hide BridgeFlow.Sound;
  }

  lemma EnableSets(b: BridgeModel.Bridge, on: bool)
    requires BridgeFlow.Sound(b)
    ensures BridgeModel.Step(b, BridgeModel.Enable(on)).enabled == on
  {
  }

  function Calls(es: seq<UsbEvent>): seq<BridgeModel.Op> {
    if es == [] then []
    else
      (match es[0]
       case CommandTransfer(bytes) => [BridgeModel.CommandTransfer(bytes)]
       case AclTransfer(bytes) => [BridgeModel.AclTransfer(bytes)]
       case PacketSent => [BridgeModel.SentEvent]) + Calls(es[1..])
  }

  lemma {:induction false} CallbacksDo(w: World, es: seq<UsbEvent>, on: bool)
    requires Ready(w) && On(w, on)
    ensures var w' := UsbCallbacks(w, es);
            Did(w, w', Deeds([], Calls(es), [], [])) && Untouched(w, w') && On(w', on)
    decreases |es|
  {
    hide Did;
    hide On;
    hide Bridging;
    if es == [] {
      DidNothing(w);
    } else {
      var w1 := Bridging(w, AsOp(es[0]));
      EnabledIs(w, on);
      BridgingDoes(w, AsOp(es[0]));
      CallbacksDo(w1, es[1..], on);
      DidThen(w, w1, UsbCallbacks(w1, es[1..]), Deeds([], [AsOp(es[0])], [], []), Deeds([], Calls(es[1..]), [], []));
    }
  }

  lemma EnabledIs(w: World, on: bool)
    requires On(w, on)
    ensures w.bridge.enabled == on && BridgeFlow.Sound(w.bridge)
  {
  }

  // --------------------------------------------------------------------- hearing

  /** The wake policy after these are heard in standby. */
  ghost function Learns(k: WakeModel.Wake, arrivals: seq<Arrival>): WakeModel.Wake
    decreases |arrivals|
  {
    if arrivals == [] then k else Learns(WakeModel.Hear(k, arrivals[0].packet, arrivals[0].at), arrivals[1..])
  }

  /** The requests they make: one for each packet that should wake the PC by the list as it is then. */
  ghost function Asked(k: WakeModel.Wake, arrivals: seq<Arrival>): seq<PowerRuns.Op>
    decreases |arrivals|
  {
    if arrivals == [] then []
    else
      var a := arrivals[0];
      (if Advertising.PacketVerdict(k.list, a.packet) == Advertising.NoMatch then [] else [PowerRuns.DoRequest(a.at)])
      + Asked(WakeModel.Hear(k, a.packet, a.at), arrivals[1..])
  }

  /** The wake policy after these pass on their way to the PC. */
  function Observes(k: WakeModel.Wake, arrivals: seq<Arrival>): WakeModel.Wake
    decreases |arrivals|
  {
    if arrivals == [] then k else Observes(WakeModel.Observe(k, arrivals[0].packet, arrivals[0].at), arrivals[1..])
  }

  lemma {:induction false} AskedConcat(k: WakeModel.Wake, a: seq<Arrival>, b: seq<Arrival>)
    ensures Learns(k, a + b) == Learns(Learns(k, a), b)
    ensures Asked(k, a + b) == Asked(k, a) + Asked(Learns(k, a), b)
    decreases |a|
  {
    hide Advertising.PacketVerdict;
    hide WakeModel.Hear;
    if a == [] {
      assert a + b == b;
    } else {
      assert (a + b)[1..] == a[1..] + b;
      AskedConcat(WakeModel.Hear(k, a[0].packet, a[0].at), a[1..], b);
    }
  }

  lemma ArriveDoes(w: World, a: Arrival)
    ensures Did(w, Arrive(w, a), Deeds([a], [], [], [])) && Untouched(w, Arrive(w, a))
  {
    HeardSnoc(w.events, Heard(w.count, a, w.power.s.state, w.bridge.enabled));
    hide HeardOf;
  }

  lemma RecordRequest(w: World, at: nat, why: Why)
    requires w.power.s.state != Unknown && w.power.s.state != Fault
    ensures Record(w, PowerRuns.DoRequest(at), why).power.s.state == w.power.s.state
  {
    StepEdges(w.power.s, PowerRuns.DoRequest(at));
  }

  lemma WakeCheckDoes(w: World, a: Arrival)
    requires w.power.s.state != Unknown && w.power.s.state != Fault
    ensures var w' := WakeCheck(w, a);
            && Did(w, w', Deeds([a], [], [], Asked(w.wake, [a])))
            && w'.wake == Learns(w.wake, [a])
            && Untouched(w.(wake := w'.wake), w')
  {
    hide HeardOf;
    hide Advertising.PacketVerdict;
    hide WakeModel.Hear;
    hide PowerRuns.Watch;
    assert [a][1..] == [];
    ArriveDoes(w, a);
    RecordRequest(Arrive(w, a).(wake := WakeModel.Hear(w.wake, a.packet, a.at)), a.at, ByPacket(|w.events|));
  }

  lemma {:induction false} WakeChecksDo(w: World, arrivals: seq<Arrival>)
    requires w.power.s.state != Unknown && w.power.s.state != Fault
    ensures var w' := WakeChecks(w, arrivals);
            && Did(w, w', Deeds(arrivals, [], [], Asked(w.wake, arrivals)))
            && w'.wake == Learns(w.wake, arrivals)
            && Untouched(w.(wake := w'.wake), w')
    decreases |arrivals|
  {
    hide Did;
    hide WakeCheck;
    hide Asked;
    hide Learns;
    if arrivals == [] {
      DidNothing(w);
      AskedNone(w.wake);
    } else {
      var a, rest := arrivals[0], arrivals[1..];
      var w1 := WakeCheck(w, a);
      WakeCheckDoes(w, a);
      StateOfDid(w, w1, Deeds([a], [], [], Asked(w.wake, [a])));
      WakeChecksDo(w1, rest);
      AskedConcat(w.wake, [a], rest);
      assert [a] + rest == arrivals;
      DidThen(w, w1, WakeChecks(w1, rest), Deeds([a], [], [], Asked(w.wake, [a])),
              Deeds(rest, [], [], Asked(w1.wake, rest)));
      PlusHeard([a], [], Asked(w.wake, [a]), rest, [], Asked(w1.wake, rest));
    }
  }

  lemma AskedNone(k: WakeModel.Wake)
    ensures Asked(k, []) == [] && Learns(k, []) == k
  {
  }

  lemma StateOfDid(w: World, w': World, d: Deeds)
    requires Did(w, w', d)
    ensures w'.power.s.state == w.power.s.state
  {
  }

  // ----------------------------------------------------------- the transport's call

  /** In host mode every packet is shown to the wake list and given to the bridge. */
  function Given(arrivals: seq<Arrival>): seq<BridgeModel.Op> {
    if arrivals == [] then [] else [BridgeModel.Receive(arrivals[0].packet)] + Given(arrivals[1..])
  }

  lemma ToBridgeDoes(w: World, a: Arrival)
    requires Ready(w) && On(w, true)
    ensures var w' := ToBridge(w, a);
            && Did(w, w', Deeds([a], [BridgeModel.Receive(a.packet)], [], []))
            && w'.wake == WakeModel.Observe(w.wake, a.packet, a.at)
            && Untouched(w.(wake := w'.wake), w') && On(w', true)
  {
    hide HeardOf;
    hide Bridging;
    hide WakeModel.Observe;
    ArriveDoes(w, a);
    var w1 := Arrive(w, a).(wake := WakeModel.Observe(w.wake, a.packet, a.at));
    EnabledIs(w, true);
    BridgingDoes(w1, BridgeModel.Receive(a.packet));
    DidThen(w, w1, ToBridge(w, a), Deeds([a], [], [], []), Deeds([], [BridgeModel.Receive(a.packet)], [], []));
    PlusHeard([a], [], [], [], [BridgeModel.Receive(a.packet)], []);
    hide BridgeFlow.Sound;
  }

  lemma {:induction false} HostHears(w: World, arrivals: seq<Arrival>)
    requires Ready(w) && On(w, true) && w.power.s.state == HostOnUsbHci
    ensures var w' := Transport(w, arrivals);
            && Did(w, w', Deeds(arrivals, Given(arrivals), [], []))
            && w'.wake == Observes(w.wake, arrivals)
            && Untouched(w.(wake := w'.wake), w') && On(w', true)
    decreases |arrivals|
  {
    hide Did;
    hide On;
    hide ToBridge;
    hide WakeModel.Observe;
    if arrivals == [] {
      DidNothing(w);
    } else {
      var a, rest := arrivals[0], arrivals[1..];
      var d := Deeds([a], [BridgeModel.Receive(a.packet)], [], []);
      EnabledIs(w, true);
      ToBridgeDoes(w, a);
      StateOfDid(w, ToBridge(w, a), d);
      HostHears(ToBridge(w, a), rest);
      DidThen(w, ToBridge(w, a), Transport(ToBridge(w, a), rest), d, Deeds(rest, Given(rest), [], []));
      PlusHeard([a], [BridgeModel.Receive(a.packet)], [], rest, Given(rest), []);
      assert [a] + rest == arrivals;
    }
  }

  lemma {:induction false} StandbyHears(w: World, arrivals: seq<Arrival>)
    requires Ready(w) && w.power.s.state == StandbyHciHost
    ensures Transport(w, arrivals) == WakeChecks(w, arrivals)
    decreases |arrivals|
  {
    hide WakeCheck;
    if arrivals != [] {
      WakeCheckDoes(w, arrivals[0]);
      StateOfDid(w, WakeCheck(w, arrivals[0]), Deeds([arrivals[0]], [], [], Asked(w.wake, [arrivals[0]])));
      StandbyHears(WakeCheck(w, arrivals[0]), arrivals[1..]);
    }
  }

  lemma {:induction false} NobodyHears(w: World, arrivals: seq<Arrival>)
    requires Ready(w) && w.power.s.state != StandbyHciHost && w.power.s.state != HostOnUsbHci
    ensures var w' := Transport(w, arrivals);
            Did(w, w', Deeds(arrivals, [], [], [])) && Untouched(w, w') && w'.bridge == w.bridge
    decreases |arrivals|
  {
    hide Did;
    hide Arrive;
    if arrivals == [] {
      DidNothing(w);
    } else {
      var a, rest := arrivals[0], arrivals[1..];
      ArriveDoes(w, a);
      StateOfDid(w, Arrive(w, a), Deeds([a], [], [], []));
      NobodyHears(Arrive(w, a), rest);
      DidThen(w, Arrive(w, a), Transport(Arrive(w, a), rest), Deeds([a], [], [], []), Deeds(rest, [], [], []));
      PlusHeard([a], [], [], rest, [], []);
      assert [a] + rest == arrivals;
    }
  }

  // --------------------------------------------------------------------- standby

  lemma CommandsGoneDo(w: World, attempt: Attempt)
    ensures var w' := CommandsGone(w, attempt);
            && Did(w, w', Deeds([], [], Commands(attempt), [])) && w'.wake == w.wake
            && w'.configured == HciHostMinimal.Configures(attempt.resetOk, attempt.replies)
            && w'.lastState == w.lastState && w'.count == w.count && w'.bridge == w.bridge
  {
    hide HeardOf;
    hide Tagged;
    hide Commands;
    HeardSnoc(w.events, ControllerReset(w.power.s.state, w.bridge.enabled));
    HeardSends(w, w.events + [ControllerReset(w.power.s.state, w.bridge.enabled)], false, Commands(attempt));
  }

  /** What an attempt sends, and what it hears: the waits of those commands. */
  function SentIn(attempt: Attempt): seq<Packet> {
    HciHostMinimal.StandbyCommands(HciHostMinimal.CommandsSent(attempt.resetOk, attempt.replies))
  }

  function HeardDuring(attempt: Attempt): seq<Arrival> {
    HciHostMinimal.HeardBy(attempt.replies, HciHostMinimal.CommandsSent(attempt.resetOk, attempt.replies))
  }

  lemma AttemptIs(attempt: Attempt)
    ensures Commands(attempt) == SentIn(attempt) && HeardIn(attempt) == HeardDuring(attempt)
  {
  }

  /** An attempt to configure the controller for standby, or none. */
  function AttemptDeeds(made: bool, attempt: Attempt, asked: seq<PowerRuns.Op>, calls: seq<BridgeModel.Op>): Deeds {
    if made then Deeds(HeardIn(attempt), calls, Commands(attempt), asked) else Deeds([], calls, [], [])
  }

  lemma EnterStandbyDoes(w: World, attempt: Attempt)
    requires Ready(w) && BridgeFlow.Sound(w.bridge) && w.power.s.state != Unknown && w.power.s.state != Fault
    ensures var w', made := EnterStandby(w, attempt), !w.configured;
            && Did(w, w', AttemptDeeds(made, attempt, Asked(w.wake, HeardIn(attempt)), [BridgeModel.Enable(false)]))
            && w'.wake == (if made then Learns(w.wake, HeardIn(attempt)) else w.wake)
            && w'.configured == (w.configured || HciHostMinimal.Configures(attempt.resetOk, attempt.replies))
            && w'.lastState == w.lastState && w'.count == w.count && On(w', false)
  {
    hide Did;
    hide Bridging;
    hide WakeChecks;
    hide CommandsGone;
    hide Commands;
    hide HeardIn;
    hide HciHostMinimal.Configures;
    hide Asked;
    hide Learns;
    var heard := HeardIn(attempt);
    var w1 := Bridging(w, BridgeModel.Enable(false));
    BridgingDoes(w, BridgeModel.Enable(false));
    if !w.configured {
      var w2 := CommandsGone(w1, attempt);
      var d := Deeds([], [BridgeModel.Enable(false)], [], []);
      CommandsGoneDo(w1, attempt);
      StateOfDid(w, w1, d);
      StateOfDid(w1, w2, Deeds([], [], Commands(attempt), []));
      WakeChecksDo(w2, heard);
      DidThen(w, w1, w2, d, Deeds([], [], Commands(attempt), []));
      DidThen(w, w2, WakeChecks(w2, heard), Plus(d, Deeds([], [], Commands(attempt), [])),
              Deeds(heard, [], [], Asked(w.wake, heard)));
      PlusAttempt([BridgeModel.Enable(false)], Commands(attempt), heard, Asked(w.wake, heard));
    }
    hide BridgeFlow.Sound;
  }

  lemma PlusAttempt(calls: seq<BridgeModel.Op>, sent: seq<Packet>, heard: seq<Arrival>, asked: seq<PowerRuns.Op>)
    ensures Plus(Plus(Deeds([], calls, [], []), Deeds([], [], sent, [])), Deeds(heard, [], [], asked))
         == Deeds(heard, calls, sent, asked)
  {
  }

  // ---------------------------------------------------------------- changes of mode

  /** Entering host mode enables the bridge; entering standby, off, the wait after a pulse or the
      wait for the PC to shut down disables it; the pulse and the wait for the PC to boot do
      not touch it. */
  function EntryCalls(changed: bool, state: PowerState): seq<BridgeModel.Op> {
    if !changed then []
    else if state == HostOnUsbHci then [BridgeModel.Enable(true)]
    else if state == StandbyHciHost || state == HostOff || state == WaitWakeSenseSettle || state == HostShuttingDown
    then [BridgeModel.Enable(false)]
    else []
  }

  /** All of these but standby forget that it was configured, and so does the pulse. */
  predicate Forgets(changed: bool, state: PowerState) {
    && changed
    && (state == HostOnUsbHci || state == HostOff || state == WaitWakeSenseSettle || state == HostShuttingDown
        || state == WakePulse)
  }

  /** Standby is entered and not configured. */
  predicate TriesFirst(w: World, state: PowerState) {
    state == StandbyHciHost && state != w.lastState && !w.configured
  }

  function ConfiguredBy(attempt: Attempt): bool {
    HciHostMinimal.Configures(attempt.resetOk, attempt.replies)
  }

  function ConfiguredThen(w: World, state: PowerState, attempt: Attempt): bool {
    if Forgets(state != w.lastState, state) then false
    else w.configured || (TriesFirst(w, state) && ConfiguredBy(attempt))
  }

  /** The loop follows the supervisor: what it did from `w` on, the state being `state`. */
  ghost function EntryDeeds(w: World, state: PowerState, attempt: Attempt): Deeds {
    AttemptDeeds(TriesFirst(w, state), attempt, Asked(w.wake, HeardIn(attempt)),
                 EntryCalls(state != w.lastState, state))
  }

  ghost function EntryWake(w: World, state: PowerState, attempt: Attempt): WakeModel.Wake {
    if TriesFirst(w, state) then Learns(w.wake, HeardIn(attempt)) else w.wake
  }

  lemma NoteDoes(w: World, e: Event)
    requires !e.Heard?
    ensures Did(w, Note(w, e), NOTHING) && Untouched(w, Note(w, e))
  {
    HeardSnoc(w.events, e);
    hide HeardOf;
  }

  lemma EnterModeDoes(w: World, attempt: Attempt)
    requires Ready(w) && BridgeFlow.Sound(w.bridge) && w.power.s.state != Unknown && w.power.s.state != Fault
    requires w.power.s.state != w.lastState
    ensures var w', s := EnterMode(w, attempt), w.power.s.state;
            && Did(w, w', EntryDeeds(w, s, attempt)) && w'.wake == EntryWake(w, s, attempt)
            && w'.configured == ConfiguredThen(w, s, attempt)
            && w'.count == w.count && BridgeFlow.Sound(w'.bridge) && (s == HostOnUsbHci ==> w'.bridge.enabled)
  {
    hide Did;
    hide Bridging;
    hide EnterStandby;
    hide Commands;
    hide HeardIn;
    hide HciHostMinimal.Configures;
    hide Asked;
    hide Learns;
    hide BridgeFlow.Sound;
    match w.power.s.state
    case HostOnUsbHci => Reconfigured(w, true);
    case StandbyHciHost => EnterStandbyDoes(w, attempt); SoundOf(EnterStandby(w, attempt), false);
    case WakePulse => ForgetDoes(w);
    case WaitHostBoot => DidNothing(w);
    case _ => Reconfigured(w, false);
  }

  lemma SoundOf(w: World, on: bool)
    requires On(w, on)
    ensures BridgeFlow.Sound(w.bridge) && w.bridge.enabled == on
  {
  }

  lemma ForgetDoes(w: World)
    ensures Did(w, w.(configured := false), NOTHING)
  {
    hide HeardOf;
  }

  lemma Reconfigured(w: World, on: bool)
    requires Ready(w) && BridgeFlow.Sound(w.bridge)
    ensures var w' := Bridging(w.(configured := false), BridgeModel.Enable(on));
            && Did(w, w', Deeds([], [BridgeModel.Enable(on)], [], []))
            && w'.wake == w.wake && !w'.configured && w'.count == w.count
            && BridgeFlow.Sound(w'.bridge) && w'.bridge.enabled == on
  {
    hide HeardOf;
    hide Bridging;
    BridgingDoes(w.(configured := false), BridgeModel.Enable(on));
    SoundOf(Bridging(w.(configured := false), BridgeModel.Enable(on)), on);
    hide BridgeFlow.Sound;
  }

  lemma DispatchDoes(w: World, attempt: Attempt)
    requires Ready(w) && BridgeFlow.Sound(w.bridge) && w.power.s.state != Unknown && w.power.s.state != Fault
    requires w.lastState == HostOnUsbHci ==> w.bridge.enabled
    ensures var w', s := Dispatch(w, attempt), w.power.s.state;
            && Did(w, w', EntryDeeds(w, s, attempt)) && w'.wake == EntryWake(w, s, attempt)
            && w'.configured == ConfiguredThen(w, s, attempt) && w'.lastState == s
            && w'.count == w.count && BridgeFlow.Sound(w'.bridge) && (s == HostOnUsbHci ==> w'.bridge.enabled)
  {
    hide Did;
    hide EnterMode;
    hide Commands;
    hide HeardIn;
    hide HciHostMinimal.Configures;
    hide Asked;
    hide Learns;
    hide BridgeFlow.Sound;
    var s := w.power.s.state;
    if s == w.lastState {
      DidNothing(w);
    } else {
      var e := Entered(s);
      var w1 := Note(w, e);
      NoteDoes(w, e);
      EnterModeDoes(w1, attempt);
      DidThen(w, w1, EnterMode(w1, attempt), NOTHING, EntryDeeds(w, s, attempt));
      PlusNothing(EntryDeeds(w, s, attempt));
      DidDispatched(w, EnterMode(w1, attempt), EntryDeeds(w, s, attempt));
    }
  }

  lemma PlusNothing(d: Deeds)
    ensures Plus(NOTHING, d) == d && Plus(d, NOTHING) == d
  {
  }

  lemma DidDispatched(w: World, w': World, d: Deeds)
    requires Did(w, w', d)
    ensures Did(w, w'.(lastState := w'.power.s.state), d) && Did(w, w'.(lastState := w.power.s.state), d)
  {
    hide HeardOf;
  }

  // ------------------------------------------------------------- the work of a state

  /** What a pass does in host mode: the callbacks of USB's first call, the bridge's task, every packet
      received, the task again, and the callbacks of USB's second call. */
  function HostCalls(input: PassInput): seq<BridgeModel.Op> {
    Calls(input.usbBefore) + [TaskCall(input.taskBefore)] + Given(input.received) + [TaskCall(input.taskAfter)]
    + Calls(input.usbAfter)
  }

  function TaskCall(t: TaskInput): BridgeModel.Op {
    BridgeModel.RunTask(t.ready, t.now, t.sends, t.usbAccepts, t.later)
  }

  lemma HostWork(w: World, input: PassInput)
    requires Ready(w) && On(w, true) && w.power.s.state == HostOnUsbHci
    ensures var w' := RunHostMode(w, input);
            && Did(w, w', Deeds(input.received, HostCalls(input), [], []))
            && w'.wake == Observes(w.wake, input.received) && Untouched(w.(wake := w'.wake), w')
  {
    hide Did;
    hide On;
    hide Bridging;
    hide UsbCallbacks;
    hide Transport;
    hide Observes;
    hide Calls;
    hide Given;
    var before, t, u := Deeds([], Calls(input.usbBefore), [], []), TaskOp(input.taskBefore), TaskOp(input.taskAfter);
    var w1 := UsbCallbacks(w, input.usbBefore);
    CallbacksDo(w, input.usbBefore, true);
    EnabledIs(w1, true);
    var w2 := Bridging(w1, t);
    BridgingDoes(w1, t);
    DidThen(w, w1, w2, before, Deeds([], [t], [], []));
    StateOfDid(w, w2, Plus(before, Deeds([], [t], [], [])));
    var w3 := Transport(w2, input.received);
    HostHears(w2, input.received);
    DidThen(w, w2, w3, Plus(before, Deeds([], [t], [], [])), Deeds(input.received, Given(input.received), [], []));
    var w4 := Bridging(w3, u);
    EnabledIs(w3, true);
    BridgingDoes(w3, u);
    var so := Plus(Plus(before, Deeds([], [t], [], [])), Deeds(input.received, Given(input.received), [], []));
    DidThen(w, w3, w4, so, Deeds([], [u], [], []));
    CallbacksDo(w4, input.usbAfter, true);
    DidThen(w, w4, UsbCallbacks(w4, input.usbAfter), Plus(so, Deeds([], [u], [], [])),
            Deeds([], Calls(input.usbAfter), [], []));
    assert Plus(Plus(so, Deeds([], [u], [], [])), Deeds([], Calls(input.usbAfter), [], []))
        == Deeds(input.received, HostCalls(input), [], []);
  }

  ghost function StandbyHeard(w: World, input: PassInput): seq<Arrival> {
    input.received + if w.configured then [] else HeardIn(input.retry)
  }

  ghost function StandbyDeeds(w: World, input: PassInput): Deeds {
    Deeds(StandbyHeard(w, input),
          (if w.configured then [] else [BridgeModel.Enable(false)]) + Calls(input.usbAfter),
          if w.configured then [] else Commands(input.retry),
          Asked(w.wake, StandbyHeard(w, input)))
  }

  lemma StandbyWork(w: World, input: PassInput)
    requires Ready(w) && BridgeFlow.Sound(w.bridge) && w.power.s.state == StandbyHciHost
    ensures var w' := RunStandby(w, input);
            && Did(w, w', StandbyDeeds(w, input))
            && w'.wake == Learns(w.wake, StandbyHeard(w, input))
            && w'.configured == (w.configured || ConfiguredBy(input.retry))
            && w'.lastState == w.lastState && w'.count == w.count
  {
    hide Did;
    hide EnterStandby;
    hide UsbCallbacks;
    hide Transport;
    hide WakeChecks;
    hide Commands;
    hide HeardIn;
    hide HciHostMinimal.Configures;
    hide Asked;
    hide Learns;
    hide Calls;
    hide BridgeFlow.Sound;
    var w1 := Transport(w, input.received);
    var heard := Deeds(input.received, [], [], Asked(w.wake, input.received));
    StandbyHears(w, input.received);
    WakeChecksDo(w, input.received);
    StateOfDid(w, w1, heard);
    if w.configured {
      IsOn(w1);
      CallbacksDo(w1, input.usbAfter, w1.bridge.enabled);
      DidThen(w, w1, UsbCallbacks(w1, input.usbAfter), heard, Deeds([], Calls(input.usbAfter), [], []));
      assert StandbyHeard(w, input) == input.received;
      assert Plus(heard, Deeds([], Calls(input.usbAfter), [], [])) == StandbyDeeds(w, input);
    } else {
      var w2, more := EnterStandby(w1, input.retry), HeardIn(input.retry);
      var d := Deeds(more, [BridgeModel.Enable(false)], Commands(input.retry), Asked(w1.wake, more));
      EnterStandbyDoes(w1, input.retry);
      DidThen(w, w1, w2, heard, d);
      CallbacksDo(w2, input.usbAfter, false);
      DidThen(w, w2, UsbCallbacks(w2, input.usbAfter), Plus(heard, d), Deeds([], Calls(input.usbAfter), [], []));
      AskedConcat(w.wake, input.received, more);
      assert Plus(Plus(heard, d), Deeds([], Calls(input.usbAfter), [], [])) == StandbyDeeds(w, input);
    }
  }

  lemma IsOn(w: World)
    requires BridgeFlow.Sound(w.bridge)
    ensures On(w, w.bridge.enabled)
  {
  }

  lemma IdleWork(w: World, input: PassInput)
    requires Ready(w) && BridgeFlow.Sound(w.bridge)
    requires w.power.s.state != StandbyHciHost && w.power.s.state != HostOnUsbHci
    ensures var w' := RunIdle(w, input);
            Did(w, w', Deeds(input.received, Calls(input.usbAfter), [], [])) && Untouched(w, w')
  {
    hide Did;
    hide UsbCallbacks;
    hide Transport;
    hide Calls;
    hide BridgeFlow.Sound;
    var w1 := Transport(w, input.received);
    NobodyHears(w, input.received);
    IsOn(w1);
    CallbacksDo(w1, input.usbAfter, w1.bridge.enabled);
    DidThen(w, w1, UsbCallbacks(w1, input.usbAfter), Deeds(input.received, [], [], []),
            Deeds([], Calls(input.usbAfter), [], []));
    assert Plus(Deeds(input.received, [], [], []), Deeds([], Calls(input.usbAfter), [], []))
        == Deeds(input.received, Calls(input.usbAfter), [], []);
  }

  lemma SettleWork(w: World, input: PassInput)
    requires Ready(w) && BridgeFlow.Sound(w.bridge)
    ensures var w' := UsbCallbacks(w, input.usbAfter);
            Did(w, w', Deeds([], Calls(input.usbAfter), [], [])) && Untouched(w, w')
  {
    hide Did;
    hide BridgeFlow.Sound;
    IsOn(w);
    CallbacksDo(w, input.usbAfter, w.bridge.enabled);
  }

  // ---------------------------------------------------------------------- one pass

  /** Standby is still not configured when its work begins, `state` being the one of the pass. */
  predicate TriesAgain(w: World, input: PassInput, state: PowerState) {
    state == StandbyHciHost && !ConfiguredThen(w, state, input.first)
  }

  /** What a pass hears: what its transport call receives, except in the wait after a pulse, and what
      arrives while the commands of an attempt wait. */
  function PassHears(w: World, input: PassInput, state: PowerState): seq<Arrival> {
    if state == WaitWakeSenseSettle then []
    else
      (if TriesFirst(w, state) then HeardDuring(input.first) else []) + input.received
      + if TriesAgain(w, input, state) then HeardDuring(input.retry) else []
  }

  function PassCalls(w: World, input: PassInput, state: PowerState): seq<BridgeModel.Op> {
    EntryCalls(state != w.lastState, state)
    + if state == HostOnUsbHci then HostCalls(input)
      else (if TriesAgain(w, input, state) then [BridgeModel.Enable(false)] else []) + Calls(input.usbAfter)
  }

  function PassSends(w: World, input: PassInput, state: PowerState): seq<Packet> {
    (if TriesFirst(w, state) then SentIn(input.first) else [])
    + if TriesAgain(w, input, state) then SentIn(input.retry) else []
  }

  ghost function PassAsks(w: World, input: PassInput, state: PowerState): seq<PowerRuns.Op> {
    if state == StandbyHciHost then Asked(w.wake, PassHears(w, input, state)) else []
  }

  ghost function PassWake(w: World, input: PassInput, state: PowerState): WakeModel.Wake {
    if state == StandbyHciHost then Learns(w.wake, PassHears(w, input, state))
    else if state == HostOnUsbHci then Observes(w.wake, PassHears(w, input, state))
    else w.wake
  }

  ghost function WorkDeeds(w: World, input: PassInput): Deeds {
    match w.power.s.state
    case HostOnUsbHci => Deeds(input.received, HostCalls(input), [], [])
    case StandbyHciHost => StandbyDeeds(w, input)
    case WaitWakeSenseSettle => Deeds([], Calls(input.usbAfter), [], [])
    case _ => Deeds(input.received, Calls(input.usbAfter), [], [])
  }

  ghost function WorkWake(w: World, input: PassInput): WakeModel.Wake {
    match w.power.s.state
    case HostOnUsbHci => Observes(w.wake, input.received)
    case StandbyHciHost => Learns(w.wake, StandbyHeard(w, input))
    case _ => w.wake
  }

  lemma RunStateDoes(w: World, input: PassInput)
    requires Ready(w) && BridgeFlow.Sound(w.bridge) && (w.power.s.state == HostOnUsbHci ==> w.bridge.enabled)
    ensures var w' := RunState(w, input);
            && Did(w, w', WorkDeeds(w, input)) && w'.wake == WorkWake(w, input)
            && w'.configured == (w.configured || (w.power.s.state == StandbyHciHost && ConfiguredBy(input.retry)))
            && w'.lastState == w.lastState && w'.count == w.count
  {
    hide Did;
    hide RunHostMode;
    hide RunStandby;
    hide RunIdle;
    hide UsbCallbacks;
    hide StandbyDeeds;
    hide HostCalls;
    hide ConfiguredBy;
    hide BridgeFlow.Sound;
    match w.power.s.state
    case HostOnUsbHci => IsOn(w); HostWork(w, input);
    case StandbyHciHost => StandbyWork(w, input);
    case WaitWakeSenseSettle => SettleWork(w, input);
    case _ => IdleWork(w, input);
  }

  /** Entering a mode and its work are the pass. */
  ghost predicate MakePass(w: World, w1: World, input: PassInput, s: PowerState) {
    && Plus(EntryDeeds(w, s, input.first), WorkDeeds(w1, input))
       == Deeds(PassHears(w, input, s), PassCalls(w, input, s), PassSends(w, input, s), PassAsks(w, input, s))
    && WorkWake(w1, input) == PassWake(w, input, s)
  }

  lemma EntryAndHost(w: World, w1: World, input: PassInput)
    requires w1.power.s.state == HostOnUsbHci && w1.wake == EntryWake(w, HostOnUsbHci, input.first)
    ensures MakePass(w, w1, input, HostOnUsbHci)
  {
    hide HostCalls;
    hide Asked;
    hide Learns;
    hide Observes;
    assert PassHears(w, input, HostOnUsbHci) == input.received;
  }

  lemma EntryAndOther(w: World, w1: World, input: PassInput)
    requires var s := w1.power.s.state;
             && s != HostOnUsbHci && s != StandbyHciHost && s != Unknown && s != Fault
             && w1.wake == EntryWake(w, s, input.first)
    ensures MakePass(w, w1, input, w1.power.s.state)
  {
    hide Calls;
    hide Asked;
    hide Learns;
    hide Observes;
    var s := w1.power.s.state;
    assert s != WaitWakeSenseSettle ==> PassHears(w, input, s) == input.received;
    assert PassCalls(w, input, s) == EntryCalls(s != w.lastState, s) + Calls(input.usbAfter);
  }

  lemma EntryAndWork(w: World, w1: World, input: PassInput)
    requires w1.power.s.state != Unknown && w1.power.s.state != Fault
    requires w1.wake == EntryWake(w, w1.power.s.state, input.first)
    requires w1.configured == ConfiguredThen(w, w1.power.s.state, input.first)
    ensures MakePass(w, w1, input, w1.power.s.state)
  {
    hide MakePass;
    hide EntryWake;
    hide ConfiguredThen;
    if w1.power.s.state == StandbyHciHost {
      EntryAndStandby(w, w1, input);
    } else if w1.power.s.state == HostOnUsbHci {
      EntryAndHost(w, w1, input);
    } else {
      EntryAndOther(w, w1, input);
    }
  }

  lemma EntryAndStandby(w: World, w1: World, input: PassInput)
    requires w1.power.s.state == StandbyHciHost
    requires w1.wake == EntryWake(w, StandbyHciHost, input.first)
    requires w1.configured == ConfiguredThen(w, StandbyHciHost, input.first)
    ensures MakePass(w, w1, input, StandbyHciHost)
  {
    hide HostCalls;
    hide Calls;
    hide Commands;
    hide HeardIn;
    hide SentIn;
    hide HeardDuring;
    AttemptIs(input.first);
    AttemptIs(input.retry);
    hide ConfiguredBy;
    hide Asked;
    hide Learns;
    var first := if TriesFirst(w, StandbyHciHost) then HeardIn(input.first) else [];
    var work := StandbyHeard(w1, input);
    assert PassHears(w, input, StandbyHciHost) == first + work;
    AskedNone(w.wake);
    AskedConcat(w.wake, first, work);
    var calls := if w1.configured then [] else [BridgeModel.Enable(false)];
    assert PassCalls(w, input, StandbyHciHost)
        == EntryCalls(StandbyHciHost != w.lastState, StandbyHciHost) + (calls + Calls(input.usbAfter));
  }

  /** What happened in a pass, in the state that the supervisor's look led to. */
  ghost predicate PassLaw(w: World, w': World, input: PassInput) {
    var s, before := w'.power.s.state, w.ops + [PowerRuns.DoTick(input.pwrOk, input.usbVbus, input.now, input.later)];
    && HeardOf(w'.events) == HeardOf(w.events) + PassHears(w, input, s)
    && w'.bridgeOps == w.bridgeOps + PassCalls(w, input, s)
    && w'.hostSent == w.hostSent + PassSends(w, input, s)
    && w'.ops == before + PassAsks(w, input, s)
    && w'.wake == WakeModel.SaveIfDue(PassWake(w, input, s), input.saveAt, input.write)
    && w'.configured == (ConfiguredThen(w, s, input.first) || (s == StandbyHciHost && ConfiguredBy(input.retry)))
    && w'.lastState == s
  }

  lemma TickDoes(w: World, input: PassInput)
    requires w.power.s.state != Unknown && w.power.s.state != Fault
    ensures var w', tick := Supervise(w, input), PowerRuns.DoTick(input.pwrOk, input.usbVbus, input.now, input.later);
            && w'.events == w.events && w'.bridgeOps == w.bridgeOps && w'.hostSent == w.hostSent
            && w'.ops == w.ops + [tick] && Untouched(w, w') && w'.bridge == w.bridge
            && w'.power.s.state != Unknown && w'.power.s.state != Fault
  {
    StepEdges(w.power.s, PowerRuns.DoTick(input.pwrOk, input.usbVbus, input.now, input.later));
    hide PowerRuns.Apply;
  }

  lemma SaveDoes(w: World, now: nat, write: WakeStore.FlashWrite)
    ensures var w' := SavePass(w, now, write);
            && Did(w, w', NOTHING) && w'.wake == WakeModel.SaveIfDue(w.wake, now, write)
            && w'.configured == w.configured && w'.lastState == w.lastState
  {
    HeardSnoc(w.events, SaveCall(now, write));
    hide HeardOf;
    hide WakeModel.SaveIfDue;
  }

  lemma PassGoes(w: World, input: PassInput)
    requires Ready(w) && BridgeFlow.Sound(w.bridge) && w.power.s.state != Unknown && w.power.s.state != Fault
    requires w.lastState == HostOnUsbHci ==> w.bridge.enabled
    ensures PassLaw(w, OnePass(w, input), input)
  {
    hide Did;
    hide Dispatch;
    hide RunState;
    hide SavePass;
    hide Supervise;
    hide EntryDeeds;
    hide EntryWake;
    hide WorkDeeds;
    hide WorkWake;
    hide PassHears;
    hide PassCalls;
    hide PassSends;
    hide PassAsks;
    hide PassWake;
    hide ConfiguredThen;
    hide WakeModel.SaveIfDue;
    hide BridgeFlow.Sound;
    var w0 := Supervise(w, input);
    TickDoes(w, input);
    var s := w0.power.s.state;
    SameEntry(w, w0, s, input);
    var w1, d1 := Follow(w, input), EntryDeeds(w, s, input.first);
    DispatchDoes(w0, input.first);
    StateOfDid(w0, w1, d1);
    var w2, d2 := RunState(w1, input), WorkDeeds(w1, input);
    RunStateDoes(w1, input);
    DidThen(w0, w1, w2, d1, d2);
    EntryAndWork(w, w1, input);
    var w3 := SavePass(w2, input.saveAt, input.write);
    SaveDoes(w2, input.saveAt, input.write);
    DidThen(w0, w2, w3, Plus(d1, d2), NOTHING);
    PlusNothing(Plus(d1, d2));
    StateOfDid(w0, w3, Plus(d1, d2));
    DidMeans(w0, w3, Plus(d1, d2));
  }

  lemma SameEntry(w: World, w0: World, s: PowerState, input: PassInput)
    requires Untouched(w, w0)
    ensures EntryDeeds(w0, s, input.first) == EntryDeeds(w, s, input.first)
    ensures EntryWake(w0, s, input.first) == EntryWake(w, s, input.first)
    ensures ConfiguredThen(w0, s, input.first) == ConfiguredThen(w, s, input.first)
  {
  }

  lemma DidMeans(w: World, w': World, d: Deeds)
    requires Did(w, w', d)
    ensures HeardOf(w'.events) == HeardOf(w.events) + d.heard && w'.bridgeOps == w.bridgeOps + d.calls
    ensures w'.hostSent == w.hostSent + d.sent && w'.ops == w.ops + d.ops
  {
  }

  // ----------------------------------------------------------------- main results

  /** What a command of the console or the button does, and nothing else. */
  ghost predicate CommandLaw(w: World, w': World, h: Happening) {
    match h
    case Pass(_) => true
    case Force(force, p, v, at) => w' == w.(power := w'.power, whys := w'.whys, count := w.count + 1,
                                            ops := w.ops + [PowerRuns.DoForce(force, p, v, at)])
    case AskWake(at) => w' == w.(power := w'.power, whys := w'.whys, count := w.count + 1,
                                 ops := w.ops + [PowerRuns.DoRequest(at)])
    case Clear(write) =>
      && w' == w.(wake := w'.wake, events := w.events + [Cleared(write)], count := w.count + 1)
      && w'.wake.list == [] && !w'.wake.dirty
      && (write.Refused? ==> w'.wake.stored == w.wake.stored)
      && (WakeStore.Faithful(write, []) ==> w'.wake.stored == [])
  }

  /** MAIN: in every run, each pass hears, gives to the bridge, sends and asks exactly what the law says
      of its inputs, in the state that its look at the power inputs led to. */
  lemma EveryPassLawful(c: Setting, n: nat)
    requires n < |c.hs| && c.hs[n].Pass?
    ensures PassLaw(RunOf(c, n), RunOf(c, n + 1), c.hs[n].input)
  {
    hide PassLaw;
    hide OnePass;
    hide BridgeFlow.Sound;
    var w := RunOf(c, n);
    Between(c, n);
    PassGoes(w, c.hs[n].input);
    CountLaw(w, OnePass(w, c.hs[n].input), c.hs[n].input);
  }

  lemma Between(c: Setting, n: nat)
    requires n <= |c.hs|
    ensures var w := RunOf(c, n);
            && BridgeFlow.Sound(w.bridge) && w.power.s.state != Unknown && w.power.s.state != Fault
            && (w.lastState == HostOnUsbHci ==> w.bridge.enabled)
  {
    hide RunOf;
    hide Logged;
    hide Justified;
    hide LoopLedger.Answered;
    hide AllDelivered;
    RunSteady(c, n);
    BridgeFlow.RunSound(RunOf(c, n).bridgeOps);
  }

  lemma CountLaw(w: World, w': World, input: PassInput)
    requires PassLaw(w, w', input)
    ensures PassLaw(w, CountOn(w'), input)
  {
    hide HeardOf;
  }

  lemma ClearGoes(k: WakeModel.Wake, write: WakeStore.FlashWrite)
    ensures var k' := WakeModel.Clear(k, write);
            && k'.list == [] && !k'.dirty
            && (write.Refused? ==> k'.stored == k.stored)
            && (WakeStore.Faithful(write, []) ==> k'.stored == [])
  {
    hide WakeStore.Load;
    WakeStore.FaithfulWrite([]);
  }

  lemma CommandGoes(w: World, h: Happening)
    requires Ready(w) && !h.Pass?
    ensures CommandLaw(w, Happen(w, h), h)
  {
    hide PowerRuns.Watch;
    hide WakeModel.Clear;
    hide WakeStore.Faithful;
    if h.Clear? { ClearGoes(w.wake, h.write); }
  }

  /** MAIN: at power-up nothing has been dispatched, configured, heard, sent or asked, and the bridge is
      disabled with nothing owed. */
  lemma StartsFresh(c: Setting)
    ensures var w := RunOf(c, 0);
            && w.lastState == Unknown && !w.configured && w.count == 0
            && w.events == [] && w.hostSent == [] && w.ops == [] && w.bridgeOps == []
            && !w.bridge.enabled && w.bridge.suppress == BridgeModel.Counters(0, 0, 0, 0)
            && w.wake.list == w.wake.stored == c.stored && !w.wake.dirty && !w.wake.saveFailed
            && w.power.s.state == if c.up.pwrOk && c.up.usbVbus then HostOnUsbHci else HostOff
  {
  }

  /** MAIN: every other happening touches only the part it is for. */
  lemma EveryCommandLawful(c: Setting, n: nat)
    requires n < |c.hs| && !c.hs[n].Pass?
    ensures CommandLaw(RunOf(c, n), RunOf(c, n + 1), c.hs[n])
  {
    hide CommandLaw;
    hide Happen;
    CommandGoes(RunOf(c, n), c.hs[n]);
  }
}
