/** The main loop over the models of its parts: what one pass does, and the world after any run of
    passes, debug commands and wake-list clears. */
module LoopModel {
  import opened Hci
  import opened PowerModel
  import opened LoopLog
  import PowerRuns
  import BridgeModel
  import BridgeFlow
  import AclReassembly
  import Advertising
  import HciHostMinimal
  import WakeModel
  import WakeStore

  // ------------------------------------------------------------- what a pass meets

  /** What the USB stack may call back with. */
  datatype UsbEvent = CommandTransfer(bytes: seq<Byte>) | AclTransfer(bytes: seq<Byte>) | PacketSent

  function AsOp(e: UsbEvent): BridgeModel.Op {
    match e
    case CommandTransfer(bytes) => BridgeModel.CommandTransfer(bytes)
    case AclTransfer(bytes) => BridgeModel.AclTransfer(bytes)
    case PacketSent => BridgeModel.SentEvent
  }

  /** What one bridge task call meets. */
  datatype TaskInput = TaskInput(ready: bool, now: Word32, sends: seq<bool>, usbAccepts: bool, later: Word32)

  function TaskOp(t: TaskInput): BridgeModel.Op {
    BridgeModel.RunTask(t.ready, t.now, t.sends, t.usbAccepts, t.later)
  }

  /** What one attempt to configure the controller for standby meets: whether its reset worked,
      and what the transport delivered while each of the seven commands waited. */
  datatype Meeting = Meeting(resetOk: bool, replies: seq<seq<seq<Arrival>>>)

  type Attempt = m: Meeting | |m.replies| == 7 witness Meeting(false, [[], [], [], [], [], [], []])

  /** What one pass of the loop meets, in order.  A pass may try to configure the controller
      twice: when it enters standby, and again after its transport call. */
  datatype PassInput = PassInput(
    pwrOk: bool, usbVbus: bool, now: nat, later: nat, first: Attempt,
    usbBefore: seq<UsbEvent>, taskBefore: TaskInput, received: seq<Arrival>, taskAfter: TaskInput,
    retry: Attempt, usbAfter: seq<UsbEvent>, saveAt: nat, write: WakeStore.FlashWrite)

  /** A pass, or one of the commands that its last calls, the debug console and the BOOTSEL
      button, may run. */
  datatype Happening =
    | Pass(input: PassInput)
    | Force(force: bool, pwrOk: bool, usbVbus: bool, at: nat)
    | AskWake(at: nat)
    | Clear(write: WakeStore.FlashWrite)

  // --------------------------------------------------------------------- the world

  /** Why a step of the supervisor was taken: a wake request comes from a packet heard, the given
      event of the log, or from the console. */
  datatype Why = Unasked | ByPacket(event: nat) | ByConsole

  /** The four parts, the loop's own two variables, how many passes and commands there were, and
      logs: the steps of the supervisor with their reasons, those of the bridge, and all
      events. */
  datatype World = World(
    power: PowerRuns.Watched, bridge: BridgeModel.Bridge, wake: WakeModel.Wake, hostSent: seq<Packet>,
    lastState: PowerState, configured: bool, count: nat,
    ops: seq<PowerRuns.Op>, whys: seq<Why>, bridgeOps: seq<BridgeModel.Op>, events: seq<Event>)

  /** The world is made of these parts. */
  predicate Shows(w: World, s: Supervisor, b: BridgeModel.Bridge, wake: WakeModel.Wake, hostSent: seq<Packet>,
                  lastState: PowerState, configured: bool)
  {
    && w.power.s == s && w.bridge == b && w.wake == wake && w.hostSent == hostSent
    && w.lastState == lastState && w.configured == configured
  }

  ghost predicate Ready(w: World) {
    AclReassembly.Sound(w.bridge.up.partial)
  }

  function Tagged(w: World, byBridge: bool, packets: seq<Packet>): seq<Event> {
    seq(|packets|, i requires 0 <= i < |packets| => Sent(byBridge, packets[i], w.power.s.state, w.bridge.enabled))
  }

  function Note(w: World, e: Event): World {
    w.(events := w.events + [e])
  }

  function Record(w: World, op: PowerRuns.Op, why: Why): World {
    w.(power := PowerRuns.Watch(w.power, op), ops := w.ops + [op], whys := w.whys + [why])
  }

  /** What a bridge step newly sent. */
  function NewlySent(b: BridgeModel.Bridge, b': BridgeModel.Bridge): seq<Packet> {
    if |b.life.sent| <= |b'.life.sent| then b'.life.sent[|b.life.sent|..] else []
  }

  /** One step of the bridge. */
  ghost function Bridging(w: World, op: BridgeModel.Op): (w': World)
    requires Ready(w)
    ensures Ready(w')
  {
    BridgeFlow.StepPartial(w.bridge, op);
    var b' := BridgeModel.Step(w.bridge, op);
    w.(bridge := b', bridgeOps := w.bridgeOps + [op], events := w.events + Tagged(w, true, NewlySent(w.bridge, b')))
  }

  ghost function UsbCallbacks(w: World, es: seq<UsbEvent>): (w': World)
    requires Ready(w)
    ensures Ready(w')
    decreases |es|
  {
    if es == [] then w else UsbCallbacks(Bridging(w, AsOp(es[0])), es[1..])
  }

  /** A packet arrives from the controller. */
  function Arrive(w: World, a: Arrival): (w': World)
    ensures w'.bridge == w.bridge
  {
    Note(w, Heard(w.count, a, w.power.s.state, w.bridge.enabled))
  }

  /** A standby packet that should wake the PC asks the supervisor to; a peer may be learned. */
  ghost function WakeCheck(w: World, a: Arrival): (w': World)
    ensures w'.bridge == w.bridge
  {
    var w1 := Arrive(w, a).(wake := WakeModel.Hear(w.wake, a.packet, a.at));
    if Advertising.PacketVerdict(w.wake.list, a.packet) == Advertising.NoMatch then w1
    else Record(w1, PowerRuns.DoRequest(a.at), ByPacket(|w.events|))
  }

  ghost function WakeChecks(w: World, arrivals: seq<Arrival>): (w': World)
    ensures w'.bridge == w.bridge
    decreases |arrivals|
  {
    if arrivals == [] then w else WakeChecks(WakeCheck(w, arrivals[0]), arrivals[1..])
  }

  /** A packet for the host: a sighting for the wake list, then the bridge's. */
  ghost function ToBridge(w: World, a: Arrival): (w': World)
    requires Ready(w)
    ensures Ready(w')
  {
    Bridging(Arrive(w, a).(wake := WakeModel.Observe(w.wake, a.packet, a.at)), BridgeModel.Receive(a.packet))
  }

  /** A packet from the controller goes to whoever owns it, and to nobody in between. */
  ghost function Receive(w: World, a: Arrival): (w': World)
    requires Ready(w)
    ensures Ready(w')
  {
    if w.power.s.state == HostOnUsbHci && w.bridge.enabled then ToBridge(w, a)
    else if w.power.s.state == StandbyHciHost then WakeCheck(w, a)
    else Arrive(w, a)
  }

  ghost function Transport(w: World, arrivals: seq<Arrival>): (w': World)
    requires Ready(w)
    ensures Ready(w')
    decreases |arrivals|
  {
    if arrivals == [] then w else Transport(Receive(w, arrivals[0]), arrivals[1..])
  }

  /** The commands an attempt sends, and what the transport delivers while they wait. */
  function Commands(attempt: Attempt): seq<Packet> {
    HciHostMinimal.StandbyCommands(HciHostMinimal.CommandsSent(attempt.resetOk, attempt.replies))
  }

  function HeardIn(attempt: Attempt): seq<Arrival> {
    HciHostMinimal.HeardBy(attempt.replies, HciHostMinimal.CommandsSent(attempt.resetOk, attempt.replies))
  }

  /** The controller is reset and, if that works, the standby host has sent its commands. */
  function CommandsGone(w: World, attempt: Attempt): (w': World)
    ensures w'.bridge == w.bridge
  {
    w.(configured := HciHostMinimal.Configures(attempt.resetOk, attempt.replies),
       hostSent := w.hostSent + Commands(attempt),
       events := w.events + [ControllerReset(w.power.s.state, w.bridge.enabled)]
                 + Tagged(w, false, Commands(attempt)))
  }

  /** The standby host's commands, then the wake checks of what was delivered meanwhile. */
  ghost function Configure(w: World, attempt: Attempt): (w': World)
    ensures w'.bridge == w.bridge
  {
    WakeChecks(CommandsGone(w, attempt), HeardIn(attempt))
  }

  ghost function EnterHostUsb(w: World): (w': World)
    requires Ready(w)
    ensures Ready(w')
  {
    Bridging(w.(configured := false), BridgeModel.Enable(true))
  }

  /** The bridge is disabled before the standby host sends, and it sends only if it has to. */
  ghost function EnterStandby(w: World, attempt: Attempt): (w': World)
    requires Ready(w)
    ensures Ready(w')
  {
    var w1 := Bridging(w, BridgeModel.Enable(false));
    if w1.configured then w1 else Configure(w1, attempt)
  }

  ghost function LeaveBoth(w: World): (w': World)
    requires Ready(w)
    ensures Ready(w')
  {
    Bridging(w.(configured := false), BridgeModel.Enable(false))
  }

  ghost function EnterMode(w: World, attempt: Attempt): (w': World)
    requires Ready(w)
    ensures Ready(w')
  {
    match w.power.s.state
    case HostOnUsbHci => EnterHostUsb(w)
    case StandbyHciHost => EnterStandby(w, attempt)
    case HostShuttingDown => LeaveBoth(w)
    case HostOff => LeaveBoth(w)
    case WaitWakeSenseSettle => LeaveBoth(w)
    case WakePulse => w.(configured := false)
    case _ => w
  }

  /** The dispatch on a change of power state. */
  ghost function Dispatch(w: World, attempt: Attempt): (w': World)
    requires Ready(w)
    ensures Ready(w')
  {
    if w.power.s.state == w.lastState then w
    else EnterMode(Note(w, Entered(w.power.s.state)), attempt).(lastState := w.power.s.state)
  }

  ghost function RunHostMode(w: World, input: PassInput): (w': World)
    requires Ready(w)
    ensures Ready(w')
  {
    var w1 := Bridging(UsbCallbacks(w, input.usbBefore), TaskOp(input.taskBefore));
    var w2 := Bridging(Transport(w1, input.received), TaskOp(input.taskAfter));
    UsbCallbacks(w2, input.usbAfter)
  }

  /** A failed configuration is tried again on every pass in standby. */
  ghost function Retry(w: World, attempt: Attempt): (w': World)
    requires Ready(w)
    ensures Ready(w')
  {
    if w.configured then w else EnterStandby(w, attempt)
  }

  ghost function RunStandby(w: World, input: PassInput): (w': World)
    requires Ready(w)
    ensures Ready(w')
  {
    UsbCallbacks(Retry(Transport(w, input.received), input.retry), input.usbAfter)
  }

  ghost function RunIdle(w: World, input: PassInput): (w': World)
    requires Ready(w)
    ensures Ready(w')
  {
    UsbCallbacks(Transport(w, input.received), input.usbAfter)
  }

  /** The work of the state the loop is in. */
  ghost function RunState(w: World, input: PassInput): (w': World)
    requires Ready(w)
    ensures Ready(w')
  {
    match w.power.s.state
    case HostOnUsbHci => RunHostMode(w, input)
    case StandbyHciHost => RunStandby(w, input)
    case WaitWakeSenseSettle => UsbCallbacks(w, input.usbAfter)
    case _ => RunIdle(w, input)
  }

  /** One supervisor call. */
  function Supervise(w: World, input: PassInput): World {
    Record(w, PowerRuns.DoTick(input.pwrOk, input.usbVbus, input.now, input.later), Unasked)
  }

  /** One supervisor call, and the dispatch if the state changed. */
  ghost function Follow(w: World, input: PassInput): (w': World)
    requires Ready(w)
    ensures Ready(w')
  {
    Dispatch(Supervise(w, input), input.first)
  }

  /** The call at the end of a pass that saves the wake list when that is due. */
  function SavePass(w: World, now: nat, write: WakeStore.FlashWrite): World {
    Note(w.(wake := WakeModel.SaveIfDue(w.wake, now, write)), SaveCall(now, write))
  }

  /** One pass of the loop. */
  ghost function OnePass(w: World, input: PassInput): (w': World)
    requires Ready(w)
    ensures Ready(w')
  {
    SavePass(RunState(Follow(w, input), input), input.saveAt, input.write)
  }

  function ClearPeers(w: World, write: WakeStore.FlashWrite): World {
    Note(w.(wake := WakeModel.Clear(w.wake, write)), Cleared(write))
  }

  ghost function Act(w: World, h: Happening): (w': World)
    requires Ready(w)
    ensures Ready(w')
  {
    match h
    case Pass(input) => OnePass(w, input)
    case Force(force, p, v, at) => Record(w, PowerRuns.DoForce(force, p, v, at), Unasked)
    case AskWake(at) => Record(w, PowerRuns.DoRequest(at), ByConsole)
    case Clear(write) => ClearPeers(w, write)
  }

  function CountOn(w: World): World {
    w.(count := w.count + 1)
  }

  ghost function Happen(w: World, h: Happening): (w': World)
    requires Ready(w)
    ensures Ready(w')
  {
    CountOn(Act(w, h))
  }

  function Start(up: PowerRuns.PowerUp, stored: WakeModel.PeerList): World {
    World(PowerRuns.Start(up), BridgeModel.START, WakeModel.Booted(stored), [], Unknown, false, 0, [], [], [], [])
  }

  /** The world after the first `n` things that happen from power-up on, over a flash that holds
      `stored`. */
  ghost function Run(up: PowerRuns.PowerUp, stored: WakeModel.PeerList, hs: seq<Happening>, n: nat): (w: World)
    requires n <= |hs|
    ensures Ready(w)
    decreases n
  {
    if n == 0 then Start(up, stored) else Happen(Run(up, stored, hs, n - 1), hs[n - 1])
  }
}
