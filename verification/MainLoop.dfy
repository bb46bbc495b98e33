/** The main loop as the firmware runs it: it follows the power supervisor and gives the Bluetooth
    controller to one client at a time, the USB bridge while the PC is on and the standby
    host while it waits to wake it.  Every method is proved to be the step of LoopModel. */
module MainLoop {
  import opened Hci
  import opened LoopLog
  import opened LoopModel
  import LoopRuns
  import BridgeModel
  import UsbBthBridge
  import PowerModel
  import PowerRuns
  import PowerSupervisor
  import WakeModel
  import WakePolicy
  import WakeStore
  import Advertising
  import HciHostMinimal

  class Loop {
    const supervisor: PowerSupervisor.Supervisor
    const bridge: UsbBthBridge.UsbBridge
    const policy: WakePolicy.Policy
    const host: HciHostMinimal.Host
    var lastState: PowerModel.PowerState
    var standbyConfigured: bool

    // The loop and its parts as LoopModel sees them, with its logs.
    ghost var world: World

    ghost function Footprint(): set<object> {
      {this, host} + supervisor.Footprint() + bridge.Footprint() + policy.Footprint()
    }

    /** The world is the parts, and the standby host is not in the middle of a command.  The only
        objects of one type that two parts hold are kept apart. */
    ghost predicate Valid()
      reads Footprint()
    {
      && policy.flash != bridge.usbAclBuf
      && supervisor.Valid() && bridge.Valid() && policy.Valid() && !host.waiting
      && Ready(world)
      && Shows(world, supervisor.State(), bridge.State(), policy.State(), host.sent, lastState, standbyConfigured)
    }

    /** The loop over its four parts, freshly initialised. */
    constructor (policy: WakePolicy.Policy, supervisor: PowerSupervisor.Supervisor,
                 bridge: UsbBthBridge.UsbBridge, host: HciHostMinimal.Host, ghost up: PowerRuns.PowerUp)
      requires policy.Valid() && supervisor.Valid() && bridge.Valid()
      requires supervisor.State() == PowerRuns.Start(up).s
      requires bridge.State() == BridgeModel.START && !host.waiting && host.sent == []
      requires policy.flash != bridge.usbAclBuf && policy.State() == WakeModel.Booted(policy.stored)
      ensures Valid() && world == Start(up, policy.stored)
      ensures this.policy == policy && this.supervisor == supervisor
      ensures this.bridge == bridge && this.host == host
    {
      this.policy, this.supervisor, this.bridge, this.host := policy, supervisor, bridge, host;
      lastState, standbyConfigured := PowerModel.Unknown, false;
      world := Start(up, policy.stored);
    }

    /** Power-up, over whatever the flash holds. */
    static method Boot(flash: array<Byte>, pwrOk: bool, usbVbus: bool, now: nat) returns (loop: Loop)
      requires flash.Length == WakeStore.FLASH_PAGE_SIZE
      ensures loop.Valid()
      ensures loop.world == Start(PowerRuns.PowerUp(pwrOk, usbVbus, now),
                                  WakeStore.Load(flash[..WakeStore.STORE_SIZE]))
    {
      var bridge := new UsbBthBridge.UsbBridge();
      var host := new HciHostMinimal.Host();
      var supervisor := new PowerSupervisor.Supervisor(pwrOk, usbVbus, now);
      var policy := new WakePolicy.Policy(flash);
      loop := new Loop(policy, supervisor, bridge, host, PowerRuns.PowerUp(pwrOk, usbVbus, now));
    }

    // -------------------------------------------------------------------- the bridge

    method SetBridgeEnabled(on: bool)
      requires Valid()
      modifies this`world, bridge.Footprint()
      ensures Valid() && world == Bridging(old(world), BridgeModel.Enable(on))
    {
      bridge.SetEnabled(on);
      world := Bridging(world, BridgeModel.Enable(on));
    }

    method OnHciCommand(bytes: seq<Byte>)
      requires Valid()
      modifies this`world, bridge.Footprint()
      ensures Valid() && world == Bridging(old(world), BridgeModel.CommandTransfer(bytes))
    {
      bridge.HciCommandCallback(bytes);
      world := Bridging(world, BridgeModel.CommandTransfer(bytes));
    }

    method OnAclData(bytes: seq<Byte>)
      requires Valid()
      modifies this`world, bridge.Footprint()
      ensures Valid() && world == Bridging(old(world), BridgeModel.AclTransfer(bytes))
    {
      bridge.AclDataReceivedCallback(bytes);
      world := Bridging(world, BridgeModel.AclTransfer(bytes));
    }

    method OnPacketSent()
      requires Valid()
      modifies this`world, bridge.Footprint()
      ensures Valid() && world == Bridging(old(world), BridgeModel.SentEvent)
    {
      bridge.SentCallback();
      world := Bridging(world, BridgeModel.SentEvent);
    }

    /** A callback from USB. */
    method HandleUsbEvent(e: UsbEvent)
      requires Valid()
      modifies this`world, bridge.Footprint()
      ensures Valid() && world == Bridging(old(world), AsOp(e))
    {
      match e {
        case CommandTransfer(bytes) => OnHciCommand(bytes);
        case AclTransfer(bytes) => OnAclData(bytes);
        case PacketSent => OnPacketSent();
      }
    }

    method HandleUsbEvents(es: seq<UsbEvent>)
      requires Valid()
      modifies this`world, bridge.Footprint()
      ensures Valid() && world == UsbCallbacks(old(world), es)
    {
      var i := 0;
      while i < |es|
        invariant 0 <= i <= |es| && Valid()
        invariant UsbCallbacks(world, es[i..]) == UsbCallbacks(old(world), es)
      {
        HandleUsbEvent(es[i]);
        i := i + 1;
      }
    }

    method RunBridgeTask(t: TaskInput)
      requires Valid()
      modifies this`world, bridge.Footprint()
      ensures Valid() && world == Bridging(old(world), TaskOp(t))
    {
      bridge.Task(t.ready, t.now, t.sends, t.usbAccepts, t.later);
      world := Bridging(world, TaskOp(t));
    }

    // ------------------------------------------------------------ packets received

    /** A packet arrives, and the wake policy judges it; a peer may be learned. */
    method JudgePacket(a: Arrival) returns (matches: bool)
      requires Valid()
      modifies this`world, policy.Footprint()
      ensures Valid()
      ensures world == Arrive(old(world), a).(wake := WakeModel.Hear(old(world.wake), a.packet, a.at))
      ensures matches <==> Advertising.PacketVerdict(old(world.wake.list), a.packet) != Advertising.NoMatch
    {
      hide WakeModel.Hear;
      hide Advertising.PacketVerdict;
      matches := policy.PacketMatches(a.packet, a.at);
      world := Arrive(world, a).(wake := WakeModel.Hear(world.wake, a.packet, a.at));
    }

    method AskSupervisor(at: nat, ghost why: Why)
      requires Valid()
      modifies this`world, supervisor`wakeRequested
      ensures Valid() && world == Record(old(world), PowerRuns.DoRequest(at), why)
    {
      supervisor.RequestWake(at);
      world := Record(world, PowerRuns.DoRequest(at), why);
    }

    /** A standby packet that should wake the PC asks the supervisor to. */
    method CheckWake(a: Arrival)
      requires Valid()
      modifies this`world, policy.Footprint(), supervisor`wakeRequested
      ensures Valid() && world == WakeCheck(old(world), a)
    {
      hide Valid;
      hide Record;
      hide Arrive;
      hide WakeModel.Hear;
      hide Advertising.PacketVerdict;
      ghost var before := world;
      var matches := JudgePacket(a);
      if matches {
        AskSupervisor(a.at, ByPacket(|before.events|));
      }
    }

    method NoteSighting(a: Arrival)
      requires Valid()
      modifies this`world, policy.Footprint()
      ensures Valid()
      ensures world == Arrive(old(world), a).(wake := WakeModel.Observe(old(world.wake), a.packet, a.at))
    {
      hide WakeModel.Observe;
      policy.ObserveHostPacket(a.packet, a.at);
      world := Arrive(world, a).(wake := WakeModel.Observe(world.wake, a.packet, a.at));
    }

    method OnBackendPacket(p: Packet)
      requires Valid()
      modifies this`world, bridge.Footprint()
      ensures Valid() && world == Bridging(old(world), BridgeModel.Receive(p))
    {
      bridge.BackendPacket(p);
      world := Bridging(world, BridgeModel.Receive(p));
    }

    /** A packet for the host: a sighting for the wake list, then the bridge's. */
    method GiveToBridge(a: Arrival)
      requires Valid()
      modifies this`world, bridge.Footprint(), policy.Footprint()
      ensures Valid() && world == ToBridge(old(world), a)
    {
      NoteSighting(a);
      OnBackendPacket(a.packet);
    }

    /** Outside its waits the standby host ignores every packet. */
    method OfferToHost(p: Packet)
      requires Valid()
      modifies host`gotComplete, host`gotStatus
      ensures Valid() && world == old(world)
      ensures host.gotComplete == old(host.gotComplete) && host.gotStatus == old(host.gotStatus)
    {
      host.Receive(p);
    }

    /** A packet in standby: the standby host's, then a wake candidate. */
    method GiveToStandby(a: Arrival)
      requires Valid()
      modifies this`world, policy.Footprint(), supervisor`wakeRequested, host`gotComplete, host`gotStatus
      ensures Valid() && world == WakeCheck(old(world), a)
    {
      hide Valid;
      hide WakeCheck;
      OfferToHost(a.packet);
      CheckWake(a);
    }

    /** A packet from the controller goes to whoever owns it, and to nobody in between. */
    method BackendRx(a: Arrival)
      requires Valid()
      modifies this`world, bridge.Footprint(), policy.Footprint(), supervisor`wakeRequested
      modifies host`gotComplete, host`gotStatus
      ensures Valid() && world == Receive(old(world), a)
    {
      if supervisor.state == PowerModel.HostOnUsbHci && bridge.enabled {
        GiveToBridge(a);
      } else if supervisor.state == PowerModel.StandbyHciHost {
        GiveToStandby(a);
      } else {
        world := Arrive(world, a);
      }
    }

    /** One transport call: everything the controller has sent. */
    method TransportTask(arrivals: seq<Arrival>)
      requires Valid()
      modifies this`world, bridge.Footprint(), policy.Footprint(), supervisor`wakeRequested
      modifies host`gotComplete, host`gotStatus
      ensures Valid() && world == Transport(old(world), arrivals)
    {
      var i := 0;
      while i < |arrivals|
        invariant 0 <= i <= |arrivals| && Valid()
        invariant Transport(world, arrivals[i..]) == Transport(old(world), arrivals)
      {
        BackendRx(arrivals[i]);
        i := i + 1;
      }
    }

    /** The packets delivered while the standby host waited are wake candidates too. */
    method CheckWakes(arrivals: seq<Arrival>)
      requires Valid()
      modifies this`world, policy.Footprint(), supervisor`wakeRequested
      ensures Valid() && world == WakeChecks(old(world), arrivals)
    {
      var i := 0;
      while i < |arrivals|
        invariant 0 <= i <= |arrivals| && Valid()
        invariant WakeChecks(world, arrivals[i..]) == WakeChecks(old(world), arrivals)
      {
        CheckWake(arrivals[i]);
        i := i + 1;
      }
    }

    // ------------------------------------------------------------- changes of state

    method ForgetStandby()
      requires Valid()
      modifies this`world, this`standbyConfigured
      ensures Valid() && world == old(world).(configured := false)
    {
      standbyConfigured := false;
      world := world.(configured := false);
    }

    method EnterHostUsbMode()
      requires Valid()
      modifies this`world, this`standbyConfigured, bridge.Footprint()
      ensures Valid() && world == EnterHostUsb(old(world))
    {
      ForgetStandby();
      SetBridgeEnabled(true);
    }

    /** The standby host sends its commands, with the bridge disabled. */
    method ConfigureStandby(attempt: Attempt)
      requires Valid() && !bridge.enabled
      modifies this`world, this`standbyConfigured, policy.Footprint(), supervisor`wakeRequested, host
      ensures Valid() && world == Configure(old(world), attempt)
    {
      var heard := SendStandbyCommands(attempt);
      CheckWakes(heard);
    }

    method SendStandbyCommands(attempt: Attempt) returns (heard: seq<Arrival>)
      requires Valid() && !bridge.enabled
      modifies this`world, this`standbyConfigured, host
      ensures Valid() && world == CommandsGone(old(world), attempt) && heard == HeardIn(attempt)
    {
      standbyConfigured, heard := host.ConfigureStandbyWake(attempt.resetOk, attempt.replies);
      world := CommandsGone(world, attempt);
    }

    /** Take the controller for standby: the bridge is disabled first, and the standby host
        sends its commands unless it has been configured already. */
    method EnterStandbyMode(attempt: Attempt)
      requires Valid()
      modifies this`world, this`standbyConfigured, bridge.Footprint(), policy.Footprint()
      modifies supervisor`wakeRequested, host
      ensures Valid() && world == EnterStandby(old(world), attempt)
    {
      SetBridgeEnabled(false);
      if !standbyConfigured {
        ConfigureStandby(attempt);
      }
    }

    method LeaveBothModes()
      requires Valid()
      modifies this`world, this`standbyConfigured, bridge.Footprint()
      ensures Valid() && world == LeaveBoth(old(world))
    {
      ForgetStandby();
      SetBridgeEnabled(false);
    }

    /** What a change to the supervisor's new state does. */
    method EnterNewMode(attempt: Attempt)
      requires Valid()
      modifies this`world, this`standbyConfigured, bridge.Footprint(), policy.Footprint()
      modifies supervisor`wakeRequested, host
      ensures Valid() && world == EnterMode(old(world), attempt)
    {
      match supervisor.state {
        case HostOnUsbHci => EnterHostUsbMode();
        case StandbyHciHost => EnterStandbyMode(attempt);
        case HostShuttingDown | HostOff | WaitWakeSenseSettle => LeaveBothModes();
        case WakePulse => ForgetStandby();
        case _ =>
      }
    }

    ghost method NoteEntered(state: PowerModel.PowerState)
      requires Valid()
      modifies this`world
      ensures Valid() && world == Note(old(world), Entered(state))
    {
      world := Note(world, Entered(state));
    }

    /** The dispatch, if the power state has changed. */
    method FollowSupervisor(attempt: Attempt)
      requires Valid()
      modifies this, bridge.Footprint(), policy.Footprint(), supervisor`wakeRequested, host
      ensures Valid() && world == Dispatch(old(world), attempt)
    {
      var state := supervisor.state;
      if state != lastState {
        NoteEntered(state);
        EnterNewMode(attempt);
        lastState := state;
        world := world.(lastState := state);
      }
    }

    // ---------------------------------------------------------------- the work of a pass

    method RunInHost(input: PassInput)
      requires Valid()
      modifies this`world, bridge.Footprint(), policy.Footprint(), supervisor`wakeRequested
      modifies host`gotComplete, host`gotStatus
      ensures Valid() && world == RunHostMode(old(world), input)
    {
      HandleUsbEvents(input.usbBefore);
      RunBridgeTask(input.taskBefore);
      TransportTask(input.received);
      RunBridgeTask(input.taskAfter);
      HandleUsbEvents(input.usbAfter);
    }

    /** A failed configuration is tried again on every pass in standby. */
    method RetryStandby(attempt: Attempt)
      requires Valid()
      modifies this`world, this`standbyConfigured, bridge.Footprint(), policy.Footprint()
      modifies supervisor`wakeRequested, host
      ensures Valid() && world == Retry(old(world), attempt)
    {
      if !standbyConfigured {
        EnterStandbyMode(attempt);
      }
    }

    method RunInStandby(input: PassInput)
      requires Valid()
      modifies this`world, this`standbyConfigured, bridge.Footprint(), policy.Footprint()
      modifies supervisor`wakeRequested, host
      ensures Valid() && world == RunStandby(old(world), input)
    {
      TransportTask(input.received);
      RetryStandby(input.retry);
      HandleUsbEvents(input.usbAfter);
    }

    method RunInBetween(input: PassInput)
      requires Valid()
      modifies this`world, bridge.Footprint(), policy.Footprint(), supervisor`wakeRequested
      modifies host`gotComplete, host`gotStatus
      ensures Valid() && world == RunIdle(old(world), input)
    {
      TransportTask(input.received);
      HandleUsbEvents(input.usbAfter);
    }

    /** The work of the state the loop is in. */
    method RunInState(input: PassInput)
      requires Valid()
      modifies this`world, this`standbyConfigured, bridge.Footprint(), policy.Footprint()
      modifies supervisor`wakeRequested, host
      ensures Valid() && world == RunState(old(world), input)
    {
      hide RunHostMode;
      hide RunStandby;
      hide RunIdle;
      match supervisor.state {
        case HostOnUsbHci => RunInHost(input);
        case StandbyHciHost => RunInStandby(input);
        case WaitWakeSenseSettle => HandleUsbEvents(input.usbAfter);
        case _ => RunInBetween(input);
      }
    }

    method RunSupervisor(input: PassInput)
      requires Valid()
      modifies this`world, supervisor.Footprint()
      ensures Valid() && world == Supervise(old(world), input)
    {
      var _, _ := supervisor.Task(input.pwrOk, input.usbVbus, input.now, input.later);
      world := Supervise(world, input);
    }

    method RunAndFollowSupervisor(input: PassInput)
      requires Valid()
      modifies Footprint()
      ensures Valid() && world == Follow(old(world), input)
    {
      RunSupervisor(input);
      FollowSupervisor(input.first);
    }

    /** The delayed save of the wake list. */
    method SavePolicy(now: nat, write: WakeStore.FlashWrite)
      requires Valid()
      modifies this`world, policy.Footprint()
      ensures Valid() && world == SavePass(old(world), now, write)
    {
      hide WakeModel.SaveIfDue;
      policy.Task(now, write);
      world := SavePass(world, now, write);
    }

    /** One pass of the loop. */
    method Iterate(input: PassInput)
      requires Valid()
      modifies Footprint()
      ensures Valid() && world == OnePass(old(world), input)
    {
      RunAndFollowSupervisor(input);
      RunInState(input);
      SavePolicy(input.saveAt, input.write);
    }

    // -------------------------------------------- commands between two passes' work

    method ForceStandby(force: bool, pwrOk: bool, usbVbus: bool, ghost at: nat)
      requires Valid()
      modifies this`world, supervisor.Footprint()
      ensures Valid() && world == Act(old(world), Force(force, pwrOk, usbVbus, at))
    {
      hide OnePass;
      hide PowerModel.ForceStandby;
      supervisor.DebugForceStandby(force, pwrOk, usbVbus);
      world := Act(world, Force(force, pwrOk, usbVbus, at));
    }

    method DebugWake(at: nat)
      requires Valid()
      modifies this`world, supervisor`wakeRequested
      ensures Valid() && world == Act(old(world), AskWake(at))
    {
      AskSupervisor(at, ByConsole);
    }

    method ClearWakePeers(write: WakeStore.FlashWrite)
      requires Valid()
      modifies this`world, policy.Footprint()
      ensures Valid() && world == ClearPeers(old(world), write)
    {
      hide WakeModel.Clear;
      policy.ClearKnownPeers(write);
      world := ClearPeers(world, write);
    }

    method DoAct(h: Happening)
      requires Valid()
      modifies Footprint()
      ensures Valid() && world == Act(old(world), h)
    {
      match h {
        case Pass(input) => Iterate(input);
        case Force(force, pwrOk, usbVbus, at) => ForceStandby(force, pwrOk, usbVbus, at);
        case AskWake(at) => DebugWake(at);
        case Clear(write) => ClearWakePeers(write);
      }
    }

    method Step(h: Happening)
      requires Valid()
      modifies Footprint()
      ensures Valid() && world == Happen(old(world), h)
    {
      hide Act;
      DoAct(h);
      world := CountOn(world);
    }

    /** MAIN: the firmware from power-up, through any passes and commands, is the run of LoopModel,
        and the controller has one owner. */
    method RunAll(hs: seq<Happening>, ghost up: PowerRuns.PowerUp, ghost stored: WakeModel.PeerList)
      requires Valid() && world == Start(up, stored)
      modifies Footprint()
      ensures Valid() && world == Run(up, stored, hs, |hs|) && LoopRuns.OneOwner(world)
    {
      hide Happen;
      hide Valid;
      hide LoopRuns.OneOwner;
      hide Start;
      hide Ready;
      var i := 0;
      while i < |hs|
        invariant 0 <= i <= |hs| && Valid()
        invariant world == Run(up, stored, hs, i)
      {
        Step(hs[i]);
        i := i + 1;
      }
      LoopRuns.AlwaysOneOwner(LoopRuns.Setting(up, stored, hs), |hs|);
    }
  }
}
