/** The log of the main loop: every packet heard from the controller and sent to it, every change of
    mode, and what happened to the wake list, in order. */
module LoopLog {
  import opened Hci
  import opened PowerModel
  import opened WakePeers
  import WakeModel
  import WakeStore
  import Advertising
  import HciHostMinimal

  type Arrival = HciHostMinimal.Arrival

  /** `at` counts the passes and commands before; `state` and `enabled` are the supervisor's state
      and whether the bridge was enabled.  The sends of one attempt to configure standby are
      logged before the packets delivered during its waits. */
  datatype Event =
    | Heard(at: nat, arrival: Arrival, state: PowerState, enabled: bool)
    | Sent(byBridge: bool, packet: Packet, state: PowerState, enabled: bool)
    | ControllerReset(state: PowerState, enabled: bool)
    | Entered(mode: PowerState)
    | SaveCall(now: nat, write: WakeStore.FlashWrite)
    | Cleared(write: WakeStore.FlashWrite)

  // ---------------------------------------------------------------- what was sent

  /** The bridge sends in host mode while enabled; the standby host sends, and the controller is
      reset, in standby while the bridge is disabled. */
  predicate Rightly(e: Event) {
    match e
    case Sent(byBridge, _, state, enabled) =>
      if byBridge then state == HostOnUsbHci && enabled else state == StandbyHciHost && !enabled
    case ControllerReset(state, enabled) => state == StandbyHciHost && !enabled
    case _ => true
  }

  ghost predicate AllRightly(events: seq<Event>) {
    forall i :: 0 <= i < |events| ==> Rightly(events[i])
  }

  predicate IsSend(e: Event, byBridge: bool) {
    e.Sent? && e.byBridge == byBridge
  }

  /** What one of the two senders sent, in order. */
  function SentBy(events: seq<Event>, byBridge: bool): seq<Packet>
    decreases |events|
  {
    if events == [] then []
    else
      var n := |events| - 1;
      SentBy(events[..n], byBridge) + if IsSend(events[n], byBridge) then [events[n].packet] else []
  }

  lemma SentBySnoc(events: seq<Event>, e: Event, byBridge: bool)
    ensures SentBy(events + [e], byBridge)
         == SentBy(events, byBridge) + if IsSend(e, byBridge) then [e.packet] else []
  {
    assert (events + [e])[..|events|] == events;
  }

  // --------------------------------------------------------------- who had control

  /** The mode entered last. */
  function LastEntered(events: seq<Event>): PowerState
    decreases |events|
  {
    if events == [] then Unknown
    else
      var n := |events| - 1;
      if events[n].Entered? then events[n].mode else LastEntered(events[..n])
  }

  function StateOf(e: Event): Option<PowerState> {
    match e
    case Heard(_, _, state, _) => Some(state)
    case Sent(_, _, state, _) => Some(state)
    case ControllerReset(state, _) => Some(state)
    case _ => None
  }

  /** Everything was heard and sent in the mode entered last before it. */
  predicate InSession(events: seq<Event>)
    decreases |events|
  {
    events == []
    || (InSession(events[..|events| - 1])
        && (StateOf(events[|events| - 1]).Some?
            ==> StateOf(events[|events| - 1]).value == LastEntered(events[..|events| - 1])))
  }

  lemma SessionSnoc(events: seq<Event>, e: Event)
    ensures LastEntered(events + [e]) == if e.Entered? then e.mode else LastEntered(events)
    ensures InSession(events + [e])
       <==> InSession(events) && (StateOf(e).Some? ==> StateOf(e).value == LastEntered(events))
  {
    assert (events + [e])[..|events|] == events;
  }

  // --------------------------------------------------------------- the wake list

  /** What one event does to the wake policy. */
  ghost function WakeStep(k: WakeModel.Wake, e: Event): WakeModel.Wake {
    match e
    case Heard(_, a, state, enabled) =>
      if state == HostOnUsbHci && enabled then WakeModel.Observe(k, a.packet, a.at)
      else if state == StandbyHciHost then WakeModel.Hear(k, a.packet, a.at)
      else k
    case SaveCall(now, write) => WakeModel.SaveIfDue(k, now, write)
    case Cleared(write) => WakeModel.Clear(k, write)
    case _ => k
  }

  /** The wake policy after the log, from a flash that held `stored`. */
  ghost function WakeAfter(stored: WakeModel.PeerList, events: seq<Event>): WakeModel.Wake
    decreases |events|
  {
    if events == [] then WakeModel.Booted(stored)
    else WakeStep(WakeAfter(stored, events[..|events| - 1]), events[|events| - 1])
  }

  lemma WakeAfterSnoc(stored: WakeModel.PeerList, events: seq<Event>, e: Event)
    ensures WakeAfter(stored, events + [e]) == WakeStep(WakeAfter(stored, events), e)
  {
    assert (events + [e])[..|events|] == events;
  }

  lemma WakeStepKept(k: WakeModel.Wake, e: Event)
    requires WakeModel.Kept(k)
    ensures WakeModel.Kept(WakeStep(k, e))
  {
    hide WakeModel.Kept;
    match e
    case Heard(_, a, state, enabled) =>
      if state == HostOnUsbHci && enabled {
        if ConnectedPeer(a.packet).Some? {
          WakeModel.RememberKept(k, ConnectedPeer(a.packet).value, a.at);
        }
      } else if state == StandbyHciHost {
        var verdict := Advertising.PacketVerdict(k.list, a.packet);
        if verdict.Learn? { WakeModel.RememberKept(k, verdict.peer, a.at); }
      }
    case SaveCall(now, write) => WakeModel.SaveIfDueKept(k, now, write);
    case Cleared(write) => WakeModel.ClearKept(k, write);
    case _ =>
  }

  lemma {:induction false} WakeAfterKept(stored: WakeModel.PeerList, events: seq<Event>)
    ensures WakeModel.Kept(WakeAfter(stored, events))
    decreases |events|
  {
    hide WakeStep;
    if events != [] {
      WakeAfterKept(stored, events[..|events| - 1]);
      WakeStepKept(WakeAfter(stored, events[..|events| - 1]), events[|events| - 1]);
    }
  }

  /** The peer that an event shows to the wake list, which stood at `list`: one a PC connects to, or
      one whose advertised name decides a wake. */
  ghost function Shown(list: seq<Peer>, e: Event): Option<Peer> {
    match e
    case Heard(_, a, state, enabled) =>
      if state == HostOnUsbHci && enabled then ConnectedPeer(a.packet)
      else if state == StandbyHciHost && Advertising.PacketVerdict(list, a.packet).Learn? then
        Some(Advertising.PacketVerdict(list, a.packet).peer)
      else None
    case _ => None
  }

  /** Every peer shown since the last clear, in order. */
  ghost function ShownSince(stored: WakeModel.PeerList, events: seq<Event>): seq<Peer>
    decreases |events|
  {
    if events == [] then []
    else
      var n := |events| - 1;
      if events[n].Cleared? then []
      else
        match Shown(WakeAfter(stored, events[..n]).list, events[n])
        case Some(peer) => ShownSince(stored, events[..n]) + [peer]
        case None => ShownSince(stored, events[..n])
  }

  /** Where the list began: as stored, or empty since a clear. */
  function ListStart(stored: WakeModel.PeerList, events: seq<Event>): WakeModel.PeerList
    decreases |events|
  {
    if events == [] then stored
    else if events[|events| - 1].Cleared? then []
    else ListStart(stored, events[..|events| - 1])
  }

  lemma WakeStepShows(k: WakeModel.Wake, e: Event)
    ensures WakeStep(k, e).start == if e.Cleared? then [] else k.start
    ensures WakeStep(k, e).trace
         == if e.Cleared? then []
            else match Shown(k.list, e) case Some(peer) => k.trace + [peer] case None => k.trace
  {
  }

  lemma {:induction false} TraceIsShown(stored: WakeModel.PeerList, events: seq<Event>)
    ensures WakeAfter(stored, events).trace == ShownSince(stored, events)
    ensures WakeAfter(stored, events).start == ListStart(stored, events)
    decreases |events|
  {
    hide WakeStep;
    hide Shown;
    if events != [] {
      TraceIsShown(stored, events[..|events| - 1]);
      WakeStepShows(WakeAfter(stored, events[..|events| - 1]), events[|events| - 1]);
    }
  }

  lemma {:induction false} StartDistinct(stored: WakeModel.PeerList, events: seq<Event>)
    requires NoDuplicates(stored)
    ensures NoDuplicates(ListStart(stored, events))
    decreases |events|
  {
    if events != [] { StartDistinct(stored, events[..|events| - 1]); }
  }

  /** MAIN: after any log the list is the last sixteen of where it began and every peer shown since
      the last clear, each kept only where it was shown last; and the flash holds the list
      unless a change waits to be saved or the last save was not done as asked. */
  lemma ListIsLastSixteenShown(stored: WakeModel.PeerList, events: seq<Event>)
    requires NoDuplicates(stored)
    ensures var k, shown := WakeAfter(stored, events), ListStart(stored, events) + ShownSince(stored, events);
            && k.list == Suffix(KeepLast(shown), MAX_KNOWN_BLE_PEERS) && NoDuplicates(k.list)
            && (!k.dirty && !k.saveFailed ==> k.stored == k.list)
  {
    hide WakeAfter;
    hide ShownSince;
    hide ListStart;
    hide Recency;
    hide KeepLast;
    hide Suffix;
    TraceIsShown(stored, events);
    WakeAfterKept(stored, events);
    StartDistinct(stored, events);
    RecencyIsLastSixteen(ListStart(stored, events), ShownSince(stored, events));
  }
}
