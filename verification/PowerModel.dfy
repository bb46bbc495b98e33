/** The power supervisor: debounced sense inputs and the state machine that decides who owns the
    Bluetooth controller and when the PC is woken.  Times are microseconds since boot. */
module PowerModel {
  const MS := 1000
  const POWER_SENSE_DEBOUNCE := 250 * MS
  const STANDBY_WAKE_ARM_DELAY := 60000 * MS
  const POST_WAKE_SENSE_SETTLE := 10000 * MS
  const HOST_BOOT_TIMEOUT := 120000 * MS
  const SHUTDOWN_DELAY := 1500 * MS

  // The nil time of the SDK.
  const NIL := 0

  datatype PowerState =
    | Unknown | HostOff | StandbyHciHost | WakePulse | WaitWakeSenseSettle | WaitHostBoot
    | HostOnUsbHci | HostShuttingDown | Fault

  // --------------------------------------------------------------------- debouncing

  /** `changedAt` is when the last change of the raw value may take effect. */
  datatype Input = Input(lastRaw: bool, filtered: bool, changedAt: nat)

  function Debounce(i: Input, raw: bool, now: nat): Input {
    var changedAt := if raw != i.lastRaw then now + POWER_SENSE_DEBOUNCE else i.changedAt;
    Input(raw, if now >= changedAt then raw else i.filtered, changedAt)
  }

  // -------------------------------------------------------------- the state machine

  datatype Supervisor = Supervisor(
    state: PowerState,
    wakeRequested: bool,
    forced: bool,
    pwrOk: Input,
    usbVbus: Input,
    stateDeadline: nat,
    cooldownUntil: nat,
    standbyArmedAt: nat)

  predicate HostUp(s: Supervisor) {
    s.pwrOk.filtered && s.usbVbus.filtered
  }

  predicate Armed(s: Supervisor, now: nat) {
    s.standbyArmedAt == NIL || now >= s.standbyArmedAt
  }

  /** Power-up. */
  function Boot(pwrOk: bool, usbVbus: bool, now: nat): Supervisor {
    var on := pwrOk && usbVbus;
    Supervisor(if on then HostOnUsbHci else HostOff, false, false,
               Input(pwrOk, pwrOk, now), Input(usbVbus, usbVbus, now),
               0, 0, if on then NIL else now + STANDBY_WAKE_ARM_DELAY)
  }

  function Sense(s: Supervisor, pwrOk: bool, usbVbus: bool, now: nat): Supervisor {
    if s.forced then
      s.(pwrOk := s.pwrOk.(lastRaw := false, filtered := false),
         usbVbus := s.usbVbus.(lastRaw := false, filtered := false))
    else
      s.(pwrOk := Debounce(s.pwrOk, pwrOk, now), usbVbus := Debounce(s.usbVbus, usbVbus, now))
  }

  /** The state after one look at sensed inputs. */
  function NextState(s: Supervisor, now: nat): PowerState {
    match s.state
    case HostOff => if HostUp(s) then HostOnUsbHci else if Armed(s, now) then StandbyHciHost else HostOff
    case StandbyHciHost => if HostUp(s) then HostOnUsbHci else if s.wakeRequested then WakePulse else StandbyHciHost
    case WakePulse => WaitWakeSenseSettle
    case WaitWakeSenseSettle =>
      if HostUp(s) then HostOnUsbHci else if now >= s.stateDeadline then WaitHostBoot else WaitWakeSenseSettle
    case WaitHostBoot =>
      if HostUp(s) then HostOnUsbHci else if now >= s.stateDeadline then HostOff else WaitHostBoot
    case HostOnUsbHci => if s.pwrOk.filtered then HostOnUsbHci else HostShuttingDown
    case HostShuttingDown => if now >= s.stateDeadline then HostOff else HostShuttingDown
    case Fault => Fault
    case Unknown => HostOff
  }

  /** Entering HostOff arms the delay and forgets any request; every state but HostOff and
      standby disarms. */
  function Enter(s: Supervisor, next: PowerState, now: nat): Supervisor {
    if s.state == next then s
    else if next == HostOff then
      s.(state := next, wakeRequested := false,
         standbyArmedAt := if s.forced then NIL else now + STANDBY_WAKE_ARM_DELAY)
    else if next == StandbyHciHost then s.(state := next)
    else s.(state := next, standbyArmedAt := NIL)
  }

  /** What a transition does besides entering its state.  `later` is the time after the
      button was held down. */
  function Leave(s: Supervisor, next: PowerState, now: nat, later: nat): Supervisor {
    match s.state
    case WakePulse =>
      s.(cooldownUntil := later + POST_WAKE_SENSE_SETTLE, stateDeadline := later + POST_WAKE_SENSE_SETTLE)
    case StandbyHciHost => if next == WakePulse then s.(wakeRequested := false) else s
    case WaitWakeSenseSettle => if next == WaitHostBoot then s.(stateDeadline := now + HOST_BOOT_TIMEOUT) else s
    case HostOnUsbHci =>
      if next == HostShuttingDown then s.(stateDeadline := now + SHUTDOWN_DELAY, wakeRequested := false) else s
    case _ => s
  }

  /** At most one transition, on inputs already sensed. */
  function Advance(s: Supervisor, now: nat, later: nat): Supervisor {
    var next := NextState(s, now);
    Enter(Leave(s, next, now, later), next, now)
  }

  /** One call of the supervisor task. */
  function Tick(s: Supervisor, pwrOk: bool, usbVbus: bool, now: nat, later: nat): Supervisor {
    Advance(Sense(s, pwrOk, usbVbus, now), now, later)
  }

  /** The task wakes the PC with a key press. */
  predicate Pulses(s: Supervisor) {
    s.state == WakePulse
  }

  /** And, on inputs already sensed, with the power button, unless power is sensed. */
  predicate PressesButton(s: Supervisor) {
    Pulses(s) && !s.pwrOk.filtered
  }

  predicate Wakeable(s: Supervisor, now: nat) {
    (s.state == StandbyHciHost || s.state == HostOff) && now >= s.cooldownUntil && Armed(s, now)
  }

  function RequestWake(s: Supervisor, now: nat): Supervisor {
    if Wakeable(s, now) then s.(wakeRequested := true) else s
  }

  /** The debug override: pretend the PC is off, or go back to the pins. */
  function ForceStandby(s: Supervisor, force: bool, pwrOk: bool, usbVbus: bool): Supervisor {
    var p, v := if force then false else pwrOk, if force then false else usbVbus;
    var s1 := s.(forced := force,
                 pwrOk := s.pwrOk.(lastRaw := p, filtered := p),
                 usbVbus := s.usbVbus.(lastRaw := v, filtered := v));
    if force then s1.(standbyArmedAt := NIL, wakeRequested := false) else s1
  }
}
