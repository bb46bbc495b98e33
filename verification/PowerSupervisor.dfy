/** The power supervisor as the firmware runs it: static state updated by the task, the wake
    request and the debug override, each proved to be the step of PowerModel. */
module PowerSupervisor {
  import opened PowerModel

  class Filter {
    var lastRaw: bool
    var filtered: bool
    var changedAt: nat

    function Value(): Input
      reads this
    {
      Input(lastRaw, filtered, changedAt)
    }

    constructor (raw: bool, now: nat)
      ensures Value() == Input(raw, raw, now)
    {
      lastRaw, filtered, changedAt := raw, raw, now;
    }

    method Debounce(raw: bool, now: nat) returns (value: bool)
      modifies this
      ensures Value() == PowerModel.Debounce(old(Value()), raw, now) && value == filtered
    {
      if raw != lastRaw {
        lastRaw := raw;
        changedAt := now + POWER_SENSE_DEBOUNCE;
      }
      if raw != filtered && now >= changedAt {
        filtered := raw;
      }
      return filtered;
    }

    method Force(value: bool)
      modifies this`lastRaw, this`filtered
      ensures lastRaw == filtered == value
    {
      lastRaw, filtered := value, value;
    }
  }

  class Supervisor {
    var state: PowerState
    var wakeRequested: bool
    var debugForceStandby: bool
    const pwrOk: Filter
    const usbVbus: Filter
    var stateDeadline: nat
    var cooldownUntil: nat
    var standbyArmedAt: nat

    ghost function Footprint(): set<object> {
      {this, pwrOk, usbVbus}
    }

    ghost predicate Valid()
      reads this
    {
      pwrOk != usbVbus
    }

    /** The supervisor as PowerModel sees it. */
    function State(): PowerModel.Supervisor
      reads this, pwrOk, usbVbus
    {
      PowerModel.Supervisor(state, wakeRequested, debugForceStandby, pwrOk.Value(), usbVbus.Value(),
                            stateDeadline, cooldownUntil, standbyArmedAt)
    }

    constructor (pwrOkPin: bool, usbVbusPin: bool, now: nat)
      ensures Valid() && fresh(Footprint())
      ensures State() == Boot(pwrOkPin, usbVbusPin, now)
    {
      pwrOk := new Filter(pwrOkPin, now);
      usbVbus := new Filter(usbVbusPin, now);
      wakeRequested, debugForceStandby := false, false;
      stateDeadline, cooldownUntil := 0, 0;
      state := if pwrOkPin && usbVbusPin then HostOnUsbHci else HostOff;
      standbyArmedAt := if pwrOkPin && usbVbusPin then NIL else now + STANDBY_WAKE_ARM_DELAY;
    }

    method StandbyArmDeadline(now: nat) returns (deadline: nat)
      ensures deadline == if debugForceStandby then NIL else now + STANDBY_WAKE_ARM_DELAY
    {
      if debugForceStandby || STANDBY_WAKE_ARM_DELAY == 0 {
        return NIL;
      }
      return now + STANDBY_WAKE_ARM_DELAY;
    }

    method SetState(next: PowerState, now: nat)
      requires Valid()
      modifies this`state, this`standbyArmedAt, this`wakeRequested
      ensures State() == Enter(old(State()), next, now)
    {
      if state == next {
        return;
      }
      state := next;
      if state == HostOff {
        standbyArmedAt := StandbyArmDeadline(now);
        wakeRequested := false;
      } else if state != StandbyHciHost {
        standbyArmedAt := NIL;
      }
    }

    method UpdatePowerInputs(pwrOkPin: bool, usbVbusPin: bool, now: nat)
      requires Valid()
      modifies pwrOk, usbVbus
      ensures State() == Sense(old(State()), pwrOkPin, usbVbusPin, now)
    {
      if debugForceStandby {
        pwrOk.Force(false);
        usbVbus.Force(false);
        return;
      }
      var _ := pwrOk.Debounce(pwrOkPin, now);
      var _ := usbVbus.Debounce(usbVbusPin, now);
    }

    /** One call from the main loop.  `later` is the clock after the button has been held. */
    method Task(pwrOkPin: bool, usbVbusPin: bool, now: nat, later: nat) returns (pulsed: bool, pressed: bool)
      requires Valid()
      modifies this, pwrOk, usbVbus
      ensures Valid() && State() == Tick(old(State()), pwrOkPin, usbVbusPin, now, later)
      ensures pulsed <==> Pulses(old(State()))
      ensures pressed <==> PressesButton(Sense(old(State()), pwrOkPin, usbVbusPin, now))
    {
      UpdatePowerInputs(pwrOkPin, usbVbusPin, now);
      pulsed, pressed := state == WakePulse, state == WakePulse && !pwrOk.filtered;
      Dispatch(now, later);
    }

    /** The state machine, on inputs already sensed. */
    method Dispatch(now: nat, later: nat)
      requires Valid()
      modifies this
      ensures Valid() && State() == Advance(old(State()), now, later)
    {
      var up := pwrOk.filtered && usbVbus.filtered;
      match state {
        case HostOff =>
          if up {
            SetState(HostOnUsbHci, now);
          } else if standbyArmedAt == NIL || now >= standbyArmedAt {
            SetState(StandbyHciHost, now);
          }
        case StandbyHciHost =>
          if up {
            SetState(HostOnUsbHci, now);
          } else if wakeRequested {
            wakeRequested := false;
            SetState(WakePulse, now);
          }
        case WakePulse =>
          cooldownUntil := later + POST_WAKE_SENSE_SETTLE;
          stateDeadline := later + POST_WAKE_SENSE_SETTLE;
          SetState(WaitWakeSenseSettle, now);
        case WaitWakeSenseSettle =>
          if up {
            SetState(HostOnUsbHci, now);
          } else if now >= stateDeadline {
            stateDeadline := now + HOST_BOOT_TIMEOUT;
            SetState(WaitHostBoot, now);
          }
        case WaitHostBoot =>
          if up {
            SetState(HostOnUsbHci, now);
          } else if now >= stateDeadline {
            SetState(HostOff, now);
          }
        case HostOnUsbHci =>
          if !pwrOk.filtered {
            SetState(HostShuttingDown, now);
            stateDeadline := now + SHUTDOWN_DELAY;
            wakeRequested := false;
          }
        case HostShuttingDown =>
          if now >= stateDeadline {
            SetState(HostOff, now);
          }
        case Fault =>
        case Unknown =>
          SetState(HostOff, now);
      }
    }

    method RequestWake(now: nat)
      requires Valid()
      modifies this`wakeRequested
      ensures State() == PowerModel.RequestWake(old(State()), now)
    {
      if state != StandbyHciHost && state != HostOff {
        return;
      }
      if now < cooldownUntil {
        return;
      }
      if !(standbyArmedAt == NIL || now >= standbyArmedAt) {
        return;
      }
      wakeRequested := true;
    }

    method DebugForceStandby(force: bool, pwrOkPin: bool, usbVbusPin: bool)
      requires Valid()
      modifies this, pwrOk, usbVbus
      ensures Valid() && State() == ForceStandby(old(State()), force, pwrOkPin, usbVbusPin)
    {
      debugForceStandby := force;
      if force {
        pwrOk.Force(false);
        usbVbus.Force(false);
        standbyArmedAt := NIL;
        wakeRequested := false;
      } else {
        pwrOk.Force(pwrOkPin);
        usbVbus.Force(usbVbusPin);
      }
    }
  }
}
