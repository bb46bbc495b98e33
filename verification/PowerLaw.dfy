/** The law of the power supervisor: what every look and every wake request leads to, in any run,
    told from the samples, the override, the times of entry and the pulses alone.  Times are
    microseconds, written out. */
module PowerLaw {
  import opened PowerModel
  import opened PowerRuns
  import opened PowerSense

  const SECONDS := 1_000_000

  /** A request made now is accepted in these states, ten seconds after the last pulse, and a minute
      after the PC was last found off unless the override was used since. */
  predicate Accepts(w: Watched, now: nat) {
    && (w.s.state == StandbyHciHost || w.s.state == HostOff)
    && (w.pulses == [] || now >= LastPulse(w).end + 10 * SECONDS)
    && ArmingOver(w, now)
  }

  predicate ArmingOver(w: Watched, now: nat) {
    w.forcedSinceOff || now >= w.offAt + 60 * SECONDS
  }

  /** A request waits: one was accepted, and since then no pulse was begun, the PC not found off
      nor left on, and the override not switched on. */
  ghost predicate RequestWaits(up: PowerUp, ops: seq<Op>)
    decreases |ops|
  {
    if ops == [] then false
    else
      var before, op := ops[..|ops| - 1], ops[|ops| - 1];
      match op
      case DoRequest(now) => Accepts(Run(up, before), now) || RequestWaits(up, before)
      case DoForce(force, _, _, _) => !force && RequestWaits(up, before)
      case DoTick(_, _, _, _) =>
        && RequestWaits(up, before)
        && (Run(up, ops).s.state == Run(up, before).s.state
            || Run(up, ops).s.state in {StandbyHciHost, HostOnUsbHci, WaitWakeSenseSettle, WaitHostBoot})
  }

  /** The state after a look at time `now`, with the power input and both inputs taken for high or
      not, and a request waiting or not. */
  function After(w: Watched, now: nat, powerHigh: bool, bothHigh: bool, waits: bool): PowerState
    requires w.s.state == WaitWakeSenseSettle ==> w.pulses != []
  {
    match w.s.state
    case HostOff =>
      if bothHigh then HostOnUsbHci else if ArmingOver(w, now) then StandbyHciHost else HostOff
    case StandbyHciHost =>
      if bothHigh then HostOnUsbHci else if waits then WakePulse else StandbyHciHost
    case WakePulse => WaitWakeSenseSettle
    case WaitWakeSenseSettle =>
      if bothHigh then HostOnUsbHci
      else if now >= LastPulse(w).end + 10 * SECONDS then WaitHostBoot else WaitWakeSenseSettle
    case WaitHostBoot =>
      if bothHigh then HostOnUsbHci
      else if now >= w.enteredAt + 120 * SECONDS then HostOff else WaitHostBoot
    case HostOnUsbHci => if powerHigh then HostOnUsbHci else HostShuttingDown
    case HostShuttingDown =>
      if now >= w.enteredAt + 1_500_000 then HostOff else HostShuttingDown
    case Unknown => HostOff
    case Fault => Fault
  }

  // ------------------------------------------------------------- the invariant

  /** The deadlines the supervisor keeps, told by the stopwatch. */
  predicate ArmedInTime(w: Watched) {
    && (w.s.state in {HostOff, StandbyHciHost}
        ==> w.s.standbyArmedAt == if w.forcedSinceOff then NIL else w.offAt + 60 * SECONDS)
    && (w.s.forced ==> w.forcedSinceOff) && w.s.state != Unknown && w.s.state != Fault
  }

  predicate WaitsInTime(w: Watched) {
    && w.s.cooldownUntil == (if w.pulses == [] then 0 else LastPulse(w).end + 10 * SECONDS)
    && (w.s.state == WaitWakeSenseSettle
        ==> w.pulses != [] && w.s.stateDeadline == LastPulse(w).end + 10 * SECONDS)
    && (w.s.state == WaitHostBoot ==> w.s.stateDeadline == w.enteredAt + 120 * SECONDS)
    && (w.s.state == HostShuttingDown ==> w.s.stateDeadline == w.enteredAt + 1_500_000)
  }

  predicate Timed(w: Watched) {
    ArmedInTime(w) && WaitsInTime(w)
  }

  lemma TickArmedInTime(w: Watched, op: Op)
    requires ArmedInTime(w) && op.DoTick?
    ensures ArmedInTime(Watch(w, op))
  {
  }

  lemma TickWaitsInTime(w: Watched, op: Op)
    requires WaitsInTime(w) && op.DoTick? && w.s.state != Unknown && w.s.state != Fault
    ensures WaitsInTime(Watch(w, op))
  {
    hide Debounce;
    hide HostUp;
    hide Armed;
  }

  lemma TickTimed(w: Watched, op: Op)
    requires Timed(w) && op.DoTick?
    ensures Timed(Watch(w, op))
  {
    hide Watch;
    TickArmedInTime(w, op);
    TickWaitsInTime(w, op);
  }

  lemma OtherTimed(w: Watched, op: Op)
    requires Timed(w) && !op.DoTick?
    ensures Timed(Watch(w, op))
  {
  }

  lemma {:induction false} RunTimed(up: PowerUp, ops: seq<Op>)
    ensures Timed(Run(up, ops))
    decreases |ops|
  {
    hide Timed;
    hide Watch;
    if ops == [] {
      StartTimed(up);
    } else {
      var before, op := ops[..|ops| - 1], ops[|ops| - 1];
      RunTimed(up, before);
      if op.DoTick? { TickTimed(Run(up, before), op); } else { OtherTimed(Run(up, before), op); }
    }
  }

  lemma StartTimed(up: PowerUp)
    ensures Timed(Start(up))
  {
  }

  // -------------------------------------------------------------- requests waiting

  lemma RequestStep(w: Watched, op: Op)
    requires Timed(w) && op.DoRequest?
    ensures Watch(w, op).s.wakeRequested <==> Accepts(w, op.now) || w.s.wakeRequested
  {
  }

  lemma ForceStep(w: Watched, op: Op)
    requires op.DoForce?
    ensures Watch(w, op).s.wakeRequested <==> !op.force && w.s.wakeRequested
  {
  }

  lemma TickStep(w: Watched, op: Op)
    requires Timed(w) && op.DoTick?
    ensures var w' := Watch(w, op);
            w'.s.wakeRequested
            <==> && w.s.wakeRequested
                 && (w'.s.state == w.s.state
                     || w'.s.state in {StandbyHciHost, HostOnUsbHci, WaitWakeSenseSettle, WaitHostBoot})
  {
  }

  /** The supervisor's flag is the request that waits. */
  lemma {:induction false} FlagIsWaiting(up: PowerUp, ops: seq<Op>)
    ensures Run(up, ops).s.wakeRequested <==> RequestWaits(up, ops)
    decreases |ops|
  {
    hide Watch;
    hide Timed;
    hide Accepts;
    if ops == [] {
      assert !Start(up).s.wakeRequested;
    } else {
      var before, op := ops[..|ops| - 1], ops[|ops| - 1];
      var w := Run(up, before);
      FlagIsWaiting(up, before);
      RunTimed(up, before);
      match op
      case DoRequest(_) => RequestStep(w, op);
      case DoForce(_, _, _, _) => ForceStep(w, op);
      case DoTick(_, _, _, _) => TickStep(w, op);
    }
  }

  // ----------------------------------------------------------------- main results

  /** Sensing changes the inputs only, and the state is decided on them. */
  lemma TickGoes(s: Supervisor, op: Op)
    requires op.DoTick?
    ensures var sensed, s' := Sense(s, op.pwrOk, op.usbVbus, op.now), Apply(s, op);
            && sensed == s.(pwrOk := s'.pwrOk, usbVbus := s'.usbVbus)
            && s'.state == NextState(sensed, op.now)
  {
  }

  lemma LookStep(w: Watched, op: Op)
    requires Timed(w) && op.DoTick?
    ensures var w' := Watch(w, op);
            && w'.s.state == After(w, op.now, w'.s.pwrOk.filtered, w'.s.pwrOk.filtered && w'.s.usbVbus.filtered,
                                   w.s.wakeRequested)
            && |w'.pulses| == |w.pulses| + if w.s.state == WakePulse then 1 else 0
  {
    hide Apply;
    hide Sense;
    TickGoes(w.s, op);
  }

  /** MAIN: in every run, from every state, each look at the inputs leads exactly where the law says:
      to host mode whenever both inputs are taken for high, from off, standby and both waits;
      out of it when power is not; and otherwise by the times of entry and the waiting
      request.  A pulse is given by exactly the looks taken in the pulse state. */
  lemma LookDecides(up: PowerUp, ops: seq<Op>)
    requires LooksLast(ops)
    ensures var before, op := ops[..|ops| - 1], ops[|ops| - 1];
            var w := Run(up, before);
            && (w.s.state == WaitWakeSenseSettle ==> w.pulses != [])
            && Run(up, ops).s.state
               == After(w, op.now, TakenForHigh(up, ops, PwrOk),
                        TakenForHigh(up, ops, PwrOk) && TakenForHigh(up, ops, UsbVbus), RequestWaits(up, before))
            && |Run(up, ops).pulses| == |w.pulses| + if w.s.state == WakePulse then 1 else 0
  {
    var before, op := ops[..|ops| - 1], ops[|ops| - 1];
    RunTimed(up, before);
    FlagIsWaiting(up, before);
    LookReads(up, ops, PwrOk);
    LookReads(up, ops, UsbVbus);
    LookStep(Run(up, before), op);
    hide Watch;
    hide TakenForHigh;
    hide RequestWaits;
  }

  /** MAIN: between looks no state changes, whatever is asked and however the override is used; and
      the supervisor starts in host mode exactly when both pins are high. */
  lemma OnlyLooksDecide(up: PowerUp, ops: seq<Op>)
    ensures ops == [] ==> Run(up, ops).s.state == if up.pwrOk && up.usbVbus then HostOnUsbHci else HostOff
    ensures ops != [] && !ops[|ops| - 1].DoTick?
            ==> Run(up, ops).s.state == Run(up, ops[..|ops| - 1]).s.state
  {
  }

  /** MAIN: in every run a request is accepted exactly when the law says, and waits from then on. */
  lemma RequestAcceptedIff(up: PowerUp, ops: seq<Op>, now: nat)
    ensures Run(up, ops + [DoRequest(now)]).s.wakeRequested
       <==> Accepts(Run(up, ops), now) || RequestWaits(up, ops)
  {
    RunTimed(up, ops);
    FlagIsWaiting(up, ops);
    RunSnoc(up, ops, DoRequest(now));
    RequestStep(Run(up, ops), DoRequest(now));
    hide Watch;
    hide RequestWaits;
  }

  // ------------------------------------------------------------------ the override

  /** The override is on: what it was last told. */
  predicate ForcedBy(ops: seq<Op>)
    decreases |ops|
  {
    if ops == [] then false
    else
      var n := |ops| - 1;
      match ops[n]
      case DoForce(force, _, _, _) => force
      case _ => ForcedBy(ops[..n])
  }

  /** Where a pin's samples begin: at its level at power-up, or as the override was last let go. */
  predicate StartedHigh(up: PowerUp, ops: seq<Op>, pin: Pin)
    decreases |ops|
  {
    if ops == [] then (if pin == PwrOk then up.pwrOk else up.usbVbus)
    else
      var n := |ops| - 1;
      match ops[n]
      case DoForce(force, p, v, _) => !force && if pin == PwrOk then p else v
      case _ => StartedHigh(up, ops[..n], pin)
  }

  lemma OverrideSet(w: Watched, op: Op)
    requires op.DoForce?
    ensures Watch(w, op).s.forced == op.force
    ensures Watch(w, op).s.pwrOk.filtered == (!op.force && op.pwrOk)
    ensures Watch(w, op).s.usbVbus.filtered == (!op.force && op.usbVbus)
  {
  }

  lemma OverrideKept(w: Watched, op: Op)
    requires !op.DoForce?
    ensures Watch(w, op).s.forced == w.s.forced
  {
    OthersKeep(w.s, op, PwrOk);
    hide Apply;
  }

  /** MAIN: in every run the override is on or off as last told, whatever else happens, and letting it
      go starts both inputs at their pins' levels of that moment. */
  lemma {:induction false} OverrideAsTold(up: PowerUp, ops: seq<Op>)
    ensures Overridden(up, ops) == ForcedBy(ops)
    ensures forall pin :: Base(up, ops, pin).filtered == StartedHigh(up, ops, pin)
    decreases |ops|
  {
    hide Watch;
    if ops != [] {
      OverrideAsTold(up, ops[..|ops| - 1]);
      var w, op := Run(up, ops[..|ops| - 1]), ops[|ops| - 1];
      if op.DoForce? { OverrideSet(w, op); } else { OverrideKept(w, op); }
    }
  }

  /** MAIN: the power button is held by exactly the looks taken in the pulse state at which the power
      input is not taken for high. */
  lemma ButtonHeldIff(up: PowerUp, ops: seq<Op>)
    requires LooksLast(ops)
    ensures var op, w := ops[|ops| - 1], Run(up, ops[..|ops| - 1]);
            PressesButton(Sense(w.s, op.pwrOk, op.usbVbus, op.now))
            <==> w.s.state == WakePulse && !TakenForHigh(up, ops, PwrOk)
  {
    LookReads(up, ops, PwrOk);
    TickGoes(Run(up, ops[..|ops| - 1]).s, ops[|ops| - 1]);
    hide TakenForHigh;
  }
}
