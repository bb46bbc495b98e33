/** What the sensed inputs decide over whole runs: when host mode is left, and when the settle
    time after a wake pulse is cut short. */
module PowerSense {
  import opened PowerModel
  import opened PowerRuns
  import opened Debouncing

  datatype Pin = PwrOk | UsbVbus

  function InputOf(s: Supervisor, pin: Pin): Input {
    if pin == PwrOk then s.pwrOk else s.usbVbus
  }

  function SampleOf(op: Op, pin: Pin): Sample
    requires op.DoTick?
  {
    Sample(op.now, if pin == PwrOk then op.pwrOk else op.usbVbus)
  }

  /** The samples of a pin that the ticks took since power-up or the last use of the override. */
  function Samples(ops: seq<Op>, pin: Pin): seq<Sample>
    decreases |ops|
  {
    if ops == [] then []
    else
      var n := |ops| - 1;
      match ops[n]
      case DoTick(_, _, _, _) => Samples(ops[..n], pin) + [SampleOf(ops[n], pin)]
      case DoRequest(_) => Samples(ops[..n], pin)
      case DoForce(_, _, _, _) => []
  }

  /** The input as power-up or the last use of the override left it. */
  function Base(up: PowerUp, ops: seq<Op>, pin: Pin): (i: Input)
    ensures i.lastRaw == i.filtered
    decreases |ops|
  {
    if ops == [] then InputOf(Start(up).s, pin)
    else
      var n := |ops| - 1;
      if ops[n].DoForce? then InputOf(Run(up, ops).s, pin) else Base(up, ops[..n], pin)
  }

  /** By its samples since power-up or the override, the input reads high. */
  ghost predicate PinReadsHigh(up: PowerUp, ops: seq<Op>, pin: Pin) {
    var samples := Samples(ops, pin);
    ReadsHigh(Base(up, ops, pin).filtered, samples, |samples|)
  }

  function Expected(up: PowerUp, ops: seq<Op>, pin: Pin): Input {
    Filtered(Base(up, ops, pin).filtered, Base(up, ops, pin).changedAt, Samples(ops, pin))
  }

  lemma TickSenses(s: Supervisor, op: Op, pin: Pin)
    requires op.DoTick? && !s.forced
    ensures InputOf(Apply(s, op), pin)
         == Debounce(InputOf(s, pin), SampleOf(op, pin).raw, SampleOf(op, pin).at)
  {
  }

  lemma OthersKeep(s: Supervisor, op: Op, pin: Pin)
    ensures op.DoRequest? ==> InputOf(Apply(s, op), pin) == InputOf(s, pin)
    ensures !op.DoForce? ==> Apply(s, op).forced == s.forced
  {
  }

  /** While the override is off, each input of the supervisor is its debounced samples. */
  lemma {:induction false} InputIsFiltered(up: PowerUp, ops: seq<Op>, pin: Pin)
    ensures !Run(up, ops).s.forced ==> InputOf(Run(up, ops).s, pin) == Expected(up, ops, pin)
    decreases |ops|
  {
    if ops != [] {
      var before, op := ops[..|ops| - 1], ops[|ops| - 1];
      InputIsFiltered(up, before, pin);
      var w, base := Run(up, before), Base(up, before, pin);
      OthersKeep(w.s, op, pin);
      if op.DoTick? && !w.s.forced {
        TickSenses(w.s, op, pin);
        FilteredSnoc(base.filtered, base.changedAt, Samples(before, pin), SampleOf(op, pin));
      }
    }
  }

  /** The filtered inputs, from the samples alone. */
  lemma InputReads(up: PowerUp, ops: seq<Op>, pin: Pin)
    requires !Run(up, ops).s.forced
    ensures InputOf(Run(up, ops).s, pin).filtered <==> PinReadsHigh(up, ops, pin)
  {
    var samples, base := Samples(ops, pin), Base(up, ops, pin);
    InputIsFiltered(up, ops, pin);
    FilteredReads(base.filtered, base.changedAt, samples, |samples|);
    assert samples[..|samples|] == samples;
  }

  /** A run that ends with a look at the inputs. */
  predicate LooksLast(ops: seq<Op>) {
    ops != [] && ops[|ops| - 1].DoTick?
  }

  predicate Overridden(up: PowerUp, ops: seq<Op>) {
    Run(up, ops).s.forced
  }

  /** The supervisor takes the input for high: the override is off, and its samples say so. */
  ghost predicate TakenForHigh(up: PowerUp, ops: seq<Op>, pin: Pin) {
    !Overridden(up, ops) && PinReadsHigh(up, ops, pin)
  }

  lemma OverriddenReadsLow(s: Supervisor, op: Op, pin: Pin)
    requires op.DoTick? && s.forced
    ensures !InputOf(Apply(s, op), pin).filtered
  {
  }

  /** What a look makes of an input, from the samples and the override alone. */
  lemma LookReads(up: PowerUp, ops: seq<Op>, pin: Pin)
    requires LooksLast(ops)
    ensures InputOf(Run(up, ops).s, pin).filtered <==> TakenForHigh(up, ops, pin)
  {
    var before, op := ops[..|ops| - 1], ops[|ops| - 1];
    OthersKeep(Run(up, before).s, op, pin);
    if Overridden(up, ops) {
      OverriddenReadsLow(Run(up, before).s, op, pin);
    } else {
      InputReads(up, ops, pin);
    }
  }

  // --------------------------------------------------- the settle time after a pulse

  lemma SettleTick(s: Supervisor, op: Op)
    requires op.DoTick? && s.state == WaitWakeSenseSettle
    ensures Apply(s, op).state == if HostUp(Apply(s, op)) then HostOnUsbHci
                                  else if op.now < s.stateDeadline then WaitWakeSenseSettle
                                  else WaitHostBoot
  {
  }

  /** MAIN: in every run, a look taken while the supervisor waits after a pulse ends the wait at
      once, the PC taken for on, exactly when the override is off and each input was high the
      last time it was steady for 250 ms.  The ten seconds after the pulse only bound the wait for that. */
  lemma SettleCutShortIffSteadyHigh(up: PowerUp, ops: seq<Op>)
    requires TimelyRun(up, ops) && LooksLast(ops)
    requires Run(up, ops[..|ops| - 1]).s.state == WaitWakeSenseSettle
    ensures var w := Run(up, ops[..|ops| - 1]);
            w.pulses != []
            && Run(up, ops).s.state
               == if TakenForHigh(up, ops, PwrOk) && TakenForHigh(up, ops, UsbVbus) then HostOnUsbHci
                  else if ops[|ops| - 1].now < LastPulse(w).end + 10_000_000
                  then WaitWakeSenseSettle else WaitHostBoot
  {
    var before, op := ops[..|ops| - 1], ops[|ops| - 1];
    RunPaced(up, before);
    SettleTick(Run(up, before).s, op);
    LookReads(up, ops, PwrOk);
    LookReads(up, ops, UsbVbus);
  }

  const S := 1000 * MS

  /** A PC whose USB power stays on: off at power-up, armed after a minute, asked for 1 ms later,
      woken, and with its power sense high at looks 1 s and 1.25 s after the pulse. */
  const EARLY_WAKE: seq<Op> := [
    DoTick(false, true, 0, 0),
    DoTick(false, true, 60 * S, 60 * S),
    DoRequest(60 * S + 1 * MS),
    DoTick(false, true, 60 * S + 2 * MS, 60 * S + 2 * MS),
    DoTick(false, true, 60 * S + 3 * MS, 60 * S + 203 * MS),
    DoTick(true, true, 61 * S + 203 * MS, 61 * S + 203 * MS),
    DoTick(true, true, 61 * S + 453 * MS, 61 * S + 453 * MS)]

  lemma EarlyWakeAt(k: nat)
    requires k < |EARLY_WAKE|
    ensures Run(PowerUp(false, true, 0), EARLY_WAKE[..k + 1])
         == Watch(Run(PowerUp(false, true, 0), EARLY_WAKE[..k]), EARLY_WAKE[k])
  {
    assert EARLY_WAKE[..k + 1] == EARLY_WAKE[..k] + [EARLY_WAKE[k]];
    RunSnoc(PowerUp(false, true, 0), EARLY_WAKE[..k], EARLY_WAKE[k]);
  }

  const LOW := Input(false, false, 0)
  const HIGH := Input(true, true, 0)

  /** Armed and asked. */
  const ASKED := Watched(
    Supervisor(StandbyHciHost, true, false, LOW, HIGH, 0, 0, 60 * S),
    3, 60 * S + 1 * MS, 60 * S + 1 * MS, 2, 60 * S, 0, false, false, [])

  lemma EarlyWakeAsked()
    ensures Run(PowerUp(false, true, 0), EARLY_WAKE[..3]) == ASKED
  {
    assert EARLY_WAKE[..0] == [];
    EarlyWakeAt(0);
    EarlyWakeAt(1);
    EarlyWakeAt(2);
  }

  /** About to pulse. */
  const PULSING := ASKED.(s := ASKED.s.(state := WakePulse, wakeRequested := false, standbyArmedAt := NIL),
                          steps := 4, clock := 60 * S + 2 * MS, enteredAt := 60 * S + 2 * MS)

  lemma EarlyWakePulsing()
    ensures Run(PowerUp(false, true, 0), EARLY_WAKE[..4]) == PULSING
  {
    EarlyWakeAsked();
    EarlyWakeAt(3);
  }

  /** The pulse has been given. */
  const PULSED := Watched(
    Supervisor(WaitWakeSenseSettle, false, false, LOW, HIGH, 70 * S + 203 * MS, 70 * S + 203 * MS, NIL),
    5, 60 * S + 203 * MS, 60 * S + 1 * MS, 2, 60 * S + 3 * MS, 0, false, false,
    [Pulse(60 * S + 3 * MS, 60 * S + 203 * MS, 60 * S + 1 * MS, 2, 0, false, false)])

  lemma EarlyWakePulsed()
    ensures Run(PowerUp(false, true, 0), EARLY_WAKE[..5]) == PULSED
  {
    hide Run;
    EarlyWakePulsing();
    EarlyWakeAt(4);
  }

  /** MAIN: the documented ten seconds of distrust do not hold.  In this run from power-up the
      only pulse ends at 60.203 s, and host mode is entered at 61.453 s. */
  lemma SettleCutShortExample()
    ensures var w := Run(PowerUp(false, true, 0), EARLY_WAKE);
            && w.s.state == HostOnUsbHci && w.clock == 61 * S + 453 * MS
            && |w.pulses| == 1 && w.pulses[0].end == 60 * S + 203 * MS
            && w.clock < w.pulses[0].end + 10_000_000
  {
    hide Run;
    EarlyWakePulsed();
    EarlyWakeAt(5);
    EarlyWakeAt(6);
    assert EARLY_WAKE[..7] == EARLY_WAKE;
  }

  // --------------------------------------------------------------- leaving host mode

  /** The last samples read low, and span at least 250 ms. */
  ghost predicate SteadyLow(samples: seq<Sample>, j: int) {
    && 0 <= j < |samples|
    && (forall i :: j <= i < |samples| ==> !samples[i].raw)
    && samples[j].at + POWER_SENSE_DEBOUNCE <= samples[|samples| - 1].at
  }

  /** With the override off, host mode is kept or entered at a look only with power high. */
  predicate HostHigh(w: Watched, samples: seq<Sample>) {
    w.s.state == HostOnUsbHci && !w.s.forced && samples != [] ==> w.s.pwrOk.filtered
  }

  lemma TickHostHigh(s: Supervisor, op: Op)
    requires op.DoTick? && !s.forced
    ensures Apply(s, op).state == HostOnUsbHci ==> Apply(s, op).pwrOk.filtered
  {
  }

  lemma RequestKeeps(s: Supervisor, op: Op)
    requires op.DoRequest?
    ensures Apply(s, op) == s.(wakeRequested := Apply(s, op).wakeRequested)
  {
  }

  lemma {:induction false} RunHostHigh(up: PowerUp, ops: seq<Op>)
    ensures HostHigh(Run(up, ops), Samples(ops, PwrOk))
    decreases |ops|
  {
    if ops != [] {
      var before, op := ops[..|ops| - 1], ops[|ops| - 1];
      var w := Run(up, before);
      RunHostHigh(up, before);
      OthersKeep(w.s, op, PwrOk);
      match op
      case DoTick(_, _, _, _) => if !w.s.forced { TickHostHigh(w.s, op); }
      case DoRequest(_) => RequestKeeps(w.s, op);
      case DoForce(_, _, _, _) =>
    }
  }

  lemma FlipAtEnd(start: bool, since: nat, samples: seq<Sample>, x: Sample)
    requires Filtered(start, since, samples).filtered
    requires !Filtered(start, since, samples + [x]).filtered
    ensures SteadyLow(samples + [x], RunStart(samples + [x], |samples|))
  {
    var all, k := samples + [x], |samples|;
    assert all[..k] == samples && all[..k + 1] == all;
    FlipsIffSteady(start, since, all, k);
  }

  lemma LeavingReadsLow(s: Supervisor, op: Op)
    requires op.DoTick? && s.state == HostOnUsbHci
    ensures Apply(s, op).state == if Apply(s, op).pwrOk.filtered then HostOnUsbHci else HostShuttingDown
  {
  }

  /** MAIN: a look leaves host mode exactly when the override is on or the power input was low the
      last time it was steady for 250 ms. */
  lemma HostLeftIffSteadyLow(up: PowerUp, ops: seq<Op>)
    requires LooksLast(ops) && Run(up, ops[..|ops| - 1]).s.state == HostOnUsbHci
    ensures Run(up, ops).s.state == if TakenForHigh(up, ops, PwrOk) then HostOnUsbHci else HostShuttingDown
  {
    LeavingReadsLow(Run(up, ops[..|ops| - 1]).s, ops[|ops| - 1]);
    LookReads(up, ops, PwrOk);
  }

  lemma LookSamples(up: PowerUp, ops: seq<Op>, pin: Pin)
    requires LooksLast(ops)
    ensures var before := ops[..|ops| - 1];
            && Samples(ops, pin) == Samples(before, pin) + [SampleOf(ops[|ops| - 1], pin)]
            && Base(up, ops, pin) == Base(up, before, pin)
  {
  }

  /** MAIN: with the override off, host mode is left only when power read low at every look of the last
      250 ms or more, or when this is the first look after the override was let go with the
      power pin low. */
  lemma HostLeftOnlyAfterSteadyLow(up: PowerUp, ops: seq<Op>)
    requires LooksLast(ops) && Run(up, ops[..|ops| - 1]).s.state == HostOnUsbHci
    requires Run(up, ops).s.state != HostOnUsbHci && !Overridden(up, ops)
    ensures var before := ops[..|ops| - 1];
            || (exists j :: SteadyLow(Samples(ops, PwrOk), j))
            || (Samples(before, PwrOk) == [] && !Base(up, before, PwrOk).filtered)
  {
    var before, op := ops[..|ops| - 1], ops[|ops| - 1];
    var w, samples, base := Run(up, before), Samples(before, PwrOk), Base(up, before, PwrOk);
    OthersKeep(w.s, op, PwrOk);
    LeavingReadsLow(w.s, op);
    RunHostHigh(up, before);
    InputIsFiltered(up, before, PwrOk);
    InputIsFiltered(up, ops, PwrOk);
    LookSamples(up, ops, PwrOk);
    if w.s.pwrOk.filtered {
      var all := samples + [SampleOf(op, PwrOk)];
      FlipAtEnd(base.filtered, base.changedAt, samples, SampleOf(op, PwrOk));
      assert SteadyLow(Samples(ops, PwrOk), RunStart(all, |samples|));
    } else {
      assert samples == [];
    }
  }
}
