/** What the power supervisor promises over whole runs about the wake pulses it gives: when
    each was asked for, and how far apart they are. */
module PowerRuns {
  import opened PowerModel

  /** What can happen, each with the time it happens at; a tick ends at `later`. */
  datatype Op =
    | DoTick(pwrOk: bool, usbVbus: bool, now: nat, later: nat)
    | DoRequest(now: nat)
    | DoForce(force: bool, pwrOk: bool, usbVbus: bool, now: nat)

  /** A wake pulse: when it began and ended, when and by which step it was asked for, the latest
      entry to HostOff before it, and whether the override was on at any moment since
      that entry or since the pulse before. */
  datatype Pulse = Pulse(at: nat, end: nat, askedAt: nat, askedBy: nat, offAt: nat,
                         forcedSinceOff: bool, forcedSincePulse: bool)

  /** The supervisor with a stopwatch: how many steps there were, the clock, the time and the
      step of the last accepted request, when the present state and when HostOff was last
      entered, the use of the override since, and all pulses. */
  datatype Watched = Watched(s: Supervisor, steps: nat, clock: nat, askedAt: nat, askedBy: nat,
                             enteredAt: nat, offAt: nat,
                             forcedSinceOff: bool, forcedSincePulse: bool, pulses: seq<Pulse>)

  function Apply(s: Supervisor, op: Op): Supervisor {
    match op
    case DoTick(p, v, now, later) => Tick(s, p, v, now, later)
    case DoRequest(now) => RequestWake(s, now)
    case DoForce(force, p, v, _) => ForceStandby(s, force, p, v)
  }

  predicate EntersOff(s: Supervisor, op: Op) {
    s.state != HostOff && Apply(s, op).state == HostOff
  }

  predicate GivesPulse(s: Supervisor, op: Op) {
    op.DoTick? && Pulses(s)
  }

  predicate Asks(s: Supervisor, op: Op) {
    op.DoRequest? && Wakeable(s, op.now)
  }

  function ThePulse(w: Watched, op: Op): Pulse
    requires op.DoTick?
  {
    Pulse(op.now, op.later, w.askedAt, w.askedBy, w.offAt, w.forcedSinceOff, w.forcedSincePulse)
  }

  function Watch(w: Watched, op: Op): Watched {
    var s' := Apply(w.s, op);
    Watched(s', w.steps + 1,
            if op.DoTick? then op.later else op.now,
            if Asks(w.s, op) then op.now else w.askedAt,
            if Asks(w.s, op) then w.steps else w.askedBy,
            if s'.state != w.s.state then op.now else w.enteredAt,
            if EntersOff(w.s, op) then op.now else w.offAt,
            s'.forced || (w.forcedSinceOff && !EntersOff(w.s, op)),
            s'.forced || (w.forcedSincePulse && !GivesPulse(w.s, op)),
            if GivesPulse(w.s, op) then w.pulses + [ThePulse(w, op)] else w.pulses)
  }

  /** Time does not go back. */
  predicate Timely(w: Watched, op: Op) {
    w.clock <= op.now && (op.DoTick? ==> op.now <= op.later)
  }

  /** How the inputs stood at power-up. */
  datatype PowerUp = PowerUp(pwrOk: bool, usbVbus: bool, at: nat)

  function Start(up: PowerUp): Watched {
    Watched(Boot(up.pwrOk, up.usbVbus, up.at), 0, up.at, 0, 0, up.at, up.at, false, false, [])
  }

  /** The supervisor after a run from power-up. */
  function Run(up: PowerUp, ops: seq<Op>): Watched
    decreases |ops|
  {
    if ops == [] then Start(up) else Watch(Run(up, ops[..|ops| - 1]), ops[|ops| - 1])
  }

  ghost predicate TimelyRun(up: PowerUp, ops: seq<Op>)
    decreases |ops|
  {
    ops == []
    || (TimelyRun(up, ops[..|ops| - 1]) && Timely(Run(up, ops[..|ops| - 1]), ops[|ops| - 1]))
  }

  lemma RunSnoc(up: PowerUp, ops: seq<Op>, op: Op)
    ensures Run(up, ops + [op]) == Watch(Run(up, ops), op)
    ensures TimelyRun(up, ops + [op]) <==> TimelyRun(up, ops) && Timely(Run(up, ops), op)
  {
    assert (ops + [op])[..|ops|] == ops;
  }

  // ------------------------------------------------------------------ good pulses

  /** The pulse was asked for after the PC was last found off, and, unless the override was used
      since, after the arming delay. */
  predicate WellAsked(p: Pulse) {
    && p.offAt <= p.askedAt <= p.at <= p.end
    && (!p.forcedSinceOff ==> p.offAt + 60_000_000 <= p.askedAt)
  }

  /** The next pulse was asked for after the cooldown of ten seconds, and, unless the override was
      used in between, comes 61.5 s later: the PC must be shut down again and stay off. */
  predicate Follows(p: Pulse, next: Pulse) {
    && p.end + 10_000_000 <= next.askedAt
    && (!next.forcedSincePulse ==> p.end + 61_500_000 <= next.at)
  }

  predicate GoodPulse(pulses: seq<Pulse>, i: nat)
    requires i < |pulses|
  {
    WellAsked(pulses[i]) && (i > 0 ==> Follows(pulses[i - 1], pulses[i]))
  }

  ghost predicate WellPaced(pulses: seq<Pulse>) {
    forall i :: 0 <= i < |pulses| ==> GoodPulse(pulses, i)
  }

  lemma WellPacedSnoc(pulses: seq<Pulse>, p: Pulse)
    requires WellPaced(pulses) && WellAsked(p)
    requires pulses != [] ==> Follows(pulses[|pulses| - 1], p)
    ensures WellPaced(pulses + [p])
  {
    forall i | 0 <= i < |pulses| ensures GoodPulse(pulses + [p], i) {
      assert GoodPulse(pulses, i);
    }
  }

  // ------------------------------------------------------------- the invariant

  /** A pending request, or one being acted on, is as late as it must be. */
  predicate Requested(w: Watched) {
    w.s.wakeRequested || w.s.state == WakePulse ==>
      && w.offAt <= w.askedAt <= w.clock && w.s.cooldownUntil <= w.askedAt
      && (!w.forcedSinceOff ==> w.offAt + STANDBY_WAKE_ARM_DELAY <= w.askedAt)
  }

  /** Unless the override was used since, off and standby are armed by the latest entry to off. */
  predicate ArmedByOff(w: Watched) {
    && w.offAt <= w.clock
    && (w.s.state == WakePulse ==> !w.s.wakeRequested)
    && (w.s.state in {HostOff, StandbyHciHost} && !w.forcedSinceOff
        ==> w.s.standbyArmedAt == w.offAt + STANDBY_WAKE_ARM_DELAY)
  }

  predicate IsOff(state: PowerState) {
    state == HostOff || state == StandbyHciHost || state == WakePulse
  }

  /** The earliest the machine can have got where it is, counted from the end of the last pulse
      and with the override off since. */
  predicate PacedSince(w: Watched, end: nat) {
    && end <= w.clock
    && (w.s.state == HostShuttingDown ==> w.s.stateDeadline >= end + SHUTDOWN_DELAY)
    && (w.s.state in {WaitWakeSenseSettle, WaitHostBoot} ==> w.s.stateDeadline >= end + SHUTDOWN_DELAY)
    && (IsOff(w.s.state) ==> w.offAt >= end + SHUTDOWN_DELAY && !w.forcedSinceOff)
  }

  predicate AfterPulse(w: Watched, p: Pulse) {
    && w.s.cooldownUntil == p.end + POST_WAKE_SENSE_SETTLE
    && (w.s.state == WaitWakeSenseSettle ==> w.s.stateDeadline == p.end + POST_WAKE_SENSE_SETTLE)
    && (!w.forcedSincePulse ==> !w.s.forced && PacedSince(w, p.end))
  }

  function LastPulse(w: Watched): Pulse
    requires w.pulses != []
  {
    w.pulses[|w.pulses| - 1]
  }

  ghost predicate Paced(w: Watched) {
    && Requested(w) && ArmedByOff(w)
    && w.s.state != Unknown && w.s.state != Fault
    && (w.s.state == WaitWakeSenseSettle ==> w.pulses != [])
    && (w.pulses != [] ==> AfterPulse(w, LastPulse(w)))
    && WellPaced(w.pulses)
  }

  lemma TickKeepsRequested(w: Watched, op: Op)
    requires Requested(w) && ArmedByOff(w) && Timely(w, op) && op.DoTick?
    ensures Requested(Watch(w, op))
  {
  }

  lemma TickKeepsArmed(w: Watched, op: Op)
    requires ArmedByOff(w) && Timely(w, op) && op.DoTick?
    ensures ArmedByOff(Watch(w, op))
  {
  }

  lemma KeepsRequested(w: Watched, op: Op)
    requires Requested(w) && ArmedByOff(w) && Timely(w, op)
    ensures Requested(Watch(w, op)) && ArmedByOff(Watch(w, op))
  {
    if op.DoTick? {
      TickKeepsRequested(w, op);
      TickKeepsArmed(w, op);
    }
  }

  lemma KeepsRunning(w: Watched, op: Op)
    requires w.s.state != Unknown && w.s.state != Fault
    ensures var state := Watch(w, op).s.state;
            && state != Unknown && state != Fault
            && (state == WaitWakeSenseSettle ==> w.s.state == WaitWakeSenseSettle || GivesPulse(w.s, op))
  {
  }

  lemma TickKeepsAfterPulse(w: Watched, op: Op, p: Pulse)
    requires Timely(w, op) && op.DoTick? && w.s.state !in {Unknown, Fault, WakePulse} && AfterPulse(w, p)
    ensures AfterPulse(Watch(w, op), p)
  {
  }

  lemma KeepsAfterPulse(w: Watched, op: Op)
    requires Timely(w, op) && !GivesPulse(w.s, op) && w.s.state != Unknown && w.s.state != Fault
    requires w.pulses != [] && AfterPulse(w, LastPulse(w))
    ensures AfterPulse(Watch(w, op), LastPulse(w))
  {
    if op.DoTick? {
      TickKeepsAfterPulse(w, op, LastPulse(w));
    }
  }

  lemma PulseFollows(w: Watched, op: Op)
    requires Paced(w) && Timely(w, op) && GivesPulse(w.s, op)
    ensures WellPaced(Watch(w, op).pulses) && AfterPulse(Watch(w, op), ThePulse(w, op))
  {
    WellPacedSnoc(w.pulses, ThePulse(w, op));
  }

  lemma WatchPaced(w: Watched, op: Op)
    requires Paced(w) && Timely(w, op)
    ensures Paced(Watch(w, op))
  {
    hide Apply;
    hide Requested;
    hide ArmedByOff;
    var w' := Watch(w, op);
    assert Requested(w') && ArmedByOff(w') by { KeepsRequested(w, op); }
    KeepsRunning(w, op);
    assert WellPaced(w'.pulses) && (w'.pulses != [] ==> AfterPulse(w', LastPulse(w'))) by {
      if GivesPulse(w.s, op) {
        PulseFollows(w, op);
      } else if w.pulses != [] {
        KeepsAfterPulse(w, op);
      }
    }
  }

  lemma {:induction false} RunPaced(up: PowerUp, ops: seq<Op>)
    requires TimelyRun(up, ops)
    ensures Paced(Run(up, ops))
    decreases |ops|
  {
    if ops != [] {
      RunPaced(up, ops[..|ops| - 1]);
      WatchPaced(Run(up, ops[..|ops| - 1]), ops[|ops| - 1]);
    }
  }

  // ----------------------------------------------------------------- main results

  /** MAIN: in every run, whatever the debug override does, each pulse was asked for after the PC
      was last found off and after the previous pulse had cooled down for ten seconds; a
      pulse comes no sooner than the arming delay after that entry to HostOff unless the
      override was on since, and no sooner than 61.5 s after the previous pulse unless the
      override was on in between. */
  lemma PulsesPaced(up: PowerUp, ops: seq<Op>)
    requires TimelyRun(up, ops)
    ensures WellPaced(Run(up, ops).pulses)
  {
    RunPaced(up, ops);
  }

  /** The step `askedBy` of a run is the request accepted at `askedAt`. */
  predicate AskedIn(ops: seq<Op>, askedBy: nat, askedAt: nat) {
    askedBy < |ops| && ops[askedBy] == DoRequest(askedAt)
  }

  ghost predicate AllAsked(ops: seq<Op>, pulses: seq<Pulse>) {
    forall i :: 0 <= i < |pulses| ==> AskedIn(ops, pulses[i].askedBy, pulses[i].askedAt)
  }

  ghost predicate Accounted(w: Watched, ops: seq<Op>) {
    && w.steps == |ops| && AllAsked(ops, w.pulses)
    && (w.s.wakeRequested || w.s.state == WakePulse ==> AskedIn(ops, w.askedBy, w.askedAt))
  }

  lemma WatchAccounted(w: Watched, ops: seq<Op>, op: Op)
    requires Accounted(w, ops)
    ensures Accounted(Watch(w, op), ops + [op])
  {
    hide Debounce;
    hide HostUp;
    hide Armed;
    hide EntersOff;
    assert forall k, t :: AskedIn(ops, k, t) ==> AskedIn(ops + [op], k, t);
    assert Asks(w.s, op) ==> AskedIn(ops + [op], |ops|, op.now);
  }

  /** MAIN: no pulse comes unasked: each names the step of the run that requested it. */
  lemma {:induction false} PulsesAsked(up: PowerUp, ops: seq<Op>)
    ensures Accounted(Run(up, ops), ops)
    decreases |ops|
  {
    if ops != [] {
      var before, op := ops[..|ops| - 1], ops[|ops| - 1];
      PulsesAsked(up, before);
      WatchAccounted(Run(up, before), before, op);
      assert before + [op] == ops;
    }
  }

  // ------------------------------------------------------------- requests are served

  /** A request accepted but not yet acted on to the end. */
  predicate Pending(w: Watched) {
    || (w.s.state == HostOff && w.s.wakeRequested && Armed(w.s, w.clock))
    || (w.s.state == StandbyHciHost && w.s.wakeRequested)
    || w.s.state == WakePulse
  }

  /** How many ticks a pending request takes at most. */
  function TicksToGo(s: Supervisor): nat {
    match s.state
    case HostOff => 3
    case StandbyHciHost => 2
    case WakePulse => 1
    case _ => 0
  }

  function Ticks(ops: seq<Op>): nat
    decreases |ops|
  {
    if ops == [] then 0 else (if ops[0].DoTick? then 1 else 0) + Ticks(ops[1..])
  }

  predicate SwitchesOverrideOn(op: Op) {
    op.DoForce? && op.force
  }

  lemma AcceptedIsPending(w: Watched, op: Op)
    requires Asks(w.s, op)
    ensures Pending(Watch(w, op))
  {
  }

  /** A pending request comes nearer with each tick, unless it is served or the PC found on. */
  lemma PendingStep(w: Watched, op: Op)
    requires Pending(w) && Timely(w, op) && !SwitchesOverrideOn(op)
    ensures var w' := Watch(w, op);
            || (op.DoTick? && (w'.s.state == HostOnUsbHci || GivesPulse(w.s, op)))
            || (Pending(w') && TicksToGo(w'.s) + (if op.DoTick? then 1 else 0) <= TicksToGo(w.s))
  {
  }

  /** After `j` of the steps `more` the PC was found on, or a pulse was given that had not been. */
  ghost predicate ServedBy(up: PowerUp, ops: seq<Op>, more: seq<Op>, j: nat) {
    j <= |more|
    && (Run(up, ops + more[..j]).s.state == HostOnUsbHci
        || |Run(up, ops + more[..j]).pulses| > |Run(up, ops).pulses|)
  }

  lemma ServedLater(up: PowerUp, ops: seq<Op>, op: Op, rest: seq<Op>, j: nat)
    requires ServedBy(up, ops + [op], rest, j)
    ensures ServedBy(up, ops, [op] + rest, j + 1)
  {
    assert ([op] + rest)[..j + 1] == [op] + rest[..j];
    assert ops + ([op] + rest[..j]) == ops + [op] + rest[..j];
    RunSnoc(up, ops, op);
    hide Run;
    hide Apply;
  }

  lemma ServedNow(up: PowerUp, ops: seq<Op>, op: Op, rest: seq<Op>)
    requires var w' := Watch(Run(up, ops), op);
             w'.s.state == HostOnUsbHci || |w'.pulses| > |Run(up, ops).pulses|
    ensures ServedBy(up, ops, [op] + rest, 1)
  {
    assert ([op] + rest)[..1] == [op];
    RunSnoc(up, ops, op);
    hide Run;
    hide Watch;
  }

  lemma {:induction false} TimelyPrefix(up: PowerUp, ops: seq<Op>, more: seq<Op>)
    requires TimelyRun(up, ops + more)
    ensures TimelyRun(up, ops)
    decreases |more|
  {
    if more == [] {
      assert ops + more == ops;
    } else {
      var n := |more| - 1;
      assert ops + more == (ops + more[..n]) + [more[n]];
      RunSnoc(up, ops + more[..n], more[n]);
      TimelyPrefix(up, ops, more[..n]);
    }
  }

  /** MAIN: no request is lost.  In every run, a request once accepted leads, within three ticks
      (two from standby), to a wake pulse, unless the PC is found on before or the override is
      switched on. */
  lemma {:induction false} RequestsServed(up: PowerUp, ops: seq<Op>, more: seq<Op>)
    requires TimelyRun(up, ops + more) && Pending(Run(up, ops))
    requires Ticks(more) >= TicksToGo(Run(up, ops).s)
    requires forall i :: 0 <= i < |more| ==> !SwitchesOverrideOn(more[i])
    ensures exists j :: ServedBy(up, ops, more, j)
    decreases |more|
  {
    if more != [] {
      var w, op, rest := Run(up, ops), more[0], more[1..];
      assert more == [op] + rest && ops + more == ops + [op] + rest;
      TimelyPrefix(up, ops + [op], rest);
      RunSnoc(up, ops, op);
      PendingStep(w, op);
      hide Run;
      hide TimelyRun;
      var w' := Watch(w, op);
      if op.DoTick? && (w'.s.state == HostOnUsbHci || GivesPulse(w.s, op)) {
        ServedNow(up, ops, op, rest);
      } else {
        hide Pending;
        RequestsServed(up, ops + [op], rest);
        var j: nat :| ServedBy(up, ops + [op], rest, j);
        ServedLater(up, ops, op, rest, j);
      }
    }
  }
}
