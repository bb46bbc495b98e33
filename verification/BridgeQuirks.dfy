/** The quirk accounting over whole runs, across any disabling and enabling in between: how the
    suppress counters relate to what was sent and swallowed, and how many completions
    the host sees. */
module BridgeQuirks {
  import opened Hci
  import opened BridgeModel
  import opened BridgeFlow

  // -------------------------------------------------------------- counting packets

  predicate IsCommand(p: Packet, q: Quirk) {
    QuirkOfCommand(p) == Some(q)
  }

  predicate IsComplete(p: Packet, q: Quirk) {
    QuirkOfComplete(p) == Some(q)
  }

  function CountCommands(ps: seq<Packet>, q: Quirk): nat
    decreases |ps|
  {
    if ps == [] then 0
    else CountCommands(ps[..|ps| - 1], q) + if IsCommand(ps[|ps| - 1], q) then 1 else 0
  }

  function CountCompletes(ps: seq<Packet>, q: Quirk): nat
    decreases |ps|
  {
    if ps == [] then 0
    else CountCompletes(ps[..|ps| - 1], q) + if IsComplete(ps[|ps| - 1], q) then 1 else 0
  }

  lemma CountSnoc(ps: seq<Packet>, p: Packet, q: Quirk)
    ensures CountCommands(ps + [p], q) == CountCommands(ps, q) + if IsCommand(p, q) then 1 else 0
    ensures CountCompletes(ps + [p], q) == CountCompletes(ps, q) + if IsComplete(p, q) then 1 else 0
  {
    assert (ps + [p])[..|ps|] == ps;
  }

  lemma CommandCompleteIs(q: Quirk, r: Quirk)
    ensures IsComplete(CommandComplete(Opcode(q)), r) <==> q == r
  {
  }

  lemma FeaturesCompleteIsNot(page: Byte, q: Quirk)
    ensures !IsComplete(FeaturesComplete(page), q)
  {
  }

  /** Four totals for one quirk: commands sent to the controller, its completions that arrived,
      those swallowed, and those the host's queue was offered and took or refused. */
  datatype Totals = Totals(sent: nat, arrived: nat, swallowed: nat, queued: nat, refused: nat, counter: Byte)
  {
    // What the counter is meant to hold.
    function Owing(): int { sent - swallowed }
    // Completions from the controller passed on towards the host.
    function PassedOn(): int { arrived - swallowed }
  }

  function TotalsOf(b: Bridge, q: Quirk): Totals {
    Totals(CountCommands(b.life.sent, q), CountCompletes(b.life.arrived, q),
           CountCompletes(b.life.suppressed, q), CountCompletes(b.life.queued, q),
           CountCompletes(b.life.refused, q), b.suppress.Get(q))
  }

  // ---------------------------------------------------------- what one step changes

  /** A completion offered to the host's queue. */
  ghost predicate Offered(t: Totals, t': Totals) {
    && t'.queued + t'.refused == t.queued + t.refused + 1 && t'.queued >= t.queued
    && t'.refused >= t.refused
  }

  lemma PushDownTotals(b: Bridge, p: Packet, q: Quirk)
    ensures var t, t' := TotalsOf(b, q), TotalsOf(PushDown(b, p), q);
            && t' == t.(queued := t'.queued, refused := t'.refused)
            && (if IsComplete(p, q) then Offered(t, t') else t' == t)
            && (Fits(b.down.queue, p) ==> t'.refused == t.refused)
  {
    CountSnoc(b.life.queued, p, q);
    CountSnoc(b.life.refused, p, q);
  }

  /** A successful send: the counter goes up unless saturated, and one completion is
      offered to the host. */
  lemma SendHeadTotals(b: Bridge, q: Quirk)
    requires b.up.queue != []
    ensures var t, t' := TotalsOf(b, q), TotalsOf(SendHead(b), q);
            if IsCommand(b.up.queue[0], q) then
              && Offered(t, t') && t'.sent == t.sent + 1 && t'.counter == Saturate(t.counter)
              && t'.arrived == t.arrived && t'.swallowed == t.swallowed
            else t' == t
  {
    var tx := b.up.queue[0];
    var b1 := b.(up := Try(b.up, true), life := b.life.(sent := b.life.sent + [tx]));
    CountSnoc(b.life.sent, tx, q);
    assert TotalsOf(b1, q) == TotalsOf(b, q).(sent := CountCommands(b1.life.sent, q));
    if QuirkOfCommand(tx).Some? {
      AfterSendTotals(b1, tx, QuirkOfCommand(tx).value, q);
    }
  }

  lemma AfterSendTotals(b: Bridge, tx: Packet, r: Quirk, q: Quirk)
    requires QuirkOfCommand(tx) == Some(r)
    ensures var t, t' := TotalsOf(b, q), TotalsOf(AfterSend(b, tx), q);
            if r == q then
              && Offered(t, t') && t'.counter == Saturate(t.counter)
              && t'.sent == t.sent && t'.arrived == t.arrived && t'.swallowed == t.swallowed
            else t' == t
  {
    PushDownTotals(b, CommandComplete(Opcode(r)), q);
    CommandCompleteIs(r, q);
  }

  /** What any step may do to the totals of a quirk, seen from its owing and its counter. */
  ghost predicate Moves(t: Totals, t': Totals) {
    // the counter falls behind only at saturation
    && t'.Owing() - t'.counter >= t.Owing() - t.counter
    && (t'.Owing() - t'.counter > t.Owing() - t.counter ==> t'.counter == 255)
    // an arrival is passed on only when nothing is owed
    && (t'.PassedOn() == t.PassedOn()
        || (t'.PassedOn() == t.PassedOn() + 1 && t.counter == 0 && t'.sent == t.sent))
    && t'.swallowed >= t.swallowed && t'.sent >= t.sent
    // every send and every completion passed on is offered to the host, nothing else
    && t'.queued + t'.refused - t'.sent - t'.PassedOn() == t.queued + t.refused - t.sent - t.PassedOn()
  }

  lemma {:induction false} DrainTotals(b: Bridge, sends: seq<bool>, q: Quirk)
    requires Sound(b) && b.enabled
    ensures Moves(TotalsOf(b, q), TotalsOf(Drain(b, sends), q))
    ensures TotalsOf(Drain(b, sends), q).arrived == TotalsOf(b, q).arrived
    ensures TotalsOf(Drain(b, sends), q).swallowed == TotalsOf(b, q).swallowed
    decreases |b.up.queue|
  {
    if b.up.queue != [] {
      HeadIsSendable(b);
      if sends != [] && sends[0] {
        SendHeadSound(b);
        SendHeadTotals(b, q);
        DrainTotals(SendHead(b), sends[1..], q);
      }
    }
  }

  lemma ReceiveOwed(b: Bridge, p: Packet, q: Quirk)
    requires Owed(b, p)
    ensures Moves(TotalsOf(b, q),
                  TotalsOf(Suppressed(b.(life := b.life.(arrived := b.life.arrived + [p])), p,
                                      QuirkOfComplete(p).value), q))
  {
    CountSnoc(b.life.arrived, p, q);
    CountSnoc(b.life.suppressed, p, q);
  }

  lemma ReceivePassed(b: Bridge, p: Packet, q: Quirk)
    requires !Owed(b, p)
    ensures Moves(TotalsOf(b, q), TotalsOf(PushDown(b.(life := b.life.(arrived := b.life.arrived + [p])), p), q))
  {
    CountSnoc(b.life.arrived, p, q);
    PushDownTotals(b.(life := b.life.(arrived := b.life.arrived + [p])), p, q);
  }

  lemma ReceiveNoise(b: Bridge, p: Packet, q: Quirk)
    requires Noise(p)
    ensures TotalsOf(b.(life := b.life.(arrived := b.life.arrived + [p], noise := b.life.noise + [p])), q)
         == TotalsOf(b, q)
  {
    CountSnoc(b.life.arrived, p, q);
  }

  lemma ReceiveTotals(b: Bridge, p: Packet, q: Quirk)
    ensures Moves(TotalsOf(b, q), TotalsOf(FromController(b, p), q))
  {
    if Owed(b, p) {
      ReceiveOwed(b, p, q);
    } else if Noise(p) {
      ReceiveNoise(b, p, q);
    } else {
      ReceivePassed(b, p, q);
    }
  }

  lemma TaskTotals(b: Bridge, op: Op, q: Quirk)
    requires Sound(b) && op.RunTask?
    ensures Moves(TotalsOf(b, q), TotalsOf(Step(b, op), q))
  {
    hide Drain;
    hide Expire;
    if b.enabled && op.ready {
      var b1 := b.(down := Expire(b.down, op.now));
      ExpireSound(b.down, op.now);
      assert TotalsOf(b1, q) == TotalsOf(b, q);
      DrainTotals(b1, op.sends, q);
    }
  }

  lemma MovesNot(t: Totals)
    ensures Moves(t, t)
  {
  }

  lemma StepTotals(b: Bridge, op: Op, q: Quirk)
    requires Sound(b)
    ensures Moves(TotalsOf(b, q), TotalsOf(Step(b, op), q))
  {
    hide BridgeModel.Task;
    hide FromController;
    hide AclFragment;
    hide Moves;
    hide CountCommands;
    hide CountCompletes;
    hide DownSound;
    MovesNot(TotalsOf(b, q));
    match op
    case Enable(on) => assert TotalsOf(Step(b, op), q) == TotalsOf(b, q);
    case Receive(p) => ReceiveTotals(b, p, q);
    case CommandTransfer(bytes) =>
      var data := Trunc16(bytes);
      PushDownTotals(b, FeaturesComplete(PageOf(data)), q);
      FeaturesCompleteIsNot(PageOf(data), q);
      assert TotalsOf(Step(b, op), q) == TotalsOf(b, q);
    case AclTransfer(bytes) => assert TotalsOf(Step(b, op), q) == TotalsOf(b, q);
    case SentEvent => assert TotalsOf(Step(b, op), q) == TotalsOf(b, q);
    case RunTask(ready, now, sends, usbAccepts, later) => TaskTotals(b, op, q);
  }

  // ----------------------------------------------------------------- main results

  /** The totals at power-up and after each step of a run. */
  ghost function History(ops: seq<Op>, q: Quirk): (hs: seq<Totals>)
    ensures |hs| == |ops| + 1
    decreases |ops|
  {
    if ops == [] then [TotalsOf(START, q)]
    else History(ops[..|ops| - 1], q) + [TotalsOf(Run(ops), q)]
  }

  ghost predicate Link(hs: seq<Totals>, i: nat)
    requires i + 1 < |hs|
  {
    Moves(hs[i], hs[i + 1])
  }

  ghost predicate Chain(hs: seq<Totals>) {
    && hs != [] && hs[0] == Totals(0, 0, 0, 0, 0, 0)
    && forall i :: 0 <= i < |hs| - 1 ==> Link(hs, i)
  }

  lemma HistoryLast(ops: seq<Op>, q: Quirk)
    ensures History(ops, q)[|ops|] == TotalsOf(Run(ops), q)
  {
  }

  lemma LastStep(ops: seq<Op>, q: Quirk)
    requires ops != []
    ensures Moves(TotalsOf(Run(ops[..|ops| - 1]), q), TotalsOf(Run(ops), q))
  {
    RunSound(ops[..|ops| - 1]);
    StepTotals(Run(ops[..|ops| - 1]), ops[|ops| - 1], q);
  }

  lemma {:induction false} HistoryChain(ops: seq<Op>, q: Quirk)
    ensures Chain(History(ops, q))
    decreases |ops|
  {
    if ops != [] {
      var before := ops[..|ops| - 1];
      HistoryChain(before, q);
      HistoryLast(before, q);
      LastStep(ops, q);
      ChainSnoc(History(before, q), TotalsOf(Run(ops), q));
    }
  }

  lemma ChainSnoc(hs: seq<Totals>, t: Totals)
    requires Chain(hs) && Moves(hs[|hs| - 1], t)
    ensures Chain(hs + [t])
  {
    forall i | 0 <= i < |hs| ensures Link(hs + [t], i) {
      assert i < |hs| - 1 ==> Link(hs, i);
    }
  }

  /** At no point are more than 255 completions owing. */
  ghost predicate NeverOver255(hs: seq<Totals>) {
    forall k :: 0 <= k < |hs| ==> hs[k].Owing() <= 255
  }

  /** At no point has the controller completed more than it was sent. */
  ghost predicate NeverUnasked(hs: seq<Totals>) {
    forall k :: 0 <= k < |hs| ==> hs[k].arrived <= hs[k].sent
  }

  lemma ChainStart(hs: seq<Totals>)
    requires Chain(hs)
    ensures hs[0] == Totals(0, 0, 0, 0, 0, 0)
  {
  }

  lemma ChainAt(hs: seq<Totals>, i: nat)
    requires Chain(hs) && i + 1 < |hs|
    ensures Moves(hs[i], hs[i + 1])
  {
    assert Link(hs, i);
  }

  lemma BoundsAt(hs: seq<Totals>, k: nat)
    requires k < |hs|
    ensures NeverOver255(hs) ==> hs[k].Owing() <= 255
    ensures NeverUnasked(hs) ==> hs[k].arrived <= hs[k].sent
  {
  }

  lemma {:induction false} GapGrows(hs: seq<Totals>, j: nat, k: nat)
    requires Chain(hs) && j <= k < |hs|
    ensures 0 <= hs[j].Owing() - hs[j].counter <= hs[k].Owing() - hs[k].counter
    decreases k
  {
    hide Chain;
    hide NeverOver255;
    hide NeverUnasked;
    ChainStart(hs);
    if k > 0 {
      GapGrows(hs, if j < k then j else k - 1, k - 1);
      ChainAt(hs, k - 1);
    }
  }

  lemma {:induction false} BoundedHasNoGap(hs: seq<Totals>, k: nat)
    requires Chain(hs) && NeverOver255(hs) && k < |hs|
    ensures hs[k].Owing() == hs[k].counter
  {
    hide Chain;
    hide NeverOver255;
    ChainStart(hs);
    if k > 0 {
      BoundedHasNoGap(hs, k - 1);
      ChainAt(hs, k - 1);
      BoundsAt(hs, k);
    }
  }

  lemma {:induction false} BoundedPassesNone(hs: seq<Totals>, k: nat)
    requires Chain(hs) && NeverOver255(hs) && NeverUnasked(hs) && k < |hs|
    ensures hs[k].PassedOn() == 0
  {
    hide Chain;
    hide NeverOver255;
    hide NeverUnasked;
    ChainStart(hs);
    if k > 0 {
      BoundedPassesNone(hs, k - 1);
      BoundedHasNoGap(hs, k - 1);
      ChainAt(hs, k - 1);
      BoundsAt(hs, k);
    }
  }

  lemma {:induction false} PassedOnGrows(hs: seq<Totals>, j: nat, k: nat)
    requires Chain(hs) && j <= k < |hs|
    ensures 0 <= hs[j].PassedOn() <= hs[k].PassedOn()
    decreases k
  {
    hide Chain;
    hide NeverOver255;
    hide NeverUnasked;
    ChainStart(hs);
    if k > 0 {
      PassedOnGrows(hs, if j < k then j else k - 1, k - 1);
      ChainAt(hs, k - 1);
    }
  }

  lemma NonePassedIffNeverUnasked(hs: seq<Totals>)
    requires Chain(hs) && NeverOver255(hs)
    ensures hs[|hs| - 1].PassedOn() == 0 <==> NeverUnasked(hs)
  {
    var n := |hs| - 1;
    if NeverUnasked(hs) {
      BoundedPassesNone(hs, n);
    }
    if hs[n].PassedOn() == 0 {
      forall k | 0 <= k < |hs| ensures hs[k].arrived <= hs[k].sent {
        PassedOnGrows(hs, k, n);
        BoundedHasNoGap(hs, k);
      }
    }
  }

  lemma {:induction false} OfferedOnce(hs: seq<Totals>, k: nat)
    requires Chain(hs) && k < |hs|
    ensures hs[k].queued + hs[k].refused == hs[k].sent + hs[k].PassedOn()
  {
    hide Chain;
    hide NeverOver255;
    hide NeverUnasked;
    ChainStart(hs);
    if k > 0 {
      OfferedOnce(hs, k - 1);
      ChainAt(hs, k - 1);
    }
  }

  /** MAIN: in every run, for each of the four commands, the suppress counter is the number of
      successful sends less the completions swallowed, exactly when that difference never
      went over 255 (past which the counter has saturated and stays behind for good). */
  lemma CounterIsOwing(ops: seq<Op>, q: Quirk)
    ensures var t := TotalsOf(Run(ops), q);
            t.counter == t.Owing() <==> NeverOver255(History(ops, q))
  {
    var hs := History(ops, q);
    HistoryChain(ops, q);
    HistoryLast(ops, q);
    NoGapIffBounded(hs);
  }

  lemma NoGapIffBounded(hs: seq<Totals>)
    requires Chain(hs)
    ensures var t := hs[|hs| - 1]; t.counter == t.Owing() <==> NeverOver255(hs)
  {
    if NeverOver255(hs) {
      BoundedHasNoGap(hs, |hs| - 1);
    }
    if hs[|hs| - 1].counter == hs[|hs| - 1].Owing() {
      forall k | 0 <= k < |hs| ensures hs[k].Owing() <= 255 {
        GapGrows(hs, k, |hs| - 1);
      }
    }
  }

  /** MAIN: in every run, every successful send and every completion the bridge passes on is
      offered to the host's queue once.  While no more than 255 are owing, none of the
      controller's own completions is passed on exactly if it never completed more than it
      was sent; then the host gets one completion per send, less those a full queue refused. */
  lemma OneCompletePerSend(ops: seq<Op>, q: Quirk)
    ensures var t := TotalsOf(Run(ops), q);
            && t.queued + t.refused == t.sent + t.PassedOn()
            && (NeverOver255(History(ops, q)) ==> (t.PassedOn() == 0 <==> NeverUnasked(History(ops, q))))
  {
    var hs := History(ops, q);
    HistoryChain(ops, q);
    HistoryLast(ops, q);
    OfferedOnce(hs, |ops|);
    if NeverOver255(hs) {
      NonePassedIffNeverUnasked(hs);
    }
  }
}
