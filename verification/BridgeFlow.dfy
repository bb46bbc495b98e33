/** Conservation and order in the bridge, over every run: nothing is lost, repeated or
    reordered between being accepted and being handed over, in either direction. */
module BridgeFlow {
  import opened Hci
  import opened BridgeModel
  import AclReassembly

  // ------------------------------------------------------- controller to host side

  /** What USB can be given. */
  predicate Handable(p: Packet) {
    p.kind in {Event, Acl}
  }

  /** Accepted = retired ++ queued, and handed to USB = retired ++ the head if in flight. */
  ghost predicate DownSound(d: Down) {
    && d.log.accepted == d.log.retired + d.queue
    && (d.inFlight ==> d.queue != [])
    && d.log.handed == d.log.retired + (if d.inFlight then [d.queue[0]] else [])
    && |d.queue| <= QUEUE_ROOM
    && (forall i :: 0 <= i < |d.queue| ==> Handable(d.queue[i]))
  }

  lemma DownPushSound(d: Down, p: Packet)
    requires DownSound(d) && Handable(p)
    ensures DownSound(DownPush(d, p)) && (d.inFlight <==> DownPush(d, p).inFlight)
  {
    assert d.log.retired + d.queue + [p] == d.log.retired + (d.queue + [p]);
  }

  lemma RetireSound(d: Down)
    requires DownSound(d) && d.inFlight
    ensures DownSound(Retire(d).(inFlight := false, startedMs := 0))
    ensures DownSound(Retire(d).(inFlight := false))
  {
    assert d.queue == [d.queue[0]] + d.queue[1..];
    assert d.log.retired + [d.queue[0]] + d.queue[1..] == d.log.retired + d.queue;
  }

  lemma ExpireSound(d: Down, now: Word32)
    requires DownSound(d)
    ensures DownSound(Expire(d, now))
  {
    if d.inFlight { RetireSound(d); }
  }

  lemma SentSound(d: Down)
    requires DownSound(d)
    ensures DownSound(Sent(d))
  {
    if d.inFlight { RetireSound(d); }
  }

  lemma HandSound(d: Down, usbAccepts: bool, now: Word32)
    requires DownSound(d)
    ensures DownSound(Hand(d, usbAccepts, now))
  {
  }

  // ------------------------------------------------------- host to controller side

  function Successes(attempts: seq<Attempt>): seq<Packet>
    decreases |attempts|
  {
    if attempts == [] then []
    else
      var n := |attempts| - 1;
      if attempts[n].ok then Successes(attempts[..n]) + [attempts[n].packet] else Successes(attempts[..n])
  }

  /** The `k`-th attempt is for the first packet not sent before it. */
  ghost predicate NextInLine(attempts: seq<Attempt>, accepted: seq<Packet>, k: int) {
    && 0 <= k < |attempts|
    && |Successes(attempts[..k])| < |accepted|
    && attempts[k].packet == accepted[|Successes(attempts[..k])|]
  }

  /** What may stand in the queue to the controller: commands other than feature requests,
      and ACL packets as long as their header says. */
  ghost predicate Sendable(p: Packet) {
    || (p.kind == Command && !AsksFeatures(p.data))
    || (p.kind == Acl && AclReassembly.Whole(p.data))
  }

  /** Accepted = sent ++ queued; attempts go in order and each failure is retried. */
  ghost predicate UpSound(u: Up) {
    && u.log.accepted == u.log.sent + u.queue
    && u.log.sent == Successes(u.log.attempts)
    && (forall k :: 0 <= k < |u.log.attempts| ==> NextInLine(u.log.attempts, u.log.accepted, k))
    && (forall i :: 0 <= i < |u.log.accepted| ==> Sendable(u.log.accepted[i]))
    && |u.queue| <= QUEUE_ROOM
    && AclReassembly.Sound(u.partial)
  }

  lemma UpPushSound(u: Up, p: Packet)
    requires UpSound(u) && Sendable(p)
    ensures UpSound(UpPush(u, p)) && UpPush(u, p).partial == u.partial
  {
    if Fits(u.queue, p) {
      assert u.log.sent + u.queue + [p] == u.log.sent + (u.queue + [p]);
      forall k | 0 <= k < |u.log.attempts|
        ensures NextInLine(u.log.attempts, u.log.accepted + [p], k)
      {
        assert NextInLine(u.log.attempts, u.log.accepted, k);
      }
    }
  }

  lemma {:induction false} PushAclsSound(u: Up, packets: seq<seq<Byte>>)
    requires UpSound(u) && AclReassembly.AllWhole(packets)
    ensures UpSound(PushAcls(u, packets)) && PushAcls(u, packets).partial == u.partial
    decreases |packets|
  {
    if packets != [] {
      assert AclReassembly.Whole(packets[0]);
      UpPushSound(u, Packet(Acl, packets[0]));
      PushAclsSound(UpPush(u, Packet(Acl, packets[0])), packets[1..]);
    }
  }

  lemma AclFragmentSound(u: Up, fragment: seq<Byte>)
    requires UpSound(u)
    ensures UpSound(AclFragment(u, fragment))
  {
    AclReassembly.AbsorbWhole(u.partial, fragment);
    PushAclsSound(u, AclReassembly.Absorb(u.partial, fragment).packets);
  }

  lemma TrySound(u: Up, ok: bool)
    requires UpSound(u) && u.queue != []
    ensures UpSound(Try(u, ok))
  {
    var tx, before := u.queue[0], u.log.attempts;
    var attempts := before + [Attempt(tx, ok)];
    assert attempts[..|before|] == before;
    assert u.queue == [tx] + u.queue[1..];
    assert u.log.sent + [tx] + u.queue[1..] == u.log.sent + u.queue;
    forall k | 0 <= k < |attempts| ensures NextInLine(attempts, u.log.accepted, k) {
      if k < |before| {
        assert attempts[..k] == before[..k];
        assert NextInLine(before, u.log.accepted, k);
      }
    }
  }

  // ------------------------------------------------------------------- the bridge

  ghost predicate Sound(b: Bridge) {
    && DownSound(b.down) && UpSound(b.up)
    && (!b.enabled ==> b.down.queue == [] && !b.down.inFlight && b.up.queue == []
                       && b.up.partial == AclReassembly.NONE)
  }

  lemma StartSound()
    ensures Sound(START) && START.life.sent == []
  {
  }

  lemma PushDownSound(b: Bridge, p: Packet)
    requires Sound(b) && b.enabled && Handable(p)
    ensures Sound(PushDown(b, p))
  {
    DownPushSound(b.down, p);
  }

  lemma SendHeadSound(b: Bridge)
    requires Sound(b) && b.enabled && b.up.queue != []
    ensures Sound(SendHead(b)) && SendHead(b).enabled
  {
    var tx := b.up.queue[0];
    TrySound(b.up, true);
    if QuirkOfCommand(tx).Some? {
      DownPushSound(b.down, CommandComplete(Opcode(QuirkOfCommand(tx).value)));
    }
  }

  /** The queue never holds a feature request, so the test in the send loop never fires. */
  lemma HeadIsSendable(b: Bridge)
    requires Sound(b) && b.up.queue != []
    ensures Sendable(b.up.queue[0]) && !HeadAsksFeatures(b)
  {
    var k := |b.up.log.sent|;
    assert b.up.log.accepted[k] == b.up.queue[0];
    assert Sendable(b.up.log.accepted[k]);
  }

  lemma {:induction false} DrainSound(b: Bridge, sends: seq<bool>)
    requires Sound(b) && b.enabled
    ensures Sound(Drain(b, sends)) && Drain(b, sends).enabled
    decreases |b.up.queue|
  {
    if b.up.queue != [] {
      HeadIsSendable(b);
      if sends != [] && sends[0] {
        SendHeadSound(b);
        DrainSound(SendHead(b), sends[1..]);
      } else {
        TrySound(b.up, false);
      }
    }
  }

  lemma StepSound(b: Bridge, op: Op)
    requires Sound(b)
    ensures Sound(Step(b, op))
  {
    match op
    case Enable(on) =>
    case Receive(p) =>
      if b.enabled && Handable(p) {
        PushDownSound(b.(life := b.life.(arrived := b.life.arrived + [p])), p);
      }
    case CommandTransfer(bytes) =>
      if b.enabled { HostCommandSound(b, bytes); }
    case AclTransfer(bytes) =>
      if b.enabled { AclFragmentSound(b.up, bytes); }
    case SentEvent => SentSound(b.down);
    case RunTask(ready, now, sends, usbAccepts, later) =>
      if b.enabled && ready {
        ExpireSound(b.down, now);
        DrainSound(b.(down := Expire(b.down, now)), sends);
        HandSound(Drain(b.(down := Expire(b.down, now)), sends).down, usbAccepts, later);
      }
  }

  lemma HostCommandSound(b: Bridge, bytes: seq<Byte>)
    requires Sound(b) && b.enabled
    ensures Sound(HostCommand(b, bytes))
  {
    var data := Trunc16(bytes);
    if AsksFeatures(data) {
      PushDownSound(b, FeaturesComplete(PageOf(data)));
    } else {
      UpPushSound(b.up, Packet(Command, data));
    }
  }

  /** Only the task sends, and only while enabled; what was sent stays in the log. */
  ghost predicate SendsOnly(b: Bridge, b': Bridge, mayTask: bool) {
    && b'.enabled == b.enabled && b.life.sent <= b'.life.sent
    && (!mayTask || !b.enabled ==> b'.life.sent == b.life.sent)
  }

  lemma {:induction false} DrainSends(b: Bridge, sends: seq<bool>)
    ensures Drain(b, sends).enabled == b.enabled && b.life.sent <= Drain(b, sends).life.sent
    decreases |b.up.queue|
  {
    if b.up.queue != [] {
      if HeadAsksFeatures(b) {
        DrainSends(AnswerHead(b), sends);
      } else if sends != [] && sends[0] {
        DrainSends(SendHead(b), sends[1..]);
      }
    }
  }

  lemma StepSends(b: Bridge, op: Op)
    requires Sound(b) && !op.Enable?
    ensures SendsOnly(b, Step(b, op), op.RunTask?)
  {
    if op.RunTask? {
      DrainSends(b.(down := Expire(b.down, op.now)), op.sends);
    }
  }

  // ----------------------------------------------------------------- main results

  lemma {:induction false} DrainKeepsPartial(b: Bridge, sends: seq<bool>)
    ensures Drain(b, sends).up.partial == b.up.partial
    decreases |b.up.queue|
  {
    if b.up.queue != [] {
      if HeadAsksFeatures(b) {
        DrainKeepsPartial(AnswerHead(b), sends);
      } else if sends != [] && sends[0] {
        DrainKeepsPartial(SendHead(b), sends[1..]);
      }
    }
  }

  lemma StepPartial(b: Bridge, op: Op)
    requires AclReassembly.Sound(b.up.partial)
    ensures AclReassembly.Sound(Step(b, op).up.partial)
  {
    if op.RunTask? {
      DrainKeepsPartial(b.(down := Expire(b.down, op.now)), op.sends);
    }
  }

  /** The bridge after a run from power-up. */
  ghost function Run(ops: seq<Op>): (b: Bridge)
    ensures AclReassembly.Sound(b.up.partial)
    decreases |ops|
  {
    if ops == [] then START
    else
      var before, op := Run(ops[..|ops| - 1]), ops[|ops| - 1];
      StepPartial(before, op);
      Step(before, op)
  }

  /** MAIN: conservation and order in both directions hold after every run. */
  lemma {:induction false} RunSound(ops: seq<Op>)
    ensures Sound(Run(ops))
    decreases |ops|
  {
    if ops != [] {
      RunSound(ops[..|ops| - 1]);
      StepSound(Run(ops[..|ops| - 1]), ops[|ops| - 1]);
    } else {
      StartSound();
    }
  }

  /** MAIN, controller to host: in every run, since the bridge was last disabled, accepted =
      retired ++ queued and handed over = retired ++ (the head iff in flight).  So what is
      handed over is a prefix of what was accepted, each packet once, whatever the
      order of arrivals, timeouts and late or spurious callbacks. */
  lemma HandedInOrder(ops: seq<Op>)
    ensures var d := Run(ops).down;
            && d.log.accepted == d.log.retired + d.queue
            && d.log.handed <= d.log.accepted
            && |d.log.handed| == |d.log.retired| + (if d.inFlight then 1 else 0)
            && (d.inFlight ==> d.queue != [])
  {
    var d := Run(ops).down;
    RunSound(ops);
    assert d.inFlight ==> d.queue == [d.queue[0]] + d.queue[1..];
  }

  /** MAIN, host to controller: in every run, since the bridge was last disabled, the packets
      sent are a prefix of those accepted, each once; every attempt is for the oldest
      packet not yet sent, so a failed one is tried again; no feature request is ever
      sent, and every ACL packet sent has the length its header declares. */
  lemma SentInOrder(ops: seq<Op>)
    ensures var u := Run(ops).up;
            && u.log.sent <= u.log.accepted && u.log.sent == Successes(u.log.attempts)
            && (forall k :: 0 <= k < |u.log.attempts| ==> NextInLine(u.log.attempts, u.log.accepted, k))
            && (forall i :: 0 <= i < |u.log.sent| ==> Sendable(u.log.sent[i]))
  {
    var u := Run(ops).up;
    RunSound(ops);
    forall i | 0 <= i < |u.log.sent| ensures Sendable(u.log.sent[i]) {
      assert u.log.sent[i] == u.log.accepted[i];
    }
  }

  /** MAIN: nothing crosses from one host session to the next: while the bridge is disabled
      both queues and the partial packet are empty. */
  lemma DisabledIsEmpty(ops: seq<Op>)
    requires !Run(ops).enabled
    ensures Run(ops).down.queue == [] && Run(ops).up.queue == [] && !Run(ops).down.inFlight
    ensures Run(ops).up.partial == AclReassembly.NONE
  {
    RunSound(ops);
  }

  // -------------------------------------------------------------------- progress

  /** How many sends succeed before the first that fails, of at most `n`. */
  function Leading(sends: seq<bool>, n: nat): (k: nat)
    ensures k <= n && k <= |sends|
    ensures k == n <==> n <= |sends| && forall i :: 0 <= i < n ==> sends[i]
  {
    if n == 0 || sends == [] || !sends[0] then 0 else 1 + Leading(sends[1..], n - 1)
  }

  lemma SendHeadQueue(b: Bridge)
    requires b.up.queue != []
    ensures SendHead(b).up.queue == b.up.queue[1..] && SendHead(b).life.sent == b.life.sent + [b.up.queue[0]]
  {
  }

  /** The send loop sends exactly as many packets as the transport takes in a row. */
  lemma {:induction false} DrainGoes(b: Bridge, sends: seq<bool>)
    requires Sound(b) && b.enabled
    ensures var k := Leading(sends, |b.up.queue|);
            && Drain(b, sends).up.queue == b.up.queue[k..]
            && Drain(b, sends).life.sent == b.life.sent + b.up.queue[..k]
    decreases |b.up.queue|
  {
    hide SendHead;
    hide HeadAsksFeatures;
    hide Sound;
    if b.up.queue != [] {
      HeadIsSendable(b);
      if sends != [] && sends[0] {
        SendHeadSound(b);
        SendHeadQueue(b);
        DrainGoes(SendHead(b), sends[1..]);
        var rest, k := b.up.queue[1..], Leading(sends[1..], |b.up.queue| - 1);
        assert b.up.queue[k + 1..] == rest[k..];
        assert b.up.queue[..k + 1] == [b.up.queue[0]] + rest[..k];
      }
    }
  }

  /** MAIN, progress: a task call that finds USB ready sends the queue up to the first refusal, so
      all of it exactly if the transport takes that many in a row; afterwards a packet is in
      flight to the host, or none is queued, if USB accepts; and a packet in flight for more
      than a second is given up. */
  lemma TaskProgress(b: Bridge, op: Op)
    requires Sound(b) && b.enabled && op.RunTask? && op.ready
    ensures var b' := Step(b, op);
            && b'.up.queue == b.up.queue[Leading(op.sends, |b.up.queue|)..]
            && (op.usbAccepts ==> b'.down.inFlight || b'.down.queue == [])
            && (b.down.inFlight && Wrap32(op.now - b.down.startedMs) > TX_TIMEOUT_MS
                ==> b'.down.log.retired == b.down.log.retired + [b.down.queue[0]])
  {
    var b1 := b.(down := Expire(b.down, op.now));
    ExpireSound(b.down, op.now);
    assert Sound(b1);
    DrainGoes(b1, op.sends);
    DrainSound(b1, op.sends);
    DrainRetires(b1, op.sends);
    var d := Drain(b1, op.sends).down;
    assert d.queue != [] ==> Handable(d.queue[0]);
    hide Drain;
    hide UpSound;
    hide Leading;
  }

  lemma {:induction false} DrainRetires(b: Bridge, sends: seq<bool>)
    ensures Drain(b, sends).down.log.retired == b.down.log.retired
    decreases |b.up.queue|
  {
    hide AsksFeatures;
    if b.up.queue != [] {
      if HeadAsksFeatures(b) {
        DrainRetires(AnswerHead(b), sends);
      } else if sends != [] && sends[0] {
        DrainRetires(SendHead(b), sends[1..]);
      }
    }
  }

  // -------------------------------------------- ACL packets through to the queue

  function AclPackets(packets: seq<seq<Byte>>): (ps: seq<Packet>)
    ensures |ps| == |packets|
  {
    if packets == [] then [] else [Packet(Acl, packets[0])] + AclPackets(packets[1..])
  }

  /** A series of bulk transfers. */
  function TransferAll(u: Up, fragments: seq<seq<Byte>>): Up
    requires AclReassembly.Sound(u.partial)
    decreases |fragments|
  {
    if fragments == [] then u else TransferAll(AclFragment(u, fragments[0]), fragments[1..])
  }

  lemma {:induction false} PushAclsRoom(u: Up, packets: seq<seq<Byte>>)
    requires AclReassembly.AllWhole(packets) && |u.queue| + |packets| <= QUEUE_ROOM
    ensures PushAcls(u, packets).queue == u.queue + AclPackets(packets)
    decreases |packets|
  {
    if packets != [] {
      var u1 := UpPush(u, Packet(Acl, packets[0]));
      assert AclReassembly.Whole(packets[0]);
      var first, rest := [Packet(Acl, packets[0])], AclPackets(packets[1..]);
      assert PushAcls(u, packets).queue == u.queue + first + rest by { PushAclsRoom(u1, packets[1..]); }
      assert u.queue + first + rest == u.queue + (first + rest);
    }
  }

  lemma {:induction false} PushAclsConcat(u: Up, a: seq<seq<Byte>>, b: seq<seq<Byte>>)
    ensures PushAcls(u, a + b) == PushAcls(PushAcls(u, a), b)
    decreases |a|
  {
    if a == [] {
      assert a + b == b;
    } else {
      assert (a + b)[1..] == a[1..] + b;
      PushAclsConcat(UpPush(u, Packet(Acl, a[0])), a[1..], b);
    }
  }

  lemma {:induction false} PushAclsPartial(u: Up, packets: seq<seq<Byte>>, a: AclReassembly.Partial)
    ensures PushAcls(u.(partial := a), packets) == PushAcls(u, packets).(partial := a)
    decreases |packets|
  {
    if packets != [] {
      PushAclsPartial(UpPush(u, Packet(Acl, packets[0])), packets[1..], a);
    }
  }

  lemma {:induction false} TransferAllAbsorbs(u: Up, fragments: seq<seq<Byte>>)
    requires AclReassembly.Sound(u.partial)
    ensures var o := AclReassembly.AbsorbAll(u.partial, fragments);
            TransferAll(u, fragments) == PushAcls(u, o.packets).(partial := o.partial)
    decreases |fragments|
  {
    if fragments != [] {
      var o := AclReassembly.Absorb(u.partial, fragments[0]);
      var rest := AclReassembly.AbsorbAll(o.partial, fragments[1..]);
      TransferAllAbsorbs(AclFragment(u, fragments[0]), fragments[1..]);
      PushAclsPartial(PushAcls(u, o.packets), rest.packets, o.partial);
      PushAclsConcat(u, o.packets, rest.packets);
    }
  }

  /** MAIN: however the host cuts a batch of ACL packets (no cut inside a header, and room
      in the queue), exactly those packets are queued, in order. */
  lemma AclBatchQueued(u: Up, packets: seq<seq<Byte>>, fragments: seq<seq<Byte>>)
    requires u.partial == AclReassembly.NONE && |u.queue| + |packets| <= QUEUE_ROOM
    requires AclReassembly.AllWhole(packets) && Flatten(fragments) == Flatten(packets)
    requires AclReassembly.HeadersUncut(packets, 0, fragments)
    ensures TransferAll(u, fragments).queue == u.queue + AclPackets(packets)
    ensures TransferAll(u, fragments).partial == AclReassembly.NONE
  {
    AclReassembly.CutDoesNotMatter(packets, fragments);
    TransferAllAbsorbs(u, fragments);
    PushAclsRoom(u, packets);
  }
}
