/** The bridge told without its own functions: from the operations of a run alone, byte by byte, what
    becomes of every packet that reaches it from either side. */
module BridgeHistory {
  import opened Hci
  import opened BridgeModel
  import opened BridgeFlow
  import AclReassembly

  // --------------------------------------------------------------------- the bytes

  function CodeAt(low: Byte, high: Byte): nat {
    low + 256 * high
  }

  /** Write Simple Pairing Mode, LE Set Random Address, LE Set Scan Parameters and LE Set Scan
      Enable. */
  function QuirkOfCode(code: nat): Option<Quirk> {
    if code == 0x0c56 then Some(PairingMode)
    else if code == 0x2005 then Some(RandomAddress)
    else if code == 0x200b then Some(ScanParameters)
    else if code == 0x200c then Some(ScanEnable)
    else None
  }

  /** Read Local Extended Features. */
  predicate RequestsFeatures(d: seq<Byte>) {
    |d| >= 3 && d[0] == 0x04 && d[1] == 0x10
  }

  function FeaturesReply(d: seq<Byte>): Packet {
    var page := if |d| >= 4 then d[3] else 0;
    Packet(Event, [0x0e, 14, 1, 0x04, 0x10, 0, page, 0, 0, 0, 0, 0, 0, 0, 0, 0])
  }

  /** The quirk of a command sent. */
  function SentQuirk(p: Packet): (q: Option<Quirk>)
    ensures q.Some? ==> |p.data| >= 3
  {
    if p.kind == Command && |p.data| >= 3 then QuirkOfCode(CodeAt(p.data[0], p.data[1])) else None
  }

  /** Its made-up completion: status 0 for the command's own opcode. */
  function MadeUp(p: Packet): Packet
    requires |p.data| >= 3
  {
    Packet(Event, [0x0e, 4, 1, p.data[0], p.data[1], 0])
  }

  predicate HasRoom(queue: seq<Packet>, p: Packet) {
    |p.data| <= 2048 && |queue| < 31
  }

  /** What becomes of a packet on its way to the host. */
  datatype Fate = Swallowed | Dropped | Refused | Queued

  /** The quirk whose completion this is. */
  function CompletedQuirk(p: Packet): Option<Quirk> {
    var d := p.data;
    if p.kind == Event && |d| >= 6 && d[0] == 0x0e then QuirkOfCode(CodeAt(d[3], d[4])) else None
  }

  predicate Chatty(p: Packet) {
    p.kind == Event && |p.data| >= 2 && p.data[0] == 0xff && p.data[1] >= 64
  }

  /** Swallowed as long as its quirk is owed one, or dropped as noise, or for the host's queue. */
  function FateOf(owed: Counters, queue: seq<Packet>, p: Packet): Fate {
    if CompletedQuirk(p).Some? && owed.Get(CompletedQuirk(p).value) > 0 then Swallowed
    else if Chatty(p) then Dropped
    else QueueFate(queue, p)
  }

  function QueueFate(queue: seq<Packet>, p: Packet): Fate {
    if HasRoom(queue, p) then Queued else Refused
  }

  lemma BytesAgree(p: Packet)
    ensures AsksFeatures(p.data) <==> RequestsFeatures(p.data)
    ensures FeaturesComplete(PageOf(p.data)) == FeaturesReply(p.data)
    ensures QuirkOfCommand(p) == SentQuirk(p)
    ensures SentQuirk(p).Some? ==> CommandComplete(Opcode(SentQuirk(p).value)) == MadeUp(p)
    ensures QuirkOfComplete(p) == CompletedQuirk(p) && (Noise(p) <==> Chatty(p))
  {
  }

  // ------------------------------------------------------------ the way to the host

  /** One packet on its way to the host: from the controller or made up here. */
  datatype Entry = Entry(packet: Packet, made: bool, fate: Fate)

  /** The packets of one fate. */
  function Pick(es: seq<Entry>, fate: Fate): seq<Packet>
    decreases |es|
  {
    if es == [] then []
    else
      var n := |es| - 1;
      Pick(es[..n], fate) + if es[n].fate == fate then [es[n].packet] else []
  }

  /** The packets that came from the controller. */
  function Arrivals(es: seq<Entry>): seq<Packet>
    decreases |es|
  {
    if es == [] then []
    else
      var n := |es| - 1;
      Arrivals(es[..n]) + if es[n].made then [] else [es[n].packet]
  }

  lemma {:induction false} PickConcat(a: seq<Entry>, b: seq<Entry>, fate: Fate)
    ensures Pick(a + b, fate) == Pick(a, fate) + Pick(b, fate)
    decreases |b|
  {
    if b == [] {
      assert a + b == a;
    } else {
      var n := |b| - 1;
      PickConcat(a, b[..n], fate);
      assert (a + b)[..|a + b| - 1] == a + b[..n] && (a + b)[|a + b| - 1] == b[n];
    }
  }

  lemma {:induction false} ArrivalsConcat(a: seq<Entry>, b: seq<Entry>)
    ensures Arrivals(a + b) == Arrivals(a) + Arrivals(b)
    decreases |b|
  {
    if b == [] {
      assert a + b == a;
    } else {
      var n := |b| - 1;
      ArrivalsConcat(a, b[..n]);
      assert (a + b)[..|a + b| - 1] == a + b[..n] && (a + b)[|a + b| - 1] == b[n];
    }
  }

  lemma OneEntry(e: Entry)
    ensures forall f :: Pick([e], f) == if e.fate == f then [e.packet] else []
    ensures Arrivals([e]) == if e.made then [] else [e.packet]
  {
    assert [e][..0] == [];
  }

  /** The completions that a task call makes up while it sends `queue`, the host's queue being at
      `host`. */
  function MadeBy(queue: seq<Packet>, host: seq<Packet>, sends: seq<bool>): seq<Entry>
    decreases |queue|
  {
    if queue == [] || sends == [] || !sends[0] then []
    else if SentQuirk(queue[0]).None? then MadeBy(queue[1..], host, sends[1..])
    else
      var p := MadeUp(queue[0]);
      [Entry(p, true, QueueFate(host, p))]
      + MadeBy(queue[1..], if HasRoom(host, p) then host + [p] else host, sends[1..])
  }

  /** A packet has been in flight for more than a second. */
  predicate Overdue(d: Down, now: Word32) {
    d.inFlight && (now - d.startedMs) % 0x1_0000_0000 > 1000
  }

  /** The host's queue when a task call starts to send. */
  function HostQueue(d: Down, now: Word32): seq<Packet> {
    if Overdue(d, now) && d.queue != [] then d.queue[1..] else d.queue
  }

  /** What one operation brings on its way to the host. */
  function EntriesOf(b: Bridge, op: Op): seq<Entry> {
    if !b.enabled then []
    else
      match op
      case Receive(p) =>
        if p.kind == Event || p.kind == Acl then [Entry(p, false, FateOf(b.suppress, b.down.queue, p))] else []
      case CommandTransfer(bytes) =>
        var d := Cut(bytes);
        if RequestsFeatures(d) then [Entry(FeaturesReply(d), true, QueueFate(b.down.queue, FeaturesReply(d)))] else []
      case RunTask(ready, now, sends, _, _) =>
        if ready then MadeBy(b.up.queue, HostQueue(b.down, now), sends) else []
      case _ => []
  }

  /** The length of a transfer is cut to 16 bits. */
  function Cut(bytes: seq<Byte>): seq<Byte> {
    bytes[..|bytes| % 0x1_0000]
  }

  /** The logs move by exactly these entries. */
  ghost predicate Books(b: Bridge, b': Bridge, es: seq<Entry>) {
    && b'.life.arrived == b.life.arrived + Arrivals(es)
    && b'.life.suppressed == b.life.suppressed + Pick(es, Swallowed)
    && b'.life.noise == b.life.noise + Pick(es, Dropped)
    && b'.life.refused == b.life.refused + Pick(es, Refused)
    && b'.life.queued == b.life.queued + Pick(es, Queued)
    && b'.down.log.accepted == b.down.log.accepted + Pick(es, Queued)
  }

  lemma BooksNone(b: Bridge, b': Bridge)
    requires b'.life == b.life.(sent := b'.life.sent) && b'.down.log.accepted == b.down.log.accepted
    ensures Books(b, b', [])
  {
  }

  lemma BooksThen(b: Bridge, b1: Bridge, b2: Bridge, es: seq<Entry>, fs: seq<Entry>)
    requires Books(b, b1, es) && Books(b1, b2, fs)
    ensures Books(b, b2, es + fs)
  {
    hide Pick;
    hide Arrivals;
    ArrivalsConcat(es, fs);
    PickConcat(es, fs, Swallowed);
    PickConcat(es, fs, Dropped);
    PickConcat(es, fs, Refused);
    PickConcat(es, fs, Queued);
  }

  lemma BooksPush(b: Bridge, p: Packet)
    ensures Books(b, PushDown(b, p), [Entry(p, true, QueueFate(b.down.queue, p))])
    ensures PushDown(b, p).up == b.up
    ensures PushDown(b, p).down.queue == b.down.queue + if HasRoom(b.down.queue, p) then [p] else []
  {
    OneEntry(Entry(p, true, QueueFate(b.down.queue, p)));
    hide Pick;
    hide Arrivals;
  }

  lemma BooksReceive(b: Bridge, p: Packet)
    requires b.enabled && p.kind in {Event, Acl}
    ensures Books(b, FromController(b, p), [Entry(p, false, FateOf(b.suppress, b.down.queue, p))])
  {
    hide Pick;
    hide Arrivals;
    hide QuirkOfComplete;
    hide CompletedQuirk;
    hide Noise;
    hide Chatty;
    BytesAgree(p);
    OneEntry(Entry(p, false, FateOf(b.suppress, b.down.queue, p)));
  }

  lemma BooksSend(b: Bridge)
    requires b.up.queue != []
    ensures var tx, b' := b.up.queue[0], SendHead(b);
            && b'.up.queue == b.up.queue[1..]
            && (if SentQuirk(tx).None? then Books(b, b', []) && b'.down.queue == b.down.queue
                else && Books(b, b', [Entry(MadeUp(tx), true, QueueFate(b.down.queue, MadeUp(tx)))])
                     && b'.down.queue == if HasRoom(b.down.queue, MadeUp(tx)) then b.down.queue + [MadeUp(tx)]
                                         else b.down.queue)
  {
    hide Pick;
    hide Arrivals;
    hide QuirkOfCommand;
    hide SentQuirk;
    hide MadeUp;
    hide CommandComplete;
    hide HasRoom;
    hide PushDown;
    var tx := b.up.queue[0];
    var b1 := b.(up := Try(b.up, true), life := b.life.(sent := b.life.sent + [tx]));
    BytesAgree(tx);
    if SentQuirk(tx).None? {
      BooksNone(b, SendHead(b));
    } else {
      BooksPush(b1, MadeUp(tx));
    }
  }

  lemma {:induction false} BooksDrain(b: Bridge, sends: seq<bool>)
    requires Sound(b) && b.enabled
    ensures Books(b, Drain(b, sends), MadeBy(b.up.queue, b.down.queue, sends))
    decreases |b.up.queue|
  {
    hide Sound;
    hide Books;
    hide SendHead;
    hide SentQuirk;
    hide MadeUp;
    hide HasRoom;
    hide HeadAsksFeatures;
    if b.up.queue == [] {
      BooksNone(b, b);
    } else {
      HeadIsSendable(b);
      if sends == [] || !sends[0] {
        BooksNone(b, Drain(b, sends));
      } else {
        BooksSend(b);
        SendHeadSound(b);
        BooksDrain(SendHead(b), sends[1..]);
        var tx := b.up.queue[0];
        var es := if SentQuirk(tx).None? then [] else [Entry(MadeUp(tx), true, QueueFate(b.down.queue, MadeUp(tx)))];
        var fs := MadeBy(SendHead(b).up.queue, SendHead(b).down.queue, sends[1..]);
        BooksThen(b, SendHead(b), Drain(b, sends), es, fs);
        assert [] + fs == fs;
      }
    }
  }

  lemma BooksCommand(b: Bridge, bytes: seq<Byte>)
    requires b.enabled
    ensures Books(b, HostCommand(b, bytes), EntriesOf(b, CommandTransfer(bytes)))
  {
    hide Pick;
    hide Arrivals;
    hide PushDown;
    hide FeaturesComplete;
    hide FeaturesReply;
    hide AsksFeatures;
    hide RequestsFeatures;
    var d := Cut(bytes);
    BytesAgree(Packet(Command, d));
    if RequestsFeatures(d) {
      BooksPush(b, FeaturesReply(d));
    } else {
      BooksNone(b, HostCommand(b, bytes));
    }
  }

  lemma BooksTask(b: Bridge, op: Op)
    requires Sound(b) && b.enabled && op.RunTask? && op.ready
    ensures Books(b, Step(b, op), MadeBy(b.up.queue, HostQueue(b.down, op.now), op.sends))
  {
    hide Pick;
    hide Arrivals;
    hide Drain;
    hide MadeBy;
    hide UpSound;
    var b1 := b.(down := Expire(b.down, op.now));
    ExpireSound(b.down, op.now);
    assert Sound(b1);
    BooksDrain(b1, op.sends);
    hide DownSound;
  }

  /** What brings no packet on its way to the host. */
  predicate Idle(b: Bridge, op: Op) {
    match op
    case Enable(on) => on
    case Receive(p) => !b.enabled || (p.kind != Event && p.kind != Acl)
    case CommandTransfer(_) => !b.enabled
    case AclTransfer(_) => true
    case SentEvent => true
    case RunTask(ready, _, _, _, _) => !b.enabled || !ready
  }

  lemma BooksIdle(b: Bridge, op: Op)
    requires Sound(b) && Idle(b, op)
    ensures Books(b, Step(b, op), []) && EntriesOf(b, op) == []
  {
    hide PushAcls;
    hide Drain;
    hide HasRoom;
    hide RequestsFeatures;
    hide Pick;
    hide Arrivals;
    BooksNone(b, Step(b, op));
  }

  /** Each operation but disabling moves the logs by exactly its entries. */
  lemma StepBooks(b: Bridge, op: Op)
    requires Sound(b) && op != Enable(false)
    ensures Books(b, Step(b, op), EntriesOf(b, op))
  {
    hide Pick;
    hide Arrivals;
    hide Sound;
    hide BridgeModel.Task;
    hide Books;
    hide FateOf;
    hide PushAcls;
    hide FromController;
    hide HostCommand;
    if Idle(b, op) {
      BooksIdle(b, op);
    } else {
      match op
      case RunTask(_, _, _, _, _) => BooksTask(b, op);
      case CommandTransfer(bytes) => BooksCommand(b, bytes);
      case Receive(p) => BooksReceive(b, p);
      case Enable(_) =>
    }
  }

  // ------------------------------------------------------------- the packet in flight

  /** The task call is one that does something. */
  predicate Works(b: Bridge, op: Op) {
    op.RunTask? && b.enabled && op.ready
  }

  /** The operation retires the packet in flight: its sent-callback, or a task call once it has been
      in flight for more than a second. */
  predicate GivesUp(b: Bridge, op: Op) {
    b.down.inFlight && (op.SentEvent? || (Works(b, op) && Overdue(b.down, op.now)))
  }

  /** The head of the queue, once nothing is in flight, is handed over if USB accepts it. */
  predicate HandsOver(b: Bridge, op: Op, queue: seq<Packet>) {
    Works(b, op) && op.usbAccepts && queue != [] && (!b.down.inFlight || Overdue(b.down, op.now))
  }

  function First(queue: seq<Packet>): seq<Packet> {
    if queue == [] then [] else [queue[0]]
  }

  ghost predicate Moved(d: Down, d': Down, retires: bool, hands: bool) {
    && d'.log.retired == d.log.retired + (if retires then First(d.queue) else [])
    && d'.log.handed == d.log.handed + (if hands then First(d'.queue) else [])
  }

  lemma {:induction false} DrainFlight(b: Bridge, sends: seq<bool>)
    ensures var d, d' := b.down, Drain(b, sends).down;
            d' == d.(queue := d'.queue, log := d.log.(accepted := d'.log.accepted))
    decreases |b.up.queue|
  {
    hide AsksFeatures;
    hide QuirkOfCommand;
    hide Fits;
    if b.up.queue != [] {
      if HeadAsksFeatures(b) {
        DrainFlight(AnswerHead(b), sends);
      } else if sends != [] && sends[0] {
        DrainFlight(SendHead(b), sends[1..]);
      }
    }
  }

  lemma TaskFlight(b: Bridge, op: Op)
    requires Sound(b) && Works(b, op)
    ensures var d, d' := b.down, Step(b, op).down;
            var hands := HandsOver(b, op, d'.queue);
            && Moved(d, d', GivesUp(b, op), hands)
            && d'.inFlight == (hands || (d.inFlight && !Overdue(d, op.now)))
            && d'.startedMs == if hands then op.later else d.startedMs
  {
    hide Drain;
    hide UpSound;
    var b1 := b.(down := Expire(b.down, op.now));
    ExpireSound(b.down, op.now);
    assert Sound(b1);
    DrainSound(b1, op.sends);
    DrainFlight(b1, op.sends);
    var d := Drain(b1, op.sends).down;
    assert d.queue != [] ==> Handable(d.queue[0]);
  }

  /** MAIN: one step of the packet in flight, from any sound state: retired by its sent-callback or
      after more than a second, and by nothing else; a task call with USB willing then hands
      over the oldest packet left and starts its clock; disabling forgets everything. */
  lemma StepFlight(b: Bridge, op: Op)
    requires Sound(b)
    ensures var d, d' := b.down, Step(b, op).down;
            var hands := HandsOver(b, op, d'.queue);
            if op == Enable(false) then
              !d'.inFlight && d'.queue == [] && d'.log.accepted == d'.log.retired == d'.log.handed == []
            else
              && Moved(d, d', GivesUp(b, op), hands)
              && d'.inFlight == (hands || (d.inFlight && !GivesUp(b, op)))
              && (d'.inFlight ==> d'.startedMs == if hands then op.later else d.startedMs)
  {
    hide Drain;
    hide UpSound;
    hide PushAcls;
    hide QuirkOfComplete;
    hide Noise;
    hide AsksFeatures;
    if Works(b, op) {
      TaskFlight(b, op);
    } else {
      var d := b.down;
      assert d.log.retired + [] == d.log.retired && d.log.handed + [] == d.log.handed;
    }
  }

  // -------------------------------------------------------------- to the controller

  /** The whole ACL packets that a transfer completes. */
  function Completed(b: Bridge, bytes: seq<Byte>): seq<seq<Byte>>
    requires AclReassembly.Sound(b.up.partial)
  {
    AclReassembly.Absorb(b.up.partial, bytes).packets
  }

  /** As many of the packets as a queue of `n` takes. */
  function ThatFit(n: nat, packets: seq<seq<Byte>>): seq<Packet>
    decreases |packets|
  {
    if packets == [] || n >= 31 then [] else [Packet(Acl, packets[0])] + ThatFit(n + 1, packets[1..])
  }

  /** What one operation puts in the queue to the controller. */
  function AcceptedBy(b: Bridge, op: Op): seq<Packet>
    requires AclReassembly.Sound(b.up.partial)
  {
    if !b.enabled then []
    else
      match op
      case CommandTransfer(bytes) =>
        var p := Packet(Command, Cut(bytes));
        if RequestsFeatures(p.data) || !HasRoom(b.up.queue, p) then [] else [p]
      case AclTransfer(bytes) => ThatFit(|b.up.queue|, Completed(b, bytes))
      case _ => []
  }

  /** What a task call tries to send: the queue, up to the first refusal. */
  function Tried(queue: seq<Packet>, sends: seq<bool>): seq<Attempt>
    decreases |queue|
  {
    if queue == [] then []
    else if sends == [] || !sends[0] then [Attempt(queue[0], false)]
    else [Attempt(queue[0], true)] + Tried(queue[1..], sends[1..])
  }

  function TriedBy(b: Bridge, op: Op): seq<Attempt> {
    if Works(b, op) then Tried(b.up.queue, op.sends) else []
  }

  lemma {:induction false} PushAclsAre(u: Up, packets: seq<seq<Byte>>)
    requires AclReassembly.AllWhole(packets)
    ensures var u', more := PushAcls(u, packets), ThatFit(|u.queue|, packets);
            u' == u.(queue := u'.queue, log := u.log.(accepted := u'.log.accepted))
            && u'.log.accepted == u.log.accepted + more
    decreases |packets|
  {
    hide AclReassembly.Whole;
    if packets != [] {
      var p := Packet(Acl, packets[0]);
      WholeFits(packets[0]);
      PushAclsAre(UpPush(u, p), packets[1..]);
      if |u.queue| < 31 {
        AppendOne(u.log.accepted, p, ThatFit(|u.queue| + 1, packets[1..]));
      } else {
        assert ThatFit(|u.queue|, packets[1..]) == [];
      }
    }
  }

  lemma AppendOne(s: seq<Packet>, p: Packet, t: seq<Packet>)
    ensures s + [p] + t == s + ([p] + t)
  {
  }

  lemma WholeFits(p: seq<Byte>)
    requires AclReassembly.Whole(p)
    ensures |p| <= 2048
  {
  }

  lemma {:induction false} DrainTries(b: Bridge, sends: seq<bool>)
    requires Sound(b) && b.enabled
    ensures var u, u' := b.up, Drain(b, sends).up;
            && u'.log.accepted == u.log.accepted && u'.partial == u.partial
            && u'.log.attempts == u.log.attempts + Tried(u.queue, sends)
    decreases |b.up.queue|
  {
    hide Sound;
    hide QuirkOfCommand;
    hide Fits;
    hide HeadAsksFeatures;
    if b.up.queue != [] {
      HeadIsSendable(b);
      if sends != [] && sends[0] {
        SendHeadSound(b);
        DrainTries(SendHead(b), sends[1..]);
        var tx := [Attempt(b.up.queue[0], true)];
        assert b.up.log.attempts + tx + Tried(b.up.queue[1..], sends[1..])
            == b.up.log.attempts + (tx + Tried(b.up.queue[1..], sends[1..]));
      }
    }
  }

  ghost predicate Queues(u: Up, u': Up, accepted: seq<Packet>, tried: seq<Attempt>) {
    && u'.log.accepted == u.log.accepted + accepted
    && u'.log.attempts == u.log.attempts + tried
  }

  lemma UpNone(u: Up, u': Up)
    requires u'.log == u.log
    ensures Queues(u, u', [], [])
  {
  }

  lemma UpCommand(b: Bridge, bytes: seq<Byte>)
    requires b.enabled && AclReassembly.Sound(b.up.partial)
    ensures var u' := HostCommand(b, bytes).up;
            && Queues(b.up, u', AcceptedBy(b, CommandTransfer(bytes)), [])
            && u'.partial == b.up.partial
  {
    hide AsksFeatures;
    hide RequestsFeatures;
    hide PageOf;
    BytesAgree(Packet(Command, Cut(bytes)));
  }

  lemma UpAcl(b: Bridge, bytes: seq<Byte>)
    requires b.enabled && AclReassembly.Sound(b.up.partial)
    ensures var u' := HostAcl(b, bytes).up;
            && Queues(b.up, u', AcceptedBy(b, AclTransfer(bytes)), [])
            && u'.partial == AclReassembly.Absorb(b.up.partial, bytes).partial
  {
    hide AclReassembly.Sound;
    hide AclReassembly.Absorb;
    hide PushAcls;
    hide ThatFit;
    AclReassembly.AbsorbWhole(b.up.partial, bytes);
    PushAclsAre(b.up, Completed(b, bytes));
  }

  lemma UpTask(b: Bridge, op: Op)
    requires Sound(b) && Works(b, op)
    ensures var u' := Step(b, op).up;
            && Queues(b.up, u', [], Tried(b.up.queue, op.sends)) && u'.partial == b.up.partial
  {
    hide Drain;
    hide UpSound;
    var b1 := b.(down := Expire(b.down, op.now));
    ExpireSound(b.down, op.now);
    assert Sound(b1);
    DrainTries(b1, op.sends);
    hide DownSound;
  }

  function PartialAfter(b: Bridge, op: Op): AclReassembly.Partial
    requires AclReassembly.Sound(b.up.partial)
  {
    match op
    case Enable(on) => if on then b.up.partial else AclReassembly.NONE
    case AclTransfer(bytes) =>
      if b.enabled then AclReassembly.Absorb(b.up.partial, bytes).partial else b.up.partial
    case _ => b.up.partial
  }

  /** MAIN: one step of the way to the controller, from any sound state: which packets are
      queued, which are tried, and what is left of an ACL packet. */
  lemma StepQueues(b: Bridge, op: Op)
    requires Sound(b)
    ensures var u' := Step(b, op).up;
            && u'.partial == PartialAfter(b, op)
            && if op == Enable(false) then u'.queue == [] && u'.log == UpLog([], [], [])
               else Queues(b.up, u', AcceptedBy(b, op), TriedBy(b, op))
  {
    hide BridgeModel.Task;
    hide HostCommand;
    hide HostAcl;
    hide Queues;
    hide Tried;
    UpNone(b.up, b.up);
    match op
    case CommandTransfer(bytes) => if b.enabled { UpCommand(b, bytes); } else { UpIdle(b, op); }
    case AclTransfer(bytes) => if b.enabled { UpAcl(b, bytes); } else { UpIdle(b, op); }
    case RunTask(_, _, _, _, _) => if Works(b, op) { UpTask(b, op); } else { UpIdle(b, op); }
    case Enable(_) => UpIdle(b, op);
    case Receive(_) => UpIdle(b, op);
    case SentEvent => UpIdle(b, op);
  }

  lemma UpIdle(b: Bridge, op: Op)
    requires AclReassembly.Sound(b.up.partial)
    requires !b.enabled || op.Enable? || op.Receive? || op.SentEvent? || (op.RunTask? && !op.ready)
    ensures Step(b, op).up == if op == Enable(false) then UP_START else b.up
  {
    hide QuirkOfComplete;
    hide Noise;
    hide AclReassembly.Sound;
  }

  lemma TaskSent(b: Bridge, op: Op)
    requires Sound(b) && Works(b, op)
    ensures Step(b, op).life.sent == b.life.sent + b.up.queue[..Leading(op.sends, |b.up.queue|)]
  {
    hide Drain;
    hide UpSound;
    hide Leading;
    var b1 := b.(down := Expire(b.down, op.now));
    ExpireSound(b.down, op.now);
    assert Sound(b1);
    DrainGoes(b1, op.sends);
    hide DownSound;
  }

  /** What is sent: as much of the queue as the transport takes in a row. */
  lemma StepSent(b: Bridge, op: Op)
    requires Sound(b)
    ensures Step(b, op).life.sent
         == if Works(b, op) then b.life.sent + b.up.queue[..Leading(op.sends, |b.up.queue|)] else b.life.sent
  {
    if Works(b, op) {
      TaskSent(b, op);
    } else if !op.Enable? {
      StepSends(b, op);
    }
  }

  // ------------------------------------------------------------------------- runs

  /** The bridge is on: what it was last told. */
  predicate IsOn(ops: seq<Op>)
    decreases |ops|
  {
    if ops == [] then false
    else
      var n := |ops| - 1;
      match ops[n]
      case Enable(on) => on
      case _ => IsOn(ops[..n])
  }

  lemma {:induction false} OnIff(ops: seq<Op>)
    ensures Run(ops).enabled == IsOn(ops)
    decreases |ops|
  {
    hide Sound;
    if ops != [] {
      var before, op := ops[..|ops| - 1], ops[|ops| - 1];
      OnIff(before);
      RunSound(before);
      if !op.Enable? { StepKeepsOn(Run(before), op); }
      hide Step;
    }
  }

  lemma StepKeepsOn(b: Bridge, op: Op)
    requires Sound(b) && !op.Enable?
    ensures Step(b, op).enabled == b.enabled
  {
    hide Step;
    StepSends(b, op);
  }

  /** Everything of a run that was on its way to the host, in order. */
  ghost function Entries(ops: seq<Op>): seq<Entry>
    decreases |ops|
  {
    if ops == [] then []
    else Entries(ops[..|ops| - 1]) + EntriesOf(Run(ops[..|ops| - 1]), ops[|ops| - 1])
  }

  /** The same since the bridge was last disabled. */
  ghost function EntriesSince(ops: seq<Op>): seq<Entry>
    decreases |ops|
  {
    if ops == [] || ops[|ops| - 1] == Enable(false) then []
    else EntriesSince(ops[..|ops| - 1]) + EntriesOf(Run(ops[..|ops| - 1]), ops[|ops| - 1])
  }

  /** What was put in the queue to the controller since the bridge was last disabled. */
  ghost function AcceptedSince(ops: seq<Op>): seq<Packet>
    decreases |ops|
  {
    if ops == [] || ops[|ops| - 1] == Enable(false) then []
    else AcceptedSince(ops[..|ops| - 1]) + AcceptedBy(Run(ops[..|ops| - 1]), ops[|ops| - 1])
  }

  /** What was tried since. */
  ghost function TriedSince(ops: seq<Op>): seq<Attempt>
    decreases |ops|
  {
    if ops == [] || ops[|ops| - 1] == Enable(false) then []
    else TriedSince(ops[..|ops| - 1]) + TriedBy(Run(ops[..|ops| - 1]), ops[|ops| - 1])
  }

  /** The books of a run agree with its entries. */
  ghost predicate Agree(b: Bridge, es: seq<Entry>, since: seq<Entry>) {
    && b.life.arrived == Arrivals(es)
    && b.life.suppressed == Pick(es, Swallowed)
    && b.life.noise == Pick(es, Dropped)
    && b.life.refused == Pick(es, Refused)
    && b.life.queued == Pick(es, Queued)
    && b.down.log.accepted == Pick(since, Queued)
  }

  lemma AgreeThen(b: Bridge, b': Bridge, es: seq<Entry>, since: seq<Entry>, more: seq<Entry>)
    requires Agree(b, es, since) && Books(b, b', more)
    ensures Agree(b', es + more, since + more)
  {
    hide Pick;
    hide Arrivals;
    ArrivalsConcat(es, more);
    PickConcat(es, more, Swallowed);
    PickConcat(es, more, Dropped);
    PickConcat(es, more, Refused);
    PickConcat(es, more, Queued);
    PickConcat(since, more, Queued);
  }

  lemma AgreeOff(b: Bridge, es: seq<Entry>, since: seq<Entry>)
    requires Agree(b, es, since)
    ensures Agree(SetEnabled(b, false), es, [])
  {
  }

  /** MAIN, on the way to the host: in every run, every packet that reaches the bridge while it is on
      is in exactly one place, in order: swallowed as the owed completion of one of the four
      commands, dropped as chatter, refused by a full queue or for its length, or queued.  With
      the completions made up here, exactly the queued ones were accepted. */
  lemma {:induction false} EveryPacketHasItsPlace(ops: seq<Op>)
    ensures Agree(Run(ops), Entries(ops), EntriesSince(ops))
    decreases |ops|
  {
    hide Sound;
    hide Step;
    hide Agree;
    hide Books;
    hide EntriesOf;
    if ops == [] {
      AgreeStart();
    } else {
      var before, op := ops[..|ops| - 1], ops[|ops| - 1];
      var b := Run(before);
      EveryPacketHasItsPlace(before);
      RunSound(before);
      if op == Enable(false) {
        AgreeOff(b, Entries(before), EntriesSince(before));
        StepOff(b);
        assert Entries(before) + [] == Entries(before);
      } else {
        StepBooks(b, op);
        AgreeThen(b, Step(b, op), Entries(before), EntriesSince(before), EntriesOf(b, op));
      }
    }
  }

  lemma AgreeStart()
    ensures Agree(START, [], [])
  {
  }

  lemma StepOff(b: Bridge)
    requires AclReassembly.Sound(b.up.partial)
    ensures Step(b, Enable(false)) == SetEnabled(b, false) && EntriesOf(b, Enable(false)) == []
  {
  }

  /** MAIN, on the way to the controller: in every run, since the bridge was last disabled, exactly
      the commands that were transferred while it was on, cut to 16 bits of length, that are no
      feature requests and found room, and the ACL packets that transfers completed and found
      room, were accepted, in order; and task calls tried exactly the queue up to each refusal. */
  lemma {:induction false} EveryCommandIsQueued(ops: seq<Op>)
    ensures Run(ops).up.log.accepted == AcceptedSince(ops)
    ensures Run(ops).up.log.attempts == TriedSince(ops)
    decreases |ops|
  {
    hide Sound;
    hide Step;
    hide AcceptedBy;
    hide TriedBy;
    if ops != [] {
      var before, op := ops[..|ops| - 1], ops[|ops| - 1];
      EveryCommandIsQueued(before);
      RunSound(before);
      StepQueues(Run(before), op);
      hide PartialAfter;
    }
  }
}
