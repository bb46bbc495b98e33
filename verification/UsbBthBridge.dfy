/** The USB/HCI bridge as the firmware runs it: two rings of 32 slots, an in-flight flag, a
    reassembly buffer and four counters, updated by callbacks and the task loop.  Every
    entry point is proved to be the corresponding step of BridgeModel. */
module UsbBthBridge {
  import opened Hci
  import opened BridgeModel
  import AclReassembly
  import BridgeFlow
  import Ring

  const USB_QUEUE_DEPTH := 32

  class PacketRing {
    const slots: array<Packet>
    var head: nat
    var tail: nat

    ghost predicate Valid()
      reads this
    {
      slots.Length == USB_QUEUE_DEPTH && head < USB_QUEUE_DEPTH && tail < USB_QUEUE_DEPTH
    }

    ghost function Contents(): (q: seq<Packet>)
      requires Valid()
      reads this, slots
      ensures |q| <= QUEUE_ROOM && (q == [] <==> head == tail)
    {
      Ring.Unread(slots[..], head, tail)
    }

    constructor ()
      ensures Valid() && Contents() == [] && fresh(slots)
    {
      slots := new Packet[USB_QUEUE_DEPTH](_ => Packet(Command, []));
      head, tail := 0, 0;
    }

    method Clear()
      requires Valid()
      modifies this
      ensures Valid() && Contents() == []
    {
      head, tail := 0, 0;
    }

    method Push(p: Packet) returns (pushed: bool)
      requires Valid()
      modifies this`head, slots
      ensures Valid()
      ensures pushed <==> Fits(old(Contents()), p)
      ensures Contents() == if pushed then old(Contents()) + [p] else old(Contents())
    {
      if |p.data| > HCI_ACL_MAX_LEN {
        return false;
      }
      ghost var ring := slots[..];
      var next := Ring.Next(head, USB_QUEUE_DEPTH);
      Ring.FullIff(ring, head, tail);
      if next == tail {
        return false;
      }
      Ring.UnreadStore(ring, head, tail, p);
      slots[head] := p;
      assert slots[..] == ring[head := p];
      head := next;
      return true;
    }

    /** The oldest packet, left in place. */
    method Peek() returns (p: Packet)
      requires Valid() && Contents() != []
      ensures p == Contents()[0]
    {
      Ring.UnreadTake(slots[..], head, tail);
      return slots[tail];
    }

    method Drop()
      requires Valid() && Contents() != []
      modifies this`tail
      ensures Valid() && Contents() == old(Contents())[1..]
    {
      Ring.UnreadTake(slots[..], head, tail);
      tail := Ring.Next(tail, USB_QUEUE_DEPTH);
    }
  }

  class UsbBridge {
    var enabled: bool
    const usbQueue: PacketRing
    const backendQueue: PacketRing
    var backendTxInFlight: bool
    var backendTxStartedMs: Word32
    const usbAclBuf: array<Byte>
    var usbAclLen: nat
    var usbAclExpectedLen: Word16
    var suppressPairingMode: Byte
    var suppressRandomAddress: Byte
    var suppressScanParameters: Byte
    var suppressScanEnable: Byte

    ghost var downLog: DownLog
    ghost var upLog: UpLog
    ghost var life: Life

    ghost function Footprint(): set<object> {
      {this, usbQueue, backendQueue, usbQueue.slots, backendQueue.slots, usbAclBuf}
    }

    ghost predicate Shape()
      reads this, usbQueue, backendQueue
    {
      && usbQueue.Valid() && backendQueue.Valid()
      && usbQueue != backendQueue && usbQueue.slots != backendQueue.slots
      && usbAclBuf.Length == HCI_ACL_MAX_LEN && usbAclLen <= HCI_ACL_MAX_LEN
    }

    ghost function Down(): Down
      requires Shape()
      reads this, usbQueue, backendQueue, backendQueue.slots
    {
      BridgeModel.Down(backendQueue.Contents(), backendTxInFlight, backendTxStartedMs, downLog)
    }

    ghost function Partial(): AclReassembly.Partial
      requires Shape()
      reads this, usbQueue, backendQueue, usbAclBuf
    {
      AclReassembly.Partial(usbAclBuf[..usbAclLen], usbAclExpectedLen)
    }

    ghost function Up(): Up
      requires Shape()
      reads this, usbQueue, backendQueue, usbQueue.slots, usbAclBuf
    {
      BridgeModel.Up(usbQueue.Contents(), Partial(), upLog)
    }

    function Suppress(): Counters
      reads this
    {
      Counters(suppressPairingMode, suppressRandomAddress, suppressScanParameters, suppressScanEnable)
    }

    /** The bridge as BridgeModel sees it. */
    ghost function State(): Bridge
      requires Shape()
      reads this, usbQueue, backendQueue, usbQueue.slots, backendQueue.slots, usbAclBuf
    {
      Bridge(enabled, Down(), Up(), Suppress(), life)
    }

    ghost predicate Valid()
      reads this, usbQueue, backendQueue, usbAclBuf
    {
      Shape() && AclReassembly.Sound(Partial())
    }

    constructor ()
      ensures Valid() && State() == START
      ensures fresh(Footprint())
    {
      enabled := false;
      usbQueue := new PacketRing();
      backendQueue := new PacketRing();
      backendTxInFlight, backendTxStartedMs := false, 0;
      usbAclBuf := new Byte[HCI_ACL_MAX_LEN](_ => 0);
      usbAclLen, usbAclExpectedLen := 0, 0;
      suppressPairingMode, suppressRandomAddress := 0, 0;
      suppressScanParameters, suppressScanEnable := 0, 0;
      downLog, upLog := DownLog([], [], []), UpLog([], [], []);
      life := Life([], [], [], [], [], []);
    }

    /** Disabling empties both queues and the partial packet; the counters stay. */
    method SetEnabled(on: bool)
      requires Valid()
      modifies this, usbQueue, backendQueue
      ensures Valid() && State() == BridgeModel.SetEnabled(old(State()), on)
    {
      enabled := on;
      if !on {
        Flush();
      }
    }

    method Flush()
      requires Shape()
      modifies this`backendTxInFlight, this`backendTxStartedMs, this`usbAclLen, this`usbAclExpectedLen
      modifies this`downLog, this`upLog, usbQueue, backendQueue
      ensures Valid() && Down() == DOWN_START && Up() == UP_START
    {
      usbQueue.Clear();
      backendQueue.Clear();
      backendTxInFlight, backendTxStartedMs := false, 0;
      usbAclLen, usbAclExpectedLen := 0, 0;
      downLog, upLog := DownLog([], [], []), UpLog([], [], []);
    }

    // ------------------------------------------------------------ controller to host

    /** Offer a packet to the host's queue. */
    method QueueForHost(p: Packet)
      requires Valid()
      modifies this`downLog, this`life, backendQueue`head, backendQueue.slots
      ensures Valid() && State() == PushDown(old(State()), p)
    {
      var pushed := backendQueue.Push(p);
      if pushed {
        downLog := downLog.(accepted := downLog.accepted + [p]);
        life := life.(queued := life.queued + [p]);
      } else {
        life := life.(refused := life.refused + [p]);
      }
    }

    /** Lower the counter of a completion, if it is one of the four and above zero. */
    method CountDown(p: Packet) returns (counted: bool)
      modifies this`suppressPairingMode, this`suppressRandomAddress
      modifies this`suppressScanParameters, this`suppressScanEnable
      ensures counted <==> QuirkOfComplete(p).Some? && old(Suppress()).Get(QuirkOfComplete(p).value) > 0
      ensures Suppress() == if counted then Lowered(old(Suppress()), QuirkOfComplete(p).value) else old(Suppress())
    {
      if p.kind != Event {
        return false;
      }
      assert forall q :: QuirkOfComplete(p) == Some(q) <==> CompleteIs(p.data, Opcode(q));
      if suppressPairingMode > 0 && CompleteIs(p.data, WRITE_SIMPLE_PAIRING_MODE) {
        suppressPairingMode := suppressPairingMode - 1;
      } else if suppressRandomAddress > 0 && CompleteIs(p.data, LE_SET_RANDOM_ADDRESS) {
        suppressRandomAddress := suppressRandomAddress - 1;
      } else if suppressScanParameters > 0 && CompleteIs(p.data, LE_SET_SCAN_PARAMETERS) {
        suppressScanParameters := suppressScanParameters - 1;
      } else if suppressScanEnable > 0 && CompleteIs(p.data, LE_SET_SCAN_ENABLE) {
        suppressScanEnable := suppressScanEnable - 1;
      } else {
        return false;
      }
      return true;
    }

    /** A completion still owed is swallowed. */
    method ShouldDropDelayedQuirkComplete(p: Packet) returns (drop: bool)
      requires Valid()
      modifies this`life, this`suppressPairingMode, this`suppressRandomAddress
      modifies this`suppressScanParameters, this`suppressScanEnable
      ensures Valid() && (drop <==> Owed(old(State()), p))
      ensures State() == if drop then Suppressed(old(State()), p, QuirkOfComplete(p).value) else old(State())
    {
      drop := CountDown(p);
      if drop {
        life := life.(suppressed := life.suppressed + [p]);
      }
    }

    method BackendPacket(p: Packet)
      requires Valid()
      modifies this, backendQueue`head, backendQueue.slots
      ensures Valid() && State() == FromController(old(State()), p)
    {
      if !enabled || (p.kind != Event && p.kind != Acl) {
        return;
      }
      life := life.(arrived := life.arrived + [p]);
      var drop := ShouldDropDelayedQuirkComplete(p);
      if drop {
        return;
      }
      if p.kind == Event && |p.data| >= 2 && p.data[0] == EVENT_VENDOR_SPECIFIC && p.data[1] >= 64 {
        life := life.(noise := life.noise + [p]);
        return;
      }
      QueueForHost(p);
    }

    /** The packet in flight, or given up on, leaves the queue. */
    method RetireHead()
      requires Valid()
      modifies this`downLog, backendQueue`tail
      ensures Valid() && State() == old(State()).(down := Retire(old(State()).down))
    {
      if backendQueue.tail != backendQueue.head {
        ghost var head := backendQueue.Contents()[0];
        backendQueue.Drop();
        downLog := downLog.(retired := downLog.retired + [head]);
      }
    }

    /** Either sent-callback. */
    method SentCallback()
      requires Valid()
      modifies this`downLog, this`backendTxInFlight, this`backendTxStartedMs, backendQueue`tail
      ensures Valid() && State() == BridgeModel.SentCallback(old(State()))
    {
      if backendTxInFlight && backendQueue.tail != backendQueue.head {
        RetireHead();
      }
      backendTxInFlight, backendTxStartedMs := false, 0;
    }

    // ------------------------------------------------------------ host to controller

    /** A feature request is answered on the spot. */
    method PreControllerSendQuirk(data: seq<Byte>) returns (answered: bool)
      requires Valid()
      modifies this`downLog, this`life, backendQueue`head, backendQueue.slots
      ensures Valid() && (answered <==> AsksFeatures(data))
      ensures State() == if answered then PushDown(old(State()), FeaturesComplete(PageOf(data)))
                         else old(State())
    {
      if !CommandIs(data, READ_LOCAL_EXTENDED_FEATURES) {
        return false;
      }
      var pageNumber := if |data| >= 4 then data[3] else 0;
      QueueForHost(FeaturesComplete(pageNumber));
      return true;
    }

    /** Make up the completion of one of the four commands, and count the one owed. */
    method AfterControllerSendQuirk(tx: Packet)
      requires Valid() && tx.kind == Command
      modifies this`downLog, this`life, backendQueue`head, backendQueue.slots
      modifies this`suppressPairingMode, this`suppressRandomAddress
      modifies this`suppressScanParameters, this`suppressScanEnable
      ensures Valid() && State() == AfterSend(old(State()), tx)
    {
      if CommandIs(tx.data, WRITE_SIMPLE_PAIRING_MODE) {
        SynthesizeComplete(PairingMode);
      } else if CommandIs(tx.data, LE_SET_RANDOM_ADDRESS) {
        SynthesizeComplete(RandomAddress);
      } else if CommandIs(tx.data, LE_SET_SCAN_PARAMETERS) {
        SynthesizeComplete(ScanParameters);
      } else if CommandIs(tx.data, LE_SET_SCAN_ENABLE) {
        SynthesizeComplete(ScanEnable);
      }
    }

    method SynthesizeComplete(q: Quirk)
      requires Valid()
      modifies this`downLog, this`life, backendQueue`head, backendQueue.slots
      modifies this`suppressPairingMode, this`suppressRandomAddress
      modifies this`suppressScanParameters, this`suppressScanEnable
      ensures Valid()
      ensures var b := old(State());
              State() == PushDown(b, CommandComplete(Opcode(q))).(
                           suppress := b.suppress.Put(q, Saturate(b.suppress.Get(q))))
    {
      QueueForHost(CommandComplete(Opcode(q)));
      CountSuppressed(q);
    }

    method CountSuppressed(q: Quirk)
      modifies this`suppressPairingMode, this`suppressRandomAddress
      modifies this`suppressScanParameters, this`suppressScanEnable
      ensures Suppress() == old(Suppress()).Put(q, Saturate(old(Suppress()).Get(q)))
    {
      match q {
        case PairingMode =>
          if suppressPairingMode != 255 { suppressPairingMode := suppressPairingMode + 1; }
        case RandomAddress =>
          if suppressRandomAddress != 255 { suppressRandomAddress := suppressRandomAddress + 1; }
        case ScanParameters =>
          if suppressScanParameters != 255 { suppressScanParameters := suppressScanParameters + 1; }
        case ScanEnable =>
          if suppressScanEnable != 255 { suppressScanEnable := suppressScanEnable + 1; }
      }
    }

    method QueueForController(p: Packet)
      requires Shape()
      modifies this`upLog, usbQueue`head, usbQueue.slots
      ensures Shape() && State() == old(State()).(up := UpPush(old(State()).up, p))
    {
      var pushed := usbQueue.Push(p);
      if pushed {
        upLog := upLog.(accepted := upLog.accepted + [p]);
      }
    }

    method HciCommandCallback(transfer: seq<Byte>)
      requires Valid()
      modifies this`downLog, this`life, this`upLog
      modifies backendQueue`head, backendQueue.slots, usbQueue`head, usbQueue.slots
      ensures Valid() && State() == HostCommand(old(State()), transfer)
    {
      if !enabled {
        return;
      }
      var data := transfer[..Wrap16(|transfer|)];
      var answered := PreControllerSendQuirk(data);
      if !answered {
        QueueForController(Packet(Command, data));
      }
    }

    method AclDataReceivedCallback(fragment: seq<Byte>)
      requires Valid()
      modifies this`upLog, this`usbAclLen, this`usbAclExpectedLen, usbAclBuf, usbQueue`head, usbQueue.slots
      ensures Valid() && State() == HostAcl(old(State()), fragment)
    {
      if enabled {
        AclOutFragment(fragment);
      }
    }

    method ResetAclReassembly()
      modifies this`usbAclLen, this`usbAclExpectedLen
      ensures usbAclLen == usbAclExpectedLen == 0
    {
      usbAclLen, usbAclExpectedLen := 0, 0;
    }

    /** Copy bytes behind those already there. */
    method StoreBytes(rest: seq<Byte>, take: nat)
      requires Shape() && take <= |rest| && usbAclLen + take <= HCI_ACL_MAX_LEN
      modifies this`usbAclLen, usbAclBuf
      ensures Shape() && usbAclLen == old(usbAclLen) + take
      ensures usbAclBuf[..usbAclLen] == old(usbAclBuf[..usbAclLen]) + rest[..take]
    {
      forall i | 0 <= i < take { usbAclBuf[usbAclLen + i] := rest[i]; }
      usbAclLen := usbAclLen + take;
    }

    /** Take what this fragment has of the packet under construction, which was `before`; a
        new packet's length has been read from the fragment. */
    method TakeBytes(rest: seq<Byte>, ghost before: AclReassembly.Partial) returns (take: nat)
      requires Shape() && rest != [] && AclReassembly.Sound(before)
      requires if before == AclReassembly.NONE
               then AclReassembly.Starts(rest)
                    && Partial() == AclReassembly.Partial([], AclReassembly.TotalLen(rest))
               else Partial() == before
      modifies this`usbAclLen, usbAclBuf
      ensures Shape() && 0 < take == AclReassembly.Take(before, rest) <= |rest|
      ensures Partial() == AclReassembly.Grown(before, rest)
    {
      var remaining := usbAclExpectedLen - usbAclLen;
      take := if |rest| < remaining then |rest| else remaining;
      StoreBytes(rest, take);
    }

    /** A complete packet goes to the controller's queue. */
    method PushCompletedAcl()
      requires Shape() && usbAclLen == usbAclExpectedLen
      modifies this`upLog, this`usbAclLen, this`usbAclExpectedLen, usbQueue`head, usbQueue.slots
      ensures Valid()
      ensures Up() == UpPush(old(Up()), Packet(Acl, old(Partial()).buf)).(partial := AclReassembly.NONE)
    {
      QueueForController(Packet(Acl, usbAclBuf[..usbAclLen]));
      ResetAclReassembly();
    }

    /** One pass of the reassembly loop over what is left of a fragment; zero ends the loop. */
    method AclOutPass(rest: seq<Byte>) returns (take: nat)
      requires Valid() && rest != []
      modifies this`upLog, this`usbAclLen, this`usbAclExpectedLen, usbAclBuf, usbQueue`head, usbQueue.slots
      ensures Valid() && take <= |rest|
      ensures AclFragment(old(Up()), rest) == if take == 0 then Up() else AclFragment(Up(), rest[take..])
    {
      ghost var before := Partial();
      AclFragmentStep(Up(), rest);
      if usbAclLen == 0 {
        if |rest| < 4 {
          return 0;
        }
        usbAclExpectedLen := AclReassembly.TotalLen(rest);
        if usbAclExpectedLen < 4 || usbAclExpectedLen > usbAclBuf.Length {
          ResetAclReassembly();
          return 0;
        }
      }
      take := TakeBytes(rest, before);
      if usbAclLen == usbAclExpectedLen {
        PushCompletedAcl();
      }
    }

    method AclOutFragment(fragment: seq<Byte>)
      requires Valid()
      modifies this`upLog, this`usbAclLen, this`usbAclExpectedLen, usbAclBuf, usbQueue`head, usbQueue.slots
      ensures Valid() && Up() == AclFragment(old(Up()), fragment)
    {
      hide AclFragment;
      var pos := 0;
      while pos < |fragment|
        invariant 0 <= pos <= |fragment|
        invariant Valid() && AclFragment(Up(), fragment[pos..]) == AclFragment(old(Up()), fragment)
      {
        var take := AclOutPass(fragment[pos..]);
        if take == 0 {
          return;
        }
        assert fragment[pos..][take..] == fragment[pos + take..];
        pos := pos + take;
      }
      assert fragment[pos..] == [];
      AclFragmentNothing(Up());
    }

    // ---------------------------------------------------------------------- the task

    /** One pass of the send loop: `ok` is the transport's answer. */
    method TrySend(ok: bool)
      requires Valid() && usbQueue.Contents() != []
      modifies this`upLog, this`life, usbQueue`tail
      ensures Valid()
      ensures var b := old(State());
              State() == b.(up := Try(b.up, ok),
                            life := if ok then b.life.(sent := b.life.sent + [b.up.queue[0]]) else b.life)
    {
      var tx := usbQueue.Peek();
      upLog := upLog.(attempts := upLog.attempts + [Attempt(tx, ok)]);
      if ok {
        usbQueue.Drop();
        upLog := upLog.(sent := upLog.sent + [tx]);
        life := life.(sent := life.sent + [tx]);
      }
    }

    /** The head was sent: what is left to do is the quirk. */
    method SendHeadNow(tx: Packet)
      requires Valid() && usbQueue.Contents() != [] && tx == usbQueue.Contents()[0]
      modifies this, usbQueue`tail, backendQueue`head, backendQueue.slots
      ensures Valid() && State() == SendHead(old(State()))
    {
      TrySend(true);
      if tx.kind == Command {
        AfterControllerSendQuirk(tx);
      }
    }

    /** The head is a feature request: it is answered and leaves the queue. */
    method AnswerHeadNow(tx: Packet) returns (answered: bool)
      requires Valid() && usbQueue.Contents() != [] && tx == usbQueue.Contents()[0]
      modifies this`downLog, this`life, usbQueue`tail, backendQueue`head, backendQueue.slots
      ensures Valid() && (answered <==> HeadAsksFeatures(old(State())))
      ensures State() == if answered then AnswerHead(old(State())) else old(State())
    {
      answered := false;
      if tx.kind == Command {
        answered := PreControllerSendQuirk(tx.data);
      }
      if answered {
        usbQueue.Drop();
      }
    }

    /** One pass of the send loop, the `i`-th send being answered by `sends[i]`; false ends the
        loop. */
    method SendPass(sends: seq<bool>, i: nat) returns (more: bool, i': nat)
      requires Valid() && usbQueue.Contents() != [] && i <= |sends|
      modifies this, usbQueue`tail, backendQueue`head, backendQueue.slots
      ensures Valid() && i' <= |sends|
      ensures Drain(old(State()), sends[i..]) == if more then Drain(State(), sends[i'..]) else State()
      ensures more ==> |usbQueue.Contents()| < old(|usbQueue.Contents()|)
    {
      DrainStep(State(), sends, i);
      hide Drain;
      hide HeadAsksFeatures;
      hide PushDown;
      hide AfterSend;
      var tx := usbQueue.Peek();
      var answered := AnswerHeadNow(tx);
      if answered {
        return true, i;
      }
      if i < |sends| && sends[i] {
        SendHeadNow(tx);
        return true, i + 1;
      }
      TrySend(false);
      return false, i;
    }

    /** Send until the queue is empty or the transport refuses. */
    method SendQueued(sends: seq<bool>)
      requires Valid()
      modifies this, usbQueue`tail, backendQueue`head, backendQueue.slots
      ensures Valid() && State() == Drain(old(State()), sends)
    {
      var i, more := 0, true;
      while more && usbQueue.tail != usbQueue.head
        invariant 0 <= i <= |sends| && Valid()
        invariant Drain(old(State()), sends) == if more then Drain(State(), sends[i..]) else State()
        decreases more, |usbQueue.Contents()|
      {
        more, i := SendPass(sends, i);
      }
    }

    /** Give the oldest packet to USB, unless one is in flight. */
    method HandToUsb(usbAccepts: bool, now: Word32)
      requires Valid()
      modifies this`backendTxInFlight, this`backendTxStartedMs, this`downLog
      ensures Valid() && State() == old(State()).(down := Hand(old(State()).down, usbAccepts, now))
    {
      if !backendTxInFlight && backendQueue.tail != backendQueue.head {
        var tx := backendQueue.Peek();
        var ok := false;
        if tx.kind == Event || tx.kind == Acl {
          ok := usbAccepts;
        }
        backendTxInFlight := ok;
        if ok {
          backendTxStartedMs := now;
          downLog := downLog.(handed := downLog.handed + [tx]);
        }
      }
    }

    method GiveUpHead()
      requires Valid()
      modifies this`backendTxInFlight, this`downLog, backendQueue`tail
      ensures Valid() && State() == old(State()).(down := Retire(old(State()).down).(inFlight := false))
    {
      RetireHead();
      backendTxInFlight := false;
    }

    method DropTimedOut(now: Word32)
      requires Valid()
      modifies this`backendTxInFlight, this`downLog, backendQueue`tail
      ensures Valid() && State() == old(State()).(down := Expire(old(State()).down, now))
    {
      hide Retire;
      hide Valid;
      var elapsed := Wrap32(now - backendTxStartedMs);
      if backendTxInFlight && elapsed > TX_TIMEOUT_MS {
        GiveUpHead();
      }
    }

    method Task(ready: bool, now: Word32, sends: seq<bool>, usbAccepts: bool, later: Word32)
      requires Valid()
      modifies this, usbQueue`tail, backendQueue`head, backendQueue`tail, backendQueue.slots
      ensures Valid()
      ensures State() == BridgeModel.Task(old(State()), ready, now, sends, usbAccepts, later)
    {
      if !enabled || !ready {
        return;
      }
      DropTimedOut(now);
      SendQueued(sends);
      HandToUsb(usbAccepts, later);
    }
  }

  lemma AclFragmentNothing(u: Up)
    requires AclReassembly.Sound(u.partial)
    ensures AclFragment(u, []) == u
  {
  }

  /** One pass of the send loop. */
  lemma DrainStep(b: Bridge, sends: seq<bool>, i: nat)
    requires b.up.queue != [] && i <= |sends|
    ensures Drain(b, sends[i..])
         == if HeadAsksFeatures(b) then Drain(AnswerHead(b), sends[i..])
            else if i < |sends| && sends[i] then Drain(SendHead(b), sends[i + 1..])
            else b.(up := Try(b.up, false))
    ensures |AnswerHead(b).up.queue| < |b.up.queue| && |SendHead(b).up.queue| < |b.up.queue|
  {
  }

  /** One pass of the reassembly loop. */
  lemma AclFragmentStep(u: Up, rest: seq<Byte>)
    requires AclReassembly.Sound(u.partial) && rest != []
    ensures u.partial == AclReassembly.NONE && !AclReassembly.Starts(rest) ==> AclFragment(u, rest) == u
    ensures u.partial != AclReassembly.NONE || AclReassembly.Starts(rest) ==>
              var g, after := AclReassembly.Grown(u.partial, rest), rest[AclReassembly.Take(u.partial, rest)..];
              if |g.buf| == g.expected
              then AclFragment(u, rest)
                   == AclFragment(UpPush(u, Packet(Acl, g.buf)).(partial := AclReassembly.NONE), after)
              else AclFragment(u, rest) == AclFragment(u.(partial := g), after)
  {
    if u.partial != AclReassembly.NONE || AclReassembly.Starts(rest) {
      var g, after := AclReassembly.Grown(u.partial, rest), rest[AclReassembly.Take(u.partial, rest)..];
      if |g.buf| == g.expected {
        var o := AclReassembly.Absorb(AclReassembly.NONE, after);
        BridgeFlow.PushAclsPartial(UpPush(u, Packet(Acl, g.buf)), o.packets, AclReassembly.NONE);
        assert ([g.buf] + o.packets)[1..] == o.packets;
      } else {
        BridgeFlow.PushAclsPartial(u, AclReassembly.Absorb(g, after).packets, g);
      }
    }
  }
}
