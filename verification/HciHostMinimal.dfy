/** The standby HCI host: send a command, then run the transport until its completion arrives or
    the time is up. */
module HciHostMinimal {
  import opened Hci

  /** A packet from the controller, and when it was received. */
  datatype Arrival = Arrival(packet: Packet, at: nat)

  // ------------------------------------------------------------- what counts as a reply

  /** The status a Command Complete or Command Status event gives for `opcode`, or -1 when the
      packet says nothing about it. */
  function Reply(p: Packet, opcode: Word16): (r: int)
    ensures -1 <= r <= 0xff
  {
    var d := p.data;
    if p.kind != Event || |d| < 6 then -1
    else if d[0] == EVENT_COMMAND_COMPLETE && Le16(d[3], d[4]) == opcode then d[5]
    else if d[0] == EVENT_COMMAND_STATUS && Le16(d[4], d[5]) == opcode then d[2]
    else -1
  }

  predicate Replies(p: Packet, opcode: Word16) {
    Reply(p, opcode) >= 0
  }

  /** The last reply among the packets one transport call delivers, or -1. */
  function LastReply(ps: seq<Arrival>, opcode: Word16): (r: int)
    ensures -1 <= r <= 0xff
    decreases |ps|
  {
    if ps == [] then -1
    else
      var r := Reply(ps[|ps| - 1].packet, opcode);
      if r >= 0 then r else LastReply(ps[..|ps| - 1], opcode)
  }

  /** The status of a command whose wait sees these transport calls before the deadline: the
      last reply of the first call that delivers one, or -1 for none. */
  function Outcome(polls: seq<seq<Arrival>>, opcode: Word16): (r: int)
    ensures -1 <= r <= 0xff
  {
    if polls == [] then -1
    else
      var r := LastReply(polls[0], opcode);
      if r >= 0 then r else Outcome(polls[1..], opcode)
  }

  /** What the wait delivers: every transport call up to the one that brings a reply. */
  function Heard(polls: seq<seq<Arrival>>, opcode: Word16): seq<Arrival> {
    if polls == [] then []
    else if LastReply(polls[0], opcode) >= 0 then polls[0]
    else polls[0] + Heard(polls[1..], opcode)
  }

  lemma {:induction false} LastReplyIffSome(ps: seq<Arrival>, opcode: Word16)
    ensures LastReply(ps, opcode) >= 0 <==> exists i :: 0 <= i < |ps| && Replies(ps[i].packet, opcode)
    decreases |ps|
  {
    if ps != [] {
      LastReplyIffSome(ps[..|ps| - 1], opcode);
      assert Replies(ps[|ps| - 1].packet, opcode) <==> Reply(ps[|ps| - 1].packet, opcode) >= 0;
    }
  }

  /** Some transport call delivers a reply. */
  ghost predicate RepliedIn(polls: seq<seq<Arrival>>, opcode: Word16, i: int, j: int) {
    0 <= i < |polls| && 0 <= j < |polls[i]| && Replies(polls[i][j].packet, opcode)
  }

  /** MAIN: the wait ends with a status exactly when some packet before the deadline answers
      this very opcode; packets about other commands change nothing. */
  lemma {:induction false} OutcomeIffReplied(polls: seq<seq<Arrival>>, opcode: Word16)
    ensures Outcome(polls, opcode) >= 0 <==> exists i, j :: RepliedIn(polls, opcode, i, j)
  {
    if polls != [] {
      var tail := polls[1..];
      LastReplyIffSome(polls[0], opcode);
      OutcomeIffReplied(tail, opcode);
      if k :| 0 <= k < |polls[0]| && Replies(polls[0][k].packet, opcode) {
        assert RepliedIn(polls, opcode, 0, k);
      }
      if i, j :| RepliedIn(tail, opcode, i, j) {
        assert RepliedIn(polls, opcode, i + 1, j);
      }
      if i, j :| RepliedIn(polls, opcode, i, j) && i > 0 {
        assert RepliedIn(tail, opcode, i - 1, j);
      }
    }
  }

  /** MAIN: what a reply says, byte by byte.  A Command Complete event gives the status after its
      opcode, a Command Status event the one before it, for that opcode and no other. */
  lemma ReplySays(len: Byte, credits: Byte, low: Byte, high: Byte, status: Byte, tail: seq<Byte>, opcode: Word16)
    ensures Reply(Packet(Event, [0x0e, len, credits, low, high, status] + tail), opcode)
         == if opcode == low + 256 * high then status else -1
    ensures Reply(Packet(Event, [0x0f, len, status, credits, low, high] + tail), opcode)
         == if opcode == low + 256 * high then status else -1
  {
  }

  lemma NothingElseReplies(p: Packet, opcode: Word16)
    ensures p.kind != Event || |p.data| < 6 || (p.data[0] != 0x0e && p.data[0] != 0x0f) ==> Reply(p, opcode) == -1
  {
  }

  /** Packet `j` of a transport call is the last in it that replies. */
  ghost predicate LastThatReplies(ps: seq<Arrival>, opcode: Word16, j: int) {
    && 0 <= j < |ps| && Replies(ps[j].packet, opcode)
    && forall k :: j < k < |ps| ==> !Replies(ps[k].packet, opcode)
  }

  ghost predicate NoneReplies(ps: seq<Arrival>, opcode: Word16) {
    forall k :: 0 <= k < |ps| ==> !Replies(ps[k].packet, opcode)
  }

  lemma {:induction false} LastReplyIs(ps: seq<Arrival>, opcode: Word16, j: int)
    requires LastThatReplies(ps, opcode, j)
    ensures LastReply(ps, opcode) == Reply(ps[j].packet, opcode)
    decreases |ps|
  {
    hide Reply;
    if j < |ps| - 1 {
      assert !Replies(ps[|ps| - 1].packet, opcode);
      LastReplyIs(ps[..|ps| - 1], opcode, j);
    }
  }

  /** MAIN: the wait ends with the status of the last reply in the first transport call that delivers
      one, having heard all of that call and of those before it; without a reply it hears them
      all and ends with none. */
  lemma {:induction false} OutcomeIsThatReply(polls: seq<seq<Arrival>>, opcode: Word16, i: nat, j: int)
    requires i <= |polls| && forall k :: 0 <= k < i ==> NoneReplies(polls[k], opcode)
    requires i < |polls| ==> LastThatReplies(polls[i], opcode, j)
    ensures Outcome(polls, opcode) == if i < |polls| then Reply(polls[i][j].packet, opcode) else -1
    ensures Heard(polls, opcode) == Flatten(if i < |polls| then polls[..i + 1] else polls)
  {
    hide Reply;
    if polls != [] {
      LastReplyIffSome(polls[0], opcode);
      if i == 0 {
        LastReplyIs(polls[0], opcode, j);
        assert polls[..1] == [polls[0]] && polls[..1][1..] == [];
        assert Flatten(polls[..1]) == polls[0] + Flatten<Arrival>([]);
      } else {
        assert NoneReplies(polls[0], opcode);
        OutcomeIsThatReply(polls[1..], opcode, i - 1, j);
        assert i < |polls| ==> polls[..i + 1][1..] == polls[1..][..i];
      }
    }
  }

  // ------------------------------------------------------------ the standby sequence

  function CommandPacket(opcode: Word16, params: seq<Byte>): Packet
    requires |params| <= 255
  {
    Packet(Command, [opcode % 0x100, opcode / 0x100, |params|] + params)
  }

  const EVENT_MASK: seq<Byte> := [0xff, 0xff, 0xff, 0xff, 0xff, 0xff, 0xff, 0x3f]
  const LE_EVENT_MASK: seq<Byte> := [0x1f, 0x14, 0, 0, 0, 0, 0, 0]
  const LE_SCAN_PARAMETERS: seq<Byte> := [0x01, 0x60, 0x00, 0x30, 0x00, 0x00, 0x00]
  const LE_SCAN_ENABLE: seq<Byte> := [0x01, 0x00]
  const CLASSIC_SCAN_ENABLE: seq<Byte> := [0x02]

  const STANDBY_OPCODES: seq<Word16> := [
    READ_LOCAL_VERSION, READ_BD_ADDR, SET_EVENT_MASK, LE_SET_EVENT_MASK, WRITE_SCAN_ENABLE,
    LE_SET_SCAN_PARAMETERS, LE_SET_SCAN_ENABLE]

  const STANDBY_PARAMS: seq<seq<Byte>> := [
    [], [], EVENT_MASK, LE_EVENT_MASK, CLASSIC_SCAN_ENABLE, LE_SCAN_PARAMETERS, LE_SCAN_ENABLE]

  /** The first `n` commands of the standby sequence. */
  function StandbyCommands(n: nat): (commands: seq<Packet>)
    requires n <= 7
    ensures |commands| == n
  {
    if n == 0 then []
    else StandbyCommands(n - 1) + [CommandPacket(STANDBY_OPCODES[n - 1], STANDBY_PARAMS[n - 1])]
  }

  /** What the waits of the first `n` commands deliver. */
  function HeardBy(replies: seq<seq<seq<Arrival>>>, n: nat): seq<Arrival>
    requires n <= |replies| && n <= |STANDBY_OPCODES|
  {
    if n == 0 then [] else HeardBy(replies, n - 1) + Heard(replies[n - 1], STANDBY_OPCODES[n - 1])
  }

  /** The three commands that must succeed do. */
  predicate Configures(resetOk: bool, replies: seq<seq<seq<Arrival>>>)
    requires |replies| == 7
  {
    && resetOk
    && Outcome(replies[2], SET_EVENT_MASK) == 0
    && Outcome(replies[5], LE_SET_SCAN_PARAMETERS) == 0
    && Outcome(replies[6], LE_SET_SCAN_ENABLE) == 0
  }

  function CommandsSent(resetOk: bool, replies: seq<seq<seq<Arrival>>>): (n: nat)
    requires |replies| == 7
    ensures n <= 7
  {
    if !resetOk then 0
    else if Outcome(replies[2], SET_EVENT_MASK) != 0 then 3
    else if Outcome(replies[5], LE_SET_SCAN_PARAMETERS) != 0 then 6
    else 7
  }

  /** MAIN: the seven commands, byte by byte: read the version and the address, unmask the events and
      the LE events, page scan, and an active LE scan every 60 ms for 30 ms that takes everything. */
  lemma StandbyCommandsAre()
    ensures StandbyCommands(7) == [
      Packet(Command, [0x01, 0x10, 0]),
      Packet(Command, [0x09, 0x10, 0]),
      Packet(Command, [0x01, 0x0c, 8, 0xff, 0xff, 0xff, 0xff, 0xff, 0xff, 0xff, 0x3f]),
      Packet(Command, [0x01, 0x20, 8, 0x1f, 0x14, 0, 0, 0, 0, 0, 0]),
      Packet(Command, [0x1a, 0x0c, 1, 0x02]),
      Packet(Command, [0x0b, 0x20, 7, 0x01, 0x60, 0x00, 0x30, 0x00, 0x00, 0x00]),
      Packet(Command, [0x0c, 0x20, 2, 0x01, 0x00])]
  {
    hide CommandPacket;
    StandbyCommandAt();
    assert StandbyCommands(0) == [];
    assert StandbyCommands(1) == StandbyCommands(0) + [CommandPacket(STANDBY_OPCODES[0], STANDBY_PARAMS[0])];
    assert StandbyCommands(2) == StandbyCommands(1) + [CommandPacket(STANDBY_OPCODES[1], STANDBY_PARAMS[1])];
    assert StandbyCommands(3) == StandbyCommands(2) + [CommandPacket(STANDBY_OPCODES[2], STANDBY_PARAMS[2])];
    assert StandbyCommands(4) == StandbyCommands(3) + [CommandPacket(STANDBY_OPCODES[3], STANDBY_PARAMS[3])];
    assert StandbyCommands(5) == StandbyCommands(4) + [CommandPacket(STANDBY_OPCODES[4], STANDBY_PARAMS[4])];
    assert StandbyCommands(6) == StandbyCommands(5) + [CommandPacket(STANDBY_OPCODES[5], STANDBY_PARAMS[5])];
    assert StandbyCommands(7) == StandbyCommands(6) + [CommandPacket(STANDBY_OPCODES[6], STANDBY_PARAMS[6])];
    hide StandbyCommands;
  }

  lemma StandbyCommandAt()
    ensures CommandPacket(STANDBY_OPCODES[0], STANDBY_PARAMS[0]) == Packet(Command, [0x01, 0x10, 0])
    ensures CommandPacket(STANDBY_OPCODES[1], STANDBY_PARAMS[1]) == Packet(Command, [0x09, 0x10, 0])
    ensures CommandPacket(STANDBY_OPCODES[2], STANDBY_PARAMS[2])
         == Packet(Command, [0x01, 0x0c, 8, 0xff, 0xff, 0xff, 0xff, 0xff, 0xff, 0xff, 0x3f])
    ensures CommandPacket(STANDBY_OPCODES[3], STANDBY_PARAMS[3])
         == Packet(Command, [0x01, 0x20, 8, 0x1f, 0x14, 0, 0, 0, 0, 0, 0])
    ensures CommandPacket(STANDBY_OPCODES[4], STANDBY_PARAMS[4]) == Packet(Command, [0x1a, 0x0c, 1, 0x02])
    ensures CommandPacket(STANDBY_OPCODES[5], STANDBY_PARAMS[5])
         == Packet(Command, [0x0b, 0x20, 7, 0x01, 0x60, 0x00, 0x30, 0x00, 0x00, 0x00])
    ensures CommandPacket(STANDBY_OPCODES[6], STANDBY_PARAMS[6]) == Packet(Command, [0x0c, 0x20, 2, 0x01, 0x00])
  {
    hide StandbyCommands;
  }

  /** MAIN: what an attempt hears: the waits of the commands it sends, each for its own opcode, in order. */
  lemma AttemptHears(replies: seq<seq<seq<Arrival>>>)
    requires |replies| == 7
    ensures HeardBy(replies, 0) == []
    ensures HeardBy(replies, 3)
         == Heard(replies[0], 0x1001) + Heard(replies[1], 0x1009) + Heard(replies[2], 0x0c01)
    ensures HeardBy(replies, 6)
         == HeardBy(replies, 3) + Heard(replies[3], 0x2001) + Heard(replies[4], 0x0c1a) + Heard(replies[5], 0x200b)
    ensures HeardBy(replies, 7) == HeardBy(replies, 6) + Heard(replies[6], 0x200c)
  {
    hide Heard;
    HeardNext(replies, 0);
    HeardNext(replies, 1);
    HeardNext(replies, 2);
    HeardNext(replies, 3);
    HeardNext(replies, 4);
    HeardNext(replies, 5);
    HeardNext(replies, 6);
    assert HeardBy(replies, 0) == [];
    hide HeardBy;
  }

  lemma HeardNext(replies: seq<seq<seq<Arrival>>>, k: nat)
    requires |replies| == 7 && k < 7
    ensures HeardBy(replies, k + 1) == HeardBy(replies, k) + Heard(replies[k], STANDBY_OPCODES[k])
  {
  }

  /** The event mask and the two scan commands. */
  predicate MustSucceed(k: nat) {
    k == 2 || k == 5 || k == 6
  }

  predicate Succeeds(replies: seq<seq<seq<Arrival>>>, k: nat)
    requires k < |replies| && k < 7
  {
    Outcome(replies[k], STANDBY_OPCODES[k]) == 0
  }

  /** MAIN: the sequence sends nothing if the controller does not reset; otherwise it goes on to the
      first command that must succeed and does not; and it configures the controller exactly if
      it gets to the end and the last succeeds. */
  lemma SequenceEnds(resetOk: bool, replies: seq<seq<seq<Arrival>>>)
    requires |replies| == 7
    ensures var n := CommandsSent(resetOk, replies);
            && (n == 0 <==> !resetOk)
            && (forall k :: 0 <= k < n - 1 && MustSucceed(k) ==> Succeeds(replies, k))
            && (0 < n < 7 ==> MustSucceed(n - 1) && !Succeeds(replies, n - 1))
            && (Configures(resetOk, replies) <==> n == 7 && Succeeds(replies, 6))
  {
  }

  // ------------------------------------------------------------------------- the host

  datatype Result = Result(opcode: Word16, status: Byte, complete: bool)

  class Host {
    var waiting: bool
    var waitingOpcode: Word16
    var gotComplete: bool
    var gotStatus: Byte
    // The commands given to the transport, oldest first.
    var sent: seq<Packet>

    constructor ()
      ensures !waiting && sent == []
    {
      waiting, waitingOpcode, gotComplete, gotStatus := false, 0, false, 0;
      sent := [];
    }

    /** A packet for the standby host: ignored unless it answers the command waited for. */
    method Receive(p: Packet)
      modifies this`gotComplete, this`gotStatus
      ensures waiting && Replies(p, waitingOpcode)
              ==> gotComplete && gotStatus == Reply(p, waitingOpcode)
      ensures !waiting || !Replies(p, waitingOpcode)
              ==> gotComplete == old(gotComplete) && gotStatus == old(gotStatus)
    {
      if !waiting || p.kind != Event || |p.data| < 3 {
        return;
      }
      var d := p.data;
      if d[0] == EVENT_COMMAND_COMPLETE && |d| >= 6 {
        if Le16(d[3], d[4]) == waitingOpcode {
          gotStatus, gotComplete := d[5], true;
        }
      } else if d[0] == EVENT_COMMAND_STATUS && |d| >= 6 {
        if Le16(d[4], d[5]) == waitingOpcode {
          gotStatus, gotComplete := d[2], true;
        }
      }
    }

    /** One transport call, delivering `ps`. */
    method Poll(ps: seq<Arrival>)
      requires waiting && !gotComplete
      modifies this`gotComplete, this`gotStatus
      ensures gotComplete <==> LastReply(ps, waitingOpcode) >= 0
      ensures gotComplete ==> gotStatus == LastReply(ps, waitingOpcode)
    {
      var i := 0;
      while i < |ps|
        invariant 0 <= i <= |ps|
        invariant gotComplete <==> LastReply(ps[..i], waitingOpcode) >= 0
        invariant gotComplete ==> gotStatus == LastReply(ps[..i], waitingOpcode)
      {
        assert ps[..i + 1][..i] == ps[..i];
        Receive(ps[i].packet);
        i := i + 1;
      }
      assert ps[..i] == ps;
    }

    /** Send a command and wait.  `polls` are the transport calls made before the deadline. */
    method SendCmdSync(opcode: Word16, params: seq<Byte>, polls: seq<seq<Arrival>>)
      returns (ok: bool, result: Result, heard: seq<Arrival>)
      requires |params| <= 255
      modifies this
      ensures !waiting
      ensures sent == old(sent) + [CommandPacket(opcode, params)]
      ensures ok <==> Outcome(polls, opcode) == 0
      ensures heard == Heard(polls, opcode)
      ensures result == if Outcome(polls, opcode) >= 0 then Result(opcode, Outcome(polls, opcode), true)
                        else Result(opcode, 0xff, false)
    {
      waitingOpcode, gotStatus, gotComplete, waiting := opcode, 0xff, false, true;
      sent := sent + [CommandPacket(opcode, params)];
      heard := [];
      var i := 0;
      while i < |polls|
        invariant 0 <= i <= |polls|
        invariant waiting && !gotComplete && waitingOpcode == opcode
        invariant sent == old(sent) + [CommandPacket(opcode, params)]
        invariant Outcome(polls[i..], opcode) == Outcome(polls, opcode)
        invariant heard + Heard(polls[i..], opcode) == Heard(polls, opcode)
      {
        Poll(polls[i]);
        heard := heard + polls[i];
        if gotComplete {
          waiting := false;
          return gotStatus == 0, Result(opcode, gotStatus, true), heard;
        }
        i := i + 1;
      }
      waiting := false;
      return false, Result(opcode, 0xff, false), heard;
    }

    /** The `k`-th command of the standby sequence, after `before` was delivered. */
    method SendStandby(k: nat, replies: seq<seq<seq<Arrival>>>, before: seq<Arrival>, ghost start: seq<Packet>)
      returns (ok: bool, heard: seq<Arrival>)
      requires k < |replies| == 7 && before == HeardBy(replies, k)
      requires sent == start + StandbyCommands(k)
      modifies this
      ensures !waiting && heard == HeardBy(replies, k + 1)
      ensures ok <==> Outcome(replies[k], STANDBY_OPCODES[k]) == 0
      ensures sent == start + StandbyCommands(k + 1)
    {
      var result, delivered;
      ok, result, delivered := SendCmdSync(STANDBY_OPCODES[k], STANDBY_PARAMS[k], replies[k]);
      heard := before + delivered;
    }

    /** Bring the controller up for standby.  `replies` are the transport calls made while each
        of the seven commands waits; `heard` is everything those calls delivered.  Only the
        event mask and the two scan commands must succeed; a failure ends the sequence. */
    method ConfigureStandbyWake(resetOk: bool, replies: seq<seq<seq<Arrival>>>)
      returns (ok: bool, heard: seq<Arrival>)
      requires |replies| == 7 && !waiting
      modifies this
      ensures !waiting
      ensures heard == HeardBy(replies, CommandsSent(resetOk, replies))
      ensures ok <==> Configures(resetOk, replies)
      ensures sent == old(sent) + StandbyCommands(CommandsSent(resetOk, replies))
    {
      if !resetOk {
        return false, [];
      }
      ghost var start := sent;
      assert sent == start + StandbyCommands(0) && HeardBy(replies, 0) == [];
      hide StandbyCommands;
      hide HeardBy;
      hide Outcome;
      var _, heard1 := SendStandby(0, replies, [], start);
      var _, heard2 := SendStandby(1, replies, heard1, start);
      ok, heard := SendStandby(2, replies, heard2, start);
      if !ok {
        return;
      }
      var _, heard4 := SendStandby(3, replies, heard, start);
      var _, heard5 := SendStandby(4, replies, heard4, start);
      ok, heard := SendStandby(5, replies, heard5, start);
      if !ok {
        return;
      }
      ok, heard := SendStandby(6, replies, heard, start);
    }
  }
}
