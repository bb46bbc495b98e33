/** The UART receive path as the firmware runs it: an interrupt handler fills a 4096-byte ring, the
    task loop drains it into the H4 parser, and interrupts may run between any two accesses the
    loop makes to the shared ring.  Every access is proved to be a move of UartModel. */
module UartBackend {
  import opened Hci
  import opened UartModel
  import H4Parser
  import Ring

  /** What can happen to the backend: an interruption, one call of its task with the interruptions
      that come during it, or a controller reset. */
  datatype Happening =
    | Interrupt(fifo: seq<DataWord>)
    | RunTask(interrupts: seq<seq<DataWord>>)
    | ResetNow

  /** The task took the words of its first `taken` interruptions. */
  ghost predicate TakesIn(interrupts: seq<seq<DataWord>>, before: seq<DataWord>, after: seq<DataWord>, taken: nat) {
    taken <= |interrupts| && after == before + Flatten(interrupts[..taken])
  }

  /** The words that a happening adds to those received since the last reset. */
  ghost predicate Brings(h: Happening, before: seq<DataWord>, after: seq<DataWord>) {
    match h
    case Interrupt(fifo) => after == before + fifo
    case RunTask(interrupts) => exists taken: nat :: TakesIn(interrupts, before, after, taken)
    case ResetNow => after == []
  }

  class Backend {
    const rxRing: array<Byte>
    var rxHead: nat
    var rxTail: nat
    var rxOverflows: Word32
    const parser: H4Parser.Parser

    // The path as UartModel sees it, and the moves that brought it there.
    ghost var u: Uart
    ghost var moves: seq<Move>

    ghost predicate RingValid()
      reads this
    {
      && rxRing.Length == RING_SIZE
      && rxHead < RING_SIZE && rxTail < RING_SIZE
      && rxRing != parser.header && rxRing != parser.packet
    }

    ghost function Queue(): (q: seq<Byte>)
      requires RingValid()
      reads this, rxRing
    {
      Ring.Unread(rxRing[..], rxHead, rxTail)
    }

    /** The path is where the moves brought it. */
    ghost predicate Followed()
      reads this`u, this`moves
    {
      ParsersSound(u) && u == Run(moves)
    }

    ghost predicate RxValid()
      reads this, rxRing
    {
      RingValid() && Queue() == u.queue && rxOverflows == u.overflows && Followed()
    }

    ghost predicate ParserAgrees()
      reads this`u, parser, parser.header, parser.packet
    {
      parser.Valid() && parser.hasCallback && parser.Receiver() == u.receiver
    }

    ghost predicate Valid()
      reads this, rxRing, parser, parser.header, parser.packet
    {
      RxValid() && ParserAgrees()
    }

    constructor ()
      ensures Valid() && fresh(rxRing) && fresh(parser) && fresh(parser.header) && fresh(parser.packet)
      ensures moves == [] && u == START
    {
      var storage := new Byte[PACKET_STORAGE](_ => 0);
      var p := new H4Parser.Parser(storage, true);
      rxRing := new Byte[RING_SIZE](_ => 0);
      parser := p;
      rxHead, rxTail, rxOverflows := 0, 0, 0;
      u, moves := START, [];
    }

    ghost method Record(m: Move)
      requires Followed()
      modifies this`u, this`moves
      ensures Followed() && u == Step(old(u), m) && moves == old(moves) + [m]
    {
      RunSnoc(moves, m);
      u, moves := Step(u, m), moves + [m];
    }

    // ------------------------------------------------------------ the interrupt handler

    /** Store a byte behind everything unread, unless the ring is full. */
    method Store(value: Byte) returns (stored: bool)
      requires RingValid()
      modifies this`rxHead, rxRing
      ensures RingValid()
      ensures stored <==> |old(Queue())| < RING_SIZE - 1
      ensures Queue() == if stored then old(Queue()) + [value] else old(Queue())
    {
      ghost var ring := rxRing[..];
      var next := Ring.Next(rxHead, RING_SIZE);
      Ring.FullIff(ring, rxHead, rxTail);
      if next == rxTail {
        return false;
      }
      Ring.UnreadStore(ring, rxHead, rxTail, value);
      rxRing[rxHead] := value;
      assert rxRing[..] == ring[rxHead := value];
      rxHead := next;
      return true;
    }

    /** A clean byte is stored, or counted because the ring is full. */
    method StoreOrCount(value: Byte)
      requires RingValid()
      modifies this`rxHead, this`rxOverflows, rxRing
      ensures RingValid()
      ensures var room := |old(Queue())| < RING_SIZE - 1;
              && Queue() == (if room then old(Queue()) + [value] else old(Queue()))
              && rxOverflows == if room then old(rxOverflows) else Increment(old(rxOverflows))
    {
      var stored := Store(value);
      if !stored {
        rxOverflows := Increment(rxOverflows);
      }
    }

    /** One word from the data register: a line error is cleared, a clean byte stored or
        counted. */
    method TakeWord(value: DataWord)
      requires RxValid()
      modifies this`rxHead, this`rxOverflows, this`u, this`moves, rxRing
      ensures RxValid() && u == Step(old(u), Word(value)) && moves == old(moves) + [Word(value)]
      ensures u.queue == Arrived(old(u.queue), value) && u.log.words == old(u.log.words) + [value]
      ensures u.inHand == old(u.inHand) && u.receiver == old(u.receiver) && u.log.fed == old(u.log.fed)
    {
      if !LineError(value) {
        StoreOrCount(value);
      }
      Record(Word(value));
    }

    /** One pass of the interrupt handler's loop; it began with `queue`, `words` and `start`. */
    method IrqWord(fifo: seq<DataWord>, i: nat, ghost queue: seq<Byte>, ghost words: seq<DataWord>,
                   ghost start: seq<Move>)
      requires i < |fifo| && |queue| < RING_SIZE && RxValid() && Continues(start, moves)
      requires u.log.words == words + fifo[..i] && u.queue == Filled(queue, Clean(fifo[..i]))
      modifies this`rxHead, this`rxOverflows, this`u, this`moves, rxRing
      ensures RxValid() && Continues(start, moves)
      ensures u.log.words == words + fifo[..i + 1] && u.queue == Filled(queue, Clean(fifo[..i + 1]))
      ensures u.inHand == old(u.inHand) && u.receiver == old(u.receiver) && u.log.fed == old(u.log.fed)
    {
      hide Continues;
      hide Filled;
      hide Clean;
      hide Step;
      hide Arrived;
      hide RxValid;
      FilledNext(queue, fifo, i);
      ContinuesBy(moves, Word(fifo[i]));
      ContinuesOn(start, moves, moves + [Word(fifo[i])]);
      assert words + fifo[..i + 1] == words + fifo[..i] + [fifo[i]];
      TakeWord(fifo[i]);
    }

    /** The interrupt handler, run until the UART has nothing more to read: of the clean
        bytes, exactly those that fit the ring are kept, in order. */
    method Irq(fifo: seq<DataWord>)
      requires RxValid()
      modifies this`rxHead, this`rxOverflows, this`u, this`moves, rxRing
      ensures RxValid() && Continues(old(moves), moves)
      ensures u.log.words == old(u.log.words) + fifo
      ensures u.inHand == old(u.inHand) && u.receiver == old(u.receiver) && u.log.fed == old(u.log.fed)
      ensures u.queue == Filled(old(u.queue), Clean(fifo))
    {
      hide Continues;
      hide Filled;
      hide Clean;
      ghost var words, queue, start := u.log.words, u.queue, moves;
      ContinuesHere(moves);
      FilledNone(queue);
      assert fifo[..0] == [] && words + [] == words;
      hide RxValid;
      var i := 0;
      while i < |fifo|
        invariant 0 <= i <= |fifo|
        invariant RxValid() && Continues(start, moves)
        invariant u.log.words == words + fifo[..i] && u.queue == Filled(queue, Clean(fifo[..i]))
        invariant u.inHand == old(u.inHand) && u.receiver == old(u.receiver) && u.log.fed == old(u.log.fed)
      {
        IrqWord(fifo, i, queue, words, start);
        i := i + 1;
      }
      assert fifo[..i] == fifo;
    }

    /** A point where an interrupt may or may not run; `done` interruptions came before. */
    method Preempt(interrupts: seq<seq<DataWord>>, done: nat, ghost start: seq<DataWord>)
      returns (done': nat)
      requires RxValid() && done <= |interrupts|
      requires u.log.words == start + Flatten(interrupts[..done])
      modifies this`rxHead, this`rxOverflows, this`u, this`moves, rxRing
      ensures RxValid() && Continues(old(moves), moves) && done <= done' <= |interrupts|
      ensures u.log.words == start + Flatten(interrupts[..done'])
      ensures u.inHand == old(u.inHand) && u.receiver == old(u.receiver) && u.log.fed == old(u.log.fed)
      ensures old(u.queue) <= u.queue && (done' == done ==> u.queue == old(u.queue))
    {
      ContinuesHere(moves);
      hide Continues;
      hide RxValid;
      if done == |interrupts| {
        return done;
      }
      assert interrupts[..done + 1] == interrupts[..done] + [interrupts[done]];
      FlattenSnoc(interrupts[..done], interrupts[done]);
      Irq(interrupts[done]);
      return done + 1;
    }

    // ---------------------------------------------------------------------- the task

    /** Take the byte at the tail; the ring slot becomes free. */
    method AdvanceTail()
      requires RxValid() && u.inHand == [] && u.queue != []
      modifies this`rxTail, this`u, this`moves
      ensures RxValid() && u == Step(old(u), Take) && moves == old(moves) + [Take]
    {
      Ring.UnreadTake(rxRing[..], rxHead, rxTail);
      rxTail := Ring.Next(rxTail, RING_SIZE);
      Record(Take);
    }

    method FeedParser(byte: Byte)
      requires Valid() && u.inHand == [byte]
      modifies this`u, this`moves, parser, parser.header, parser.packet
      ensures Valid() && u == Step(old(u), Give) && moves == old(moves) + [Give]
    {
      var _ := parser.FeedByte(byte);
      Record(Give);
    }

    /** The loop's accesses to the ring: read the byte at the tail, then free its slot.  The
        byte is the oldest that was unread, whatever interrupts do in between. */
    method FetchByte(interrupts: seq<seq<DataWord>>, done: nat, ghost start: seq<DataWord>)
      returns (byte: Byte, done': nat)
      requires RxValid() && u.inHand == [] && u.queue != []
      requires done <= |interrupts| && u.log.words == start + Flatten(interrupts[..done])
      modifies this`rxHead, this`rxTail, this`rxOverflows, this`u, this`moves, rxRing
      ensures RxValid() && Continues(old(moves), moves)
      ensures byte == old(u.queue)[0] && u.inHand == [byte] && u.log.fed == old(u.log.fed)
      ensures old(u.queue)[1..] <= u.queue && u.receiver == old(u.receiver)
      ensures done <= done' <= |interrupts|
      ensures u.log.words == start + Flatten(interrupts[..done'])
      ensures done' == done ==> |u.queue| < |old(u.queue)|
    {
      hide Continues;
      hide Run;
      ghost var moves0 := moves;
      done' := Preempt(interrupts, done, start);
      ghost var moves1 := moves;
      Ring.UnreadTake(rxRing[..], rxHead, rxTail);
      byte := rxRing[rxTail];
      done' := Preempt(interrupts, done', start);
      ContinuesOn(moves0, moves1, moves);
      ContinuesBy(moves, Take);
      ContinuesOn(moves0, moves, moves + [Take]);
      AdvanceTail();
    }

    /** One pass of the loop, with an interruption possible before each access. */
    method TakeOne(interrupts: seq<seq<DataWord>>, done: nat, ghost start: seq<DataWord>)
      returns (done': nat)
      requires Valid() && u.inHand == [] && u.queue != []
      requires done <= |interrupts| && u.log.words == start + Flatten(interrupts[..done])
      modifies this`rxHead, this`rxTail, this`rxOverflows, this`u, this`moves, rxRing
      modifies parser, parser.header, parser.packet
      ensures Valid() && Continues(old(moves), moves)
      ensures u.inHand == [] && u.log.fed == old(u.log.fed) + [old(u.queue)[0]]
      ensures done <= done' <= |interrupts|
      ensures u.log.words == start + Flatten(interrupts[..done'])
      ensures done' == done ==> |u.queue| < |old(u.queue)|
    {
      hide Continues;
      hide Run;
      ghost var moves0 := moves;
      var byte;
      byte, done' := FetchByte(interrupts, done, start);
      ghost var moves1 := moves;
      done' := Preempt(interrupts, done', start);
      ContinuesOn(moves0, moves1, moves);
      ContinuesBy(moves, Give);
      ContinuesOn(moves0, moves, moves + [Give]);
      FeedParser(byte);
    }

    /** The task loop.  `interrupts` lists what each successive interruption brings (an
        empty one is no interruption); `taken` of them happen before the loop ends. */
    method Task(interrupts: seq<seq<DataWord>>) returns (taken: nat)
      requires Valid() && u.inHand == []
      modifies this`rxHead, this`rxTail, this`rxOverflows, this`u, this`moves, rxRing
      modifies parser, parser.header, parser.packet
      ensures Valid() && u.inHand == [] && u.queue == []
      ensures Continues(old(moves), moves) && taken <= |interrupts|
      ensures u.log.words == old(u.log.words) + Flatten(interrupts[..taken])
      ensures old(u.log.fed) <= u.log.fed
    {
      hide Continues;
      hide Followed;
      ghost var start, moves0 := u.log.words, moves;
      taken := Preempt(interrupts, 0, start);
      while rxTail != rxHead
        invariant Valid() && u.inHand == []
        invariant Continues(moves0, moves) && taken <= |interrupts|
        invariant u.log.words == start + Flatten(interrupts[..taken])
        invariant old(u.log.fed) <= u.log.fed
        decreases |interrupts| - taken, |u.queue|
      {
        ghost var moves1 := moves;
        taken := TakeOne(interrupts, taken, start);
        ghost var moves2 := moves;
        taken := Preempt(interrupts, taken, start);
        ContinuesOn(moves0, moves1, moves2);
        ContinuesOn(moves0, moves2, moves);
      }
    }

    /** Reset the controller: parser and ring start over, the overflow counter stays. */
    method ResetController()
      requires Valid()
      modifies this, parser
      ensures Valid() && u == Step(old(u), Reset) && moves == old(moves) + [Reset]
      ensures rxOverflows == old(rxOverflows) && parser.delivered == old(parser.delivered)
    {
      parser.Reset();
      rxHead, rxTail := 0, 0;
      Record(Reset);
    }

    method Happen(h: Happening)
      requires Valid() && u.inHand == []
      modifies this, rxRing, parser, parser.header, parser.packet
      ensures Valid() && u.inHand == [] && Brings(h, old(u.log.words), u.log.words)
    {
      match h {
        case Interrupt(fifo) => Irq(fifo);
        case RunTask(interrupts) =>
          ghost var words := u.log.words;
          var taken := Task(interrupts);
          assert TakesIn(interrupts, words, u.log.words, taken);
        case ResetNow => ResetController();
      }
    }

    /** MAIN: from a new backend, through any interrupts, task calls with interruptions between
        their accesses, and resets, the path is after each of them in order. */
    method RunAll(hs: seq<Happening>)
      requires Valid() && u.inHand == []
      modifies this, rxRing, parser, parser.header, parser.packet
      ensures Valid() && u.inHand == [] && InOrder(u) && u.log.words == WordsSince(moves)
    {
      hide InOrder;
      hide Run;
      AlwaysInOrder(moves);
      var i := 0;
      while i < |hs|
        invariant 0 <= i <= |hs| && Valid() && u.inHand == []
        invariant InOrder(u) && u.log.words == WordsSince(moves)
      {
        Happen(hs[i]);
        AlwaysInOrder(moves);
        i := i + 1;
      }
    }
  }
}
