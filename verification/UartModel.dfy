/** The UART receive path as a run of single accesses: a word read by the interrupt handler, the
    task taking the oldest byte from the ring, giving it to the parser, and a controller
    reset, in any order.  What the path promises over every such run. */
module UartModel {
  import opened Hci
  import H4Framing

  const RING_SIZE := 4096
  const PACKET_STORAGE := HCI_ACL_MAX_LEN + 8

  // ---------------------------------------------------------------- what arrived

  /** What the UART data register holds: a byte, and above it four error flags. */
  type DataWord = x: int | 0 <= x < 0x1000

  predicate LineError(w: DataWord) {
    w >= 0x100
  }

  /** The bytes received without a line error. */
  function Clean(words: seq<DataWord>): (bytes: seq<Byte>)
    ensures |bytes| <= |words|
  {
    if words == [] then []
    else
      var w, before := words[|words| - 1], Clean(words[..|words| - 1]);
      if LineError(w) then before else before + [w]
  }

  lemma CleanSnoc(words: seq<DataWord>, w: DataWord)
    ensures Clean(words + [w]) == if LineError(w) then Clean(words) else Clean(words) + [w]
  {
    assert (words + [w])[..|words|] == words;
  }

  /** One character off the line: good, or with some of the four errors, in the bits above it. */
  datatype Character = Good(byte: Byte) | Bad(byte: Byte, errors: int)

  predicate Possible(c: Character) {
    c.Bad? ==> 1 <= c.errors <= 15
  }

  function WordsOf(cs: seq<Character>): seq<DataWord>
    requires forall i :: 0 <= i < |cs| ==> Possible(cs[i])
    decreases |cs|
  {
    if cs == [] then []
    else
      var n := |cs| - 1;
      assert Possible(cs[n]);
      WordsOf(cs[..n]) + [if cs[n].Good? then cs[n].byte as int else 256 * cs[n].errors + cs[n].byte]
  }

  function GoodBytes(cs: seq<Character>): seq<Byte>
    decreases |cs|
  {
    if cs == [] then []
    else
      var n := |cs| - 1;
      GoodBytes(cs[..n]) + if cs[n].Good? then [cs[n].byte] else []
  }

  /** MAIN: of the words read from the data register exactly the good characters are received. */
  lemma {:induction false} CleanAreGood(cs: seq<Character>)
    requires forall i :: 0 <= i < |cs| ==> Possible(cs[i])
    ensures Clean(WordsOf(cs)) == GoodBytes(cs)
    decreases |cs|
  {
    hide Clean;
    if cs == [] {
      CleanNone();
    } else {
      var n := |cs| - 1;
      CleanAreGood(cs[..n]);
      assert Possible(cs[n]);
      CleanSnoc(WordsOf(cs[..n]), if cs[n].Good? then cs[n].byte as int else 256 * cs[n].errors + cs[n].byte);
    }
  }

  lemma CleanNone()
    ensures Clean([]) == []
  {
  }

  /** `a` is the elements of `c` at the positions `at`, in order. */
  ghost predicate Picks(a: seq<Byte>, c: seq<Byte>, at: seq<int>) {
    && |at| == |a|
    && (forall k :: 0 <= k < |at| ==> 0 <= at[k] < |c| && c[at[k]] == a[k])
    && (forall j, k :: 0 <= j < k < |at| ==> at[j] < at[k])
  }

  /** `a` is `c` with some elements left out. */
  ghost predicate Thinned(a: seq<Byte>, c: seq<Byte>) {
    exists at :: Picks(a, c, at)
  }

  lemma ThinnedEmpty(c: seq<Byte>)
    ensures Thinned([], c)
  {
    assert Picks([], c, []);
  }

  lemma ThinnedSnoc(a: seq<Byte>, c: seq<Byte>, x: Byte)
    requires Thinned(a, c)
    ensures Thinned(a + [x], c + [x]) && Thinned(a, c + [x])
  {
    var at :| Picks(a, c, at);
    assert Picks(a + [x], c + [x], at + [|c|]);
    assert Picks(a, c + [x], at);
  }

  lemma {:induction false} PickedFrom(a: seq<Byte>, c: seq<Byte>, at: seq<int>, k: nat)
    requires Picks(a, c, at) && k < |a|
    ensures k <= at[k]
  {
    if k > 0 { PickedFrom(a, c, at, k - 1); }
  }

  lemma {:induction false} PickedUpTo(a: seq<Byte>, c: seq<Byte>, at: seq<int>, k: nat)
    requires Picks(a, c, at) && k < |a|
    ensures at[k] + (|a| - k) <= |c|
    decreases |a| - k
  {
    if k + 1 < |a| { PickedUpTo(a, c, at, k + 1); }
  }

  lemma ThinnedSameLength(a: seq<Byte>, c: seq<Byte>)
    requires Thinned(a, c) && |a| == |c|
    ensures a == c
  {
    var at :| Picks(a, c, at);
    forall k | 0 <= k < |a| ensures a[k] == c[k] {
      PickedFrom(a, c, at, k);
      PickedUpTo(a, c, at, k);
    }
  }

  // --------------------------------------------------------------- the overflows

  /** `++` on a uint32_t. */
  function Increment(n: Word32): Word32 {
    if n == 0xffff_ffff then 0 else n + 1
  }

  /** A uint32_t counter that stood at `base`, after `n` increments. */
  function Counter(base: Word32, n: nat): Word32 {
    if n == 0 then base else Increment(Counter(base, n - 1))
  }

  lemma {:induction false} CounterIsModular(base: Word32, n: nat)
    ensures Counter(base, n) == Wrap32(base + n)
  {
    if n != 0 { CounterIsModular(base, n - 1); }
  }

  // --------------------------------------------------------------------- the ring

  /** A queue of at most 4095 after `bytes` arrive. */
  function Filled(queue: seq<Byte>, bytes: seq<Byte>): (q: seq<Byte>)
    requires |queue| < RING_SIZE
    ensures |q| < RING_SIZE && queue <= q
  {
    var room := RING_SIZE - 1 - |queue|;
    queue + if |bytes| <= room then bytes else bytes[..room]
  }

  /** The queue after one word arrives. */
  function Arrived(queue: seq<Byte>, w: DataWord): seq<Byte> {
    if LineError(w) || |queue| >= RING_SIZE - 1 then queue else queue + [w]
  }

  lemma FilledSnoc(queue: seq<Byte>, words: seq<DataWord>, w: DataWord)
    requires |queue| < RING_SIZE
    ensures Filled(queue, Clean(words + [w])) == Arrived(Filled(queue, Clean(words)), w)
  {
    var c, room := Clean(words), RING_SIZE - 1 - |queue|;
    CleanSnoc(words, w);
    hide Clean;
    if LineError(w) {
    } else if |c| < room {
      assert queue + (c + [w]) == queue + c + [w];
    } else {
      assert (c + [w])[..room] == c[..room];
    }
  }

  lemma FilledNone(queue: seq<Byte>)
    requires |queue| < RING_SIZE
    ensures Filled(queue, Clean([])) == queue
  {
  }

  lemma FilledNext(queue: seq<Byte>, fifo: seq<DataWord>, i: nat)
    requires |queue| < RING_SIZE && i < |fifo|
    ensures Filled(queue, Clean(fifo[..i + 1])) == Arrived(Filled(queue, Clean(fifo[..i])), fifo[i])
  {
    assert fifo[..i + 1] == fifo[..i] + [fifo[i]];
    FilledSnoc(queue, fifo[..i], fifo[i]);
  }

  // ------------------------------------------------------------------------- runs

  datatype Move = Word(w: DataWord) | Take | Give | Reset

  /** Since the last controller reset: every word read from the data register, the bytes put in
      the ring, those given to the parser and how many the full ring refused; and where the
      overflow counter and the parser stood then. */
  datatype Log = Log(words: seq<DataWord>, accepted: seq<Byte>, fed: seq<Byte>, dropped: nat,
                     overflowsAtReset: Word32, receiverAtReset: H4Framing.Receiver)

  /** The unread bytes, the byte the task has taken but not yet given, the parser and the
      overflow counter. */
  datatype Uart = Uart(queue: seq<Byte>, inHand: seq<Byte>, receiver: H4Framing.Receiver, overflows: Word32,
                       log: Log)

  function Fresh(r: H4Framing.Receiver, overflows: Word32): Uart {
    Uart([], [], r, overflows, Log([], [], [], 0, overflows, r))
  }

  const START := Fresh(H4Framing.Receiver(PACKET_STORAGE, H4Framing.WaitType, 0, 0, []), 0)

  function ReceiveWord(u: Uart, w: DataWord): Uart {
    var log := u.log.(words := u.log.words + [w]);
    if LineError(w) then u.(log := log)
    else if |u.queue| < RING_SIZE - 1 then
      u.(queue := u.queue + [w], log := log.(accepted := log.accepted + [w]))
    else u.(overflows := Increment(u.overflows), log := log.(dropped := log.dropped + 1))
  }

  ghost predicate ParsersSound(u: Uart) {
    H4Framing.Sound(u.receiver) && H4Framing.Sound(u.log.receiverAtReset)
  }

  function TakeByte(u: Uart): Uart {
    if u.inHand != [] || u.queue == [] then u else u.(queue := u.queue[1..], inHand := [u.queue[0]])
  }

  function GiveByte(u: Uart): Uart
    requires H4Framing.Sound(u.receiver)
  {
    if u.inHand == [] then u
    else
      u.(inHand := [], receiver := H4Framing.Feed(u.receiver, u.inHand[0]),
         log := u.log.(fed := u.log.fed + [u.inHand[0]]))
  }

  function Step(u: Uart, m: Move): (u': Uart)
    requires ParsersSound(u)
    ensures ParsersSound(u')
  {
    match m
    case Word(w) => ReceiveWord(u, w)
    case Take => TakeByte(u)
    case Give => GiveByte(u)
    case Reset => Fresh(u.receiver.(state := H4Framing.WaitType), u.overflows)
  }

  /** The path after a run from power-up. */
  ghost function Run(moves: seq<Move>): (u: Uart)
    ensures ParsersSound(u)
    decreases |moves|
  {
    if moves == [] then START else Step(Run(moves[..|moves| - 1]), moves[|moves| - 1])
  }

  lemma RunSnoc(moves: seq<Move>, m: Move)
    ensures Run(moves + [m]) == Step(Run(moves), m)
  {
    assert (moves + [m])[..|moves|] == moves;
  }

  /** The words read since the last reset of a run. */
  function WordsSince(moves: seq<Move>): seq<DataWord>
    decreases |moves|
  {
    if moves == [] then []
    else
      var n := |moves| - 1;
      match moves[n]
      case Word(w) => WordsSince(moves[..n]) + [w]
      case Reset => []
      case _ => WordsSince(moves[..n])
  }

  /** Nothing lost or reordered between the data register and the parser. */
  ghost predicate Accounted(u: Uart) {
    && u.log.accepted == u.log.fed + u.inHand + u.queue
    && |u.queue| <= RING_SIZE - 1 && |u.inHand| <= 1
    && Thinned(u.log.accepted, Clean(u.log.words))
    && |Clean(u.log.words)| == |u.log.accepted| + u.log.dropped
    && u.overflows == Counter(u.log.overflowsAtReset, u.log.dropped)
  }

  /** The parser is where the bytes given to it bring it. */
  ghost predicate Fed(u: Uart) {
    && u.log.receiverAtReset.state == H4Framing.WaitType
    && u.log.receiverAtReset.capacity == PACKET_STORAGE
    && u.receiver == H4Framing.FeedAll(u.log.receiverAtReset, u.log.fed)
  }

  lemma WordAccounted(u: Uart, w: DataWord)
    requires Accounted(u)
    ensures Accounted(ReceiveWord(u, w))
  {
    CleanSnoc(u.log.words, w);
    hide Clean;
    if !LineError(w) {
      ThinnedSnoc(u.log.accepted, Clean(u.log.words), w);
      hide Thinned;
      assert u.log.accepted + [w] == u.log.fed + u.inHand + (u.queue + [w]);
    }
  }

  lemma TakeAccounted(u: Uart)
    requires Accounted(u)
    ensures Accounted(TakeByte(u))
  {
    hide Clean;
    hide Thinned;
    if u.queue != [] {
      assert u.queue == [u.queue[0]] + u.queue[1..];
    }
  }

  lemma GiveAccounted(u: Uart)
    requires Accounted(u) && Fed(u)
    ensures Accounted(GiveByte(u)) && Fed(GiveByte(u))
  {
    hide Clean;
    hide Thinned;
    if u.inHand != [] {
      H4Framing.FeedSnoc(u.log.receiverAtReset, u.log.fed, u.inHand[0]);
      assert u.inHand == [u.inHand[0]];
    }
  }

  lemma FreshAccounted(r: H4Framing.Receiver, overflows: Word32)
    requires H4Framing.Sound(r) && r.state == H4Framing.WaitType && r.capacity == PACKET_STORAGE
    ensures Accounted(Fresh(r, overflows)) && Fed(Fresh(r, overflows))
  {
    ThinnedEmpty([]);
  }

  lemma StepAccounted(u: Uart, m: Move)
    requires ParsersSound(u) && Accounted(u) && Fed(u)
    ensures Accounted(Step(u, m)) && Fed(Step(u, m))
  {
    hide Accounted;
    match m
    case Word(w) => WordAccounted(u, w);
    case Take => TakeAccounted(u);
    case Give => GiveAccounted(u);
    case Reset => FreshAccounted(u.receiver.(state := H4Framing.WaitType), u.overflows);
  }

  lemma {:induction false} RunAccounted(moves: seq<Move>)
    ensures Accounted(Run(moves)) && Fed(Run(moves))
    decreases |moves|
  {
    hide Accounted;
    hide Fed;
    if moves == [] {
      FreshAccounted(START.receiver, 0);
    } else {
      RunAccounted(moves[..|moves| - 1]);
      StepAccounted(Run(moves[..|moves| - 1]), moves[|moves| - 1]);
    }
  }

  lemma StepWords(u: Uart, m: Move)
    requires ParsersSound(u)
    ensures Step(u, m).log.words
         == match m case Word(w) => u.log.words + [w] case Reset => [] case _ => u.log.words
  {
  }

  lemma {:induction false} RunWords(moves: seq<Move>)
    ensures Run(moves).log.words == WordsSince(moves)
    decreases |moves|
  {
    if moves != [] {
      RunWords(moves[..|moves| - 1]);
      StepWords(Run(moves[..|moves| - 1]), moves[|moves| - 1]);
    }
  }

  // ----------------------------------------------------------------- main results

  /** What the parser has been given is a prefix of what the ring accepted, the ring holds at most
      4095 bytes, the accepted bytes are the clean ones less the counted drops, and the
      parser is where the frame-at-a-time reading of the bytes given puts it. */
  ghost predicate InOrder(u: Uart)
    requires ParsersSound(u)
  {
    && u.log.fed <= u.log.accepted && Thinned(u.log.accepted, Clean(u.log.words))
    && u.log.accepted == u.log.fed + u.inHand + u.queue && |u.queue| <= 4095 && |u.inHand| <= 1
    && |Clean(u.log.words)| == |u.log.accepted| + u.log.dropped
    && u.overflows == Wrap32(u.log.overflowsAtReset + u.log.dropped)
    && u.receiver == H4Framing.Decoded(u.log.receiverAtReset, H4Framing.Decode(2056, u.log.fed))
    && u.log.receiverAtReset.state == H4Framing.WaitType && u.receiver.capacity == 2056
  }

  /** MAIN: after every run of words, takes, gives and resets, in any order, the path is in
      order, and its words are those of the run since the last reset. */
  lemma AlwaysInOrder(moves: seq<Move>)
    ensures InOrder(Run(moves)) && Run(moves).log.words == WordsSince(moves)
  {
    hide Run;
    hide InOrder;
    RunAccounted(moves);
    RunWords(moves);
    AccountedInOrder(Run(moves));
  }

  lemma AccountedInOrder(u: Uart)
    requires ParsersSound(u) && Accounted(u) && Fed(u)
    ensures InOrder(u)
  {
    hide Clean;
    hide Thinned;
    hide Counter;
    assert u.log.accepted == u.log.fed + (u.inHand + u.queue);
    CounterIsModular(u.log.overflowsAtReset, u.log.dropped);
    H4Framing.FeedAllDecodes(u.log.receiverAtReset, u.log.fed);
    hide H4Framing.FeedAll;
    hide H4Framing.Decode;
  }

  lemma StartIsRun()
    ensures Run([]) == START
  {
  }

  /** MAIN: in every run a good byte is dropped, and counted, exactly when 4095 are unread; taking
      takes the oldest whenever there is one and the hand is empty; giving feeds what is in hand;
      and a reset empties all of it and leaves the counter and what the parser delivered.  At
      power-up nothing has been received, counted or delivered. */
  lemma EachMoveCounts(moves: seq<Move>, m: Move)
    ensures var u := Run([]);
            && u.queue == u.inHand == u.log.words == u.log.accepted == u.log.fed == [] && u.log.dropped == 0
            && u.overflows == u.receiver.errors == u.receiver.refusals == 0 && u.receiver.delivered == []
    ensures var u, u' := Run(moves), Run(moves + [m]);
            match m
            case Word(w) =>
              && u'.log.accepted == u.log.accepted + (if w < 256 && |u.queue| < 4095 then [w] else [])
              && u'.log.dropped == u.log.dropped + (if w < 256 && |u.queue| == 4095 then 1 else 0)
              && u'.inHand == u.inHand && u'.log.fed == u.log.fed
            case Take =>
              && u'.inHand == (if u.inHand == [] && u.queue != [] then [u.queue[0]] else u.inHand)
              && u'.log == u.log && u'.overflows == u.overflows
            case Give =>
              && u'.inHand == [] && u'.log.fed == u.log.fed + u.inHand && u'.queue == u.queue
              && u'.overflows == u.overflows
            case Reset =>
              && u'.queue == u'.inHand == [] && u'.log.words == u'.log.accepted == u'.log.fed == []
              && u'.overflows == u.overflows == u'.log.overflowsAtReset
              && u'.receiver.delivered == u.receiver.delivered && u'.receiver.errors == u.receiver.errors
  {
    RunAccounted(moves);
    RunSnoc(moves, m);
    hide Run;
    hide Thinned;
    hide Clean;
    hide Counter;
    hide H4Framing.Feed;
    hide H4Framing.FeedAll;
    StartIsRun();
    var u := Run(moves);
    if m.Give? && |u.inHand| == 1 { assert u.inHand == [u.inHand[0]]; }
  }

  /** `moves` goes on from `before` without a reset. */
  ghost predicate Continues(before: seq<Move>, moves: seq<Move>) {
    before <= moves && forall k :: |before| <= k < |moves| ==> moves[k] != Reset
  }

  lemma ContinuesHere(moves: seq<Move>)
    ensures Continues(moves, moves)
  {
  }

  lemma ContinuesOn(a: seq<Move>, b: seq<Move>, c: seq<Move>)
    requires Continues(a, b) && Continues(b, c)
    ensures Continues(a, c)
  {
  }

  lemma ContinuesBy(moves: seq<Move>, m: Move)
    requires m != Reset
    ensures Continues(moves, moves + [m])
  {
  }

  lemma StepGrows(u: Uart, m: Move)
    requires ParsersSound(u) && m != Reset
    ensures u.log.words <= Step(u, m).log.words && u.log.accepted <= Step(u, m).log.accepted
    ensures u.log.fed <= Step(u, m).log.fed && u.receiver.delivered <= Step(u, m).receiver.delivered
    ensures u.log.receiverAtReset == Step(u, m).log.receiverAtReset
  {
  }

  /** MAIN: between resets nothing is taken back: what was received, accepted, fed and delivered
      stays, as the beginning of what is received, accepted, fed and delivered later. */
  lemma {:induction false} OnlyGrows(earlier: seq<Move>, moves: seq<Move>)
    requires Continues(earlier, moves)
    ensures var u, u' := Run(earlier), Run(moves);
            && u.log.words <= u'.log.words && u.log.accepted <= u'.log.accepted
            && u.log.fed <= u'.log.fed && u.receiver.delivered <= u'.receiver.delivered
    decreases |moves|
  {
    if |earlier| == |moves| {
      assert earlier == moves;
    } else {
      var before, m := moves[..|moves| - 1], moves[|moves| - 1];
      OnlyGrows(earlier, before);
      StepGrows(Run(before), m);
      hide Step;
    }
  }

  /** Drained: every clean byte was fed exactly when none was dropped. */
  lemma FedIffNoneDropped(u: Uart)
    requires Accounted(u) && u.queue == [] && u.inHand == []
    ensures u.log.fed == Clean(u.log.words) <==> u.log.dropped == 0
  {
    assert u.log.accepted == u.log.fed;
    if u.log.dropped == 0 { ThinnedSameLength(u.log.accepted, Clean(u.log.words)); }
  }

  /** MAIN: end to end.  Once the ring is drained, every clean byte received since the last reset
      has been fed if and only if none was dropped; then the parser is where the H4 decoding
      of the clean bytes puts it, with exactly its packets delivered.  While fewer than 2^32
      words are received the overflow counter tells: none was dropped if and only if it
      stands where the reset left it. */
  lemma EndToEnd(moves: seq<Move>)
    requires Run(moves).queue == [] && Run(moves).inHand == []
    ensures var u, clean := Run(moves), Clean(WordsSince(moves));
            && (u.log.fed == clean <==> u.log.dropped == 0)
            && (u.log.dropped == 0 ==>
                  u.receiver == H4Framing.Decoded(u.log.receiverAtReset, H4Framing.Decode(2056, clean)))
            && (|WordsSince(moves)| < 0x1_0000_0000
                ==> (u.log.dropped == 0 <==> u.overflows == u.log.overflowsAtReset))
  {
    hide Run;
    AlwaysInOrder(moves);
    RunAccounted(moves);
    FedIffNoneDropped(Run(moves));
  }
}
