/** ACL packets from USB: the host's bulk transfers cut the packets anywhere, and the bridge
    puts them together again from the length in each packet's own header. */
module AclReassembly {
  import opened Hci

  /** The true length a header declares, and the 16-bit length the code computes. */
  function DeclaredLen(p: seq<Byte>): nat
    requires |p| >= 4
  {
    4 + Le16(p[2], p[3])
  }

  function TotalLen(p: seq<Byte>): Word16
    requires |p| >= 4
  {
    Wrap16(DeclaredLen(p))
  }

  /** The packet under construction; `expected` is 0 when there is none. */
  datatype Partial = Partial(buf: seq<Byte>, expected: nat)

  const NONE := Partial([], 0)

  /** What stands between two calls. */
  ghost predicate Sound(a: Partial) {
    || a == NONE
    || (4 <= |a.buf| < a.expected <= HCI_ACL_MAX_LEN && a.expected == DeclaredLen(a.buf))
  }

  /** A new packet can start with these bytes. */
  predicate Starts(fragment: seq<Byte>) {
    |fragment| >= 4 && 4 <= TotalLen(fragment) <= HCI_ACL_MAX_LEN
  }

  /** A fragment's effect: the new partial packet, the packets completed, and how many bytes
      of it were thrown away. */
  datatype Outcome = Outcome(partial: Partial, packets: seq<seq<Byte>>, discarded: nat)

  /** One pass of the loop takes `Take` bytes. */
  function Take(a: Partial, fragment: seq<Byte>): nat
    requires Sound(a) && (a == NONE ==> Starts(fragment))
  {
    var remaining := if a == NONE then TotalLen(fragment) else a.expected - |a.buf|;
    if |fragment| < remaining then |fragment| else remaining
  }

  /** The partial packet after that pass, complete or not. */
  function Grown(a: Partial, fragment: seq<Byte>): (g: Partial)
    requires Sound(a) && (a == NONE ==> Starts(fragment))
    ensures 4 <= |g.buf| <= g.expected <= HCI_ACL_MAX_LEN && g.expected == DeclaredLen(g.buf)
  {
    var take := Take(a, fragment);
    if a == NONE then Partial(fragment[..take], TotalLen(fragment))
    else Partial(a.buf + fragment[..take], a.expected)
  }

  function Absorb(a: Partial, fragment: seq<Byte>): (o: Outcome)
    requires Sound(a)
    ensures Sound(o.partial)
    decreases |fragment|
  {
    if fragment == [] then Outcome(a, [], 0)
    else if a == NONE && !Starts(fragment) then Outcome(NONE, [], |fragment|)
    else
      var g, rest := Grown(a, fragment), fragment[Take(a, fragment)..];
      if |g.buf| == g.expected then
        var o := Absorb(NONE, rest);
        o.(packets := [g.buf] + o.packets)
      else Absorb(g, rest)
  }

  function AbsorbAll(a: Partial, fragments: seq<seq<Byte>>): (o: Outcome)
    requires Sound(a)
    ensures Sound(o.partial)
    decreases |fragments|
  {
    if fragments == [] then Outcome(a, [], 0)
    else
      var o := Absorb(a, fragments[0]);
      var rest := AbsorbAll(o.partial, fragments[1..]);
      Outcome(rest.partial, o.packets + rest.packets, o.discarded + rest.discarded)
  }

  // -------------------------------------------------------------- arbitrary bytes

  /** A header is taken exactly when its true length, before the 16-bit cast, is at
      most 2048: a length that wraps lands in 0..3 and is refused. */
  lemma StartsIffFits(fragment: seq<Byte>)
    requires |fragment| >= 4
    ensures Starts(fragment) <==> DeclaredLen(fragment) <= HCI_ACL_MAX_LEN
  {
  }

  ghost predicate Whole(p: seq<Byte>) {
    4 <= |p| <= HCI_ACL_MAX_LEN && |p| == DeclaredLen(p)
  }

  /** MAIN: whatever arrives, every completed packet is as long as its own header says, and
      every byte is in a completed packet, in the partial one, or counted as discarded. */
  lemma {:induction false} AbsorbWhole(a: Partial, fragment: seq<Byte>)
    requires Sound(a)
    ensures var o := Absorb(a, fragment);
            && (forall i :: 0 <= i < |o.packets| ==> Whole(o.packets[i]))
            && |Flatten(o.packets)| + |o.partial.buf| + o.discarded == |a.buf| + |fragment|
    decreases |fragment|
  {
    if fragment != [] && (a != NONE || Starts(fragment)) {
      var g, rest := Grown(a, fragment), fragment[Take(a, fragment)..];
      if |g.buf| == g.expected {
        AbsorbWhole(NONE, rest);
        FlattenCons(g.buf, Absorb(NONE, rest).packets);
      } else {
        AbsorbWhole(g, rest);
      }
    }
  }

  lemma FlattenCons(p: seq<Byte>, packets: seq<seq<Byte>>)
    ensures Flatten([p] + packets) == p + Flatten(packets)
  {
    assert ([p] + packets)[1..] == packets;
  }

  lemma {:induction false} AbsorbAllCounts(a: Partial, fragments: seq<seq<Byte>>)
    requires Sound(a)
    ensures var o := AbsorbAll(a, fragments);
            |Flatten(o.packets)| + |o.partial.buf| + o.discarded == |a.buf| + |Flatten(fragments)|
    decreases |fragments|
  {
    if fragments != [] {
      var o := Absorb(a, fragments[0]);
      AbsorbWhole(a, fragments[0]);
      AbsorbAllCounts(o.partial, fragments[1..]);
      FlattenConcat(o.packets, AbsorbAll(o.partial, fragments[1..]).packets);
    }
  }

  // ------------------------------------------------------- independence of the cut

  ghost predicate AllWhole(packets: seq<seq<Byte>>) {
    forall i :: 0 <= i < |packets| ==> Whole(packets[i])
  }

  /** How many bytes the first `k` parts hold. */
  function Boundary(parts: seq<seq<Byte>>, k: nat): nat
    requires k <= |parts|
    decreases k
  {
    if k == 0 then 0 else |parts[0]| + Boundary(parts[1..], k - 1)
  }

  /** Position `n` of the stream falls inside the header of packet `j`, not at its start. */
  ghost predicate InsideHeader(packets: seq<seq<Byte>>, j: int, n: int) {
    0 <= j < |packets| && Boundary(packets, j) < n < Boundary(packets, j) + 4
  }

  ghost predicate CutAt(packets: seq<seq<Byte>>, n: int) {
    exists j :: InsideHeader(packets, j, n)
  }

  /** With `done` bytes already received, no fragment ends inside a packet header. */
  ghost predicate HeadersUncut(packets: seq<seq<Byte>>, done: nat, fragments: seq<seq<Byte>>) {
    forall k :: 0 < k <= |fragments| ==> !CutAt(packets, done + Boundary(fragments, k))
  }

  lemma CutInFirst(packets: seq<seq<Byte>>, n: int)
    requires AllWhole(packets) && packets != [] && n < |packets[0]|
    ensures CutAt(packets, n) <==> 0 < n < 4
  {
    forall j | 0 < j < |packets| ensures !InsideHeader(packets, j, n) {
      assert Boundary(packets, j) >= |packets[0]|;
    }
    assert InsideHeader(packets, 0, n) <==> 0 < n < 4;
  }

  lemma CutAfterFirst(packets: seq<seq<Byte>>, n: int)
    requires AllWhole(packets) && packets != [] && n >= |packets[0]|
    ensures CutAt(packets, n) <==> CutAt(packets[1..], n - |packets[0]|)
  {
    var tail, n' := packets[1..], n - |packets[0]|;
    assert Whole(packets[0]);
    if j :| InsideHeader(packets, j, n) {
      assert InsideHeader(tail, j - 1, n');
    }
    if j :| InsideHeader(tail, j, n') {
      assert InsideHeader(packets, j + 1, n);
    }
  }

  lemma {:induction false} CutAfter(packets: seq<seq<Byte>>, m: nat, n: int)
    requires AllWhole(packets) && m <= |packets| && n >= Boundary(packets, m)
    ensures CutAt(packets, n) <==> CutAt(packets[m..], n - Boundary(packets, m))
    decreases m
  {
    if m == 0 {
      assert packets[m..] == packets;
    } else {
      CutAfterFirst(packets, n);
      CutAfter(packets[1..], m - 1, n - |packets[0]|);
      assert packets[1..][m - 1..] == packets[m..];
    }
  }

  /** The partial packet is the beginning of the first of `packets`, and `stream` brings the
      rest of it and all the others. */
  ghost predicate Aligned(packets: seq<seq<Byte>>, a: Partial, stream: seq<Byte>) {
    && Sound(a) && AllWhole(packets)
    && a.buf + stream == Flatten(packets)
    && (a != NONE ==> packets != [] && |a.buf| < |packets[0]|)
  }

  lemma NothingLeft(packets: seq<seq<Byte>>)
    requires AllWhole(packets)
    ensures packets == [] || |Flatten(packets)| >= 4
  {
    if packets != [] { assert Whole(packets[0]); }
  }

  lemma AlignedStart(packets: seq<seq<Byte>>, fragment: seq<Byte>, after: seq<Byte>)
    requires Aligned(packets, NONE, fragment + after) && fragment != []
    ensures packets != [] && (Starts(fragment) <==> |fragment| >= 4)
    ensures |fragment| >= 4 ==> TotalLen(fragment) == |packets[0]|
  {
    assert [] + (fragment + after) == fragment + after;
    assert packets != [];
    var p := packets[0];
    assert Whole(p);
    assert p == Flatten(packets)[..|p|];
    if |fragment| >= 4 {
      assert fragment[2] == p[2] && fragment[3] == p[3];
    }
  }

  lemma GrownStream(a: Partial, fragment: seq<Byte>, after: seq<Byte>)
    requires Sound(a) && fragment != [] && (a == NONE ==> Starts(fragment))
    ensures var g, rest := Grown(a, fragment), fragment[Take(a, fragment)..];
            && a.buf + (fragment + after) == g.buf + (rest + after)
            && |g.buf| + |rest| == |a.buf| + |fragment| && |rest| < |fragment|
            && (|g.buf| < g.expected ==> rest == [])
            && g.expected == if a == NONE then TotalLen(fragment) else a.expected
  {
    var take := Take(a, fragment);
    assert fragment == fragment[..take] + fragment[take..];
    assert a.buf + (fragment + after) == (a.buf + fragment[..take]) + (fragment[take..] + after);
  }

  lemma FirstComplete(packets: seq<seq<Byte>>, buf: seq<Byte>, stream: seq<Byte>)
    requires packets != [] && buf + stream == Flatten(packets) && |buf| == |packets[0]|
    ensures buf == packets[0] && stream == Flatten(packets[1..])
  {
    assert Flatten(packets) == packets[0] + Flatten(packets[1..]);
    assert buf == (buf + stream)[..|buf|] && stream == (buf + stream)[|buf|..];
  }

  /** One pass over an aligned partial packet. */
  lemma AlignedGrown(packets: seq<seq<Byte>>, a: Partial, fragment: seq<Byte>, after: seq<Byte>)
    requires Aligned(packets, a, fragment + after) && fragment != [] && (a == NONE ==> |fragment| >= 4)
    ensures packets != [] && (a == NONE ==> Starts(fragment))
    ensures var g, rest := Grown(a, fragment), fragment[Take(a, fragment)..];
            && g.expected == |packets[0]| && |g.buf| + |rest| == |a.buf| + |fragment|
            && (|g.buf| == g.expected ==> g.buf == packets[0] && Aligned(packets[1..], NONE, rest + after))
            && (|g.buf| < g.expected ==> rest == [] && Aligned(packets, g, after))
  {
    if a == NONE { AlignedStart(packets, fragment, after); }
    if a != NONE { AlignedHeader(packets, a, fragment + after); }
    GrownStream(a, fragment, after);
    var g, rest := Grown(a, fragment), fragment[Take(a, fragment)..];
    if |g.buf| == g.expected {
      FirstComplete(packets, g.buf, rest + after);
      assert [] + (rest + after) == rest + after;
    } else {
      assert [] + after == after;
    }
  }

  lemma AlignedHeader(packets: seq<seq<Byte>>, a: Partial, stream: seq<Byte>)
    requires Aligned(packets, a, stream) && a != NONE
    ensures a.expected == |packets[0]|
  {
    var p := packets[0];
    assert Whole(p);
    assert p[2] == Flatten(packets)[2] == a.buf[2] && p[3] == Flatten(packets)[3] == a.buf[3];
  }

  /** One fragment of an aligned stream: it discards something exactly when it ends inside a
      header; otherwise it completes the next `m` packets and stays aligned. */
  ghost predicate AbsorbsAligned(packets: seq<seq<Byte>>, a: Partial, fragment: seq<Byte>, after: seq<Byte>,
                                 m: nat)
    requires Sound(a)
  {
    var o := Absorb(a, fragment);
    && m <= |packets|
    && (o.discarded == 0 <==> !CutAt(packets, |a.buf| + |fragment|))
    && (o.discarded == 0 ==>
          && o.packets == packets[..m] && Aligned(packets[m..], o.partial, after)
          && |a.buf| + |fragment| == Boundary(packets, m) + |o.partial.buf|)
  }

  lemma {:induction false} AbsorbAligned(packets: seq<seq<Byte>>, a: Partial, fragment: seq<Byte>, after: seq<Byte>)
    returns (m: nat)
    requires Aligned(packets, a, fragment + after)
    ensures AbsorbsAligned(packets, a, fragment, after, m)
    decreases |fragment|
  {
    assert packets[0..] == packets;
    if fragment == [] {
      m := 0;
      assert fragment + after == after;
      if a != NONE { CutInFirst(packets, |a.buf|); } else { NotCutAtStart(packets); }
    } else if a == NONE && |fragment| < 4 {
      m := 0;
      AlignedStart(packets, fragment, after);
      assert Whole(packets[0]);
      CutInFirst(packets, |fragment|);
    } else {
      AlignedGrown(packets, a, fragment, after);
      var g, rest := Grown(a, fragment), fragment[Take(a, fragment)..];
      if |g.buf| == g.expected {
        var m' := AbsorbAligned(packets[1..], NONE, rest, after);
        AbsorbsFirst(packets, a, fragment, after, m');
        m := m' + 1;
      } else {
        m := 0;
        assert Absorb(g, rest) == Outcome(g, [], 0);
        CutInFirst(packets, |g.buf|);
      }
    }
  }

  lemma AbsorbsFirst(packets: seq<seq<Byte>>, a: Partial, fragment: seq<Byte>, after: seq<Byte>, m': nat)
    requires Aligned(packets, a, fragment + after) && packets != []
    requires fragment != [] && (a == NONE ==> Starts(fragment))
    requires var g, rest := Grown(a, fragment), fragment[Take(a, fragment)..];
             && |g.buf| == g.expected && g.buf == packets[0]
             && |g.buf| + |rest| == |a.buf| + |fragment|
             && AbsorbsAligned(packets[1..], NONE, rest, after, m')
    ensures AbsorbsAligned(packets, a, fragment, after, m' + 1)
  {
    var g, rest := Grown(a, fragment), fragment[Take(a, fragment)..];
    var o := Absorb(NONE, rest);
    assert Absorb(a, fragment) == o.(packets := [g.buf] + o.packets);
    CutAfterFirst(packets, |a.buf| + |fragment|);
    assert packets[..m' + 1] == [packets[0]] + packets[1..][..m'];
    assert packets[m' + 1..] == packets[1..][m'..];
  }

  lemma NotCutAtStart(packets: seq<seq<Byte>>)
    ensures !CutAt(packets, 0)
  {
  }

  lemma {:induction false} AbsorbAllAligned(packets: seq<seq<Byte>>, a: Partial, fragments: seq<seq<Byte>>)
    requires Aligned(packets, a, Flatten(fragments))
    ensures HeadersUncut(packets, |a.buf|, fragments)
        ==> AbsorbAll(a, fragments) == Outcome(NONE, packets, 0)
    ensures !HeadersUncut(packets, |a.buf|, fragments) ==> AbsorbAll(a, fragments).discarded > 0
    decreases |fragments|
  {
    if fragments == [] {
      assert a.buf + [] == a.buf;
      if a == NONE { NothingLeft(packets); }
    } else {
      hide CutAt;
      hide Aligned;
      hide HeadersUncut;
      var first, rest := fragments[0], fragments[1..];
      var m := AbsorbAligned(packets, a, first, Flatten(rest));
      var o := Absorb(a, first);
      assert AbsorbAll(a, fragments).discarded == o.discarded + AbsorbAll(o.partial, rest).discarded;
      UncutFirst(packets, |a.buf|, fragments);
      if o.discarded == 0 {
        UncutRest(packets, |a.buf|, fragments, m, |o.partial.buf|);
        AbsorbAllAligned(packets[m..], o.partial, rest);
        assert packets[..m] + packets[m..] == packets;
      }
    }
  }

  lemma UncutFirst(packets: seq<seq<Byte>>, done: nat, fragments: seq<seq<Byte>>)
    requires fragments != []
    ensures HeadersUncut(packets, done, fragments)
       <==> !CutAt(packets, done + |fragments[0]|)
            && HeadersUncut(packets, done + |fragments[0]|, fragments[1..])
  {
    var done' := done + |fragments[0]|;
    assert Boundary(fragments, 1) == |fragments[0]|;
    forall k | 0 < k < |fragments|
      ensures done + Boundary(fragments, k + 1) == done' + Boundary(fragments[1..], k)
    {
    }
    if HeadersUncut(packets, done, fragments) {
      forall k | 0 < k <= |fragments[1..]| ensures !CutAt(packets, done' + Boundary(fragments[1..], k)) {
        assert !CutAt(packets, done + Boundary(fragments, k + 1));
      }
    }
    if !CutAt(packets, done') && HeadersUncut(packets, done', fragments[1..]) {
      forall k | 0 < k <= |fragments| ensures !CutAt(packets, done + Boundary(fragments, k)) {
        if k > 1 { assert !CutAt(packets, done' + Boundary(fragments[1..], k - 1)); }
      }
    }
  }

  /** Packets already completed do not matter to the cuts still to come. */
  lemma UncutRest(packets: seq<seq<Byte>>, done: nat, fragments: seq<seq<Byte>>, m: nat, done': nat)
    requires AllWhole(packets) && fragments != [] && m <= |packets|
    requires done + |fragments[0]| == Boundary(packets, m) + done'
    ensures HeadersUncut(packets, done + |fragments[0]|, fragments[1..])
       <==> HeadersUncut(packets[m..], done', fragments[1..])
  {
    hide CutAt;
    hide AllWhole;
    forall k | 0 < k <= |fragments[1..]|
      ensures CutAt(packets, done + |fragments[0]| + Boundary(fragments[1..], k))
         <==> CutAt(packets[m..], done' + Boundary(fragments[1..], k))
    {
      CutAfter(packets, m, done + |fragments[0]| + Boundary(fragments[1..], k));
    }
  }

  /** MAIN: however the concatenation of whole packets is cut, exactly those packets come
      out, if and only if no fragment ends inside a packet's first four bytes. */
  lemma CutDoesNotMatter(packets: seq<seq<Byte>>, fragments: seq<seq<Byte>>)
    requires AllWhole(packets) && Flatten(fragments) == Flatten(packets)
    ensures AbsorbAll(NONE, fragments).packets == packets <==> HeadersUncut(packets, 0, fragments)
    ensures HeadersUncut(packets, 0, fragments)
        ==> AbsorbAll(NONE, fragments).partial == NONE && AbsorbAll(NONE, fragments).discarded == 0
  {
    assert [] + Flatten(fragments) == Flatten(packets);
    AbsorbAllAligned(packets, NONE, fragments);
    AbsorbAllCounts(NONE, fragments);
  }

  // ------------------------------------------------------------------- byte by byte

  /** An ACL packet before it is serialised: handle with its flags, and payload. */
  datatype AclOf = AclOf(handleLow: Byte, handleHigh: Byte, payload: seq<Byte>)

  function BytesOf(p: AclOf): seq<Byte>
    requires |p.payload| <= 65535
  {
    [p.handleLow, p.handleHigh, |p.payload| % 256, |p.payload| / 256] + p.payload
  }

  /** MAIN: the packets that are put together are exactly those built from some handle and a payload
      of at most 2044 bytes. */
  lemma WholeIffBuilt(p: seq<Byte>)
    ensures Whole(p) <==> exists b: AclOf :: |b.payload| <= 2044 && p == BytesOf(b)
  {
    if Whole(p) {
      var b := AclOf(p[0], p[1], p[4..]);
      assert p == BytesOf(b);
    }
  }

  /** What cannot be the beginning of a packet: less than a header, or a header that declares more
      than 2044 bytes of payload. */
  predicate Hopeless(tail: seq<Byte>) {
    0 < |tail| < 4 || (|tail| >= 4 && tail[2] + 0x100 * (tail[3] as int) > 2044)
  }

  lemma HopelessIffNotStarts(tail: seq<Byte>)
    requires tail != []
    ensures Hopeless(tail) <==> !Starts(tail)
  {
  }

  lemma AbsorbFirst(p: seq<Byte>, after: seq<Byte>)
    requires Whole(p)
    ensures var o := Absorb(NONE, after); Absorb(NONE, p + after) == o.(packets := [p] + o.packets)
  {
    var fragment := p + after;
    assert TotalLen(fragment) == |p|;
    assert fragment[..|p|] == p && fragment[|p|..] == after;
  }

  /** MAIN: one transfer of whole packets and then bytes that cannot begin one queues the packets and
      discards just those bytes: what goes wrong costs the rest of its transfer and nothing before. */
  lemma {:induction false} HopelessTailDiscarded(packets: seq<seq<Byte>>, tail: seq<Byte>)
    requires AllWhole(packets) && (tail == [] || Hopeless(tail))
    ensures Absorb(NONE, Flatten(packets) + tail) == Outcome(NONE, packets, |tail|)
    decreases |packets|
  {
    hide Absorb;
    hide Whole;
    if packets == [] {
      assert Flatten(packets) + tail == tail;
      AbsorbHopeless(tail);
    } else {
      var rest := Flatten(packets[1..]) + tail;
      HopelessTailDiscarded(packets[1..], tail);
      AbsorbFirst(packets[0], rest);
      assert Flatten(packets) + tail == packets[0] + rest;
      assert [packets[0]] + packets[1..] == packets;
    }
  }

  lemma AbsorbHopeless(tail: seq<Byte>)
    requires tail == [] || Hopeless(tail)
    ensures Absorb(NONE, tail) == Outcome(NONE, [], |tail|)
  {
    if tail != [] { HopelessIffNotStarts(tail); }
  }
}
