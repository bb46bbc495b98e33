/** The wake list: the sixteen Bluetooth LE peers seen most recently.  `Touch` is one
    sighting; `RecencyIsLastSixteen` says what any number of sightings adds up to. */
module WakePeers {
  import opened Hci

  const MAX_KNOWN_BLE_PEERS := 16

  type Address = s: seq<Byte> | |s| == 6 witness [0, 0, 0, 0, 0, 0]

  datatype Peer = Peer(addrType: Byte, addr: Address)

  ghost predicate NoDuplicates<T>(s: seq<T>) {
    forall i, j :: 0 <= i < j < |s| ==> s[i] != s[j]
  }

  /** The first position of `p` from `i` on, or the length. */
  function IndexFrom(s: seq<Peer>, p: Peer, i: nat): (j: nat)
    requires i <= |s|
    ensures i <= j <= |s| && (j < |s| ==> s[j] == p)
    ensures forall k :: i <= k < j ==> s[k] != p
    decreases |s| - i
  {
    if i == |s| || s[i] == p then i else IndexFrom(s, p, i + 1)
  }

  /** The first position of `p`, or the length. */
  function IndexOf(s: seq<Peer>, p: Peer): (i: nat)
    ensures i <= |s| && (i < |s| ==> s[i] == p)
    ensures forall k :: 0 <= k < i ==> s[k] != p
  {
    IndexFrom(s, p, 0)
  }

  function RemoveAt<T>(s: seq<T>, i: nat): seq<T>
    requires i < |s|
  {
    s[..i] + s[i + 1..]
  }

  /** The list after `p` is seen: `p` becomes the newest; if it was not listed and the list
      is full, the oldest goes. */
  function Touch(list: seq<Peer>, p: Peer): (touched: seq<Peer>)
    ensures |list| <= MAX_KNOWN_BLE_PEERS ==> |touched| <= MAX_KNOWN_BLE_PEERS
  {
    var i := IndexOf(list, p);
    if i < |list| then RemoveAt(list, i) + [p]
    else if |list| >= MAX_KNOWN_BLE_PEERS then list[1..] + [p]
    else list + [p]
  }

  /** The peer a successful LE connection event names. */
  function ConnectedPeer(p: Packet): Option<Peer> {
    var d := p.data;
    if p.kind == Event && |d| >= 14 && d[0] == EVENT_LE_META && d[2] in {1, 10} && d[3] == 0
    then Some(Peer(d[7], d[8..14]))
    else None
  }

  /** The list after a whole trace of sightings. */
  function Recency(start: seq<Peer>, trace: seq<Peer>): seq<Peer>
    decreases |trace|
  {
    if trace == [] then start
    else Touch(Recency(start, trace[..|trace| - 1]), trace[|trace| - 1])
  }

  lemma RecencySnoc(start: seq<Peer>, trace: seq<Peer>, p: Peer)
    ensures Recency(start, trace + [p]) == Touch(Recency(start, trace), p)
  {
    assert (trace + [p])[..|trace|] == trace;
  }

  /** Each element of `s`, kept only where it occurs last. */
  function KeepLast(s: seq<Peer>): seq<Peer> {
    if s == [] then []
    else if s[0] in s[1..] then KeepLast(s[1..])
    else [s[0]] + KeepLast(s[1..])
  }

  function Suffix<T>(s: seq<T>, n: nat): seq<T> {
    if |s| <= n then s else s[|s| - n..]
  }

  function Without(s: seq<Peer>, p: Peer): seq<Peer> {
    if s == [] then []
    else if s[0] == p then Without(s[1..], p)
    else [s[0]] + Without(s[1..], p)
  }

  lemma {:induction false} KeepLastElements(s: seq<Peer>, x: Peer)
    ensures x in KeepLast(s) <==> x in s
  {
    if s != [] {
      KeepLastElements(s[1..], x);
      assert x in s <==> x == s[0] || x in s[1..];
    }
  }

  lemma {:induction false} KeepLastDistinct(s: seq<Peer>)
    ensures NoDuplicates(KeepLast(s))
  {
    if s != [] {
      KeepLastDistinct(s[1..]);
      KeepLastElements(s[1..], s[0]);
    }
  }

  lemma {:induction false} KeepLastOfDistinct(s: seq<Peer>)
    requires NoDuplicates(s)
    ensures KeepLast(s) == s
  {
    if s != [] {
      assert s[0] !in s[1..];
      KeepLastOfDistinct(s[1..]);
    }
  }

  lemma {:induction false} KeepLastSnoc(s: seq<Peer>, p: Peer)
    ensures KeepLast(s + [p]) == Without(KeepLast(s), p) + [p]
  {
    if s == [] {
      assert [] + [p] == [p] && [p][1..] == [];
      assert KeepLast([p]) == [p] + KeepLast([]);
    } else {
      assert (s + [p])[1..] == s[1..] + [p];
      assert s[0] in s[1..] + [p] <==> s[0] in s[1..] || s[0] == p;
      KeepLastSnoc(s[1..], p);
      var k := KeepLast(s[1..]);
      if s[0] !in s[1..] {
        assert ([s[0]] + k)[1..] == k;
      }
    }
  }

  lemma {:induction false} WithoutAbsent(s: seq<Peer>, p: Peer)
    requires p !in s
    ensures Without(s, p) == s
  {
    if s != [] { WithoutAbsent(s[1..], p); }
  }

  lemma {:induction false} WithoutPresent(s: seq<Peer>, p: Peer, i: nat)
    requires NoDuplicates(s) && i < |s| && s[i] == p
    ensures Without(s, p) == RemoveAt(s, i)
  {
    if i == 0 {
      WithoutAbsent(s[1..], p);
    } else {
      WithoutPresent(s[1..], p, i - 1);
      assert s[..i] == [s[0]] + s[1..][..i - 1];
    }
  }

  lemma SuffixWithoutAt(all: seq<Peer>, k: nat, p: Peer)
    requires k < |all|
    ensures var list := Suffix(all, MAX_KNOWN_BLE_PEERS);
            var d := |all| - |list|;
            Suffix(RemoveAt(all, k) + [p], MAX_KNOWN_BLE_PEERS)
            == if d <= k then RemoveAt(list, k - d) + [p] else list[1..] + [p]
  {
  }

  lemma TouchListed(list: seq<Peer>, p: Peer, k: nat)
    requires NoDuplicates(list) && k < |list| && list[k] == p
    ensures Touch(list, p) == RemoveAt(list, k) + [p]
  {
    assert IndexOf(list, p) <= k;
  }

  lemma TouchUnlisted(list: seq<Peer>, p: Peer)
    requires p !in list
    ensures Touch(list, p) == (if |list| >= MAX_KNOWN_BLE_PEERS then list[1..] else list) + [p]
  {
  }

  /** A peer seen before: still listed, or forgotten since. */
  lemma TouchSuffixSeen(all: seq<Peer>, k: nat, p: Peer)
    requires NoDuplicates(all) && k < |all| && all[k] == p
    ensures Touch(Suffix(all, MAX_KNOWN_BLE_PEERS), p)
         == Suffix(RemoveAt(all, k) + [p], MAX_KNOWN_BLE_PEERS)
  {
    var list := Suffix(all, MAX_KNOWN_BLE_PEERS);
    var d := |all| - |list|;
    SuffixWithoutAt(all, k, p);
    if d <= k {
      TouchListed(list, p, k - d);
    } else {
      forall j | 0 <= j < |list| ensures list[j] != p {
        assert list[j] == all[d + j];
      }
      TouchUnlisted(list, p);
    }
  }

  lemma TouchSuffixUnseen(all: seq<Peer>, p: Peer)
    requires p !in all
    ensures Touch(Suffix(all, MAX_KNOWN_BLE_PEERS), p) == Suffix(all + [p], MAX_KNOWN_BLE_PEERS)
  {
    TouchUnlisted(Suffix(all, MAX_KNOWN_BLE_PEERS), p);
  }

  /** One sighting, seen from the full history `all` of which the list is the end. */
  lemma TouchSuffix(all: seq<Peer>, p: Peer)
    requires NoDuplicates(all)
    ensures Touch(Suffix(all, MAX_KNOWN_BLE_PEERS), p)
         == Suffix(Without(all, p) + [p], MAX_KNOWN_BLE_PEERS)
  {
    if k :| 0 <= k < |all| && all[k] == p {
      WithoutPresent(all, p, k);
      TouchSuffixSeen(all, k, p);
    } else {
      WithoutAbsent(all, p);
      TouchSuffixUnseen(all, p);
    }
  }

  /** MAIN: after any trace of sightings the list is the last sixteen of everything ever
      seen, each peer counted only where it was seen last. */
  lemma {:induction false} RecencyIsLastSixteen(start: seq<Peer>, trace: seq<Peer>)
    requires NoDuplicates(start) && |start| <= MAX_KNOWN_BLE_PEERS
    ensures Recency(start, trace) == Suffix(KeepLast(start + trace), MAX_KNOWN_BLE_PEERS)
    ensures NoDuplicates(Recency(start, trace)) && |Recency(start, trace)| <= MAX_KNOWN_BLE_PEERS
    decreases |trace|
  {
    KeepLastDistinct(start + trace);
    if trace == [] {
      assert start + trace == start;
      KeepLastOfDistinct(start);
    } else {
      var before, p := trace[..|trace| - 1], trace[|trace| - 1];
      RecencyIsLastSixteen(start, before);
      assert start + trace == start + before + [p];
      KeepLastSnoc(start + before, p);
      KeepLastDistinct(start + before);
      TouchSuffix(KeepLast(start + before), p);
    }
  }
}
