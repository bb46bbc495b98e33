/** Holding BOOTSEL clears the wake list.  The button is looked at no more often than every
    100 ms of a 32-bit millisecond clock; a hold of 5000 ms fires once. */
module BootselButton {
  import opened Hci

  const BOOTSEL_CLEAR_HOLD_MS := 5000
  const BOOTSEL_POLL_MS := 100
  const HOLD_POLLS := 50

  // ------------------------------------------------------------------ what was seen

  /** One look at the button, at a real time that does not wrap. */
  datatype Poll = Poll(at: nat, pressed: bool)

  /** How many polls up to the last one found the button pressed, without a break. */
  function RunLength(polls: seq<Poll>): (n: nat)
    ensures n <= |polls|
    decreases |polls|
  {
    if polls == [] || !polls[|polls| - 1].pressed then 0 else 1 + RunLength(polls[..|polls| - 1])
  }

  lemma {:induction false} RunLengthMeans(polls: seq<Poll>)
    ensures var n := RunLength(polls);
            && (forall i :: |polls| - n <= i < |polls| ==> polls[i].pressed)
            && (n < |polls| ==> !polls[|polls| - n - 1].pressed)
    decreases |polls|
  {
    if polls != [] && polls[|polls| - 1].pressed {
      var before := polls[..|polls| - 1];
      RunLengthMeans(before);
      assert forall i :: 0 <= i < |before| ==> before[i] == polls[i];
    }
  }

  /** One more pressed poll: the last run goes on, or a new one begins. */
  function OneMore(lengths: seq<int>, goesOn: bool): (more: seq<int>)
    ensures more != []
  {
    if goesOn && lengths != [] then lengths[..|lengths| - 1] + [lengths[|lengths| - 1] + 1] else lengths + [1]
  }

  /** The lengths of the maximal runs of pressed polls. */
  function Runs(polls: seq<Poll>): (lengths: seq<int>)
    ensures polls != [] && polls[|polls| - 1].pressed ==> lengths != []
    decreases |polls|
  {
    if polls == [] then []
    else
      var n := |polls| - 1;
      var before := Runs(polls[..n]);
      if polls[n].pressed then OneMore(before, n > 0 && polls[n - 1].pressed) else before
  }

  function CountLong(lengths: seq<int>): nat
    decreases |lengths|
  {
    if lengths == [] then 0
    else CountLong(lengths[..|lengths| - 1]) + if lengths[|lengths| - 1] >= 50 then 1 else 0
  }

  lemma CountLongSnoc(lengths: seq<int>, n: int)
    ensures CountLong(lengths + [n]) == CountLong(lengths) + if n >= 50 then 1 else 0
  {
    assert (lengths + [n])[..|lengths|] == lengths;
  }

  lemma RunLengthSnoc(polls: seq<Poll>, p: Poll)
    ensures RunLength(polls + [p]) == if p.pressed then RunLength(polls) + 1 else 0
  {
    assert (polls + [p])[..|polls|] == polls;
  }

  lemma RunsSnoc(polls: seq<Poll>, p: Poll)
    ensures Runs(polls + [p])
         == if p.pressed then OneMore(Runs(polls), polls != [] && polls[|polls| - 1].pressed) else Runs(polls)
  {
    hide OneMore;
    var all := polls + [p];
    assert all[..|all| - 1] == polls && all[|all| - 1] == p;
    assert polls != [] ==> all[|all| - 2] == polls[|polls| - 1];
  }

  /** The last run is the one still going on. */
  lemma {:induction false} LastRun(polls: seq<Poll>)
    requires polls != [] && polls[|polls| - 1].pressed
    ensures Runs(polls)[|Runs(polls)| - 1] == RunLength(polls)
    decreases |polls|
  {
    var before := polls[..|polls| - 1];
    if before != [] && before[|before| - 1].pressed {
      LastRun(before);
    } else {
      assert RunLength(before) == 0;
    }
  }

  /** One more poll completes a long run exactly when it is the fiftieth of its run. */
  lemma LongRunsSnoc(polls: seq<Poll>, p: Poll)
    ensures CountLong(Runs(polls + [p]))
         == CountLong(Runs(polls)) + if RunLength(polls + [p]) == HOLD_POLLS then 1 else 0
  {
    RunLengthSnoc(polls, p);
    RunsSnoc(polls, p);
    var before := Runs(polls);
    if p.pressed {
      if polls != [] && polls[|polls| - 1].pressed {
        LastRun(polls);
        var m := |before| - 1;
        assert before == before[..m] + [before[m]];
        CountLongSnoc(before[..m], before[m]);
        CountLongSnoc(before[..m], before[m] + 1);
      } else {
        CountLongSnoc(before, 1);
      }
    }
  }

  /** The polls are at least 100 ms apart. */
  ghost predicate Spaced(polls: seq<Poll>) {
    forall i :: 0 <= i < |polls| - 1 ==> Apart(polls, i)
  }

  predicate Apart(polls: seq<Poll>, i: nat)
    requires i + 1 < |polls|
  {
    polls[i].at + 100 <= polls[i + 1].at
  }

  lemma SpacedSnoc(polls: seq<Poll>, p: Poll)
    requires Spaced(polls) && (polls != [] ==> polls[|polls| - 1].at + BOOTSEL_POLL_MS <= p.at)
    ensures Spaced(polls + [p])
  {
    forall i | 0 <= i < |polls| ensures Apart(polls + [p], i) {
      assert i < |polls| - 1 ==> Apart(polls, i);
    }
  }

  lemma SpacedBefore(polls: seq<Poll>)
    requires Spaced(polls) && polls != []
    ensures Spaced(polls[..|polls| - 1])
  {
    var before := polls[..|polls| - 1];
    forall i | 0 <= i < |before| - 1 ensures Apart(before, i) {
      assert Apart(polls, i);
    }
  }

  lemma {:induction false} SpacedFar(polls: seq<Poll>, i: nat, j: nat)
    requires Spaced(polls) && i <= j < |polls|
    ensures polls[i].at + BOOTSEL_POLL_MS * (j - i) <= polls[j].at
    decreases j
  {
    if i < j {
      SpacedFar(polls, i, j - 1);
      assert Apart(polls, j - 1);
    }
  }

  /** A 32-bit clock that shows at least 100 ms has seen at least 100 ms go by. */
  lemma WrappedStillElapsed(last: nat, now: nat)
    requires last <= now && Wrap32(Wrap32(now) - Wrap32(last)) >= BOOTSEL_POLL_MS
    ensures now >= last + BOOTSEL_POLL_MS
  {
  }

  /** Every poll of the last 4900 ms or more before poll `k` found the button pressed, and the
      one before them, if any, did not. */
  ghost predicate HeldLong(polls: seq<Poll>, k: int) {
    && 49 <= k < |polls|
    && polls[k - 49].at + 4900 <= polls[k].at
    && (forall i :: k - 49 <= i <= k ==> polls[i].pressed)
    && (k >= 50 ==> !polls[k - 50].pressed)
  }

  /** Every clear came at the end of a long hold, and they are in order. */
  ghost predicate AllHeld(polls: seq<Poll>, clears: seq<int>) {
    && (forall i :: 0 <= i < |clears| ==> HeldLong(polls, clears[i]))
    && (forall i, j :: 0 <= i < j < |clears| ==> clears[i] < clears[j])
  }

  lemma HeldLongNow(polls: seq<Poll>)
    requires Spaced(polls) && RunLength(polls) == HOLD_POLLS
    ensures HeldLong(polls, |polls| - 1)
  {
    RunLengthMeans(polls);
    SpacedFar(polls, |polls| - HOLD_POLLS, |polls| - 1);
  }

  lemma HeldLongStill(polls: seq<Poll>, p: Poll, k: int)
    requires HeldLong(polls, k)
    ensures HeldLong(polls + [p], k)
  {
    var more := polls + [p];
    assert forall i :: 0 <= i < |polls| ==> more[i] == polls[i];
  }

  lemma HeldLongBounded(polls: seq<Poll>, k: int)
    requires HeldLong(polls, k)
    ensures 0 <= k < |polls|
  {
  }

  lemma AllHeldStill(polls: seq<Poll>, clears: seq<int>, p: Poll)
    requires AllHeld(polls, clears)
    ensures AllHeld(polls + [p], clears)
  {
    forall i | 0 <= i < |clears| ensures HeldLong(polls + [p], clears[i]) {
      HeldLongStill(polls, p, clears[i]);
    }
  }

  lemma AllHeldNow(polls: seq<Poll>, clears: seq<int>, p: Poll)
    requires AllHeld(polls, clears) && HeldLong(polls + [p], |polls|)
    ensures AllHeld(polls + [p], clears + [|polls|])
  {
    hide HeldLong;
    AllHeldStill(polls, clears, p);
    forall i | 0 <= i < |clears| ensures clears[i] < |polls| {
      HeldLongBounded(polls, clears[i]);
    }
  }

  /** The polls that complete fifty in a row. */
  function Clears(polls: seq<Poll>): seq<int>
    decreases |polls|
  {
    if polls == [] then []
    else
      var n := |polls| - 1;
      if RunLength(polls) == HOLD_POLLS then Clears(polls[..n]) + [n] else Clears(polls[..n])
  }

  lemma ClearsSnoc(polls: seq<Poll>, p: Poll)
    ensures Clears(polls + [p])
         == if RunLength(polls + [p]) == HOLD_POLLS then Clears(polls) + [|polls|] else Clears(polls)
  {
    assert (polls + [p])[..|polls|] == polls;
  }

  lemma {:induction false} CountClears(polls: seq<Poll>)
    ensures |Clears(polls)| == CountLong(Runs(polls))
    decreases |polls|
  {
    if polls != [] {
      var n := |polls| - 1;
      CountClears(polls[..n]);
      assert polls == polls[..n] + [polls[n]];
      LongRunsSnoc(polls[..n], polls[n]);
    }
  }

  lemma {:induction false} HeldAtClears(polls: seq<Poll>)
    requires Spaced(polls)
    ensures AllHeld(polls, Clears(polls))
    decreases |polls|
  {
    hide HeldLong;
    if polls != [] {
      var n := |polls| - 1;
      var before, p := polls[..n], polls[n];
      assert AllHeld(before, Clears(before)) by {
        SpacedBefore(polls);
        HeldAtClears(before);
      }
      assert polls == before + [p];
      if RunLength(polls) == HOLD_POLLS {
        HeldLongNow(polls);
        AllHeldNow(before, Clears(before), p);
      } else {
        AllHeldStill(before, Clears(before), p);
      }
    }
  }

  /** MAIN: over any trace of polls the list is cleared exactly once for each maximal run of at
      least fifty pressed polls, at the fiftieth, when the button has been seen pressed at
      every poll for at least 4900 ms. */
  lemma OneClearPerLongHold(polls: seq<Poll>)
    requires Spaced(polls)
    ensures |Clears(polls)| == CountLong(Runs(polls)) && AllHeld(polls, Clears(polls))
  {
    CountClears(polls);
    HeldAtClears(polls);
  }

  // --------------------------------------------------------------------- the button

  /** What `pressed_ms` holds after `n` pressed polls in a row. */
  function HoldMs(n: nat): nat {
    if n < HOLD_POLLS then BOOTSEL_POLL_MS * n else BOOTSEL_CLEAR_HOLD_MS
  }

  function NextRun(n: nat, pressed: bool): nat {
    if pressed then n + 1 else 0
  }

  class Button {
    var lastPollMs: Word32
    var pressedMs: nat
    var holdFired: bool

    // Every look at the button, and the looks at which the list was cleared.
    ghost var polls: seq<Poll>
    ghost var clears: seq<int>

    ghost predicate Valid()
      reads this
    {
      && lastPollMs == (if polls == [] then 0 else Wrap32(polls[|polls| - 1].at))
      && Holding(RunLength(polls))
      && Spaced(polls) && clears == Clears(polls)
    }

    ghost predicate Holding(n: nat)
      reads this`pressedMs, this`holdFired
    {
      pressedMs == HoldMs(n) && (holdFired <==> n >= HOLD_POLLS)
    }

    constructor ()
      ensures Valid() && polls == [] && clears == []
    {
      lastPollMs, pressedMs, holdFired := 0, 0, false;
      polls, clears := [], [];
    }

    /** The button was looked at, after `n` pressed polls in a row. */
    method Look(pressed: bool, ghost n: nat) returns (clear: bool)
      requires Holding(n)
      modifies this`pressedMs, this`holdFired
      ensures Holding(NextRun(n, pressed))
      ensures clear <==> NextRun(n, pressed) == HOLD_POLLS
    {
      if !pressed {
        pressedMs, holdFired := 0, false;
        return false;
      }
      if pressedMs < BOOTSEL_CLEAR_HOLD_MS {
        pressedMs := pressedMs + BOOTSEL_POLL_MS;
      }
      if !holdFired && pressedMs >= BOOTSEL_CLEAR_HOLD_MS {
        holdFired := true;
        return true;
      }
      return false;
    }

    /** One call from the main loop at real time `at`, of which the clock shows 32 bits. */
    method Task(at: nat, pressed: bool) returns (cleared: bool)
      requires Valid() && (polls != [] ==> polls[|polls| - 1].at <= at)
      modifies this
      ensures Valid()
      ensures polls == if Wrap32(Wrap32(at) - old(lastPollMs)) < 100 then old(polls)
                       else old(polls) + [Poll(at, pressed)]
      ensures cleared <==> polls != old(polls) && RunLength(polls) == HOLD_POLLS
      ensures clears == if cleared then old(clears) + [|old(polls)|] else old(clears)
    {
      var now := Wrap32(at);
      if Wrap32(now - lastPollMs) < BOOTSEL_POLL_MS {
        return false;
      }
      if polls != [] { WrappedStillElapsed(polls[|polls| - 1].at, at); }
      RunLengthSnoc(polls, Poll(at, pressed));
      ClearsSnoc(polls, Poll(at, pressed));
      SpacedSnoc(polls, Poll(at, pressed));
      cleared := Look(pressed, RunLength(polls));
      lastPollMs := now;
      clears := if cleared then clears + [|polls|] else clears;
      polls := polls + [Poll(at, pressed)];
    }
  }
}
