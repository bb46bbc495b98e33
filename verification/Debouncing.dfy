/** A debounced input over any history of samples. */
module Debouncing {
  import opened PowerModel

  datatype Sample = Sample(at: nat, raw: bool)

  /** An input that stood at a steady value, after a series of samples. */
  function Filtered(start: bool, since: nat, samples: seq<Sample>): Input
    decreases |samples|
  {
    if samples == [] then Input(start, start, since)
    else
      var n := |samples| - 1;
      Debounce(Filtered(start, since, samples[..n]), samples[n].raw, samples[n].at)
  }

  /** The filtered value once sample `k` has been taken. */
  function ValueAt(start: bool, since: nat, samples: seq<Sample>, k: nat): bool
    requires k < |samples|
  {
    Filtered(start, since, samples[..k + 1]).filtered
  }

  function ValueBefore(start: bool, since: nat, samples: seq<Sample>, k: nat): bool
    requires k < |samples|
  {
    Filtered(start, since, samples[..k]).filtered
  }

  /** Where the run of equal samples that ends at `k` begins. */
  function RunStart(samples: seq<Sample>, k: nat): (j: nat)
    requires k < |samples|
    ensures j <= k && forall i :: j <= i <= k ==> samples[i].raw == samples[k].raw
    ensures j > 0 ==> samples[j - 1].raw != samples[j].raw
  {
    if k > 0 && samples[k - 1].raw == samples[k].raw then RunStart(samples, k - 1) else k
  }

  /** At sample `k` the input had been the same at every look for 250 ms (250 000 microseconds) or
      more. */
  predicate SteadyAt(samples: seq<Sample>, k: nat)
    requires k < |samples|
  {
    samples[k].at >= samples[RunStart(samples, k)].at + 250_000
  }

  lemma FilteredStep(start: bool, since: nat, samples: seq<Sample>, k: nat)
    requires k < |samples|
    ensures Filtered(start, since, samples[..k + 1])
         == Debounce(Filtered(start, since, samples[..k]), samples[k].raw, samples[k].at)
  {
    assert samples[..k + 1][..k] == samples[..k];
  }

  lemma FilteredSnoc(start: bool, since: nat, samples: seq<Sample>, x: Sample)
    ensures Filtered(start, since, samples + [x]) == Debounce(Filtered(start, since, samples), x.raw, x.at)
  {
    assert (samples + [x])[..|samples|] == samples;
  }

  /** After sample `k`, an input that disagrees with its filtered value is due 250 ms after its
      run of equal samples began. */
  lemma {:induction false} DueAfterRunStart(start: bool, since: nat, samples: seq<Sample>, k: nat)
    requires k < |samples|
    ensures var i := Filtered(start, since, samples[..k + 1]);
            && i.lastRaw == samples[k].raw
            && (ValueBefore(start, since, samples, k) != samples[k].raw
                ==> i.changedAt == samples[RunStart(samples, k)].at + POWER_SENSE_DEBOUNCE)
    decreases k
  {
    FilteredStep(start, since, samples, k);
    if k == 0 {
      assert samples[..0] == [];
    } else {
      DueAfterRunStart(start, since, samples, k - 1);
      FilteredStep(start, since, samples, k - 1);
    }
  }

  /** MAIN: a filtered input flips at a sample exactly when that sample disagrees with it and
      every sample of the last 250 ms or more (back to one at least that old) had the
      new value already. */
  lemma FlipsIffSteady(start: bool, since: nat, samples: seq<Sample>, k: nat)
    requires k < |samples|
    ensures ValueAt(start, since, samples, k) != ValueBefore(start, since, samples, k)
       <==> samples[k].raw != ValueBefore(start, since, samples, k) && SteadyAt(samples, k)
  {
    FilteredStep(start, since, samples, k);
    DueAfterRunStart(start, since, samples, k);
  }

  // ------------------------------------------------- the value from the samples alone

  /** Of the first `n` samples, `k` is the last one at which the input was steady. */
  ghost predicate LastSteady(samples: seq<Sample>, k: nat, n: nat)
    requires n <= |samples|
  {
    k < n && SteadyAt(samples, k) && forall m :: k < m < n ==> !SteadyAt(samples, m)
  }

  /** The last time the input was steady for 250 ms it was high, or it has never been steady and
      started high. */
  ghost predicate ReadsHigh(start: bool, samples: seq<Sample>, n: nat)
    requires n <= |samples|
  {
    || (exists k: nat :: LastSteady(samples, k, n) && samples[k].raw)
    || (start && forall m :: 0 <= m < n ==> !SteadyAt(samples, m))
  }

  lemma ReadsHighStep(start: bool, samples: seq<Sample>, n: nat)
    requires n < |samples|
    ensures ReadsHigh(start, samples, n + 1)
       <==> if SteadyAt(samples, n) then samples[n].raw else ReadsHigh(start, samples, n)
  {
    hide SteadyAt;
    if SteadyAt(samples, n) {
      assert LastSteady(samples, n, n + 1);
    } else {
      assert forall k: nat | k < n :: LastSteady(samples, k, n + 1) <==> LastSteady(samples, k, n);
    }
  }

  /** MAIN: whatever the samples, a debounced input reads high exactly when it was high the last
      time it was steady for 250 ms. */
  lemma {:induction false} FilteredReads(start: bool, since: nat, samples: seq<Sample>, n: nat)
    requires n <= |samples|
    ensures Filtered(start, since, samples[..n]).filtered <==> ReadsHigh(start, samples, n)
  {
    if n > 0 {
      FilteredReads(start, since, samples, n - 1);
      FlipsIffSteady(start, since, samples, n - 1);
      ReadsHighStep(start, samples, n - 1);
    }
  }

  // ------------------------------------------------------------------ flips apart

  predicate NotEarlier(samples: seq<Sample>, i: nat)
    requires i + 1 < |samples|
  {
    samples[i].at <= samples[i + 1].at
  }

  ghost predicate InOrder(samples: seq<Sample>) {
    forall i :: 0 <= i < |samples| - 1 ==> NotEarlier(samples, i)
  }

  lemma RunStartEarlier(samples: seq<Sample>, k: nat)
    requires k < |samples| && RunStart(samples, k) < k
    ensures RunStart(samples, k - 1) == RunStart(samples, k)
  {
  }

  /** While the samples keep the value the input flipped to, it stays there. */
  lemma {:induction false} StaysWithRun(start: bool, since: nat, samples: seq<Sample>, j: nat, k: nat)
    requires j <= k < |samples| && RunStart(samples, k) <= j
    requires ValueAt(start, since, samples, j) == samples[j].raw
    ensures ValueAt(start, since, samples, k) == samples[j].raw
    decreases k
  {
    if j < k {
      RunStartEarlier(samples, k);
      StaysWithRun(start, since, samples, j, k - 1);
      FilteredStep(start, since, samples, k);
    }
  }

  lemma NoFlipWithinRun(start: bool, since: nat, samples: seq<Sample>, j: nat, k: nat)
    requires j < k < |samples| && RunStart(samples, k) <= j
    requires ValueAt(start, since, samples, j) == samples[j].raw
    ensures ValueBefore(start, since, samples, k) == samples[k].raw
  {
    RunStartEarlier(samples, k);
    assert ValueAt(start, since, samples, k - 1) == samples[j].raw by {
      StaysWithRun(start, since, samples, j, k - 1);
    }
    assert k - 1 + 1 == k;
  }

  /** MAIN: two flips are at least 250 ms apart. */
  lemma FlipsSpaced(start: bool, since: nat, samples: seq<Sample>, j: nat, k: nat)
    requires j < k < |samples| && InOrder(samples)
    requires ValueAt(start, since, samples, j) != ValueBefore(start, since, samples, j)
    requires ValueAt(start, since, samples, k) != ValueBefore(start, since, samples, k)
    ensures samples[j].at + POWER_SENSE_DEBOUNCE <= samples[k].at
  {
    FlipsIffSteady(start, since, samples, j);
    FlipsIffSteady(start, since, samples, k);
    FilteredStep(start, since, samples, j);
    var r := RunStart(samples, k);
    if r <= j {
      NoFlipWithinRun(start, since, samples, j, k);
    } else {
      LaterSample(samples, j, r);
    }
  }

  lemma {:induction false} LaterSample(samples: seq<Sample>, j: nat, r: nat)
    requires j <= r < |samples| && InOrder(samples)
    ensures samples[j].at <= samples[r].at
    decreases r
  {
    if j < r {
      LaterSample(samples, j, r - 1);
      assert NotEarlier(samples, r - 1);
    }
  }
}
