/** The relayer's latency statistics: one worker updates them, a snapshot reads them. */
module Latency {
  import opened Welford
  import opened Reservoir
  import Quantile

  /** The items found in the reservoir after history, given the draws that were made. */
  ghost function Held(k: nat, history: seq<nat>, draws: seq<nat>): seq<nat>
    requires IsDraws(k, |history|, draws)
  {
    SlotsInjective(k, |history|, draws);
    var s := Slots(k, |history|, draws);
    seq(|s|, j requires 0 <= j < |s| => history[s[j]])
  }

  class LatencyStats {
    const reservoir: nat
    var count: nat
    var mean: real
    var m2: real
    var samples: seq<nat>
    /** Every latency recorded so far, and every draw made for a full reservoir. */
    ghost var history: seq<nat>
    ghost var draws: seq<nat>

    ghost predicate Valid()
      reads this
    {
      && count == |history|
      && Moments(history, mean, m2)
      && IsDraws(reservoir, |history|, draws)
      && samples == Held(reservoir, history, draws)
    }

    constructor (reservoir: nat)
      ensures Valid() && history == [] && this.reservoir == reservoir
    {
      this.reservoir := reservoir;
      count, mean, m2, samples := 0, 0.0, 0.0, [];
      history, draws := [], [];
    }

    /** One turn of the worker's loop; draw is what rand.Int63n(count) returns if asked. */
    method Ingest(us: nat, draw: nat)
      requires Valid() && draw <= count
      modifies this
      ensures Valid() && history == old(history) + [us]
      ensures draws == if old(count) < reservoir then old(draws) else old(draws) + [draw]
    {
      hide Moments, Held, IsDraws;
      HeldStep(reservoir, history, draws, us, draw);
      count := count + 1;
      mean, m2 := Accumulate(count, mean, m2, us, history);
      history := history + [us];
      if |samples| < reservoir {
        samples := samples + [us];
      } else {
        draws := draws + [draw];
        if draw < |samples| {
          samples := samples[draw := us];
        }
      }
    }

    /** The worker over a stretch of its channel, with one random number per item at hand. */
    method Work(stream: seq<nat>, rand: seq<nat>)
      requires Valid() && |rand| == |stream|
      requires forall i :: 0 <= i < |rand| ==> rand[i] <= count + i
      modifies this
      ensures Valid() && history == old(history) + stream
    {
      for i := 0 to |stream|
        invariant Valid() && history == old(history) + stream[..i] && count == old(count) + i
      {
        assert stream[..i + 1] == stream[..i] + [stream[i]];
        Ingest(stream[i], rand[i]);
      }
      assert stream[..|stream|] == stream;
    }

    /** The snapshot; sqrt is math.Sqrt. */
    method LatencySnapshot(sqrt: real -> real)
      returns (n: nat, meanMs: real, stdMs: real, p50Ms: real, p95Ms: real, p99Ms: real)
      requires Valid() && IsSquareRoot(sqrt)
      ensures n == |history|
      ensures meanMs == if history == [] then 0.0 else Mean(history) / 1000.0
      ensures IsDeviation(stdMs, SampleVariance(history))
      ensures var s := Quantile.Sort(samples);
        && p50Ms == Quantile.At(s, 0.50) / 1000.0
        && p95Ms == Quantile.At(s, 0.95) / 1000.0
        && p99Ms == Quantile.At(s, 0.99) / 1000.0
      ensures p50Ms <= p95Ms <= p99Ms
    {
      hide IsSquareRoot, IsDeviation, SampleVariance, Mean, Moments, Quantile.At, Quantile.Sort;
      MomentsAreExact(history, mean, m2);
      NoSpread(history);
      if count == 0 {
        NothingHeld(samples);
        return 0, 0.0, 0.0, 0.0, 0.0, 0.0;
      }
      n := count;
      meanMs := mean / 1000.0;
      var variance := 0.0;
      if count > 1 {
        variance := m2 / (count as real - 1.0);
      }
      stdMs := sqrt(variance) / 1000.0;
      Rescaled(sqrt, variance);
      p50Ms, p95Ms, p99Ms := Percentiles(samples);
    }
  }

  ghost predicate IsSquareRoot(sqrt: real -> real) {
    forall x: real :: x >= 0.0 ==> sqrt(x) >= 0.0 && sqrt(x) * sqrt(x) == x
  }

  /** The standard deviation in milliseconds, for a variance in microseconds squared. */
  predicate IsDeviation(stdMs: real, variance: real) {
    stdMs >= 0.0 && (1000.0 * stdMs) * (1000.0 * stdMs) == variance
  }

  /** Fewer than two samples do not vary. */
  lemma NoSpread(xs: seq<nat>)
    ensures |xs| <= 1 ==> SampleVariance(xs) == 0.0
    ensures IsDeviation(0.0, 0.0)
  {
  }

  lemma NothingHeld(samples: seq<nat>)
    requires samples == []
    ensures Quantile.At(Quantile.Sort(samples), 0.50) == 0.0
    ensures Quantile.At(Quantile.Sort(samples), 0.95) == 0.0
    ensures Quantile.At(Quantile.Sort(samples), 0.99) == 0.0
  {
  }

  lemma Rescaled(sqrt: real -> real, variance: real)
    requires IsSquareRoot(sqrt) && variance >= 0.0
    ensures IsDeviation(sqrt(variance) / 1000.0, variance)
  {
    assert 1000.0 * (sqrt(variance) / 1000.0) == sqrt(variance);
  }

  method Percentiles(samples: seq<nat>) returns (p50Ms: real, p95Ms: real, p99Ms: real)
    ensures var s := Quantile.Sort(samples);
      && p50Ms == Quantile.At(s, 0.50) / 1000.0
      && p95Ms == Quantile.At(s, 0.95) / 1000.0
      && p99Ms == Quantile.At(s, 0.99) / 1000.0
    ensures p50Ms <= p95Ms <= p99Ms
  {
    if |samples| == 0 {
      return 0.0, 0.0, 0.0;
    }
    var sorted := Quantile.Sort(samples);
    Quantile.SortSorts(samples);
    Quantile.Monotone(sorted, 0.50, 0.95);
    Quantile.Monotone(sorted, 0.95, 0.99);
    p50Ms := Quantile.At(sorted, 0.50) / 1000.0;
    p95Ms := Quantile.At(sorted, 0.95) / 1000.0;
    p99Ms := Quantile.At(sorted, 0.99) / 1000.0;
  }

  /** How one more item changes the reservoir. */
  lemma HeldStep(k: nat, history: seq<nat>, draws: seq<nat>, us: nat, draw: nat)
    requires IsDraws(k, |history|, draws) && draw <= |history|
    ensures var s := Held(k, history, draws);
      var draws' := if |history| < k then draws else draws + [draw];
      && |s| == (if |history| < k then |history| else k)
      && IsDraws(k, |history| + 1, draws')
      && Held(k, history + [us], draws')
         == if |s| < k then s + [us] else if draw < |s| then s[draw := us] else s
  {
    var n := |history|;
    SlotsInjective(k, n, draws);
    var s := Slots(k, n, draws);
    if n < k {
      assert draws == [];
      assert Slots(k, n + 1, []) == s + [n];
    } else {
      assert (draws + [draw])[..n - k] == draws;
      assert Slots(k, n + 1, draws + [draw]) == if draw < k then s[draw := n] else s;
    }
  }

  /** The slots of the reservoir are taken from pairwise different places of the stream. */
  lemma HeldFromDistinctPlaces(k: nat, history: seq<nat>, draws: seq<nat>)
    requires IsDraws(k, |history|, draws)
    ensures var s := Slots(k, |history|, draws);
      && |Held(k, history, draws)| == |s| == (if |history| < k then |history| else k)
      && (forall a :: 0 <= a < |s| ==> s[a] < |history| && Held(k, history, draws)[a] == history[s[a]])
      && (forall a, b :: 0 <= a < b < |s| ==> s[a] != s[b])
  {
    SlotsInjective(k, |history|, draws);
  }
}
