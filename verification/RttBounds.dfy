/** What any run of samples does to the round-trip estimator, and which packets may give one. */
module RttBounds {
  import opened Numbers
  import opened Protocol

  function Max(a: real, b: real): real {
    if a <= b then b else a
  }

  predicate AllWithin(samples: seq<real>, lo: real, hi: real) {
    forall i :: 0 <= i < |samples| ==> lo <= samples[i] <= hi
  }

  lemma {:induction false} EstimatorStaysWithinSamples(samples: seq<real>, lo: real, hi: real)
    requires samples != [] && 0.0 <= lo <= hi && AllWithin(samples, lo, hi)
    ensures var e := SampledAll(FRESH.rtt, samples);
            && !e.first
            && lo <= e.smoothed <= hi
            && 0.0 <= e.variance <= Max(hi * 0.5, hi - lo)
            && 30.0 <= e.rto <= 500.0
  {
    var before := samples[..|samples| - 1];
    if before != [] {
      EstimatorStaysWithinSamples(before, lo, hi);
    }
  }

  function Constant(sample: real, n: nat): (samples: seq<real>)
    ensures |samples| == n
  {
    seq(n, i => sample)
  }

  /** A steady round trip shrinks the error of the smoothed value by 7/8 with every sample. */
  lemma {:induction false} ConstantSampleShrinksError(e: Estimator, sample: real, n: nat)
    requires !e.first
    ensures !SampledAll(e, Constant(sample, n)).first
    ensures SampledAll(e, Constant(sample, n)).smoothed - sample == Scaled(e.smoothed - sample, 0.875, n)
  {
    if n > 0 {
      ConstantSampleShrinksError(e, sample, n - 1);
      assert Constant(sample, n)[..n - 1] == Constant(sample, n - 1);
    }
  }

  /** Started by the same steady round trip, the estimator never errs and its deviation decays by 3/4. */
  lemma {:induction false} SteadyFromTheStart(sample: real, n: nat)
    ensures var e := SampledAll(FRESH.rtt, Constant(sample, n + 1));
            !e.first && e.smoothed == sample && e.variance == Scaled(sample * 0.5, 0.75, n)
  {
    assert Constant(sample, n + 1)[..n] == Constant(sample, n);
    if n > 0 {
      SteadyFromTheStart(sample, n - 1);
    }
  }

  // ---------- what mean and deviation are ----------

  /** The sum of `keep^(n - 1 - i) * terms[i]` over the first `k` of `n` terms. */
  function Discounted(terms: seq<real>, keep: real, k: nat): real
    requires k <= |terms|
  {
    if k == 0 then 0.0 else Discounted(terms, keep, k - 1) + Scaled(1.0, keep, |terms| - k) * terms[k - 1]
  }

  /** The exponentially weighted average of a start value and the terms after it, as one sum. */
  function Weighted(start: real, terms: seq<real>, keep: real): real {
    Scaled(1.0, keep, |terms|) * start + (1.0 - keep) * Discounted(terms, keep, |terms|)
  }

  lemma {:induction false} DiscountedOneMore(terms: seq<real>, last: real, keep: real, k: nat)
    requires k <= |terms|
    ensures Discounted(terms + [last], keep, k) == keep * Discounted(terms, keep, k)
  {
    if k > 0 {
      DiscountedOneMore(terms, last, keep, k - 1);
      var more := terms + [last];
      assert Scaled(1.0, keep, |more| - k) == Scaled(1.0, keep, |terms| - k) * keep;
      assert Scaled(1.0, keep, |more| - k) * more[k - 1] == keep * (Scaled(1.0, keep, |terms| - k) * terms[k - 1]);
    }
  }

  lemma WeightedOneMore(start: real, terms: seq<real>, last: real, keep: real)
    ensures Weighted(start, terms + [last], keep) == keep * Weighted(start, terms, keep) + (1.0 - keep) * last
  {
    var more := terms + [last];
    DiscountedOneMore(terms, last, keep, |terms|);
    assert Scaled(1.0, keep, 0) == 1.0;
    assert Discounted(more, keep, |more|) == keep * Discounted(terms, keep, |terms|) + last;
    var p, d := Scaled(1.0, keep, |terms|), Discounted(terms, keep, |terms|);
    assert Scaled(1.0, keep, |more|) * start == keep * (p * start);
    assert (1.0 - keep) * (keep * d + last) == keep * ((1.0 - keep) * d) + (1.0 - keep) * last;
    assert keep * (p * start + (1.0 - keep) * d) == keep * (p * start) + keep * ((1.0 - keep) * d);
  }

  /** How far each sample after the first lies from the mean of all samples before it. */
  function Deviations(samples: seq<real>): (ds: seq<real>)
    requires samples != []
    ensures |ds| == |samples| - 1
  {
    if |samples| == 1 then []
    else
      var before, last := samples[..|samples| - 1], samples[|samples| - 1];
      Deviations(before) + [Abs(last - Weighted(before[0], before[1..], 0.875))]
  }

  /**
    Section 2 of RFC 6298 without the recurrence: the mean weighs the samples by powers of 7/8, and
    the variance weighs the deviations from the earlier means by powers of 3/4.
   */
  lemma {:induction false} EstimatorIsWeightedAverage(samples: seq<real>)
    requires samples != []
    ensures var e := SampledAll(FRESH.rtt, samples);
            && !e.first
            && e.smoothed == Weighted(samples[0], samples[1..], 0.875)
            && e.variance == Weighted(samples[0] * 0.5, Deviations(samples), 0.75)
  {
    if |samples| == 1 {
      assert SampledAll(FRESH.rtt, samples[..0]) == FRESH.rtt;
      assert samples[1..] == [];
    } else {
      var before, last := samples[..|samples| - 1], samples[|samples| - 1];
      EstimatorIsWeightedAverage(before);
      WeightedOneMore(samples[0], before[1..], last, 0.875);
      assert samples[1..] == before[1..] + [last];
      var deviation := Abs(last - Weighted(before[0], before[1..], 0.875));
      WeightedOneMore(samples[0] * 0.5, Deviations(before), deviation, 0.75);
      hide Weighted, Discounted, Scaled;
      assert Deviations(samples) == Deviations(before) + [deviation];
    }
  }

  /**
    The timeout as a function of the samples alone: the weighted mean plus four weighted deviations,
    wherever that lies between the two bounds of the source, and the nearer bound elsewhere.
   */
  lemma TimeoutIsMeanPlusFourDeviations(samples: seq<real>)
    requires samples != []
    ensures var rto := SampledAll(FRESH.rtt, samples).rto;
            var raw := Weighted(samples[0], samples[1..], 0.875)
                       + 4.0 * Weighted(samples[0] * 0.5, Deviations(samples), 0.75);
            && (30.0 <= raw <= 500.0 ==> rto == raw)
            && (raw < 30.0 ==> rto == 30.0)
            && (raw > 500.0 ==> rto == 500.0)
  {
    EstimatorIsWeightedAverage(samples);
    hide Weighted, Deviations;
  }

  // ---------- Karn's rule ----------

  function NeverResent(pkts: seq<Unacked>): seq<Unacked> {
    if pkts == [] then []
    else
      NeverResent(pkts[..|pkts| - 1])
      + if pkts[|pkts| - 1].retries == 0 then [pkts[|pkts| - 1]] else []
  }

  /** Section 3 of RFC 6298: the samples are those of the packets that were never resent. */
  lemma {:induction false} ResentPacketsGiveNoSample(pkts: seq<Unacked>, h: Header, now: nat)
    ensures Samples(pkts, h, now) == Samples(NeverResent(pkts), h, now)
  {
    if pkts != [] {
      var before := pkts[..|pkts| - 1];
      ResentPacketsGiveNoSample(before, h, now);
      if pkts[|pkts| - 1].retries == 0 {
        assert NeverResent(pkts)[..|NeverResent(pkts)| - 1] == NeverResent(before);
      } else {
        assert NeverResent(pkts) == NeverResent(before);
      }
    }
  }
}
