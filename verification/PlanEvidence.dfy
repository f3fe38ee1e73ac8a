/** What stable rates are, and exactly which plans are accepted, with every test spelled out. */
module PlanEvidence {
  import opened Trace
  import opened Plan

  // ---- Rates ----

  function At(xs: seq<real>, i: nat): real {
    if i < |xs| then xs[i] else 0.0
  }

  function SumOf(xs: seq<real>): real {
    SumOver((i: nat) => At(xs, i), |xs|)
  }

  /** The squared distances from `mean`, added up. */
  function Spread(xs: seq<real>, mean: real): real {
    SumOver((i: nat) => (At(xs, i) - mean) * (At(xs, i) - mean), |xs|)
  }

  predicate IsMean(xs: seq<real>, mean: real) {
    (|xs| as real) * mean == SumOf(xs)
  }

  /** The standard deviation of a sample of at least two. */
  predicate IsDeviation(xs: seq<real>, mean: real, deviation: real) {
    deviation >= 0.0 && deviation * deviation * ((|xs| - 1) as real) == Spread(xs, mean)
  }

  lemma {:induction false} SumsAgree(xs: seq<real>, n: nat)
    requires n <= |xs|
    ensures Sum(xs[..n]) == SumOver((i: nat) => At(xs, i), n)
  {
    if n > 0 {
      SumsAgree(xs, n - 1);
      assert xs[..n][..n - 1] == xs[..n - 1];
    }
  }

  lemma {:induction false} SpreadsAgree(xs: seq<real>, mean: real, n: nat)
    requires n <= |xs|
    ensures SquaredDeviations(xs[..n], mean) == SumOver((i: nat) => (At(xs, i) - mean) * (At(xs, i) - mean), n)
  {
    if n > 0 {
      SpreadsAgree(xs, mean, n - 1);
      assert xs[..n][..n - 1] == xs[..n - 1];
    }
  }

  lemma {:induction false} MeanIs(xs: seq<real>, mean: real)
    requires |xs| >= 1 && IsMean(xs, mean)
    ensures mean == Sum(xs) / (|xs| as real)
  {
    SumsAgree(xs, |xs|);
    assert xs[..|xs|] == xs;
    Divide(|xs| as real, mean, Sum(xs));
  }

  lemma {:induction false} Divide(n: real, a: real, b: real)
    requires n > 0.0 && n * a == b
    ensures a == b / n
  {
  }

  lemma {:induction false} MeanExists(xs: seq<real>)
    requires |xs| >= 1
    ensures IsMean(xs, Sum(xs) / (|xs| as real))
  {
    SumsAgree(xs, |xs|);
    assert xs[..|xs|] == xs;
  }

  lemma {:induction false} CancelFactor(a: real, b: real, k: real)
    requires k > 0.0
    ensures a * k <= b * k <==> a <= b
  {
    if a <= b {
      assert (b - a) * k >= 0.0;
    } else {
      assert (a - b) * k > 0.0;
    }
  }

  lemma {:induction false} SquaresCompare(a: real, b: real)
    requires a >= 0.0 && b >= 0.0
    ensures a * a <= b * b <==> a <= b
  {
    if a + b > 0.0 {
      var sum, difference := a + b, a - b;
      assert difference * sum == a * a - b * b;
      CancelFactor(difference, 0.0, sum);
      assert 0.0 * sum == 0.0;
    } else {
      assert a == 0.0 && b == 0.0;
    }
  }

  /**
   Rates are stable exactly when there are at least two and their standard deviation is at most the
   limit, in percent of their mean.
   */
  lemma {:induction false} StableExactly(xs: seq<real>, limit: real, mean: real, deviation: real)
    requires |xs| >= 2 && limit >= 0.0 && mean >= 0.0
    requires IsMean(xs, mean) && IsDeviation(xs, mean, deviation)
    ensures StableRates(xs, limit) <==> 100.0 * deviation <= limit * mean
  {
    hide SumOf, Sum, SquaredDeviations, SumOver, IsMean;
    MeanIs(xs, mean);
    SpreadsAgree(xs, mean, |xs|);
    assert xs[..|xs|] == xs;
    var k := (|xs| - 1) as real;
    assert 10000.0 * (deviation * deviation * k) == (100.0 * deviation) * (100.0 * deviation) * k by {
      Regroup(deviation, k);
    }
    assert limit * limit * mean * mean * k == (limit * mean) * (limit * mean) * k;
    CancelFactor((100.0 * deviation) * (100.0 * deviation), (limit * mean) * (limit * mean), k);
    SquaresCompare(100.0 * deviation, limit * mean);
  }

  lemma {:induction false} Regroup(a: real, k: real)
    ensures 10000.0 * (a * a * k) == (100.0 * a) * (100.0 * a) * k
  {
  }

  /** Without a root: the squares of both sides, for the one mean there is. */
  lemma {:induction false} StableBySquares(xs: seq<real>, limit: real)
    ensures StableRates(xs, limit)
       <==> |xs| >= 2 && forall mean :: IsMean(xs, mean) ==>
              10000.0 * Spread(xs, mean) <= limit * limit * mean * mean * ((|xs| - 1) as real)
  {
    hide SumOf, Sum, SquaredDeviations, SumOver, IsMean;
    if |xs| >= 2 {
      var mean := Sum(xs) / (|xs| as real);
      MeanExists(xs);
      SpreadsAgree(xs, mean, |xs|);
      assert xs[..|xs|] == xs;
      forall m | IsMean(xs, m)
        ensures m == mean
      {
        MeanIs(xs, m);
      }
    }
  }

  // ---- One candidate and its evidence ----

  /** A verified measurement that a candidate may rest on. */
  predicate Backs(d: Digests, c: Candidate, row: Row) {
    && row.candidateId == d.ofCandidate(c.identities, c.settings) && row.settingsSha == d.ofSettings(c.settings)
    && row.identities == c.identities
    && row.exitCode == 0 && row.measured && row.exactTokens && row.memory && row.cleanup
    && d.wellFormed(row.ownedRun) && d.wellFormed(row.tokensSha) && d.wellFormed(row.promptSha)
    && row.decodeTps >= 0.000001
  }

  /** Enough different verified runs of the candidate, with one prompt and one output. */
  predicate Backed(d: Digests, c: Candidate, store: Store) {
    var ids := c.measurementIds;
    && |ids| >= 2
    && (forall i :: 0 <= i < |ids| ==> store(ids[i]).Some? && Backs(d, c, store(ids[i]).value))
    && (forall i, j :: 0 <= i < j < |ids| ==>
          && store(ids[i]).value.ownedRun != store(ids[j]).value.ownedRun
          && store(ids[i]).value.tokensSha == store(ids[j]).value.tokensSha
          && store(ids[i]).value.promptSha == store(ids[j]).value.promptSha)
  }

  /** The rate of each measurement, in the candidate's order. */
  predicate RatesAre(c: Candidate, store: Store, rates: seq<real>) {
    && |rates| == |c.measurementIds|
    && forall i :: 0 <= i < |rates| ==>
         store(c.measurementIds[i]).Some? && rates[i] == store(c.measurementIds[i]).value.decodeTps
  }

  lemma {:induction false} PositiveSum(xs: seq<real>, n: nat)
    requires n <= |xs| && forall i :: 0 <= i < |xs| ==> xs[i] >= 0.000001
    ensures SumOver((i: nat) => At(xs, i), n) >= 0.0
  {
    if n > 0 {
      PositiveSum(xs, n - 1);
    }
  }

  lemma {:induction false} PositiveMean(xs: seq<real>, mean: real)
    requires |xs| >= 1 && IsMean(xs, mean) && forall i :: 0 <= i < |xs| ==> xs[i] >= 0.000001
    ensures mean >= 0.0
  {
    PositiveSum(xs, |xs|);
    NegativeProduct(|xs| as real, mean);
  }

  lemma {:induction false} NegativeProduct(n: real, a: real)
    ensures n > 0.0 && a < 0.0 ==> n * a < 0.0
  {
  }

  lemma {:induction false} EvidenceSplits(d: Digests, c: Candidate, store: Store, rates: seq<real>)
    requires RatesAre(c, store, rates)
    ensures EvidenceOk(d, c, store)
       <==> Backed(d, c, store) && StableRates(rates, c.identities.workload.maximumCvPct)
  {
    hide StableRates;
    var ids := c.measurementIds;
    assert Rates(store, ids) == rates;
    NeedsTwo(rates, c.identities.workload.maximumCvPct);
    if EvidenceOk(d, c, store) {
      assert forall i :: 0 <= i < |ids| ==> Backs(d, c, store(ids[i]).value);
    }
    if Backed(d, c, store) {
      forall i | 0 <= i < |ids|
        ensures RowOk(d, c, store(ids[i]).value)
        ensures store(ids[i]).value.tokensSha == store(ids[0]).value.tokensSha
        ensures store(ids[i]).value.promptSha == store(ids[0]).value.promptSha
      {
        assert Backs(d, c, store(ids[i]).value);
      }
    }
  }

  lemma {:induction false} NeedsTwo(rates: seq<real>, limit: real)
    ensures StableRates(rates, limit) ==> |rates| >= 2
  {
  }

  /**
   The evidence of a candidate is accepted exactly when it is backed by its own runs and their standard
   deviation is at most the workload's limit in percent of their mean.
   */
  lemma {:induction false} EvidenceExactly(d: Digests, c: Candidate, store: Store, rates: seq<real>, mean: real,
                                           deviation: real)
    requires RatesAre(c, store, rates) && |rates| >= 1 && IsMean(rates, mean) && IsDeviation(rates, mean, deviation)
    requires c.identities.workload.maximumCvPct >= 0.0
    ensures EvidenceOk(d, c, store)
       <==> Backed(d, c, store) && 100.0 * deviation <= c.identities.workload.maximumCvPct * mean
  {
    hide StableRates, IsMean, IsDeviation;
    EvidenceSplits(d, c, store, rates);
    if Backed(d, c, store) {
      forall i | 0 <= i < |rates|
        ensures rates[i] >= 0.000001
      {
        assert Backs(d, c, store(c.measurementIds[i]).value);
      }
      PositiveMean(rates, mean);
      StableExactly(rates, c.identities.workload.maximumCvPct, mean, deviation);
    }
  }

  // ---- Whole plans ----

  /** A candidate that may be sealed at all. */
  predicate Eligible(c: Candidate) {
    && c.status == Measured && c.rejectionReasons == [] && c.identities.workload.exact
      && c.settings.staticLayers == None
    && |c.measurementIds| >= c.identities.workload.measuredRuns
    && forall i, j :: 0 <= i < j < |c.measurementIds| ==> c.measurementIds[i] != c.measurementIds[j]
  }

  /** One plan of a chain: untampered, of this schema, with an eligible, backed candidate of stable rates. */
  ghost predicate Stands(d: Digests, store: Store, p: ExecutionPlan) {
    && p.schema == "1.0.0" && p.launcherAbi == "1.0.0" && p.hash == d.ofPlan(p.(hash := ""))
    && Eligible(p.candidate) && Backed(d, p.candidate, store)
    && forall rates, mean :: RatesAre(p.candidate, store, rates) && IsMean(rates, mean) ==>
         var limit := p.candidate.identities.workload.maximumCvPct;
         10000.0 * Spread(rates, mean) <= limit * limit * mean * mean * ((|rates| - 1) as real)
  }

  predicate SameSubject(a: Identities, b: Identities) {
    a.model == b.model && a.hardware == b.hardware && a.workloadSha == b.workloadSha
  }

  lemma {:induction false} RatesExist(d: Digests, c: Candidate, store: Store)
    requires Backed(d, c, store)
    ensures RatesAre(c, store, Rates(store, c.measurementIds))
    ensures forall rates :: RatesAre(c, store, rates) ==> rates == Rates(store, c.measurementIds)
  {
  }

  lemma {:induction false} StandsExactly(d: Digests, store: Store, p: ExecutionPlan)
    ensures Stands(d, store, p) <==> MemberOk(d, Some(store), p)
  {
    hide EvidenceOk, Backed, StableRates, Spread, IsMean;
    assert ValidCandidate(p.candidate) <==> Eligible(p.candidate);
    var c := p.candidate;
    if EvidenceOk(d, c, store) {
      EvidenceHasRates(d, c, store);
      EvidenceSplits(d, c, store, Rates(store, c.measurementIds));
    }
    if Backed(d, c, store) {
      RatesExist(d, c, store);
      var rates := Rates(store, c.measurementIds);
      EvidenceSplits(d, c, store, rates);
      StableBySquares(rates, c.identities.workload.maximumCvPct);
      BackedByTwo(d, c, store);
    }
  }

  lemma {:induction false} BackedByTwo(d: Digests, c: Candidate, store: Store)
    requires Backed(d, c, store)
    ensures |c.measurementIds| >= 2
  {
  }

  lemma {:induction false} EvidenceHasRates(d: Digests, c: Candidate, store: Store)
    requires EvidenceOk(d, c, store)
    ensures forall i :: 0 <= i < |c.measurementIds| ==> store(c.measurementIds[i]).Some?
    ensures RatesAre(c, store, Rates(store, c.measurementIds))
  {
    hide StableRates, RowOk;
  }

  /**
   A plan is accepted with a store exactly when every plan of its chain stands and each has the model,
   hardware and workload of the one before it.
   */
  lemma {:induction false} AcceptedPlanExactly(d: Digests, p: ExecutionPlan, store: Store)
    ensures ValidPlan(d, p, None, Some(store))
       <==> (forall i :: 0 <= i < |Chain(p)| ==> Stands(d, store, Chain(p)[i]))
            && forall i, j :: 0 <= i < j < |Chain(p)| ==>
                 SameSubject(Chain(p)[i].candidate.identities, Chain(p)[j].candidate.identities)
  {
    hide Stands, MemberOk, ValidPlan;
    var chain := Chain(p);
    ValidExactlyWhenChainOk(d, p, Some(store));
    forall i | 0 <= i < |chain|
      ensures Stands(d, store, chain[i]) <==> MemberOk(d, Some(store), chain[i])
    {
      StandsExactly(d, store, chain[i]);
    }
    if forall i :: 0 <= i < |chain| ==> MemberOk(d, Some(store), chain[i]) {
      if ChainOk(d, Some(store), chain) {
        forall i, j | 0 <= i < j < |chain|
          ensures SameSubject(chain[i].candidate.identities, chain[j].candidate.identities)
        {
          ChainSharesSubject(d, Some(store), chain, i);
          ChainSharesSubject(d, Some(store), chain, j);
        }
      }
      forall i | 0 <= i < |chain| - 1 && SameSubject(chain[i].candidate.identities, chain[i + 1].candidate.identities)
        ensures Compatible(chain[i].candidate, chain[i + 1].candidate)
      {
        MemberIsFree(d, store, chain[i + 1]);
      }
    }
  }

  lemma {:induction false} MemberIsFree(d: Digests, store: Store, p: ExecutionPlan)
    requires MemberOk(d, Some(store), p)
    ensures p.candidate.settings.staticLayers.None?
  {
    hide EvidenceOk;
  }
}
