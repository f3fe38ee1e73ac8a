/** Sealing execution plans: what an accepted plan and every plan behind it have been shown to satisfy. */
module Plan {
  import opened Trace

  datatype Status = Estimated | Unmeasured | Invalid | Rejected | Measured

  /** The workload fields that sealing reads; the rest of the workload is `other`. */
  datatype Workload = Workload(measuredRuns: nat, exact: bool, maximumCvPct: real, other: string)

  datatype Identities = Identities(
    model: string,
    hardware: string,
    workloadSha: string,
    runtime: string,
    workload: Workload)

  /** The settings that sealing reads; the rest of the settings is `other`. */
  datatype Settings = Settings(staticLayers: Option<seq<nat>>, other: string)

  datatype Candidate = Candidate(
    identities: Identities,
    settings: Settings,
    status: Status,
    measurementIds: seq<string>,
    rejectionReasons: seq<string>)

  datatype ExecutionPlan = ExecutionPlan(
    schema: string,
    launcherAbi: string,
    candidate: Candidate,
    fallback: Option<ExecutionPlan>,
    sealedAt: string,
    hash: string)

  datatype NumericalPath = StockSameRuntime | ForkOffVsPristine | NumericalPathChange

  /** What the store reports about one verified measurement. */
  datatype Row = Row(
    candidateId: string,
    identities: Identities,
    settingsSha: string,
    exitCode: int,
    measured: bool,
    exactTokens: bool,
    memory: bool,
    cleanup: bool,
    tokensSha: string,
    promptSha: string,
    decodeTps: real,
    path: NumericalPath,
    ownedRun: string)

  /** The canonical digests; nothing is assumed about them. */
  datatype Digests = Digests(
    ofPlan: ExecutionPlan -> string,
    ofCandidate: (Identities, Settings) -> string,
    ofSettings: Settings -> string,
    wellFormed: string -> bool)

  /** Verified evidence by measurement id; a missing or rejected measurement is None. */
  type Store = string -> Option<Row>

  const SCHEMA: string := "1.0.0"
  const LEAST_TPS: real := 0.000001

  // ---- One candidate ----

  predicate AllDifferent(ids: seq<string>) {
    forall i, j :: 0 <= i < j < |ids| ==> ids[i] != ids[j]
  }

  predicate ValidCandidate(c: Candidate) {
    && c.status == Measured && c.rejectionReasons == []
    && |c.measurementIds| >= c.identities.workload.measuredRuns
    && AllDifferent(c.measurementIds)
    && c.identities.workload.exact
    && c.settings.staticLayers.None?
  }

  function Sum(xs: seq<real>): real {
    if xs == [] then 0.0 else Sum(xs[..|xs| - 1]) + xs[|xs| - 1]
  }

  function SquaredDeviations(xs: seq<real>, mean: real): real {
    if xs == [] then 0.0
    else SquaredDeviations(xs[..|xs| - 1], mean) + (xs[|xs| - 1] - mean) * (xs[|xs| - 1] - mean)
  }

  /**
   The relative standard deviation stays within the limit.  Squaring both sides avoids the root: the
   mean and the limit are never negative here.  Fewer than two samples have no standard deviation.
   */
  predicate StableRates(xs: seq<real>, maximumCvPct: real) {
    && |xs| >= 2
    && var mean := Sum(xs) / (|xs| as real);
       10000.0 * SquaredDeviations(xs, mean) <= maximumCvPct * maximumCvPct * mean * mean * ((|xs| - 1) as real)
  }

  /** One measurement belongs to this candidate and passed. */
  predicate RowOk(d: Digests, c: Candidate, row: Row) {
    && d.wellFormed(row.ownedRun)
    && row.candidateId == d.ofCandidate(c.identities, c.settings)
    && row.identities == c.identities
    && row.settingsSha == d.ofSettings(c.settings)
    && row.exitCode == 0 && row.measured
    && row.exactTokens && row.memory && row.cleanup
    && d.wellFormed(row.tokensSha) && d.wellFormed(row.promptSha)
    && row.decodeTps >= LEAST_TPS
  }

  function Rates(store: Store, ids: seq<string>): seq<real>
    requires forall i :: 0 <= i < |ids| ==> store(ids[i]).Some?
  {
    seq(|ids|, i requires 0 <= i < |ids| => store(ids[i]).value.decodeTps)
  }

  /** The evidence of a candidate: own runs, pairwise different, one output, stable rates. */
  ghost predicate EvidenceOk(d: Digests, c: Candidate, store: Store) {
    var ids := c.measurementIds;
    && (forall i :: 0 <= i < |ids| ==> store(ids[i]).Some? && RowOk(d, c, store(ids[i]).value))
    && (forall i, j :: 0 <= i < j < |ids| ==> store(ids[i]).value.ownedRun != store(ids[j]).value.ownedRun)
    && ids != []
    && (forall i :: 0 <= i < |ids| ==> store(ids[i]).value.tokensSha == store(ids[0]).value.tokensSha)
    && (forall i :: 0 <= i < |ids| ==> store(ids[i]).value.promptSha == store(ids[0]).value.promptSha)
    && StableRates(Rates(store, ids), c.identities.workload.maximumCvPct)
  }

  // ---- The mutual recursion ----

  function WithoutHash(p: ExecutionPlan): ExecutionPlan {
    p.(hash := "")
  }

  predicate Compatible(c: Candidate, f: Candidate) {
    && c.identities.model == f.identities.model
    && c.identities.hardware == f.identities.hardware
    && c.identities.workloadSha == f.identities.workloadSha
    && f.settings.staticLayers.None?
  }

  ghost predicate ValidFallback(d: Digests, c: Candidate, fallback: Option<ExecutionPlan>)
    decreases fallback, 0
  {
    match fallback
    case None => c.settings.staticLayers.None?
    case Some(f) => ValidPlan(d, f, None, None) && Compatible(c, f.candidate)
  }

  ghost predicate ValidPlan(d: Digests, p: ExecutionPlan, identities: Option<Identities>, store: Option<Store>)
    decreases p, 1
  {
    && p.schema == SCHEMA && p.launcherAbi == SCHEMA
    && d.ofPlan(WithoutHash(p)) == p.hash
    && ValidCandidate(p.candidate)
    && (identities.Some? ==> p.candidate.identities == identities.value)
    && ValidFallback(d, p.candidate, p.fallback)
    && (store.Some? ==> Sealable(d, p.candidate, store.value, p.candidate.identities, p.fallback))
  }

  /** Whether sealing succeeds. */
  ghost predicate Sealable(d: Digests, c: Candidate, store: Store, identities: Identities,
                           fallback: Option<ExecutionPlan>)
    decreases fallback, 1
  {
    && ValidCandidate(c)
    && c.identities == identities
    && ValidFallback(d, c, fallback)
    && (fallback.Some? ==> ValidPlan(d, fallback.value, None, Some(store)))
    && EvidenceOk(d, c, store)
  }

  function Sealed(d: Digests, c: Candidate, fallback: Option<ExecutionPlan>, now: string): ExecutionPlan {
    var p := ExecutionPlan(SCHEMA, SCHEMA, c, fallback, now, "");
    p.(hash := d.ofPlan(WithoutHash(p)))
  }

  /** The loop over a candidate's measurements. */
  method CheckEvidence(d: Digests, c: Candidate, store: Store) returns (ok: bool)
    ensures ok <==> EvidenceOk(d, c, store)
  {
    hide RowOk, StableRates;
    var ids := c.measurementIds;
    var owned: set<string> := {};
    var rates: seq<real> := [];
    var i := 0;
    while i < |ids|
      invariant 0 <= i <= |ids| && |rates| == i
      invariant forall j :: 0 <= j < i ==> store(ids[j]).Some? && RowOk(d, c, store(ids[j]).value)
      invariant forall j :: 0 <= j < i ==> rates[j] == store(ids[j]).value.decodeTps
      invariant forall x :: x in owned <==> exists j :: 0 <= j < i && store(ids[j]).value.ownedRun == x
      invariant forall j, k :: 0 <= j < k < i ==> store(ids[j]).value.ownedRun != store(ids[k]).value.ownedRun
    {
      var row := store(ids[i]);
      if row.None? || row.value.ownedRun in owned || !RowOk(d, c, row.value) {
        return false;
      }
      owned := owned + {row.value.ownedRun};
      rates := rates + [row.value.decodeTps];
      i := i + 1;
    }
    if ids == [] {
      return false;
    }
    assert rates == Rates(store, ids);
    ok := (forall j :: 0 <= j < |ids| ==> store(ids[j]).value.tokensSha == store(ids[0]).value.tokensSha)
       && (forall j :: 0 <= j < |ids| ==> store(ids[j]).value.promptSha == store(ids[0]).value.promptSha)
       && StableRates(rates, c.identities.workload.maximumCvPct);
  }

  method CheckFallback(d: Digests, c: Candidate, fallback: Option<ExecutionPlan>) returns (ok: bool)
    ensures ok <==> ValidFallback(d, c, fallback)
    decreases fallback, 0
  {
    if fallback.None? {
      return c.settings.staticLayers.None?;
    }
    ok := Validate(d, fallback.value, None, None);
    ok := ok && Compatible(c, fallback.value.candidate);
  }

  method Validate(d: Digests, p: ExecutionPlan, identities: Option<Identities>, store: Option<Store>) returns (ok: bool)
    ensures ok <==> ValidPlan(d, p, identities, store)
    decreases p, 1
  {
    hide EvidenceOk, ValidCandidate;
    if p.schema != SCHEMA || p.launcherAbi != SCHEMA || d.ofPlan(WithoutHash(p)) != p.hash {
      return false;
    }
    if !ValidCandidate(p.candidate) || (identities.Some? && p.candidate.identities != identities.value) {
      return false;
    }
    ok := CheckFallback(d, p.candidate, p.fallback);
    if ok && store.Some? {
      var plan := Seal(d, p.candidate, store.value, p.candidate.identities, p.fallback, "");
      ok := plan.Some?;
    }
  }

  method Seal(d: Digests, c: Candidate, store: Store, identities: Identities, fallback: Option<ExecutionPlan>,
              now: string)
    returns (plan: Option<ExecutionPlan>)
    ensures plan == if Sealable(d, c, store, identities, fallback) then Some(Sealed(d, c, fallback, now)) else None
    decreases fallback, 1
  {
    hide EvidenceOk, ValidCandidate;
    if !ValidCandidate(c) || c.identities != identities {
      return None;
    }
    var ok := CheckFallback(d, c, fallback);
    if ok && fallback.Some? {
      ok := Validate(d, fallback.value, None, Some(store));
    }
    if !ok {
      return None;
    }
    ok := CheckEvidence(d, c, store);
    plan := if ok then Some(Sealed(d, c, fallback, now)) else None;
  }

  /** Sealing is self-consistent: what it returns is accepted again, with the same store and identities. */
  lemma {:induction false} SealedIsValid(d: Digests, c: Candidate, store: Store, identities: Identities,
                                         fallback: Option<ExecutionPlan>, now: string)
    requires Sealable(d, c, store, identities, fallback)
    ensures ValidPlan(d, Sealed(d, c, fallback, now), Some(identities), Some(store))
  {
    var p := Sealed(d, c, fallback, now);
    assert WithoutHash(p) == ExecutionPlan(SCHEMA, SCHEMA, c, fallback, now, "");
  }

  // ---- The fallback chain ----

  /** The plan and everything behind it. */
  function Chain(p: ExecutionPlan): seq<ExecutionPlan> {
    [p] + match p.fallback
          case None => []
          case Some(f) => Chain(f)
  }

  /** What acceptance demands of one member on its own. */
  ghost predicate MemberOk(d: Digests, store: Option<Store>, p: ExecutionPlan) {
    && p.schema == SCHEMA && p.launcherAbi == SCHEMA
    && d.ofPlan(WithoutHash(p)) == p.hash
    && ValidCandidate(p.candidate)
    && (store.Some? ==> EvidenceOk(d, p.candidate, store.value))
  }

  ghost predicate ChainOk(d: Digests, store: Option<Store>, chain: seq<ExecutionPlan>) {
    && (forall i :: 0 <= i < |chain| ==> MemberOk(d, store, chain[i]))
    && (forall i :: 0 <= i < |chain| - 1 ==> Compatible(chain[i].candidate, chain[i + 1].candidate))
  }

  lemma {:induction false} ChainOkCons(d: Digests, store: Option<Store>, p: ExecutionPlan, rest: seq<ExecutionPlan>)
    ensures ChainOk(d, store, [p] + rest) ==> MemberOk(d, store, p) && ChainOk(d, store, rest)
    ensures ChainOk(d, store, [p] + rest) && rest != [] ==> Compatible(p.candidate, rest[0].candidate)
    ensures MemberOk(d, store, p) && ChainOk(d, store, rest)
            && (rest != [] ==> Compatible(p.candidate, rest[0].candidate))
            ==> ChainOk(d, store, [p] + rest)
  {
    hide MemberOk, Compatible;
    var chain := [p] + rest;
    assert chain[0] == p && forall i :: 0 <= i < |rest| ==> rest[i] == chain[i + 1];
    if ChainOk(d, store, chain) {
      assert MemberOk(d, store, chain[0]);
      forall i | 0 <= i < |rest|
        ensures MemberOk(d, store, rest[i])
      {
        assert MemberOk(d, store, chain[i + 1]);
      }
      forall i | 0 <= i < |rest| - 1
        ensures Compatible(rest[i].candidate, rest[i + 1].candidate)
      {
        var j := i + 1;
        assert Compatible(chain[j].candidate, chain[j + 1].candidate);
      }
      if rest != [] {
        var j := 0;
        assert Compatible(chain[j].candidate, chain[j + 1].candidate);
      }
    }
    if MemberOk(d, store, p) && ChainOk(d, store, rest) && (rest != [] ==> Compatible(p.candidate, rest[0].candidate)) {
      forall i | 0 <= i < |chain|
        ensures MemberOk(d, store, chain[i])
      {
        if i > 0 {
          assert MemberOk(d, store, rest[i - 1]);
        }
      }
      forall i | 0 <= i < |chain| - 1
        ensures Compatible(chain[i].candidate, chain[i + 1].candidate)
      {
        if i > 0 {
          var j := i - 1;
          assert Compatible(rest[j].candidate, rest[j + 1].candidate);
        }
      }
    }
  }

  /**
   The recursion through validation, fallback checks and re-sealing accepts a plan exactly when every
   member of its chain stands on its own evidence and each fits the one in front of it.
   */
  lemma {:induction false} ValidExactlyWhenChainOk(d: Digests, p: ExecutionPlan, store: Option<Store>)
    ensures ValidPlan(d, p, None, store) <==> ChainOk(d, store, Chain(p))
    decreases p
  {
    hide EvidenceOk, ValidCandidate;
    match p.fallback {
      case None =>
        ChainOkCons(d, store, p, []);
        StaticFree(p.candidate);
        assert Chain(p) == [p] + [];
      case Some(f) =>
        ValidExactlyWhenChainOk(d, f, store);
        ValidExactlyWhenChainOk(d, f, None);
        ChainOkCons(d, store, p, Chain(f));
        NoEvidenceNeeded(d, store, Chain(f));
        StaticFree(p.candidate);
        StaticFree(f.candidate);
        ValidUnfolds(d, p, f, store);
        assert Chain(p) == [p] + Chain(f) && Chain(f)[0] == f;
    }
  }

  /** One round through the mutual recursion. */
  lemma {:induction false} ValidUnfolds(d: Digests, p: ExecutionPlan, f: ExecutionPlan, store: Option<Store>)
    requires p.fallback == Some(f)
    ensures ValidPlan(d, p, None, store)
      <==> MemberOk(d, store, p) && Compatible(p.candidate, f.candidate)
           && ValidPlan(d, f, None, None) && ValidPlan(d, f, None, store)
  {
    hide EvidenceOk, ValidCandidate;
    assert ValidFallback(d, p.candidate, p.fallback)
      <==> ValidPlan(d, f, None, None) && Compatible(p.candidate, f.candidate);
    match store {
      case None =>
      case Some(s) =>
        assert Some(s) == store;
        assert Sealable(d, p.candidate, s, p.candidate.identities, p.fallback)
          <==> ValidCandidate(p.candidate) && ValidFallback(d, p.candidate, p.fallback)
               && ValidPlan(d, f, None, store) && EvidenceOk(d, p.candidate, s);
    }
  }

  lemma {:induction false} StaticFree(c: Candidate)
    ensures ValidCandidate(c) ==> c.settings.staticLayers.None?
  {
  }

  lemma {:induction false} NoEvidenceNeeded(d: Digests, store: Option<Store>, chain: seq<ExecutionPlan>)
    ensures ChainOk(d, store, chain) ==> ChainOk(d, None, chain)
  {
    hide EvidenceOk, ValidCandidate;
    if ChainOk(d, store, chain) {
      forall i | 0 <= i < |chain|
        ensures MemberOk(d, None, chain[i])
      {
        assert MemberOk(d, store, chain[i]);
      }
    }
  }

  /** Every member of an accepted chain runs the head's model, hardware and workload. */
  lemma {:induction false} ChainSharesSubject(d: Digests, store: Option<Store>, chain: seq<ExecutionPlan>, i: nat)
    requires ChainOk(d, store, chain) && i < |chain|
    ensures chain[i].candidate.identities.model == chain[0].candidate.identities.model
    ensures chain[i].candidate.identities.hardware == chain[0].candidate.identities.hardware
    ensures chain[i].candidate.identities.workloadSha == chain[0].candidate.identities.workloadSha
  {
    if i > 0 {
      ChainSharesSubject(d, store, chain, i - 1);
      assert Compatible(chain[i - 1].candidate, chain[i - 1 + 1].candidate);
    }
  }

  /**
   What a reader may rely on, for every plan behind an accepted one: it was measured, exactly, without
   static placement, by at least two and at least the required number of different owned runs, all of
   which produced the same tokens from the same prompt, for the head's model, hardware and workload.
   */
  lemma {:induction false} AcceptedChain(d: Digests, p: ExecutionPlan, store: Store, i: nat)
    requires ValidPlan(d, p, None, Some(store)) && i < |Chain(p)|
    ensures var c := Chain(p)[i].candidate;
            var ids := c.measurementIds;
            && c.status == Measured && c.rejectionReasons == [] && c.identities.workload.exact
              && c.settings.staticLayers.None?
            && |ids| >= c.identities.workload.measuredRuns && |ids| >= 2
            && (forall j :: 0 <= j < |ids| ==> store(ids[j]).Some? && store(ids[j]).value.identities == c.identities)
            && (forall j :: 0 <= j < |ids| ==> store(ids[j]).value.exitCode == 0 && store(ids[j]).value.measured)
            && (forall j :: 0 <= j < |ids| ==>
              store(ids[j]).value.exactTokens && store(ids[j]).value.memory && store(ids[j]).value.cleanup)
            && (forall j, k :: 0 <= j < k < |ids| ==> store(ids[j]).value.ownedRun != store(ids[k]).value.ownedRun)
            && (forall j, k :: 0 <= j < k < |ids| ==> store(ids[j]).value.tokensSha == store(ids[k]).value.tokensSha)
            && c.identities.model == p.candidate.identities.model
            && c.identities.hardware == p.candidate.identities.hardware
            && c.identities.workloadSha == p.candidate.identities.workloadSha
  {
    ValidExactlyWhenChainOk(d, p, Some(store));
    ChainSharesSubject(d, Some(store), Chain(p), i);
    assert MemberOk(d, Some(store), Chain(p)[i]);
  }

  /** The check that a static candidate has a fallback never decides: such a candidate is invalid anyway. */
  lemma {:induction false} StaticFallbackCheckIsRedundant(d: Digests, c: Candidate, store: Store,
                                                          identities: Identities)
    ensures Sealable(d, c, store, identities, None)
       <==> ValidCandidate(c) && c.identities == identities && EvidenceOk(d, c, store)
  {
  }

  /** One sealed measurement is never enough, whatever the workload asks for. */
  lemma {:induction false} OneRunNeverSeals(d: Digests, c: Candidate, store: Store, identities: Identities,
                                            fallback: Option<ExecutionPlan>)
    requires |c.measurementIds| <= 1
    ensures !Sealable(d, c, store, identities, fallback)
  {
    hide ValidPlan, ValidFallback, ValidCandidate, EvidenceOk;
    TwoRunsAreNeeded(d, c, store);
  }

  lemma {:induction false} TwoRunsAreNeeded(d: Digests, c: Candidate, store: Store)
    ensures EvidenceOk(d, c, store) ==> |c.measurementIds| >= 2
  {
    hide RowOk;
  }
}
