/** A whole prefetch simulation: grouping conversations into steps, and what holds over every run. */
module PrefetchRun {
  import opened Trace
  import opened StaticHotset
  import opened CacheSim
  import opened Prefetch
  import opened PrefetchOracle
  import opened PrefetchReady
  import opened PrefetchLaw
  import opened PrefetchSim
  import opened PrefetchGroups

  datatype StepOutcome = StepOutcome(
    demand: nat,
    hits: nat,
    misses: nat,
    issued: nat,
    candidates: nat,
    ready: nat,
    wasted: int)

  datatype Report = Report(
    conversations: nat,
    demand: nat,
    hits: nat,
    misses: nat,
    issued: nat,
    ready: nat,
    wasted: int,
    steps: seq<StepOutcome>)

  // ---- One step ----

  /** The frequency counters hold exactly the demands of the earlier steps. */
  ghost predicate FrequenciesOf(frequencies: map<nat, map<nat, nat>>, history: seq<RouterTraceEvent>) {
    forall layer: nat ::
      IsCounter(if layer in frequencies then frequencies[layer] else map[], StepDemand(history, layer))
  }

  /** What every step guarantees, and what the oracle guarantees on top. */
  ghost predicate StepFacts(mode: Prediction, step: seq<RouterTraceEvent>, capacity: nat, max: nat, o: StepOutcome) {
    && o.demand == StepSize(step) == o.hits + o.misses
    && o.ready <= o.issued <= max && o.issued <= o.candidates
    && o.wasted == o.issued - o.ready
    && (mode.NoPrediction? ==> o.issued == 0)
    && (mode.Oracle? ==> ((o.misses == 0) <==> (o.candidates <= max && StepFits(step, capacity))))
    && (mode.Oracle? ==> o.misses >= o.candidates - o.issued)
    && (mode.Oracle? && StepFits(step, capacity) ==> o.issued == Min(max, o.candidates) && o.wasted == 0)
    && (mode.Oracle? && OnePerLayer(step) ==>
          o.issued == Min(max, o.candidates) && o.wasted == 0 && o.misses == o.candidates - o.issued)
  }

  // ---- What a step does ----

  /** Sorted by how often `demanded` asks for each, then by layer and expert. */
  ghost predicate ByDemand(demanded: seq<RouterTraceEvent>, scored: seq<Candidate>) {
    exists count: map<Candidate, nat>, chosen: set<Candidate> :: InOrder(count, chosen, scored)
      && Counts(count, demanded)
  }

  ghost predicate Counts(count: map<Candidate, nat>, demanded: seq<RouterTraceEvent>) {
    forall c: Candidate :: c in count ==> count[c] == multiset(StepDemand(demanded, c.layer))[c.expert]
  }

  /** The candidates of a mode: absent experts that the step, or the steps before it, demand. */
  ghost predicate Proposed(mode: Prediction, caches: map<nat, seq<nat>>, history: seq<RouterTraceEvent>,
                           step: seq<RouterTraceEvent>, scored: seq<Candidate>) {
    match mode
    case NoPrediction => scored == []
    case Oracle => OracleScored(caches, step, scored) && ByDemand(step, scored)
    case Frequency => OracleScored(caches, history, scored) && ByDemand(history, scored)
  }

  /** Transferring and then serving, with everything the outcome reports. */
  ghost predicate Outcome(caches: map<nat, seq<nat>>, scored: seq<Candidate>, step: seq<RouterTraceEvent>,
                          capacity: nat, max: nat, after: map<nat, seq<nat>>, o: StepOutcome)
    requires Narrow(step, capacity)
  {
    var t := Offers(Begin(caches, max), scored, step, capacity);
    var c := Consume(t.caches, t.issued, step, capacity);
    && after == c.caches
    && o.demand == StepSize(step) && o.hits == c.hits && o.hits + o.misses == o.demand
    && o.issued == |t.issued| && o.candidates == |scored|
    && o.ready == |c.ready| && o.wasted == o.issued - o.ready
  }

  ghost predicate Stepped(mode: Prediction, caches: map<nat, seq<nat>>, history: seq<RouterTraceEvent>,
                          step: seq<RouterTraceEvent>, capacity: nat, max: nat, after: map<nat, seq<nat>>,
                          o: StepOutcome)
    requires Narrow(step, capacity)
  {
    exists scored :: Proposed(mode, caches, history, step, scored)
      && Outcome(caches, scored, step, capacity, max, after, o)
  }

  /** The same without the loops: transfers by the law of transfers, service by recency. */
  ghost predicate StepLaw(mode: Prediction, caches: map<nat, seq<nat>>, history: seq<RouterTraceEvent>,
                          step: seq<RouterTraceEvent>, capacity: nat, max: nat, after: map<nat, seq<nat>>,
                          o: StepOutcome) {
    exists scored, t ::
      && Proposed(mode, caches, history, step, scored) && Lawful(caches, max, scored, step, capacity, t)
      && o.demand == StepSize(step) && o.candidates == |scored| && o.issued == |t.issued|
      && ServedLaw(t.caches, t.issued, step, capacity, after, o.hits, o.ready)
  }

  method OracleCandidates(caches: map<nat, seq<nat>>, step: seq<RouterTraceEvent>) returns (scored: seq<Candidate>)
    ensures OracleScored(caches, step, scored) && ByDemand(step, scored)
  {
    hide StepDemand;
    var count := CountStep(step);
    var chosen := set c | c in count && c.expert !in CacheOf(caches, c.layer);
    scored := SortCandidates(count, chosen);
    assert Counts(count, step);
  }

  function FrequencyScores(frequencies: map<nat, map<nat, nat>>): map<Candidate, nat> {
    map layer, x | layer in frequencies && x in frequencies[layer] :: Candidate(layer, x) := frequencies[layer][x]
  }

  /** Frequency mode proposes whatever its layer has ever demanded and does not hold, most demanded first. */
  method FrequencyCandidates(caches: map<nat, seq<nat>>, frequencies: map<nat, map<nat, nat>>,
                             ghost history: seq<RouterTraceEvent>)
    returns (scored: seq<Candidate>)
    requires FrequenciesOf(frequencies, history)
    ensures OracleScored(caches, history, scored) && ByDemand(history, scored)
  {
    hide StepDemand, InOrder, Counts;
    var score := FrequencyScores(frequencies);
    FrequencyCounts(frequencies, history);
    var chosen := set c | c in score && c.expert !in CacheOf(caches, c.layer);
    scored := SortCandidates(score, chosen);
    InOrderLists(score, chosen, scored);
  }

  lemma {:induction false} InOrderLists(score: map<Candidate, nat>, chosen: set<Candidate>, scored: seq<Candidate>)
    requires InOrder(score, chosen, scored)
    ensures Distinct(scored) && forall c :: c in scored <==> c in chosen
  {
  }

  lemma {:induction false} FrequencyCounts(frequencies: map<nat, map<nat, nat>>, history: seq<RouterTraceEvent>)
    requires FrequenciesOf(frequencies, history)
    ensures forall c: Candidate :: c in FrequencyScores(frequencies) <==> c.expert in StepDemand(history, c.layer)
    ensures Counts(FrequencyScores(frequencies), history)
  {
    hide StepDemand;
    var score := FrequencyScores(frequencies);
    forall c: Candidate
      ensures c in score <==> c.expert in StepDemand(history, c.layer)
      ensures c in score ==> score[c] == multiset(StepDemand(history, c.layer))[c.expert]
    {
      assert c == Candidate(c.layer, c.expert);
      assert IsCounter(if c.layer in frequencies then frequencies[c.layer] else map[], StepDemand(history, c.layer));
    }
  }

  // ---- Two lists of the same candidates in the same order are one ----

  lemma {:induction false} SortedUnique(score: map<Candidate, nat>, other: map<Candidate, nat>, chosen: set<Candidate>,
                                        a: seq<Candidate>, b: seq<Candidate>)
    requires InOrder(score, chosen, a) && InOrder(other, chosen, b)
    requires forall c :: c in chosen ==> score[c] == other[c]
    ensures a == b
    decreases |a|
  {
    if a == [] {
      SomeMember(b);
    } else {
      assert a[0] in a && a[0] in b;
      assert b[0] in b && b[0] in a;
      assert a[0] == b[0];
      var rest := chosen - {a[0]};
      TailInOrder(score, chosen, a);
      TailInOrder(other, chosen, b);
      SortedUnique(score, other, rest, a[1..], b[1..]);
      assert a == [a[0]] + a[1..] && b == [b[0]] + b[1..];
    }
  }

  lemma {:induction false} SomeMember(b: seq<Candidate>)
    ensures b == [] || b[0] in b
  {
  }

  lemma {:induction false} TailInOrder(score: map<Candidate, nat>, chosen: set<Candidate>, a: seq<Candidate>)
    requires InOrder(score, chosen, a) && a != []
    ensures InOrder(score, chosen - {a[0]}, a[1..])
  {
    var t := a[1..];
    assert forall i :: 0 <= i < |t| ==> t[i] == a[i + 1];
    forall c
      ensures c in t <==> c in chosen - {a[0]}
    {
      assert c in a <==> c in chosen;
      assert a == [a[0]] + t;
    }
  }

  /** A mode proposes one list: what a step does is determined by what came before it. */
  lemma {:induction false} ProposedUnique(mode: Prediction, caches: map<nat, seq<nat>>, history: seq<RouterTraceEvent>,
                                          step: seq<RouterTraceEvent>, a: seq<Candidate>, b: seq<Candidate>)
    requires Proposed(mode, caches, history, step, a) && Proposed(mode, caches, history, step, b)
    ensures a == b
  {
    hide StepDemand, InOrder;
    if !mode.NoPrediction? {
      var demanded := if mode.Oracle? then step else history;
      var s, chosen :| InOrder(s, chosen, a) && Counts(s, demanded);
      var t, chosen' :| InOrder(t, chosen', b) && Counts(t, demanded);
      InOrderLists(s, chosen, a);
      InOrderLists(t, chosen', b);
      assert chosen == chosen';
      InOrderScored(s, chosen, a);
      InOrderScored(t, chosen', b);
      SortedUnique(s, t, chosen, a, b);
    }
  }

  /** Proposals come by demand, the most demanded first, then by layer and then by expert. */
  lemma {:induction false} ProposedInOrder(mode: Prediction, caches: map<nat, seq<nat>>, history: seq<RouterTraceEvent>,
                                           step: seq<RouterTraceEvent>, scored: seq<Candidate>, i: nat, j: nat)
    requires Proposed(mode, caches, history, step, scored) && i < j < |scored|
    ensures !mode.NoPrediction?
    ensures var a, b, demanded := scored[i], scored[j], if mode.Oracle? then step else history;
            var m := multiset(StepDemand(demanded, a.layer))[a.expert];
            var n := multiset(StepDemand(demanded, b.layer))[b.expert];
            m > n || (m == n && (a.layer < b.layer || (a.layer == b.layer && a.expert < b.expert)))
  {
    hide StepDemand;
    var demanded := if mode.Oracle? then step else history;
    var count, chosen :| InOrder(count, chosen, scored) && Counts(count, demanded);
    assert Precedes(count, scored[i], scored[j]);
  }

  lemma {:induction false} InOrderScored(score: map<Candidate, nat>, chosen: set<Candidate>, scored: seq<Candidate>)
    requires InOrder(score, chosen, scored)
    ensures forall c :: c in chosen ==> c in score
  {
  }

  // ---- One step ----

  method UpdateFrequencies(frequencies: map<nat, map<nat, nat>>, ghost history: seq<RouterTraceEvent>,
                           step: seq<RouterTraceEvent>)
    returns (after: map<nat, map<nat, nat>>)
    requires FrequenciesOf(frequencies, history)
    ensures FrequenciesOf(after, history + step)
  {
    hide StepDemand, IsCounter;
    after := frequencies;
    assert history + step[..0] == history;
    var i := 0;
    while i < |step|
      invariant 0 <= i <= |step|
      invariant FrequenciesOf(after, history + step[..i])
    {
      var event := step[i];
      ghost var done, before := history + step[..i], after;
      assert history + step[..i + 1] == done + [event];
      var old' := if event.layerId in after then after[event.layerId] else map[];
      assert IsCounter(if event.layerId in before then before[event.layerId]
        else map[], StepDemand(done, event.layerId));
      var updated := CountInto(old', StepDemand(done, event.layerId), event.selected);
      after := after[event.layerId := updated];
      forall layer: nat
        ensures IsCounter(if layer in after then after[layer] else map[], StepDemand(done + [event], layer))
      {
        StepDemandSnoc(done, event, layer);
        assert IsCounter(if layer in before then before[layer] else map[], StepDemand(done, layer));
      }
      i := i + 1;
    }
    assert step[..i] == step;
  }

  lemma {:induction false} ScoredFacts(caches: map<nat, seq<nat>>, history: seq<RouterTraceEvent>,
                                       scored: seq<Candidate>)
    requires OracleScored(caches, history, scored)
    ensures Scored(caches, scored)
  {
    OracleIsScored(caches, history, scored);
  }

  lemma {:induction false} NothingScored(caches: map<nat, seq<nat>>)
    ensures Scored(caches, [])
  {
  }

  /** The facts of one step follow from what its transfers and its service preserve. */
  lemma {:induction false} StepCounts(caches: map<nat, seq<nat>>, max: nat, scored: seq<Candidate>,
                                      step: seq<RouterTraceEvent>, capacity: nat)
    requires ValidCaches(caches, capacity) && ValidTrace(step) && Narrow(step, capacity) && Scored(caches, scored)
    ensures var t := Offers(Begin(caches, max), scored, step, capacity);
            var c := Consume(t.caches, t.issued, step, capacity);
            && ValidCaches(t.caches, capacity) && ValidCaches(c.caches, capacity)
            && |c.ready| <= |t.issued| <= max && |t.issued| <= |scored|
  {
    hide Offers, Consume, Scored, Distinct, StepDemand;
    var t := Offers(Begin(caches, max), scored, step, capacity);
    OffersGood(caches, max, scored, step, capacity);
    ConsumeGood(t.caches, t.issued, step, capacity);
    SubsetCount(Consume(t.caches, t.issued, step, capacity).ready, t.issued);
    ScoredCard(caches, scored);
    SubsetCount(t.issued, Listed(scored));
  }

  lemma {:induction false} ScoredCard(caches: map<nat, seq<nat>>, scored: seq<Candidate>)
    requires Scored(caches, scored)
    ensures |Listed(scored)| == |scored|
  {
    ListedCard(scored);
  }

  /** The oracle's part of the step facts. */
  lemma {:induction false} OracleCounts(caches: map<nat, seq<nat>>, max: nat, scored: seq<Candidate>,
                                        step: seq<RouterTraceEvent>, capacity: nat)
    requires ValidCaches(caches, capacity) && ValidTrace(step) && Narrow(step, capacity)
    requires OracleScored(caches, step, scored)
    ensures var t := Offers(Begin(caches, max), scored, step, capacity);
            var c := Consume(t.caches, t.issued, step, capacity);
            && ((c.hits == StepSize(step)) <==> (|scored| <= max && StepFits(step, capacity)))
            && StepSize(step) - c.hits >= |scored| - |t.issued|
            && (StepFits(step, capacity) ==> |t.issued| == Min(max, |scored|) && |c.ready| == |t.issued|)
            && (OnePerLayer(step) ==> StepFits(step, capacity) && StepSize(step) - c.hits == |scored| - |t.issued|)
  {
    hide Offers, Consume, OracleScored, StepFits;
    OracleStepIsMissFreeExactly(caches, max, scored, step, capacity);
    UnissuedIsMissed(caches, max, scored, step, capacity);
    if StepFits(step, capacity) {
      FittingStepWastesNothing(caches, max, scored, step, capacity);
    }
    if OnePerLayer(step) {
      OracleIsExact(caches, max, scored, step, capacity);
      OnePerLayerFits(step, capacity);
    }
  }

  /** The facts of a step hold of whatever a step can do, from every valid state. */
  lemma {:induction false} SteppedFacts(mode: Prediction, caches: map<nat, seq<nat>>, history: seq<RouterTraceEvent>,
                                        step: seq<RouterTraceEvent>, capacity: nat, max: nat,
                                        after: map<nat, seq<nat>>, o: StepOutcome)
    requires ValidCaches(caches, capacity) && ValidTrace(step) && Narrow(step, capacity)
    requires Stepped(mode, caches, history, step, capacity, max, after, o)
    ensures ValidCaches(after, capacity) && StepFacts(mode, step, capacity, max, o)
    ensures StepLaw(mode, caches, history, step, capacity, max, after, o)
    ensures mode.NoPrediction?
      ==> after == Consume(caches, {}, step, capacity).caches && o.hits == Consume(caches, {}, step, capacity).hits
  {
    hide Offers, Consume, StepDemand, OracleScored, Scored, StepFits, ByDemand, OnePerLayer, ValidCaches, ValidTrace,
      Narrow;
    var scored :| Proposed(mode, caches, history, step, scored)
      && Outcome(caches, scored, step, capacity, max, after, o);
    match mode {
      case NoPrediction =>
        NothingScored(caches);
        OffersNone(Begin(caches, max), step, capacity);
      case Oracle =>
        ScoredFacts(caches, step, scored);
        OracleCounts(caches, max, scored, step, capacity);
      case Frequency =>
        ScoredFacts(caches, history, scored);
    }
    StepCounts(caches, max, scored, step, capacity);
    OutcomeLawful(caches, scored, step, capacity, max, after, o);
  }

  lemma {:induction false} OutcomeLawful(caches: map<nat, seq<nat>>, scored: seq<Candidate>,
                                         step: seq<RouterTraceEvent>, capacity: nat, max: nat,
                                         after: map<nat, seq<nat>>, o: StepOutcome)
    requires ValidCaches(caches, capacity) && ValidTrace(step) && Narrow(step, capacity) && Scored(caches, scored)
    requires Outcome(caches, scored, step, capacity, max, after, o)
    ensures var t := Offers(Begin(caches, max), scored, step, capacity);
            && Lawful(caches, max, scored, step, capacity, t)
            && o.demand == StepSize(step) && o.candidates == |scored| && o.issued == |t.issued|
            && ServedLaw(t.caches, t.issued, step, capacity, after, o.hits, o.ready)
  {
    hide Offers, Consume, Scored, Lawful, ServedLaw, ValidTrace, Narrow, DemandKept, IssuedResident, Sourced;
    var t := Offers(Begin(caches, max), scored, step, capacity);
    OffersLawful(caches, max, scored, step, capacity);
    OffersGood(caches, max, scored, step, capacity);
    ConsumeLawful(t.caches, t.issued, step, capacity);
  }

  method PrefetchStep(mode: Prediction, caches: map<nat, seq<nat>>, frequencies: map<nat, map<nat, nat>>,
                      ghost history: seq<RouterTraceEvent>, step: seq<RouterTraceEvent>, capacity: nat, max: nat)
    returns (after: map<nat, seq<nat>>, counted: map<nat, map<nat, nat>>, o: StepOutcome)
    requires ValidCaches(caches, capacity) && ValidTrace(step) && Narrow(step, capacity)
    requires mode.Frequency? ==> FrequenciesOf(frequencies, history)
    ensures mode.Frequency? ==> FrequenciesOf(counted, history + step)
    ensures Stepped(mode, caches, history, step, capacity, max, after, o)
    ensures StepLaw(mode, caches, history, step, capacity, max, after, o)
    ensures ValidCaches(after, capacity) && StepFacts(mode, step, capacity, max, o)
  {
    hide Offers, Consume, StepDemand, OracleScored, Scored, FrequenciesOf, StepFits, ByDemand, Outcome, StepFacts,
      StepLaw;
    var scored: seq<Candidate> := [];
    match mode {
      case NoPrediction =>
        NothingScored(caches);
      case Oracle =>
        scored := OracleCandidates(caches, step);
        ScoredFacts(caches, step, scored);
      case Frequency =>
        scored := FrequencyCandidates(caches, frequencies, history);
        ScoredFacts(caches, history, scored);
    }
    StepCounts(caches, max, scored, step, capacity);
    var t := IssueTransfers(caches, scored, step, capacity, max);
    var hits, misses, ready;
    after, hits, misses, ready := ServeStep(t.caches, t.issued, step, capacity);
    counted := frequencies;
    if mode.Frequency? {
      counted := UpdateFrequencies(frequencies, history, step);
    }
    o := StepOutcome(StepSize(step), hits, misses, |t.issued|, |scored|, |ready|, |t.issued| - |ready|);
    NowOutcome(caches, scored, step, capacity, max, after, o, ready);
    assert Proposed(mode, caches, history, step, scored);
    SteppedFacts(mode, caches, history, step, capacity, max, after, o);
  }

  lemma {:induction false} NowOutcome(caches: map<nat, seq<nat>>, scored: seq<Candidate>, step: seq<RouterTraceEvent>,
                                      capacity: nat, max: nat, after: map<nat, seq<nat>>, o: StepOutcome,
                                      ready: set<Candidate>)
    requires Narrow(step, capacity)
    requires var t := Offers(Begin(caches, max), scored, step, capacity);
             && Consume(t.caches, t.issued, step, capacity) == Consumption(after, o.hits, ready)
             && o.demand == StepSize(step) == o.hits + o.misses && o.issued == |t.issued| && o.candidates == |scored|
             && o.ready == |ready| && o.wasted == o.issued - o.ready
    ensures Outcome(caches, scored, step, capacity, max, after, o)
  {
    hide Offers, Consume;
  }

  /** The field-by-field sum of the step outcomes. */
  function Totals(steps: seq<StepOutcome>): StepOutcome {
    if steps == [] then StepOutcome(0, 0, 0, 0, 0, 0, 0)
    else
      var t, o := Totals(steps[..|steps| - 1]), steps[|steps| - 1];
      StepOutcome(t.demand + o.demand, t.hits + o.hits, t.misses + o.misses, t.issued + o.issued,
                  t.candidates + o.candidates, t.ready + o.ready, t.wasted + o.wasted)
  }

  lemma {:induction false} TotalsSnoc(steps: seq<StepOutcome>, o: StepOutcome)
    ensures var t := Totals(steps);
            Totals(steps + [o]) == StepOutcome(t.demand + o.demand, t.hits + o.hits, t.misses + o.misses,
              t.issued + o.issued, t.candidates + o.candidates, t.ready + o.ready, t.wasted + o.wasted)
  {
    assert (steps + [o])[..|steps|] == steps;
  }

  predicate InputsValid(traces: seq<seq<RouterTraceEvent>>, capacity: int, max: int) {
    && traces != []
    && (forall c :: 0 <= c < |traces| ==> traces[c] != [] && Narrow(traces[c], capacity))
    && max >= 0
  }

  lemma {:induction false} InputsAre(traces: seq<seq<RouterTraceEvent>>, capacity: int, max: int)
    ensures InputsValid(traces, capacity, max)
       <==> traces != [] && max >= 0 && forall c :: 0 <= c < |traces| ==>
              traces[c] != [] && forall i :: 0 <= i < |traces[c]| ==> |traces[c][i].selected| <= capacity
  {
  }

  /** The events of the first n steps. */
  ghost function History(grouped: seq<seq<seq<RouterTraceEvent>>>, n: nat): seq<RouterTraceEvent> {
    if n == 0 then [] else History(grouped, n - 1) + StepEvents(grouped, n - 1)
  }

  /** Step s leads from its shared caches to the next ones. */
  ghost predicate StepAt(mode: Prediction, grouped: seq<seq<seq<RouterTraceEvent>>>, capacity: nat, max: nat,
                         states: seq<map<nat, seq<nat>>>, steps: seq<StepOutcome>, s: nat)
    requires s < |steps| && s + 1 < |states|
  {
    && Narrow(StepEvents(grouped, s), capacity)
    && Stepped(mode, states[s], History(grouped, s), StepEvents(grouped, s), capacity, max, states[s + 1], steps[s])
  }

  ghost predicate StepLawAt(mode: Prediction, grouped: seq<seq<seq<RouterTraceEvent>>>, capacity: nat, max: nat,
                            states: seq<map<nat, seq<nat>>>, steps: seq<StepOutcome>, s: nat)
    requires s < |steps| && s + 1 < |states|
  {
    StepLaw(mode, states[s], History(grouped, s), StepEvents(grouped, s), capacity, max, states[s + 1], steps[s])
  }

  /** The steps lead from empty caches through the forward passes of the conversations, one of each at a time. */
  ghost predicate Simulated(mode: Prediction, grouped: seq<seq<seq<RouterTraceEvent>>>, capacity: nat, max: nat,
                            states: seq<map<nat, seq<nat>>>, steps: seq<StepOutcome>) {
    && |steps| == Longest(grouped) && |states| == |steps| + 1 && states[0] == map[]
    && (forall s :: 0 <= s < |steps| ==> StepAt(mode, grouped, capacity, max, states, steps, s))
  }

  /**
   The simulation.  It is refused exactly for invalid inputs.  Otherwise its steps take one forward pass
   of every conversation at a time, each step does what its mode does in the state the earlier steps
   left, every step satisfies its facts, the totals balance, and the demand of the report is the demand
   of the conversations.
   */
  method SimulateConcurrentPrefetch(traces: seq<seq<RouterTraceEvent>>, mode: Prediction, capacity: int, max: int)
    returns (r: Option<Report>, grouped: seq<seq<seq<RouterTraceEvent>>>, ghost states: seq<map<nat, seq<nat>>>)
    requires forall c :: 0 <= c < |traces| ==> ValidTrace(traces[c])
    ensures r.Some? <==> traces != [] && max >= 0 && forall c :: 0 <= c < |traces| ==>
      traces[c] != [] && forall i :: 0 <= i < |traces[c]| ==> |traces[c][i].selected| <= capacity
    ensures r.Some? ==> capacity >= 0 && Regrouped(traces, grouped, capacity)
    ensures r.Some? ==> Simulated(mode, grouped, capacity, max, states, r.value.steps)
    ensures r.Some? ==> forall s :: 0 <= s < |r.value.steps| ==>
      StepFacts(mode, StepEvents(grouped, s), capacity, max, r.value.steps[s])
    ensures r.Some? ==> forall s :: 0 <= s < |r.value.steps| ==>
      StepLawAt(mode, grouped, capacity, max, states, r.value.steps, s)
    ensures r.Some? ==> r.value.demand == TotalSize(traces) == r.value.hits + r.value.misses
    ensures r.Some? ==> r.value.wasted == r.value.issued - r.value.ready
    ensures r.Some? ==> r.value.ready <= r.value.issued <= |r.value.steps| * max
    ensures r.Some? ==> r.value.conversations == |traces|
    ensures r.Some? ==> forall column :: column in COLUMNS ==>
      InReport(r.value, column) == SumOver((s: nat) => InStep(r.value.steps, s, column), |r.value.steps|)
  {
    hide StepFacts, Regrouped, Totals, RunSize, TotalSize, StepSize, StepEvents, FrequenciesOf, ValidCaches, Longest,
         ValidTrace, Narrow, Stepped, History, StepLaw;
    states := [map[]];
    InputsAre(traces, capacity, max);
    if !InputsValid(traces, capacity, max) {
      return None, [], states;
    }
    WideEnough(traces, capacity);
    grouped := GroupAll(traces, capacity);
    var stepCount := Longest(grouped);
    var caches: map<nat, seq<nat>> := map[];
    var frequencies: map<nat, map<nat, nat>> := map[];
    var steps: seq<StepOutcome> := [];
    var totals := StepOutcome(0, 0, 0, 0, 0, 0, 0);
    RunStart(grouped, capacity);
    var s := 0;
    while s < stepCount
      invariant 0 <= s <= stepCount && |steps| == s && |states| == s + 1
      invariant states[0] == map[] && states[s] == caches && ValidCaches(caches, capacity)
      invariant mode.Frequency? ==> FrequenciesOf(frequencies, History(grouped, s))
      invariant forall i :: 0 <= i < s ==> StepAt(mode, grouped, capacity, max, states, steps, i)
      invariant forall i :: 0 <= i < s ==> StepLawAt(mode, grouped, capacity, max, states, steps, i)
      invariant forall i :: 0 <= i < s ==> StepFacts(mode, StepEvents(grouped, i), capacity, max, steps[i])
      invariant totals == Totals(steps)
      invariant totals.demand == RunSize(grouped, s) && totals.hits + totals.misses == totals.demand
      invariant totals.wasted == totals.issued - totals.ready
      invariant totals.ready <= totals.issued <= s * max
    {
      var step := StepEvents(grouped, s);
      StepIsValid(traces, grouped, capacity, s);
      ghost var before, earlier := steps, states;
      var o;
      caches, frequencies, o := PrefetchStep(mode, caches, frequencies, History(grouped, s), step, capacity, max);
      HistorySnoc(grouped, s);
      TotalsSnoc(steps, o);
      OneMore(grouped, s, mode, step, capacity, max, o);
      totals := StepOutcome(totals.demand + o.demand, totals.hits + o.hits, totals.misses + o.misses,
                            totals.issued + o.issued, totals.candidates + o.candidates,
                            totals.ready + o.ready, totals.wasted + o.wasted);
      steps, states := steps + [o], states + [caches];
      forall i | 0 <= i < s
        ensures StepAt(mode, grouped, capacity, max, states, steps, i)
        ensures StepLawAt(mode, grouped, capacity, max, states, steps, i)
      {
        assert StepAt(mode, grouped, capacity, max, earlier, before, i);
        assert StepLawAt(mode, grouped, capacity, max, earlier, before, i);
      }
      s := s + 1;
    }
    InterleavingKeepsDemand(traces, grouped, capacity, stepCount);
    var report := Report(|traces|, totals.demand, totals.hits, totals.misses, totals.issued, totals.ready,
                         totals.wasted, steps);
    ReportsSums(report, totals);
    return Some(report), grouped, states;
  }

  datatype Column = DemandColumn | HitColumn | MissColumn | IssuedColumn | ReadyColumn | WastedColumn

  const COLUMNS: set<Column> := {DemandColumn, HitColumn, MissColumn, IssuedColumn, ReadyColumn, WastedColumn}

  function InReport(r: Report, column: Column): real {
    match column
    case DemandColumn => r.demand as real
    case HitColumn => r.hits as real
    case MissColumn => r.misses as real
    case IssuedColumn => r.issued as real
    case ReadyColumn => r.ready as real
    case WastedColumn => r.wasted as real
  }

  function InStep(steps: seq<StepOutcome>, s: nat, column: Column): real {
    if s >= |steps| then 0.0
    else
      match column
      case DemandColumn => steps[s].demand as real
      case HitColumn => steps[s].hits as real
      case MissColumn => steps[s].misses as real
      case IssuedColumn => steps[s].issued as real
      case ReadyColumn => steps[s].ready as real
      case WastedColumn => steps[s].wasted as real
  }

  /** Every column of the totals is the sum over the steps. */
  lemma {:induction false} TotalsAreSums(steps: seq<StepOutcome>, n: nat, column: Column)
    requires n <= |steps|
    ensures InStep([Totals(steps[..n])], 0, column) == SumOver((s: nat) => InStep(steps, s, column), n)
  {
    if n > 0 {
      TotalsAreSums(steps, n - 1, column);
      assert steps[..n][..n - 1] == steps[..n - 1];
    }
  }

  lemma {:induction false} ReportsSums(r: Report, t: StepOutcome)
    requires t == Totals(r.steps)
    requires r.demand == t.demand && r.hits == t.hits && r.misses == t.misses
    requires r.issued == t.issued && r.ready == t.ready && r.wasted == t.wasted
    ensures forall column :: column in COLUMNS ==>
      InReport(r, column) == SumOver((s: nat) => InStep(r.steps, s, column), |r.steps|)
  {
    hide Totals, SumOver;
    forall column | column in COLUMNS
      ensures InReport(r, column) == SumOver((s: nat) => InStep(r.steps, s, column), |r.steps|)
    {
      TotalsAreSums(r.steps, |r.steps|, column);
      assert r.steps[..|r.steps|] == r.steps;
    }
  }

  lemma {:induction false} HistorySnoc(grouped: seq<seq<seq<RouterTraceEvent>>>, s: nat)
    ensures History(grouped, s + 1) == History(grouped, s) + StepEvents(grouped, s)
  {
  }

  lemma {:induction false} WideEnough(traces: seq<seq<RouterTraceEvent>>, capacity: int)
    requires traces != [] && forall c :: 0 <= c < |traces| ==> ValidTrace(traces[c])
    requires forall c :: 0 <= c < |traces| ==> traces[c] != [] && Narrow(traces[c], capacity)
    ensures capacity > 0
  {
    var e := traces[0][0];
    assert ValidEvent(e) && |e.selected| <= capacity;
  }

  lemma {:induction false} RunStart(grouped: seq<seq<seq<RouterTraceEvent>>>, capacity: nat)
    ensures ValidCaches(map[], capacity) && FrequenciesOf(map[], [])
    ensures Totals([]) == StepOutcome(0, 0, 0, 0, 0, 0, 0) && RunSize(grouped, 0) == 0 && History(grouped, 0) == []
  {
    NoStepDemand();
  }

  lemma {:induction false} OneMore(grouped: seq<seq<seq<RouterTraceEvent>>>, s: nat, mode: Prediction,
                                   step: seq<RouterTraceEvent>, capacity: nat, max: nat, o: StepOutcome)
    requires step == StepEvents(grouped, s) && StepFacts(mode, step, capacity, max, o)
    ensures RunSize(grouped, s + 1) == RunSize(grouped, s) + o.demand
    ensures o.hits + o.misses == o.demand && o.wasted == o.issued - o.ready && o.ready <= o.issued <= max
    ensures (s + 1) * max == s * max + max
  {
    hide StepEvents;
  }

  // ---- Corollaries for whole runs ----

  /** No forward pass observes a layer twice. */
  predicate OncePerPass(trace: seq<RouterTraceEvent>) {
    forall i, j :: 0 <= i < j < |trace| && trace[i].forwardId == trace[j].forwardId
      ==> trace[i].layerId != trace[j].layerId
  }

  lemma {:induction false} PassOnePerLayer(trace: seq<RouterTraceEvent>, id: nat)
    requires OncePerPass(trace)
    ensures OnePerLayer(OfForward(trace, id))
  {
    if trace != [] {
      var n := |trace| - 1;
      PassOnePerLayer(trace[..n], id);
      var pass := OfForward(trace[..n], id);
      forall i | 0 <= i < |pass| && trace[n].forwardId == id
        ensures pass[i].layerId != trace[n].layerId
      {
        var e := pass[i];
        OfForwardMember(trace[..n], id, e);
        var j :| 0 <= j < n && trace[..n][j] == e;
        assert trace[j] == e;
      }
    }
  }

  lemma {:induction false} OnePerLayerOfMultiset(a: seq<RouterTraceEvent>, b: seq<RouterTraceEvent>)
    requires multiset(a) == multiset(b) && OnePerLayer(b)
    ensures OnePerLayer(a)
  {
    forall i, j | 0 <= i < j < |a|
      ensures a[i].layerId != a[j].layerId
    {
      var x, y := a[i], a[j];
      var rest := a[..i] + a[i + 1..];
      assert a == a[..i] + [x] + a[i + 1..];
      assert multiset(a) == multiset(rest) + multiset{x};
      assert rest[j - 1] == y;
      assert y in multiset(rest);
      assert multiset(b)[x] >= 1 && multiset(b)[y] >= 1;
      TwoPlaces(b, x, y);
    }
  }

  lemma {:induction false} TwoPlaces(b: seq<RouterTraceEvent>, x: RouterTraceEvent, y: RouterTraceEvent)
    requires OnePerLayer(b) && multiset{x, y} <= multiset(b)
    ensures x.layerId != y.layerId
  {
    assert x in multiset(b) && y in multiset(b);
    var i :| 0 <= i < |b| && b[i] == x;
    var rest := b[..i] + b[i + 1..];
    assert b == b[..i] + [x] + b[i + 1..];
    assert multiset(b) == multiset(rest) + multiset{x};
    assert y in multiset(rest);
    var j :| 0 <= j < |rest| && rest[j] == y;
    assert rest[j] == b[if j < i then j else j + 1];
  }
}
