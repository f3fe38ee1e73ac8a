/**
 The policy simulator over a mixed-layer trace, and the routing-locality report's LRU over separate
 sequences.  Each layer has its own cache, so a mixed trace decomposes into its layers.
 */
module CacheSim {
  import opened Trace
  import opened LruEngine
  import opened ReuseDistance
  import opened LruCapacity
  import opened StaticHotset

  datatype PolicyEventOutcome = PolicyEventOutcome(event: RouterTraceEvent, ready: seq<nat>, blocking: seq<nat>)

  datatype LruCount = LruCount(hits: nat, misses: nat)

  datatype PolicyResult = PolicyResult(demand: nat, hits: nat, misses: nat, loads: nat, preloads: nat)

  datatype CacheSimulationReport = CacheSimulationReport(
    reactive: PolicyResult,
    staticHotset: PolicyResult,
    lru: PolicyResult)

  /** The selections of one layer, in trace order. */
  function OnLayer(events: seq<RouterTraceEvent>, layer: nat): seq<seq<nat>> {
    if events == [] then []
    else
      var n := |events| - 1;
      OnLayer(events[..n], layer) + if events[n].layerId == layer then [events[n].selected] else []
  }

  function Selections(events: seq<RouterTraceEvent>): seq<seq<nat>> {
    seq(|events|, i requires 0 <= i < |events| => events[i].selected)
  }

  predicate Narrow(events: seq<RouterTraceEvent>, capacity: int) {
    forall i :: 0 <= i < |events| ==> |events[i].selected| <= capacity
  }

  lemma {:induction false} OnLayerFits(events: seq<RouterTraceEvent>, layer: nat, capacity: int)
    requires ValidTrace(events) && Narrow(events, capacity)
    ensures Fits(OnLayer(events, layer), capacity)
  {
    if events != [] {
      OnLayerFits(events[..|events| - 1], layer, capacity);
    }
  }

  lemma {:induction false} SelectionsFit(events: seq<RouterTraceEvent>, capacity: int)
    requires ValidTrace(events) && Narrow(events, capacity)
    ensures Fits(Selections(events), capacity)
  {
  }

  // ---- LRU over separate sequences ----

  function Total(sequences: seq<seq<RouterTraceEvent>>): nat {
    if sequences == [] then 0
    else Total(sequences[..|sequences| - 1]) + Demand(Selections(sequences[|sequences| - 1]))
  }

  ghost function TotalHits(sequences: seq<seq<RouterTraceEvent>>, capacity: int): nat
    requires forall s :: 0 <= s < |sequences| ==> ValidTrace(sequences[s]) && Narrow(sequences[s], capacity)
  {
    if sequences == [] then 0
    else
      var n := |sequences| - 1;
      SelectionsFit(sequences[n], capacity);
      TotalHits(sequences[..n], capacity) + Hits(HitsFirst, [], Selections(sequences[n]), capacity)
  }

  /** One sequence from an empty cache; the run stops where the victim scan fails. */
  method LruSequence(events: seq<RouterTraceEvent>, capacity: int) returns (r: Option<LruCount>)
    requires ValidTrace(events)
    ensures r.Some? <==> Narrow(events, capacity)
    ensures r.Some? ==> Fits(Selections(events), capacity)
    ensures r.Some? ==> r.value.hits == Hits(HitsFirst, [], Selections(events), capacity)
    ensures r.Some? ==> r.value.hits + r.value.misses == Demand(Selections(events))
  {
    hide Run, Hits, Serve, Demand, Within, Without;
    var cache: seq<nat> := [];
    var hits: nat, misses: nat := 0, 0;
    NothingRun(capacity);
    ghost var all := Selections(events);
    var i := 0;
    assert all[..0] == [];
    while i < |events|
      invariant 0 <= i <= |events|
      invariant forall j :: 0 <= j < i ==> |events[j].selected| <= capacity
      invariant Fits(all[..i], capacity)
      invariant i == 0 ==> cache == []
      invariant i > 0 ==> ValidCache(cache, capacity)
      invariant cache == Run(HitsFirst, [], all[..i], capacity)
      invariant hits == Hits(HitsFirst, [], all[..i], capacity)
      invariant hits + misses == Demand(all[..i])
    {
      var event := events[i].selected;
      var ok, after, ready, blocking := ServeEvent(cache, event, capacity);
      if !ok {
        return None;
      }
      assert all[..i + 1] == all[..i] + [event];
      RunOne(HitsFirst, all[..i], event, capacity);
      FilterElems(event, cache);
      ServeValid(HitsFirst, cache, event, capacity);
      hits := hits + |ready|;
      misses := misses + |blocking|;
      cache := after;
      i := i + 1;
    }
    assert all[..i] == all;
    return Some(LruCount(hits, misses));
  }

  lemma {:induction false} NothingRun(capacity: int)
    ensures Fits([], capacity)
    ensures Run(HitsFirst, [], [], capacity) == [] && Hits(HitsFirst, [], [], capacity) == 0 && Demand([]) == 0
  {
  }

  lemma {:induction false} RunOne(p: Promotion, before: seq<seq<nat>>, event: seq<nat>, capacity: int)
    requires Fits(before, capacity) && Distinct(event) && |event| <= capacity
    ensures Fits(before + [event], capacity)
    ensures Run(p, [], before + [event], capacity)
         == Serve(p, Run(p, [], before, capacity), event, capacity)
    ensures Hits(p, [], before + [event], capacity)
         == Hits(p, [], before, capacity) + |Within(event, Run(p, [], before, capacity))|
    ensures Demand(before + [event]) == Demand(before) + |event|
  {
    hide Serve, Within, Distinct;
    assert (before + [event])[..|before|] == before;
  }

  /**
   The report's LRU: every sequence starts cold.  It fails exactly when some event demands more
   experts than the cache has slots, and otherwise hits and misses add up to the demand.
   */
  method Lru(sequences: seq<seq<RouterTraceEvent>>, capacity: int) returns (r: Option<LruCount>)
    requires forall s :: 0 <= s < |sequences| ==> ValidTrace(sequences[s])
    ensures r.Some? <==> forall s :: 0 <= s < |sequences| ==> Narrow(sequences[s], capacity)
    ensures r.Some? ==> r.value.hits == TotalHits(sequences, capacity)
    ensures r.Some? ==> r.value.hits + r.value.misses == Total(sequences)
  {
    hide TotalHits, Total, Hits, Demand, Narrow;
    var hits: nat, misses: nat := 0, 0;
    NoTotal(capacity);
    var s := 0;
    assert sequences[..0] == [];
    while s < |sequences|
      invariant 0 <= s <= |sequences|
      invariant forall t :: 0 <= t < s ==> Narrow(sequences[t], capacity)
      invariant hits == TotalHits(sequences[..s], capacity)
      invariant hits + misses == Total(sequences[..s])
    {
      var one := LruSequence(sequences[s], capacity);
      if one.None? {
        return None;
      }
      TotalSnoc(sequences[..s], sequences[s], capacity);
      assert sequences[..s + 1] == sequences[..s] + [sequences[s]];
      hits := hits + one.value.hits;
      misses := misses + one.value.misses;
      s := s + 1;
    }
    assert sequences[..s] == sequences;
    return Some(LruCount(hits, misses));
  }

  lemma {:induction false} NoTotal(capacity: int)
    ensures TotalHits([], capacity) == 0 && Total([]) == 0
  {
  }

  lemma {:induction false} TotalSnoc(before: seq<seq<RouterTraceEvent>>, events: seq<RouterTraceEvent>, capacity: int)
    requires forall s :: 0 <= s < |before| ==> ValidTrace(before[s]) && Narrow(before[s], capacity)
    requires ValidTrace(events) && Narrow(events, capacity)
    ensures Fits(Selections(events), capacity)
    ensures TotalHits(before + [events], capacity)
         == TotalHits(before, capacity) + Hits(HitsFirst, [], Selections(events), capacity)
    ensures Total(before + [events]) == Total(before) + Demand(Selections(events))
  {
    hide Hits, Demand, Narrow, ValidTrace;
    assert (before + [events])[..|before|] == before;
    SelectionsFit(events, capacity);
  }

  // ---- The policy simulator ----

  function CacheOf(caches: map<nat, seq<nat>>, layer: nat): seq<nat> {
    if layer in caches then caches[layer] else []
  }

  /** What the LRU policy must report for event `i`: its own layer's history and nothing else. */
  ghost predicate LruOutcome(events: seq<RouterTraceEvent>, capacity: nat, i: nat, o: PolicyEventOutcome)
    requires ValidTrace(events) && Narrow(events, capacity) && i < |events|
  {
    OnLayerFits(events[..i], events[i].layerId, capacity);
    var cache := Run(HitsFirst, [], OnLayer(events[..i], events[i].layerId), capacity);
    && o.event == events[i]
    && o.ready == Within(events[i].selected, cache)
    && o.blocking == Without(events[i].selected, cache)
  }

  /**
   The LRU branch.  Interleaving layers changes nothing: each outcome depends only on the earlier
   events of its own layer.
   */
  method LruOutcomes(events: seq<RouterTraceEvent>, capacity: nat) returns (outcomes: seq<PolicyEventOutcome>)
    requires ValidTrace(events) && Narrow(events, capacity)
    ensures |outcomes| == |events|
    ensures forall i :: 0 <= i < |events| ==> LruOutcome(events, capacity, i, outcomes[i])
  {
    hide Run, Serve, Within, Without, OnLayer;
    var caches: map<nat, seq<nat>> := map[];
    outcomes := [];
    var i := 0;
    NoLayers(capacity);
    while i < |events|
      invariant 0 <= i <= |events| && |outcomes| == i
      invariant forall layer: nat :: LayerState(events[..i], layer, capacity, CacheOf(caches, layer))
      invariant forall j :: 0 <= j < i ==> LruOutcome(events, capacity, j, outcomes[j])
    {
      var event := events[i];
      ghost var before := caches;
      var cache := CacheOf(caches, event.layerId);
      assert LayerState(events[..i], event.layerId, capacity, cache);
      var ok, after, ready, blocking := ServeEvent(cache, event.selected, capacity);
      outcomes := outcomes + [PolicyEventOutcome(event, ready, blocking)];
      assert LruOutcome(events, capacity, i, outcomes[i]);
      caches := caches[event.layerId := after];
      assert events[..i + 1] == events[..i] + [event];
      forall layer: nat
        ensures LayerState(events[..i + 1], layer, capacity, CacheOf(caches, layer))
      {
        assert LayerState(events[..i], layer, capacity, CacheOf(before, layer));
        LayerStep(events[..i], event, layer, capacity, CacheOf(before, layer));
      }
      i := i + 1;
    }
  }

  /** `cache` is what running one layer's own events leaves behind. */
  ghost predicate LayerState(events: seq<RouterTraceEvent>, layer: nat, capacity: nat, cache: seq<nat>) {
    && ValidCache(cache, capacity)
    && Fits(OnLayer(events, layer), capacity)
    && cache == Run(HitsFirst, [], OnLayer(events, layer), capacity)
  }

  lemma {:induction false} NoLayers(capacity: nat)
    ensures forall layer: nat :: LayerState([], layer, capacity, [])
  {
  }

  lemma {:induction false} LayerStep(before: seq<RouterTraceEvent>, event: RouterTraceEvent, layer: nat, capacity: nat,
                                     cache: seq<nat>)
    requires LayerState(before, layer, capacity, cache)
    requires ValidEvent(event) && |event.selected| <= capacity
    ensures event.layerId == layer ==>
      LayerState(before + [event], layer, capacity, Serve(HitsFirst, cache, event.selected, capacity))
    ensures event.layerId != layer ==> LayerState(before + [event], layer, capacity, cache)
  {
    hide Run, Serve, Hits;
    OnLayerSnoc(before, event, layer);
    if event.layerId == layer {
      RunOne(HitsFirst, OnLayer(before, layer), event.selected, capacity);
      ServeValid(HitsFirst, cache, event.selected, capacity);
    }
  }

  lemma {:induction false} OnLayerSnoc(before: seq<RouterTraceEvent>, event: RouterTraceEvent, layer: nat)
    ensures OnLayer(before + [event], layer)
         == if event.layerId == layer then OnLayer(before, layer) + [event.selected] else OnLayer(before, layer)
  {
    assert (before + [event])[..|before|] == before;
  }

  function ReadyCount(outcomes: seq<PolicyEventOutcome>): nat {
    if outcomes == [] then 0
    else ReadyCount(outcomes[..|outcomes| - 1]) + |outcomes[|outcomes| - 1].ready|
  }

  /** The LRU hits of several layers, each run on its own. */
  ghost function LayerHits(p: Promotion, events: seq<RouterTraceEvent>, layers: seq<nat>, capacity: nat): nat
    requires ValidTrace(events) && Narrow(events, capacity)
  {
    if layers == [] then 0
    else
      var n := |layers| - 1;
      OnLayerFits(events, layers[n], capacity);
      LayerHits(p, events, layers[..n], capacity) + Hits(p, [], OnLayer(events, layers[n]), capacity)
  }

  lemma {:induction false} LayerHitsSnoc(p: Promotion, before: seq<RouterTraceEvent>, event: RouterTraceEvent,
                                         layers: seq<nat>, capacity: nat)
    requires ValidTrace(before) && Narrow(before, capacity)
    requires ValidEvent(event) && |event.selected| <= capacity && Distinct(layers)
    ensures ValidTrace(before + [event]) && Narrow(before + [event], capacity)
    ensures Fits(OnLayer(before, event.layerId), capacity)
    ensures LayerHits(p, before + [event], layers, capacity) == LayerHits(p, before, layers, capacity)
      + if event.layerId in layers
        then |Within(event.selected, Run(p, [], OnLayer(before, event.layerId), capacity))| else 0
  {
    hide Run, Hits, Serve, Within, OnLayer;
    OnLayerFits(before, event.layerId, capacity);
    assert Narrow(before + [event], capacity);
    if layers != [] {
      var n := |layers| - 1;
      var layer := layers[n];
      LayerHitsSnoc(p, before, event, layers[..n], capacity);
      assert layers == layers[..n] + [layer];
      LastIsNew(layers[..n], layer);
      OnLayerFits(before, layer, capacity);
      OnLayerSnoc(before, event, layer);
      if event.layerId == layer {
        RunOne(p, OnLayer(before, layer), event.selected, capacity);
      }
    }
  }

  /** The simulator's LRU hits are the sum over the layers of each layer's own LRU hits. */
  lemma {:induction false} HitsSumOverLayers(events: seq<RouterTraceEvent>, outcomes: seq<PolicyEventOutcome>,
                                             layers: seq<nat>, capacity: nat)
    requires ValidTrace(events) && Narrow(events, capacity) && Distinct(layers)
    requires forall i :: 0 <= i < |events| ==> events[i].layerId in layers
    requires |outcomes| == |events|
    requires forall i :: 0 <= i < |events| ==> LruOutcome(events, capacity, i, outcomes[i])
    ensures ReadyCount(outcomes) == LayerHits(HitsFirst, events, layers, capacity)
  {
    hide Run, Hits, Within, OnLayer, Without;
    if events == [] {
      NoLayerHits(HitsFirst, layers, capacity);
    } else {
      var n := |events| - 1;
      var before := events[..n];
      forall i | 0 <= i < n
        ensures LruOutcome(before, capacity, i, outcomes[..n][i])
      {
        assert before[..i] == events[..i];
        assert LruOutcome(events, capacity, i, outcomes[i]);
      }
      HitsSumOverLayers(before, outcomes[..n], layers, capacity);
      assert LruOutcome(events, capacity, n, outcomes[n]);
      LayerHitsSnoc(HitsFirst, before, events[n], layers, capacity);
      assert events == before + [events[n]];
    }
  }

  lemma {:induction false} NoLayerHits(p: Promotion, layers: seq<nat>, capacity: nat)
    ensures LayerHits(p, [], layers, capacity) == 0
  {
    if layers != [] {
      NoLayerHits(p, layers[..|layers| - 1], capacity);
    }
  }

  // ---- The static hotset ----

  /** The demands of a trace that fall on the experts chosen for their layer. */
  ghost function StaticHits(events: seq<RouterTraceEvent>, choice: map<nat, set<nat>>): nat {
    if events == [] then 0
    else
      var n := |events| - 1;
      StaticHits(events[..n], choice) + Served(events[n].selected, Choice(choice, events[n].layerId))
  }

  ghost function Choice(choice: map<nat, set<nat>>, layer: nat): set<nat> {
    if layer in choice then choice[layer] else {}
  }

  ghost function LayerServed(events: seq<RouterTraceEvent>, layers: seq<nat>, choice: map<nat, set<nat>>): nat {
    if layers == [] then 0
    else
      var n := |layers| - 1;
      LayerServed(events, layers[..n], choice)
      + Served(Flatten(OnLayer(events, layers[n])), Choice(choice, layers[n]))
  }

  lemma {:induction false} ServedConcat(a: seq<nat>, b: seq<nat>, s: set<nat>)
    ensures Served(a + b, s) == Served(a, s) + Served(b, s)
  {
    if b == [] {
      assert a + b == a;
    } else {
      var n := |b| - 1;
      ServedConcat(a, b[..n], s);
      assert (a + b)[..|a + b| - 1] == a + b[..n];
    }
  }

  lemma {:induction false} LayerServedSnoc(before: seq<RouterTraceEvent>, event: RouterTraceEvent, layers: seq<nat>,
                                           choice: map<nat, set<nat>>)
    requires Distinct(layers)
    ensures LayerServed(before + [event], layers, choice) == LayerServed(before, layers, choice)
      + if event.layerId in layers then Served(event.selected, Choice(choice, event.layerId)) else 0
  {
    hide Served, OnLayer, Flatten;
    if layers != [] {
      var n := |layers| - 1;
      var layer := layers[n];
      assert layers == layers[..n] + [layer];
      LayerServedSnoc(before, event, layers[..n], choice);
      LastIsNew(layers[..n], layer);
      OnLayerSnoc(before, event, layer);
      if event.layerId == layer {
        FlattenSnoc(OnLayer(before, layer), event.selected);
        ServedConcat(Flatten(OnLayer(before, layer)), event.selected, Choice(choice, layer));
      }
    }
  }

  lemma {:induction false} FlattenSnoc(events: seq<seq<nat>>, event: seq<nat>)
    ensures Flatten(events + [event]) == Flatten(events) + event
  {
    assert (events + [event])[..|events|] == events;
  }

  lemma {:induction false} StaticHitsByLayer(events: seq<RouterTraceEvent>, layers: seq<nat>,
                                             choice: map<nat, set<nat>>)
    requires Distinct(layers)
    requires forall i :: 0 <= i < |events| ==> events[i].layerId in layers
    ensures StaticHits(events, choice) == LayerServed(events, layers, choice)
  {
    hide Served, LayerServed;
    if events == [] {
      NothingServed(layers, choice);
    } else {
      var n := |events| - 1;
      StaticHitsByLayer(events[..n], layers, choice);
      LayerServedSnoc(events[..n], events[n], layers, choice);
      assert events == events[..n] + [events[n]];
    }
  }

  lemma {:induction false} NothingServed(layers: seq<nat>, choice: map<nat, set<nat>>)
    ensures LayerServed([], layers, choice) == 0
  {
    if layers != [] {
      NothingServed(layers[..|layers| - 1], choice);
    }
  }

  /** The residents of one layer are the head of the ranking of its own demands. */
  ghost predicate FitOn(demands: seq<nat>, capacity: nat, residents: seq<nat>) {
    exists counts: map<nat, nat>, ranked: seq<nat> ::
      IsCounter(counts, demands) && IsRanking(counts, ranked) && residents == Residents(ranked, capacity)
  }

  ghost predicate FittedResidents(events: seq<RouterTraceEvent>, capacity: nat, residents: map<nat, seq<nat>>) {
    forall layer: nat :: FitOn(Flatten(OnLayer(events, layer)), capacity, CacheOf(residents, layer))
  }

  ghost function AsChoice(residents: map<nat, seq<nat>>): map<nat, set<nat>> {
    map layer | layer in residents :: Elems(residents[layer])
  }

  lemma {:induction false} LayerServedOptimal(events: seq<RouterTraceEvent>, layers: seq<nat>, capacity: nat,
                                              residents: map<nat, seq<nat>>, choice: map<nat, set<nat>>)
    requires FittedResidents(events, capacity, residents)
    requires forall layer :: layer in choice ==> |choice[layer]| <= capacity
    ensures LayerServed(events, layers, choice) <= LayerServed(events, layers, AsChoice(residents))
  {
    hide Served, OnLayer, Flatten, IsCounter, IsRanking, Residents;
    if layers != [] {
      var n := |layers| - 1;
      var layer := layers[n];
      LayerServedOptimal(events, layers[..n], capacity, residents, choice);
      var demands := Flatten(OnLayer(events, layer));
      assert FitOn(demands, capacity, CacheOf(residents, layer));
      var counts: map<nat, nat>, ranked: seq<nat> :| IsCounter(counts, demands) && IsRanking(counts, ranked)
                            && CacheOf(residents, layer) == Residents(ranked, capacity);
      ResidentsAreOptimal(demands, counts, ranked, capacity, Choice(choice, layer));
      assert Elems([]) == {};
      assert Choice(AsChoice(residents), layer) == Elems(CacheOf(residents, layer));
    }
  }

  /** On its fit trace no choice of at most `capacity` experts per layer beats the static hotset. */
  lemma {:induction false} StaticHotsetIsOptimal(events: seq<RouterTraceEvent>, layers: seq<nat>, capacity: nat,
                                                 residents: map<nat, seq<nat>>, choice: map<nat, set<nat>>)
    requires FittedResidents(events, capacity, residents) && Distinct(layers)
    requires forall i :: 0 <= i < |events| ==> events[i].layerId in layers
    requires forall layer :: layer in choice ==> |choice[layer]| <= capacity
    ensures StaticHits(events, choice) <= StaticHits(events, AsChoice(residents))
  {
    StaticHitsByLayer(events, layers, choice);
    StaticHitsByLayer(events, layers, AsChoice(residents));
    LayerServedOptimal(events, layers, capacity, residents, choice);
  }

  lemma {:induction false} FittedIsSmall(events: seq<RouterTraceEvent>, capacity: nat, residents: map<nat, seq<nat>>)
    requires FittedResidents(events, capacity, residents)
    ensures forall layer :: layer in AsChoice(residents) ==> |AsChoice(residents)[layer]| <= capacity
  {
    hide Flatten, OnLayer, IsCounter, IsRanking, Elems;
    forall layer | layer in AsChoice(residents)
      ensures |AsChoice(residents)[layer]| <= capacity
    {
      assert FitOn(Flatten(OnLayer(events, layer)), capacity, CacheOf(residents, layer));
      CardAtMost(residents[layer]);
    }
  }

  /** On a whole trace of mixed layers, a hotset with more slots never serves fewer demands. */
  lemma {:induction false} MoreSlotsNeverServeLess(events: seq<RouterTraceEvent>, layers: seq<nat>, small: nat,
                                                   large: nat, fewer: map<nat, seq<nat>>, more: map<nat, seq<nat>>)
    requires FittedResidents(events, small, fewer) && FittedResidents(events, large, more) && small <= large
    requires Distinct(layers)
    requires forall i :: 0 <= i < |events| ==> events[i].layerId in layers
    ensures StaticHits(events, AsChoice(fewer)) <= StaticHits(events, AsChoice(more))
  {
    hide FittedResidents, StaticHits, AsChoice;
    FittedIsSmall(events, small, fewer);
    StaticHotsetIsOptimal(events, layers, large, more, AsChoice(fewer));
  }

  /** Counting every layer's demands in one pass over the trace. */
  method CountLayers(events: seq<RouterTraceEvent>) returns (counts: map<nat, map<nat, nat>>)
    ensures forall layer: nat ::
      IsCounter(if layer in counts then counts[layer] else map[], Flatten(OnLayer(events, layer)))
  {
    hide OnLayer, Flatten, IsCounter;
    counts := map[];
    NothingCounted();
    var i := 0;
    assert events[..0] == [];
    while i < |events|
      invariant 0 <= i <= |events|
      invariant forall layer: nat ::
        IsCounter(if layer in counts then counts[layer] else map[], Flatten(OnLayer(events[..i], layer)))
    {
      var event := events[i];
      ghost var before := counts;
      var old' := if event.layerId in counts then counts[event.layerId] else map[];
      var updated := CountInto(old', Flatten(OnLayer(events[..i], event.layerId)), event.selected);
      counts := counts[event.layerId := updated];
      assert events[..i + 1] == events[..i] + [event];
      forall layer: nat
        ensures IsCounter(if layer in counts then counts[layer] else map[], Flatten(OnLayer(events[..i + 1], layer)))
      {
        OnLayerSnoc(events[..i], event, layer);
        FlattenSnoc(OnLayer(events[..i], layer), event.selected);
        assert IsCounter(if layer in before then before[layer] else map[], Flatten(OnLayer(events[..i], layer)));
      }
      i := i + 1;
    }
    assert events[..i] == events;
  }

  lemma {:induction false} NothingCounted()
    ensures forall layer: nat :: IsCounter(map[], Flatten(OnLayer([], layer)))
  {
  }

  /** The residents of every layer of the trace. */
  method StaticResidents(events: seq<RouterTraceEvent>, capacity: nat) returns (residents: map<nat, seq<nat>>)
    ensures FittedResidents(events, capacity, residents)
  {
    hide OnLayer, Flatten, IsCounter, IsRanking;
    var counts := CountLayers(events);
    residents := map[];
    var rest := counts.Keys;
    while rest != {}
      invariant rest <= counts.Keys
      invariant forall layer :: layer in residents <==> layer in counts && layer !in rest
      invariant forall layer :: layer in residents ==>
        FitOn(Flatten(OnLayer(events, layer)), capacity, residents[layer])
      decreases |rest|
    {
      var layer :| layer in rest;
      var ranked := Rank(counts[layer]);
      var demands := Flatten(OnLayer(events, layer));
      assert IsCounter(if layer in counts then counts[layer] else map[], demands);
      residents := residents[layer := Residents(ranked, capacity)];
      assert FitOn(demands, capacity, Residents(ranked, capacity)) by {
        assert IsCounter(counts[layer], demands) && IsRanking(counts[layer], ranked);
      }
      rest := rest - {layer};
    }
    forall layer: nat
      ensures FitOn(Flatten(OnLayer(events, layer)), capacity, CacheOf(residents, layer))
    {
      if layer !in residents {
        assert layer !in counts;
        NotCounted(events, counts, layer);
        EmptyRanking(capacity);
        assert IsCounter(map[], Flatten(OnLayer(events, layer))) && IsRanking(map[], []);
      }
    }
  }

  lemma {:induction false} NotCounted(events: seq<RouterTraceEvent>, counts: map<nat, map<nat, nat>>, layer: nat)
    requires forall l: nat :: IsCounter(if l in counts then counts[l] else map[], Flatten(OnLayer(events, l)))
    requires layer !in counts
    ensures IsCounter(map[], Flatten(OnLayer(events, layer)))
  {
    hide IsCounter, Flatten, OnLayer;
  }

  lemma {:induction false} EmptyRanking(capacity: nat)
    ensures IsRanking(map[], []) && Residents([], capacity) == []
  {
  }

  lemma {:induction false} WithinServed(event: seq<nat>, residents: seq<nat>)
    ensures |Within(event, residents)| == Served(event, Elems(residents))
  {
    if event != [] {
      WithinServed(event[..|event| - 1], residents);
    }
  }

  ghost predicate StaticOutcome(event: RouterTraceEvent, residents: map<nat, seq<nat>>, o: PolicyEventOutcome) {
    && o.event == event
    && o.ready == Within(event.selected, CacheOf(residents, event.layerId))
    && o.blocking == Without(event.selected, CacheOf(residents, event.layerId))
  }

  method StaticOutcomes(events: seq<RouterTraceEvent>, residents: map<nat, seq<nat>>)
    returns (outcomes: seq<PolicyEventOutcome>)
    ensures |outcomes| == |events|
    ensures forall i :: 0 <= i < |events| ==> StaticOutcome(events[i], residents, outcomes[i])
    ensures ReadyCount(outcomes) == StaticHits(events, AsChoice(residents))
  {
    hide Within, Without, Served;
    outcomes := [];
    var i := 0;
    while i < |events|
      invariant 0 <= i <= |events| && |outcomes| == i
      invariant forall j :: 0 <= j < i ==> StaticOutcome(events[j], residents, outcomes[j])
      invariant ReadyCount(outcomes) == StaticHits(events[..i], AsChoice(residents))
    {
      var r := CacheOf(residents, events[i].layerId);
      var one := PolicyEventOutcome(events[i], Within(events[i].selected, r), Without(events[i].selected, r));
      WithinServed(events[i].selected, r);
      assert Elems([]) == {};
      assert events[..i + 1][..i] == events[..i];
      assert (outcomes + [one])[..i] == outcomes;
      outcomes := outcomes + [one];
      i := i + 1;
    }
    assert events[..i] == events;
  }

  function PreloadCount(residents: map<nat, seq<nat>>, layers: seq<nat>): nat {
    if layers == [] then 0
    else PreloadCount(residents, layers[..|layers| - 1]) + |CacheOf(residents, layers[|layers| - 1])|
  }

  /** What preloading costs: every layer's distinct experts, up to its slots. */
  ghost function Preloads(events: seq<RouterTraceEvent>, layers: seq<nat>, capacity: nat): nat {
    if layers == [] then 0
    else
      var n := |layers| - 1;
      Preloads(events, layers[..n], capacity) + Min(capacity, |Elems(Flatten(OnLayer(events, layers[n])))|)
  }

  lemma {:induction false} PreloadsExactly(events: seq<RouterTraceEvent>, layers: seq<nat>, capacity: nat,
                                           residents: map<nat, seq<nat>>)
    requires FittedResidents(events, capacity, residents)
    ensures PreloadCount(residents, layers) == Preloads(events, layers, capacity)
  {
    hide Flatten, OnLayer, Elems;
    if layers != [] {
      var n := |layers| - 1;
      var layer := layers[n];
      PreloadsExactly(events, layers[..n], capacity, residents);
      assert FitOn(Flatten(OnLayer(events, layer)), capacity, CacheOf(residents, layer));
      FittedSize(Flatten(OnLayer(events, layer)), capacity, CacheOf(residents, layer));
    }
  }

  lemma {:induction false} FittedSize(demands: seq<nat>, capacity: nat, residents: seq<nat>)
    requires FitOn(demands, capacity, residents)
    ensures |residents| == Min(capacity, |Elems(demands)|)
  {
    var counts: map<nat, nat>, ranked: seq<nat> :| IsCounter(counts, demands) && IsRanking(counts, ranked)
      && residents == Residents(ranked, capacity);
    assert forall x :: x in Elems(ranked) <==> x in Elems(demands);
    assert Elems(ranked) == Elems(demands);
    DistinctCard(ranked);
  }

  function Result(demand: nat, hits: nat, loads: nat, preloads: nat): PolicyResult
    requires hits <= demand
  {
    PolicyResult(demand, hits, demand - hits, loads, preloads)
  }

  /**
   The comparison of the three policies.  It is refused exactly when there is no slot or an event is
   wider than the cache; otherwise the LRU column is the sum of the layers' own runs, its loads are
   its misses, and the static column is the best that a fixed choice of residents can do, and is done
   by one; it preloads each layer's distinct experts up to its slots.
   */
  method SimulatePolicies(events: seq<RouterTraceEvent>, capacity: int, layers: seq<nat>)
    returns (report: Option<CacheSimulationReport>)
    requires ValidTrace(events) && Distinct(layers)
    requires forall i :: 0 <= i < |events| ==> events[i].layerId in layers
    ensures report.Some? <==> capacity > 0 && Narrow(events, capacity)
    ensures report.Some? ==>
      report.value.reactive == Result(Demand(Selections(events)), 0, Demand(Selections(events)), 0)
    ensures report.Some? ==> report.value.lru.hits == LayerHits(HitsFirst, events, layers, capacity)
    ensures report.Some? ==> report.value.lru.demand == report.value.staticHotset.demand == Demand(Selections(events))
    ensures report.Some? ==> forall r :: r in [report.value.lru, report.value.staticHotset] ==>
      r.hits + r.misses == r.demand && r.loads == r.misses
    ensures report.Some? ==> forall choice: map<nat, set<nat>> ::
      (forall layer :: layer in choice ==> |choice[layer]| <= capacity)
      ==> StaticHits(events, choice) <= report.value.staticHotset.hits
    ensures report.Some? ==> exists choice: map<nat, set<nat>> ::
      (forall layer :: layer in choice ==> |choice[layer]| <= capacity)
      && StaticHits(events, choice) == report.value.staticHotset.hits
    ensures report.Some? ==>
      report.value.staticHotset.preloads == Preloads(events, layers, capacity) && report.value.lru.preloads == 0
  {
    hide LayerHits, OnLayer, StaticHits, Run, ReadyCount, FittedResidents, Demand, Within, Without, Preloads,
      PreloadCount, AsChoice;
    if capacity <= 0 || !Narrow(events, capacity) {
      return None;
    }
    var demand := Demand(Selections(events));
    var residents := StaticResidents(events, capacity);
    var static' := StaticOutcomes(events, residents);
    var staticHits := ReadyCount(static');
    var preloads := PreloadCount(residents, layers);
    var lru := LruOutcomes(events, capacity);
    var lruHits, lruLoads := ReadyCount(lru), BlockingCount(lru);
    HitsSumOverLayers(events, lru, layers, capacity);
    LruSplits(events, lru, capacity);
    OutcomesAddUp(events, lru);
    StaticSplits(events, static', residents);
    OutcomesAddUp(events, static');
    FittedIsSmall(events, capacity, residents);
    assert StaticHits(events, AsChoice(residents)) == staticHits;
    PreloadsExactly(events, layers, capacity, residents);
    forall choice: map<nat, set<nat>> | forall layer :: layer in choice ==> |choice[layer]| <= capacity
      ensures StaticHits(events, choice) <= staticHits
    {
      StaticHotsetIsOptimal(events, layers, capacity, residents, choice);
    }
    return Some(CacheSimulationReport(
      Result(demand, 0, demand, 0),
      Result(demand, staticHits, demand - staticHits, preloads),
      Result(demand, lruHits, lruLoads, 0)));
  }

  function BlockingCount(outcomes: seq<PolicyEventOutcome>): nat {
    if outcomes == [] then 0
    else BlockingCount(outcomes[..|outcomes| - 1]) + |outcomes[|outcomes| - 1].blocking|
  }

  /** Every demand of an event is either ready or blocking. */
  ghost predicate Splits(event: RouterTraceEvent, o: PolicyEventOutcome) {
    |o.ready| + |o.blocking| == |event.selected|
  }

  lemma {:induction false} LruSplits(events: seq<RouterTraceEvent>, outcomes: seq<PolicyEventOutcome>, capacity: nat)
    requires ValidTrace(events) && Narrow(events, capacity) && |outcomes| == |events|
    requires forall i :: 0 <= i < |events| ==> LruOutcome(events, capacity, i, outcomes[i])
    ensures forall i :: 0 <= i < |events| ==> Splits(events[i], outcomes[i])
  {
    hide Run, Within, OnLayer, Without;
    forall i | 0 <= i < |events|
      ensures Splits(events[i], outcomes[i])
    {
      assert LruOutcome(events, capacity, i, outcomes[i]);
      OnLayerFits(events[..i], events[i].layerId, capacity);
      FilterElems(events[i].selected, Run(HitsFirst, [], OnLayer(events[..i], events[i].layerId), capacity));
    }
  }

  lemma {:induction false} StaticSplits(events: seq<RouterTraceEvent>, outcomes: seq<PolicyEventOutcome>,
                                        residents: map<nat, seq<nat>>)
    requires |outcomes| == |events|
    requires forall i :: 0 <= i < |events| ==> StaticOutcome(events[i], residents, outcomes[i])
    ensures forall i :: 0 <= i < |events| ==> Splits(events[i], outcomes[i])
  {
    hide Within, Without;
    forall i | 0 <= i < |events|
      ensures Splits(events[i], outcomes[i])
    {
      FilterElems(events[i].selected, CacheOf(residents, events[i].layerId));
    }
  }

  lemma {:induction false} OutcomesAddUp(events: seq<RouterTraceEvent>, outcomes: seq<PolicyEventOutcome>)
    requires |outcomes| == |events|
    requires forall i :: 0 <= i < |events| ==> Splits(events[i], outcomes[i])
    ensures ReadyCount(outcomes) + BlockingCount(outcomes) == Demand(Selections(events))
  {
    if events != [] {
      var n := |events| - 1;
      OutcomesAddUp(events[..n], outcomes[..n]);
      assert Splits(events[n], outcomes[n]);
      assert Selections(events)[..n] == Selections(events[..n]);
    }
  }
}
