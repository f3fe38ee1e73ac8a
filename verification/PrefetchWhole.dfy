/** What the guarantees of single steps add up to over whole simulations. */
module PrefetchWhole {
  import opened Trace
  import opened LruEngine
  import opened LruScanOrder
  import opened CacheSim
  import opened Prefetch
  import opened PrefetchOracle
  import opened PrefetchReady
  import opened PrefetchSim
  import opened PrefetchGroups
  import opened PrefetchRun

  // ---- The oracle without waste ----

  lemma {:induction false} GroupOnePerLayer(trace: seq<RouterTraceEvent>, groups: seq<seq<RouterTraceEvent>>, g: nat)
    requires Grouped(trace, groups) && OncePerPass(trace) && g < |groups|
    ensures OnePerLayer(groups[g])
  {
    hide OfForward, Ordered, SameTies, InOrderOfAppearance;
    var ids :| Grouping(trace, ids, groups);
    PassOnePerLayer(trace, ids[g]);
    OnePerLayerOfMultiset(groups[g], OfForward(trace, ids[g]));
  }

  lemma {:induction false} StepDemandConcat(a: seq<RouterTraceEvent>, b: seq<RouterTraceEvent>, layer: nat)
    ensures StepDemand(a + b, layer) == StepDemand(a, layer) + StepDemand(b, layer)
  {
    hide StepDemand;
    if b == [] {
      NoStepDemand();
      assert a + b == a;
    } else {
      var n := |b| - 1;
      StepDemandConcat(a, b[..n], layer);
      assert a + b == (a + b[..n]) + [b[n]] && b == b[..n] + [b[n]];
      StepDemandSnoc(a + b[..n], b[n], layer);
      StepDemandSnoc(b[..n], b[n], layer);
    }
  }

  /** Conversations that never observe a layer twice in a pass ask a layer for at most their own width each. */
  lemma {:induction false} StepDemandBound(traces: seq<seq<RouterTraceEvent>>,
                                           grouped: seq<seq<seq<RouterTraceEvent>>>, width: nat, capacity: nat,
                                           index: nat, layer: nat)
    requires Regrouped(traces, grouped, capacity)
    requires forall c :: 0 <= c < |traces| ==>
      OncePerPass(traces[c]) && ValidTrace(traces[c]) && Narrow(traces[c], width)
    ensures |StepDemand(StepEvents(grouped, index), layer)| <= |traces| * width
  {
    hide StepDemand, GroupedSize, StepSize, Grouped, ValidTrace, Narrow, OncePerPass;
    if grouped == [] {
      NoStepDemand();
    } else {
      var k := |grouped| - 1;
      assert Regrouped(traces[..k], grouped[..k], capacity);
      StepDemandBound(traces[..k], grouped[..k], width, capacity, index, layer);
      assert (|traces| - 1) * width + width == |traces| * width;
      if index < |grouped[k]| {
        var group := grouped[k][index];
        assert Grouped(traces[k], grouped[k]);
        GroupOnePerLayer(traces[k], grouped[k], index);
        GroupNarrow(traces[k], grouped[k], width, index);
        OnePerLayerDemand(group, layer, width);
        StepDemandConcat(StepEvents(grouped[..k], index), group, layer);
      } else {
        assert StepEvents(grouped[..k], index) + [] == StepEvents(grouped[..k], index);
      }
    }
  }

  lemma {:induction false} GroupNarrow(trace: seq<RouterTraceEvent>, groups: seq<seq<RouterTraceEvent>>, width: nat,
                                       g: nat)
    requires Grouped(trace, groups) && ValidTrace(trace) && Narrow(trace, width) && g < |groups|
    ensures Narrow(groups[g], width)
  {
    hide Grouping;
    var ids :| Grouping(trace, ids, groups);
    GroupsAreValid(trace, ids, groups, width);
  }

  /** With slots for every conversation's own experts, every step fits. */
  lemma {:induction false} EnoughSlotsFit(traces: seq<seq<RouterTraceEvent>>, grouped: seq<seq<seq<RouterTraceEvent>>>,
                                          width: nat, capacity: nat, index: nat)
    requires Regrouped(traces, grouped, capacity) && |traces| * width <= capacity
    requires forall c :: 0 <= c < |traces| ==>
      OncePerPass(traces[c]) && ValidTrace(traces[c]) && Narrow(traces[c], width)
    ensures StepFits(StepEvents(grouped, index), capacity)
  {
    hide StepDemand, Regrouped, StepEvents, ValidTrace, Narrow, OncePerPass;
    forall layer: nat
      ensures |Elems(StepDemand(StepEvents(grouped, index), layer))| <= capacity
    {
      StepDemandBound(traces, grouped, width, capacity, index, layer);
      CardAtMost(StepDemand(StepEvents(grouped, index), layer));
    }
  }

  lemma {:induction false} WasteAdds(steps: seq<StepOutcome>)
    requires forall s :: 0 <= s < |steps| ==> steps[s].wasted == 0
    ensures Totals(steps).wasted == 0
  {
    if steps != [] {
      WasteAdds(steps[..|steps| - 1]);
    }
  }

  lemma {:induction false} MissesAdd(steps: seq<StepOutcome>)
    requires forall s :: 0 <= s < |steps| ==> steps[s].misses == steps[s].candidates - steps[s].issued
    ensures Totals(steps).misses == Totals(steps).candidates - Totals(steps).issued
  {
    if steps != [] {
      MissesAdd(steps[..|steps| - 1]);
    }
  }

  /** With that many slots the oracle wastes nothing over the whole simulation, for any number of conversations. */
  lemma {:induction false} EnoughSlotsWasteNothing(traces: seq<seq<RouterTraceEvent>>,
                                                   grouped: seq<seq<seq<RouterTraceEvent>>>, width: nat, capacity: nat,
                                                   max: nat, steps: seq<StepOutcome>)
    requires Regrouped(traces, grouped, capacity) && |traces| * width <= capacity
    requires forall c :: 0 <= c < |traces| ==>
      OncePerPass(traces[c]) && ValidTrace(traces[c]) && Narrow(traces[c], width)
    requires forall s :: 0 <= s < |steps| ==> StepFacts(Oracle, StepEvents(grouped, s), capacity, max, steps[s])
    ensures Totals(steps).wasted == 0
    ensures forall s :: 0 <= s < |steps| ==> steps[s].issued == Min(max, steps[s].candidates) && steps[s].wasted == 0
  {
    hide Regrouped, StepEvents, StepFits, Totals, ValidTrace, Narrow, OncePerPass, OnePerLayer;
    forall s | 0 <= s < |steps|
      ensures steps[s].issued == Min(max, steps[s].candidates) && steps[s].wasted == 0
    {
      EnoughSlotsFit(traces, grouped, width, capacity, s);
      assert StepFacts(Oracle, StepEvents(grouped, s), capacity, max, steps[s]);
    }
    WasteAdds(steps);
  }

  lemma {:induction false} SoloStep(groups: seq<seq<RouterTraceEvent>>, index: nat)
    ensures StepEvents([groups], index) == if index < |groups| then groups[index] else []
  {
    assert [] + [groups] == [groups];
    StepEventsSnoc([], groups, index);
  }

  /**
   One conversation that never observes a layer twice in a pass: at every step the oracle issues
   min(budget, candidates), wastes none and misses exactly the rest, and so over the whole simulation.
   */
  lemma {:induction false} SoloOracleIsExact(traces: seq<seq<RouterTraceEvent>>,
                                             grouped: seq<seq<seq<RouterTraceEvent>>>, capacity: nat, max: nat,
                                             steps: seq<StepOutcome>)
    requires Regrouped(traces, grouped, capacity) && |traces| == 1 && OncePerPass(traces[0])
    requires forall s :: 0 <= s < |steps| ==> StepFacts(Oracle, StepEvents(grouped, s), capacity, max, steps[s])
    ensures forall s :: 0 <= s < |steps| ==>
      steps[s].issued == Min(max, steps[s].candidates) && steps[s].wasted == 0
        && steps[s].misses == steps[s].candidates - steps[s].issued
    ensures Totals(steps).wasted == 0 && Totals(steps).misses == Totals(steps).candidates - Totals(steps).issued
  {
    hide StepEvents, StepFits, Totals, ValidTrace, Narrow, OncePerPass, Grouped, GroupedSize, StepSize;
    assert Grouped(traces[0], grouped[0]);
    assert grouped == [grouped[0]];
    forall s | 0 <= s < |steps|
      ensures steps[s].issued == Min(max, steps[s].candidates) && steps[s].wasted == 0
        && steps[s].misses == steps[s].candidates - steps[s].issued
    {
      SoloStep(grouped[0], s);
      if s < |grouped[0]| {
        GroupOnePerLayer(traces[0], grouped[0], s);
      }
      assert OnePerLayer(StepEvents(grouped, s));
      assert StepFacts(Oracle, StepEvents(grouped, s), capacity, max, steps[s]);
    }
    WasteAdds(steps);
    MissesAdd(steps);
  }

  // ---- No prediction ----

  lemma {:induction false} ConsumeConcat(caches: map<nat, seq<nat>>, a: seq<RouterTraceEvent>,
                                         b: seq<RouterTraceEvent>, capacity: nat)
    requires Narrow(a, capacity) && Narrow(b, capacity)
    ensures Narrow(a + b, capacity)
    ensures var first := Consume(caches, {}, a, capacity);
            var second := Consume(first.caches, {}, b, capacity);
            Consume(caches, {}, a + b, capacity) == Consumption(second.caches, first.hits + second.hits, {})
  {
    hide Serve, Within, Consume;
    NothingReady(caches, a, capacity);
    if b == [] {
      assert a + b == a;
      NothingConsumed(Consume(caches, {}, a, capacity).caches, {}, capacity);
    } else {
      var n := |b| - 1;
      assert a + b == (a + b[..n]) + [b[n]] && b == b[..n] + [b[n]];
      ConsumeConcat(caches, a, b[..n], capacity);
      ConsumeSnoc(caches, {}, a + b[..n], b[n], capacity);
      ConsumeSnoc(Consume(caches, {}, a, capacity).caches, {}, b[..n], b[n], capacity);
    }
  }

  lemma {:induction false} NothingReady(caches: map<nat, seq<nat>>, step: seq<RouterTraceEvent>, capacity: nat)
    requires Narrow(step, capacity)
    ensures Consume(caches, {}, step, capacity).ready == {}
  {
    hide Serve, Within;
    if step != [] {
      NothingReady(caches, step[..|step| - 1], capacity);
    }
  }

  /** Serving any events from cold caches hits as often as the scan-order caches of their layers, each on its own. */
  lemma {:induction false} ConsumedHits(events: seq<RouterTraceEvent>, layers: seq<nat>, capacity: nat)
    requires ValidTrace(events) && Narrow(events, capacity) && Distinct(layers)
    requires forall i :: 0 <= i < |events| ==> events[i].layerId in layers
    ensures Consume(map[], {}, events, capacity).hits == LayerHits(EventOrder, events, layers, capacity)
  {
    hide Consume, Run, Hits, OnLayer, Within, Serve, LayerHits, Distinct;
    if events == [] {
      NothingConsumed(map[], {}, capacity);
      NoLayerHits(EventOrder, layers, capacity);
    } else {
      var n := |events| - 1;
      var part, event := events[..n], events[n];
      assert events == part + [event];
      ConsumedHits(part, layers, capacity);
      ConsumeSnoc(map[], {}, part, event, capacity);
      LayerHitsSnoc(EventOrder, part, event, layers, capacity);
      ConsumeIsScanOrder(map[], {}, part, capacity, event.layerId);
    }
  }

  /** The first n steps without prediction are one service of all their events. */
  lemma {:induction false} UnpredictedRun(traces: seq<seq<RouterTraceEvent>>, grouped: seq<seq<seq<RouterTraceEvent>>>,
                                          capacity: nat, max: nat, states: seq<map<nat, seq<nat>>>,
                                          steps: seq<StepOutcome>, n: nat)
    requires Regrouped(traces, grouped, capacity) && Simulated(NoPrediction, grouped, capacity, max, states, steps)
    requires n <= |steps|
    ensures ValidTrace(History(grouped, n)) && Narrow(History(grouped, n), capacity) && ValidCaches(states[n], capacity)
    ensures Consume(map[], {}, History(grouped, n), capacity) == Consumption(states[n], Totals(steps[..n]).hits, {})
  {
    hide Consume, Stepped, StepLaw, StepFacts, StepEvents, Regrouped, Longest, ValidTrace, Narrow, ValidCaches;
    if n == 0 {
      RunStart(grouped, capacity);
      NothingConsumed(map[], {}, capacity);
      NothingValid(capacity);
    } else {
      UnpredictedRun(traces, grouped, capacity, max, states, steps, n - 1);
      var step := StepEvents(grouped, n - 1);
      assert StepAt(NoPrediction, grouped, capacity, max, states, steps, n - 1);
      StepIsValid(traces, grouped, capacity, n - 1);
      SteppedFacts(NoPrediction, states[n - 1], History(grouped, n - 1), step, capacity, max, states[n], steps[n - 1]);
      ConsumeConcat(map[], History(grouped, n - 1), step, capacity);
      BothValid(History(grouped, n - 1), step);
      assert steps[..n] == steps[..n - 1] + [steps[n - 1]];
      TotalsSnoc(steps[..n - 1], steps[n - 1]);
    }
  }

  lemma {:induction false} NothingValid(capacity: nat)
    ensures ValidTrace([]) && Narrow([], capacity)
  {
  }

  lemma {:induction false} BothValid(a: seq<RouterTraceEvent>, b: seq<RouterTraceEvent>)
    requires ValidTrace(a) && ValidTrace(b)
    ensures ValidTrace(a + b)
  {
  }

  /**
   A whole simulation without prediction hits exactly as often as its layers' scan-order caches do, each
   run on its own over the interleaved demands.
   */
  lemma {:induction false} UnpredictedHits(traces: seq<seq<RouterTraceEvent>>,
                                           grouped: seq<seq<seq<RouterTraceEvent>>>, capacity: nat, max: nat,
                                           states: seq<map<nat, seq<nat>>>, steps: seq<StepOutcome>, layers: seq<nat>)
    requires Regrouped(traces, grouped, capacity) && Simulated(NoPrediction, grouped, capacity, max, states, steps)
    requires Distinct(layers) && forall e :: e in History(grouped, |steps|) ==> e.layerId in layers
    ensures ValidTrace(History(grouped, |steps|)) && Narrow(History(grouped, |steps|), capacity)
    ensures Totals(steps).hits == LayerHits(EventOrder, History(grouped, |steps|), layers, capacity)
  {
    hide Consume, Regrouped, History, Totals, LayerHits, Simulated, ValidTrace, Narrow, Distinct;
    SimulatedSize(grouped, capacity, max, states, steps);
    UnpredictedRun(traces, grouped, capacity, max, states, steps, |steps|);
    assert steps[..|steps|] == steps;
    var all := History(grouped, |steps|);
    forall i | 0 <= i < |all|
      ensures all[i].layerId in layers
    {
      var e := all[i];
      assert e in all;
    }
    ConsumedHits(all, layers, capacity);
  }

  lemma {:induction false} SimulatedSize(grouped: seq<seq<seq<RouterTraceEvent>>>, capacity: nat, max: nat,
                                         states: seq<map<nat, seq<nat>>>, steps: seq<StepOutcome>)
    requires Simulated(NoPrediction, grouped, capacity, max, states, steps)
    ensures |states| == |steps| + 1
  {
  }

  lemma {:induction false} LayerHitsGrow(events: seq<RouterTraceEvent>, layers: seq<nat>, small: nat, large: nat)
    requires ValidTrace(events) && Narrow(events, small) && small <= large
    ensures Narrow(events, large)
      && LayerHits(EventOrder, events, layers, small) <= LayerHits(EventOrder, events, layers, large)
  {
    hide Hits, OnLayer;
    if layers != [] {
      var n := |layers| - 1;
      LayerHitsGrow(events, layers[..n], small, large);
      OnLayerFits(events, layers[n], small);
      OnLayerFits(events, layers[n], large);
      ScanOrderNeverHitsLess(OnLayer(events, layers[n]), small, large);
    }
  }

  /** So without prediction more slots never cost a hit, whatever the number of experts per event. */
  lemma {:induction false} UnpredictedMoreSlots(traces: seq<seq<RouterTraceEvent>>,
                                                grouped: seq<seq<seq<RouterTraceEvent>>>, small: nat, large: nat,
                                                max: nat, few: seq<map<nat, seq<nat>>>, fewSteps: seq<StepOutcome>,
                                                many: seq<map<nat, seq<nat>>>, manySteps: seq<StepOutcome>,
                                                layers: seq<nat>)
    requires Regrouped(traces, grouped, small) && Regrouped(traces, grouped, large) && small <= large
    requires Simulated(NoPrediction, grouped, small, max, few, fewSteps)
    requires Simulated(NoPrediction, grouped, large, max, many, manySteps)
    requires Distinct(layers) && forall e :: e in History(grouped, Longest(grouped)) ==> e.layerId in layers
    ensures Totals(fewSteps).hits <= Totals(manySteps).hits
  {
    hide Regrouped, History, Totals, LayerHits, ValidTrace, Narrow, Distinct, StepAt;
    UnpredictedHits(traces, grouped, small, max, few, fewSteps, layers);
    UnpredictedHits(traces, grouped, large, max, many, manySteps, layers);
    LayerHitsGrow(History(grouped, Longest(grouped)), layers, small, large);
  }

  // ---- A run of the oracle that wastes ----

  lemma {:induction false} OneGroup(e: RouterTraceEvent, groups: seq<seq<RouterTraceEvent>>)
    requires Grouped([e], groups)
    ensures groups == [[e]]
  {
    hide Ordered, SameTies;
    var ids :| Grouping([e], ids, groups);
    assert [e][0].forwardId in ids;
    forall g | 0 <= g < |ids|
      ensures ids[g] == e.forwardId
    {
      assert FirstAt([e], ids[g]) == 0;
    }
    assert Elems(ids) == {e.forwardId};
    DistinctCard(ids);
    assert IsSorted(groups[0], OfForward([e], ids[0]));
    assert OfForward([e], ids[0]) == [e] by {
      assert [e][..0] == [];
    }
    SingleMultiset(groups[0], e);
  }

  lemma {:induction false} SingleMultiset(s: seq<RouterTraceEvent>, e: RouterTraceEvent)
    requires multiset(s) == multiset([e])
    ensures s == [e]
  {
    assert |s| == |multiset(s)| == 1;
    assert s[0] in multiset(s);
  }

  /** Their list is the one the oracle proposes from empty caches. */
  lemma {:induction false} TheirProposal(scored: seq<Candidate>)
    requires Proposed(Oracle, map[], [], TwoConversations(), scored)
    ensures scored == TheirCandidates()
  {
    hide StepDemand, TwoConversations, Offers, Consume, Narrow, ValidTrace, StepFits, OracleScored;
    TheirDemand(0);
    OracleCanWaste();
    var count := map[Candidate(0, 0) := 1, Candidate(0, 1) := 1, Candidate(0, 2) := 1];
    var chosen := {Candidate(0, 0), Candidate(0, 1), Candidate(0, 2)};
    assert InOrder(count, chosen, TheirCandidates());
    assert PrefetchRun.Counts(count, TwoConversations());
    assert ByDemand(TwoConversations(), TheirCandidates());
    ProposedUnique(Oracle, map[], [], TwoConversations(), scored, TheirCandidates());
  }

  /** Whatever simulates the two conversations with the oracle reports that its only transfer is wasted. */
  lemma {:induction false} OracleRunCanWaste(grouped: seq<seq<seq<RouterTraceEvent>>>, states: seq<map<nat, seq<nat>>>,
                                             steps: seq<StepOutcome>)
    requires Regrouped([[Event(0, [1, 2])], [Event(0, [0])]], grouped, 2)
    requires Simulated(Oracle, grouped, 2, 1, states, steps)
    ensures |steps| == 1 && steps[0] == StepOutcome(3, 0, 3, 1, 3, 0, 1)
  {
    hide Proposed, Outcome, Grouped, Regrouped, TwoConversations;
    TheirGroups(grouped);
    var o, step := steps[0], TwoConversations();
    assert StepAt(Oracle, grouped, 2, 1, states, steps, 0);
    var scored :| Proposed(Oracle, map[], [], step, scored) && Outcome(map[], scored, step, 2, 1, states[1], o);
    TheirProposal(scored);
    TheirOutcome(states[1], o);
  }

  lemma {:induction false} TheirGroups(grouped: seq<seq<seq<RouterTraceEvent>>>)
    requires Regrouped([[Event(0, [1, 2])], [Event(0, [0])]], grouped, 2)
    ensures Longest(grouped) == 1 && StepEvents(grouped, 0) == TwoConversations()
  {
    hide Grouped;
    var a, b := Event(0, [1, 2]), Event(0, [0]);
    assert Grouped([[a], [b]][0], grouped[0]) && Grouped([[a], [b]][1], grouped[1]);
    OneGroup(a, grouped[0]);
    OneGroup(b, grouped[1]);
    var one := grouped[..1];
    assert one[..0] == [] && one[0] == [[a]] && grouped[1] == [[b]];
    assert Longest(one) == 1 && StepEvents(one, 0) == [] + [a];
    assert ([] + [a]) + [b] == [a, b];
  }

  lemma {:induction false} TheirOutcome(after: map<nat, seq<nat>>, o: StepOutcome)
    requires Narrow(TwoConversations(), 2) && Outcome(map[], TheirCandidates(), TwoConversations(), 2, 1, after, o)
    ensures o == StepOutcome(3, 0, 3, 1, 3, 0, 1)
  {
    hide Offers, Consume, TwoConversations, TheirCandidates, StepSize;
    OracleCanWaste();
    TheirSize();
  }

  lemma {:induction false} TheirSize()
    ensures StepSize(TwoConversations()) == 3 && |TheirCandidates()| == 3
  {
    var step := TwoConversations();
    assert step[..1] == [Event(0, [1, 2])] && step[..1][..0] == [];
    assert StepSize(step[..1]) == 2;
  }
}
