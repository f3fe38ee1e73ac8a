/** What the oracle achieves: exactly when a step is free of misses, and exactly how many it has. */
module PrefetchOracle {
  import opened Trace
  import opened LruEngine
  import opened LruCapacity
  import opened ReuseDistance
  import opened CacheSim
  import opened Prefetch

  lemma {:induction false} StepDemandSnoc(step: seq<RouterTraceEvent>, event: RouterTraceEvent, layer: nat)
    ensures StepDemand(step + [event], layer)
         == if event.layerId == layer then StepDemand(step, layer) + event.selected else StepDemand(step, layer)
  {
    hide Flatten, OnLayer;
    OnLayerSnoc(step, event, layer);
    FlattenSnoc(OnLayer(step, layer), event.selected);
  }

  /** A layer's step demand is the union of its events' selections. */
  lemma {:induction false} StepDemandMember(step: seq<RouterTraceEvent>, layer: nat, x: nat)
    ensures x in StepDemand(step, layer)
       <==> exists i :: 0 <= i < |step| && step[i].layerId == layer && x in step[i].selected
  {
    if step != [] {
      hide StepDemand;
      var n := |step| - 1;
      StepDemandMember(step[..n], layer, x);
      StepDemandSnoc(step[..n], step[n], layer);
      assert step == step[..n] + [step[n]];
    }
  }

  /** Every event of the step finds all its experts in `caches`. */
  ghost predicate AllResident(caches: map<nat, seq<nat>>, step: seq<RouterTraceEvent>) {
    forall i, x :: 0 <= i < |step| && x in step[i].selected ==> x in CacheOf(caches, step[i].layerId)
  }

  ghost predicate SameEntries(a: map<nat, seq<nat>>, b: map<nat, seq<nat>>) {
    forall layer: nat, x: nat :: x in CacheOf(a, layer) <==> x in CacheOf(b, layer)
  }

  lemma {:induction false} ServeAllHit(cache: seq<nat>, event: seq<nat>, capacity: nat)
    requires ValidCache(cache, capacity) && Distinct(event) && |event| <= capacity
    requires forall x :: x in event ==> x in cache
    ensures forall x :: x in Serve(EventOrder, cache, event, capacity) <==> x in cache
    ensures |Within(event, cache)| == |event|
  {
    hide LastN, Within, Without;
    forall i | 0 <= i < |event|
      ensures event[i] in cache
    {
      var x := event[i];
      assert x in event;
    }
    FilterAll(event, cache);
    ResidentCount(cache, event);
    FilterElems(cache, event);
    NothingTrimmed(Without(cache, event), capacity - |event|);
  }

  /** A step scores a hit for every demand exactly when everything it demands is resident beforehand. */
  lemma {:induction false} AllHitsExactly(caches: map<nat, seq<nat>>, issued: set<Candidate>,
                                          step: seq<RouterTraceEvent>, capacity: nat)
    requires ValidCaches(caches, capacity) && ValidTrace(step) && Narrow(step, capacity)
    ensures Consume(caches, issued, step, capacity).hits == StepSize(step) <==> AllResident(caches, step)
    ensures AllResident(caches, step) ==> SameEntries(caches, Consume(caches, issued, step, capacity).caches)
  {
    hide Serve, Within, Distinct;
    if step != [] {
      var n := |step| - 1;
      var part, event := step[..n], step[n];
      AllHitsExactly(caches, issued, part, capacity);
      ConsumeGood(caches, issued, part, capacity);
      var before := Consume(caches, issued, part, capacity);
      var cache := CacheOf(before.caches, event.layerId);
      EmptyValid(capacity);
      assert ValidCache(cache, capacity);
      FilterElems(event.selected, cache);
      ResidentHead(caches, part, event);
      assert step == part + [event];
      if AllResident(caches, part) {
        if forall x :: x in event.selected ==> x in cache {
          ServeAllHit(cache, event.selected, capacity);
        } else {
          MissedOne(event.selected, cache);
        }
      }
    }
  }

  lemma {:induction false} MissedOne(event: seq<nat>, cache: seq<nat>)
    requires exists x :: x in event && x !in cache
    ensures |Within(event, cache)| < |event|
  {
    FilterElems(event, cache);
    var x :| x in event && x !in cache;
    assert x in Without(event, cache);
  }

  lemma {:induction false} ResidentHead(caches: map<nat, seq<nat>>, part: seq<RouterTraceEvent>,
                                        event: RouterTraceEvent)
    ensures AllResident(caches, part + [event])
       <==> AllResident(caches, part) && forall x :: x in event.selected ==> x in CacheOf(caches, event.layerId)
  {
    var step := part + [event];
    assert step[|part|] == event;
    assert forall i :: 0 <= i < |part| ==> step[i] == part[i];
  }

  lemma {:induction false} ResidentDemand(caches: map<nat, seq<nat>>, step: seq<RouterTraceEvent>)
    ensures AllResident(caches, step)
       <==> forall layer: nat, x: nat :: x in StepDemand(step, layer) ==> x in CacheOf(caches, layer)
  {
    hide StepDemand;
    if AllResident(caches, step) {
      forall layer: nat, x: nat | x in StepDemand(step, layer)
        ensures x in CacheOf(caches, layer)
      {
        StepDemandMember(step, layer, x);
      }
    } else {
      var i, x :| 0 <= i < |step| && x in step[i].selected && x !in CacheOf(caches, step[i].layerId);
      StepDemandMember(step, step[i].layerId, x);
    }
  }

  ghost function Listed(scored: seq<Candidate>): set<Candidate> {
    set c | c in scored
  }

  lemma {:induction false} ListedCard(scored: seq<Candidate>)
    requires Distinct(scored)
    ensures |Listed(scored)| == |scored|
  {
    if scored != [] {
      var n := |scored| - 1;
      ListedCard(scored[..n]);
      assert scored == scored[..n] + [scored[n]];
      LastCandidateIsNew(scored[..n], scored[n]);
      assert Listed(scored) == Listed(scored[..n]) + {scored[n]};
    }
  }

  lemma {:induction false} SubsetCount(a: set<Candidate>, b: set<Candidate>)
    requires a <= b
    ensures |a| <= |b| && |b - a| == |b| - |a|
    ensures |a| == |b| ==> a == b
  {
    assert b == a + (b - a);
    if |a| == |b| {
      assert b - a == {};
    }
  }

  lemma {:induction false} OracleIsScored(start: map<nat, seq<nat>>, step: seq<RouterTraceEvent>,
                                          scored: seq<Candidate>)
    requires OracleScored(start, step, scored)
    ensures Scored(start, scored)
    ensures forall c :: c in scored ==> c.expert in StepDemand(step, c.layer)
  {
    hide StepDemand;
    forall i | 0 <= i < |scored|
      ensures scored[i].expert !in CacheOf(start, scored[i].layer)
    {
      var c := scored[i];
      assert c in scored;
    }
  }

  /** If nothing the step demands is missing afterwards, every candidate was issued. */
  lemma {:induction false} AllIssued(start: map<nat, seq<nat>>, max: nat, scored: seq<Candidate>,
                                     step: seq<RouterTraceEvent>, capacity: nat, t: Transfers)
    requires OracleScored(start, step, scored) && GoodTransfers(start, max, t, step, capacity)
    requires forall layer: nat, x: nat :: x in StepDemand(step, layer) ==> x in CacheOf(t.caches, layer)
    ensures |scored| <= max && StepFits(step, capacity)
  {
    hide StepDemand;
    forall c | c in Listed(scored)
      ensures c in t.issued
    {
      assert Candidate(c.layer, c.expert) == c;
    }
    ListedCard(scored);
    SubsetCount(Listed(scored), t.issued);
    forall layer: nat
      ensures |Elems(StepDemand(step, layer))| <= capacity
    {
      var cache := CacheOf(t.caches, layer);
      EmptyValid(capacity);
      assert ValidCache(cache, capacity);
      DistinctCard(cache);
      SubsetCard(Elems(StepDemand(step, layer)), Elems(cache));
    }
  }

  /** If the step fits and the budget covers every candidate, nothing the step demands is missing. */
  lemma {:induction false} NothingMissing(start: map<nat, seq<nat>>, max: nat, scored: seq<Candidate>,
                                          step: seq<RouterTraceEvent>, capacity: nat)
    requires ValidCaches(start, capacity) && OracleScored(start, step, scored)
    requires |scored| <= max && StepFits(step, capacity)
    ensures forall layer: nat, x: nat :: x in StepDemand(step, layer)
              ==> x in CacheOf(Offers(Begin(start, max), scored, step, capacity).caches, layer)
  {
    hide StepDemand, StepFits, Offers;
    var t := Offers(Begin(start, max), scored, step, capacity);
    OracleIsScored(start, step, scored);
    OracleIssues(start, max, scored, step, capacity);
    OffersGood(start, max, scored, step, capacity);
    ListedCard(scored);
    SubsetCount(t.issued, Listed(scored));
    forall layer: nat, x: nat | x in StepDemand(step, layer)
      ensures x in CacheOf(t.caches, layer)
    {
      if x !in CacheOf(start, layer) {
        assert Candidate(layer, x) in Listed(scored);
      }
    }
  }

  /**
   For any number of conversations: an oracle step is free of blocking misses exactly when the budget
   covers its candidates and no layer is asked for more distinct experts than it has slots.
   */
  lemma {:induction false} OracleStepIsMissFreeExactly(start: map<nat, seq<nat>>, max: nat, scored: seq<Candidate>,
                                                       step: seq<RouterTraceEvent>, capacity: nat)
    requires ValidCaches(start, capacity) && ValidTrace(step) && Narrow(step, capacity)
    requires OracleScored(start, step, scored)
    ensures var t := Offers(Begin(start, max), scored, step, capacity);
            (Consume(t.caches, t.issued, step, capacity).hits == StepSize(step))
              <==> (|scored| <= max && StepFits(step, capacity))
  {
    hide StepDemand, StepFits, Offers, Consume, OracleScored, AllResident;
    var t := Offers(Begin(start, max), scored, step, capacity);
    OracleIsScored(start, step, scored);
    OffersGood(start, max, scored, step, capacity);
    AllHitsExactly(t.caches, t.issued, step, capacity);
    ResidentDemand(t.caches, step);
    if AllResident(t.caches, step) {
      AllIssued(start, max, scored, step, capacity, t);
    }
    if |scored| <= max && StepFits(step, capacity) {
      NothingMissing(start, max, scored, step, capacity);
    }
  }

  // ---- One event per layer ----

  ghost predicate OnePerLayer(step: seq<RouterTraceEvent>) {
    forall i, j :: 0 <= i < j < |step| ==> step[i].layerId != step[j].layerId
  }

  function Tag(layer: nat, experts: seq<nat>): set<Candidate> {
    if experts == [] then {}
    else
      var n := |experts| - 1;
      Tag(layer, experts[..n]) + {Candidate(layer, experts[n])}
  }

  lemma {:induction false} TagMember(layer: nat, experts: seq<nat>)
    ensures forall c :: c in Tag(layer, experts) <==> c.layer == layer && c.expert in experts
    ensures Distinct(experts) ==> |Tag(layer, experts)| == |experts|
  {
    if experts != [] {
      var n := |experts| - 1;
      TagMember(layer, experts[..n]);
      assert experts == experts[..n] + [experts[n]];
      if Distinct(experts) {
        LastIsNew(experts[..n], experts[n]);
      }
    }
  }

  /** The demands of a step that are not resident before it is served. */
  function Absent(caches: map<nat, seq<nat>>, step: seq<RouterTraceEvent>): set<Candidate> {
    if step == [] then {}
    else
      var n := |step| - 1;
      Absent(caches, step[..n]) + Tag(step[n].layerId, Without(step[n].selected, CacheOf(caches, step[n].layerId)))
  }

  lemma {:induction false} AbsentMember(caches: map<nat, seq<nat>>, step: seq<RouterTraceEvent>, c: Candidate)
    ensures c in Absent(caches, step)
       <==> c.expert in StepDemand(step, c.layer) && c.expert !in CacheOf(caches, c.layer)
  {
    if step == [] {
    } else {
      hide StepDemand, Tag, Within, Without;
      var n := |step| - 1;
      var event := step[n];
      AbsentMember(caches, step[..n], c);
      StepDemandSnoc(step[..n], event, c.layer);
      assert step == step[..n] + [event];
      FilterElems(event.selected, CacheOf(caches, event.layerId));
      TagMember(event.layerId, Without(event.selected, CacheOf(caches, event.layerId)));
    }
  }

  /** Serving other layers leaves a layer's cache alone. */
  lemma {:induction false} OtherLayers(caches: map<nat, seq<nat>>, issued: set<Candidate>, step: seq<RouterTraceEvent>,
                                       capacity: nat, layer: nat)
    requires Narrow(step, capacity)
    requires forall i :: 0 <= i < |step| ==> step[i].layerId != layer
    ensures CacheOf(Consume(caches, issued, step, capacity).caches, layer) == CacheOf(caches, layer)
  {
    hide Serve, Within, NowReady;
    if step != [] {
      OtherLayers(caches, issued, step[..|step| - 1], capacity, layer);
    }
  }

  /** With one event per layer, hits plus absent demands is the whole demand, and what is ready is resident. */
  lemma {:induction false} OnePerLayerCount(caches: map<nat, seq<nat>>, issued: set<Candidate>,
                                            step: seq<RouterTraceEvent>, capacity: nat)
    requires ValidTrace(step) && Narrow(step, capacity) && OnePerLayer(step)
    ensures Consume(caches, issued, step, capacity).hits + |Absent(caches, step)| == StepSize(step)
    ensures forall c :: c in issued && c.expert in StepDemand(step, c.layer) && c.expert in CacheOf(caches, c.layer)
              ==> c in Consume(caches, issued, step, capacity).ready
  {
    hide Serve, Within, Without, StepDemand, Tag, Distinct;
    if step == [] {
      NoStepDemand();
    } else {
      var n := |step| - 1;
      var part, event := step[..n], step[n];
      var cache := CacheOf(caches, event.layerId);
      OnePerLayerCount(caches, issued, part, capacity);
      OtherLayers(caches, issued, part, capacity, event.layerId);
      FilterElems(event.selected, cache);
      FilterDistinct(event.selected, cache);
      TagMember(event.layerId, Without(event.selected, cache));
      AbsentDisjoint(caches, part, event.layerId);
      assert step == part + [event];
      forall c | c in issued && c.expert in StepDemand(step, c.layer) && c.expert in CacheOf(caches, c.layer)
        ensures c in Consume(caches, issued, step, capacity).ready
      {
        StepDemandSnoc(part, event, c.layer);
      }
    }
  }

  lemma {:induction false} NoStepDemand()
    ensures forall layer: nat :: StepDemand([], layer) == []
  {
  }

  lemma {:induction false} AbsentDisjoint(caches: map<nat, seq<nat>>, part: seq<RouterTraceEvent>, layer: nat)
    requires forall i :: 0 <= i < |part| ==> part[i].layerId != layer
    ensures forall c :: c in Absent(caches, part) ==> c.layer != layer
  {
    hide StepDemand, Absent;
    forall c | c in Absent(caches, part)
      ensures c.layer != layer
    {
      AbsentMember(caches, part, c);
      StepDemandMember(part, c.layer, c.expert);
    }
  }

  lemma {:induction false} OnePerLayerFits(step: seq<RouterTraceEvent>, capacity: nat)
    requires OnePerLayer(step) && Narrow(step, capacity)
    ensures StepFits(step, capacity)
  {
    forall layer: nat
      ensures |Elems(StepDemand(step, layer))| <= capacity
    {
      OnePerLayerDemand(step, layer, capacity);
      CardAtMost(StepDemand(step, layer));
    }
  }

  lemma {:induction false} OnePerLayerDemand(step: seq<RouterTraceEvent>, layer: nat, capacity: nat)
    requires OnePerLayer(step) && Narrow(step, capacity)
    ensures |StepDemand(step, layer)| <= capacity
    ensures (forall i :: 0 <= i < |step| ==> step[i].layerId != layer) ==> StepDemand(step, layer) == []
  {
    if step == [] {
      NoStepDemand();
    } else {
      hide StepDemand;
      var n := |step| - 1;
      OnePerLayerDemand(step[..n], layer, capacity);
      StepDemandSnoc(step[..n], step[n], layer);
      assert step == step[..n] + [step[n]];
    }
  }

  /**
   With one event per layer the oracle is exact: it issues min(budget, candidates) transfers, wastes
   none, and blocks on exactly the candidates the budget did not cover.
   */
  lemma {:induction false} OracleIsExact(start: map<nat, seq<nat>>, max: nat, scored: seq<Candidate>,
                                         step: seq<RouterTraceEvent>, capacity: nat)
    requires ValidCaches(start, capacity) && ValidTrace(step) && Narrow(step, capacity) && OnePerLayer(step)
    requires OracleScored(start, step, scored)
    ensures var t := Offers(Begin(start, max), scored, step, capacity);
            var c := Consume(t.caches, t.issued, step, capacity);
            && |t.issued| == Min(max, |scored|)
            && c.ready == t.issued
            && StepSize(step) - c.hits == |scored| - Min(max, |scored|)
  {
    hide StepDemand, StepFits, Offers, Consume, Absent;
    var t := Offers(Begin(start, max), scored, step, capacity);
    OracleIsScored(start, step, scored);
    OnePerLayerFits(step, capacity);
    OracleIssues(start, max, scored, step, capacity);
    OffersGood(start, max, scored, step, capacity);
    OnePerLayerCount(t.caches, t.issued, step, capacity);
    ConsumeGood(t.caches, t.issued, step, capacity);
    ReadyIsIssued(start, max, t, step, capacity, Consume(t.caches, t.issued, step, capacity).ready);
    AbsentIsUnissued(start, max, scored, t, step, capacity);
    ListedCard(scored);
    SubsetCount(t.issued, Listed(scored));
  }

  lemma {:induction false} ReadyIsIssued(start: map<nat, seq<nat>>, max: nat, t: Transfers, step: seq<RouterTraceEvent>,
                                         capacity: nat, ready: set<Candidate>)
    requires GoodTransfers(start, max, t, step, capacity) && ready <= t.issued
    requires forall c :: c in t.issued ==> c.expert in StepDemand(step, c.layer)
    requires forall c :: c in t.issued ==>
      c.expert in StepDemand(step, c.layer) && c.expert in CacheOf(t.caches, c.layer) ==> c in ready
    ensures ready == t.issued
  {
    hide StepDemand;
  }

  lemma {:induction false} AbsentIsUnissued(start: map<nat, seq<nat>>, max: nat, scored: seq<Candidate>, t: Transfers,
                                            step: seq<RouterTraceEvent>, capacity: nat)
    requires GoodTransfers(start, max, t, step, capacity) && OracleScored(start, step, scored)
    ensures Absent(t.caches, step) == Listed(scored) - t.issued
  {
    hide StepDemand, Absent;
    forall c: Candidate
      ensures c in Absent(t.caches, step) <==> c in Listed(scored) && c !in t.issued
    {
      AbsentMember(t.caches, step, c);
      assert Candidate(c.layer, c.expert) == c;
    }
  }

  function Event(layer: nat, selected: seq<nat>): RouterTraceEvent {
    RouterTraceEvent("r", 0, 0, 0, layer, selected, 0)
  }

  function TwoConversations(): seq<RouterTraceEvent> {
    [Event(0, [1, 2]), Event(0, [0])]
  }

  function TheirCandidates(): seq<Candidate> {
    [Candidate(0, 0), Candidate(0, 1), Candidate(0, 2)]
  }

  lemma {:induction false} TheirDemand(layer: nat)
    ensures StepDemand(TwoConversations(), layer) == if layer == 0 then [1, 2, 0] else []
  {
    var step := TwoConversations();
    assert step == ([] + [step[0]]) + [step[1]];
    StepDemandSnoc([] + [step[0]], step[1], layer);
    StepDemandSnoc([], step[0], layer);
    NoStepDemand();
  }

  lemma {:induction false} OffersOne(t: Transfers, c: Candidate, step: seq<RouterTraceEvent>, capacity: nat)
    requires t.budget > 0
    ensures Offers(t, [c], step, capacity) == Offer(t, c, step, capacity)
  {
    assert [c][..0] == [];
  }

  lemma {:induction false} OffersSpent(t: Transfers, head: seq<Candidate>, c: Candidate, step: seq<RouterTraceEvent>,
                                       capacity: nat)
    requires Offers(t, head, step, capacity).budget == 0
    ensures Offers(t, head + [c], step, capacity) == Offers(t, head, step, capacity)
  {
    assert (head + [c])[..|head|] == head;
  }

  lemma {:induction false} TheirTransfer()
    ensures Offers(Begin(map[], 1), TheirCandidates(), TwoConversations(), 2)
         == Transfers(map[0 := [0]], {Candidate(0, 0)}, 0)
  {
    hide Offers;
    var t, step := Begin(map[], 1), TwoConversations();
    OffersOne(t, Candidate(0, 0), step, 2);
    assert [] + [0] == [0];
    assert Offer(t, Candidate(0, 0), step, 2) == Transfers(map[][0 := [0]], {} + {Candidate(0, 0)}, 0);
    OffersSpent(t, [Candidate(0, 0)], Candidate(0, 1), step, 2);
    OffersSpent(t, [Candidate(0, 0)] + [Candidate(0, 1)], Candidate(0, 2), step, 2);
    assert [Candidate(0, 0)] + [Candidate(0, 1)] + [Candidate(0, 2)] == TheirCandidates();
  }

  lemma {:induction false} TheirService()
    ensures ValidTrace(TwoConversations()) && Narrow(TwoConversations(), 2)
    ensures var c := Consume(map[0 := [0]], {Candidate(0, 0)}, TwoConversations(), 2);
            c.hits == 0 && c.ready == {}
  {
    hide Within, Without, Consume, LastN;
    var step, caches, issued := TwoConversations(), map[0 := [0]], {Candidate(0, 0)};
    assert step == ([] + [step[0]]) + [step[1]];
    ConsumeSnoc(caches, issued, [], step[0], 2);
    ConsumeSnoc(caches, issued, [] + [step[0]], step[1], 2);
    NothingConsumed(caches, issued, 2);
    FilterNone([1, 2], [0]);
    FilterNone([0], [1, 2]);
    NoRoom(Without([0], [1, 2]), [1, 2]);
  }

  lemma {:induction false} NothingConsumed(caches: map<nat, seq<nat>>, issued: set<Candidate>, capacity: nat)
    ensures Consume(caches, issued, [], capacity) == Consumption(caches, 0, {})
  {
  }

  lemma {:induction false} NoRoom(s: seq<nat>, t: seq<nat>)
    ensures LastN(s, 0) + t == t
  {
  }

  /**
   Two conversations on one layer that ask for three experts of two slots: the demands of the first evict
   what was transferred for the second, so the oracle's only transfer is wasted.
   */
  lemma {:induction false} OracleCanWaste()
    ensures var step, scored := TwoConversations(), TheirCandidates();
            var t := Offers(Begin(map[], 1), scored, step, 2);
            && ValidTrace(step) && Narrow(step, 2) && OracleScored(map[], step, scored)
            && !StepFits(step, 2)
            && t.issued == {Candidate(0, 0)}
            && Consume(t.caches, t.issued, step, 2).ready == {}
            && Consume(t.caches, t.issued, step, 2).hits == 0
  {
    hide StepDemand, Consume, Offers, TwoConversations;
    TheirTransfer();
    TheirService();
    TheirDemand(0);
    assert Elems([1, 2, 0]) == {0, 1, 2};
    assert |Elems(StepDemand(TwoConversations(), 0))| == 3;
    forall c: Candidate
      ensures c in TheirCandidates()
         <==> c.expert in StepDemand(TwoConversations(), c.layer) && c.expert !in CacheOf(map[], c.layer)
    {
      TheirDemand(c.layer);
      assert Candidate(c.layer, c.expert) == c;
    }
  }
}
