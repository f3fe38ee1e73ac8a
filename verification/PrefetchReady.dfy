/** Which transfers turn out useful: exactly when one is ready in time, and when none is wasted. */
module PrefetchReady {
  import opened Trace
  import opened LruEngine
  import opened LruScanOrder
  import opened ReuseDistance
  import opened CacheSim
  import opened Prefetch
  import opened PrefetchOracle

  /** Serving a step leaves on each layer the scan-order LRU of that layer's own demands. */
  lemma {:induction false} ConsumeIsScanOrder(caches: map<nat, seq<nat>>, issued: set<Candidate>,
                                              step: seq<RouterTraceEvent>, capacity: nat, layer: nat)
    requires ValidTrace(step) && Narrow(step, capacity)
    ensures Fits(OnLayer(step, layer), capacity)
    ensures CacheOf(Consume(caches, issued, step, capacity).caches, layer)
         == Run(EventOrder, CacheOf(caches, layer), OnLayer(step, layer), capacity)
  {
    hide Serve, Within, NowReady, Consume, Run, Hits, OnLayer;
    OnLayerFits(step, layer, capacity);
    if step == [] {
      NothingConsumed(caches, issued, capacity);
      NothingOnLayer(layer);
      RunNothing(CacheOf(caches, layer), capacity);
    } else {
      var n := |step| - 1;
      var part, event := step[..n], step[n];
      assert step == part + [event];
      ConsumeIsScanOrder(caches, issued, part, capacity, layer);
      ConsumeSnoc(caches, issued, part, event, capacity);
      OnLayerSnoc(part, event, layer);
      RunEvent(CacheOf(caches, layer), OnLayer(part, layer), event.selected, capacity);
    }
  }

  lemma {:induction false} NothingOnLayer(layer: nat)
    ensures OnLayer([], layer) == []
  {
  }

  lemma {:induction false} RunNothing(cache: seq<nat>, capacity: nat)
    ensures Run(EventOrder, cache, [], capacity) == cache
  {
  }

  lemma {:induction false} RunEvent(cache: seq<nat>, before: seq<seq<nat>>, event: seq<nat>, capacity: nat)
    requires Fits(before, capacity) && Distinct(event) && |event| <= capacity
    ensures Fits(before + [event], capacity)
    ensures Run(EventOrder, cache, before + [event], capacity)
         == Serve(EventOrder, Run(EventOrder, cache, before, capacity), event, capacity)
  {
    hide Serve, Distinct;
    assert (before + [event])[..|before|] == before;
  }

  // ---- Exactly when a transfer is ready ----

  /** Of all that was filed or demanded, fewer than `capacity` different experts came after `x`. */
  predicate Recent(demands: seq<nat>, x: nat, capacity: nat) {
    Distance(demands, x).Some? && Distance(demands, x).value < capacity
  }

  /** An issued expert is in time for event i: few enough experts are younger than it or demanded before. */
  predicate InTime(caches: map<nat, seq<nat>>, step: seq<RouterTraceEvent>, c: Candidate, capacity: nat, i: nat)
    requires i < |step|
  {
    && step[i].layerId == c.layer && c.expert in step[i].selected
    && Recent(CacheOf(caches, c.layer) + StepDemand(step[..i], c.layer), c.expert, capacity)
  }

  ghost predicate EverInTime(caches: map<nat, seq<nat>>, step: seq<RouterTraceEvent>, c: Candidate, capacity: nat) {
    exists i :: 0 <= i < |step| && InTime(caches, step, c, capacity, i)
  }

  /**
   A transfer counts as useful exactly when some event demands it while fewer than `capacity` different
   experts of its layer have been filed after it or demanded since it was last used.
   */
  lemma {:induction false} ReadyExactly(caches: map<nat, seq<nat>>, issued: set<Candidate>,
                                        step: seq<RouterTraceEvent>, capacity: nat, c: Candidate)
    requires ValidCaches(caches, capacity) && ValidTrace(step) && Narrow(step, capacity) && c in issued
    ensures c in Consume(caches, issued, step, capacity).ready <==> EverInTime(caches, step, c, capacity)
  {
    hide StepDemand, Recent, ValidTrace, Narrow, InTime, EverInTime, Consume, Serve, Within;
    if step == [] {
      NothingConsumed(caches, issued, capacity);
      NeverInTime(caches, c, capacity);
    } else {
      var n := |step| - 1;
      var part, event := step[..n], step[n];
      assert step == part + [event];
      TraceHead(part, event, capacity);
      ReadyExactly(caches, issued, part, capacity, c);
      ConsumeSnoc(caches, issued, part, event, capacity);
      InTimeSnoc(caches, part, event, c, capacity);
      ResidentExactly(caches, issued, part, capacity, c);
    }
  }

  /** In every mode a step wastes nothing exactly when every transfer is in time for some event. */
  lemma {:induction false} WastesNothingExactly(start: map<nat, seq<nat>>, max: nat, scored: seq<Candidate>,
                                                step: seq<RouterTraceEvent>, capacity: nat)
    requires ValidCaches(start, capacity) && ValidTrace(step) && Narrow(step, capacity) && Scored(start, scored)
    ensures var t := Offers(Begin(start, max), scored, step, capacity);
            Consume(t.caches, t.issued, step, capacity).ready == t.issued <==>
              forall c :: c in t.issued ==> EverInTime(t.caches, step, c, capacity)
  {
    hide Offers, Consume, Scored, EverInTime, StepDemand, ValidTrace, Narrow;
    var t := Offers(Begin(start, max), scored, step, capacity);
    OffersGood(start, max, scored, step, capacity);
    ConsumeGood(t.caches, t.issued, step, capacity);
    forall c | c in t.issued
      ensures c in Consume(t.caches, t.issued, step, capacity).ready <==> EverInTime(t.caches, step, c, capacity)
    {
      ReadyExactly(t.caches, t.issued, step, capacity, c);
    }
  }

  lemma {:induction false} NeverInTime(caches: map<nat, seq<nat>>, c: Candidate, capacity: nat)
    ensures !EverInTime(caches, [], c, capacity)
  {
  }

  lemma {:induction false} InTimeSnoc(caches: map<nat, seq<nat>>, part: seq<RouterTraceEvent>, event: RouterTraceEvent,
                                      c: Candidate, capacity: nat)
    ensures EverInTime(caches, part + [event], c, capacity)
       <==> EverInTime(caches, part, c, capacity)
            || (event.layerId == c.layer && c.expert in event.selected
                && Recent(CacheOf(caches, c.layer) + StepDemand(part, c.layer), c.expert, capacity))
  {
    hide StepDemand, Recent;
    var step := part + [event];
    InTimeHead(caches, part, event, c, capacity);
    assert step[..|part|] == part && step[|part|] == event;
    if EverInTime(caches, part, c, capacity) {
      var i :| 0 <= i < |part| && InTime(caches, part, c, capacity, i);
      assert InTime(caches, step, c, capacity, i);
    }
    if event.layerId == c.layer && c.expert in event.selected
      && Recent(CacheOf(caches, c.layer) + StepDemand(part, c.layer), c.expert, capacity) {
      assert InTime(caches, step, c, capacity, |part|);
    }
  }

  lemma {:induction false} TraceHead(part: seq<RouterTraceEvent>, event: RouterTraceEvent, capacity: nat)
    requires ValidTrace(part + [event]) && Narrow(part + [event], capacity)
    ensures ValidTrace(part) && Narrow(part, capacity) && ValidEvent(event) && |event.selected| <= capacity
  {
    var step := part + [event];
    assert step[|part|] == event;
    assert forall i :: 0 <= i < |part| ==> step[i] == part[i];
  }

  lemma {:induction false} InTimeHead(caches: map<nat, seq<nat>>, part: seq<RouterTraceEvent>, event: RouterTraceEvent,
                                      c: Candidate, capacity: nat)
    ensures forall i :: 0 <= i < |part| ==>
      (InTime(caches, part + [event], c, capacity, i) <==> InTime(caches, part, c, capacity, i))
  {
    hide StepDemand, Recent;
    var step := part + [event];
    forall i | 0 <= i < |part|
      ensures InTime(caches, step, c, capacity, i) <==> InTime(caches, part, c, capacity, i)
    {
      assert step[..i] == part[..i] && step[i] == part[i];
    }
  }

  lemma {:induction false} ResidentExactly(caches: map<nat, seq<nat>>, issued: set<Candidate>,
                                           part: seq<RouterTraceEvent>, capacity: nat, c: Candidate)
    requires ValidCaches(caches, capacity) && ValidTrace(part) && Narrow(part, capacity)
    ensures c.expert in CacheOf(Consume(caches, issued, part, capacity).caches, c.layer)
       <==> Recent(CacheOf(caches, c.layer) + StepDemand(part, c.layer), c.expert, capacity)
  {
    hide Run, Consume, OnLayer, Flatten, Distance;
    EmptyValid(capacity);
    ConsumeIsScanOrder(caches, issued, part, capacity, c.layer);
    ScanOrderFrom(CacheOf(caches, c.layer), OnLayer(part, c.layer), capacity, c.expert);
  }

  // ---- When nothing is wasted ----

  /** In one layer's cache, whatever is filed after an issued expert has been issued as well. */
  ghost predicate LastIn(layer: nat, cache: seq<nat>, issued: set<Candidate>) {
    forall i, j :: 0 <= i < j < |cache| && Candidate(layer, cache[i]) in issued ==> Candidate(layer, cache[j]) in issued
  }

  ghost predicate IssuedLast(t: Transfers) {
    forall layer: nat :: LastIn(layer, CacheOf(t.caches, layer), t.issued)
  }

  lemma {:induction false} LastAppended(layer: nat, cache: seq<nat>, x: nat, issued: set<Candidate>)
    requires LastIn(layer, cache, issued) && x !in cache
    ensures LastIn(layer, cache + [x], issued + {Candidate(layer, x)})
  {
  }

  lemma {:induction false} LastRemoved(layer: nat, cache: seq<nat>, v: nat, issued: set<Candidate>)
    requires LastIn(layer, cache, issued) && v < |cache|
    ensures LastIn(layer, cache[..v] + cache[v + 1..], issued)
  {
    var r := cache[..v] + cache[v + 1..];
    forall i, j | 0 <= i < j < |r| && Candidate(layer, r[i]) in issued
      ensures Candidate(layer, r[j]) in issued
    {
      var i', j' := if i < v then i else i + 1, if j < v then j else j + 1;
      assert r[i] == cache[i'] && r[j] == cache[j'];
    }
  }

  lemma {:induction false} LastElsewhere(layer: nat, cache: seq<nat>, issued: set<Candidate>, c: Candidate)
    requires LastIn(layer, cache, issued) && c.layer != layer
    ensures LastIn(layer, cache, issued + {c})
  {
  }

  lemma {:induction false} OfferKeepsLast(t: Transfers, c: Candidate, step: seq<RouterTraceEvent>, capacity: nat)
    requires IssuedLast(t) && t.budget > 0
    ensures IssuedLast(Offer(t, c, step, capacity))
  {
    hide Protected, LastIn;
    var u := Offer(t, c, step, capacity);
    var cache := CacheOf(t.caches, c.layer);
    assert Candidate(c.layer, c.expert) == c;
    forall layer: nat
      ensures LastIn(layer, CacheOf(u.caches, layer), u.issued)
    {
      assert LastIn(layer, CacheOf(t.caches, layer), t.issued);
      if u == t {
      } else if layer != c.layer {
        LastElsewhere(layer, CacheOf(t.caches, layer), t.issued, c);
      } else if |cache| < capacity {
        LastAppended(layer, cache, c.expert, t.issued);
      } else {
        var v := Victim(cache, step, t.issued, c.layer).value;
        LastRemoved(layer, cache, v, t.issued);
        LastAppended(layer, cache[..v] + cache[v + 1..], c.expert, t.issued);
      }
    }
  }

  lemma {:induction false} OffersKeepLast(t: Transfers, scored: seq<Candidate>, step: seq<RouterTraceEvent>,
                                          capacity: nat)
    requires IssuedLast(t)
    ensures IssuedLast(Offers(t, scored, step, capacity))
  {
    hide Offer, IssuedLast;
    if scored != [] {
      var n := |scored| - 1;
      OffersKeepLast(t, scored[..n], step, capacity);
      var before := Offers(t, scored[..n], step, capacity);
      if before.budget > 0 {
        OfferKeepsLast(before, scored[n], step, capacity);
      }
    }
  }

  /** What is younger than an issued expert has been issued too, and so is demanded by the step. */
  lemma {:induction false} IssuedIsRecent(t: Transfers, step: seq<RouterTraceEvent>, capacity: nat, c: Candidate,
                                          i: nat)
    requires ValidCaches(t.caches, capacity) && IssuedLast(t) && StepFits(step, capacity)
    requires forall d :: d in t.issued ==> d.expert in StepDemand(step, d.layer)
    requires c in t.issued && c.expert in CacheOf(t.caches, c.layer)
    requires i < |step| && step[i].layerId == c.layer && c.expert in step[i].selected
    requires c.expert !in StepDemand(step[..i], c.layer)
    ensures InTime(t.caches, step, c, capacity, i)
  {
    hide StepDemand, Distance;
    var cache, x := CacheOf(t.caches, c.layer), c.expert;
    var before, all := StepDemand(step[..i], c.layer), Elems(StepDemand(step, c.layer));
    assert Candidate(c.layer, c.expert) == c && LastIn(c.layer, cache, t.issued);
    var k :| 0 <= k < |cache| && cache[k] == x;
    var h := cache[k + 1..] + before;
    assert Distinct(cache) by { EmptyValid(capacity); }
    assert cache + before == cache[..k] + [x] + h;
    assert x !in cache[k + 1..];
    DistanceCountsDistinct(cache[..k], x, h);
    forall y | y in Elems(h)
      ensures y in all && y != x
    {
      if y in cache[k + 1..] {
        var j :| k + 1 <= j < |cache| && cache[j] == y;
        assert Candidate(c.layer, cache[j]) in t.issued;
      } else {
        DemandGrows(step, i, c.layer, y);
      }
    }
    assert x in all by { StepDemandMember(step, c.layer, x); }
    SubsetCard(Elems(h) + {x}, all);
    assert |Elems(h) + {x}| == |Elems(h)| + 1;
  }

  lemma {:induction false} DemandGrows(step: seq<RouterTraceEvent>, i: nat, layer: nat, y: nat)
    requires i <= |step| && y in StepDemand(step[..i], layer)
    ensures y in StepDemand(step, layer)
  {
    hide StepDemand;
    StepDemandMember(step[..i], layer, y);
    StepDemandMember(step, layer, y);
    var j :| 0 <= j < i && step[..i][j].layerId == layer && y in step[..i][j].selected;
    assert step[j] == step[..i][j];
  }

  /** The first event that demands an expert of a layer. */
  lemma {:induction false} FirstDemand(step: seq<RouterTraceEvent>, layer: nat, x: nat) returns (i: nat)
    requires x in StepDemand(step, layer)
    ensures i < |step| && step[i].layerId == layer && x in step[i].selected && x !in StepDemand(step[..i], layer)
  {
    hide StepDemand;
    var n := |step| - 1;
    if step == [] {
      NoStepDemand();
      assert false;
    } else if x in StepDemand(step[..n], layer) {
      i := FirstDemand(step[..n], layer, x);
      assert step[..n][..i] == step[..i];
    } else {
      i := n;
      StepDemandSnoc(step[..n], step[n], layer);
      assert step == step[..n] + [step[n]];
    }
  }

  /**
   For any number of conversations: when no layer is asked for more distinct experts than it has slots,
   the oracle issues min(budget, candidates) transfers and wastes none of them.
   */
  lemma {:induction false} FittingStepWastesNothing(start: map<nat, seq<nat>>, max: nat, scored: seq<Candidate>,
                                                    step: seq<RouterTraceEvent>, capacity: nat)
    requires ValidCaches(start, capacity) && ValidTrace(step) && Narrow(step, capacity)
    requires OracleScored(start, step, scored) && StepFits(step, capacity)
    ensures var t := Offers(Begin(start, max), scored, step, capacity);
            |t.issued| == Min(max, |scored|) && Consume(t.caches, t.issued, step, capacity).ready == t.issued
  {
    hide StepDemand, Offers, Consume, OracleScored, InTime, StepFits, ValidTrace, Narrow;
    var t := Offers(Begin(start, max), scored, step, capacity);
    OracleIsScored(start, step, scored);
    OracleIssues(start, max, scored, step, capacity);
    OffersGood(start, max, scored, step, capacity);
    BeginLast(start, max);
    OffersKeepLast(Begin(start, max), scored, step, capacity);
    ConsumeGood(t.caches, t.issued, step, capacity);
    forall c | c in t.issued
      ensures c in Consume(t.caches, t.issued, step, capacity).ready
    {
      var i := FirstDemand(step, c.layer, c.expert);
      IssuedIsRecent(t, step, capacity, c, i);
      ReadyExactly(t.caches, t.issued, step, capacity, c);
    }
  }

  lemma {:induction false} BeginLast(start: map<nat, seq<nat>>, max: nat)
    ensures IssuedLast(Begin(start, max))
  {
  }

  // ---- Misses ----

  /** What a layer holds after part of a step it held before, or the step has demanded. */
  lemma {:induction false} ConsumedSources(caches: map<nat, seq<nat>>, issued: set<Candidate>,
                                           step: seq<RouterTraceEvent>, capacity: nat, layer: nat, x: nat)
    requires ValidCaches(caches, capacity) && ValidTrace(step) && Narrow(step, capacity)
    requires x in CacheOf(Consume(caches, issued, step, capacity).caches, layer)
    ensures x in CacheOf(caches, layer) || x in StepDemand(step, layer)
  {
    hide Consume, Distance, StepDemand;
    ResidentExactly(caches, issued, step, capacity, Candidate(layer, x));
    FirstDemandIsCold(CacheOf(caches, layer) + StepDemand(step, layer), x);
  }

  /** Every expert that is absent when the step is served is missed at least once. */
  lemma {:induction false} AbsentIsMissed(caches: map<nat, seq<nat>>, issued: set<Candidate>,
                                          step: seq<RouterTraceEvent>, capacity: nat)
    requires ValidCaches(caches, capacity) && ValidTrace(step) && Narrow(step, capacity)
    ensures Consume(caches, issued, step, capacity).hits + |Absent(caches, step)| <= StepSize(step)
  {
    hide Serve, Within, Without, StepDemand, Tag, Distinct, ValidTrace, Narrow, Consume, Absent, StepSize;
    if step == [] {
      NothingAbsent(caches, issued, capacity);
    } else {
      var n := |step| - 1;
      var part, event := step[..n], step[n];
      assert step == part + [event];
      TraceHead(part, event, capacity);
      AbsentIsMissed(caches, issued, part, capacity);
      ConsumeSnoc(caches, issued, part, event, capacity);
      AbsentSnoc(caches, issued, part, event, capacity);
      StepSizeOfSnoc(part, event);
    }
  }

  lemma {:induction false} NothingAbsent(caches: map<nat, seq<nat>>, issued: set<Candidate>, capacity: nat)
    ensures Absent(caches, []) == {} && StepSize([]) == 0 && Consume(caches, issued, [], capacity).hits == 0
  {
  }

  lemma {:induction false} StepSizeOfSnoc(part: seq<RouterTraceEvent>, event: RouterTraceEvent)
    ensures StepSize(part + [event]) == StepSize(part) + |event.selected|
  {
    assert (part + [event])[..|part|] == part;
  }

  /** One more event makes at most its own misses absent. */
  lemma {:induction false} AbsentSnoc(caches: map<nat, seq<nat>>, issued: set<Candidate>, part: seq<RouterTraceEvent>,
                                      event: RouterTraceEvent, capacity: nat)
    requires ValidCaches(caches, capacity) && ValidTrace(part) && Narrow(part, capacity) && ValidEvent(event)
    ensures var cache := CacheOf(Consume(caches, issued, part, capacity).caches, event.layerId);
            |Absent(caches, part + [event])| + |Within(event.selected, cache)| <= |Absent(caches, part)|
              + |event.selected|
  {
    hide Within, Without, StepDemand, Tag, Consume, Absent;
    var layer := event.layerId;
    var cache := CacheOf(Consume(caches, issued, part, capacity).caches, layer);
    var missed := Tag(layer, Without(event.selected, cache));
    FilterElems(event.selected, cache);
    FilterDistinct(event.selected, cache);
    TagMember(layer, Without(event.selected, cache));
    forall c | c in Absent(caches, part + [event])
      ensures c in Absent(caches, part) + missed
    {
      AbsentMember(caches, part + [event], c);
      AbsentMember(caches, part, c);
      StepDemandSnoc(part, event, c.layer);
      if c.expert !in StepDemand(part, c.layer) && c.expert in cache {
        ConsumedSources(caches, issued, part, capacity, layer, c.expert);
      }
    }
    SubsetCount(Absent(caches, part + [event]), Absent(caches, part) + missed);
    UnionCount(Absent(caches, part), missed);
  }

  lemma {:induction false} UnionCount(a: set<Candidate>, b: set<Candidate>)
    ensures |a + b| <= |a| + |b|
  {
    assert a + b == a + (b - a);
    SubsetCount(b - a, b);
  }

  /** In every step the oracle misses at least the candidates it did not issue. */
  lemma {:induction false} UnissuedIsMissed(start: map<nat, seq<nat>>, max: nat, scored: seq<Candidate>,
                                            step: seq<RouterTraceEvent>, capacity: nat)
    requires ValidCaches(start, capacity) && ValidTrace(step) && Narrow(step, capacity)
    requires OracleScored(start, step, scored)
    ensures var t := Offers(Begin(start, max), scored, step, capacity);
            StepSize(step) - Consume(t.caches, t.issued, step, capacity).hits >= |scored| - |t.issued|
  {
    hide StepDemand, Offers, Consume, Absent, ValidTrace, Narrow;
    var t := Offers(Begin(start, max), scored, step, capacity);
    OracleIsScored(start, step, scored);
    OffersGood(start, max, scored, step, capacity);
    AbsentIsMissed(t.caches, t.issued, step, capacity);
    AbsentIsUnissued(start, max, scored, t, step, capacity);
    ListedCard(scored);
    SubsetCount(t.issued, Listed(scored));
  }
}
