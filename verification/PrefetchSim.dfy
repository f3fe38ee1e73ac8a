/** The concurrent prefetch simulator: its loops, step by step, against the specification of one step. */
module PrefetchSim {
  import opened Trace
  import opened LruEngine
  import opened LruCapacity
  import opened ReuseDistance
  import opened CacheSim
  import opened Prefetch
  import opened PrefetchOracle

  datatype Prediction = NoPrediction | Oracle | Frequency

  // ---- Serving one event ----

  /** Part way through an event: `rest` is what is left of the old cache, `i` experts are filed. */
  ghost predicate Scanned(cache: seq<nat>, event: seq<nat>, i: nat, d: nat, rest: seq<nat>)
    requires i <= |event| && d <= |Without(cache, event)|
  {
    && Distinct(rest)
    && Without(rest, event) == Without(cache, event)[d..]
    && (forall x :: x in rest ==> x in cache && x !in event[..i])
    && (forall x :: x in event[i..] && x in cache ==> x in rest)
  }

  lemma {:induction false} ScanStart(cache: seq<nat>, event: seq<nat>)
    requires Distinct(cache)
    ensures Scanned(cache, event, 0, 0, cache)
  {
    hide Without;
    assert Without(cache, event)[0..] == Without(cache, event);
  }

  lemma {:induction false} PromoteScanned(cache: seq<nat>, event: seq<nat>, i: nat, d: nat, rest: seq<nat>)
    requires Distinct(event) && i < |event| && d <= |Without(cache, event)|
    requires Scanned(cache, event, i, d, rest) && event[i] in rest
    ensures Scanned(cache, event, i + 1, d, Without(rest, [event[i]]))
  {
    hide Without, Within;
    var x, r := event[i], Without(rest, [event[i]]);
    FilterElems(rest, [x]);
    FilterDistinct(rest, [x]);
    WithoutTwice(rest, [x], event);
    forall j | 0 <= j < |rest|
      ensures rest[j] in [x] + event <==> rest[j] in event
    {
    }
    FilterSameElems(rest, [x] + event, event);
    assert event[..i + 1] == event[..i] + [x];
    assert event[i..] == [x] + event[i + 1..];
    LaterDiffer(event, i);
  }

  lemma {:induction false} LaterDiffer(event: seq<nat>, i: nat)
    requires Distinct(event) && i < |event|
    ensures event[i] !in event[..i] && event[i] !in event[i + 1..]
  {
  }

  lemma {:induction false} AdmitScanned(cache: seq<nat>, event: seq<nat>, i: nat, d: nat, rest: seq<nat>)
    requires Distinct(event) && i < |event| && d <= |Without(cache, event)|
    requires Scanned(cache, event, i, d, rest) && event[i] !in rest
    ensures Scanned(cache, event, i + 1, d, rest)
  {
    hide Without, Distinct;
    assert event[..i + 1] == event[..i] + [event[i]];
    assert event[i..] == [event[i]] + event[i + 1..];
  }

  lemma {:induction false} EvictScanned(cache: seq<nat>, event: seq<nat>, i: nat, d: nat, rest: seq<nat>, v: nat)
    requires i <= |event| && d <= |Without(cache, event)|
    requires Scanned(cache, event, i, d, rest)
    requires v < |rest| && rest[v] !in event
    requires forall j :: 0 <= j < v ==> rest[j] in event
    ensures d < |Without(cache, event)|
    ensures Scanned(cache, event, i, d + 1, rest[..v] + rest[v + 1..])
  {
    hide Without, Within;
    var x, r := rest[v], rest[..v] + rest[v + 1..];
    RemoveAt(rest, v);
    FilterElems(rest, [x]);
    FilterDistinct(rest, [x]);
    var tail := rest[v + 1..];
    FilterAll(rest[..v], event);
    FilterNone([x], event);
    assert rest == rest[..v] + ([x] + tail);
    FilterConcat(rest[..v], [x] + tail, event);
    FilterConcat([x], tail, event);
    FilterConcat(rest[..v], tail, event);
    assert [] + ([x] + Without(tail, event)) == [x] + Without(tail, event);
    assert [] + Without(tail, event) == Without(tail, event);
    var stale := Without(cache, event);
    assert stale[d..] == [x] + Without(tail, event);
    assert stale[d + 1..] == stale[d..][1..];
  }

  lemma {:induction false} ScanEnd(cache: seq<nat>, event: seq<nat>, d: nat, rest: seq<nat>)
    requires d <= |Without(cache, event)|
    requires Scanned(cache, event, |event|, d, rest)
    ensures rest == Without(cache, event)[d..]
  {
    hide Without;
    assert event[..|event|] == event;
    forall i | 0 <= i < |rest|
      ensures rest[i] !in event
    {
      var x := rest[i];
      assert x in rest;
    }
    FilterNone(rest, event);
  }

  /** The experts filed so far are in the event; with a miss at hand they cannot fill the cache alone. */
  lemma {:induction false} VictimExists(rest: seq<nat>, event: seq<nat>, i: nat, capacity: nat)
    requires Distinct(event) && i < |event| && |event| <= capacity
    requires Distinct(rest) && event[i] !in rest
    requires forall x :: x in rest ==> x !in event[..i]
    requires forall j :: 0 <= j < |rest| ==> rest[j] in event
    ensures |rest| + i < capacity
  {
    forall x | x in rest
      ensures x in event
    {
      var j :| 0 <= j < |rest| && rest[j] == x;
    }
    var filed := event[..i];
    assert event == filed + [event[i]] + event[i + 1..];
    DistinctConcat(filed, rest) by {
      assert Distinct(filed);
    }
    DistinctCard(filed + rest);
    DistinctCard(event);
    assert event[i] !in filed + rest;
    assert event[i] in Elems(event);
    SubsetCard(Elems(filed + rest) + {event[i]}, Elems(event));
  }

  /**
   One event against one layer's cache.  Each hit moves to the young end as it is scanned and each miss
   is appended after evicting the oldest entries the event does not need.  The victim scan never fails.
   */
  method ConsumeDemand(cache: seq<nat>, event: RouterTraceEvent, capacity: nat, issued: set<Candidate>)
    returns (after: seq<nat>, hits: nat, misses: nat, ready: set<Candidate>)
    requires ValidCache(cache, capacity) && ValidEvent(event) && |event.selected| <= capacity
    ensures after == Serve(EventOrder, cache, event.selected, capacity)
    ensures hits == |Within(event.selected, cache)| && hits + misses == |event.selected|
    ensures ready == NowReady(issued, event, cache)
  {
    hide Within, Without, LastN;
    var required := event.selected;
    var rest := cache;
    hits, misses, ready := 0, 0, {};
    ghost var d := 0;
    ScanStart(cache, required);
    NoneReady(issued, event, cache);
    FilterNone([], cache);
    assert required[..0] == [];
    var i := 0;
    while i < |required|
      invariant 0 <= i <= |required| && d <= |Without(cache, required)|
      invariant Scanned(cache, required, i, d, rest)
      invariant |rest| + i <= capacity && (d > 0 ==> |rest| + i == capacity)
      invariant hits + misses == i
      invariant hits == |Within(required[..i], cache)|
      invariant ready == ReadyUpTo(issued, event, cache, i)
    {
      var x := required[i];
      LaterDiffer(required, i);
      assert x in required[i..];
      assert required[..i + 1] == required[..i] + [x];
      FilterSnoc(required[..i], x, cache);
      ReadyNext(issued, event, cache, i);
      if x in rest {
        hits := hits + 1;
        if Candidate(event.layerId, x) in issued {
          ready := ready + {Candidate(event.layerId, x)};
        }
        PromoteScanned(cache, required, i, d, rest);
        RemovedOne(rest, x);
        rest := Without(rest, [x]);
      } else {
        misses := misses + 1;
        while |rest| + i >= capacity
          invariant d <= |Without(cache, required)|
          invariant Scanned(cache, required, i, d, rest)
          invariant |rest| + i <= capacity && (d > 0 ==> capacity - 1 <= |rest| + i)
          invariant x !in rest
          decreases |rest|
        {
          var victim := FindVictim(rest, required);
          if victim.None? {
            VictimExists(rest, required, i, capacity);
            assert false;
          }
          var v := victim.value;
          EvictScanned(cache, required, i, d, rest, v);
          rest := rest[..v] + rest[v + 1..];
          d := d + 1;
        }
        AdmitScanned(cache, required, i, d, rest);
      }
      i := i + 1;
    }
    assert required[..i] == required;
    ScanEnd(cache, required, d, rest);
    LastNSuffix(Without(cache, required), d, capacity - |required|);
    after := rest + required;
    ReadyAll(issued, event, cache);
  }

  lemma {:induction false} RemovedOne(rest: seq<nat>, x: nat)
    requires Distinct(rest) && x in rest
    ensures |Without(rest, [x])| == |rest| - 1
  {
    RemoveAt(rest, IndexOf(rest, x));
  }

  /** The issued experts among the first `i` of the event that were resident. */
  function ReadyUpTo(issued: set<Candidate>, event: RouterTraceEvent, cache: seq<nat>, i: nat): set<Candidate>
    requires i <= |event.selected|
  {
    set c | c in issued && c.layer == event.layerId && c.expert in event.selected[..i] && c.expert in cache
  }

  lemma {:induction false} NoneReady(issued: set<Candidate>, event: RouterTraceEvent, cache: seq<nat>)
    ensures ReadyUpTo(issued, event, cache, 0) == {}
  {
  }

  lemma {:induction false} ReadyNext(issued: set<Candidate>, event: RouterTraceEvent, cache: seq<nat>, i: nat)
    requires i < |event.selected|
    ensures ReadyUpTo(issued, event, cache, i + 1) == ReadyUpTo(issued, event, cache, i)
      + if event.selected[i] in cache && Candidate(event.layerId, event.selected[i]) in issued
        then {Candidate(event.layerId, event.selected[i])} else {}
  {
    var x := event.selected[i];
    assert event.selected[..i + 1] == event.selected[..i] + [x];
    forall c: Candidate | c.layer == event.layerId && c.expert == x
      ensures c == Candidate(event.layerId, x)
    {
    }
  }

  lemma {:induction false} ReadyAll(issued: set<Candidate>, event: RouterTraceEvent, cache: seq<nat>)
    ensures ReadyUpTo(issued, event, cache, |event.selected|) == NowReady(issued, event, cache)
  {
    assert event.selected[..|event.selected|] == event.selected;
  }

  /** All the demands of one step, in order, against the shared caches. */
  method ServeStep(caches: map<nat, seq<nat>>, issued: set<Candidate>, step: seq<RouterTraceEvent>, capacity: nat)
    returns (after: map<nat, seq<nat>>, hits: nat, misses: nat, ready: set<Candidate>)
    requires ValidCaches(caches, capacity) && ValidTrace(step) && Narrow(step, capacity)
    ensures Consumption(after, hits, ready) == Consume(caches, issued, step, capacity)
    ensures hits + misses == StepSize(step)
  {
    hide Serve, Within, NowReady, Consume, Distinct;
    after, hits, misses, ready := caches, 0, 0, {};
    NothingConsumed(caches, issued, capacity);
    assert step[..0] == [];
    var i := 0;
    while i < |step|
      invariant 0 <= i <= |step|
      invariant Narrow(step[..i], capacity)
      invariant Consumption(after, hits, ready) == Consume(caches, issued, step[..i], capacity)
      invariant hits + misses == StepSize(step[..i])
    {
      var event := step[i];
      var cache := CacheOf(after, event.layerId);
      ConsumeGood(caches, issued, step[..i], capacity);
      EmptyValid(capacity);
      ConsumeSnoc(caches, issued, step[..i], event, capacity);
      StepSizeSnoc(step[..i], event);
      assert step[..i + 1] == step[..i] + [event];
      var served, h, m, r := ConsumeDemand(cache, event, capacity, issued);
      after := after[event.layerId := served];
      hits, misses, ready := hits + h, misses + m, ready + r;
      i := i + 1;
    }
    assert step[..i] == step;
  }

  lemma {:induction false} StepSizeSnoc(step: seq<RouterTraceEvent>, event: RouterTraceEvent)
    ensures StepSize(step + [event]) == StepSize(step) + |event.selected|
  {
    assert (step + [event])[..|step|] == step;
  }

  // ---- Issuing transfers ----

  /** The candidates in order; the loop ends early once the budget is spent. */
  method IssueTransfers(caches: map<nat, seq<nat>>, scored: seq<Candidate>, step: seq<RouterTraceEvent>,
                        capacity: nat, max: nat)
    returns (t: Transfers)
    ensures t == Offers(Begin(caches, max), scored, step, capacity)
  {
    hide Offer, Offers;
    t := Begin(caches, max);
    OffersNone(t, step, capacity);
    assert scored[..0] == [];
    var i := 0;
    while i < |scored|
      invariant 0 <= i <= |scored|
      invariant t == Offers(Begin(caches, max), scored[..i], step, capacity)
    {
      if t.budget == 0 {
        break;
      }
      OffersNext(Begin(caches, max), scored[..i], scored[i], step, capacity);
      assert scored[..i + 1] == scored[..i] + [scored[i]];
      t := Offer(t, scored[i], step, capacity);
      i := i + 1;
    }
    OffersRest(Begin(caches, max), scored, i, step, capacity);
    assert scored[..|scored|] == scored;
  }

  lemma {:induction false} OffersNone(t: Transfers, step: seq<RouterTraceEvent>, capacity: nat)
    ensures Offers(t, [], step, capacity) == t
  {
  }

  lemma {:induction false} OffersNext(t: Transfers, head: seq<Candidate>, c: Candidate, step: seq<RouterTraceEvent>,
                                      capacity: nat)
    requires Offers(t, head, step, capacity).budget > 0
    ensures Offers(t, head + [c], step, capacity) == Offer(Offers(t, head, step, capacity), c, step, capacity)
  {
    hide Offer;
    assert (head + [c])[..|head|] == head;
  }

  lemma {:induction false} OffersRest(t: Transfers, scored: seq<Candidate>, i: nat, step: seq<RouterTraceEvent>,
                                      capacity: nat)
    requires i <= |scored|
    requires i == |scored| || Offers(t, scored[..i], step, capacity).budget == 0
    ensures Offers(t, scored, step, capacity) == Offers(t, scored[..i], step, capacity)
    decreases |scored| - i
  {
    hide Offer, Offers;
    if i == |scored| {
      assert scored[..i] == scored;
    } else {
      OffersSpent(t, scored[..i], scored[i], step, capacity);
      assert scored[..i + 1] == scored[..i] + [scored[i]];
      OffersRest(t, scored, i + 1, step, capacity);
    }
  }

  // ---- Scoring candidates ----

  /** Higher score first, then the smaller layer, then the smaller expert. */
  predicate Precedes(score: map<Candidate, nat>, a: Candidate, b: Candidate)
    requires a in score && b in score
  {
    || score[a] > score[b]
    || (score[a] == score[b] && (a.layer < b.layer || (a.layer == b.layer && a.expert < b.expert)))
  }

  lemma {:induction false} FirstExists(score: map<Candidate, nat>, rest: set<Candidate>) returns (c: Candidate)
    requires rest != {} && rest <= score.Keys
    ensures c in rest && forall d :: d in rest && d != c ==> Precedes(score, c, d)
    decreases |rest|
  {
    var z :| z in rest;
    c := z;
    if rest != {z} {
      assert rest == (rest - {z}) + {z};
      var b := FirstExists(score, rest - {z});
      if Precedes(score, b, z) {
        c := b;
      }
    }
  }

  /** The sorted list of a set of candidates. */
  ghost predicate InOrder(score: map<Candidate, nat>, chosen: set<Candidate>, scored: seq<Candidate>) {
    && Distinct(scored)
    && (forall c :: c in scored <==> c in chosen)
    && (forall c :: c in chosen ==> c in score)
    && (forall i, j :: 0 <= i < j < |scored| ==>
      scored[i] in score && scored[j] in score && Precedes(score, scored[i], scored[j]))
  }

  method SortCandidates(score: map<Candidate, nat>, chosen: set<Candidate>) returns (scored: seq<Candidate>)
    requires chosen <= score.Keys
    ensures InOrder(score, chosen, scored)
  {
    scored := [];
    var rest := chosen;
    while rest != {}
      invariant rest <= chosen
      invariant forall c :: c in scored <==> c in chosen && c !in rest
      invariant forall i, j :: 0 <= i < j < |scored| ==> Precedes(score, scored[i], scored[j])
      invariant forall i, c :: 0 <= i < |scored| && c in rest ==> Precedes(score, scored[i], c)
      decreases |rest|
    {
      ghost var first := FirstExists(score, rest);
      var c :| c in rest && forall d :: d in rest && d != c ==> Precedes(score, c, d);
      scored := scored + [c];
      rest := rest - {c};
    }
    forall i, j | 0 <= i < j < |scored|
      ensures scored[i] != scored[j]
    {
      assert Precedes(score, scored[i], scored[j]);
    }
  }

  /** How often the step demands each expert of each layer. */
  method CountStep(step: seq<RouterTraceEvent>) returns (count: map<Candidate, nat>)
    ensures forall c: Candidate :: c in count <==> c.expert in StepDemand(step, c.layer)
    ensures forall c: Candidate :: c in count ==> count[c] == multiset(StepDemand(step, c.layer))[c.expert]
  {
    hide StepDemand, Counts, PartDemand;
    count := map[];
    CountsNone();
    assert step[..0] == [];
    var i := 0;
    while i < |step|
      invariant 0 <= i <= |step|
      invariant Counts(count, step[..i], Event(0, []), 0)
    {
      var j := 0;
      CountsStart(count, step[..i], step[i]);
      while j < |step[i].selected|
        invariant 0 <= j <= |step[i].selected|
        invariant Counts(count, step[..i], step[i], j)
      {
        var c := Candidate(step[i].layerId, step[i].selected[j]);
        ghost var before := count;
        count := count[c := (if c in count then count[c] else 0) + 1];
        CountsNext(before, step[..i], step[i], j);
        j := j + 1;
      }
      CountsEnd(count, step[..i], step[i]);
      assert step[..i + 1] == step[..i] + [step[i]];
      i := i + 1;
    }
    assert step[..i] == step;
    CountsAll(count, step);
  }

  /** The demand of a layer after whole events and the first `j` experts of one more. */
  ghost function PartDemand(step: seq<RouterTraceEvent>, event: RouterTraceEvent, j: nat, layer: nat): seq<nat>
    requires j <= |event.selected|
  {
    StepDemand(step, layer) + if event.layerId == layer then event.selected[..j] else []
  }

  ghost predicate Counts(count: map<Candidate, nat>, step: seq<RouterTraceEvent>, event: RouterTraceEvent, j: nat)
    requires j <= |event.selected|
  {
    && (forall c: Candidate :: c in count <==> c.expert in PartDemand(step, event, j, c.layer))
    && (forall c: Candidate :: c in count ==> count[c] == multiset(PartDemand(step, event, j, c.layer))[c.expert])
  }

  lemma {:induction false} CountsNone()
    ensures Counts(map[], [], Event(0, []), 0)
  {
    NoStepDemand();
  }

  lemma {:induction false} CountsAll(count: map<Candidate, nat>, step: seq<RouterTraceEvent>)
    requires Counts(count, step, Event(0, []), 0)
    ensures forall c: Candidate :: c in count <==> c.expert in StepDemand(step, c.layer)
    ensures forall c: Candidate :: c in count ==> count[c] == multiset(StepDemand(step, c.layer))[c.expert]
  {
    hide StepDemand;
    forall layer: nat
      ensures PartDemand(step, Event(0, []), 0, layer) == StepDemand(step, layer)
    {
    }
  }

  lemma {:induction false} CountsStart(count: map<Candidate, nat>, step: seq<RouterTraceEvent>, event: RouterTraceEvent)
    requires Counts(count, step, Event(0, []), 0)
    ensures Counts(count, step, event, 0)
  {
    hide StepDemand;
    forall layer: nat
      ensures PartDemand(step, event, 0, layer) == PartDemand(step, Event(0, []), 0, layer)
    {
    }
  }

  lemma {:induction false} CountsNext(count: map<Candidate, nat>, step: seq<RouterTraceEvent>, event: RouterTraceEvent,
                                      j: nat)
    requires j < |event.selected| && Counts(count, step, event, j)
    ensures var c := Candidate(event.layerId, event.selected[j]);
            Counts(count[c := (if c in count then count[c] else 0) + 1], step, event, j + 1)
  {
    hide StepDemand, PartDemand;
    var x := event.selected[j];
    var c := Candidate(event.layerId, x);
    var after := count[c := (if c in count then count[c] else 0) + 1];
    forall d: Candidate
      ensures d in after <==> d.expert in PartDemand(step, event, j + 1, d.layer)
      ensures d in after ==> after[d] == multiset(PartDemand(step, event, j + 1, d.layer))[d.expert]
    {
      assert d == Candidate(d.layer, d.expert);
      PartDemandNext(step, event, j, d.layer);
    }
  }

  lemma {:induction false} PartDemandNext(step: seq<RouterTraceEvent>, event: RouterTraceEvent, j: nat, layer: nat)
    requires j < |event.selected|
    ensures PartDemand(step, event, j + 1, layer)
         == PartDemand(step, event, j, layer) + if event.layerId == layer then [event.selected[j]] else []
  {
    hide StepDemand;
    assert event.selected[..j + 1] == event.selected[..j] + [event.selected[j]];
  }

  lemma {:induction false} CountsEnd(count: map<Candidate, nat>, step: seq<RouterTraceEvent>, event: RouterTraceEvent)
    requires Counts(count, step, event, |event.selected|)
    ensures Counts(count, step + [event], Event(0, []), 0)
  {
    hide StepDemand;
    forall layer: nat
      ensures PartDemand(step + [event], Event(0, []), 0, layer) == PartDemand(step, event, |event.selected|, layer)
    {
      StepDemandSnoc(step, event, layer);
    }
  }
}
