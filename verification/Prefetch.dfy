/**
 One step of the concurrent prefetch simulator.  All conversations share one cache per layer; before
 the step's demands are served, up to a fixed number of predicted experts are transferred in.
 */
module Prefetch {
  import opened Trace
  import opened LruEngine
  import opened ReuseDistance
  import opened CacheSim

  datatype Candidate = Candidate(layer: nat, expert: nat)

  datatype Transfers = Transfers(caches: map<nat, seq<nat>>, issued: set<Candidate>, budget: nat)

  datatype Consumption = Consumption(caches: map<nat, seq<nat>>, hits: nat, ready: set<Candidate>)

  ghost predicate ValidCaches(caches: map<nat, seq<nat>>, capacity: nat) {
    forall layer :: layer in caches ==> ValidCache(caches[layer], capacity)
  }

  /** What the step demands of one layer, over all its events. */
  function StepDemand(step: seq<RouterTraceEvent>, layer: nat): seq<nat> {
    Flatten(OnLayer(step, layer))
  }

  /** Transfers already issued and experts the step demands must not be evicted. */
  predicate Protected(step: seq<RouterTraceEvent>, issued: set<Candidate>, layer: nat, expert: nat) {
    Candidate(layer, expert) in issued || expert in StepDemand(step, layer)
  }

  /** The oldest entry that may be evicted. */
  function Victim(cache: seq<nat>, step: seq<RouterTraceEvent>, issued: set<Candidate>, layer: nat): (v: Option<nat>)
    ensures v.Some? ==> v.value < |cache| && !Protected(step, issued, layer, cache[v.value])
    ensures v.None? ==> forall i :: 0 <= i < |cache| ==> Protected(step, issued, layer, cache[i])
  {
    if cache == [] then None
    else
      var n := |cache| - 1;
      var v := Victim(cache[..n], step, issued, layer);
      if v.Some? then v
      else if Protected(step, issued, layer, cache[n]) then None
      else Some(n)
  }

  /** One candidate: transferred if its layer has, or can make, room for it. */
  function Offer(t: Transfers, c: Candidate, step: seq<RouterTraceEvent>, capacity: nat): Transfers
    requires t.budget > 0
  {
    var cache := CacheOf(t.caches, c.layer);
    if c.expert in cache then t
    else if |cache| < capacity then
      Transfers(t.caches[c.layer := cache + [c.expert]], t.issued + {c}, t.budget - 1)
    else
      match Victim(cache, step, t.issued, c.layer)
      case None => t
      case Some(v) =>
        Transfers(t.caches[c.layer := cache[..v] + cache[v + 1..] + [c.expert]], t.issued + {c}, t.budget - 1)
  }

  /** The candidates in order, until the budget is spent. */
  function Offers(t: Transfers, scored: seq<Candidate>, step: seq<RouterTraceEvent>, capacity: nat): Transfers {
    if scored == [] then t
    else
      var n := |scored| - 1;
      var before := Offers(t, scored[..n], step, capacity);
      if before.budget == 0 then before else Offer(before, scored[n], step, capacity)
  }

  /** The step's demands, served in order against the shared caches. */
  function Consume(caches: map<nat, seq<nat>>, issued: set<Candidate>, step: seq<RouterTraceEvent>,
                   capacity: nat): Consumption
    requires Narrow(step, capacity)
  {
    if step == [] then Consumption(caches, 0, {})
    else
      var n := |step| - 1;
      var before := Consume(caches, issued, step[..n], capacity);
      var event := step[n];
      var cache := CacheOf(before.caches, event.layerId);
      Consumption(before.caches[event.layerId := Serve(EventOrder, cache, event.selected, capacity)],
                  before.hits + |Within(event.selected, cache)|,
                  before.ready + NowReady(issued, event, cache))
  }

  /** The issued experts that this event finds resident. */
  function NowReady(issued: set<Candidate>, event: RouterTraceEvent, cache: seq<nat>): set<Candidate> {
    set c | c in issued && c.layer == event.layerId && c.expert in event.selected && c.expert in cache
  }

  // ---- Every mode ----

  /** Every issued expert is resident, and was not when the step began. */
  ghost predicate IssuedResident(start: map<nat, seq<nat>>, t: Transfers) {
    forall c :: c in t.issued ==> c.expert in CacheOf(t.caches, c.layer) && c.expert !in CacheOf(start, c.layer)
  }

  /** No expert that the step demands has been evicted. */
  ghost predicate DemandKept(start: map<nat, seq<nat>>, t: Transfers, step: seq<RouterTraceEvent>) {
    forall layer: nat, x: nat ::
      x in CacheOf(start, layer) && x in StepDemand(step, layer) ==> x in CacheOf(t.caches, layer)
  }

  /** Whatever is resident was resident before or has been issued. */
  ghost predicate Sourced(start: map<nat, seq<nat>>, t: Transfers) {
    forall layer: nat, x: nat ::
      x in CacheOf(t.caches, layer) ==> x in CacheOf(start, layer) || Candidate(layer, x) in t.issued
  }

  /** What the transfers of a step preserve. */
  ghost predicate GoodTransfers(start: map<nat, seq<nat>>, max: nat, t: Transfers, step: seq<RouterTraceEvent>,
                                capacity: nat) {
    && ValidCaches(t.caches, capacity)
    && |t.issued| + t.budget == max
    && IssuedResident(start, t)
    && DemandKept(start, t, step)
    && Sourced(start, t)
  }

  lemma {:induction false} Replace(cache: seq<nat>, v: nat, x: nat)
    requires Distinct(cache) && v < |cache| && x !in cache
    ensures var r := cache[..v] + cache[v + 1..] + [x];
            && Distinct(r) && |r| == |cache|
            && forall y :: y in r <==> (y in cache && y != cache[v]) || y == x
  {
    RemoveAt(cache, v);
    FilterElems(cache, [cache[v]]);
    FilterDistinct(cache, [cache[v]]);
    DistinctConcat(cache[..v] + cache[v + 1..], [x]);
  }

  lemma {:induction false} OfferGood(start: map<nat, seq<nat>>, max: nat, t: Transfers, c: Candidate,
                                     step: seq<RouterTraceEvent>, capacity: nat)
    requires GoodTransfers(start, max, t, step, capacity) && t.budget > 0
    requires c.expert !in CacheOf(start, c.layer)
    ensures GoodTransfers(start, max, Offer(t, c, step, capacity), step, capacity)
  {
    hide StepDemand, Distinct;
    var cache := CacheOf(t.caches, c.layer);
    assert ValidCache(cache, capacity) by { EmptyValid(capacity); }
    if c.expert in cache {
    } else if |cache| < capacity {
      DistinctConcat(cache, [c.expert]) by { OneDistinct(c.expert); }
      Enlarged(start, max, t, c, cache + [c.expert], step, capacity);
    } else if Victim(cache, step, t.issued, c.layer).Some? {
      var v := Victim(cache, step, t.issued, c.layer).value;
      Replace(cache, v, c.expert);
      Enlarged(start, max, t, c, cache[..v] + cache[v + 1..] + [c.expert], step, capacity);
    }
  }

  lemma {:induction false} EmptyValid(capacity: nat)
    ensures ValidCache([], capacity)
  {
  }

  lemma {:induction false} OneDistinct(x: nat)
    ensures Distinct([x])
  {
  }

  lemma {:induction false} Enlarged(start: map<nat, seq<nat>>, max: nat, t: Transfers, c: Candidate, after: seq<nat>,
                                    step: seq<RouterTraceEvent>, capacity: nat)
    requires GoodTransfers(start, max, t, step, capacity) && t.budget > 0
    requires c.expert !in CacheOf(start, c.layer)
    requires ValidCache(after, capacity) && c.expert in after && c.expert !in CacheOf(t.caches, c.layer)
    requires forall y :: y in after ==> y in CacheOf(t.caches, c.layer) || y == c.expert
    requires forall y :: y in CacheOf(t.caches, c.layer) && Protected(step, t.issued, c.layer, y) ==> y in after
    ensures GoodTransfers(start, max, Transfers(t.caches[c.layer := after], t.issued + {c}, t.budget - 1), step,
      capacity)
  {
    hide StepDemand, Distinct;
    var u := Transfers(t.caches[c.layer := after], t.issued + {c}, t.budget - 1);
    assert c !in t.issued;
    forall d | d in u.issued
      ensures d.expert in CacheOf(u.caches, d.layer) && d.expert !in CacheOf(start, d.layer)
    {
      if d != c && d.layer == c.layer {
        assert Candidate(d.layer, d.expert) == d;
        assert Protected(step, t.issued, c.layer, d.expert);
      }
    }
    assert IssuedResident(start, u);
    EnlargedKept(start, t, u, c, step, after);
    EnlargedSourced(start, t, u, c, after);
  }

  lemma {:induction false} EnlargedKept(start: map<nat, seq<nat>>, t: Transfers, u: Transfers, c: Candidate,
                                        step: seq<RouterTraceEvent>, after: seq<nat>)
    requires DemandKept(start, t, step) && u.caches == t.caches[c.layer := after]
    requires forall y :: y in CacheOf(t.caches, c.layer) && Protected(step, t.issued, c.layer, y) ==> y in after
    ensures DemandKept(start, u, step)
  {
    hide StepDemand;
    forall layer: nat, x: nat | x in CacheOf(start, layer) && x in StepDemand(step, layer)
      ensures x in CacheOf(u.caches, layer)
    {
      assert x in CacheOf(t.caches, layer);
      if layer == c.layer {
        assert Protected(step, t.issued, layer, x);
      }
    }
  }

  lemma {:induction false} EnlargedSourced(start: map<nat, seq<nat>>, t: Transfers, u: Transfers, c: Candidate,
                                           after: seq<nat>)
    requires Sourced(start, t) && u.caches == t.caches[c.layer := after] && u.issued == t.issued + {c}
    requires forall y :: y in after ==> y in CacheOf(t.caches, c.layer) || y == c.expert
    ensures Sourced(start, u)
  {
    forall layer: nat, x: nat | x in CacheOf(u.caches, layer)
      ensures x in CacheOf(start, layer) || Candidate(layer, x) in u.issued
    {
      if layer == c.layer && x == c.expert {
        assert Candidate(layer, x) == c;
      } else {
        assert x in CacheOf(t.caches, layer);
      }
    }
  }

  /** Candidates are experts that their layer does not hold when the step begins, each listed once. */
  ghost predicate Scored(start: map<nat, seq<nat>>, scored: seq<Candidate>) {
    && Distinct(scored)
    && forall i :: 0 <= i < |scored| ==> scored[i].expert !in CacheOf(start, scored[i].layer)
  }

  function Begin(caches: map<nat, seq<nat>>, max: nat): Transfers {
    Transfers(caches, {}, max)
  }

  /**
   In every mode: the transfers keep every cache valid, never evict an expert that the step demands
   or that was just issued, and never exceed the budget.
   */
  lemma {:induction false} OffersGood(start: map<nat, seq<nat>>, max: nat, scored: seq<Candidate>,
                                      step: seq<RouterTraceEvent>, capacity: nat)
    requires ValidCaches(start, capacity) && Scored(start, scored)
    ensures GoodTransfers(start, max, Offers(Begin(start, max), scored, step, capacity), step, capacity)
    ensures forall c :: c in Offers(Begin(start, max), scored, step, capacity).issued ==> c in scored
  {
    hide StepDemand, GoodTransfers, Offer;
    if scored == [] {
      BeginGood(start, max, step, capacity);
    } else {
      var n := |scored| - 1;
      OffersGood(start, max, scored[..n], step, capacity);
      var before := Offers(Begin(start, max), scored[..n], step, capacity);
      assert scored == scored[..n] + [scored[n]];
      if before.budget > 0 {
        OfferGood(start, max, before, scored[n], step, capacity);
        OfferIssues(before, scored[n], step, capacity);
      }
    }
  }

  lemma {:induction false} BeginGood(start: map<nat, seq<nat>>, max: nat, step: seq<RouterTraceEvent>, capacity: nat)
    requires ValidCaches(start, capacity)
    ensures GoodTransfers(start, max, Begin(start, max), step, capacity)
  {
  }

  lemma {:induction false} OfferIssues(t: Transfers, c: Candidate, step: seq<RouterTraceEvent>, capacity: nat)
    requires t.budget > 0
    ensures Offer(t, c, step, capacity).issued <= t.issued + {c}
  {
  }

  lemma {:induction false} ConsumeSnoc(caches: map<nat, seq<nat>>, issued: set<Candidate>, step: seq<RouterTraceEvent>,
                                       event: RouterTraceEvent, capacity: nat)
    requires Narrow(step, capacity) && |event.selected| <= capacity
    ensures Narrow(step + [event], capacity)
    ensures var before := Consume(caches, issued, step, capacity);
            var cache := CacheOf(before.caches, event.layerId);
            Consume(caches, issued, step + [event], capacity) == Consumption(
              before.caches[event.layerId := Serve(EventOrder, cache, event.selected, capacity)],
              before.hits + |Within(event.selected, cache)|,
              before.ready + NowReady(issued, event, cache))
  {
    hide Serve, Within, NowReady;
    assert (step + [event])[..|step|] == step;
  }

  function StepSize(step: seq<RouterTraceEvent>): nat {
    if step == [] then 0 else StepSize(step[..|step| - 1]) + |step[|step| - 1].selected|
  }

  /** In every mode: caches stay valid, only issued transfers become ready, hits never exceed demand. */
  lemma {:induction false} ConsumeGood(caches: map<nat, seq<nat>>, issued: set<Candidate>, step: seq<RouterTraceEvent>,
                                       capacity: nat)
    requires ValidCaches(caches, capacity) && ValidTrace(step) && Narrow(step, capacity)
    ensures ValidCaches(Consume(caches, issued, step, capacity).caches, capacity)
    ensures Consume(caches, issued, step, capacity).ready <= issued
    ensures Consume(caches, issued, step, capacity).hits <= StepSize(step)
  {
    hide Serve, Within, Distinct;
    if step != [] {
      var n := |step| - 1;
      ConsumeGood(caches, issued, step[..n], capacity);
      var before := Consume(caches, issued, step[..n], capacity);
      var cache := CacheOf(before.caches, step[n].layerId);
      assert ValidCache(cache, capacity) by { EmptyValid(capacity); }
      ServeValid(EventOrder, cache, step[n].selected, capacity);
      FilterElems(step[n].selected, cache);
    }
  }

  // ---- The oracle ----

  /** The oracle's candidates: everything the step demands that is not resident when it begins. */
  ghost predicate OracleScored(start: map<nat, seq<nat>>, step: seq<RouterTraceEvent>, scored: seq<Candidate>) {
    && Distinct(scored)
    && forall c: Candidate ::
         c in scored <==> c.expert in StepDemand(step, c.layer) && c.expert !in CacheOf(start, c.layer)
  }

  /** The step demands at most `capacity` distinct experts of every layer. */
  ghost predicate StepFits(step: seq<RouterTraceEvent>, capacity: nat) {
    forall layer: nat :: |Elems(StepDemand(step, layer))| <= capacity
  }

  /** While the step fits and budget is left, the oracle always finds room. */
  lemma {:induction false} OracleOfferIssues(start: map<nat, seq<nat>>, max: nat, t: Transfers, c: Candidate,
                                             step: seq<RouterTraceEvent>, capacity: nat)
    requires GoodTransfers(start, max, t, step, capacity) && t.budget > 0
    requires StepFits(step, capacity)
    requires c !in t.issued && c.expert in StepDemand(step, c.layer) && c.expert !in CacheOf(start, c.layer)
    requires forall d :: d in t.issued ==> d.expert in StepDemand(step, d.layer)
    ensures Offer(t, c, step, capacity).issued == t.issued + {c}
  {
    hide StepDemand;
    var cache := CacheOf(t.caches, c.layer);
    assert Candidate(c.layer, c.expert) == c;
    assert c.expert !in cache;
    if |cache| >= capacity {
      assert cache == [] || ValidCache(cache, capacity);
      var v := Victim(cache, step, t.issued, c.layer);
      if v.None? {
        var all := Elems(StepDemand(step, c.layer));
        forall x | x in cache
          ensures x in all
        {
          var i :| 0 <= i < |cache| && cache[i] == x;
          assert Protected(step, t.issued, c.layer, x);
        }
        TooManyProtected(cache, all, c.expert);
      }
    }
  }

  lemma {:induction false} TooManyProtected(cache: seq<nat>, all: set<nat>, x: nat)
    requires Distinct(cache) && x in all && x !in cache
    requires forall y :: y in cache ==> y in all
    ensures |cache| < |all|
  {
    DistinctCard(cache);
    SubsetCard(Elems(cache), all);
  }

  /** When the step fits, the oracle issues min(budget, candidates) transfers. */
  lemma {:induction false} OracleIssues(start: map<nat, seq<nat>>, max: nat, scored: seq<Candidate>,
                                        step: seq<RouterTraceEvent>, capacity: nat)
    requires ValidCaches(start, capacity) && Scored(start, scored) && StepFits(step, capacity)
    requires forall c :: c in scored ==> c.expert in StepDemand(step, c.layer)
    ensures |Offers(Begin(start, max), scored, step, capacity).issued| == Min(max, |scored|)
    ensures forall c :: c in Offers(Begin(start, max), scored, step, capacity).issued ==> c in scored
    ensures Offers(Begin(start, max), scored, step, capacity).budget == max - Min(max, |scored|)
  {
    hide StepDemand, Offer, StepFits, GoodTransfers, Distinct, ValidCaches;
    OffersGood(start, max, scored, step, capacity);
    GoodBudget(start, max, Offers(Begin(start, max), scored, step, capacity), step, capacity);
    if scored != [] {
      var n := |scored| - 1;
      var head, c := scored[..n], scored[n];
      assert scored == head + [c];
      ScoredHead(start, head, c);
      OracleIssues(start, max, head, step, capacity);
      OffersGood(start, max, head, step, capacity);
      var before := Offers(Begin(start, max), head, step, capacity);
      if before.budget > 0 {
        LastCandidateIsNew(head, c);
        OracleOfferIssues(start, max, before, c, step, capacity);
      }
    }
  }

  lemma {:induction false} ScoredHead(start: map<nat, seq<nat>>, head: seq<Candidate>, c: Candidate)
    requires Scored(start, head + [c])
    ensures Scored(start, head) && c.expert !in CacheOf(start, c.layer)
  {
    var all := head + [c];
    assert all[|head|] == c;
    assert forall i :: 0 <= i < |head| ==> all[i] == head[i];
  }

  lemma {:induction false} LastCandidateIsNew(head: seq<Candidate>, c: Candidate)
    requires Distinct(head + [c])
    ensures c !in head
  {
    var all := head + [c];
    assert forall i :: 0 <= i < |head| ==> all[i] == head[i] && all[i] != all[|head|];
  }

  lemma {:induction false} GoodBudget(start: map<nat, seq<nat>>, max: nat, t: Transfers, step: seq<RouterTraceEvent>,
                                      capacity: nat)
    requires GoodTransfers(start, max, t, step, capacity)
    ensures |t.issued| + t.budget == max
  {
  }
}
