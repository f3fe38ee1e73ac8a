/**
 What the transfers of a step come to, said without the loop that makes them: which candidates are
 issued, and what every cache holds afterwards.
 */
module PrefetchLaw {
  import opened Trace
  import opened LruEngine
  import opened CacheSim
  import opened Prefetch
  import opened PrefetchOracle
  import opened PrefetchReady

  /** The issued experts of one layer, in the order of the candidates. */
  function IssuedOn(scored: seq<Candidate>, issued: set<Candidate>, layer: nat): seq<nat> {
    if scored == [] then []
    else
      var n := |scored| - 1;
      IssuedOn(scored[..n], issued, layer)
        + if scored[n].layer == layer && scored[n] in issued then [scored[n].expert] else []
  }

  function IssuedCount(scored: seq<Candidate>, issued: set<Candidate>): nat {
    if scored == [] then 0
    else IssuedCount(scored[..|scored| - 1], issued) + if scored[|scored| - 1] in issued then 1 else 0
  }

  /** A cache without its `k` oldest entries outside `demanded`. */
  function DropOldest(cache: seq<nat>, demanded: seq<nat>, k: nat): seq<nat> {
    if cache == [] then []
    else
      var n := |cache| - 1;
      DropOldest(cache[..n], demanded, k)
        + if cache[n] in demanded || |Without(cache[..n], demanded)| >= k then [cache[n]] else []
  }

  function Excess(size: nat, capacity: nat): nat {
    if size > capacity then size - capacity else 0
  }

  /** The budget is not spent, and the layer has room beside its demanded residents and its earlier transfers. */
  predicate Admitted(start: map<nat, seq<nat>>, max: nat, scored: seq<Candidate>, step: seq<RouterTraceEvent>,
                     capacity: nat, issued: set<Candidate>, i: nat)
    requires i < |scored|
  {
    var layer := scored[i].layer;
    && IssuedCount(scored[..i], issued) < max
    && |Within(CacheOf(start, layer), StepDemand(step, layer))| + |IssuedOn(scored[..i], issued, layer)| < capacity
  }

  /** What a layer's cache is after the transfers. */
  function Transferred(cache: seq<nat>, demanded: seq<nat>, added: seq<nat>, capacity: nat): seq<nat> {
    DropOldest(cache, demanded, Excess(|cache| + |added|, capacity)) + added
  }

  ghost predicate Lawful(start: map<nat, seq<nat>>, max: nat, scored: seq<Candidate>, step: seq<RouterTraceEvent>,
                         capacity: nat, t: Transfers) {
    && |t.issued| + t.budget == max
    && (forall c :: c in t.issued ==> c in scored)
    && (forall i :: 0 <= i < |scored| ==>
          (scored[i] in t.issued <==> Admitted(start, max, scored, step, capacity, t.issued, i)))
    && (forall layer: nat :: CacheOf(t.caches, layer)
          == Transferred(CacheOf(start, layer), StepDemand(step, layer), IssuedOn(scored, t.issued, layer), capacity))
  }

  // ---- Dropping the oldest ----

  lemma {:induction false} DropNothing(cache: seq<nat>, demanded: seq<nat>)
    ensures DropOldest(cache, demanded, 0) == cache
  {
    if cache != [] {
      DropNothing(cache[..|cache| - 1], demanded);
    }
  }

  lemma {:induction false} DropSize(cache: seq<nat>, demanded: seq<nat>, k: nat)
    ensures |DropOldest(cache, demanded, k)| == |cache| - Min(k, |Without(cache, demanded)|)
    ensures forall x :: x in DropOldest(cache, demanded, k) ==> x in cache
  {
    if cache != [] {
      DropSize(cache[..|cache| - 1], demanded, k);
    }
  }

  /** Once everything that is not demanded is dropped, nothing more is. */
  lemma {:induction false} DropAll(cache: seq<nat>, demanded: seq<nat>, k: nat)
    requires |Without(cache, demanded)| <= k
    ensures forall i :: 0 <= i < |DropOldest(cache, demanded, k)| ==> DropOldest(cache, demanded, k)[i] in demanded
    ensures DropOldest(cache, demanded, k + 1) == DropOldest(cache, demanded, k)
  {
    if cache != [] {
      DropAll(cache[..|cache| - 1], demanded, k);
    }
  }

  /** The next to drop is the first entry left that is not demanded. */
  lemma {:induction false} DropNext(cache: seq<nat>, demanded: seq<nat>, k: nat) returns (v: nat)
    requires k < |Without(cache, demanded)|
    ensures var left := DropOldest(cache, demanded, k);
            && v < |left| && left[v] !in demanded && (forall j :: 0 <= j < v ==> left[j] in demanded)
            && left[..v] + left[v + 1..] == DropOldest(cache, demanded, k + 1)
  {
    hide DropOldest;
    var head, last := cache[..|cache| - 1], cache[|cache| - 1];
    assert cache == head + [last];
    DropSnoc(head, last, demanded, k);
    DropSnoc(head, last, demanded, k + 1);
    var left := DropOldest(head, demanded, k);
    if k < |Without(head, demanded)| {
      v := DropNext(head, demanded, k);
      assert (left + [last])[..v] + (left + [last])[v + 1..] == (left[..v] + left[v + 1..]) + [last];
    } else {
      DropAll(head, demanded, k);
      v := |left|;
      assert (left + [last])[..v] + (left + [last])[v + 1..] == left;
    }
  }

  lemma {:induction false} DropSnoc(head: seq<nat>, last: nat, demanded: seq<nat>, k: nat)
    ensures DropOldest(head + [last], demanded, k) == DropOldest(head, demanded, k)
      + if last in demanded || |Without(head, demanded)| >= k then [last] else []
    ensures |Without(head + [last], demanded)| == |Without(head, demanded)| + if last in demanded then 0 else 1
  {
    assert (head + [last])[..|head|] == head;
  }

  lemma {:induction false} FirstIsVictim(cache: seq<nat>, step: seq<RouterTraceEvent>, issued: set<Candidate>,
                                         layer: nat, v: nat)
    requires v < |cache| && !Protected(step, issued, layer, cache[v])
    requires forall j :: 0 <= j < v ==> Protected(step, issued, layer, cache[j])
    ensures Victim(cache, step, issued, layer) == Some(v)
  {
    hide Protected;
    if v < |cache| - 1 {
      FirstIsVictim(cache[..|cache| - 1], step, issued, layer, v);
    }
  }

  // ---- Issued lists ----

  lemma {:induction false} IssuedMember(scored: seq<Candidate>, issued: set<Candidate>, layer: nat)
    ensures forall x :: x in IssuedOn(scored, issued, layer)
                   <==> Candidate(layer, x) in scored && Candidate(layer, x) in issued
  {
    if scored != [] {
      var n := |scored| - 1;
      IssuedMember(scored[..n], issued, layer);
      assert scored == scored[..n] + [scored[n]];
      assert scored[n] == Candidate(scored[n].layer, scored[n].expert);
    }
  }

  lemma {:induction false} IssuedSame(scored: seq<Candidate>, issued: set<Candidate>, more: set<Candidate>, layer: nat)
    requires forall c :: c in scored ==> (c in issued <==> c in more)
    ensures IssuedOn(scored, issued, layer) == IssuedOn(scored, more, layer)
    ensures IssuedCount(scored, issued) == IssuedCount(scored, more)
  {
    if scored != [] {
      IssuedSame(scored[..|scored| - 1], issued, more, layer);
    }
  }

  lemma {:induction false} IssuedSnoc(head: seq<Candidate>, c: Candidate, issued: set<Candidate>, layer: nat)
    ensures IssuedOn(head + [c], issued, layer)
         == IssuedOn(head, issued, layer) + if c.layer == layer && c in issued then [c.expert] else []
    ensures IssuedCount(head + [c], issued) == IssuedCount(head, issued) + if c in issued then 1 else 0
  {
    assert (head + [c])[..|head|] == head;
  }

  lemma {:induction false} CountIsSize(scored: seq<Candidate>, issued: set<Candidate>)
    requires Distinct(scored) && forall c :: c in issued ==> c in scored
    ensures IssuedCount(scored, issued) == |issued|
  {
    if scored == [] {
      assert issued == {};
    } else {
      var n := |scored| - 1;
      var c := scored[n];
      assert scored == scored[..n] + [c];
      LastCandidateIsNew(scored[..n], c);
      CountIsSize(scored[..n], issued - {c});
      IssuedSame(scored[..n], issued - {c}, issued, 0);
      assert issued == if c in issued then (issued - {c}) + {c} else issued - {c};
    }
  }

  // ---- The law ----

  /** The law does not mention the last candidate as long as it has not been issued. */
  lemma {:induction false} AdmittedHead(start: map<nat, seq<nat>>, max: nat, head: seq<Candidate>, c: Candidate,
                                        step: seq<RouterTraceEvent>, capacity: nat, issued: set<Candidate>,
                                        more: set<Candidate>, i: nat)
    requires i < |head| && c !in head && (more == issued || more == issued + {c})
    ensures Admitted(start, max, head + [c], step, capacity, more, i)
       <==> Admitted(start, max, head, step, capacity, issued, i)
  {
    hide Within, StepDemand;
    assert (head + [c])[..i] == head[..i] && (head + [c])[i] == head[i];
    forall d | d in head[..i]
      ensures d != c
    {
    }
    IssuedSame(head[..i], issued, more, head[i].layer);
  }

  lemma {:induction false} AdmittedLast(start: map<nat, seq<nat>>, max: nat, head: seq<Candidate>, c: Candidate,
                                        step: seq<RouterTraceEvent>, capacity: nat, issued: set<Candidate>,
                                        more: set<Candidate>)
    requires c !in head && (more == issued || more == issued + {c})
    ensures Admitted(start, max, head + [c], step, capacity, more, |head|)
       <==> IssuedCount(head, issued) < max
            && |Within(CacheOf(start, c.layer), StepDemand(step, c.layer))|
              + |IssuedOn(head, issued, c.layer)| < capacity
  {
    hide Within, StepDemand;
    assert (head + [c])[..|head|] == head;
    IssuedSame(head, issued, more, c.layer);
  }

  /** One offer on its own layer, in the terms of the law. */
  lemma {:induction false} OfferIs(start: map<nat, seq<nat>>, t: Transfers, c: Candidate, step: seq<RouterTraceEvent>,
                                   capacity: nat, added: seq<nat>)
    requires t.budget > 0
    requires ValidCache(CacheOf(t.caches, c.layer), capacity) && c.expert !in CacheOf(t.caches, c.layer)
    requires CacheOf(t.caches, c.layer)
          == Transferred(CacheOf(start, c.layer), StepDemand(step, c.layer), added, capacity)
    requires forall x :: x in CacheOf(start, c.layer) ==> Candidate(c.layer, x) !in t.issued
    requires forall x :: x in added ==> Candidate(c.layer, x) in t.issued
    ensures var cache, demanded := CacheOf(start, c.layer), StepDemand(step, c.layer);
            var u := Offer(t, c, step, capacity);
            if |Within(cache, demanded)| + |added| < capacity
            then
              && u.issued == t.issued + {c} && u.budget == t.budget - 1
              && u.caches == t.caches[c.layer := Transferred(cache, demanded, added + [c.expert], capacity)]
            else u == t
  {
    hide StepDemand, Within, Without, Distinct, DropOldest, Victim;
    var cache, demanded := CacheOf(start, c.layer), StepDemand(step, c.layer);
    var k := Excess(|cache| + |added|, capacity);
    var left, now := DropOldest(cache, demanded, k), CacheOf(t.caches, c.layer);
    FilterElems(cache, demanded);
    DropSize(cache, demanded, k);
    if |now| < capacity {
      assert k == 0;
      assert left + added + [c.expert] == left + (added + [c.expert]);
    } else if k < |Without(cache, demanded)| {
      var v := NextVictim(cache, step, t.issued, c.layer, k, added);
      CutOut(left, added, v, c.expert);
    } else {
      DropAll(cache, demanded, k);
      AllProtected(now, left, added, step, t.issued, c.layer);
    }
  }

  lemma {:induction false} CutOut(left: seq<nat>, added: seq<nat>, v: nat, x: nat)
    requires v < |left|
    ensures var now := left + added; now[..v] + now[v + 1..] + [x] == left[..v] + left[v + 1..] + (added + [x])
  {
  }

  lemma {:induction false} NextVictim(cache: seq<nat>, step: seq<RouterTraceEvent>, issued: set<Candidate>, layer: nat,
                                      k: nat, added: seq<nat>)
    returns (v: nat)
    requires k < |Without(cache, StepDemand(step, layer))|
    requires forall x :: x in cache ==> Candidate(layer, x) !in issued
    ensures var left := DropOldest(cache, StepDemand(step, layer), k);
            && v < |left| && Victim(left + added, step, issued, layer) == Some(v)
            && left[..v] + left[v + 1..] == DropOldest(cache, StepDemand(step, layer), k + 1)
  {
    hide StepDemand, Without, DropOldest, Victim;
    var demanded := StepDemand(step, layer);
    var left := DropOldest(cache, demanded, k);
    v := DropNext(cache, demanded, k);
    DropSize(cache, demanded, k);
    var now := left + added;
    assert now[v] == left[v] && left[v] in left;
    forall j | 0 <= j < v
      ensures Protected(step, issued, layer, now[j])
    {
      assert now[j] == left[j];
    }
    FirstIsVictim(now, step, issued, layer, v);
  }

  lemma {:induction false} AllProtected(now: seq<nat>, left: seq<nat>, added: seq<nat>, step: seq<RouterTraceEvent>,
                                        issued: set<Candidate>, layer: nat)
    requires now == left + added
    requires forall i :: 0 <= i < |left| ==> left[i] in StepDemand(step, layer)
    requires forall x :: x in added ==> Candidate(layer, x) in issued
    ensures Victim(now, step, issued, layer).None?
  {
    hide StepDemand;
    forall i | 0 <= i < |now|
      ensures Protected(step, issued, layer, now[i])
    {
      if i >= |left| {
        assert now[i] == added[i - |left|];
      }
    }
  }

  /**
   The transfers of a step, in every mode.  A candidate is issued exactly while the budget lasts and its
   layer's demanded residents and earlier transfers leave a slot.  Every cache loses as many of its
   oldest entries as it has to, never one that the step demands, and gains its transfers in order.
   */
  lemma {:induction false} OffersLawful(start: map<nat, seq<nat>>, max: nat, scored: seq<Candidate>,
                                        step: seq<RouterTraceEvent>, capacity: nat)
    requires ValidCaches(start, capacity) && Scored(start, scored)
    ensures Lawful(start, max, scored, step, capacity, Offers(Begin(start, max), scored, step, capacity))
  {
    hide StepDemand, Offer, Within, Distinct, ValidCaches, Transferred, Admitted, GoodTransfers, Lawful;
    if scored == [] {
      BeginLawful(start, max, step, capacity);
    } else {
      var n := |scored| - 1;
      var head, c := scored[..n], scored[n];
      assert scored == head + [c];
      ScoredHead(start, head, c);
      LastCandidateIsNew(head, c) by {
        assert Distinct(scored);
      }
      OffersLawful(start, max, head, step, capacity);
      OffersGood(start, max, head, step, capacity);
      var before := Offers(Begin(start, max), head, step, capacity);
      if before.budget == 0 {
        SpentLawful(start, max, head, c, step, capacity, before);
      } else {
        NextLawful(start, max, head, c, step, capacity, before);
      }
    }
  }

  lemma {:induction false} BeginLawful(start: map<nat, seq<nat>>, max: nat, step: seq<RouterTraceEvent>, capacity: nat)
    requires ValidCaches(start, capacity)
    ensures Lawful(start, max, [], step, capacity, Begin(start, max))
  {
    hide StepDemand, Distinct;
    forall layer: nat
      ensures CacheOf(start, layer) == Transferred(CacheOf(start, layer), StepDemand(step, layer), [], capacity)
    {
      EmptyValid(capacity);
      assert ValidCache(CacheOf(start, layer), capacity);
      DropNothing(CacheOf(start, layer), StepDemand(step, layer));
      assert CacheOf(start, layer) + [] == CacheOf(start, layer);
    }
  }

  /** A candidate that is not issued changes nothing. */
  lemma {:induction false} PassedLawful(start: map<nat, seq<nat>>, max: nat, head: seq<Candidate>, c: Candidate,
                                        step: seq<RouterTraceEvent>, capacity: nat, t: Transfers)
    requires Lawful(start, max, head, step, capacity, t) && c !in head
    requires !Admitted(start, max, head + [c], step, capacity, t.issued, |head|)
    ensures Lawful(start, max, head + [c], step, capacity, t)
  {
    hide StepDemand, Transferred, Admitted;
    var all := head + [c];
    forall i | 0 <= i < |all|
      ensures all[i] in t.issued <==> Admitted(start, max, all, step, capacity, t.issued, i)
    {
      if i < |head| {
        AdmittedHead(start, max, head, c, step, capacity, t.issued, t.issued, i);
      }
    }
    forall layer: nat
      ensures IssuedOn(all, t.issued, layer) == IssuedOn(head, t.issued, layer)
    {
      IssuedSnoc(head, c, t.issued, layer);
    }
  }

  lemma {:induction false} SpentLawful(start: map<nat, seq<nat>>, max: nat, head: seq<Candidate>, c: Candidate,
                                       step: seq<RouterTraceEvent>, capacity: nat, t: Transfers)
    requires Lawful(start, max, head, step, capacity, t) && c !in head && Distinct(head) && t.budget == 0
    ensures Lawful(start, max, head + [c], step, capacity, t)
  {
    hide StepDemand, Transferred, Admitted, Distinct;
    LawfulIssued(start, max, head, step, capacity, t);
    CountIsSize(head, t.issued);
    AdmittedLast(start, max, head, c, step, capacity, t.issued, t.issued);
    PassedLawful(start, max, head, c, step, capacity, t);
  }

  lemma {:induction false} LawfulIssued(start: map<nat, seq<nat>>, max: nat, scored: seq<Candidate>,
                                        step: seq<RouterTraceEvent>, capacity: nat, t: Transfers)
    requires Lawful(start, max, scored, step, capacity, t)
    ensures |t.issued| + t.budget == max && forall c :: c in t.issued ==> c in scored
  {
    hide Admitted, Transferred, StepDemand;
  }

  lemma {:induction false} NextLawful(start: map<nat, seq<nat>>, max: nat, head: seq<Candidate>, c: Candidate,
                                      step: seq<RouterTraceEvent>, capacity: nat, t: Transfers)
    requires Lawful(start, max, head, step, capacity, t) && GoodTransfers(start, max, t, step, capacity)
    requires Scored(start, head) && c !in head && c.expert !in CacheOf(start, c.layer) && t.budget > 0
    ensures Lawful(start, max, head + [c], step, capacity, Offer(t, c, step, capacity))
  {
    hide StepDemand, Transferred, Admitted, Offer, Within, Lawful, GoodTransfers;
    var added := IssuedOn(head, t.issued, c.layer);
    LawfulIssued(start, max, head, step, capacity, t);
    CountIsSize(head, t.issued);
    BeforeOffer(start, max, head, c, step, capacity, t);
    OfferIs(start, t, c, step, capacity, added);
    var u := Offer(t, c, step, capacity);
    AdmittedLast(start, max, head, c, step, capacity, t.issued, u.issued);
    if |Within(CacheOf(start, c.layer), StepDemand(step, c.layer))| + |added| < capacity {
      IssuedLawful(start, max, head, c, step, capacity, t, u);
    } else {
      PassedLawful(start, max, head, c, step, capacity, t);
    }
  }

  lemma {:induction false} BeforeOffer(start: map<nat, seq<nat>>, max: nat, head: seq<Candidate>, c: Candidate,
                                       step: seq<RouterTraceEvent>, capacity: nat, t: Transfers)
    requires Lawful(start, max, head, step, capacity, t) && GoodTransfers(start, max, t, step, capacity)
    requires c !in head && c.expert !in CacheOf(start, c.layer)
    ensures var cache, added := CacheOf(t.caches, c.layer), IssuedOn(head, t.issued, c.layer);
            && ValidCache(cache, capacity) && c.expert !in cache
            && cache == Transferred(CacheOf(start, c.layer), StepDemand(step, c.layer), added, capacity)
            && (forall x :: x in CacheOf(start, c.layer) ==> Candidate(c.layer, x) !in t.issued)
            && (forall x :: x in added ==> Candidate(c.layer, x) in t.issued)
  {
    hide StepDemand, Transferred, Admitted, Distinct;
    EmptyValid(capacity);
    IssuedMember(head, t.issued, c.layer);
    assert Candidate(c.layer, c.expert) == c;
    forall x | x in CacheOf(start, c.layer)
      ensures Candidate(c.layer, x) !in t.issued
    {
      var d := Candidate(c.layer, x);
      assert d in t.issued ==> d.expert !in CacheOf(start, d.layer);
    }
  }

  lemma {:induction false} IssuedLawful(start: map<nat, seq<nat>>, max: nat, head: seq<Candidate>, c: Candidate,
                                        step: seq<RouterTraceEvent>, capacity: nat, t: Transfers, u: Transfers)
    requires Lawful(start, max, head, step, capacity, t) && c !in head && t.budget > 0
    requires u.issued == t.issued + {c} && u.budget == t.budget - 1
    requires u.caches == t.caches[c.layer := Transferred(CacheOf(start, c.layer), StepDemand(step, c.layer),
                                                         IssuedOn(head, t.issued, c.layer) + [c.expert], capacity)]
    requires Admitted(start, max, head + [c], step, capacity, u.issued, |head|)
    ensures Lawful(start, max, head + [c], step, capacity, u)
  {
    hide StepDemand, Transferred, Admitted;
    var all := head + [c];
    assert c !in t.issued;
    forall i | 0 <= i < |all|
      ensures all[i] in u.issued <==> Admitted(start, max, all, step, capacity, u.issued, i)
    {
      if i < |head| {
        assert head[i] in head;
        AdmittedHead(start, max, head, c, step, capacity, t.issued, u.issued, i);
      }
    }
    forall layer: nat
      ensures IssuedOn(all, u.issued, layer)
           == IssuedOn(head, t.issued, layer) + if layer == c.layer then [c.expert] else []
    {
      IssuedSnoc(head, c, u.issued, layer);
      IssuedSame(head, t.issued, u.issued, layer);
    }
    forall layer: nat
      ensures CacheOf(u.caches, layer)
           == Transferred(CacheOf(start, layer), StepDemand(step, layer), IssuedOn(all, u.issued, layer), capacity)
    {
      assert layer != c.layer ==> IssuedOn(head, t.issued, layer) + [] == IssuedOn(head, t.issued, layer);
    }
  }

  /** The law leaves no choice. */
  lemma {:induction false} LawDetermines(start: map<nat, seq<nat>>, max: nat, scored: seq<Candidate>,
                                         step: seq<RouterTraceEvent>, capacity: nat, a: Transfers, b: Transfers)
    requires Lawful(start, max, scored, step, capacity, a) && Lawful(start, max, scored, step, capacity, b)
    ensures a.issued == b.issued && a.budget == b.budget
    ensures forall layer: nat :: CacheOf(a.caches, layer) == CacheOf(b.caches, layer)
  {
    hide StepDemand, Transferred, Within;
    SameIssued(start, max, scored, step, capacity, a, b, |scored|);
    forall c
      ensures c in a.issued <==> c in b.issued
    {
      if c in a.issued || c in b.issued {
        var i :| 0 <= i < |scored| && scored[i] == c;
      }
    }
  }

  lemma {:induction false} SameIssued(start: map<nat, seq<nat>>, max: nat, scored: seq<Candidate>,
                                      step: seq<RouterTraceEvent>, capacity: nat, a: Transfers, b: Transfers, n: nat)
    requires Lawful(start, max, scored, step, capacity, a) && Lawful(start, max, scored, step, capacity, b)
    requires n <= |scored|
    ensures forall i :: 0 <= i < n ==> (scored[i] in a.issued <==> scored[i] in b.issued)
  {
    hide StepDemand, Transferred, Within;
    if n > 0 {
      SameIssued(start, max, scored, step, capacity, a, b, n - 1);
      IssuedSame(scored[..n - 1], a.issued, b.issued, scored[n - 1].layer);
      assert Admitted(start, max, scored, step, capacity, a.issued, n - 1)
        <==> Admitted(start, max, scored, step, capacity, b.issued, n - 1);
    }
  }

  // ---- Serving the step ----

  /** The experts of one event that few enough others came after. */
  ghost function RecentOf(caches: map<nat, seq<nat>>, part: seq<RouterTraceEvent>, event: RouterTraceEvent,
                          capacity: nat): set<nat> {
    set x | x in event.selected
            && Recent(CacheOf(caches, event.layerId) + StepDemand(part, event.layerId), x, capacity)
  }

  ghost function RecentHits(caches: map<nat, seq<nat>>, step: seq<RouterTraceEvent>, capacity: nat): nat {
    if step == [] then 0
    else
      var n := |step| - 1;
      RecentHits(caches, step[..n], capacity) + |RecentOf(caches, step[..n], step[n], capacity)|
  }

  ghost function ReadyOf(caches: map<nat, seq<nat>>, issued: set<Candidate>, step: seq<RouterTraceEvent>,
                         capacity: nat): set<Candidate> {
    set c | c in issued && EverInTime(caches, step, c, capacity)
  }

  /** Hits, useful transfers and caches of a step, all by recency. */
  ghost predicate ServedLaw(caches: map<nat, seq<nat>>, issued: set<Candidate>, step: seq<RouterTraceEvent>,
                            capacity: nat, after: map<nat, seq<nat>>, hits: int, ready: int) {
    && hits == RecentHits(caches, step, capacity)
    && ready == |ReadyOf(caches, issued, step, capacity)|
    && forall layer: nat ::
         && Fits(OnLayer(step, layer), capacity)
         && CacheOf(after, layer) == Run(EventOrder, CacheOf(caches, layer), OnLayer(step, layer), capacity)
  }

  lemma {:induction false} ConsumeHits(caches: map<nat, seq<nat>>, issued: set<Candidate>, step: seq<RouterTraceEvent>,
                                       capacity: nat)
    requires ValidCaches(caches, capacity) && ValidTrace(step) && Narrow(step, capacity)
    ensures Consume(caches, issued, step, capacity).hits == RecentHits(caches, step, capacity)
  {
    hide Serve, Within, Consume, StepDemand, Recent, ValidTrace, Narrow, Distinct;
    if step == [] {
      NothingConsumed(caches, issued, capacity);
    } else {
      var n := |step| - 1;
      var part, event := step[..n], step[n];
      assert step == part + [event];
      TraceHead(part, event, capacity);
      ConsumeHits(caches, issued, part, capacity);
      ConsumeSnoc(caches, issued, part, event, capacity);
      var hit := Within(event.selected, CacheOf(Consume(caches, issued, part, capacity).caches, event.layerId));
      FilterElems(event.selected, CacheOf(Consume(caches, issued, part, capacity).caches, event.layerId));
      FilterDistinct(event.selected, CacheOf(Consume(caches, issued, part, capacity).caches, event.layerId));
      forall x | x in event.selected
        ensures x in hit
           <==> Recent(CacheOf(caches, event.layerId) + StepDemand(part, event.layerId), x, capacity)
      {
        ResidentExactly(caches, issued, part, capacity, Candidate(event.layerId, x));
      }
      DistinctCard(hit);
      assert Elems(hit) == RecentOf(caches, part, event, capacity);
    }
  }

  lemma {:induction false} ConsumeLawful(caches: map<nat, seq<nat>>, issued: set<Candidate>,
                                         step: seq<RouterTraceEvent>, capacity: nat)
    requires ValidCaches(caches, capacity) && ValidTrace(step) && Narrow(step, capacity)
    ensures var c := Consume(caches, issued, step, capacity);
            ServedLaw(caches, issued, step, capacity, c.caches, c.hits, |c.ready|)
  {
    hide Consume, EverInTime, RecentHits, ValidTrace, Narrow, OnLayer, Run, Fits, StepSize, ValidCaches;
    var c := Consume(caches, issued, step, capacity);
    ConsumeHits(caches, issued, step, capacity);
    ConsumeGood(caches, issued, step, capacity);
    forall d
      ensures d in c.ready <==> d in ReadyOf(caches, issued, step, capacity)
    {
      if d in issued {
        ReadyExactly(caches, issued, step, capacity, d);
      }
    }
    assert c.ready == ReadyOf(caches, issued, step, capacity);
    forall layer: nat
      ensures Fits(OnLayer(step, layer), capacity)
           && CacheOf(c.caches, layer) == Run(EventOrder, CacheOf(caches, layer), OnLayer(step, layer), capacity)
    {
      ConsumeIsScanOrder(caches, issued, step, capacity, layer);
    }
  }
}
