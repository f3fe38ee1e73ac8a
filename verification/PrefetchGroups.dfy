/** Grouping conversations by forward pass, and interleaving them into steps. */
module PrefetchGroups {
  import opened Trace
  import opened LruCapacity
  import opened CacheSim
  import opened Prefetch
  import opened PrefetchSim

  function Joined<T>(parts: seq<seq<T>>): seq<T> {
    if parts == [] then [] else Joined(parts[..|parts| - 1]) + parts[|parts| - 1]
  }

  predicate KeyLeq(a: RouterTraceEvent, b: RouterTraceEvent) {
    || a.layerId < b.layerId
    || (a.layerId == b.layerId && a.tokenIndex < b.tokenIndex)
    || (a.layerId == b.layerId && a.tokenIndex == b.tokenIndex && a.hookOrder <= b.hookOrder)
  }

  ghost predicate Ordered(events: seq<RouterTraceEvent>) {
    forall i, j :: 0 <= i < j < |events| ==> KeyLeq(events[i], events[j])
  }

  /** The events with the same key as `k`, in their order. */
  function AtKey(events: seq<RouterTraceEvent>, k: RouterTraceEvent): seq<RouterTraceEvent> {
    if events == [] then []
    else
      var n := |events| - 1;
      AtKey(events[..n], k) + if KeyLeq(events[n], k) && KeyLeq(k, events[n]) then [events[n]] else []
  }

  /** Sorting is stable: events with equal keys keep their order. */
  ghost predicate SameTies(a: seq<RouterTraceEvent>, b: seq<RouterTraceEvent>) {
    forall k: RouterTraceEvent :: AtKey(a, k) == AtKey(b, k)
  }

  lemma {:induction false} AtKeyConcat(a: seq<RouterTraceEvent>, b: seq<RouterTraceEvent>, k: RouterTraceEvent)
    ensures AtKey(a + b, k) == AtKey(a, k) + AtKey(b, k)
  {
    hide KeyLeq;
    if b == [] {
      assert a + b == a;
    } else {
      var n := |b| - 1;
      AtKeyConcat(a, b[..n], k);
      assert (a + b)[..|a + b| - 1] == a + b[..n];
    }
  }

  lemma {:induction false} NoneAtKey(events: seq<RouterTraceEvent>, k: RouterTraceEvent)
    requires forall i :: 0 <= i < |events| ==> !KeyLeq(events[i], k)
    ensures AtKey(events, k) == []
  {
    hide KeyLeq;
    if events != [] {
      NoneAtKey(events[..|events| - 1], k);
    }
  }

  lemma {:induction false} TiesInsert(head: seq<RouterTraceEvent>, e: RouterTraceEvent, tail: seq<RouterTraceEvent>)
    requires forall k :: 0 <= k < |tail| ==> !KeyLeq(tail[k], e)
    ensures SameTies(head + ([e] + tail), (head + tail) + [e])
  {
    forall k: RouterTraceEvent
      ensures AtKey(head + ([e] + tail), k) == AtKey((head + tail) + [e], k)
    {
      AtKeyConcat(head, [e] + tail, k);
      AtKeyConcat([e], tail, k);
      AtKeyConcat(head + tail, [e], k);
      AtKeyConcat(head, tail, k);
      if KeyLeq(e, k) && KeyLeq(k, e) {
        NoneAtKey(tail, k);
      } else {
        OneAtKey(e, k);
      }
    }
  }

  lemma {:induction false} OneAtKey(e: RouterTraceEvent, k: RouterTraceEvent)
    requires !(KeyLeq(e, k) && KeyLeq(k, e))
    ensures AtKey([e], k) == []
  {
    var one := [e];
    assert one[..0] == [];
  }

  lemma {:induction false} TiesTrans(a: seq<RouterTraceEvent>, b: seq<RouterTraceEvent>, c: seq<RouterTraceEvent>,
                                     e: RouterTraceEvent)
    requires SameTies(a, b + [e]) && SameTies(b, c)
    ensures SameTies(a, c + [e])
  {
    hide AtKey;
    forall k: RouterTraceEvent
      ensures AtKey(a, k) == AtKey(c + [e], k)
    {
      assert AtKey(a, k) == AtKey(b + [e], k) && AtKey(b, k) == AtKey(c, k);
      AtKeyConcat(b, [e], k);
      AtKeyConcat(c, [e], k);
    }
  }

  /** Inserting one event behind everything that does not come after it. */
  method InsertSorted(sorted: seq<RouterTraceEvent>, e: RouterTraceEvent) returns (after: seq<RouterTraceEvent>)
    requires Ordered(sorted)
    ensures Ordered(after) && multiset(after) == multiset(sorted + [e]) && SameTies(after, sorted + [e])
  {
    hide SameTies;
    var j := |sorted|;
    while j > 0 && !KeyLeq(sorted[j - 1], e)
      invariant 0 <= j <= |sorted|
      invariant forall k :: j <= k < |sorted| ==> KeyLeq(e, sorted[k]) && !KeyLeq(sorted[k], e)
    {
      j := j - 1;
    }
    var head, tail := sorted[..j], sorted[j..];
    assert sorted == head + tail;
    after := head + ([e] + tail);
    OrderedInsert(head, e, tail);
    TiesInsert(head, e, tail);
  }

  lemma {:induction false} OrderedInsert(head: seq<RouterTraceEvent>, e: RouterTraceEvent, tail: seq<RouterTraceEvent>)
    requires Ordered(head + tail)
    requires head != [] ==> KeyLeq(head[|head| - 1], e)
    requires forall k :: 0 <= k < |tail| ==> KeyLeq(e, tail[k])
    ensures Ordered(head + ([e] + tail))
  {
    var all, was := head + ([e] + tail), head + tail;
    forall i, j | 0 <= i < j < |all|
      ensures KeyLeq(all[i], all[j])
    {
      if i < |head| && j == |head| {
        assert i < |head| - 1 ==> KeyLeq(was[i], was[|head| - 1]);
      } else if i < |head| && j < |head| {
        assert KeyLeq(was[i], was[j]);
      } else if i < |head| {
        assert KeyLeq(was[i], was[j - 1]);
      } else if i > |head| {
        assert KeyLeq(was[i - 1], was[j - 1]);
      }
    }
  }

  /** The one stable arrangement by key. */
  ghost predicate IsSorted(sorted: seq<RouterTraceEvent>, events: seq<RouterTraceEvent>) {
    Ordered(sorted) && multiset(sorted) == multiset(events) && SameTies(sorted, events)
  }

  /** A sorted group is ordered by layer, then by token, then by hook order. */
  lemma {:induction false} SortedByKey(sorted: seq<RouterTraceEvent>, events: seq<RouterTraceEvent>, i: nat, j: nat)
    requires IsSorted(sorted, events) && i < j < |sorted|
    ensures var a, b := sorted[i], sorted[j];
            && a.layerId <= b.layerId
            && (a.layerId == b.layerId ==> a.tokenIndex <= b.tokenIndex)
            && (a.layerId == b.layerId && a.tokenIndex == b.tokenIndex ==> a.hookOrder <= b.hookOrder)
  {
    hide SameTies;
    assert KeyLeq(sorted[i], sorted[j]);
  }

  /** And events with the same layer, token and hook order keep the order of the trace. */
  lemma {:induction false} SortKeepsTies(sorted: seq<RouterTraceEvent>, events: seq<RouterTraceEvent>,
                                         k: RouterTraceEvent)
    requires IsSorted(sorted, events)
    ensures SameKeyed(sorted, k) == SameKeyed(events, k)
  {
    hide Ordered;
    AtKeyIs(sorted, k);
    AtKeyIs(events, k);
    assert AtKey(sorted, k) == AtKey(events, k);
  }

  /** The events with this layer, token and hook order, in their order. */
  function SameKeyed(events: seq<RouterTraceEvent>, k: RouterTraceEvent): seq<RouterTraceEvent> {
    if events == [] then []
    else
      var n := |events| - 1;
      var e := events[n];
      SameKeyed(events[..n], k)
        + if e.layerId == k.layerId && e.tokenIndex == k.tokenIndex && e.hookOrder == k.hookOrder then [e] else []
  }

  lemma {:induction false} AtKeyIs(events: seq<RouterTraceEvent>, k: RouterTraceEvent)
    ensures AtKey(events, k) == SameKeyed(events, k)
  {
    if events != [] {
      AtKeyIs(events[..|events| - 1], k);
    }
  }

  /** Sorting one group by layer, token and hook order. */
  method SortGroup(events: seq<RouterTraceEvent>) returns (sorted: seq<RouterTraceEvent>)
    ensures IsSorted(sorted, events)
  {
    hide Ordered, SameTies;
    sorted := [];
    OrderedNone();
    assert events[..0] == [];
    var i := 0;
    while i < |events|
      invariant 0 <= i <= |events|
      invariant Ordered(sorted) && multiset(sorted) == multiset(events[..i]) && SameTies(sorted, events[..i])
    {
      assert events[..i + 1] == events[..i] + [events[i]];
      ghost var before := sorted;
      sorted := InsertSorted(sorted, events[i]);
      TiesTrans(sorted, before, events[..i], events[i]);
      i := i + 1;
    }
    assert events[..i] == events;
  }

  lemma {:induction false} OrderedNone()
    ensures Ordered([]) && SameTies([], [])
  {
  }

  /** The events of one forward pass. */
  function OfForward(trace: seq<RouterTraceEvent>, id: nat): seq<RouterTraceEvent> {
    if trace == [] then []
    else
      var n := |trace| - 1;
      OfForward(trace[..n], id) + if trace[n].forwardId == id then [trace[n]] else []
  }

  /** Where a forward pass first appears; the length of the trace if it does not. */
  function FirstAt(trace: seq<RouterTraceEvent>, id: nat): (i: nat)
    ensures i <= |trace| && (i < |trace| ==> trace[i].forwardId == id)
    ensures forall j :: 0 <= j < i && j < |trace| ==> trace[j].forwardId != id
  {
    if trace == [] then 0
    else
      var n := |trace| - 1;
      var i := FirstAt(trace[..n], id);
      if i < n || trace[n].forwardId == id then i else n + 1
  }

  /** Each forward pass once, in order of first appearance. */
  ghost predicate InOrderOfAppearance(trace: seq<RouterTraceEvent>, ids: seq<nat>) {
    && (forall i :: 0 <= i < |trace| ==> trace[i].forwardId in ids)
    && (forall g :: 0 <= g < |ids| ==> FirstAt(trace, ids[g]) < |trace|)
    && (forall g, h :: 0 <= g < h < |ids| ==> FirstAt(trace, ids[g]) < FirstAt(trace, ids[h]))
  }

  /** Forward passes in order of first appearance, each with exactly its own events, sorted. */
  ghost predicate Grouping(trace: seq<RouterTraceEvent>, ids: seq<nat>, groups: seq<seq<RouterTraceEvent>>) {
    && Distinct(ids) && |groups| == |ids|
    && InOrderOfAppearance(trace, ids)
    && (forall g :: 0 <= g < |groups| ==> IsSorted(groups[g], OfForward(trace, ids[g])))
  }

  lemma {:induction false} NothingAppears()
    ensures InOrderOfAppearance([], [])
  {
  }

  lemma {:induction false} FirstAtSnoc(trace: seq<RouterTraceEvent>, e: RouterTraceEvent, id: nat)
    ensures FirstAt(trace, id) < |trace| ==> FirstAt(trace + [e], id) == FirstAt(trace, id)
    ensures FirstAt(trace, id) == |trace| && e.forwardId == id ==> FirstAt(trace + [e], id) == |trace|
  {
    assert (trace + [e])[..|trace|] == trace;
  }

  /** One more event opens a forward pass or belongs to one that is open. */
  lemma {:induction false} AppearanceSnoc(trace: seq<RouterTraceEvent>, e: RouterTraceEvent, ids: seq<nat>)
    requires Distinct(ids) && InOrderOfAppearance(trace, ids)
    ensures InOrderOfAppearance(trace + [e], if e.forwardId in ids then ids else ids + [e.forwardId])
    ensures e.forwardId !in ids ==> Distinct(ids + [e.forwardId])
  {
    hide FirstAt;
    var all, more := trace + [e], if e.forwardId in ids then ids else ids + [e.forwardId];
    assert all[|trace|] == e;
    forall g | 0 <= g < |ids|
      ensures FirstAt(all, ids[g]) == FirstAt(trace, ids[g])
    {
      FirstAtSnoc(trace, e, ids[g]);
    }
    if e.forwardId !in ids {
      NewAtEnd(trace, ids, e);
      assert forall g :: 0 <= g < |ids| ==> more[g] == ids[g];
    }
    forall i | 0 <= i < |all|
      ensures all[i].forwardId in more
    {
      if i < |trace| {
        assert all[i] == trace[i];
      }
    }
  }

  lemma {:induction false} NewAtEnd(trace: seq<RouterTraceEvent>, ids: seq<nat>, e: RouterTraceEvent)
    requires forall i :: 0 <= i < |trace| ==> trace[i].forwardId in ids
    requires e.forwardId !in ids
    ensures FirstAt(trace + [e], e.forwardId) == |trace|
  {
    FirstAtSnoc(trace, e, e.forwardId);
    assert FirstAt(trace, e.forwardId) == |trace|;
  }

  method ForwardGroups(trace: seq<RouterTraceEvent>) returns (groups: seq<seq<RouterTraceEvent>>, ghost ids: seq<nat>)
    ensures Grouping(trace, ids, groups)
  {
    hide OfForward, IsSorted, InOrderOfAppearance;
    NothingAppears();
    assert trace[..0] == [];
    var order: seq<nat> := [];
    var i := 0;
    while i < |trace|
      invariant 0 <= i <= |trace|
      invariant Distinct(order) && InOrderOfAppearance(trace[..i], order)
    {
      assert trace[..i + 1] == trace[..i] + [trace[i]];
      AppearanceSnoc(trace[..i], trace[i], order);
      if trace[i].forwardId !in order {
        order := order + [trace[i].forwardId];
      }
      i := i + 1;
    }
    assert trace[..i] == trace;
    groups, ids := [], order;
    var g := 0;
    while g < |order|
      invariant 0 <= g <= |order| && |groups| == g
      invariant forall h :: 0 <= h < g ==> IsSorted(groups[h], OfForward(trace, order[h]))
    {
      var sorted := SortGroup(OfForward(trace, order[g]));
      groups := groups + [sorted];
      g := g + 1;
    }
  }

  /** The size of a step depends only on which events it holds. */
  lemma {:induction false} StepSizeOfMultiset(a: seq<RouterTraceEvent>, b: seq<RouterTraceEvent>)
    requires multiset(a) == multiset(b)
    ensures StepSize(a) == StepSize(b)
    decreases |a|
  {
    if a == [] {
      assert |multiset(b)| == 0;
      assert b == [];
    } else {
      var n := |a| - 1;
      var e := a[n];
      assert a == a[..n] + [e];
      assert e in multiset(b);
      var i :| 0 <= i < |b| && b[i] == e;
      var rest := b[..i] + b[i + 1..];
      assert b == b[..i] + [e] + b[i + 1..];
      assert multiset(b) == multiset(rest) + multiset{e};
      assert multiset(a) == multiset(a[..n]) + multiset{e};
      assert multiset(a[..n]) == multiset(a) - multiset{e};
      assert multiset(rest) == multiset(b) - multiset{e};
      StepSizeOfMultiset(a[..n], rest);
      StepSizeRemove(b, i);
    }
  }

  lemma {:induction false} StepSizeRemove(b: seq<RouterTraceEvent>, i: nat)
    requires i < |b|
    ensures StepSize(b) == StepSize(b[..i] + b[i + 1..]) + |b[i].selected|
  {
    StepSizeConcat(b[..i], [b[i]] + b[i + 1..]);
    StepSizeConcat([b[i]], b[i + 1..]);
    StepSizeConcat(b[..i], b[i + 1..]);
    StepSizeSnoc([], b[i]);
    assert [] + [b[i]] == [b[i]];
    assert b == b[..i] + ([b[i]] + b[i + 1..]);
  }

  lemma {:induction false} StepSizeConcat(a: seq<RouterTraceEvent>, b: seq<RouterTraceEvent>)
    ensures StepSize(a + b) == StepSize(a) + StepSize(b)
  {
    if b == [] {
      assert a + b == a;
    } else {
      var n := |b| - 1;
      StepSizeConcat(a, b[..n]);
      assert (a + b)[..|a + b| - 1] == a + b[..n];
    }
  }

  lemma {:induction false} OfForwardMember(trace: seq<RouterTraceEvent>, id: nat, e: RouterTraceEvent)
    requires e in OfForward(trace, id)
    ensures e in trace && e.forwardId == id
  {
    var n := |trace| - 1;
    if e in OfForward(trace[..n], id) {
      OfForwardMember(trace[..n], id, e);
    }
  }

  /** The demand of all forward passes of `ids` together. */
  ghost function DemandOf(trace: seq<RouterTraceEvent>, ids: seq<nat>): nat {
    if ids == [] then 0
    else DemandOf(trace, ids[..|ids| - 1]) + StepSize(OfForward(trace, ids[|ids| - 1]))
  }

  lemma {:induction false} DemandOfSnoc(trace: seq<RouterTraceEvent>, e: RouterTraceEvent, ids: seq<nat>)
    requires Distinct(ids)
    ensures DemandOf(trace + [e], ids) == DemandOf(trace, ids) + if e.forwardId in ids then |e.selected| else 0
  {
    hide StepSize, OfForward;
    if ids != [] {
      var n := |ids| - 1;
      DemandOfSnoc(trace, e, ids[..n]);
      assert ids == ids[..n] + [ids[n]];
      LastIsNew(ids[..n], ids[n]);
      OfForwardSnoc(trace, e, ids[n]);
      StepSizeSnoc(OfForward(trace, ids[n]), e);
    }
  }

  lemma {:induction false} OfForwardSnoc(trace: seq<RouterTraceEvent>, e: RouterTraceEvent, id: nat)
    ensures OfForward(trace + [e], id) == if e.forwardId == id then OfForward(trace, id) + [e] else OfForward(trace, id)
  {
    assert (trace + [e])[..|trace|] == trace;
  }

  lemma {:induction false} DemandOfNothing(ids: seq<nat>)
    ensures DemandOf([], ids) == 0
  {
    if ids != [] {
      DemandOfNothing(ids[..|ids| - 1]);
    }
  }

  lemma {:induction false} DemandOfAll(trace: seq<RouterTraceEvent>, ids: seq<nat>)
    requires Distinct(ids) && forall i :: 0 <= i < |trace| ==> trace[i].forwardId in ids
    ensures DemandOf(trace, ids) == StepSize(trace)
  {
    hide DemandOf;
    if trace == [] {
      DemandOfNothing(ids);
    } else {
      var n := |trace| - 1;
      DemandOfAll(trace[..n], ids);
      DemandOfSnoc(trace[..n], trace[n], ids);
      assert trace == trace[..n] + [trace[n]];
    }
  }

  ghost function GroupedSize(groups: seq<seq<RouterTraceEvent>>): nat {
    if groups == [] then 0 else GroupedSize(groups[..|groups| - 1]) + StepSize(groups[|groups| - 1])
  }

  lemma {:induction false} GroupedIsDemandOf(trace: seq<RouterTraceEvent>, ids: seq<nat>,
                                             groups: seq<seq<RouterTraceEvent>>)
    requires |groups| == |ids|
    requires forall g :: 0 <= g < |groups| ==> multiset(groups[g]) == multiset(OfForward(trace, ids[g]))
    ensures GroupedSize(groups) == DemandOf(trace, ids)
  {
    hide StepSize, OfForward;
    if groups != [] {
      var n := |groups| - 1;
      GroupedIsDemandOf(trace, ids[..n], groups[..n]);
      StepSizeOfMultiset(groups[n], OfForward(trace, ids[n]));
    }
  }

  /** Grouping loses no demand. */
  lemma {:induction false} GroupingKeepsDemand(trace: seq<RouterTraceEvent>, ids: seq<nat>,
                                               groups: seq<seq<RouterTraceEvent>>)
    requires Grouping(trace, ids, groups)
    ensures GroupedSize(groups) == StepSize(trace)
  {
    hide StepSize, OfForward, Ordered, SameTies;
    GroupedIsDemandOf(trace, ids, groups);
    DemandOfAll(trace, ids);
  }

  lemma {:induction false} GroupsAreValid(trace: seq<RouterTraceEvent>, ids: seq<nat>,
                                          groups: seq<seq<RouterTraceEvent>>, capacity: nat)
    requires Grouping(trace, ids, groups) && ValidTrace(trace) && Narrow(trace, capacity)
    ensures forall g :: 0 <= g < |groups| ==> ValidTrace(groups[g]) && Narrow(groups[g], capacity)
  {
    hide OfForward, Ordered, SameTies;
    forall g, i | 0 <= g < |groups| && 0 <= i < |groups[g]|
      ensures ValidEvent(groups[g][i]) && |groups[g][i].selected| <= capacity
    {
      var e := groups[g][i];
      assert e in multiset(groups[g]);
      OfForwardMember(trace, ids[g], e);
    }
  }

  // ---- The whole run ----

  /** The events of one step: the group of every conversation that is still running, in turn. */
  function StepEvents(grouped: seq<seq<seq<RouterTraceEvent>>>, index: nat): seq<RouterTraceEvent> {
    if grouped == [] then []
    else
      var n := |grouped| - 1;
      StepEvents(grouped[..n], index) + if index < |grouped[n]| then grouped[n][index] else []
  }

  function Longest(grouped: seq<seq<seq<RouterTraceEvent>>>): (n: nat)
    ensures forall c :: 0 <= c < |grouped| ==> |grouped[c]| <= n
  {
    if grouped == [] then 0
    else
      var k := |grouped| - 1;
      var m := Longest(grouped[..k]);
      assert forall c :: 0 <= c < k ==> grouped[..k][c] == grouped[c];
      if m < |grouped[k]| then |grouped[k]| else m
  }

  /** There are as many steps as some conversation has groups. */
  lemma {:induction false} LongestIs(grouped: seq<seq<seq<RouterTraceEvent>>>)
    ensures grouped == [] ==> Longest(grouped) == 0
    ensures grouped != [] ==> exists c :: 0 <= c < |grouped| && |grouped[c]| == Longest(grouped)
  {
    if grouped != [] {
      var k := |grouped| - 1;
      LongestIs(grouped[..k]);
      if Longest(grouped[..k]) < |grouped[k]| || k == 0 {
        assert |grouped[k]| == Longest(grouped);
      } else {
        var c :| 0 <= c < k && |grouped[..k][c]| == Longest(grouped[..k]);
        assert |grouped[c]| == Longest(grouped);
      }
    }
  }

  /** The demand of the first `n` steps. */
  ghost function RunSize(grouped: seq<seq<seq<RouterTraceEvent>>>, n: nat): nat {
    if n == 0 then 0 else RunSize(grouped, n - 1) + StepSize(StepEvents(grouped, n - 1))
  }

  ghost function TotalSize(traces: seq<seq<RouterTraceEvent>>): nat {
    if traces == [] then 0 else TotalSize(traces[..|traces| - 1]) + StepSize(traces[|traces| - 1])
  }

  lemma {:induction false} RunSizeSnoc(grouped: seq<seq<seq<RouterTraceEvent>>>, groups: seq<seq<RouterTraceEvent>>,
                                       n: nat)
    ensures RunSize(grouped + [groups], n) == RunSize(grouped, n) + GroupedSize(groups[..Min(n, |groups|)])
  {
    hide StepSize, StepEvents;
    if n == 0 {
      assert groups[..0] == [];
    } else {
      RunSizeSnoc(grouped, groups, n - 1);
      StepEventsSnoc(grouped, groups, n - 1);
      if n <= |groups| {
        StepSizeConcat(StepEvents(grouped, n - 1), groups[n - 1]);
        assert groups[..n][..n - 1] == groups[..n - 1];
      }
    }
  }

  lemma {:induction false} StepEventsSnoc(grouped: seq<seq<seq<RouterTraceEvent>>>, groups: seq<seq<RouterTraceEvent>>,
                                          index: nat)
    ensures StepEvents(grouped + [groups], index)
         == if index < |groups| then StepEvents(grouped, index) + groups[index] else StepEvents(grouped, index)
  {
    assert (grouped + [groups])[..|grouped|] == grouped;
  }

  lemma {:induction false} RunSizeNothing(n: nat)
    ensures RunSize([], n) == 0
  {
    if n > 0 {
      RunSizeNothing(n - 1);
    }
  }

  /** The groups are those of some list of forward passes. */
  ghost predicate Grouped(trace: seq<RouterTraceEvent>, groups: seq<seq<RouterTraceEvent>>) {
    exists ids :: Grouping(trace, ids, groups)
  }

  /** Every conversation regrouped by forward pass: same demand, and every group valid. */
  ghost predicate Regrouped(traces: seq<seq<RouterTraceEvent>>, grouped: seq<seq<seq<RouterTraceEvent>>>,
                            capacity: nat) {
    && |grouped| == |traces|
    && (forall c :: 0 <= c < |traces| ==> Grouped(traces[c], grouped[c]))
    && (forall c :: 0 <= c < |traces| ==> GroupedSize(grouped[c]) == StepSize(traces[c]))
    && (forall c, g :: 0 <= c < |traces| && 0 <= g < |grouped[c]| ==>
          ValidTrace(grouped[c][g]) && Narrow(grouped[c][g], capacity))
  }

  /** Interleaving the conversations step by step loses no demand. */
  lemma {:induction false} InterleavingKeepsDemand(traces: seq<seq<RouterTraceEvent>>,
                                                   grouped: seq<seq<seq<RouterTraceEvent>>>, capacity: nat, n: nat)
    requires Regrouped(traces, grouped, capacity)
    requires forall c :: 0 <= c < |grouped| ==> |grouped[c]| <= n
    ensures RunSize(grouped, n) == TotalSize(traces)
  {
    hide StepSize, RunSize, GroupedSize, ValidTrace, Narrow, Grouped;
    if grouped == [] {
      RunSizeNothing(n);
    } else {
      var k := |grouped| - 1;
      assert Regrouped(traces[..k], grouped[..k], capacity);
      InterleavingKeepsDemand(traces[..k], grouped[..k], capacity, n);
      assert grouped == grouped[..k] + [grouped[k]];
      RunSizeSnoc(grouped[..k], grouped[k], n);
      assert grouped[k][..|grouped[k]|] == grouped[k];
    }
  }

  lemma {:induction false} StepIsValid(traces: seq<seq<RouterTraceEvent>>, grouped: seq<seq<seq<RouterTraceEvent>>>,
                                       capacity: nat, index: nat)
    requires Regrouped(traces, grouped, capacity)
    ensures ValidTrace(StepEvents(grouped, index)) && Narrow(StepEvents(grouped, index), capacity)
  {
    hide GroupedSize, StepSize, Grouped;
    if grouped != [] {
      var k := |grouped| - 1;
      assert Regrouped(traces[..k], grouped[..k], capacity);
      StepIsValid(traces[..k], grouped[..k], capacity, index);
    }
  }

  lemma {:induction false} NowGrouped(trace: seq<RouterTraceEvent>, ids: seq<nat>, groups: seq<seq<RouterTraceEvent>>)
    requires Grouping(trace, ids, groups)
    ensures Grouped(trace, groups)
  {
  }

  method GroupAll(traces: seq<seq<RouterTraceEvent>>, capacity: nat) returns (grouped: seq<seq<seq<RouterTraceEvent>>>)
    requires forall c :: 0 <= c < |traces| ==> ValidTrace(traces[c]) && Narrow(traces[c], capacity)
    ensures Regrouped(traces, grouped, capacity)
  {
    hide GroupedSize, StepSize, Grouping, ValidTrace, Narrow, Grouped;
    grouped := [];
    var c := 0;
    while c < |traces|
      invariant 0 <= c <= |traces| && |grouped| == c
      invariant Regrouped(traces[..c], grouped, capacity)
    {
      ghost var ids;
      var groups;
      groups, ids := ForwardGroups(traces[c]);
      GroupingKeepsDemand(traces[c], ids, groups);
      GroupsAreValid(traces[c], ids, groups, capacity);
      NowGrouped(traces[c], ids, groups);
      grouped := grouped + [groups];
      c := c + 1;
    }
    assert traces[..c] == traces;
  }
}
