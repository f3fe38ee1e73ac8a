/**
 What an event-batched LRU cache holds: the experts of the most recent events, up to the number of
 distinct experts that fit.  These facts hold for every top-k and for both promotion orders.
 */
module LruWindow {
  import opened Trace
  import opened LruEngine

  /** The distinct experts that a sequence of events demands. */
  ghost function Demanded(events: seq<seq<nat>>): set<nat> {
    if events == [] then {}
    else Demanded(events[..|events| - 1]) + Elems(events[|events| - 1])
  }

  lemma {:induction false} DemandedConcat(a: seq<seq<nat>>, b: seq<seq<nat>>)
    ensures Demanded(a + b) == Demanded(a) + Demanded(b)
  {
    if b == [] {
      assert a + b == a;
    } else {
      DemandedConcat(a, b[..|b| - 1]);
      assert (a + b)[..|a + b| - 1] == a + b[..|b| - 1];
    }
  }

  lemma {:induction false} DemandedMember(events: seq<seq<nat>>, i: nat, x: nat)
    requires i < |events| && x in events[i]
    ensures x in Demanded(events)
  {
    if i < |events| - 1 {
      DemandedMember(events[..|events| - 1], i, x);
    }
  }

  /** The youngest `n` entries of a cache are experts of the set `u`. */
  ghost predicate YoungIn(cache: seq<nat>, n: int, u: set<nat>) {
    n <= |cache| && forall i :: 0 <= i < |cache| && |cache| - n <= i ==> cache[i] in u
  }

  /** A duplicate-free sequence over `u` that is as long as `u` is large covers `u`. */
  lemma {:induction false} Covers(s: seq<nat>, u: set<nat>)
    requires Distinct(s) && |s| == |u|
    requires forall i :: 0 <= i < |s| ==> s[i] in u
    ensures Elems(s) == u
  {
    DistinctCard(s);
    SubsetCard(Elems(s), u);
  }

  /** How many of the youngest entries survive the removal of an event's experts. */
  lemma {:induction false} SurvivorCount(young: seq<nat>, u: set<nat>, event: seq<nat>, capacity: nat)
    requires Distinct(young) && Distinct(event) && |event| <= capacity
    requires |young| == Min(capacity, |u|)
    requires forall i :: 0 <= i < |young| ==> young[i] in u
    ensures Min(|Without(young, event)|, capacity - |event|) + |event| >= Min(capacity, |u + Elems(event)|)
  {
    FilterElems(young, event);
    FilterDistinct(young, event);
    DistinctCard(event);
    DistinctCard(Without(young, event));
    if |young| == capacity {
      ResidentCount(young, event);
      FilterElems(event, young);
    } else {
      Covers(young, u);
      assert Elems(Without(young, event)) == u - Elems(event);
      assert u + Elems(event) == (u - Elems(event)) + Elems(event);
      assert |u + Elems(event)| == |u - Elems(event)| + |Elems(event)|;
    }
  }

  lemma {:induction false} YoungLastN(s: seq<nat>, n: seq<nat>, room: nat, u: set<nat>)
    requires forall i :: 0 <= i < |n| ==> n[i] in u
    ensures YoungIn(LastN(s + n, room), Min(|n|, room), u)
  {
  }

  lemma {:induction false} YoungAppend(kept: seq<nat>, n: nat, added: seq<nat>, u: set<nat>, event: seq<nat>)
    requires YoungIn(kept, n, u)
    requires forall x :: x in added ==> x in event
    ensures YoungIn(kept + added, n + |added|, u + Elems(event))
  {
    forall i | 0 <= i < |added|
      ensures added[i] in Elems(event)
    {
      var y := added[i];
      assert y in added;
    }
  }

  lemma {:induction false} YoungWeaken(cache: seq<nat>, n: nat, k: int, u: set<nat>)
    requires YoungIn(cache, n, u) && k <= n
    ensures YoungIn(cache, k, u)
  {
  }

  /** The entries that outlive an event, in terms of the youngest entries before it. */
  lemma {:induction false} YoungKept(cache: seq<nat>, s: nat, u: set<nat>, event: seq<nat>, room: nat)
    requires s <= |cache| && YoungIn(cache, s, u)
    ensures YoungIn(LastN(Without(cache, event), room), Min(|Without(cache[|cache| - s..], event)|, room), u)
  {
    var old', young := cache[..|cache| - s], cache[|cache| - s..];
    assert cache == old' + young;
    FilterConcat(old', young, event);
    FilterElems(young, event);
    var n := Without(young, event);
    forall i | 0 <= i < |n|
      ensures n[i] in u
    {
      var y := n[i];
      assert y in n;
      assert y in young;
    }
    YoungLastN(Without(old', event), n, room, u);
  }

  /** Serving one more event keeps the youngest entries inside the demanded experts. */
  lemma {:induction false} YoungStep(p: Promotion, cache: seq<nat>, u: set<nat>, event: seq<nat>, capacity: nat)
    requires ValidCache(cache, capacity) && Distinct(event) && |event| <= capacity
    requires YoungIn(cache, Min(capacity, |u|), u)
    ensures YoungIn(Serve(p, cache, event, capacity), Min(capacity, |u + Elems(event)|), u + Elems(event))
  {
    hide Within, Without, LastN, Arrange;
    var s, room := Min(capacity, |u|), capacity - |event|;
    var young, a := cache[|cache| - s..], Arrange(p, cache, event);
    SurvivorCount(young, u, event, capacity);
    YoungKept(cache, s, u, event, room);
    ArrangeElems(p, cache, event);
    var k := Min(|Without(young, event)|, room);
    YoungAppend(LastN(Without(cache, event), room), k, a, u, event);
    YoungWeaken(Serve(p, cache, event, capacity), k + |a|, Min(capacity, |u + Elems(event)|), u + Elems(event));
  }

  /**
   The window lemma.  After any sequence of events, from any cache, the youngest
   min(capacity, distinct experts demanded) entries are experts of that sequence.
   */
  lemma {:induction false} YoungestAreDemanded(p: Promotion, cache: seq<nat>, events: seq<seq<nat>>, capacity: nat)
    requires ValidCache(cache, capacity) && Fits(events, capacity)
    ensures YoungIn(Run(p, cache, events, capacity), Min(capacity, |Demanded(events)|), Demanded(events))
  {
    if events != [] {
      var n := |events| - 1;
      YoungestAreDemanded(p, cache, events[..n], capacity);
      RunValid(p, cache, events[..n], capacity);
      YoungStep(p, Run(p, cache, events[..n], capacity), Demanded(events[..n]), events[n], capacity);
    }
  }

  /** An expert demanded within a window of at most `capacity` distinct experts is still resident. */
  lemma {:induction false} WindowHit(p: Promotion, before: seq<seq<nat>>, window: seq<seq<nat>>, capacity: nat, x: nat)
    requires Fits(before, capacity) && Fits(window, capacity)
    requires x in Demanded(window) && |Demanded(window)| <= capacity
    ensures Fits(before + window, capacity) && x in Run(p, [], before + window, capacity)
  {
    RunConcat(p, [], before, window, capacity);
    RunValid(p, [], before, capacity);
    var start := Run(p, [], before, capacity);
    YoungestAreDemanded(p, start, window, capacity);
    RunValid(p, start, window, capacity);
    var r, u := Run(p, start, window, capacity), Demanded(window);
    YoungHolds(r, u, x);
  }

  lemma {:induction false} YoungHolds(cache: seq<nat>, u: set<nat>, x: nat)
    requires Distinct(cache) && YoungIn(cache, |u|, u) && x in u
    ensures x in cache
  {
    var young := cache[|cache| - |u|..];
    assert forall i :: 0 <= i < |young| ==> young[i] == cache[|cache| - |u| + i];
    Covers(young, u);
    assert x in young;
  }

  /** An expert outside a window of at least `capacity` distinct experts has been evicted. */
  lemma {:induction false} WindowMiss(p: Promotion, before: seq<seq<nat>>, window: seq<seq<nat>>, capacity: nat, x: nat)
    requires Fits(before, capacity) && Fits(window, capacity)
    requires x !in Demanded(window) && |Demanded(window)| >= capacity
    ensures Fits(before + window, capacity) && x !in Run(p, [], before + window, capacity)
  {
    RunConcat(p, [], before, window, capacity);
    RunValid(p, [], before, capacity);
    var start := Run(p, [], before, capacity);
    YoungestAreDemanded(p, start, window, capacity);
    RunValid(p, start, window, capacity);
  }

  /**
   The window theorem.  Let `x` be last demanded in event `m` of `history`.  A demand for `x` after
   the history hits when events m.. demand at most `capacity` distinct experts, and misses when
   events m+1.. demand at least `capacity` of them.
   */
  lemma {:induction false} WindowTheorem(p: Promotion, history: seq<seq<nat>>, m: nat, capacity: nat, x: nat)
    requires Fits(history, capacity)
    requires m < |history| && x in history[m] && x !in Demanded(history[m + 1..])
    ensures |Demanded(history[m..])| <= capacity ==> x in Run(p, [], history, capacity)
    ensures |Demanded(history[m + 1..])| >= capacity ==> x !in Run(p, [], history, capacity)
  {
    hide Run, Demanded;
    if |Demanded(history[m..])| <= capacity {
      DemandedMember(history[m..], 0, x);
      WindowHit(p, history[..m], history[m..], capacity, x);
      Rejoin(history, m);
    }
    if |Demanded(history[m + 1..])| >= capacity {
      WindowMiss(p, history[..m + 1], history[m + 1..], capacity, x);
      Rejoin(history, m + 1);
    }
  }

  lemma {:induction false} Rejoin<T>(s: seq<T>, m: nat)
    requires m <= |s|
    ensures s[..m] + s[m..] == s
  {
  }
}
