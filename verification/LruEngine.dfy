/**
 Event-batched LRU. One router observation demands several experts at once; the caches of the
 policy simulator, of the routing-locality report and of the prefetch simulator differ only in the
 order in which they file the experts of one event.

 A cache is an ordered dictionary without values: a duplicate-free sequence, oldest entry first.
 */
module LruEngine {
  import opened Trace

  /** How the experts of one event are ordered among themselves once it has been served. */
  datatype Promotion =
    | HitsFirst   // hits are promoted during the scan, misses are appended after it
    | EventOrder  // every expert is filed as it is scanned

  function Arrange(p: Promotion, cache: seq<nat>, event: seq<nat>): seq<nat> {
    match p
    case HitsFirst => Within(event, cache) + Without(event, cache)
    case EventOrder => event
  }

  /** The cache after one event: the newest entries that still fit, then the event's own experts. */
  function Serve(p: Promotion, cache: seq<nat>, event: seq<nat>, capacity: int): seq<nat>
    requires |event| <= capacity
  {
    LastN(Without(cache, event), capacity - |event|) + Arrange(p, cache, event)
  }

  ghost predicate Fits(events: seq<seq<nat>>, capacity: int) {
    forall i :: 0 <= i < |events| ==> Distinct(events[i]) && |events[i]| <= capacity
  }

  ghost predicate ValidCache(cache: seq<nat>, capacity: int) {
    Distinct(cache) && |cache| <= capacity
  }

  /** The cache after a whole sequence of events. */
  function Run(p: Promotion, cache: seq<nat>, events: seq<seq<nat>>, capacity: int): seq<nat>
    requires Fits(events, capacity)
  {
    if events == [] then cache
    else
      var n := |events| - 1;
      Serve(p, Run(p, cache, events[..n], capacity), events[n], capacity)
  }

  /** How many demands of a whole sequence of events find their expert resident. */
  function Hits(p: Promotion, cache: seq<nat>, events: seq<seq<nat>>, capacity: int): nat
    requires Fits(events, capacity)
  {
    if events == [] then 0
    else
      var n := |events| - 1;
      Hits(p, cache, events[..n], capacity)
      + |Within(events[n], Run(p, cache, events[..n], capacity))|
  }

  function Demand(events: seq<seq<nat>>): nat {
    if events == [] then 0 else Demand(events[..|events| - 1]) + |events[|events| - 1]|
  }

  lemma {:induction false} ArrangeElems(p: Promotion, cache: seq<nat>, event: seq<nat>)
    requires Distinct(event)
    ensures Distinct(Arrange(p, cache, event))
    ensures forall x :: x in Arrange(p, cache, event) <==> x in event
    ensures |Arrange(p, cache, event)| == |event|
  {
    FilterElems(event, cache);
    FilterDistinct(event, cache);
    DistinctConcat(Within(event, cache), Without(event, cache));
  }

  /** Serving keeps the dictionary duplicate-free and within capacity, and makes the event resident. */
  lemma {:induction false} ServeValid(p: Promotion, cache: seq<nat>, event: seq<nat>, capacity: int)
    requires Distinct(cache) && Distinct(event) && |event| <= capacity
    ensures ValidCache(Serve(p, cache, event, capacity), capacity)
    ensures forall x :: x in event ==> x in Serve(p, cache, event, capacity)
    ensures forall x :: x in Serve(p, cache, event, capacity) ==> x in event || x in cache
  {
    FilterElems(cache, event);
    FilterDistinct(cache, event);
    ArrangeElems(p, cache, event);
    var kept := LastN(Without(cache, event), capacity - |event|);
    assert forall x :: x in kept ==> x in Without(cache, event);
    assert Distinct(kept);
    DistinctConcat(kept, Arrange(p, cache, event));
  }

  lemma {:induction false} RunValid(p: Promotion, cache: seq<nat>, events: seq<seq<nat>>, capacity: int)
    requires ValidCache(cache, capacity) && Fits(events, capacity)
    ensures ValidCache(Run(p, cache, events, capacity), capacity)
  {
    if events != [] {
      var n := |events| - 1;
      RunValid(p, cache, events[..n], capacity);
      ServeValid(p, Run(p, cache, events[..n], capacity), events[n], capacity);
    }
  }

  /** Running a concatenation is running its parts in turn. */
  lemma {:induction false} RunConcat(p: Promotion, cache: seq<nat>, first: seq<seq<nat>>, second: seq<seq<nat>>,
                                     capacity: int)
    requires Fits(first, capacity) && Fits(second, capacity)
    ensures Fits(first + second, capacity)
    ensures Run(p, cache, first + second, capacity)
         == Run(p, Run(p, cache, first, capacity), second, capacity)
    ensures Hits(p, cache, first + second, capacity)
         == Hits(p, cache, first, capacity) + Hits(p, Run(p, cache, first, capacity), second, capacity)
  {
    hide Serve, Within;
    if second == [] {
      assert first + second == first;
    } else {
      var n := |second| - 1;
      RunConcat(p, cache, first, second[..n], capacity);
      assert (first + second)[..|first + second| - 1] == first + second[..n];
    }
  }

  /** Two trims of the same dictionary compose: only the size left over at the end matters. */
  lemma {:induction false} LastNSuffix<T>(s: seq<T>, d: nat, n: nat)
    requires d <= |s|
    requires |s| - d <= n
    requires d > 0 ==> |s| - d == n
    ensures s[d..] == LastN(s, n)
  {
  }

  /** The first entry that is not protected, as the victim scan finds it. */
  method FindVictim(cache: seq<nat>, required: seq<nat>) returns (victim: Option<nat>)
    ensures victim.Some? ==> victim.value < |cache| && cache[victim.value] !in required
    ensures victim.Some? ==> forall j :: 0 <= j < victim.value ==> cache[j] in required
    ensures victim.None? ==> forall j :: 0 <= j < |cache| ==> cache[j] in required
  {
    var i := 0;
    while i < |cache|
      invariant 0 <= i <= |cache|
      invariant forall j :: 0 <= j < i ==> cache[j] in required
    {
      if cache[i] !in required {
        return Some(i);
      }
      i := i + 1;
    }
    return None;
  }

  /** Removing a resident expert and appending it again. */
  method MoveToEnd(cache: seq<nat>, expert: nat) returns (r: seq<nat>)
    requires Distinct(cache) && expert in cache
    ensures r == Without(cache, [expert]) + [expert]
  {
    var i :| 0 <= i < |cache| && cache[i] == expert;
    r := cache[..i] + cache[i + 1..] + [expert];
    RemoveAt(cache, i);
  }

  lemma {:induction false} WithoutTwice(s: seq<nat>, r: seq<nat>, q: seq<nat>)
    ensures Without(Without(s, r), q) == Without(s, r + q)
  {
    if s != [] {
      var n := |s| - 1;
      WithoutTwice(s[..n], r, q);
      var tail := if s[n] in r then [] else [s[n]];
      FilterConcat(Without(s[..n], r), tail, q);
      if s[n] in r {
        FilterNone(tail, q);
      } else if s[n] in q {
        FilterAll(tail, q);
      } else {
        FilterNone(tail, q);
      }
    }
  }

  /** The scan over one event: hits move to the young end in event order, misses are set aside. */
  method PromoteHits(cache: seq<nat>, event: seq<nat>)
    returns (after: seq<nat>, ready: seq<nat>, blocking: seq<nat>)
    requires Distinct(cache) && Distinct(event)
    ensures ready == Within(event, cache) && blocking == Without(event, cache)
    ensures after == Without(cache, event) + ready
  {
    after, ready, blocking := cache, [], [];
    FilterNone(cache, []);
    var i := 0;
    while i < |event|
      invariant 0 <= i <= |event|
      invariant ready == Within(event[..i], cache) && blocking == Without(event[..i], cache)
      invariant after == Without(cache, ready) + ready
    {
      assert event[..i + 1][..i] == event[..i];
      if event[i] in after {
        ScanHit(cache, event, i, ready);
        after := MoveToEnd(after, event[i]);
        ready := ready + [event[i]];
      } else {
        ScanMiss(cache, event, i, ready);
        blocking := blocking + [event[i]];
      }
      i := i + 1;
    }
    assert event[..i] == event;
    ScannedAll(cache, event);
  }

  lemma {:induction false} ScanHit(cache: seq<nat>, event: seq<nat>, i: nat, ready: seq<nat>)
    requires Distinct(cache) && Distinct(event) && i < |event|
    requires ready == Within(event[..i], cache)
    requires event[i] in Without(cache, ready) + ready
    ensures event[i] in cache
    ensures Distinct(Without(cache, ready) + ready)
    ensures Without(Without(cache, ready) + ready, [event[i]]) + [event[i]]
         == Without(cache, ready + [event[i]]) + (ready + [event[i]])
  {
    var x, old' := event[i], Without(cache, ready);
    assert x !in event[..i];
    FilterElems(cache, ready);
    FilterElems(event[..i], cache);
    assert x !in ready;
    assert x in old';
    FilterDistinct(cache, ready);
    FilterDistinct(event[..i], cache);
    DistinctConcat(old', ready);
    PromoteOne(cache, ready, x);
  }

  lemma {:induction false} PromoteOne(cache: seq<nat>, ready: seq<nat>, x: nat)
    requires x !in ready
    ensures Without(Without(cache, ready) + ready, [x]) + [x] == Without(cache, ready + [x]) + (ready + [x])
  {
    FilterConcat(Without(cache, ready), ready, [x]);
    FilterNone(ready, [x]);
    WithoutTwice(cache, ready, [x]);
  }

  lemma {:induction false} ScanMiss(cache: seq<nat>, event: seq<nat>, i: nat, ready: seq<nat>)
    requires i < |event|
    requires ready == Within(event[..i], cache)
    requires event[i] !in Without(cache, ready) + ready
    ensures event[i] !in cache
  {
    var x, old' := event[i], Without(cache, ready);
    assert x !in old' && x !in ready;
    FilterElems(cache, ready);
  }

  lemma {:induction false} ScannedAll(cache: seq<nat>, event: seq<nat>)
    ensures Without(cache, Within(event, cache)) == Without(cache, event)
  {
    FilterElems(event, cache);
    forall i | 0 <= i < |cache|
      ensures cache[i] in Within(event, cache) <==> cache[i] in event
    {
      var x := cache[i];
      assert x in cache;
      assert x in event ==> x in Within(event, cache);
    }
    FilterSameElems(cache, Within(event, cache), event);
  }

  /** Evicting the oldest entries that the event does not need, until one more expert fits. */
  method MakeRoom(cache: seq<nat>, event: seq<nat>, capacity: int, ghost stale: seq<nat>, ghost filed: seq<nat>)
    returns (ok: bool, after: seq<nat>)
    requires cache == stale + filed
    requires forall i :: 0 <= i < |stale| ==> stale[i] !in event
    requires forall i :: 0 <= i < |filed| ==> filed[i] in event
    requires cache == [] || |cache| <= capacity
    ensures ok <==> |filed| < capacity
    ensures ok ==> after == (if |cache| < capacity then stale else stale[1..]) + filed
  {
    after := cache;
    ghost var d := 0;
    while |after| >= capacity
      invariant 0 <= d <= |stale|
      invariant after == stale[d..] + filed
      invariant d == 0 || |after| == capacity - 1
      decreases |after|
    {
      var victim := FindVictim(after, event);
      if d < |stale| {
        assert after[0] == stale[d];
      } else {
        assert after == filed;
      }
      if victim.None? {
        return false, [];
      }
      after := after[..victim.value] + after[victim.value + 1..];
      d := d + 1;
    }
    ok := true;
  }

  /** Appending the misses, each after making room for it. */
  method AdmitMisses(stale: seq<nat>, ready: seq<nat>, blocking: seq<nat>, event: seq<nat>, capacity: int)
    returns (ok: bool, after: seq<nat>)
    requires forall x :: x in stale ==> x !in event
    requires forall x :: x in ready + blocking ==> x in event
    requires |stale| + |ready| == 0 || |stale| + |ready| <= capacity
    ensures ok <==> blocking == [] || |ready| + |blocking| <= capacity
    ensures ok && blocking == [] ==> after == stale + ready
    ensures ok && blocking != [] ==> after == LastN(stale, capacity - |ready| - |blocking|) + ready + blocking
  {
    hide LastN;
    after := stale + ready;
    ghost var d := 0;
    var j := 0;
    while j < |blocking|
      invariant 0 <= j <= |blocking| && 0 <= d <= |stale|
      invariant after == stale[d..] + (ready + blocking[..j])
      invariant after == [] || |after| <= capacity
      invariant d > 0 ==> |after| == capacity
    {
      FiledInEvent(ready, blocking, event, j);
      StaleOutside(stale, d, event);
      var full := |after| >= capacity;
      ok, after := MakeRoom(after, event, capacity, stale[d..], ready + blocking[..j]);
      if !ok {
        return false, [];
      }
      assert stale[d..][0..] == stale[d..];
      assert full ==> stale[d..][1..] == stale[d + 1..];
      d := if full then d + 1 else d;
      assert blocking[..j + 1] == blocking[..j] + [blocking[j]];
      after := after + [blocking[j]];
      j := j + 1;
    }
    ok := true;
    if blocking != [] {
      assert blocking[..j] == blocking;
      LastNSuffix(stale, d, capacity - |ready| - |blocking|);
    }
  }

  lemma {:induction false} FiledInEvent(ready: seq<nat>, blocking: seq<nat>, event: seq<nat>, j: nat)
    requires j <= |blocking| && forall x :: x in ready + blocking ==> x in event
    ensures forall i :: 0 <= i < |ready + blocking[..j]| ==> (ready + blocking[..j])[i] in event
  {
    forall i | 0 <= i < |ready + blocking[..j]|
      ensures (ready + blocking[..j])[i] in event
    {
      assert (ready + blocking[..j])[i] == (ready + blocking)[i];
    }
  }

  lemma {:induction false} StaleOutside(stale: seq<nat>, d: nat, event: seq<nat>)
    requires d <= |stale| && forall x :: x in stale ==> x !in event
    ensures forall i :: 0 <= i < |stale[d..]| ==> stale[d..][i] !in event
  {
    forall i | 0 <= i < |stale[d..]|
      ensures stale[d..][i] !in event
    {
      assert stale[d..][i] == stale[d + i];
    }
  }

  /**
   One event of the policy simulator: hits are promoted in event order, then every miss is appended
   after evicting the oldest entries that the event itself does not need.  The victim scan runs dry
   exactly when the event is wider than the cache.
   */
  method ServeEvent(cache: seq<nat>, event: seq<nat>, capacity: int)
    returns (ok: bool, after: seq<nat>, ready: seq<nat>, blocking: seq<nat>)
    requires Distinct(cache) && Distinct(event) && event != []
    requires cache == [] || |cache| <= capacity
    ensures ok <==> |event| <= capacity
    ensures ok ==> ready == Within(event, cache) && blocking == Without(event, cache)
    ensures ok ==> after == Serve(HitsFirst, cache, event, capacity)
  {

    hide Within, Without, LastN, Distinct;
    after, ready, blocking := PromoteHits(cache, event);
    FilterElems(cache, event);
    FilterElems(event, cache);
    ResidentCount(cache, event);
    var stale := after[..|after| - |ready|];
    assert stale == Without(cache, event);
    ok, after := AdmitMisses(stale, ready, blocking, event, capacity);
    if ok {
      NothingTrimmed(stale, capacity - |event|);
      assert LastN(stale, capacity - |event|) + ready + blocking
          == LastN(stale, capacity - |event|) + (ready + blocking);
    }
  }

  lemma {:induction false} NothingTrimmed(s: seq<nat>, n: nat)
    ensures |s| <= n ==> LastN(s, n) == s
  {
  }

  lemma {:induction false} ResidentCount(cache: seq<nat>, event: seq<nat>)
    requires Distinct(cache) && Distinct(event)
    ensures |Without(cache, event)| + |Within(event, cache)| == |cache|
  {
    FilterElems(event, cache);
    FilterElems(cache, event);
    FilterDistinct(event, cache);
    FilterDistinct(cache, event);
    SameElemsSameLength(Within(event, cache), Within(cache, event));
  }
}
