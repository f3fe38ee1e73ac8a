/**
 The prefetch simulator files every expert as it is scanned.  With that order the event-batched cache
 is exactly the top of the reuse-distance stack, so it is a stack algorithm for every top-k.
 */
module LruScanOrder {
  import opened Trace
  import opened LruEngine
  import opened LruCapacity
  import opened ReuseDistance

  /** The experts seen so far, the most recently demanded one last. */
  function MostRecent(demands: seq<nat>): seq<nat> {
    if demands == [] then []
    else
      var n := |demands| - 1;
      Without(MostRecent(demands[..n]), [demands[n]]) + [demands[n]]
  }

  lemma {:induction false} MostRecentSnoc(f: seq<nat>, z: nat)
    ensures MostRecent(f + [z]) == Without(MostRecent(f), [z]) + [z]
  {
    assert (f + [z])[..|f|] == f;
  }

  lemma {:induction false} MostRecentElems(demands: seq<nat>)
    ensures Distinct(MostRecent(demands))
    ensures forall x :: x in MostRecent(demands) <==> x in demands
  {
    hide MostRecent, Without;
    if demands == [] {
      NothingRecent();
    } else {
      var n := |demands| - 1;
      var f, z := demands[..n], demands[n];
      assert demands == f + [z];
      MostRecentSnoc(f, z);
      MostRecentElems(f);
      FilterElems(MostRecent(f), [z]);
      FilterDistinct(MostRecent(f), [z]);
      DistinctConcat(Without(MostRecent(f), [z]), [z]);
    }
  }

  lemma {:induction false} NothingRecent()
    ensures MostRecent([]) == []
  {
  }

  /** Demanding a whole event moves it, in order, to the young end. */
  lemma {:induction false} MostRecentEvent(f: seq<nat>, event: seq<nat>)
    requires Distinct(event)
    ensures MostRecent(f + event) == Without(MostRecent(f), event) + event
  {
    hide MostRecent, Within, Without;
    if event == [] {
      assert f + event == f;
      FilterNone(MostRecent(f), []);
    } else {
      var n := |event| - 1;
      var e, z := event[..n], event[n];
      assert event == e + [z] && f + event == (f + e) + [z];
      MostRecentEvent(f, e);
      MostRecentSnoc(f + e, z);
      FilterConcat(Without(MostRecent(f), e), e, [z]);
      LastIsNew(e, z);
      FilterNone(e, [z]);
      WithoutTwice(MostRecent(f), e, [z]);
    }
  }

  /** Trimming before an event loses nothing that trimming after it would keep. */
  lemma {:induction false} TrimEarly(recent: seq<nat>, event: seq<nat>, capacity: nat)
    requires Distinct(recent) && Distinct(event) && |event| <= capacity
    ensures LastN(Without(LastN(recent, capacity), event), capacity - |event|)
         == LastN(Without(recent, event), capacity - |event|)
  {
    if |recent| > capacity {
      var d := |recent| - capacity;
      var old', young := recent[..d], recent[d..];
      FilterCount(young, event);
      FilterConcat(old', young, event);
      assert recent == old' + young;
      LastNOfConcat(Without(old', event), Without(young, event), capacity - |event|);
    }
  }

  lemma {:induction false} FilterCount(young: seq<nat>, event: seq<nat>)
    requires Distinct(young) && Distinct(event)
    ensures |Without(young, event)| >= |young| - |event|
  {
    hide Within, Without;
    ResidentCount(young, event);
    FilterElems(event, young);
  }

  lemma {:induction false} LastNOfConcat(s: seq<nat>, t: seq<nat>, n: nat)
    requires n <= |t|
    ensures LastN(s + t, n) == LastN(t, n)
  {
  }

  /** The cache of a scan-order run is the most recent `capacity` experts, in order. */
  lemma {:induction false} ScanOrderCache(history: seq<seq<nat>>, capacity: nat)
    requires Fits(history, capacity)
    ensures Run(EventOrder, [], history, capacity) == LastN(MostRecent(Flatten(history)), capacity)
  {
    hide MostRecent, Without, LastN;
    if history == [] {
      NothingRecent();
      NothingTrimmed([], capacity);
    } else {
      var n := |history| - 1;
      var recent, event := MostRecent(Flatten(history[..n])), history[n];
      ScanOrderCache(history[..n], capacity);
      MostRecentElems(Flatten(history[..n]));
      MostRecentEvent(Flatten(history[..n]), event);
      TrimEarly(recent, event, capacity);
      LastNAppend(Without(recent, event), event, capacity);
    }
  }

  lemma {:induction false} LastNAppend(s: seq<nat>, t: seq<nat>, n: nat)
    requires |t| <= n
    ensures LastN(s + t, n) == LastN(s, n - |t|) + t
  {
  }

  lemma {:induction false} YoungerSinceDemand(g: seq<nat>, x: nat, h: seq<nat>)
    requires x !in h
    ensures Younger(MostRecent(g + [x] + h), x) == Elems(h)
  {
    hide MostRecent, Without, Younger;
    if h == [] {
      assert g + [x] + h == g + [x];
      MostRecentSnoc(g, x);
      YoungerSnoc(Without(MostRecent(g), [x]), x, x);
      assert Elems(h) == {};
    } else {
      var n := |h| - 1;
      var f, y := h[..n], h[n];
      assert h == f + [y] && g + [x] + h == (g + [x] + f) + [y];
      var r := MostRecent(g + [x] + f);
      YoungerSinceDemand(g, x, f);
      MostRecentSnoc(g + [x] + f, y);
      MostRecentElems(g + [x] + f);
      assert (g + [x] + f)[|g|] == x;
      FilterElems(r, [y]);
      YoungerFilter(r, [y], x);
      YoungerSnoc(Without(r, [y]), y, x);
      ElemsConcat(f, [y]);
      assert Elems([y]) == {y};
    }
  }

  lemma {:induction false} LastOccurrence(f: seq<nat>, x: nat) returns (g: seq<nat>, h: seq<nat>)
    requires x in f
    ensures f == g + [x] + h && x !in h
  {
    var n := |f| - 1;
    if f[n] == x {
      g, h := f[..n], [];
    } else {
      g, h := LastOccurrence(f[..n], x);
      h := h + [f[n]];
    }
  }

  /**
   A demand hits the scan-order cache exactly when its expert is among the top `capacity` entries of
   the reuse-distance stack at the start of the event.
   */
  lemma {:induction false} ScanOrderHitsExactly(history: seq<seq<nat>>, capacity: nat, x: nat)
    requires Fits(history, capacity)
    ensures x in Run(EventOrder, [], history, capacity)
       <==> Distance(Flatten(history), x).Some? && Distance(Flatten(history), x).value < capacity
  {
    hide MostRecent, Younger, Run, Flatten, Distance;
    var f := Flatten(history);
    ScanOrderCache(history, capacity);
    MostRecentElems(f);
    FirstDemandIsCold(f, x);
    if x in f {
      var g, h := LastOccurrence(f, x);
      DistanceCountsDistinct(g, x, h);
      YoungerSinceDemand(g, x, h);
      YoungestN(MostRecent(f), capacity, x);
    } else {
      assert forall y :: y in LastN(MostRecent(f), capacity) ==> y in MostRecent(f);
    }
  }

  function Singles(cache: seq<nat>): seq<seq<nat>> {
    seq(|cache|, i requires 0 <= i < |cache| => [cache[i]])
  }

  /** Any cache is what demanding its entries one by one leaves. */
  lemma {:induction false} SinglesRun(cache: seq<nat>, capacity: nat)
    requires ValidCache(cache, capacity)
    ensures Fits(Singles(cache), capacity) && Flatten(Singles(cache)) == cache
    ensures Run(EventOrder, [], Singles(cache), capacity) == cache
  {
    hide Without, Within;
    if cache != [] {
      var n := |cache| - 1;
      var head, x := cache[..n], cache[n];
      assert cache == head + [x] && Singles(cache) == Singles(head) + [[x]];
      assert Singles(cache)[..n] == Singles(head);
      SinglesRun(head, capacity);
      LastIsNew(head, x);
      FilterNone(head, [x]);
    }
  }

  /** The same from any cache: what counts is what was filed or demanded since the expert last was. */
  lemma {:induction false} ScanOrderFrom(cache: seq<nat>, history: seq<seq<nat>>, capacity: nat, x: nat)
    requires ValidCache(cache, capacity) && Fits(history, capacity)
    ensures var d := Distance(cache + Flatten(history), x);
            x in Run(EventOrder, cache, history, capacity) <==> d.Some? && d.value < capacity
  {
    hide Run, Distance, Flatten, Singles, Distinct;
    SinglesRun(cache, capacity);
    RunConcat(EventOrder, [], Singles(cache), history, capacity);
    FlattenConcat(Singles(cache), history);
    ScanOrderHitsExactly(Singles(cache) + history, capacity, x);
  }

  /** With scan order more slots keep everything, whatever the top-k ... */
  lemma {:induction false} ScanOrderInclusion(history: seq<seq<nat>>, capacity: nat, more: nat)
    requires Fits(history, capacity) && capacity <= more
    ensures Fits(history, more)
    ensures forall x :: x in Run(EventOrder, [], history, capacity) ==> x in Run(EventOrder, [], history, more)
  {
    hide Run, Flatten, Distance;
    forall x | x in Run(EventOrder, [], history, capacity)
      ensures x in Run(EventOrder, [], history, more)
    {
      ScanOrderHitsExactly(history, capacity, x);
      ScanOrderHitsExactly(history, more, x);
    }
  }

  lemma {:induction false} WithinMonotone(event: seq<nat>, small: seq<nat>, large: seq<nat>)
    requires forall x :: x in small ==> x in large
    ensures |Within(event, small)| <= |Within(event, large)|
  {
    if event != [] {
      WithinMonotone(event[..|event| - 1], small, large);
    }
  }

  /** ... and never hit less often, whatever the top-k. */
  lemma {:induction false} ScanOrderNeverHitsLess(history: seq<seq<nat>>, capacity: nat, more: nat)
    requires Fits(history, capacity) && capacity <= more
    ensures Fits(history, more)
    ensures Hits(EventOrder, [], history, capacity) <= Hits(EventOrder, [], history, more)
  {
    hide Run, Within;
    if history != [] {
      var n := |history| - 1;
      ScanOrderNeverHitsLess(history[..n], capacity, more);
      ScanOrderInclusion(history[..n], capacity, more);
      WithinMonotone(history[n], Run(EventOrder, [], history[..n], capacity), Run(EventOrder, [], history[..n], more));
    }
  }
}
