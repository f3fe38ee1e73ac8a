/**
 What the reuse-distance histogram says about LRU hits.  The histogram is taken demand by demand, the
 caches work event by event, so the classical equality holds exactly for one expert per event and
 becomes a pair of bounds for wider ones.
 */
module LruReuse {
  import opened Trace
  import opened LruEngine
  import opened LruWindow
  import opened LruCapacity
  import opened ReuseDistance
  import opened LruScanOrder

  lemma {:induction false} SplitAt(event: seq<nat>, x: nat) returns (a: seq<nat>, b: seq<nat>)
    requires Distinct(event) && x in event
    ensures event == a + [x] + b && x !in a && x !in b
  {
    var i := IndexOf(event, x);
    a, b := event[..i], event[i + 1..];
  }

  lemma {:induction false} FlattenAround(history: seq<seq<nat>>, m: nat, a: seq<nat>, x: nat, b: seq<nat>)
    requires m < |history| && history[m] == a + [x] + b
    ensures Flatten(history) == (Flatten(history[..m]) + a) + [x] + (b + Flatten(history[m + 1..]))
  {
    hide Flatten;
    var before, event, after := history[..m], history[m], history[m + 1..];
    assert history == before + ([event] + after);
    FlattenConcat(before, [event] + after);
    FlattenConcat([event], after);
    FlattenOne(event);
    assert Flatten(before) + ((a + [x] + b) + Flatten(after))
        == (Flatten(before) + a) + [x] + (b + Flatten(after));
  }

  lemma {:induction false} FlattenOne(event: seq<nat>)
    ensures Flatten([event]) == event
  {
    assert [event][..0] == [];
    assert Flatten([]) + event == event;
  }

  /** The reuse distance of a demand, against the distinct experts of the events since the last one. */
  lemma {:induction false} DistanceAgainstEvents(history: seq<seq<nat>>, m: nat, scanned: seq<nat>, x: nat, k: nat)
    returns (d: nat)
    requires m < |history| && Distinct(history[m]) && x in history[m] && x !in Demanded(history[m + 1..])
    requires x !in scanned && |history[m]| <= k && |scanned| < k
    ensures Distance(Flatten(history) + scanned, x) == Some(d)
    ensures |Demanded(history[m..])| <= d + k
    ensures d <= |Demanded(history[m + 1..])| + 2 * k - 2
  {
    hide Flatten, Demanded, Distance;
    var a, b := SplitAt(history[m], x);
    var since := Flatten(history[m + 1..]);
    FlattenAround(history, m, a, x, b);
    FlattenElems(history[m + 1..]);
    var h := (b + since) + scanned;
    assert Flatten(history) + scanned == (Flatten(history[..m]) + a) + [x] + h;
    assert x !in Elems(since);
    DistanceCountsDistinct(Flatten(history[..m]) + a, x, h);
    d := |Elems(h)|;
    ElemsConcat(b + since, scanned);
    ElemsConcat(b, since);
    CardAtMost(b);
    CardAtMost(scanned);
    UnionCard(Elems(b), Elems(since));
    UnionCard(Elems(b) + Elems(since), Elems(scanned));
    WindowElems(history, m, a, x, b);
    CardAtMost(a + [x]);
    UnionCard(Elems(a + [x]), Elems(b + since));
    SubsetCard(Elems(b + since), Elems(h));
  }

  lemma {:induction false} WindowElems(history: seq<seq<nat>>, m: nat, a: seq<nat>, x: nat, b: seq<nat>)
    requires m < |history| && history[m] == a + [x] + b
    ensures Demanded(history[m..]) == Elems(a + [x]) + Elems(b + Flatten(history[m + 1..]))
  {
    hide Flatten, Demanded;
    var window := history[m..];
    assert window == [history[m]] + history[m + 1..];
    FlattenElems(window);
    FlattenConcat([history[m]], history[m + 1..]);
    FlattenOne(history[m]);
    assert Flatten(window) == (a + [x]) + (b + Flatten(history[m + 1..]));
    ElemsConcat(a + [x], b + Flatten(history[m + 1..]));
  }

  lemma {:induction false} NeverDemanded(p: Promotion, history: seq<seq<nat>>, scanned: seq<nat>, x: nat, capacity: nat)
    requires Fits(history, capacity) && x !in Demanded(history) && x !in scanned
    ensures Distance(Flatten(history) + scanned, x).None?
    ensures x !in Run(p, [], history, capacity)
  {
    hide Flatten, Demanded, Distance, Run;
    FlattenElems(history);
    assert x !in Elems(Flatten(history));
    FirstDemandIsCold(Flatten(history) + scanned, x);
    if x in Run(p, [], history, capacity) {
      ResidentWasDemanded(p, history, capacity, x);
    }
  }

  /** One demand: a reuse at distance at most C - k hits, and a hit is a reuse at most at C + 2k - 3. */
  lemma {:induction false} DemandBounds(p: Promotion, history: seq<seq<nat>>, scanned: seq<nat>, x: nat, capacity: nat,
                                        k: nat)
    requires Fits(history, capacity) && TopK(history, k) && 1 <= k <= capacity
    requires x !in scanned && |scanned| < k
    ensures var d := Distance(Flatten(history) + scanned, x);
            && (d.Some? && d.value <= capacity - k ==> x in Run(p, [], history, capacity))
            && (x in Run(p, [], history, capacity) ==> d.Some? && d.value <= capacity + 2 * k - 3)
  {
    hide Flatten, Demanded, Distance, Run;
    if x in Demanded(history) {
      var m := LastDemand(history, x);
      var _ := DistanceAgainstEvents(history, m, scanned, x, k);
      WindowTheorem(p, history, m, capacity, x);
    } else {
      NeverDemanded(p, history, scanned, x, capacity);
    }
  }

  lemma {:induction false} NearSnoc(f: seq<nat>, x: nat, t: int)
    ensures Near(f + [x], t)
         == Near(f, t) + if Distance(f, x).Some? && Distance(f, x).value <= t then 1 else 0
  {
    hide Distance;
    assert (f + [x])[..|f|] == f;
  }

  /** Where demands inside an event after `history` hit: surely up to distance `near`, and at most up to `far`. */
  ghost predicate Bounds(p: Promotion, history: seq<seq<nat>>, capacity: nat, k: nat, near: int, far: int)
    requires Fits(history, capacity)
  {
    forall scanned: seq<nat>, x: nat | Distinct(scanned) && x !in scanned && |scanned| < k ::
      BoundsAt(p, history, capacity, scanned, x, near, far)
  }

  ghost predicate BoundsAt(p: Promotion, history: seq<seq<nat>>, capacity: nat, scanned: seq<nat>, x: nat, near: int,
                           far: int)
    requires Fits(history, capacity)
  {
    var d := Distance(Flatten(history) + scanned, x);
    && (d.Some? && d.value <= near ==> x in Run(p, [], history, capacity))
    && (x in Run(p, [], history, capacity) ==> d.Some? && d.value <= far)
  }

  /** One event: its hits lie between its near reuses and its not-too-far reuses. */
  lemma {:induction false} EventBounds(p: Promotion, history: seq<seq<nat>>, scanned: seq<nat>, capacity: nat, k: nat,
                                       near: int, far: int)
    requires Fits(history, capacity) && Bounds(p, history, capacity, k, near, far)
    requires Distinct(scanned) && |scanned| <= k
    ensures var f, hits := Flatten(history), |Within(scanned, Run(p, [], history, capacity))|;
            && Near(f + scanned, near) <= Near(f, near) + hits
            && Near(f, far) + hits <= Near(f + scanned, far)
  {
    hide Near, Run, Flatten, Distance;
    var f := Flatten(history);
    if scanned == [] {
      assert f + scanned == f;
    } else {
      var n := |scanned| - 1;
      var s, x := scanned[..n], scanned[n];
      assert scanned == s + [x] && f + scanned == (f + s) + [x];
      EventBounds(p, history, s, capacity, k, near, far);
      LastIsNew(s, x);
      assert BoundsAt(p, history, capacity, s, x, near, far);
      NearSnoc(f + s, x, near);
      NearSnoc(f + s, x, far);
    }
  }

  lemma {:induction false} NearBetween(p: Promotion, history: seq<seq<nat>>, capacity: nat, k: nat, near: int, far: int)
    requires Fits(history, capacity) && TopK(history, k)
    requires forall i :: 0 <= i <= |history| ==> Bounds(p, history[..i], capacity, k, near, far)
    ensures Near(Flatten(history), near) <= Hits(p, [], history, capacity) <= Near(Flatten(history), far)
  {
    hide Near, Within, Run, Distinct, Bounds;
    if history == [] {
      NearNothing(near);
      NearNothing(far);
    } else {
      var n := |history| - 1;
      forall i | 0 <= i <= n
        ensures Bounds(p, history[..n][..i], capacity, k, near, far)
      {
        assert history[..n][..i] == history[..i];
      }
      NearBetween(p, history[..n], capacity, k, near, far);
      EventBounds(p, history[..n], history[n], capacity, k, near, far);
    }
  }

  lemma {:induction false} NearNothing(t: int)
    ensures Near([], t) == 0
  {
  }

  /**
   The whole run.  For at most k experts per event and any capacity C >= k the hits lie between the
   number of reuse distances at most C - k and the number at most C + 2k - 3.
   */
  lemma {:induction false} HitsBetweenReuses(p: Promotion, history: seq<seq<nat>>, capacity: nat, k: nat)
    requires Fits(history, capacity) && TopK(history, k) && 1 <= k <= capacity
    ensures UpTo(Histogram(Flatten(history)), capacity - k) <= Hits(p, [], history, capacity)
    ensures Hits(p, [], history, capacity) <= UpTo(Histogram(Flatten(history)), capacity + 2 * k - 3)
  {
    hide Near, Flatten, Run, Hits, Distance;
    var near, far := capacity - k, capacity + 2 * k - 3;
    forall i | 0 <= i <= |history|
      ensures Bounds(p, history[..i], capacity, k, near, far)
    {
      forall scanned: seq<nat>, x: nat | Distinct(scanned) && x !in scanned && |scanned| < k
        ensures BoundsAt(p, history[..i], capacity, scanned, x, near, far)
      {
        DemandBounds(p, history[..i], scanned, x, capacity, k);
      }
    }
    NearBetween(p, history, capacity, k, near, far);
    NearIsHistogram(Flatten(history), near);
    NearIsHistogram(Flatten(history), far);
  }

  /** Mattson's equality, for one expert per event: the hits are the reuse distances below C. */
  lemma {:induction false} MattsonForTopOne(p: Promotion, history: seq<seq<nat>>, capacity: nat)
    requires Fits(history, capacity) && TopK(history, 1) && capacity >= 1
    ensures Hits(p, [], history, capacity) == UpTo(Histogram(Flatten(history)), capacity - 1)
  {
    hide Hits, UpTo, Histogram, Flatten;
    HitsBetweenReuses(p, history, capacity, 1);
  }

  // ---- Tighter bounds for scan order ----

  /** Experts scanned earlier in the same event can push one down, but not up. */
  lemma {:induction false} ScannedDistance(f: seq<nat>, scanned: seq<nat>, x: nat)
    requires x !in scanned
    ensures var d, e := Distance(f, x), Distance(f + scanned, x);
            (d.Some? <==> e.Some?) && (d.Some? ==> d.value <= e.value <= d.value + |scanned|)
  {
    hide Distance;
    FirstDemandIsCold(f, x);
    FirstDemandIsCold(f + scanned, x);
    if x in f {
      var g, h := LastOccurrence(f, x);
      DistanceCountsDistinct(g, x, h);
      assert f + scanned == g + [x] + (h + scanned);
      DistanceCountsDistinct(g, x, h + scanned);
      ElemsConcat(h, scanned);
      SubsetCard(Elems(h), Elems(h + scanned));
      UnionCard(Elems(h), Elems(scanned));
      CardAtMost(scanned);
    }
  }

  lemma {:induction false} ScanDemandBounds(history: seq<seq<nat>>, scanned: seq<nat>, x: nat, capacity: nat, k: nat)
    requires Fits(history, capacity) && x !in scanned && |scanned| < k
    ensures BoundsAt(EventOrder, history, capacity, scanned, x, capacity - 1, capacity + k - 2)
  {
    hide Distance, Run, Flatten;
    ScannedDistance(Flatten(history), scanned, x);
    ScanOrderHitsExactly(history, capacity, x);
  }

  /**
   With scan order the hits lie between the number of reuse distances below C and the number at most
   C + k - 2, for any capacity.
   */
  lemma {:induction false} ScanOrderHitsBetweenReuses(history: seq<seq<nat>>, capacity: nat, k: nat)
    requires Fits(history, capacity) && TopK(history, k)
    ensures UpTo(Histogram(Flatten(history)), capacity - 1) <= Hits(EventOrder, [], history, capacity)
    ensures Hits(EventOrder, [], history, capacity) <= UpTo(Histogram(Flatten(history)), capacity + k - 2)
  {
    hide Near, Flatten, Run, Hits, Distance;
    var near, far := capacity - 1, capacity + k - 2;
    forall i | 0 <= i <= |history|
      ensures Bounds(EventOrder, history[..i], capacity, k, near, far)
    {
      forall scanned: seq<nat>, x: nat | Distinct(scanned) && x !in scanned && |scanned| < k
        ensures BoundsAt(EventOrder, history[..i], capacity, scanned, x, near, far)
      {
        ScanDemandBounds(history[..i], scanned, x, capacity, k);
      }
    }
    NearBetween(EventOrder, history, capacity, k, near, far);
    NearIsHistogram(Flatten(history), near);
    NearIsHistogram(Flatten(history), far);
  }

  // ---- The hits-first bounds are sharp ----

  function Range(from: nat, n: nat): (r: seq<nat>)
    ensures |r| == n && forall i :: 0 <= i < n ==> r[i] == from + i
  {
    seq(n, i requires 0 <= i => from + i)
  }

  lemma {:induction false} RangeFacts(from: nat, n: nat)
    ensures Distinct(Range(from, n)) && |Elems(Range(from, n))| == n
    ensures forall y :: y in Range(from, n) <==> from <= y < from + n
  {
    var r := Range(from, n);
    DistinctCard(r);
    forall y | from <= y < from + n
      ensures y in r
    {
      assert r[y - from] == y;
    }
  }

  /** Experts that are new to the cache, demanded one by one, queue up behind it. */
  lemma {:induction false} FreshRun(before: seq<seq<nat>>, unseen: seq<nat>, capacity: nat)
    requires Fits(before, capacity) && capacity > 0 && Distinct(unseen)
    requires forall y :: y in unseen ==> y !in Run(HitsFirst, [], before, capacity)
    ensures Fits(before + Singles(unseen), capacity)
    ensures Run(HitsFirst, [], before + Singles(unseen), capacity)
      == LastN(Run(HitsFirst, [], before, capacity) + unseen, capacity)
  {
    hide Run, Within, Without, Distinct, LastN;
    var cache := Run(HitsFirst, [], before, capacity);
    if unseen == [] {
      NothingValid(capacity);
      RunValid(HitsFirst, [], before, capacity);
      assert before + Singles(unseen) == before && cache + unseen == cache;
      NothingTrimmed(cache, capacity);
    } else {
      var n := |unseen| - 1;
      var head, y := unseen[..n], unseen[n];
      assert unseen == head + [y];
      HeadDistinct(head, y);
      FreshRun(before, head, capacity);
      assert before + Singles(unseen) == (before + Singles(head)) + [[y]];
      var queued := Run(HitsFirst, [], before + Singles(head), capacity);
      LastNMember(cache + head, capacity, y);
      ServeFresh(queued, y, capacity);
      RunSnocOne(before + Singles(head), [y], capacity);
      QueueOne(cache + head, y, capacity);
      assert cache + unseen == (cache + head) + [y];
    }
  }

  lemma {:induction false} HeadDistinct(head: seq<nat>, y: nat)
    requires Distinct(head + [y])
    ensures Distinct(head) && y !in head
  {
    LastIsNew(head, y);
    assert forall i :: 0 <= i < |head| ==> (head + [y])[i] == head[i];
  }

  lemma {:induction false} LastNMember(s: seq<nat>, n: nat, y: nat)
    requires y !in s
    ensures y !in LastN(s, n)
  {
  }

  lemma {:induction false} NothingValid(capacity: nat)
    ensures ValidCache([], capacity)
  {
  }

  lemma {:induction false} RunSnocOne(before: seq<seq<nat>>, event: seq<nat>, capacity: nat)
    requires Fits(before, capacity) && Distinct(event) && |event| <= capacity
    ensures Fits(before + [event], capacity)
    ensures Run(HitsFirst, [], before + [event], capacity)
      == Serve(HitsFirst, Run(HitsFirst, [], before, capacity), event, capacity)
  {
    hide Serve, Distinct;
    assert (before + [event])[..|before|] == before;
  }

  lemma {:induction false} ServeFresh(cache: seq<nat>, y: nat, capacity: nat)
    requires y !in cache && capacity > 0
    ensures Distinct([y]) && Serve(HitsFirst, cache, [y], capacity) == LastN(cache, capacity - 1) + [y]
  {
    hide Within, Without, LastN;
    FilterNone(cache, [y]);
    FilterNone([y], cache);
    assert [] + [y] == [y];
  }

  lemma {:induction false} QueueOne(s: seq<nat>, y: nat, capacity: nat)
    requires capacity > 0
    ensures LastN(LastN(s, capacity), capacity - 1) + [y] == LastN(s + [y], capacity)
  {
  }

  /** A reuse one beyond the lower bound can miss. */
  lemma {:induction false} LowerBoundIsSharp(capacity: nat, k: nat) returns (history: seq<seq<nat>>, x: nat)
    requires 1 <= k <= capacity
    ensures Fits(history, capacity) && TopK(history, k)
    ensures Distance(Flatten(history), x) == Some(capacity - k + 1) && x !in Run(HitsFirst, [], history, capacity)
  {
    hide Run, Flatten, Distance, Within, Without, LastN, Distinct, Range, Elems;
    x := 0;
    var others, later := Range(1, k - 1), Range(k, capacity - k + 1);
    RangeFacts(1, k - 1);
    RangeFacts(k, capacity - k + 1);
    var before := [[x], others + [x]];
    HitThenMisses(x, others, capacity);
    FreshRun(before, later, capacity);
    history := before + Singles(later);
    var cache := [x] + others;
    assert cache + later == [x] + (others + later);
    LastNTail([x], others + later, capacity);
    FlattenTwo([x], others + [x]);
    FlattenSingles(later);
    FlattenConcat(before, Singles(later));
    assert Flatten(history) == ([x] + others) + [x] + later;
    DistanceCountsDistinct([x] + others, x, later);
  }

  lemma {:induction false} LastNTail(a: seq<nat>, b: seq<nat>, n: nat)
    requires |b| == n
    ensures LastN(a + b, n) == b
  {
  }

  /** An expert that hits while the others of its event miss is filed before them, whatever the scan. */
  lemma {:induction false} HitThenMisses(x: nat, others: seq<nat>, capacity: nat)
    requires Distinct(others) && x !in others && |others| < capacity
    ensures Fits([[x], others + [x]], capacity) && Run(HitsFirst, [], [[x], others + [x]], capacity) == [x] + others
  {
    hide Run, Serve, Distinct;
    DistinctConcat(others, [x]);
    DistinctOne(x);
    StartRun(capacity);
    RunSnocOne([], [x], capacity);
    assert [] + [[x]] == [[x]] && [[x]] + [others + [x]] == [[x], others + [x]];
    RunSnocOne([[x]], others + [x], capacity);
    ServeFirst([x], capacity);
    ServeHitAndMisses(x, others, capacity);
  }

  lemma {:induction false} DistinctOne(x: nat)
    ensures Distinct([x])
  {
  }

  lemma {:induction false} ServeHitAndMisses(x: nat, others: seq<nat>, capacity: nat)
    requires x !in others && |others| < capacity && Distinct(others) && Distinct(others + [x])
    ensures Serve(HitsFirst, [x], others + [x], capacity) == [x] + others
  {
    hide Within, Without, Distinct;
    FilterAll([x], others + [x]);
    FilterConcat(others, [x], [x]);
    FilterNone(others, [x]);
    FilterAll([x], [x]);
    assert [] + [x] == [x] && others + [] == others;
  }

  lemma {:induction false} StartRun(capacity: nat)
    ensures Fits([], capacity) && Run(HitsFirst, [], [], capacity) == []
  {
  }

  lemma {:induction false} FlattenTwo(a: seq<nat>, b: seq<nat>)
    ensures Flatten([a, b]) == a + b
  {
    var two := [a, b];
    assert two[..1] == [a];
    FlattenOne(a);
  }

  lemma {:induction false} FlattenSingles(s: seq<nat>)
    ensures Flatten(Singles(s)) == s
  {
    if s != [] {
      var n := |s| - 1;
      FlattenSingles(s[..n]);
      assert Singles(s)[..n] == Singles(s[..n]);
    }
  }

  /** A hit can lie as far as the upper bound. */
  lemma {:induction false} UpperBoundIsSharp(capacity: nat, k: nat)
    returns (history: seq<seq<nat>>, scanned: seq<nat>, x: nat)
    requires 2 <= k <= capacity
    ensures Fits(history, capacity) && TopK(history, k) && Distinct(scanned) && x !in scanned && |scanned| < k
    ensures Distance(Flatten(history) + scanned, x) == Some(capacity + 2 * k - 3)
      && x in Run(HitsFirst, [], history, capacity)
  {
    hide Run, Flatten, Distance, Within, Without, LastN, Distinct, Range, Elems;
    x := 0;
    var others, later := Range(1, k - 1), Range(k, capacity - 1);
    scanned := Range(capacity + k - 1, k - 1);
    RangeFacts(1, k - 1);
    RangeFacts(k, capacity - 1);
    RangeFacts(capacity + k - 1, k - 1);
    RangeFacts(1, capacity + 2 * k - 3);
    var before := [others, [x] + others];
    MissThenHits(x, others, capacity);
    FreshRun(before, later, capacity);
    history := before + Singles(later);
    var cache := others + [x];
    assert cache + later == others + ([x] + later);
    LastNTail(others, [x] + later, capacity);
    FlattenTwo(others, [x] + others);
    FlattenSingles(later);
    FlattenConcat(before, Singles(later));
    var h := (others + later) + scanned;
    assert Flatten(history) + scanned == others + [x] + h;
    RangeJoin(1, k - 1, capacity - 1);
    RangeJoin(1, capacity + k - 2, k - 1);
    DistanceCountsDistinct(others, x, h);
  }

  lemma {:induction false} RangeJoin(from: nat, m: nat, n: nat)
    ensures Range(from, m) + Range(from + m, n) == Range(from, m + n)
  {
  }

  /** An expert that misses while the others of its event hit is filed after them, whatever the scan. */
  lemma {:induction false} MissThenHits(x: nat, others: seq<nat>, capacity: nat)
    requires Distinct(others) && x !in others && |others| < capacity
    ensures Fits([others, [x] + others], capacity)
      && Run(HitsFirst, [], [others, [x] + others], capacity) == others + [x]
  {
    hide Run, Serve, Distinct;
    DistinctConcat([x], others);
    StartRun(capacity);
    RunSnocOne([], others, capacity);
    assert [] + [others] == [others] && [others] + [[x] + others] == [others, [x] + others];
    RunSnocOne([others], [x] + others, capacity);
    ServeFirst(others, capacity);
    ServeMissAndHits(x, others, capacity);
  }

  lemma {:induction false} ServeFirst(event: seq<nat>, capacity: nat)
    requires Distinct(event) && |event| <= capacity
    ensures Serve(HitsFirst, [], event, capacity) == event
  {
    hide Within, Without, Distinct;
    FilterNone([], event);
    FilterNone(event, []);
    assert LastN([], capacity - |event|) + ([] + event) == event;
  }

  lemma {:induction false} ServeMissAndHits(x: nat, others: seq<nat>, capacity: nat)
    requires x !in others && |others| < capacity && Distinct(others) && Distinct([x] + others)
    ensures Serve(HitsFirst, others, [x] + others, capacity) == others + [x]
  {
    hide Within, Without, Distinct;
    FilterAll(others, [x] + others);
    FilterConcat([x], others, others);
    FilterNone([x], others);
    FilterAll(others, others);
    assert [] + others == others && [x] + [] == [x];
  }
}
