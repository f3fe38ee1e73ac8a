/**
 What one more slot buys.  The hits-first cache is not a stack algorithm, but for at most two experts
 per event a larger cache contains a smaller one, and for at most four it never hits less often.
 LruAnomaly shows that three and five are too many.
 */
module LruCapacity {
  import opened Trace
  import opened LruEngine
  import opened LruWindow

  /** The entries filed after `y`. */
  ghost function Younger(s: seq<nat>, y: nat): set<nat> {
    if s == [] then {}
    else
      var n := |s| - 1;
      if s[n] != y && y in s[..n] then Younger(s[..n], y) + {s[n]} else {}
  }

  lemma {:induction false} YoungerSnoc(s: seq<nat>, z: nat, y: nat)
    ensures Younger(s + [z], y) == if z != y && y in s then Younger(s, y) + {z} else {}
  {
    assert (s + [z])[..|s|] == s;
  }

  lemma {:induction false} YoungerConcat(s: seq<nat>, t: seq<nat>, y: nat)
    requires Distinct(s + t)
    ensures y in s ==> y !in t && Younger(s + t, y) == Younger(s, y) + Elems(t)
    ensures y in t ==> y !in s && Younger(s + t, y) == Younger(t, y)
  {
    hide Younger;
    if t == [] {
      assert s + t == s;
      assert Elems(t) == {};
    } else {
      var n := |t| - 1;
      var f, z := t[..n], t[n];
      assert t == f + [z] && s + t == s + f + [z];
      assert Distinct(s + f) by {
        assert forall i :: 0 <= i < |s + f| ==> (s + f)[i] == (s + t)[i];
      }
      YoungerConcat(s, f, y);
      YoungerSnoc(s + f, z, y);
      YoungerSnoc(f, z, y);
      assert Elems(t) == Elems(f) + {z};
      LastIsNew(s + f, z);
    }
  }

  lemma {:induction false} LastIsNew(s: seq<nat>, z: nat)
    requires Distinct(s + [z])
    ensures z !in s
  {
    var sz := s + [z];
    assert forall i :: 0 <= i < |s| ==> sz[i] == s[i] && sz[i] != sz[|s|];
  }

  lemma {:induction false} FilterSnoc(s: seq<nat>, z: nat, r: seq<nat>)
    ensures Within(s + [z], r) == Within(s, r) + if z in r then [z] else []
    ensures Without(s + [z], r) == Without(s, r) + if z in r then [] else [z]
  {
    assert (s + [z])[..|s|] == s;
  }

  lemma {:induction false} YoungerFilter(s: seq<nat>, r: seq<nat>, y: nat)
    requires y in s
    ensures y in r ==> Younger(Within(s, r), y) == Younger(s, y) * Elems(r)
    ensures y !in r ==> Younger(Without(s, r), y) == Younger(s, y) - Elems(r)
  {
    hide Younger, Within, Without;
    var n := |s| - 1;
    var f, z := s[..n], s[n];
    assert s == f + [z];
    FilterSnoc(f, z, r);
    YoungerSnoc(f, z, y);
    YoungerSnoc(Within(f, r), z, y);
    YoungerSnoc(Without(f, r), z, y);
    assert Within(f, r) + [] == Within(f, r) && Without(f, r) + [] == Without(f, r);
    if z != y {
      YoungerFilter(f, r, y);
      FilterElems(f, r);
    }
  }

  lemma {:induction false} YoungerCard(s: seq<nat>, y: nat)
    requires Distinct(s) && y in s
    ensures |Younger(s, y)| < |s|
    ensures Younger(s, y) <= Elems(s)
  {
    hide Younger;
    var n := |s| - 1;
    var f, z := s[..n], s[n];
    assert s == f + [z];
    YoungerSnoc(f, z, y);
    if z != y {
      YoungerCard(f, y);
      LastIsNew(f, z);
    }
  }

  /** An entry is among the youngest `n` exactly when fewer than `n` entries are younger. */
  lemma {:induction false} YoungestN(s: seq<nat>, n: nat, y: nat)
    requires Distinct(s) && y in s
    ensures y in LastN(s, n) <==> |Younger(s, y)| < n
    ensures y in LastN(s, n) ==> Younger(LastN(s, n), y) == Younger(s, y)
  {
    hide Younger;
    var d := |s| - |LastN(s, n)|;
    var old', young := s[..d], s[d..];
    assert s == old' + young && LastN(s, n) == young;
    YoungerConcat(old', young, y);
    if y in young {
      YoungerCard(young, y);
    } else {
      assert y in old';
      DistinctCard(young);
      YoungerCard(s, y);
      SubsetCard(Elems(young), Younger(s, y));
    }
  }

  /** Surviving an event, and what is filed after a survivor. */
  lemma {:induction false} SurvivorYounger(p: Promotion, cache: seq<nat>, event: seq<nat>, capacity: nat, y: nat)
    requires Distinct(cache) && Distinct(event) && |event| <= capacity
    requires y in cache && y !in event
    ensures y in Serve(p, cache, event, capacity) <==> |Younger(cache, y) - Elems(event)| < capacity - |event|
    ensures y in Serve(p, cache, event, capacity) ==>
      Younger(Serve(p, cache, event, capacity), y) == (Younger(cache, y) - Elems(event)) + Elems(event)
  {
    hide Younger, Within, Without, LastN, Arrange;
    var left, room, a := Without(cache, event), capacity - |event|, Arrange(p, cache, event);
    FilterElems(cache, event);
    FilterDistinct(cache, event);
    YoungerFilter(cache, event, y);
    YoungestN(left, room, y);
    ArrangeElems(p, cache, event);
    ServeValid(p, cache, event, capacity);
    YoungerConcat(LastN(left, room), a, y);
    assert Elems(a) == Elems(event);
  }

  /** What is filed after an expert of the event that has just been served. */
  lemma {:induction false} ServedYounger(cache: seq<nat>, event: seq<nat>, capacity: nat, y: nat)
    requires Distinct(cache) && Distinct(event) && |event| <= capacity && y in event
    ensures Younger(Serve(HitsFirst, cache, event, capacity), y)
         == if y in cache then Younger(event, y) * Elems(cache) + (Elems(event) - Elems(cache))
            else Younger(event, y) - Elems(cache)
  {
    hide Younger, Within, Without, LastN;
    var h, m := Within(event, cache), Without(event, cache);
    FilterElems(event, cache);
    ArrangeElems(HitsFirst, cache, event);
    ServeValid(HitsFirst, cache, event, capacity);
    YoungerConcat(LastN(Without(cache, event), capacity - |event|), h + m, y);
    YoungerConcat(h, m, y);
    YoungerFilter(event, cache, y);
    assert Elems(m) == Elems(event) - Elems(cache);
    assert y in h + m;
  }

  /** The demands that the smaller cache serves and the larger one does not. */
  ghost function Lost(event: seq<nat>, small: seq<nat>, large: seq<nat>): set<nat> {
    (Elems(event) * Elems(small)) - Elems(large)
  }

  /** An entry of the smaller cache that the larger cache will not lose before it. */
  ghost predicate Safe(small: seq<nat>, large: seq<nat>, y: nat) {
    y in large && |Younger(large, y) - Younger(small, y)| <= 1
  }

  /** The entries at risk are paid for: the larger cache is ahead by at least one hit for each. */
  ghost predicate Covered(small: seq<nat>, large: seq<nat>, risk: set<nat>, lead: int) {
    && risk <= Elems(small)
    && |risk| <= lead
    && forall y :: y in small && y !in risk ==> Safe(small, large, y)
  }

  lemma {:induction false} SafeSurvives(small: seq<nat>, large: seq<nat>, event: seq<nat>, capacity: nat, y: nat)
    requires Distinct(small) && Distinct(large) && Distinct(event) && |event| <= capacity
    requires y in small && y !in event && Safe(small, large, y)
    requires y in Serve(HitsFirst, small, event, capacity)
    ensures Safe(Serve(HitsFirst, small, event, capacity), Serve(HitsFirst, large, event, capacity + 1), y)
  {
    hide Younger, Serve, Distinct;
    SurvivorYounger(HitsFirst, small, event, capacity, y);
    SurvivorYounger(HitsFirst, large, event, capacity + 1, y);
    var e, ys, yl := Elems(event), Younger(small, y), Younger(large, y);
    var gap := yl - ys;
    assert yl - e <= (ys - e) + gap;
    SubsetCard(yl - e, (ys - e) + gap);
    UnionCard(ys - e, gap);
    assert ((yl - e) + e) - ((ys - e) + e) <= gap;
    SubsetCard(((yl - e) + e) - ((ys - e) + e), gap);
  }

  lemma {:induction false} UnionCard(a: set<nat>, b: set<nat>)
    ensures |a + b| <= |a| + |b|
  {
    assert a + b == a + (b - a);
    SubsetCard(b - a, b);
  }

  lemma {:induction false} SafeServed(small: seq<nat>, large: seq<nat>, event: seq<nat>, capacity: nat, y: nat)
    requires Distinct(small) && Distinct(large) && Distinct(event) && |event| <= capacity
    requires y in event && (y in small || y !in large)
    requires |Lost(event, small, large)| <= 1
    ensures Safe(Serve(HitsFirst, small, event, capacity), Serve(HitsFirst, large, event, capacity + 1), y)
  {
    hide Younger, Serve, Distinct;
    ServedYounger(small, event, capacity, y);
    ServedYounger(large, event, capacity + 1, y);
    ServeValid(HitsFirst, large, event, capacity + 1);
    var s, l := Serve(HitsFirst, small, event, capacity), Serve(HitsFirst, large, event, capacity + 1);
    YoungerCard(event, y);
    assert Younger(l, y) - Younger(s, y) <= Lost(event, small, large);
    SubsetCard(Younger(l, y) - Younger(s, y), Lost(event, small, large));
  }

  ghost function NextRisk(small: seq<nat>, large: seq<nat>, event: seq<nat>, after: seq<nat>, risk: set<nat>): set<nat>
  {
    (risk - Elems(event)) * Elems(after) + ((Elems(event) * Elems(large)) - Elems(small))
  }

  lemma {:induction false} HitCount(event: seq<nat>, cache: seq<nat>)
    requires Distinct(event)
    ensures |Within(event, cache)| == |Elems(event) * Elems(cache)|
  {
    FilterElems(event, cache);
    FilterDistinct(event, cache);
    DistinctCard(Within(event, cache));
    assert Elems(Within(event, cache)) == Elems(event) * Elems(cache);
  }

  lemma {:induction false} SplitCard(a: set<nat>, b: set<nat>)
    ensures |a| == |a * b| + |a - b|
  {
    assert a == (a * b) + (a - b);
  }

  /** Lost demands come out of `risk`, so what stays at risk and what is newly at risk is paid for. */
  lemma {:induction false} RiskCount(e: set<nat>, s: set<nat>, l: set<nat>, risk: set<nat>)
    requires (e * s) - l <= risk
    ensures |risk - e| + |(e * l) - s| <= |risk| + |e * l| - |e * s|
  {
    SplitCard(risk, e);
    SubsetCard((e * s) - l, risk * e);
    SplitCard(e * s, l);
    SplitCard(e * l, s);
    assert (e * s) * l == (e * l) * s;
  }

  /** The lead pays for the experts newly at risk, and a lost demand was at risk before. */
  lemma {:induction false} RiskPaid(small: seq<nat>, large: seq<nat>, event: seq<nat>, after: seq<nat>, risk: set<nat>,
                                    lead: int)
    requires Distinct(event) && Covered(small, large, risk, lead)
    ensures |NextRisk(small, large, event, after, risk)|
         <= lead + |Within(event, large)| - |Within(event, small)|
  {
    hide Within;
    var e, s, l := Elems(event), Elems(small), Elems(large);
    HitCount(event, large);
    HitCount(event, small);
    RiskCount(e, s, l, risk);
    SubsetCard((risk - e) * Elems(after), risk - e);
    UnionCard((risk - e) * Elems(after), (e * l) - s);
  }

  lemma {:induction false} Pick(s: set<nat>) returns (x: nat)
    requires s != {}
    ensures x in s
  {
    x :| x in s;
  }

  /** One event that loses at most one demand to the smaller cache keeps the lead covered. */
  lemma {:induction false} CoveredStep(small: seq<nat>, large: seq<nat>, event: seq<nat>, capacity: nat,
                                       risk: set<nat>, lead: int)
    returns (risk': set<nat>)
    requires Distinct(small) && Distinct(large) && Distinct(event) && |event| <= capacity
    requires Covered(small, large, risk, lead)
    requires |Lost(event, small, large)| <= 1
    ensures Covered(Serve(HitsFirst, small, event, capacity), Serve(HitsFirst, large, event, capacity + 1), risk',
                    lead + |Within(event, large)| - |Within(event, small)|)
  {
    hide Serve, Safe, Within, Lost, Distinct;
    var s, l := Serve(HitsFirst, small, event, capacity), Serve(HitsFirst, large, event, capacity + 1);
    risk' := NextRisk(small, large, event, s, risk);
    RiskPaid(small, large, event, s, risk, lead);
    ServeValid(HitsFirst, small, event, capacity);
    assert risk' <= Elems(s);
    forall y | y in s && y !in risk'
      ensures Safe(s, l, y)
    {
      if y in event {
        SafeServed(small, large, event, capacity, y);
      } else {
        SafeSurvives(small, large, event, capacity, y);
      }
    }
  }

  /** An expert that has been demanded but evicted: everything resident is at least as recent. */
  lemma {:induction false} EvictedIsOldest(p: Promotion, history: seq<seq<nat>>, capacity: nat, m: nat, x: nat)
    requires Fits(history, capacity) && m < |history| && x in history[m]
    requires x !in Run(p, [], history, capacity)
    ensures |Run(p, [], history, capacity)| == capacity
    ensures forall z :: z in Run(p, [], history, capacity) ==> z in Demanded(history[m..])
  {
    hide Run, Demanded;
    var before, window := history[..m], history[m..];
    Rejoin(history, m);
    DemandedMember(window, 0, x);
    RunConcat(p, [], before, window, capacity);
    RunValid(p, [], before, capacity);
    var start := Run(p, [], before, capacity);
    YoungestAreDemanded(p, start, window, capacity);
    RunValid(p, start, window, capacity);
    if |Demanded(window)| <= capacity {
      YoungHolds(Run(p, start, window, capacity), Demanded(window), x);
    }
  }

  /** The last event that demands `x`. */
  lemma {:induction false} LastDemand(history: seq<seq<nat>>, x: nat) returns (m: nat)
    requires x in Demanded(history)
    ensures m < |history| && x in history[m]
    ensures x !in Demanded(history[m + 1..])
  {
    var n := |history| - 1;
    if x in history[n] {
      m := n;
      assert history[n + 1..] == [];
    } else {
      m := LastDemand(history[..n], x);
      assert history[m + 1..][..n - m - 1] == history[..n][m + 1..];
    }
  }

  lemma {:induction false} ResidentWasDemanded(p: Promotion, history: seq<seq<nat>>, capacity: nat, x: nat)
    requires Fits(history, capacity) && x in Run(p, [], history, capacity)
    ensures x in Demanded(history)
  {
    var n := |history| - 1;
    RunValid(p, [], history[..n], capacity);
    ServeValid(p, Run(p, [], history[..n], capacity), history[n], capacity);
    if x !in history[n] {
      ResidentWasDemanded(p, history[..n], capacity, x);
    }
  }

  /** `x` is evicted at one capacity and `w` at another, each resident at the other: same last event. */
  lemma {:induction false} SameLastEvent(p: Promotion, history: seq<seq<nat>>, c: nat, d: nat, x: nat, m: nat, w: nat)
    requires Fits(history, c) && Fits(history, d)
    requires m < |history| && x in history[m] && x !in Demanded(history[m + 1..])
    requires x in Run(p, [], history, c) && x !in Run(p, [], history, d)
    requires w in Run(p, [], history, d) && w !in Run(p, [], history, c)
    ensures w in history[m]
  {
    ResidentWasDemanded(p, history, d, w);
    var q := LastDemand(history, w);
    EvictedIsOldest(p, history, d, m, x);
    EvictedIsOldest(p, history, c, q, w);
    if q < m {
      DemandedSplit(history, m, q + 1, w);
    } else if m < q {
      DemandedSplit(history, q, m + 1, x);
    }
  }

  lemma {:induction false} DemandedSplit(history: seq<seq<nat>>, hi: nat, lo: nat, x: nat)
    requires lo <= hi <= |history| && x in Demanded(history[hi..])
    ensures x in Demanded(history[lo..])
  {
    assert history[lo..] == history[lo..hi] + history[hi..];
    DemandedConcat(history[lo..hi], history[hi..]);
  }

  ghost predicate TopK(events: seq<seq<nat>>, k: nat) {
    forall i :: 0 <= i < |events| ==> |events[i]| <= k
  }

  /** Two sets that differ only inside a group: the smaller one's surplus is less than half the group. */
  lemma {:induction false} DifferenceCount(a: set<nat>, b: set<nat>, group: set<nat>)
    requires |a| < |b|
    requires a - b <= group && b - a <= group
    ensures 2 * |a - b| + 1 <= |group|
  {
    SplitCard(a, b);
    SplitCard(b, a);
    assert a * b == b * a;
    assert |(a - b) + (b - a)| == |a - b| + |b - a|;
    SubsetCard((a - b) + (b - a), group);
  }

  /**
   Where the larger cache misses part of the smaller one, both differences come from one event, and
   the larger cache holds one more of it: at most (k - 1) / 2 experts are missing.
   */
  lemma {:induction false} MissingBound(p: Promotion, history: seq<seq<nat>>, capacity: nat, k: nat)
    requires Fits(history, capacity) && Fits(history, capacity + 1) && TopK(history, k)
    ensures var missing := Elems(Run(p, [], history, capacity)) - Elems(Run(p, [], history, capacity + 1));
            missing == {} || 2 * |missing| + 1 <= k
  {
    hide Run, Demanded;
    var a, b := Run(p, [], history, capacity), Run(p, [], history, capacity + 1);
    RunValid(p, [], history, capacity);
    RunValid(p, [], history, capacity + 1);
    if Elems(a) - Elems(b) != {} {
      var x := Pick(Elems(a) - Elems(b));
      ResidentWasDemanded(p, history, capacity, x);
      var m := LastDemand(history, x);
      EvictedIsOldest(p, history, capacity + 1, m, x);
      DistinctCard(a);
      DistinctCard(b);
      DifferencesFromOneEvent(p, history, capacity, x, m);
      DifferenceCount(Elems(a), Elems(b), Elems(history[m]));
      CardAtMost(history[m]);
    }
  }

  lemma {:induction false} DifferencesFromOneEvent(p: Promotion, history: seq<seq<nat>>, capacity: nat, x: nat, m: nat)
    requires Fits(history, capacity) && Fits(history, capacity + 1)
    requires m < |history| && x in history[m] && x !in Demanded(history[m + 1..])
    requires x in Run(p, [], history, capacity) && x !in Run(p, [], history, capacity + 1)
    ensures var a, b := Elems(Run(p, [], history, capacity)), Elems(Run(p, [], history, capacity + 1));
            a - b <= Elems(history[m]) && b - a <= Elems(history[m])
  {
    hide Run, Demanded;
    var a, b := Elems(Run(p, [], history, capacity)), Elems(Run(p, [], history, capacity + 1));
    RunValid(p, [], history, capacity);
    RunValid(p, [], history, capacity + 1);
    EvictedIsOldest(p, history, capacity + 1, m, x);
    DistinctCard(Run(p, [], history, capacity));
    DistinctCard(Run(p, [], history, capacity + 1));
    forall w | w in b - a
      ensures w in Elems(history[m])
    {
      SameLastEvent(p, history, capacity, capacity + 1, x, m, w);
    }
    SplitCard(a, b);
    SplitCard(b, a);
    assert a * b == b * a;
    MissingFromOneEvent(p, history, capacity, x, m, b - a);
  }

  lemma {:induction false} MissingFromOneEvent(p: Promotion, history: seq<seq<nat>>, capacity: nat, x: nat, m: nat,
                                               extra: set<nat>)
    requires Fits(history, capacity) && Fits(history, capacity + 1)
    requires m < |history|
    requires extra != {}
    requires extra == Elems(Run(p, [], history, capacity + 1)) - Elems(Run(p, [], history, capacity))
    requires forall w :: w in extra ==> w in history[m]
    requires x in history[m] && x !in Demanded(history[m + 1..]) && x in Run(p, [], history, capacity)
    requires x !in Run(p, [], history, capacity + 1)
    ensures forall y :: y in Run(p, [], history, capacity) && y !in Run(p, [], history, capacity + 1) ==>
      y in history[m]
  {
    hide Run;
    var w := Pick(extra);
    ResidentWasDemanded(p, history, capacity + 1, w);
    var q := LastDemand(history, w);
    EvictedIsOldest(p, history, capacity, q, w);
    if m < q {
      DemandedSplit(history, q, m + 1, x);
    } else if q < m {
      DemandedMember(history[q + 1..], m - q - 1, w);
    }
    forall y | y in Run(p, [], history, capacity) && y !in Run(p, [], history, capacity + 1)
      ensures y in history[m]
    {
      SameLastEvent(p, history, capacity + 1, capacity, w, m, y);
    }
  }

  /** For at most two experts per event the cache is a stack algorithm: more slots keep everything. */
  lemma {:induction false} InclusionForTopTwo(p: Promotion, history: seq<seq<nat>>, capacity: nat, more: nat)
    requires Fits(history, capacity) && TopK(history, 2) && capacity <= more
    ensures Fits(history, more)
    ensures Elems(Run(p, [], history, capacity)) <= Elems(Run(p, [], history, more))
    decreases more
  {
    hide Run, Elems;
    if capacity < more {
      InclusionForTopTwo(p, history, capacity, more - 1);
      MissingBound(p, history, more - 1, 2);
      var near, far := Elems(Run(p, [], history, more - 1)), Elems(Run(p, [], history, more));
      forall x | x in near
        ensures x in far
      {
        assert x !in near - far;
      }
    }
  }

  lemma {:induction false} LeadStep(before: seq<seq<nat>>, event: seq<nat>, capacity: nat, risk: set<nat>, lead: int)
    returns (risk': set<nat>)
    requires Fits(before, capacity) && Fits(before, capacity + 1) && TopK(before, 4)
    requires Distinct(event) && |event| <= capacity
    requires Covered(Run(HitsFirst, [], before, capacity), Run(HitsFirst, [], before, capacity + 1), risk, lead)
    ensures var small, large := Run(HitsFirst, [], before, capacity), Run(HitsFirst, [], before, capacity + 1);
            Covered(Serve(HitsFirst, small, event, capacity), Serve(HitsFirst, large, event, capacity + 1), risk',
                    lead + |Within(event, large)| - |Within(event, small)|)
  {
    hide Run, Serve, Within, Covered;
    var small, large := Run(HitsFirst, [], before, capacity), Run(HitsFirst, [], before, capacity + 1);
    RunValid(HitsFirst, [], before, capacity);
    RunValid(HitsFirst, [], before, capacity + 1);
    MissingBound(HitsFirst, before, capacity, 4);
    SubsetCard(Lost(event, small, large), Elems(small) - Elems(large));
    risk' := CoveredStep(small, large, event, capacity, risk, lead);
  }

  lemma {:induction false} LeadCovered(history: seq<seq<nat>>, capacity: nat) returns (risk: set<nat>)
    requires Fits(history, capacity) && Fits(history, capacity + 1) && TopK(history, 4)
    ensures Covered(Run(HitsFirst, [], history, capacity), Run(HitsFirst, [], history, capacity + 1), risk,
                    Hits(HitsFirst, [], history, capacity + 1) - Hits(HitsFirst, [], history, capacity))
  {
    hide Serve, Within, Distinct;
    risk := {};
    if history != [] {
      var n := |history| - 1;
      var before, event := history[..n], history[n];
      risk := LeadCovered(before, capacity);
      var lead := Hits(HitsFirst, [], before, capacity + 1) - Hits(HitsFirst, [], before, capacity);
      risk := LeadStep(before, event, capacity, risk, lead);
    }
  }

  /** For at most four experts per event, more slots never cost a hit, on any trace. */
  lemma {:induction false} MoreSlotsNeverHitLess(history: seq<seq<nat>>, capacity: nat, more: nat)
    requires Fits(history, capacity) && TopK(history, 4) && capacity <= more
    ensures Fits(history, more)
    ensures Hits(HitsFirst, [], history, capacity) <= Hits(HitsFirst, [], history, more)
    decreases more
  {
    hide Run, Hits;
    if capacity < more {
      MoreSlotsNeverHitLess(history, capacity, more - 1);
      var _ := LeadCovered(history, more - 1);
    }
  }
}
