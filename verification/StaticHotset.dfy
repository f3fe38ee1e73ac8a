/** The static hotset: the most demanded experts of the trace it is fitted on, and why they are best. */
module StaticHotset {
  import opened Trace
  import opened LruCapacity

  /** How many demands fall on the experts of `s`. */
  ghost function Served(demands: seq<nat>, s: set<nat>): nat {
    if demands == [] then 0
    else
      var n := |demands| - 1;
      Served(demands[..n], s) + if demands[n] in s then 1 else 0
  }

  /** The order of the report: higher demand first, then the smaller expert id. */
  predicate Outranks(counts: map<nat, nat>, a: nat, b: nat)
    requires a in counts && b in counts
  {
    counts[a] > counts[b] || (counts[a] == counts[b] && a < b)
  }

  /** A ranking of a demand counter lists every counted expert once, in rank order. */
  ghost predicate IsRanking(counts: map<nat, nat>, ranked: seq<nat>) {
    && (forall x :: x in ranked <==> x in counts)
    && (forall i, j :: 0 <= i < j < |ranked| ==> Outranks(counts, ranked[i], ranked[j]))
  }

  /** The counter of a sequence of demands. */
  ghost predicate IsCounter(counts: map<nat, nat>, demands: seq<nat>) {
    && (forall x :: x in counts <==> x in demands)
    && (forall x :: x in counts ==> counts[x] == multiset(demands)[x])
  }

  /** `Counter.update` with the experts of one event. */
  method CountInto(counts: map<nat, nat>, ghost before: seq<nat>, event: seq<nat>) returns (after: map<nat, nat>)
    requires IsCounter(counts, before)
    ensures IsCounter(after, before + event)
  {
    after := counts;
    var i := 0;
    assert before + event[..0] == before;
    while i < |event|
      invariant 0 <= i <= |event|
      invariant IsCounter(after, before + event[..i])
    {
      var x := event[i];
      assert before + event[..i + 1] == (before + event[..i]) + [x];
      after := after[x := (if x in after then after[x] else 0) + 1];
      i := i + 1;
    }
    assert event[..i] == event;
  }

  lemma {:induction false} BestExists(counts: map<nat, nat>, rest: set<nat>) returns (x: nat)
    requires rest != {} && rest <= counts.Keys
    ensures x in rest && forall y :: y in rest && y != x ==> Outranks(counts, x, y)
    decreases |rest|
  {
    var z := Pick(rest);
    x := z;
    if rest != {z} {
      assert rest == (rest - {z}) + {z};
      var b := BestExists(counts, rest - {z});
      if Outranks(counts, b, z) {
        x := b;
      }
    }
  }

  /** Sorting a counter by the rank order. */
  method Rank(counts: map<nat, nat>) returns (ranked: seq<nat>)
    ensures IsRanking(counts, ranked)
  {
    ranked := [];
    var rest := counts.Keys;
    while rest != {}
      invariant rest <= counts.Keys
      invariant forall x :: x in ranked <==> x in counts && x !in rest
      invariant forall i, j :: 0 <= i < j < |ranked| ==> Outranks(counts, ranked[i], ranked[j])
      invariant forall i, x :: 0 <= i < |ranked| && x in rest ==> Outranks(counts, ranked[i], x)
      decreases |rest|
    {
      ghost var best := BestExists(counts, rest);
      var x :| x in rest && forall y :: y in rest && y != x ==> Outranks(counts, x, y);
      ranked := ranked + [x];
      rest := rest - {x};
    }
  }

  /** The ranking is determined by the counter, so every report that sorts it sees the same order. */
  lemma {:induction false} RankingUnique(counts: map<nat, nat>, a: seq<nat>, b: seq<nat>)
    requires IsRanking(counts, a) && IsRanking(counts, b)
    ensures a == b
  {
    RankingDistinct(counts, a);
    RankingDistinct(counts, b);
    SameElemsSameLength(a, b);
    var i := 0;
    while i < |a|
      invariant 0 <= i <= |a|
      invariant a[..i] == b[..i]
    {
      RankingNext(counts, a, b, i);
      RankingNext(counts, b, a, i);
      assert a[i] == b[i];
      i := i + 1;
    }
  }

  lemma {:induction false} RankingDistinct(counts: map<nat, nat>, a: seq<nat>)
    requires IsRanking(counts, a)
    ensures Distinct(a)
  {
    forall i, j | 0 <= i < j < |a|
      ensures a[i] != a[j]
    {
      assert Outranks(counts, a[i], a[j]);
    }
  }

  lemma {:induction false} RankingNext(counts: map<nat, nat>, a: seq<nat>, b: seq<nat>, i: nat)
    requires IsRanking(counts, a) && IsRanking(counts, b) && Distinct(b)
    requires i < |a| && i < |b| && a[..i] == b[..i]
    ensures a[i] in counts && b[i] in counts
    ensures a[i] == b[i] || Outranks(counts, a[i], b[i])
  {
    var x := b[i];
    assert x in b;
    assert x in a;
    var j :| 0 <= j < |a| && a[j] == x;
    forall t | 0 <= t < i
      ensures a[t] != x
    {
      assert a[..i][t] == b[..i][t];
    }
    var y := a[i];
    assert y in a;
  }

  lemma {:induction false} ServedUnion(demands: seq<nat>, a: set<nat>, b: set<nat>)
    requires a !! b
    ensures Served(demands, a + b) == Served(demands, a) + Served(demands, b)
  {
    if demands != [] {
      ServedUnion(demands[..|demands| - 1], a, b);
    }
  }

  lemma {:induction false} ServedOne(demands: seq<nat>, x: nat)
    ensures Served(demands, {x}) == multiset(demands)[x]
  {
    if demands != [] {
      var n := |demands| - 1;
      ServedOne(demands[..n], x);
      assert demands == demands[..n] + [demands[n]];
    }
  }

  /** `n` experts, each demanded at most (at least) `v` times, serve at most (at least) n * v demands. */
  lemma {:induction false} ServedBetween(demands: seq<nat>, s: set<nat>, v: nat)
    ensures (forall x :: x in s ==> multiset(demands)[x] <= v) ==> Served(demands, s) <= |s| * v
    ensures (forall x :: x in s ==> multiset(demands)[x] >= v) ==> Served(demands, s) >= |s| * v
    decreases |s|
  {
    if s == {} {
      ServedNone(demands);
    } else {
      var x := Pick(s);
      var r := s - {x};
      assert s == r + {x};
      ServedBetween(demands, r, v);
      ServedUnion(demands, r, {x});
      ServedOne(demands, x);
      assert |s| * v == |r| * v + v;
    }
  }

  lemma {:induction false} ServedNone(demands: seq<nat>)
    ensures Served(demands, {}) == 0
  {
    if demands != [] {
      ServedNone(demands[..|demands| - 1]);
    }
  }

  /** Residents that no outsider outdraws, as many as allowed: exchanging any of them cannot help. */
  lemma {:induction false} Exchange(demands: seq<nat>, top: set<nat>, s: set<nat>, v: nat)
    requires |s| <= |top|
    requires forall x :: x in top ==> multiset(demands)[x] >= v
    requires forall x :: x !in top ==> multiset(demands)[x] <= v
    ensures Served(demands, s) <= Served(demands, top)
  {
    SplitCard(s, top);
    SplitCard(top, s);
    assert s * top == top * s;
    ServedUnion(demands, s * top, s - top);
    ServedUnion(demands, top * s, top - s);
    assert s == s * top + (s - top) && top == top * s + (top - s);
    ServedBetween(demands, s - top, v);
    ServedBetween(demands, top - s, v);
    assert |s - top| * v <= |top - s| * v by {
      MulMonotone(|s - top|, |top - s|, v);
    }
  }

  lemma {:induction false} MulMonotone(a: nat, b: nat, v: nat)
    requires a <= b
    ensures a * v <= b * v
  {
    assert b * v == a * v + (b - a) * v;
  }

  /** The residents of one layer: the first `capacity` entries of its ranking. */
  function Residents(ranked: seq<nat>, capacity: nat): seq<nat> {
    ranked[..Min(|ranked|, capacity)]
  }

  /** When everything demanded is resident, every demand is served. */
  lemma {:induction false} ServedAll(demands: seq<nat>, top: set<nat>, s: set<nat>)
    requires forall x :: x in demands ==> x in top
    ensures Served(demands, s) <= Served(demands, top)
  {
    if demands != [] {
      var n := |demands| - 1;
      assert demands[n] in demands;
      forall x | x in demands[..n]
        ensures x in top
      {
        assert x in demands;
      }
      ServedAll(demands[..n], top, s);
    }
  }

  /**
   The exchange argument.  On the trace they are fitted on, no choice of at most `capacity` experts
   serves more demands than the static residents.
   */
  lemma {:induction false} ResidentsAreOptimal(demands: seq<nat>, counts: map<nat, nat>, ranked: seq<nat>,
                                               capacity: nat, choice: set<nat>)
    requires IsCounter(counts, demands) && IsRanking(counts, ranked)
    requires |choice| <= capacity
    ensures Served(demands, choice) <= Served(demands, Elems(Residents(ranked, capacity)))
  {
    hide Served;
    RankingDistinct(counts, ranked);
    var top := Elems(Residents(ranked, capacity));
    if |ranked| <= capacity {
      assert Residents(ranked, capacity) == ranked;
      ServedAll(demands, top, choice);
    } else if capacity == 0 {
      assert choice == {};
      assert top == {};
    } else {
      var v := counts[ranked[capacity - 1]];
      Threshold(demands, counts, ranked, capacity);
      DistinctCard(Residents(ranked, capacity));
      Exchange(demands, top, choice, v);
    }
  }

  lemma {:induction false} Threshold(demands: seq<nat>, counts: map<nat, nat>, ranked: seq<nat>, capacity: nat)
    requires IsCounter(counts, demands) && IsRanking(counts, ranked)
    requires 0 < capacity < |ranked|
    ensures ranked[capacity - 1] in counts
    ensures forall x :: x in Elems(Residents(ranked, capacity)) ==> multiset(demands)[x] >= counts[ranked[capacity - 1]]
    ensures forall x :: x !in Elems(Residents(ranked, capacity)) ==>
      multiset(demands)[x] <= counts[ranked[capacity - 1]]
  {
    var top, last := Residents(ranked, capacity), ranked[capacity - 1];
    assert last in ranked;
    forall x | x in Elems(top)
      ensures multiset(demands)[x] >= counts[last]
    {
      var i :| 0 <= i < |top| && top[i] == x;
      assert ranked[i] == x && x in ranked;
      assert i < capacity - 1 ==> Outranks(counts, ranked[i], ranked[capacity - 1]);
    }
    forall t | 0 <= t < capacity
      ensures ranked[t] in Elems(top)
    {
      assert top[t] == ranked[t];
    }
    forall x | x !in Elems(top)
      ensures multiset(demands)[x] <= counts[last]
    {
      if x in demands {
        assert x in counts && x in ranked;
        var i :| 0 <= i < |ranked| && ranked[i] == x;
        assert Outranks(counts, ranked[capacity - 1], ranked[i]);
      }
    }
  }

  /** More slots never serve fewer demands of the fit trace. */
  lemma {:induction false} MoreResidentsServeMore(demands: seq<nat>, counts: map<nat, nat>, ranked: seq<nat>,
                                                  capacity: nat, more: nat)
    requires IsCounter(counts, demands) && IsRanking(counts, ranked) && capacity <= more
    ensures Served(demands, Elems(Residents(ranked, capacity))) <= Served(demands, Elems(Residents(ranked, more)))
  {
    hide Served;
    CardAtMost(Residents(ranked, capacity));
    ResidentsAreOptimal(demands, counts, ranked, more, Elems(Residents(ranked, capacity)));
  }

  /** The profiler's sum over the head of the same ranking. */
  function TopDemand(counts: map<nat, nat>, head: seq<nat>): nat {
    if head == [] then 0
    else
      var n := |head| - 1;
      TopDemand(counts, head[..n]) + if head[n] in counts then counts[head[n]] else 0
  }

  /** The profiler's numerator at budget C is the static hit count at capacity C. */
  lemma {:induction false} ProfilerAgrees(demands: seq<nat>, counts: map<nat, nat>, head: seq<nat>)
    requires IsCounter(counts, demands) && Distinct(head)
    requires forall x :: x in head ==> x in counts
    ensures TopDemand(counts, head) == Served(demands, Elems(head))
  {
    hide Served;
    if head == [] {
      assert Elems(head) == {};
      ServedNone(demands);
    } else {
      var n := |head| - 1;
      var h, z := head[..n], head[n];
      assert head == h + [z];
      forall x | x in h
        ensures x in counts
      {
        assert x in head;
      }
      ProfilerAgrees(demands, counts, h);
      LastIsNew(h, z);
      assert z in head;
      ServedUnion(demands, Elems(h), {z});
      ServedOne(demands, z);
      ElemsConcat(h, [z]);
      assert Elems([z]) == {z};
    }
  }
}
