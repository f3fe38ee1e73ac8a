/** The one-layer oracle bound: how much of the transfer time the gaps between layers can hide. */
module Deadline {
  import opened Trace
  import opened CacheSim
  import opened StaticHotset

  const NS_PER_MS: real := 1000000.0

  function Missing(e: RouterTraceEvent, residents: map<nat, seq<nat>>): nat {
    |Without(e.selected, CacheOf(residents, e.layerId))|
  }

  function TransferMs(e: RouterTraceEvent, residents: map<nat, seq<nat>>, expertMs: real): real {
    Missing(e, residents) as real * expertMs
  }

  function Max(a: real, b: real): real {
    if a < b then b else a
  }

  function WindowMs(earlier: RouterTraceEvent, later: RouterTraceEvent): real {
    (later.observedAtNs - earlier.observedAtNs) as real / NS_PER_MS
  }

  /** What is left of the transfer of event i once the gap before it is used; nothing hides the first one. */
  function ResidualMs(events: seq<RouterTraceEvent>, residents: map<nat, seq<nat>>, expertMs: real, i: nat): real
    requires i < |events|
  {
    if i == 0 then TransferMs(events[i], residents, expertMs)
    else Max(0.0, TransferMs(events[i], residents, expertMs) - WindowMs(events[i - 1], events[i]))
  }

  // ---- Totals over the first n events of a token ----

  function Blocking(events: seq<RouterTraceEvent>, residents: map<nat, seq<nat>>, expertMs: real, n: nat): real
    requires n <= |events|
  {
    if n == 0 then 0.0
    else Blocking(events, residents, expertMs, n - 1) + TransferMs(events[n - 1], residents, expertMs)
  }

  function Residual(events: seq<RouterTraceEvent>, residents: map<nat, seq<nat>>, expertMs: real, n: nat): real
    requires n <= |events|
  {
    if n == 0 then 0.0
    else Residual(events, residents, expertMs, n - 1) + ResidualMs(events, residents, expertMs, n - 1)
  }

  function Late(events: seq<RouterTraceEvent>, residents: map<nat, seq<nat>>, expertMs: real, n: nat): nat
    requires n <= |events|
  {
    if n == 0 then 0
    else Late(events, residents, expertMs, n - 1) + if ResidualMs(events, residents, expertMs, n - 1) > 0.0 then 1
      else 0
  }

  function Demand(events: seq<RouterTraceEvent>, n: nat): nat
    requires n <= |events|
  {
    if n == 0 then 0 else Demand(events, n - 1) + |events[n - 1].selected|
  }

  function Misses(events: seq<RouterTraceEvent>, residents: map<nat, seq<nat>>, n: nat): nat
    requires n <= |events|
  {
    if n == 0 then 0 else Misses(events, residents, n - 1) + Missing(events[n - 1], residents)
  }

  predicate TimeOrdered(events: seq<RouterTraceEvent>) {
    forall i :: 0 <= i < |events| - 1 ==> events[i].observedAtNs <= events[i + 1].observedAtNs
  }

  datatype TokenCost = TokenCost(demand: nat, hits: int, blocking: real, residual: real, late: nat, onTime: nat)

  function CostOf(events: seq<RouterTraceEvent>, residents: map<nat, seq<nat>>, expertMs: real): TokenCost {
    var n := |events|;
    var late := Late(events, residents, expertMs, n);
    LateBounded(events, residents, expertMs, n);
    TokenCost(Demand(events, n), Demand(events, n)
      - Misses(events, residents, n), Blocking(events, residents, expertMs, n),
              Residual(events, residents, expertMs, n), late, n - late)
  }

  lemma {:induction false} LateBounded(events: seq<RouterTraceEvent>, residents: map<nat, seq<nat>>, expertMs: real,
                                       n: nat)
    requires n <= |events|
    ensures Late(events, residents, expertMs, n) <= n
  {
    if n > 0 {
      LateBounded(events, residents, expertMs, n - 1);
    }
  }

  /** One token in layer order; None when a gap is negative. */
  method EvaluateToken(events: seq<RouterTraceEvent>, residents: map<nat, seq<nat>>, expertMs: real)
    returns (cost: Option<TokenCost>)
    ensures cost == if TimeOrdered(events) then Some(CostOf(events, residents, expertMs)) else None
  {
    hide Missing, TransferMs;
    var demand, hits, blocking, residual, late, onTime := 0, 0, 0.0, 0.0, 0, 0;
    var previous: Option<RouterTraceEvent> := None;
    var i := 0;
    while i < |events|
      invariant 0 <= i <= |events| && previous == if i == 0 then None else Some(events[i - 1])
      invariant TimeOrdered(events[..i])
      invariant demand == Demand(events, i) && hits == demand - Misses(events, residents, i)
      invariant blocking == Blocking(events, residents, expertMs, i)
        && residual == Residual(events, residents, expertMs, i)
      invariant late == Late(events, residents, expertMs, i) && onTime == i - late
    {
      var e := events[i];
      var missing := Missing(e, residents);
      var transfer := TransferMs(e, residents, expertMs);
      hits := hits + |e.selected| - missing;
      demand := demand + |e.selected|;
      blocking := blocking + transfer;
      var left := transfer;
      if previous.Some? {
        if e.observedAtNs < previous.value.observedAtNs {
          assert events[i - 1].observedAtNs > events[i - 1 + 1].observedAtNs;
          return None;
        }
        left := Max(0.0, transfer - WindowMs(previous.value, e));
      }
      if left > 0.0 {
        late := late + 1;
      } else {
        onTime := onTime + 1;
      }
      residual := residual + left;
      previous := Some(e);
      i := i + 1;
    }
    assert events[..i] == events;
    cost := Some(TokenCost(demand, hits, blocking, residual, late, onTime));
  }

  /** The times are accepted exactly if no event is observed before an earlier one. */
  lemma {:induction false} TimesExactly(events: seq<RouterTraceEvent>)
    ensures TimeOrdered(events)
       <==> forall i, j :: 0 <= i < j < |events| ==> events[i].observedAtNs <= events[j].observedAtNs
  {
    if TimeOrdered(events) {
      forall i, j | 0 <= i < j < |events|
        ensures events[i].observedAtNs <= events[j].observedAtNs
      {
        LaterTime(events, i, j);
      }
    }
  }

  lemma {:induction false} LaterTime(events: seq<RouterTraceEvent>, i: nat, j: nat)
    requires TimeOrdered(events) && i < j < |events|
    ensures events[i].observedAtNs <= events[j].observedAtNs
  {
    assert events[j - 1].observedAtNs <= events[j - 1 + 1].observedAtNs;
    if i < j - 1 {
      LaterTime(events, i, j - 1);
    }
  }

  // ---- What a token costs ----

  /** The experts of event i that its layer does not hold. */
  function Absent(events: seq<RouterTraceEvent>, residents: map<nat, seq<nat>>, i: nat): set<nat> {
    if i < |events| then set x | x in events[i].selected && x !in CacheOf(residents, events[i].layerId) else {}
  }

  /** The time their transfers take. */
  function Needed(events: seq<RouterTraceEvent>, residents: map<nat, seq<nat>>, expertMs: real, i: nat): real {
    |Absent(events, residents, i)| as real * expertMs
  }

  /** The time since the event before, in milliseconds; none for the first. */
  function Gap(events: seq<RouterTraceEvent>, i: nat): real {
    if 0 < i < |events| then (events[i].observedAtNs - events[i - 1].observedAtNs) as real / 1000000.0 else 0.0
  }

  /** What remains of the transfers after the gap: the rest if the gap is too short, and all of them at first. */
  function Left(events: seq<RouterTraceEvent>, residents: map<nat, seq<nat>>, expertMs: real, i: nat): real {
    if i == 0 then Needed(events, residents, expertMs, i)
    else if Gap(events, i) >= Needed(events, residents, expertMs, i) then 0.0
    else Needed(events, residents, expertMs, i) - Gap(events, i)
  }

  lemma {:induction false} MissingIsAbsent(events: seq<RouterTraceEvent>, residents: map<nat, seq<nat>>, i: nat)
    requires ValidTrace(events) && i < |events|
    ensures Missing(events[i], residents) == |Absent(events, residents, i)|
  {
    hide Without;
    var e := events[i];
    var missing := Without(e.selected, CacheOf(residents, e.layerId));
    assert ValidEvent(e);
    FilterElems(e.selected, CacheOf(residents, e.layerId));
    FilterDistinct(e.selected, CacheOf(residents, e.layerId));
    DistinctCard(missing);
    assert Elems(missing) == Absent(events, residents, i);
  }

  /** The residual after each gap, exactly. */
  lemma {:induction false} ResidualExactly(events: seq<RouterTraceEvent>, residents: map<nat, seq<nat>>,
                                           expertMs: real, i: nat)
    requires ValidTrace(events) && i < |events|
    ensures ResidualMs(events, residents, expertMs, i) == Left(events, residents, expertMs, i)
    ensures TransferMs(events[i], residents, expertMs) == Needed(events, residents, expertMs, i)
  {
    hide Missing, Absent;
    MissingIsAbsent(events, residents, i);
  }

  /** The demand of event i. */
  function Asked(events: seq<RouterTraceEvent>, i: nat): real {
    if i < |events| then |events[i].selected| as real else 0.0
  }

  /** The events among the first n that are still waited for. */
  function LateOnes(events: seq<RouterTraceEvent>, residents: map<nat, seq<nat>>, expertMs: real, n: nat): set<nat> {
    set i | 0 <= i < n && Left(events, residents, expertMs, i) > 0.0
  }

  lemma {:induction false} TotalsExactly(events: seq<RouterTraceEvent>, residents: map<nat, seq<nat>>, expertMs: real,
                                         n: nat)
    requires ValidTrace(events) && n <= |events|
    ensures Blocking(events, residents, expertMs, n) == SumOver((i: nat) => Needed(events, residents, expertMs, i), n)
    ensures Residual(events, residents, expertMs, n) == SumOver((i: nat) => Left(events, residents, expertMs, i), n)
    ensures Late(events, residents, expertMs, n) == |LateOnes(events, residents, expertMs, n)|
    ensures Misses(events, residents, n) as real == SumOver((i: nat) => |Absent(events, residents, i)| as real, n)
    ensures Demand(events, n) as real == SumOver((i: nat) => Asked(events, i), n)
  {
    hide Left, Needed, ResidualMs, TransferMs, Missing, Absent;
    if n > 0 {
      TotalsExactly(events, residents, expertMs, n - 1);
      ResidualExactly(events, residents, expertMs, n - 1);
      MissingIsAbsent(events, residents, n - 1);
      var before, now := LateOnes(events, residents, expertMs, n - 1), LateOnes(events, residents, expertMs, n);
      assert now == if Left(events, residents, expertMs, n - 1) > 0.0 then before + {n - 1} else before;
    } else {
      assert LateOnes(events, residents, expertMs, 0) == {};
    }
  }

  /** The cost of a token: its five sums, and every event either late or on time. */
  lemma {:induction false} CostExactly(events: seq<RouterTraceEvent>, residents: map<nat, seq<nat>>, expertMs: real)
    requires ValidTrace(events)
    ensures var c, n := CostOf(events, residents, expertMs), |events|;
            && c.blocking == SumOver((i: nat) => Needed(events, residents, expertMs, i), n)
            && c.residual == SumOver((i: nat) => Left(events, residents, expertMs, i), n)
            && c.late == |LateOnes(events, residents, expertMs, n)| && c.late + c.onTime == n
            && c.demand as real == SumOver((i: nat) => Asked(events, i), n)
            && (c.demand - c.hits) as real == SumOver((i: nat) => |Absent(events, residents, i)| as real, n)
  {
    hide SumOver, Needed, Left, Absent, LateOnes, Asked;
    TotalsExactly(events, residents, expertMs, |events|);
  }

  // ---- The bound ----

  predicate Positive(expertMs: real) {
    expertMs > 0.0
  }

  lemma {:induction false} TransferNotNegative(e: RouterTraceEvent, residents: map<nat, seq<nat>>, expertMs: real)
    requires Positive(expertMs)
    ensures TransferMs(e, residents, expertMs) >= 0.0
  {
    var m := Missing(e, residents) as real;
    assert m * expertMs >= 0.0;
  }

  /**
   The oracle never hides more than the time between the first and the last layer, and never more than
   there is to transfer; the first layer is always paid in full.
   */
  lemma {:induction false} ResidualBounds(events: seq<RouterTraceEvent>, residents: map<nat, seq<nat>>, expertMs: real,
                                          n: nat)
    requires Positive(expertMs) && TimeOrdered(events) && 0 < n <= |events|
    ensures Blocking(events, residents, expertMs, n)
      - WindowMs(events[0], events[n - 1]) <= Residual(events, residents, expertMs, n)
    ensures Residual(events, residents, expertMs, n) <= Blocking(events, residents, expertMs, n)
    ensures TransferMs(events[0], residents, expertMs) <= Residual(events, residents, expertMs, n)
  {
    hide TransferMs;
    TransferNotNegative(events[n - 1], residents, expertMs);
    if n > 1 {
      ResidualBounds(events, residents, expertMs, n - 1);
      assert events[n - 2].observedAtNs <= events[n - 2 + 1].observedAtNs;
      WindowsAdd(events[0], events[n - 2], events[n - 1]);
    } else {
      assert Residual(events, residents, expertMs, 0) == 0.0 && Blocking(events, residents, expertMs, 0) == 0.0;
      assert WindowMs(events[0], events[0]) == 0.0;
    }
  }

  lemma {:induction false} WindowsAdd(a: RouterTraceEvent, b: RouterTraceEvent, c: RouterTraceEvent)
    ensures WindowMs(a, b) + WindowMs(b, c) == WindowMs(a, c)
    ensures b.observedAtNs <= c.observedAtNs ==> WindowMs(b, c) >= 0.0
  {
  }

  /** The oracle is free of blocking exactly when no event is late. */
  lemma {:induction false} FreeExactlyWhenNeverLate(events: seq<RouterTraceEvent>, residents: map<nat, seq<nat>>,
                                                    expertMs: real, n: nat)
    requires Positive(expertMs) && n <= |events|
    ensures Residual(events, residents, expertMs, n) >= 0.0
    ensures Residual(events, residents, expertMs, n) == 0.0 <==> Late(events, residents, expertMs, n) == 0
  {
    hide TransferMs;
    if n > 0 {
      FreeExactlyWhenNeverLate(events, residents, expertMs, n - 1);
      TransferNotNegative(events[n - 1], residents, expertMs);
    }
  }

  // ---- More residents and faster transfers ----

  /** Every layer keeps at least what it kept. */
  ghost predicate Keeps(more: map<nat, seq<nat>>, fewer: map<nat, seq<nat>>) {
    forall layer: nat, x: nat :: x in CacheOf(fewer, layer) ==> x in CacheOf(more, layer)
  }

  lemma {:induction false} FewerMissing(s: seq<nat>, more: seq<nat>, fewer: seq<nat>)
    requires forall x :: x in fewer ==> x in more
    ensures |Without(s, more)| <= |Without(s, fewer)|
  {
    if s != [] {
      FewerMissing(s[..|s| - 1], more, fewer);
    }
  }

  lemma {:induction false} FewerAt(more: map<nat, seq<nat>>, fewer: map<nat, seq<nat>>, layer: nat)
    requires Keeps(more, fewer)
    ensures forall x :: x in CacheOf(fewer, layer) ==> x in CacheOf(more, layer)
  {
  }

  lemma {:induction false} TransferShrinks(e: RouterTraceEvent, more: map<nat, seq<nat>>, fewer: map<nat, seq<nat>>,
                                           fast: real, slow: real)
    requires Keeps(more, fewer) && 0.0 < fast <= slow
    ensures Missing(e, more) <= Missing(e, fewer)
    ensures TransferMs(e, more, fast) <= TransferMs(e, fewer, slow)
  {
    hide Keeps, Without;
    FewerAt(more, fewer, e.layerId);
    FewerMissing(e.selected, CacheOf(more, e.layerId), CacheOf(fewer, e.layerId));
    Product(Missing(e, more) as real, Missing(e, fewer) as real, fast, slow);
  }

  lemma {:induction false} NotNegative(a: real, b: real)
    requires a >= 0.0 && b >= 0.0
    ensures a * b >= 0.0
  {
  }

  lemma {:induction false} Product(a: real, b: real, x: real, y: real)
    requires 0.0 <= a <= b && 0.0 < x <= y
    ensures a * x <= b * y
  {
    NotNegative(b - a, x);
    NotNegative(b, y - x);
    assert b * y == a * x + (b - a) * x + b * (y - x);
  }

  /** More residents or a faster transfer never block longer, never leave more, and never make more events late. */
  lemma {:induction false} NeverWorse(events: seq<RouterTraceEvent>, more: map<nat, seq<nat>>,
                                      fewer: map<nat, seq<nat>>, fast: real, slow: real, n: nat)
    requires Keeps(more, fewer) && 0.0 < fast <= slow && n <= |events|
    ensures Blocking(events, more, fast, n) <= Blocking(events, fewer, slow, n)
    ensures Residual(events, more, fast, n) <= Residual(events, fewer, slow, n)
    ensures Late(events, more, fast, n) <= Late(events, fewer, slow, n)
    ensures Misses(events, more, n) <= Misses(events, fewer, n)
  {
    hide TransferMs, Keeps, Missing, WindowMs;
    if n > 0 {
      NeverWorse(events, more, fewer, fast, slow, n - 1);
      TransferShrinks(events[n - 1], more, fewer, fast, slow);
    }
  }

  /** The residents of all layers at one capacity. */
  function ResidentsAt(rankings: map<nat, seq<nat>>, capacity: nat): map<nat, seq<nat>> {
    map layer | layer in rankings :: Residents(rankings[layer], capacity)
  }

  /** A larger frozen cache never makes the bound worse. */
  lemma {:induction false} MoreSlotsNeverWorse(events: seq<RouterTraceEvent>, rankings: map<nat, seq<nat>>, small: nat,
                                               large: nat, expertMs: real)
    requires Positive(expertMs) && small <= large
    ensures var a := CostOf(events, ResidentsAt(rankings, large), expertMs);
            var b := CostOf(events, ResidentsAt(rankings, small), expertMs);
            a.hits >= b.hits && a.blocking <= b.blocking && a.residual <= b.residual && a.late <= b.late
  {
    hide Late, Residual, Blocking, Misses;
    var more, fewer := ResidentsAt(rankings, large), ResidentsAt(rankings, small);
    forall layer: nat, x: nat | x in CacheOf(fewer, layer)
      ensures x in CacheOf(more, layer)
    {
      var ranked := rankings[layer];
      var i :| 0 <= i < |Residents(ranked, small)| && Residents(ranked, small)[i] == x;
      assert Residents(ranked, large)[i] == x;
    }
    NeverWorse(events, more, fewer, expertMs, expertMs, |events|);
  }
}
