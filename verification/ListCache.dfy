/**
 Caches written out turn by turn.  A script holds what each event does to a cache; checking it is an
 evaluation, and a script that checks is a run of the hits-first cache.
 */
module ListCache {
  import opened Trace
  import opened LruEngine
  import opened LruCapacity

  datatype List = Nil | Cons(head: nat, tail: List)

  // Short lists.

  function Of2(a: nat, b: nat): List {
    Cons(a, Cons(b, Nil))
  }

  function Of3(a: nat, b: nat, c: nat): List {
    Cons(a, Of2(b, c))
  }

  function Of4(a: nat, b: nat, c: nat, d: nat): List {
    Cons(a, Of3(b, c, d))
  }

  function Of5(a: nat, b: nat, c: nat, d: nat, e: nat): List {
    Cons(a, Of4(b, c, d, e))
  }

  function Of6(a: nat, b: nat, c: nat, d: nat, e: nat, f: nat): List {
    Cons(a, Of5(b, c, d, e, f))
  }

  function Of7(a: nat, b: nat, c: nat, d: nat, e: nat, f: nat, g: nat): List {
    Cons(a, Of6(b, c, d, e, f, g))
  }

  function Of8(a: nat, b: nat, c: nat, d: nat, e: nat, f: nat, g: nat, h: nat): List {
    Cons(a, Of7(b, c, d, e, f, g, h))
  }

  function Experts(l: List): seq<nat> {
    match l
    case Nil => []
    case Cons(x, t) => [x] + Experts(t)
  }

  predicate Has(l: List, x: nat) {
    match l
    case Nil => false
    case Cons(y, t) => y == x || Has(t, x)
  }

  function Length(l: List): nat {
    match l
    case Nil => 0
    case Cons(_, t) => 1 + Length(t)
  }

  predicate Exactly(l: List, n: nat) {
    match l
    case Nil => n == 0
    case Cons(_, t) => n > 0 && Exactly(t, n - 1)
  }

  predicate AtMost(l: List, n: nat) {
    match l
    case Nil => true
    case Cons(_, t) => n > 0 && AtMost(t, n - 1)
  }

  /** One event: how many stale entries go, which stay, what hits, what misses, and the next cache. */
  datatype Turn = Turn(event: List, gone: nat, kept: List, hit: List, miss: List, next: List)
  datatype Script = End | Then(turn: Turn, rest: Script)

  const BOUND: nat := 30

  /** Different experts with small numbers, so that a padding can avoid them. */
  predicate Small(l: List) {
    match l
    case Nil => true
    case Cons(x, t) => x < BOUND && !Has(t, x) && Small(t)
  }

  /** Without the experts of the event the cache is `gone` entries and then `kept`. */
  predicate Drops(cache: List, event: List, gone: nat, kept: List) {
    match cache
    case Nil => gone == 0 && kept.Nil?
    case Cons(x, t) =>
      if Has(event, x) then Drops(t, event, gone, kept)
      else if gone > 0 then Drops(t, event, gone - 1, kept)
      else kept.Cons? && kept.head == x && Drops(t, event, 0, kept.tail)
  }

  predicate Splits(event: List, cache: List, hit: List, miss: List) {
    match event
    case Nil => hit.Nil? && miss.Nil?
    case Cons(x, t) =>
      if Has(cache, x) then hit.Cons? && hit.head == x && Splits(t, cache, hit.tail, miss)
      else miss.Cons? && miss.head == x && Splits(t, cache, hit, miss.tail)
  }

  predicate Joins(a: List, b: List, c: List, all: List) {
    if a.Cons? then all.Cons? && all.head == a.head && Joins(a.tail, b, c, all.tail)
    else if b.Cons? then all.Cons? && all.head == b.head && Joins(a, b.tail, c, all.tail)
    else all == c
  }

  /** The turn is what a cache with `room` slots beside the event does. */
  predicate Serves(cache: List, event: List, gone: nat, kept: List, hit: List, miss: List, next: List, room: nat) {
    && Drops(cache, event, gone, kept) && Splits(event, cache, hit, miss) && Joins(kept, hit, miss, next)
    && (if gone == 0 then AtMost(kept, room) else Exactly(kept, room))
  }

  predicate Follows(cache: List, s: Script, room: nat)
    decreases s
  {
    match s
    case End => true
    case Then(t, rest) =>
      Serves(cache, t.event, t.gone, t.kept, t.hit, t.miss, t.next, room) && Follows(t.next, rest, room)
  }

  /** Every event has `width` different small experts. */
  predicate Plain(s: Script, width: nat) {
    match s
    case End => true
    case Then(t, rest) => Exactly(t.event, width) && Small(t.event) && Plain(rest, width)
  }

  function Last(cache: List, s: Script): List
    decreases s
  {
    match s
    case End => cache
    case Then(t, rest) => Last(t.next, rest)
  }

  function Score(s: Script): nat {
    match s
    case End => 0
    case Then(t, rest) => Length(t.hit) + Score(rest)
  }

  function EventsOf(s: Script): seq<seq<nat>> {
    match s
    case End => []
    case Then(t, rest) => [Experts(t.event)] + EventsOf(rest)
  }

  predicate SameEvents(a: Script, b: Script) {
    match a
    case End => b.End?
    case Then(t, rest) => b.Then? && b.turn.event == t.event && SameEvents(rest, b.rest)
  }

  lemma {:induction false} SameEventsOf(a: Script, b: Script, width: nat)
    requires SameEvents(a, b)
    ensures EventsOf(a) == EventsOf(b) && (Plain(a, width) <==> Plain(b, width))
  {
    hide Small, Exactly;
    if a.Then? {
      SameEventsOf(a.rest, b.rest, width);
    }
  }

  // ---- A script that checks is a run ----

  lemma {:induction false} HasExpert(l: List, x: nat)
    ensures Has(l, x) <==> x in Experts(l)
  {
    if l.Cons? {
      HasExpert(l.tail, x);
    }
  }

  lemma {:induction false} LengthExperts(l: List)
    ensures Length(l) == |Experts(l)|
  {
    if l.Cons? {
      LengthExperts(l.tail);
    }
  }

  lemma {:induction false} SizeExperts(l: List, n: nat)
    ensures Exactly(l, n) <==> |Experts(l)| == n
    ensures AtMost(l, n) <==> |Experts(l)| <= n
  {
    if l.Cons? && n > 0 {
      SizeExperts(l.tail, n - 1);
    }
  }

  lemma {:induction false} SmallExperts(l: List)
    requires Small(l)
    ensures Distinct(Experts(l))
    ensures forall x :: x in Experts(l) ==> x < BOUND
  {
    if l.Cons? {
      SmallExperts(l.tail);
      HasExpert(l.tail, l.head);
    }
  }

  lemma {:induction false} FilterCons(x: nat, s: seq<nat>, r: seq<nat>)
    ensures Within([x] + s, r) == if x in r then [x] + Within(s, r) else Within(s, r)
    ensures Without([x] + s, r) == if x in r then Without(s, r) else [x] + Without(s, r)
  {
    FilterConcat([x], s, r);
    FilterSnoc([], x, r);
    assert [] + [x] == [x];
  }

  lemma {:induction false} DropsIsWithout(cache: List, event: List, gone: nat, kept: List)
    requires Drops(cache, event, gone, kept)
    ensures gone <= |Without(Experts(cache), Experts(event))|
    ensures Experts(kept) == Without(Experts(cache), Experts(event))[gone..]
  {
    hide Without;
    if cache.Cons? {
      var x, t := cache.head, cache.tail;
      HasExpert(event, x);
      FilterCons(x, Experts(t), Experts(event));
      if Has(event, x) {
        DropsIsWithout(t, event, gone, kept);
      } else if gone > 0 {
        DropsIsWithout(t, event, gone - 1, kept);
      } else {
        DropsIsWithout(t, event, 0, kept.tail);
      }
    } else {
      FilterNone([], Experts(event));
    }
  }

  lemma {:induction false} SplitsIsFilter(event: List, cache: List, hit: List, miss: List)
    requires Splits(event, cache, hit, miss)
    ensures Experts(hit) == Within(Experts(event), Experts(cache))
    ensures Experts(miss) == Without(Experts(event), Experts(cache))
  {
    hide Within, Without;
    if event.Cons? {
      var x, t := event.head, event.tail;
      HasExpert(cache, x);
      FilterCons(x, Experts(t), Experts(cache));
      if Has(cache, x) {
        SplitsIsFilter(t, cache, hit.tail, miss);
      } else {
        SplitsIsFilter(t, cache, hit, miss.tail);
      }
    } else {
      FilterNone([], Experts(cache));
    }
  }

  lemma {:induction false} JoinsIsConcat(a: List, b: List, c: List, all: List)
    requires Joins(a, b, c, all)
    ensures Experts(all) == Experts(a) + (Experts(b) + Experts(c))
  {
    if a.Cons? {
      JoinsIsConcat(a.tail, b, c, all.tail);
    } else if b.Cons? {
      JoinsIsConcat(a, b.tail, c, all.tail);
    }
  }

  lemma {:induction false} TurnIsServe(cache: List, t: Turn, width: nat, room: nat)
    requires Serves(cache, t.event, t.gone, t.kept, t.hit, t.miss, t.next, room) && Exactly(t.event, width)
    requires Small(t.event)
    ensures |Experts(t.event)| == width && Distinct(Experts(t.event)) && forall x :: x in Experts(t.event) ==> x < BOUND
    ensures Experts(t.next) == Serve(HitsFirst, Experts(cache), Experts(t.event), room + width)
    ensures Length(t.hit) == |Within(Experts(t.event), Experts(cache))|
  {
    hide Within, Without, LastN, Experts, Small, Drops, Splits, Joins, Length, Exactly, AtMost;
    SizeExperts(t.event, width);
    SizeExperts(t.kept, room);
    LengthExperts(t.hit);
    SmallExperts(t.event);
    DropsIsWithout(cache, t.event, t.gone, t.kept);
    SplitsIsFilter(t.event, cache, t.hit, t.miss);
    JoinsIsConcat(t.kept, t.hit, t.miss, t.next);
    LastNSuffix(Without(Experts(cache), Experts(t.event)), t.gone, room);
  }

  /** Every event demands exactly `k` different experts. */
  ghost predicate Width(events: seq<seq<nat>>, k: nat) {
    forall i :: 0 <= i < |events| ==> Distinct(events[i]) && |events[i]| == k
  }

  ghost predicate Below(events: seq<seq<nat>>, bound: nat) {
    forall i, x :: 0 <= i < |events| && x in events[i] ==> x < bound
  }

  lemma {:induction false} ScriptIsRun(cache: List, s: Script, width: nat, room: nat)
    requires Follows(cache, s, room) && Plain(s, width)
    ensures Width(EventsOf(s), width) && Below(EventsOf(s), BOUND) && Fits(EventsOf(s), room + width)
    ensures Run(HitsFirst, Experts(cache), EventsOf(s), room + width) == Experts(Last(cache, s))
    ensures Hits(HitsFirst, Experts(cache), EventsOf(s), room + width) == Score(s)
    decreases s
  {
    hide Within, Serve, Experts, Serves, Length, Small, Exactly, Distinct;
    if s.Then? {
      var e := Experts(s.turn.event);
      TurnIsServe(cache, s.turn, width, room);
      ScriptIsRun(s.turn.next, s.rest, width, room);
      var one := [e];
      assert one[..0] == [];
      RunConcat(HitsFirst, Experts(cache), [e], EventsOf(s.rest), room + width);
    }
  }
}
