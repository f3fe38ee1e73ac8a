/** The move-to-front stack of the routing-locality report, and what its indices mean. */
module ReuseDistance {
  import opened Trace
  import opened LruWindow

  /** The demands of a sequence of events, one expert at a time. */
  function Flatten(events: seq<seq<nat>>): seq<nat> {
    if events == [] then [] else Flatten(events[..|events| - 1]) + events[|events| - 1]
  }

  /** The stack after a sequence of demands, most recent expert first. */
  function Stack(demands: seq<nat>): seq<nat> {
    if demands == [] then []
    else
      var n := |demands| - 1;
      [demands[n]] + Without(Stack(demands[..n]), [demands[n]])
  }

  function IndexOf(s: seq<nat>, x: nat): (i: nat)
    requires x in s
    ensures i < |s| && s[i] == x && x !in s[..i]
  {
    if s[0] == x then 0
    else
      assert s == [s[0]] + s[1..];
      assert x in s[1..];
      var i := IndexOf(s[1..], x);
      assert s[..i + 1] == [s[0]] + s[1..][..i];
      i + 1
  }

  /** The index at which the report finds `x`, if it has seen it at all. */
  function Distance(demands: seq<nat>, x: nat): Option<nat> {
    if x in Stack(demands) then Some(IndexOf(Stack(demands), x)) else None
  }

  function Cold(demands: seq<nat>): nat {
    if demands == [] then 0
    else
      var n := |demands| - 1;
      Cold(demands[..n]) + if Distance(demands[..n], demands[n]).None? then 1 else 0
  }

  function Histogram(demands: seq<nat>): multiset<nat> {
    if demands == [] then multiset{}
    else
      var n := |demands| - 1;
      match Distance(demands[..n], demands[n])
      case None => Histogram(demands[..n])
      case Some(d) => Histogram(demands[..n]) + multiset{d}
  }

  lemma {:induction false} StackElems(demands: seq<nat>)
    ensures Distinct(Stack(demands))
    ensures forall x :: x in Stack(demands) <==> x in demands
  {
    if demands != [] {
      var n := |demands| - 1;
      var f, z := demands[..n], demands[n];
      StackElems(f);
      FilterElems(Stack(f), [z]);
      FilterDistinct(Stack(f), [z]);
      assert demands == f + [z];
      DistinctConcat([z], Without(Stack(f), [z]));
    }
  }

  lemma {:induction false} StackSnoc(f: seq<nat>, z: nat)
    ensures Stack(f + [z]) == [z] + Without(Stack(f), [z])
  {
    assert (f + [z])[..|f|] == f;
  }

  lemma {:induction false} TouchSplit(pre: seq<nat>, x: nat, post: seq<nat>, y: nat)
    requires y != x
    ensures Without(pre + [x] + post, [y]) == Without(pre, [y]) + [x] + Without(post, [y])
  {
    FilterConcat(pre + [x], post, [y]);
    FilterConcat(pre, [x], [y]);
    FilterNone([x], [y]);
  }

  /** Since its last demand an expert sinks below exactly the experts demanded after it. */
  lemma {:induction false} StackWindow(g: seq<nat>, x: nat, h: seq<nat>) returns (pre: seq<nat>, post: seq<nat>)
    requires x !in h
    ensures Stack(g + [x] + h) == pre + [x] + post
    ensures Elems(pre) == Elems(h)
  {
    hide Stack, Within, Without;
    if h == [] {
      StackSnoc(g, x);
      pre, post := [], Without(Stack(g), [x]);
      assert g + [x] + h == g + [x];
      assert [] + [x] + post == [x] + post;
    } else {
      var n := |h| - 1;
      var f, y := h[..n], h[n];
      assert h == f + [y];
      var p, q := StackWindow(g, x, f);
      assert g + [x] + h == (g + [x] + f) + [y];
      StackSnoc(g + [x] + f, y);
      TouchSplit(p, x, q, y);
      FilterElems(p, [y]);
      pre, post := [y] + Without(p, [y]), Without(q, [y]);
      assert Elems(Without(p, [y])) == Elems(p) - {y};
      ElemsConcat([y], Without(p, [y]));
      ElemsConcat(f, [y]);
      assert Elems([y]) == {y};
      assert [y] + (Without(p, [y]) + [x] + Without(q, [y])) == pre + [x] + post;
    }
  }

  /**
   The meaning of a reuse distance: when `x` is demanded after `g + [x] + h`, with `x` not in `h`,
   the recorded index is the number of distinct experts demanded in between.
   */
  lemma {:induction false} DistanceCountsDistinct(g: seq<nat>, x: nat, h: seq<nat>)
    requires x !in h
    ensures Distance(g + [x] + h, x) == Some(|Elems(h)|)
  {
    hide Stack;
    var pre, post := StackWindow(g, x, h);
    var s := Stack(g + [x] + h);
    StackElems(g + [x] + h);
    var i := IndexOf(s, x);
    assert s[|pre|] == x;
    assert i == |pre|;
    assert Distinct(pre) by {
      assert forall j :: 0 <= j < |pre| ==> pre[j] == s[j];
    }
    DistinctCard(pre);
  }

  lemma {:induction false} FirstDemandIsCold(demands: seq<nat>, x: nat)
    ensures Distance(demands, x).None? <==> x !in demands
  {
    StackElems(demands);
  }

  /** The report's counts: one cold miss per distinct expert, and every other demand is a reuse. */
  lemma {:induction false} ColdAndReuse(demands: seq<nat>)
    ensures Cold(demands) == |Elems(demands)|
    ensures Cold(demands) + |Histogram(demands)| == |demands|
  {
    hide Stack, Distance;
    if demands == [] {
      assert Elems(demands) == {};
    } else {
      var n := |demands| - 1;
      var f, z := demands[..n], demands[n];
      ColdAndReuse(f);
      FirstDemandIsCold(f, z);
      assert demands == f + [z];
      assert Elems(demands) == Elems(f) + {z};
      if z in f {
        assert Elems(demands) == Elems(f);
      }
    }
  }

  /** How many demands are reuses at distance at most `t`. */
  function Near(demands: seq<nat>, t: int): nat {
    if demands == [] then 0
    else
      var n := |demands| - 1;
      var d := Distance(demands[..n], demands[n]);
      Near(demands[..n], t) + if d.Some? && d.value <= t then 1 else 0
  }

  /** The same number, read off the histogram. */
  function UpTo(histogram: multiset<nat>, t: int): nat
    decreases t + 1
  {
    if t < 0 then 0 else histogram[t] + UpTo(histogram, t - 1)
  }

  lemma {:induction false} UpToAdd(histogram: multiset<nat>, d: nat, t: int)
    ensures UpTo(histogram + multiset{d}, t) == UpTo(histogram, t) + if d <= t then 1 else 0
    decreases t + 1
  {
    if t >= 0 {
      UpToAdd(histogram, d, t - 1);
    }
  }

  lemma {:induction false} UpToEmpty(t: int)
    ensures UpTo(multiset{}, t) == 0
    decreases t + 1
  {
    if t >= 0 {
      UpToEmpty(t - 1);
    }
  }

  lemma {:induction false} NearIsHistogram(demands: seq<nat>, t: int)
    ensures Near(demands, t) == UpTo(Histogram(demands), t)
  {
    hide UpTo, Distance;
    if demands == [] {
      UpToEmpty(t);
    } else {
      var n := |demands| - 1;
      NearIsHistogram(demands[..n], t);
      var d := Distance(demands[..n], demands[n]);
      if d.Some? {
        UpToAdd(Histogram(demands[..n]), d.value, t);
      }
    }
  }

  lemma {:induction false} FlattenConcat(a: seq<seq<nat>>, b: seq<seq<nat>>)
    ensures Flatten(a + b) == Flatten(a) + Flatten(b)
  {
    if b == [] {
      assert a + b == a;
    } else {
      FlattenConcat(a, b[..|b| - 1]);
      assert (a + b)[..|a + b| - 1] == a + b[..|b| - 1];
    }
  }

  lemma {:induction false} FlattenElems(events: seq<seq<nat>>)
    ensures Elems(Flatten(events)) == Demanded(events)
  {
    if events != [] {
      FlattenElems(events[..|events| - 1]);
      ElemsConcat(Flatten(events[..|events| - 1]), events[|events| - 1]);
    } else {
      assert Elems([]) == {};
    }
  }

  /** One demand: where the expert was found, and the stack with the expert on top. */
  method Touch(stack: seq<nat>, expert: nat) returns (after: seq<nat>, index: Option<nat>)
    requires Distinct(stack)
    ensures after == [expert] + Without(stack, [expert])
    ensures index == if expert in stack then Some(IndexOf(stack, expert)) else None
  {
    if expert !in stack {
      FilterNone(stack, [expert]);
      return [expert] + stack, None;
    }
    var i := IndexOf(stack, expert);
    RemoveAt(stack, i);
    return [expert] + (stack[..i] + stack[i + 1..]), Some(i);
  }

  /** The report's loop over one layer of one sequence. */
  method ReuseDistances(events: seq<seq<nat>>) returns (cold: nat, distances: multiset<nat>)
    ensures cold == Cold(Flatten(events)) && distances == Histogram(Flatten(events))
    ensures cold == |Elems(Flatten(events))| && cold + |distances| == |Flatten(events)|
  {
    hide Stack, Cold, Histogram, Without, IndexOf, Distinct;
    var stack: seq<nat> := [];
    cold, distances := 0, multiset{};
    NoDemand();
    var i := 0;
    while i < |events|
      invariant 0 <= i <= |events|
      invariant stack == Stack(Flatten(events[..i]))
      invariant cold == Cold(Flatten(events[..i])) && distances == Histogram(Flatten(events[..i]))
    {
      ghost var done := Flatten(events[..i]);
      assert done + events[i][..0] == done;
      var j := 0;
      while j < |events[i]|
        invariant 0 <= j <= |events[i]|
        invariant stack == Stack(done + events[i][..j])
        invariant cold == Cold(done + events[i][..j]) && distances == Histogram(done + events[i][..j])
      {
        var expert := events[i][j];
        ghost var f := done + events[i][..j];
        assert done + events[i][..j + 1] == f + [expert];
        StackElems(f);
        OneDemand(f, expert);
        var index;
        stack, index := Touch(stack, expert);
        match index {
          case None => cold := cold + 1;
          case Some(d) => distances := distances + multiset{d};
        }
        j := j + 1;
      }
      assert events[i][..j] == events[i];
      assert events[..i + 1][..i] == events[..i];
      i := i + 1;
    }
    assert events[..i] == events;
    ColdAndReuse(Flatten(events));
  }

  lemma {:induction false} NoDemand()
    ensures Stack([]) == [] && Cold([]) == 0 && Histogram([]) == multiset{}
  {
  }

  lemma {:induction false} OneDemand(f: seq<nat>, z: nat)
    ensures Stack(f + [z]) == [z] + Without(Stack(f), [z])
    ensures Cold(f + [z]) == Cold(f) + if z in Stack(f) then 0 else 1
    ensures z !in Stack(f) ==> Histogram(f + [z]) == Histogram(f)
    ensures z in Stack(f) ==> Histogram(f + [z]) == Histogram(f) + multiset{IndexOf(Stack(f), z)}
  {
    assert (f + [z])[..|f|] == f;
  }
}
