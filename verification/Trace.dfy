/** Router observations, and the facts about duplicate-free sequences that every cache model uses. */
module Trace {

  datatype Option<+T> = None | Some(value: T)

  /** The fields of a router observation that the analyses read. */
  datatype RouterTraceEvent = RouterTraceEvent(
    requestId: string,
    forwardId: nat,
    hookOrder: nat,
    tokenIndex: nat,
    layerId: nat,
    selected: seq<nat>,
    observedAtNs: nat)

  ghost predicate Distinct<T>(s: seq<T>) {
    forall i, j :: 0 <= i < j < |s| ==> s[i] != s[j]
  }

  /** The trace schema rejects an empty selection and a repeated expert. */
  ghost predicate ValidEvent(e: RouterTraceEvent) {
    e.selected != [] && Distinct(e.selected)
  }

  ghost predicate ValidTrace(events: seq<RouterTraceEvent>) {
    forall i :: 0 <= i < |events| ==> ValidEvent(events[i])
  }

  ghost function Elems(s: seq<nat>): set<nat> {
    set x | x in s
  }

  function Min(a: int, b: int): int {
    if a < b then a else b
  }

  /** The values of `f` at 0..n-1, added up. */
  function SumOver(f: nat -> real, n: nat): real {
    if n == 0 then 0.0 else SumOver(f, n - 1) + f(n - 1)
  }

  function LastN<T>(s: seq<T>, n: nat): (r: seq<T>)
    ensures |r| == Min(|s|, n)
  {
    if |s| <= n then s else s[|s| - n..]
  }

  lemma {:induction false} ElemsConcat(s: seq<nat>, t: seq<nat>)
    ensures Elems(s + t) == Elems(s) + Elems(t)
  {
  }

  lemma {:induction false} DistinctCard(s: seq<nat>)
    requires Distinct(s)
    ensures |Elems(s)| == |s|
  {
    if s == [] {
      assert Elems(s) == {};
    } else {
      var n := |s| - 1;
      DistinctCard(s[..n]);
      assert s == s[..n] + [s[n]];
      assert Elems(s) == Elems(s[..n]) + {s[n]};
      assert s[n] !in Elems(s[..n]);
    }
  }

  lemma {:induction false} CardAtMost(s: seq<nat>)
    ensures |Elems(s)| <= |s|
  {
    if s == [] {
      assert Elems(s) == {};
    } else {
      var n := |s| - 1;
      CardAtMost(s[..n]);
      assert s == s[..n] + [s[n]];
      assert Elems(s) == Elems(s[..n]) + {s[n]};
    }
  }

  lemma {:induction false} SameElemsSameLength(s: seq<nat>, t: seq<nat>)
    requires Distinct(s) && Distinct(t)
    requires forall x :: x in s ==> x in t
    requires forall x :: x in t ==> x in s
    ensures |s| == |t|
  {
    DistinctCard(s);
    DistinctCard(t);
    assert Elems(s) == Elems(t);
  }

  lemma {:induction false} SubsetCard(a: set<nat>, b: set<nat>)
    requires a <= b
    ensures |a| <= |b|
    ensures |a| == |b| ==> a == b
  {
    assert b == a + (b - a);
    assert |b| == |a| + |b - a|;
    if |a| == |b| {
      assert b - a == {};
    }
  }

  lemma {:induction false} DistinctConcat(s: seq<nat>, t: seq<nat>)
    requires Distinct(s) && Distinct(t)
    requires forall x :: x in s ==> x !in t
    ensures Distinct(s + t)
  {
    forall i, j | 0 <= i < j < |s + t|
      ensures (s + t)[i] != (s + t)[j]
    {
      if i < |s| <= j {
        var x := s[i];
        assert x in s;
        assert t[j - |s|] in t;
      }
    }
  }

  /** The elements of `s` that occur in `r`, in the order of `s`. */
  function Within(s: seq<nat>, r: seq<nat>): (t: seq<nat>) {
    if s == [] then []
    else
      var n := |s| - 1;
      Within(s[..n], r) + (if s[n] in r then [s[n]] else [])
  }

  /** The elements of `s` that do not occur in `r`, in the order of `s`. */
  function Without(s: seq<nat>, r: seq<nat>): (t: seq<nat>) {
    if s == [] then []
    else
      var n := |s| - 1;
      Without(s[..n], r) + (if s[n] in r then [] else [s[n]])
  }

  lemma {:induction false} FilterElems(s: seq<nat>, r: seq<nat>)
    ensures forall x :: x in Within(s, r) <==> x in s && x in r
    ensures forall x :: x in Without(s, r) <==> x in s && x !in r
    ensures |Within(s, r)| + |Without(s, r)| == |s|
  {
    if s != [] {
      FilterElems(s[..|s| - 1], r);
      assert s == s[..|s| - 1] + [s[|s| - 1]];
    }
  }

  lemma {:induction false} FilterDistinct(s: seq<nat>, r: seq<nat>)
    requires Distinct(s)
    ensures Distinct(Within(s, r)) && Distinct(Without(s, r))
  {
    if s != [] {
      var n := |s| - 1;
      FilterDistinct(s[..n], r);
      FilterElems(s[..n], r);
      assert s[n] !in s[..n];
    }
  }

  lemma {:induction false} FilterConcat(s: seq<nat>, t: seq<nat>, r: seq<nat>)
    ensures Within(s + t, r) == Within(s, r) + Within(t, r)
    ensures Without(s + t, r) == Without(s, r) + Without(t, r)
  {
    if t == [] {
      assert s + t == s;
    } else {
      var n := |t| - 1;
      FilterConcat(s, t[..n], r);
      var st := s + t;
      assert st[..|st| - 1] == s + t[..n] && st[|st| - 1] == t[n];
      var hit, miss := if t[n] in r then [t[n]] else [], if t[n] in r then [] else [t[n]];
      assert Within(st, r) == Within(s + t[..n], r) + hit;
      assert Without(st, r) == Without(s + t[..n], r) + miss;
    }
  }

  /** Filtering out one element of a duplicate-free sequence removes it and nothing else. */
  lemma {:induction false} RemoveAt(s: seq<nat>, i: nat)
    requires Distinct(s) && i < |s|
    ensures Without(s, [s[i]]) == s[..i] + s[i + 1..]
  {
    var n := |s| - 1;
    if i == n {
      FilterNone(s[..n], [s[i]]);
    } else {
      RemoveAt(s[..n], i);
      assert s[..n][..i] == s[..i];
      assert s[..n][i + 1..] + [s[n]] == s[i + 1..];
    }
  }

  /** Filtering depends only on which elements the second argument holds. */
  lemma {:induction false} FilterSameElems(s: seq<nat>, r: seq<nat>, q: seq<nat>)
    requires forall i :: 0 <= i < |s| ==> (s[i] in r <==> s[i] in q)
    ensures Within(s, r) == Within(s, q)
    ensures Without(s, r) == Without(s, q)
  {
    if s != [] {
      FilterSameElems(s[..|s| - 1], r, q);
      assert s[|s| - 1] in r <==> s[|s| - 1] in q;
    }
  }

  lemma {:induction false} FilterAll(s: seq<nat>, r: seq<nat>)
    requires forall i :: 0 <= i < |s| ==> s[i] in r
    ensures Within(s, r) == s
    ensures Without(s, r) == []
  {
    if s != [] {
      var n := |s| - 1;
      FilterAll(s[..n], r);
      assert s[n] in r;
      assert s == s[..n] + [s[n]];
    }
  }

  lemma {:induction false} FilterNone(s: seq<nat>, r: seq<nat>)
    requires forall i :: 0 <= i < |s| ==> s[i] !in r
    ensures Within(s, r) == []
    ensures Without(s, r) == s
  {
    if s != [] {
      var n := |s| - 1;
      FilterNone(s[..n], r);
      assert s[n] !in r;
      assert s == s[..n] + [s[n]];
    }
  }
}
