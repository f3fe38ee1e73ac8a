/** The resource gate, spelled out: which cases let a sequence go on, and exactly which reports are accepted. */
module CoverageBudget {
  import opened Trace
  import opened Processes
  import opened Coverage
  import opened CoverageAgreement

  /** Raw records valid, a status that may continue, under four hours with its loading, under sixteen in all. */
  predicate GoesOn(r: CaseReport, result: CaseResult, finish: int, sequenceStarted: int) {
    && result.allRaw && (result.status == PassProduct || result.status == StatisticalStop)
    && r.load + finish - r.started < 14_400_000_000_000
    && finish - sequenceStarted < 57_600_000_000_000
  }

  /** The costs and the gain that a case must report. */
  predicate Charged(g: Gated, r: CaseReport, sequenceStarted: int) {
    && g.wall == r.load + g.finish - r.started
    && (g.withinBudget <==> r.load + g.finish - r.started < 14_400_000_000_000
                            && g.finish - sequenceStarted < 57_600_000_000_000)
    && (g.gain <==> g.result.gain && g.withinBudget)
  }

  lemma {:induction false} GateIs(r: CaseReport, result: CaseResult, start: int, finish: int, sequenceStarted: int,
                                  g: Gated)
    ensures g == Gate(r, result, start, finish, sequenceStarted)
       <==> g.result == result && g.start == start && g.finish == finish && Charged(g, r, sequenceStarted)
  {
  }

  lemma {:induction false} StopsExactly(r: CaseReport, result: CaseResult, start: int, finish: int,
                                        sequenceStarted: int)
    ensures MustStop(Gate(r, result, start, finish, sequenceStarted)) <==> !GoesOn(r, result, finish, sequenceStarted)
  {
  }

  // ---- The collector ----

  /** What one visit of the collector does when there is no verdict yet. */
  lemma {:induction false} CollectedCase(w: World, validate: Validate, i: nat)
    requires ReportsWritten(w) && i < |w.cases| && Collect(w, validate, i).verdict.None?
    ensures var c, p, q := w.cases[i], Collect(w, validate, i), Collect(w, validate, i + 1);
            var kept := if c.disk.report.Some? then Retained(c.disk.attempts, |c.disk.starts|) else NotRun;
            && q.cases[i].caseId == w.caseIds[i]
            && if c.clock - w.started >= 57_600_000_000_000
               then q.cases[i].entry == NotRun && q.disk[i] == CaseDisk(false, None, 0, [])
                 && q.verdict == Some(ResourceStop)
               else
                 && q.disk[i] == c.disk
                 && if c.raised.Some?
                    then q.cases[i].entry == kept
                         && q.verdict == Some(if c.raised == Some(Resource) then ResourceStop else IdentityStop)
                    else if validate(i, c.disk.report.value).None?
                    then q.cases[i].entry == kept && q.verdict == Some(IdentityStop)
                    else
                      var r, result := c.disk.report.value, validate(i, c.disk.report.value).value;
                      && q.cases[i].entry.Ran?
                      && var g := q.cases[i].entry.gated;
                         && g.result == result && g.start == c.before && g.finish == c.finish
                         && Charged(g, r, w.started)
                         && q.verdict == if SumAttempts(q.cases) > 428 then Some(ResourceStop)
                                         else if !GoesOn(r, result, c.finish, w.started) then Some(SequenceStop)
                                         else None
  {
    hide Gate, MustStop, SumAttempts;
    var c := w.cases[i];
    if c.disk.report.Some? && validate(i, c.disk.report.value).Some? {
      var r, result := c.disk.report.value, validate(i, c.disk.report.value).value;
      GateIs(r, result, c.before, c.finish, w.started, Gate(r, result, c.before, c.finish, w.started));
      StopsExactly(r, result, c.before, c.finish, w.started);
    }
  }

  /** Case i is executed in time, does not raise, is verified, and lets the sequence go on. */
  predicate Succeeds(w: World, validate: Validate, i: nat)
    requires ReportsWritten(w) && i < |w.cases|
  {
    var c := w.cases[i];
    && c.clock - w.started < 57_600_000_000_000 && c.raised.None?
    && validate(i, c.disk.report.value).Some?
    && GoesOn(c.disk.report.value, validate(i, c.disk.report.value).value, c.finish, w.started)
  }

  /** The attempts of the first n cases, as their verifications count them. */
  function AttemptsUpTo(w: World, validate: Validate, n: nat): nat
    requires ReportsWritten(w) && n <= |w.cases| && forall i :: 0 <= i < n ==> Succeeds(w, validate, i)
  {
    if n == 0 then 0
    else
      assert Succeeds(w, validate, n - 1);
      AttemptsUpTo(w, validate, n - 1) + validate(n - 1, w.cases[n - 1].disk.report.value).value.attempts
  }

  lemma {:induction false} NoneYet(w: World, validate: Validate)
    requires ReportsWritten(w)
    ensures Collect(w, validate, 0).verdict.None? <==> w.preflight.None?
    ensures AttemptsUpTo(w, validate, 0) == 0 == SumAttempts(Collect(w, validate, 0).cases)
  {
  }

  lemma {:induction false} AttemptsGrow(w: World, validate: Validate, n: nat)
    requires ReportsWritten(w) && n < |w.cases| && forall i :: 0 <= i <= n ==> Succeeds(w, validate, i)
    ensures w.cases[n].disk.report.Some? && validate(n, w.cases[n].disk.report.value).Some?
    ensures AttemptsUpTo(w, validate, n + 1)
         == AttemptsUpTo(w, validate, n) + validate(n, w.cases[n].disk.report.value).value.attempts
  {
    hide GoesOn;
    assert Succeeds(w, validate, n);
  }

  /** Without a verdict before, case i ends without one exactly if it succeeds and the attempts are few enough. */
  lemma {:induction false} VisitSucceeds(w: World, validate: Validate, i: nat)
    requires ReportsWritten(w) && i < |w.cases| && Collect(w, validate, i).verdict.None?
    ensures var p, q := Collect(w, validate, i), Collect(w, validate, i + 1);
            && (q.verdict.None? <==> Succeeds(w, validate, i) && SumAttempts(q.cases) <= 428)
            && (Succeeds(w, validate, i) ==>
                  AttemptsOf(q.cases[i].entry) == validate(i, w.cases[i].disk.report.value).value.attempts)
  {
    hide GoesOn, Collect, Charged, SumAttempts;
    CollectedCase(w, validate, i);
  }

  lemma {:induction false} NoVerdictExactly(w: World, validate: Validate, n: nat)
    requires ReportsWritten(w) && n <= |w.cases|
    ensures Collect(w, validate, n).verdict.None?
       <==> w.preflight.None? && (forall i :: 0 <= i < n ==> Succeeds(w, validate, i))
            && AttemptsUpTo(w, validate, n) <= 428
    ensures Collect(w, validate, n).verdict.None? ==>
      SumAttempts(Collect(w, validate, n).cases) == AttemptsUpTo(w, validate, n)
  {
    hide Visit, Collect, Succeeds, AttemptsUpTo, SumAttempts;
    NoneYet(w, validate);
    if n > 0 {
      NoVerdictExactly(w, validate, n - 1);
      var p, q := Collect(w, validate, n - 1), Collect(w, validate, n);
      EntriesStay(w, validate, n - 1, n);
      assert q.cases == p.cases + [q.cases[n - 1]];
      SumsSnoc(p.cases, q.cases[n - 1], p.disk, ABSENT);
      if p.verdict.Some? {
        VerdictIsFinal(w, validate, n - 1, n);
        if forall i :: 0 <= i < n ==> Succeeds(w, validate, i) {
          AttemptsGrow(w, validate, n - 1);
        }
      } else {
        CollectedCase(w, validate, n - 1);
        VisitSucceeds(w, validate, n - 1);
        if Succeeds(w, validate, n - 1) {
          AttemptsGrow(w, validate, n - 1);
        }
      }
    }
  }

  /**
   The collector completes exactly when preflight passes, every case is executed in time, verified and
   lets the sequence go on, and they make at most 428 attempts together.
   */
  lemma {:induction false} CompletesExactly(w: World, validate: Validate)
    requires ReportsWritten(w)
    ensures var n := |w.cases|;
            Final(w, Collect(w, validate, n)).status == Complete
            <==> w.preflight.None? && (forall i :: 0 <= i < n ==> Succeeds(w, validate, i))
                 && AttemptsUpTo(w, validate, n) <= 428
  {
    hide Collect, Succeeds;
    NoVerdictExactly(w, validate, |w.cases|);
    NeverComplete(w, validate, |w.cases|);
  }

  // ---- The validator ----

  /** A case whose report is on disk: it ran, is verified again, and reports its costs. */
  predicate RunAccepted(report: Report, m: Manifest, ctx: Context, validate: Validate, i: nat)
    requires Shaped(ctx) && i < |ctx.disk| && ctx.disk[i].report.Some?
  {
    var r := ctx.disk[i].report.value;
    && ctx.live[i] && i < |m.loads| && r.load == m.loads[i] && m.frozen <= r.started
    && (forall j, k :: 0 <= j < k < |ctx.disk[i].starts| ==> ctx.disk[i].starts[j] != ctx.disk[i].starts[k])
    && RanAt(report, i)
    && var g := GatedAt(report, i);
       && validate(i, r) == Some(g.result) && Charged(g, r, m.started)
       && r.collected <= g.start <= g.finish <= report.finished
  }

  /** A case on disk that does not let the sequence go on. */
  predicate StopsAt(report: Report, m: Manifest, ctx: Context, i: nat)
    requires Shaped(ctx) && i < |ctx.disk|
  {
    && ctx.disk[i].report.Some? && RanAt(report, i)
    && !GoesOn(ctx.disk[i].report.value, GatedAt(report, i).result, GatedAt(report, i).finish, m.started)
  }

  ghost predicate CaseAccepted(report: Report, m: Manifest, ctx: Context, validate: Validate, i: nat)
    requires Shaped(ctx) && i < |ctx.disk|
  {
    && i < |report.cases| && report.cases[i].caseId == ctx.caseIds[i]
    && if ctx.disk[i].report.Some? then RunAccepted(report, m, ctx, validate, i)
       else
         && report.cases[i].entry == NotRun && !ctx.disk[i].present
         && (report.status == Complete ==> exists j :: 0 <= j < i && StopsAt(report, m, ctx, j))
  }

  /** Two cases on disk follow one another and share no process, and the first let the sequence go on. */
  predicate PairAccepted(report: Report, m: Manifest, ctx: Context, i: nat, j: nat)
    requires Shaped(ctx) && i < |ctx.disk| && j < |ctx.disk|
  {
    ctx.disk[i].report.Some? && ctx.disk[j].report.Some? && RanAt(report, i) ==>
      && GatedAt(report, i).finish <= ctx.disk[j].report.value.started
      && OwnersIn(ctx.disk[i].starts) !! OwnersIn(ctx.disk[j].starts)
      && !StopsAt(report, m, ctx, i)
  }

  ghost predicate CasesAccepted(report: Report, m: Manifest, ctx: Context, validate: Validate, n: nat)
    requires Shaped(ctx) && n <= |ctx.disk|
  {
    && (forall i :: 0 <= i < n ==> CaseAccepted(report, m, ctx, validate, i))
    && (forall i, j :: 0 <= i < j < n ==> PairAccepted(report, m, ctx, i, j))
  }

  /** What the scan carries, in terms of the cases behind it. */
  ghost predicate Carried(report: Report, m: Manifest, ctx: Context, s: Scan, n: nat)
    requires Shaped(ctx) && n <= |ctx.disk|
  {
    && (s.stopped <==> exists i :: 0 <= i < n && StopsAt(report, m, ctx, i))
    && (forall o :: o in s.owners <==> exists i: nat :: OwnerAt(ctx, n, i, o))
    && m.frozen <= s.previous
    && (forall i :: 0 <= i < n && ctx.disk[i].report.Some? ==>
      RanAt(report, i) && GatedAt(report, i).finish <= s.previous)
    && (s.previous == m.frozen || exists i: nat :: LastFinish(report, ctx, s, n, i))
  }

  predicate OwnerAt(ctx: Context, n: nat, i: nat, o: Owner)
    requires n <= |ctx.disk|
  {
    i < n && ctx.disk[i].report.Some? && o in OwnersIn(ctx.disk[i].starts)
  }

  predicate LastFinish(report: Report, ctx: Context, s: Scan, n: nat, i: nat)
    requires n <= |ctx.disk|
  {
    i < n && ctx.disk[i].report.Some? && RanAt(report, i) && GatedAt(report, i).finish == s.previous
  }

  lemma {:induction false} FreshIs(owners: set<Owner>, starts: seq<Owner>)
    ensures Fresh(owners, starts)
       <==> owners !! OwnersIn(starts) && forall j, k :: 0 <= j < k < |starts| ==> starts[j] != starts[k]
  {
    if Fresh(owners, starts) {
      assert forall o :: o in OwnersIn(starts) ==> o !in owners;
    } else if owners !! OwnersIn(starts) {
      assert forall i :: 0 <= i < |starts| ==> starts[i] in OwnersIn(starts);
    }
  }

  lemma {:induction false} ScanRunExactly(report: Report, m: Manifest, ctx: Context, validate: Validate, s: Scan,
                                          n: nat)
    requires Shaped(ctx) && n < |ctx.disk| && ctx.disk[n].report.Some? && Orderly(validate)
    requires n < |report.cases| && report.cases[n].caseId == ctx.caseIds[n] && m.frozen <= s.previous
    ensures ScanCase(report, m, ctx, validate, s, n).Some?
       <==> RunAccepted(report, m, ctx, validate, n) && !s.stopped
            && s.previous <= ctx.disk[n].report.value.started && s.owners !! OwnersIn(ctx.disk[n].starts)
    ensures ScanCase(report, m, ctx, validate, s, n).Some? ==>
      && s.previous <= ctx.disk[n].report.value.started <= GatedAt(report, n).finish
      && var g := GatedAt(report, n);
         ScanCase(report, m, ctx, validate, s, n).value
           == Scan(StopsAt(report, m, ctx, n), s.owners + OwnersIn(ctx.disk[n].starts), g.finish,
                   s.attempts + g.result.attempts, s.native + g.result.native)
  {
    hide Gate, MustStop, Fresh, OwnersIn, GoesOn, Charged;
    FreshIs(s.owners, ctx.disk[n].starts);
    if report.cases[n].entry.Ran? && validate(n, ctx.disk[n].report.value).Some? {
      var r, g, result := ctx.disk[n].report.value, GatedAt(report, n), validate(n, ctx.disk[n].report.value).value;
      GateIs(r, result, g.start, g.finish, m.started, g);
      StopsExactly(r, result, g.start, g.finish, m.started);
    }
  }

  lemma {:induction false} ScanExactly(report: Report, m: Manifest, ctx: Context, validate: Validate, n: nat)
    requires Shaped(ctx) && n <= |ctx.disk| && Orderly(validate)
    ensures ScanTo(report, m, ctx, validate, n).Some? <==> CasesAccepted(report, m, ctx, validate, n)
    ensures ScanTo(report, m, ctx, validate, n).Some? ==>
      Carried(report, m, ctx, ScanTo(report, m, ctx, validate, n).value, n)
  {
    hide ScanCase, Orderly, CasesAccepted, Carried, CaseAccepted;
    if n == 0 {
      NothingScanned(report, m, ctx, validate);
    } else {
      ScanExactly(report, m, ctx, validate, n - 1);
      if ScanTo(report, m, ctx, validate, n - 1).Some? {
        ScanOneMore(report, m, ctx, validate, ScanTo(report, m, ctx, validate, n - 1).value, n - 1);
      } else {
        FewerAccepted(report, m, ctx, validate, n - 1);
      }
    }
  }

  lemma {:induction false} NothingScanned(report: Report, m: Manifest, ctx: Context, validate: Validate)
    requires Shaped(ctx)
    ensures CasesAccepted(report, m, ctx, validate, 0) && Carried(report, m, ctx, Scan(false, {}, m.frozen, 0, 0), 0)
  {
  }

  lemma {:induction false} FewerAccepted(report: Report, m: Manifest, ctx: Context, validate: Validate, n: nat)
    requires Shaped(ctx) && n < |ctx.disk| && !CasesAccepted(report, m, ctx, validate, n)
    ensures !CasesAccepted(report, m, ctx, validate, n + 1)
  {
    hide CaseAccepted, PairAccepted;
  }

  lemma {:induction false} ScanOneMore(report: Report, m: Manifest, ctx: Context, validate: Validate, s: Scan, n: nat)
    requires Shaped(ctx) && n < |ctx.disk| && Orderly(validate)
    requires CasesAccepted(report, m, ctx, validate, n) && Carried(report, m, ctx, s, n)
    ensures ScanCase(report, m, ctx, validate, s, n).Some? <==> CasesAccepted(report, m, ctx, validate, n + 1)
    ensures ScanCase(report, m, ctx, validate, s, n).Some? ==>
      Carried(report, m, ctx, ScanCase(report, m, ctx, validate, s, n).value, n + 1)
  {
    hide Orderly, RunAccepted, ScanRun, OwnersIn, StopsAt, PairAccepted, CasesAccepted;
    AcceptedSnoc(report, m, ctx, validate, n);
    if n < |report.cases| && report.cases[n].caseId == ctx.caseIds[n] {
      if ctx.disk[n].report.Some? {
        ScanRunExactly(report, m, ctx, validate, s, n);
        if m.frozen <= ctx.disk[n].report.value.started {
          PairsExactly(report, m, ctx, s, n);
        } else {
          EarlyStart(report, m, ctx, validate, n);
        }
        if ScanCase(report, m, ctx, validate, s, n).Some? {
          RanOnce(report, m, ctx, validate, n);
          CarriedSnoc(report, m, ctx, s, ScanCase(report, m, ctx, validate, s, n).value, n);
        }
      } else {
        NothingRan(report, m, ctx, s, n);
        AbsentPairs(report, m, ctx, n);
        CarriedStop(report, m, ctx, s, n);
      }
    }
  }

  lemma {:induction false} AcceptedSnoc(report: Report, m: Manifest, ctx: Context, validate: Validate, n: nat)
    requires Shaped(ctx) && n < |ctx.disk|
    ensures CasesAccepted(report, m, ctx, validate, n + 1)
       <==> CasesAccepted(report, m, ctx, validate, n) && CaseAccepted(report, m, ctx, validate, n)
            && forall i :: 0 <= i < n ==> PairAccepted(report, m, ctx, i, n)
  {
    hide CaseAccepted, PairAccepted;
  }

  lemma {:induction false} AbsentPairs(report: Report, m: Manifest, ctx: Context, n: nat)
    requires Shaped(ctx) && n < |ctx.disk| && ctx.disk[n].report.None?
    ensures forall i :: 0 <= i < n ==> PairAccepted(report, m, ctx, i, n)
  {
  }

  lemma {:induction false} EarlyStart(report: Report, m: Manifest, ctx: Context, validate: Validate, n: nat)
    requires Shaped(ctx) && n < |ctx.disk| && ctx.disk[n].report.Some? && ctx.disk[n].report.value.started < m.frozen
    ensures !RunAccepted(report, m, ctx, validate, n)
  {
  }

  lemma {:induction false} RanOnce(report: Report, m: Manifest, ctx: Context, validate: Validate, n: nat)
    requires Shaped(ctx) && n < |ctx.disk| && ctx.disk[n].report.Some? && RunAccepted(report, m, ctx, validate, n)
    ensures RanAt(report, n)
  {
  }

  /** The pairs with case n, by what the scan carries. */
  lemma {:induction false} PairsExactly(report: Report, m: Manifest, ctx: Context, s: Scan, n: nat)
    requires Shaped(ctx) && n < |ctx.disk| && ctx.disk[n].report.Some? && Carried(report, m, ctx, s, n)
    requires m.frozen <= ctx.disk[n].report.value.started
    ensures (forall i :: 0 <= i < n ==> PairAccepted(report, m, ctx, i, n))
       <==> !s.stopped && s.previous <= ctx.disk[n].report.value.started && s.owners !! OwnersIn(ctx.disk[n].starts)
  {
    hide OwnersIn, StopsAt;
    if forall i :: 0 <= i < n ==> PairAccepted(report, m, ctx, i, n) {
      if exists i :: 0 <= i < n && StopsAt(report, m, ctx, i) {
        var i :| 0 <= i < n && StopsAt(report, m, ctx, i);
        StopRan(report, m, ctx, i);
        assert PairAccepted(report, m, ctx, i, n);
      }
      if s.previous != m.frozen {
        var i: nat :| LastFinish(report, ctx, s, n, i);
        assert PairAccepted(report, m, ctx, i, n);
      }
      forall o | o in s.owners
        ensures o !in OwnersIn(ctx.disk[n].starts)
      {
        var i: nat :| OwnerAt(ctx, n, i, o);
        assert PairAccepted(report, m, ctx, i, n);
      }
    }
    if !s.stopped && s.previous <= ctx.disk[n].report.value.started && s.owners !! OwnersIn(ctx.disk[n].starts) {
      forall i | 0 <= i < n
        ensures PairAccepted(report, m, ctx, i, n)
      {
        if ctx.disk[i].report.Some? {
          forall o | o in OwnersIn(ctx.disk[i].starts)
            ensures o in s.owners
          {
            assert OwnerAt(ctx, n, i, o);
          }
        }
      }
    }
  }

  lemma {:induction false} StopRan(report: Report, m: Manifest, ctx: Context, i: nat)
    requires Shaped(ctx) && i < |ctx.disk| && StopsAt(report, m, ctx, i)
    ensures ctx.disk[i].report.Some? && RanAt(report, i)
  {
  }

  lemma {:induction false} CarriedSnoc(report: Report, m: Manifest, ctx: Context, s: Scan, t: Scan, n: nat)
    requires Shaped(ctx) && n < |ctx.disk| && ctx.disk[n].report.Some? && RanAt(report, n)
    requires Carried(report, m, ctx, s, n) && !s.stopped && s.previous <= GatedAt(report, n).finish
    requires t.stopped == StopsAt(report, m, ctx, n) && t.owners == s.owners + OwnersIn(ctx.disk[n].starts)
    requires t.previous == GatedAt(report, n).finish
    ensures Carried(report, m, ctx, t, n + 1)
  {
    hide OwnersIn, StopsAt;
    var next := n + 1;
    forall o
      ensures o in t.owners <==> exists i: nat :: OwnerAt(ctx, next, i, o)
    {
      if o in s.owners {
        var i: nat :| OwnerAt(ctx, n, i, o);
        assert OwnerAt(ctx, next, i, o);
      } else if o in OwnersIn(ctx.disk[n].starts) {
        assert OwnerAt(ctx, next, n, o);
      }
      if exists i: nat :: OwnerAt(ctx, next, i, o) {
        var i: nat :| OwnerAt(ctx, next, i, o);
        assert i < n ==> OwnerAt(ctx, n, i, o);
      }
    }
    assert LastFinish(report, ctx, t, n + 1, n);
  }

  lemma {:induction false} NothingRan(report: Report, m: Manifest, ctx: Context, s: Scan, n: nat)
    requires Shaped(ctx) && n < |ctx.disk| && ctx.disk[n].report.None? && Carried(report, m, ctx, s, n)
    ensures Carried(report, m, ctx, s, n + 1)
  {
    hide OwnersIn;
    var next := n + 1;
    forall o
      ensures o in s.owners <==> exists i: nat :: OwnerAt(ctx, next, i, o)
    {
      if exists i: nat :: OwnerAt(ctx, next, i, o) {
        var i: nat :| OwnerAt(ctx, next, i, o);
        assert OwnerAt(ctx, n, i, o);
      }
      if exists i: nat :: OwnerAt(ctx, n, i, o) {
        var i: nat :| OwnerAt(ctx, n, i, o);
        assert OwnerAt(ctx, next, i, o);
      }
    }
    if s.previous != m.frozen {
      var i: nat :| LastFinish(report, ctx, s, n, i);
      assert LastFinish(report, ctx, s, n + 1, i);
    }
  }

  function AttemptsAt(report: Report, i: nat): nat {
    if RanAt(report, i) then GatedAt(report, i).result.attempts else 0
  }

  function NativeAt(report: Report, i: nat): nat {
    if RanAt(report, i) then GatedAt(report, i).result.native else 0
  }

  lemma {:induction false} SumsAre(report: Report, ctx: Context, s: Scan, n: nat)
    requires Shaped(ctx) && n <= |ctx.disk| && Known(report, ctx, s, n) && n == 4
    ensures s.attempts == AttemptsAt(report, 0) + AttemptsAt(report, 1) + AttemptsAt(report, 2) + AttemptsAt(report, 3)
    ensures s.native == NativeAt(report, 0) + NativeAt(report, 1) + NativeAt(report, 2) + NativeAt(report, 3)
  {
    hide SumAttempts, SumNative;
    forall i | 0 <= i < 4
      ensures i < |report.cases| && AttemptsOf(report.cases[i].entry) == AttemptsAt(report, i)
      ensures NativeOf(report.cases[i].entry) == NativeAt(report, i)
    {
      assert KnownCase(report, ctx, s, i);
    }
    NoSums(report);
    SumsTo(report, 0);
    SumsTo(report, 1);
    SumsTo(report, 2);
    SumsTo(report, 3);
  }

  lemma {:induction false} NoSums(report: Report)
    ensures SumAttempts(report.cases[..0]) == 0 && SumNative(report.cases[..0]) == 0
  {
  }

  predicate SomeStop(report: Report, m: Manifest, ctx: Context)
    requires Shaped(ctx) && |ctx.disk| == 4
  {
    exists i :: 0 <= i < 4 && StopsAt(report, m, ctx, i)
  }

  /**
   The validator accepts a report exactly when the manifest and the clock are in order, every one of the
   four cases is accepted alone and beside each other, the counts are the sums over the cases and the
   start files, and the status is a stop if some case does not let the sequence go on, and complete if none.
   */
  lemma {:induction false} AcceptedExactly(report: Report, ctx: Context, validate: Validate)
    requires Shaped(ctx) && Orderly(validate)
    ensures Reconstruct(report, ctx, validate).Some?
       <==> ctx.frozen && |ctx.disk| == 4 && report.manifest.Some?
            && var m := report.manifest.value;
               && report.started == m.started <= m.frozen <= report.finished
               && CasesAccepted(report, m, ctx, validate, 4)
               && report.attempts == AttemptsAt(report, 0) + AttemptsAt(report, 1) + AttemptsAt(report, 2)
                                     + AttemptsAt(report, 3) <= 428
               && report.native == NativeAt(report, 0) + NativeAt(report, 1) + NativeAt(report, 2) + NativeAt(report, 3)
                                == StartsOnDisk(ctx.disk)
               && report.status == (if SomeStop(report, m, ctx) then SequenceStop else Complete)
    ensures Reconstruct(report, ctx, validate).Some? ==>
      Reconstruct(report, ctx, validate) == Some(Verdict(report.status, report.attempts, report.native))
  {
    hide ScanTo, CasesAccepted, StartsOnDisk, Orderly, AttemptsAt, NativeAt, StopsAt, Known;
    if |ctx.disk| == 4 && report.manifest.Some? {
      var m := report.manifest.value;
      ScanExactly(report, m, ctx, validate, 4);
      if ScanTo(report, m, ctx, validate, 4).Some? {
        var s := ScanTo(report, m, ctx, validate, 4).value;
        ScanKnows(report, m, ctx, validate, 4);
        SumsAre(report, ctx, s, 4);
        CarriedStop(report, m, ctx, s, 4);
      }
    }
  }

  lemma {:induction false} CarriedStop(report: Report, m: Manifest, ctx: Context, s: Scan, n: nat)
    requires Shaped(ctx) && n <= |ctx.disk| && Carried(report, m, ctx, s, n)
    ensures s.stopped <==> exists i :: 0 <= i < n && StopsAt(report, m, ctx, i)
  {
    hide StopsAt;
  }
}
