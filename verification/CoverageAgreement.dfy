/** Collector and validator of the case sequence agree; what an accepted report means. */
module CoverageAgreement {
  import opened Trace
  import opened Processes
  import opened Coverage

  // ---- Conditions on the world ----

  /** The clock when case i is reached: the freeze, or the end of the case before. */
  function ClockBefore(w: World, i: nat): int
    requires i <= |w.cases|
  {
    if i == 0 then w.manifest.frozen else w.cases[i - 1].finish
  }

  /** The clock does not go back, and a case report's times lie inside its case. */
  ghost predicate Timely(w: World) {
    && w.manifest.started == w.started <= w.manifest.frozen
    && (forall i :: 0 <= i < |w.cases| ==> TimelyCase(w, i))
    && ClockBefore(w, |w.cases|) <= w.finished
  }

  predicate TimelyCase(w: World, i: nat)
    requires i < |w.cases|
  {
    var c := w.cases[i];
    && ClockBefore(w, i) <= c.clock <= c.before <= c.finish
    && (c.disk.report.Some? ==> c.clock <= c.disk.report.value.started && c.disk.report.value.collected <= c.before)
  }

  function AllStarts(cases: seq<CaseWorld>): seq<Owner> {
    if cases == [] then [] else AllStarts(cases[..|cases| - 1]) + cases[|cases| - 1].disk.starts
  }

  /**
   The case runner keeps what it is given, its validation counts the start files, and no two processes
   share an identity.
   */
  ghost predicate Faithful(w: World, validate: Validate) {
    && |w.manifest.loads| == |w.cases|
    && (forall i :: 0 <= i < |w.cases| ==> FaithfulCase(w, validate, i))
    && Fresh({}, AllStarts(w.cases))
  }

  predicate FaithfulCase(w: World, validate: Validate, i: nat)
    requires i < |w.cases| == |w.manifest.loads|
  {
    w.cases[i].disk.report.Some? ==>
      var r := w.cases[i].disk.report.value;
      r.load == w.manifest.loads[i]
      && (validate(i, r).Some? ==> validate(i, r).value.native == |w.cases[i].disk.starts|)
  }

  /** The validator sees what the collector left, with nothing else changed. */
  function Unchanged(w: World, p: Progress): Context
    requires |p.disk| == |w.caseIds|
  {
    Context(true, w.caseIds, seq(|w.caseIds|, i => true), p.disk)
  }

  // ---- Owners ----

  lemma {:induction false} StartsHas(cases: seq<CaseWorld>, i: nat, o: Owner)
    requires i < |cases| && o in OwnersIn(cases[i].disk.starts)
    ensures o in OwnersIn(AllStarts(cases))
  {
    var n := |cases| - 1;
    if i < n {
      StartsHas(cases[..n], i, o);
      OwnersConcat(AllStarts(cases[..n]), cases[n].disk.starts);
    } else {
      OwnersConcat(AllStarts(cases[..n]), cases[n].disk.starts);
    }
  }

  lemma {:induction false} OwnersConcat(a: seq<Owner>, b: seq<Owner>)
    ensures OwnersIn(a + b) == OwnersIn(a) + OwnersIn(b)
  {
    assert forall i :: 0 <= i < |a| ==> (a + b)[i] == a[i];
    assert forall i :: 0 <= i < |b| ==> (a + b)[|a| + i] == b[i];
  }

  lemma {:induction false} FreshConcat(a: seq<Owner>, b: seq<Owner>)
    ensures Fresh({}, a + b) <==> Fresh({}, a) && Fresh(OwnersIn(a), b)
  {
    var c := a + b;
    assert forall i :: 0 <= i < |a| ==> c[i] == a[i];
    assert forall i :: 0 <= i < |b| ==> c[|a| + i] == b[i];
  }

  lemma {:induction false} FreshPrefix(w: World, n: nat)
    requires n <= |w.cases| && Fresh({}, AllStarts(w.cases))
    ensures Fresh({}, AllStarts(w.cases[..n]))
    decreases |w.cases| - n
  {
    if n == |w.cases| {
      assert w.cases[..n] == w.cases;
    } else {
      FreshPrefix(w, n + 1);
      assert w.cases[..n + 1][..n] == w.cases[..n];
      FreshConcat(AllStarts(w.cases[..n]), w.cases[n].disk.starts);
    }
  }

  // ---- Collector runs ----

  /** Cases that ran form a prefix: once the sequence has a verdict nothing more is executed. */
  lemma {:induction false} VerdictIsFinal(w: World, validate: Validate, i: nat, n: nat)
    requires ReportsWritten(w) && i <= n <= |w.cases|
    requires Collect(w, validate, i).verdict.Some?
    ensures Collect(w, validate, n).verdict == Collect(w, validate, i).verdict
    ensures forall j :: i <= j < n ==>
      Collect(w, validate, n).cases[j].entry == NotRun && Collect(w, validate, n).disk[j] == ABSENT
    decreases n
  {
    if i < n {
      VerdictIsFinal(w, validate, i, n - 1);
      assert Collect(w, validate, n) == Visit(w, validate, Collect(w, validate, n - 1), n - 1);
    }
  }

  lemma {:induction false} VisitAppends(w: World, validate: Validate, n: nat)
    requires ReportsWritten(w) && n < |w.cases|
    ensures Collect(w, validate, n + 1).cases[..n] == Collect(w, validate, n).cases
    ensures Collect(w, validate, n + 1).disk[..n] == Collect(w, validate, n).disk
    ensures Collect(w, validate, n).verdict.Some? ==>
      Collect(w, validate, n + 1).verdict == Collect(w, validate, n).verdict
  {
    hide Gate, MustStop, SumAttempts, Unverified;
  }

  lemma {:induction false} EntriesStay(w: World, validate: Validate, i: nat, n: nat)
    requires ReportsWritten(w) && i <= n <= |w.cases|
    ensures Collect(w, validate, n).cases[..i] == Collect(w, validate, i).cases
    ensures Collect(w, validate, n).disk[..i] == Collect(w, validate, i).disk
    ensures Collect(w, validate, i).verdict.Some? ==> Collect(w, validate, n).verdict == Collect(w, validate, i).verdict
    decreases n
  {
    hide Collect;
    if i < n {
      EntriesStay(w, validate, i, n - 1);
      VisitAppends(w, validate, n - 1);
      var p, q := Collect(w, validate, n - 1), Collect(w, validate, n);
      assert q.cases[..i] == q.cases[..n - 1][..i] && q.disk[..i] == q.disk[..n - 1][..i];
    } else {
      assert Collect(w, validate, n).cases[..n] == Collect(w, validate, n).cases;
      assert Collect(w, validate, n).disk[..n] == Collect(w, validate, n).disk;
    }
  }

  lemma {:induction false} EntryStays(w: World, validate: Validate, i: nat, n: nat)
    requires ReportsWritten(w) && i < n <= |w.cases|
    ensures Collect(w, validate, n).cases[i] == Collect(w, validate, i + 1).cases[i]
  {
    hide Collect;
    EntriesStay(w, validate, i + 1, n);
    assert Collect(w, validate, n).cases[i] == Collect(w, validate, n).cases[..i + 1][i];
  }

  lemma {:induction false} RanOnlyWithoutVerdict(w: World, validate: Validate, j: nat)
    requires ReportsWritten(w) && j < |w.cases|
    ensures Collect(w, validate, j + 1).cases[j].entry.Ran? ==> Collect(w, validate, j).verdict.None?
    ensures Collect(w, validate, j + 1).verdict.None? ==> Collect(w, validate, j + 1).cases[j].entry.Ran?
  {
    hide Gate, MustStop, SumAttempts;
  }

  /** In every report the collector writes, a case that ran is preceded only by cases that ran. */
  lemma {:induction false} RanCasesFormAPrefix(w: World, validate: Validate, i: nat, j: nat)
    requires ReportsWritten(w) && i < j < |w.cases|
    requires Collect(w, validate, |w.cases|).cases[j].entry.Ran?
    ensures Collect(w, validate, |w.cases|).cases[i].entry.Ran?
  {
    hide Collect;
    EntryStays(w, validate, j, |w.cases|);
    EntryStays(w, validate, i, |w.cases|);
    RanOnlyWithoutVerdict(w, validate, j);
    EntriesStay(w, validate, i + 1, j);
    RanOnlyWithoutVerdict(w, validate, i);
  }

  // ---- Agreement ----

  /** The collector's state as the validator's scan should find it. */
  ghost predicate InStep(w: World, validate: Validate, p: Progress, s: Scan, i: nat)
    requires i <= |w.cases|
  {
    && s.attempts == SumAttempts(p.cases) && s.native == SumNative(p.cases) == StartsOnDisk(p.disk)
    && s.attempts <= MAXIMUM_ATTEMPTS
    && s.stopped == (p.verdict == Some(SequenceStop))
    && (p.verdict.None? ==> s.owners == OwnersIn(AllStarts(w.cases[..i])) && s.previous <= ClockBefore(w, i))
  }

  lemma {:induction false} SumsSnoc(cases: seq<Saved>, c: Saved, disk: seq<CaseDisk>, d: CaseDisk)
    ensures SumAttempts(cases + [c]) == SumAttempts(cases) + AttemptsOf(c.entry)
    ensures SumNative(cases + [c]) == SumNative(cases) + NativeOf(c.entry)
    ensures StartsOnDisk(disk + [d]) == StartsOnDisk(disk) + |d.starts|
  {
    assert (cases + [c])[..|cases|] == cases;
    assert (disk + [d])[..|disk|] == disk;
  }

  /** One case: the validator's scan accepts what the collector did and stays in step. */
  lemma {:induction false} CaseAgrees(w: World, validate: Validate, i: nat, s: Scan, report: Report, ctx: Context)
    requires ReportsWritten(w) && Timely(w) && Faithful(w, validate) && i < |w.cases|
    requires var n := |w.cases|;
             && report == Final(w, Collect(w, validate, n)) && ctx == Unchanged(w, Collect(w, validate, n))
             && (report.status == Complete || report.status == SequenceStop)
    requires InStep(w, validate, Collect(w, validate, i), s, i)
    ensures var t := ScanCase(report, w.manifest, ctx, validate, s, i);
            t.Some? && InStep(w, validate, Collect(w, validate, i + 1), t.value, i + 1)
  {
    hide Gate, MustStop, SumAttempts, SumNative, StartsOnDisk, AllStarts, Fresh, OwnersIn;
    var n := |w.cases|;
    var p := Collect(w, validate, i);
    var q := Collect(w, validate, i + 1);
    var all := Collect(w, validate, n);
    EntriesStay(w, validate, i + 1, n);
    assert all.cases[i] == all.cases[..i + 1][i] == q.cases[i];
    assert all.disk[i] == all.disk[..i + 1][i] == q.disk[i];
    assert q == Visit(w, validate, p, i);
    SumsSnoc(p.cases, q.cases[i], p.disk, q.disk[i]);
    NeverComplete(w, validate, i + 1);
    if p.verdict.None? {
      RanAgrees(w, validate, i, s, report, ctx);
    } else {
      EntriesStay(w, validate, i, n);
      NeverComplete(w, validate, i);
      assert q.cases[i].entry == NotRun && q.disk[i] == ABSENT;
    }
  }

  lemma {:induction false} RanAgrees(w: World, validate: Validate, i: nat, s: Scan, report: Report, ctx: Context)
    requires ReportsWritten(w) && Timely(w) && Faithful(w, validate) && i < |w.cases|
    requires Shaped(ctx) && i < |ctx.disk| && i < |report.cases| && report.cases[i].caseId == ctx.caseIds[i]
    requires report.status == Complete || report.status == SequenceStop
    requires report.finished == w.finished && ctx.live[i] && ctx.caseIds[i] == w.caseIds[i]
    requires var p := Collect(w, validate, i);
             var q := Visit(w, validate, p, i);
             && p.verdict.None? && InStep(w, validate, p, s, i)
             && (q.verdict.Some? ==> q.verdict == Some(report.status))
             && q.verdict != Some(Complete)
             && report.cases[i] == q.cases[i] && ctx.disk[i] == q.disk[i]
             && |p.cases| == |p.disk| == i
             && SumAttempts(q.cases) == SumAttempts(p.cases) + AttemptsOf(q.cases[i].entry)
             && SumNative(q.cases) == SumNative(p.cases) + NativeOf(q.cases[i].entry)
             && StartsOnDisk(q.disk) == StartsOnDisk(p.disk) + |q.disk[i].starts|
    ensures var t := ScanCase(report, w.manifest, ctx, validate, s, i);
            t.Some? && InStep(w, validate, Visit(w, validate, Collect(w, validate, i), i), t.value, i + 1)
  {
    hide Gate, MustStop, SumAttempts, SumNative, StartsOnDisk, AllStarts, Fresh, OwnersIn, Collect;
    var c := w.cases[i];
    assert TimelyCase(w, i) && FaithfulCase(w, validate, i);
    assert c.raised.None? && validate(i, c.disk.report.value).Some?;
    var result := validate(i, c.disk.report.value).value;
    GateTimes(c.disk.report.value, result, c.before, c.finish, w.started);
    FreshPrefix(w, i + 1);
    assert w.cases[..i + 1][..i] == w.cases[..i];
    StartsSnoc(w, i);
    FinishedLater(w, i);
  }

  lemma {:induction false} GateTimes(r: CaseReport, result: CaseResult, start: int, finish: int, sequenceStarted: int)
    ensures var g := Gate(r, result, start, finish, sequenceStarted);
            g.start == start && g.finish == finish && g.result == result
  {
  }

  lemma {:induction false} StartsSnoc(w: World, i: nat)
    requires i < |w.cases| && Fresh({}, AllStarts(w.cases[..i + 1]))
    ensures Fresh(OwnersIn(AllStarts(w.cases[..i])), w.cases[i].disk.starts)
    ensures OwnersIn(AllStarts(w.cases[..i + 1]))
      == OwnersIn(AllStarts(w.cases[..i])) + OwnersIn(w.cases[i].disk.starts)
  {
    hide Fresh, OwnersIn;
    assert w.cases[..i + 1][..i] == w.cases[..i];
    FreshConcat(AllStarts(w.cases[..i]), w.cases[i].disk.starts);
    OwnersConcat(AllStarts(w.cases[..i]), w.cases[i].disk.starts);
  }

  lemma {:induction false} FinishedLater(w: World, i: nat)
    requires Timely(w) && i < |w.cases|
    ensures w.cases[i].finish <= w.finished
    decreases |w.cases| - i
  {
    if i + 1 < |w.cases| {
      FinishedLater(w, i + 1);
      assert TimelyCase(w, i + 1);
    }
  }

  lemma {:induction false} ScanAgrees(w: World, validate: Validate, i: nat, report: Report, ctx: Context)
    requires ReportsWritten(w) && Timely(w) && Faithful(w, validate) && i <= |w.cases|
    requires w.preflight.None?
    requires var n := |w.cases|;
             && report == Final(w, Collect(w, validate, n)) && ctx == Unchanged(w, Collect(w, validate, n))
             && (report.status == Complete || report.status == SequenceStop)
    ensures var s := ScanTo(report, w.manifest, ctx, validate, i);
            s.Some? && InStep(w, validate, Collect(w, validate, i), s.value, i)
  {
    hide InStep, Timely, Faithful, ScanCase, Visit;
    if i == 0 {
      StartInStep(w, validate);
    } else {
      ScanAgrees(w, validate, i - 1, report, ctx);
      CaseAgrees(w, validate, i - 1, ScanTo(report, w.manifest, ctx, validate, i - 1).value, report, ctx);
    }
  }

  lemma {:induction false} StartInStep(w: World, validate: Validate)
    requires ReportsWritten(w) && w.preflight.None?
    ensures InStep(w, validate, Collect(w, validate, 0), Scan(false, {}, w.manifest.frozen, 0, 0), 0)
  {
  }

  lemma {:induction false} NeverComplete(w: World, validate: Validate, n: nat)
    requires ReportsWritten(w) && n <= |w.cases|
    ensures Collect(w, validate, n).verdict != Some(Complete)
  {
    hide Gate, MustStop, SumAttempts;
    if n > 0 {
      NeverComplete(w, validate, n - 1);
    }
  }

  /**
   Under a clock that does not go back and fresh process identities, the validator accepts exactly the
   reports that the collector ended as complete or stopped, with the collector's verdict and counts.
   */
  lemma {:induction false} CollectorAndValidatorAgree(w: World, validate: Validate)
    requires ReportsWritten(w) && Timely(w) && Faithful(w, validate) && |w.caseIds| == CASES
    ensures var p := Collect(w, validate, |w.cases|);
            var report := Final(w, p);
            Reconstruct(report, Unchanged(w, p), validate)
            == if report.status == Complete || report.status == SequenceStop
               then Some(Verdict(report.status, report.attempts, report.native)) else None
  {
    hide InStep, Faithful, ScanTo, SumAttempts, SumNative, StartsOnDisk;
    var n := |w.cases|;
    var p := Collect(w, validate, n);
    var report := Final(w, p);
    if report.status == Complete || report.status == SequenceStop {
      PreflightDecides(w, validate, n);
      ScanAgrees(w, validate, n, report, Unchanged(w, p));
      NeverComplete(w, validate, n);
      StepFacts(w, validate, p, ScanTo(report, w.manifest, Unchanged(w, p), validate, n).value, n);
      FrozenBeforeEnd(w, n);
    }
  }

  lemma {:induction false} StepFacts(w: World, validate: Validate, p: Progress, s: Scan, i: nat)
    requires i <= |w.cases| && InStep(w, validate, p, s, i)
    ensures s.attempts == SumAttempts(p.cases) <= MAXIMUM_ATTEMPTS
      && s.native == SumNative(p.cases) == StartsOnDisk(p.disk)
    ensures s.stopped == (p.verdict == Some(SequenceStop))
  {
    hide SumAttempts, SumNative, StartsOnDisk;
  }

  lemma {:induction false} PreflightDecides(w: World, validate: Validate, n: nat)
    requires ReportsWritten(w) && n <= |w.cases|
    ensures w.preflight.Some? ==> Collect(w, validate, n).verdict == Some(StatusOf(w.preflight.value))
  {
    hide Gate, MustStop, SumAttempts;
    if n > 0 {
      PreflightDecides(w, validate, n - 1);
    }
  }

  lemma {:induction false} FrozenBeforeEnd(w: World, n: nat)
    requires Timely(w) && n <= |w.cases|
    ensures w.manifest.frozen <= ClockBefore(w, n)
    ensures n == |w.cases| ==> w.manifest.frozen <= w.finished
  {
    if n > 0 {
      FrozenBeforeEnd(w, n - 1);
      assert TimelyCase(w, n - 1);
    }
  }

  // ---- What acceptance means ----

  predicate RanAt(report: Report, i: nat) {
    i < |report.cases| && report.cases[i].entry.Ran?
  }

  function GatedAt(report: Report, i: nat): Gated
    requires RanAt(report, i)
  {
    report.cases[i].entry.gated
  }

  /** Two runs in journal order do not overlap and share no process. */
  predicate Apart(report: Report, ctx: Context, i: nat, j: nat)
    requires i < j < |ctx.disk|
  {
    RanAt(report, i) && RanAt(report, j) && ctx.disk[j].report.Some? ==>
      && GatedAt(report, i).finish <= ctx.disk[j].report.value.started
      && OwnersIn(ctx.disk[i].starts) !! OwnersIn(ctx.disk[j].starts)
  }

  /** A valid case report does not end before it starts. */
  ghost predicate Orderly(validate: Validate) {
    forall i, r :: validate(i, r).Some? ==> r.started <= r.collected
  }

  /** What the validator knows after n cases. */
  ghost predicate Known(report: Report, ctx: Context, s: Scan, n: nat)
    requires Shaped(ctx) && n <= |ctx.disk|
  {
    && n <= |report.cases|
    && (forall i :: 0 <= i < n ==> KnownCase(report, ctx, s, i))
    && (forall i, j :: 0 <= i < j < n ==> Apart(report, ctx, i, j))
    && (forall i, j :: 0 <= i < j < n && RanAt(report, i) && MustStop(GatedAt(report, i)) ==> !RanAt(report, j))
    && (s.stopped <==> exists i :: 0 <= i < n && RanAt(report, i) && MustStop(GatedAt(report, i)))
    && (report.status == Complete && !s.stopped ==> forall i :: 0 <= i < n ==> RanAt(report, i))
    && s.attempts == SumAttempts(report.cases[..n]) && s.native == SumNative(report.cases[..n])
  }

  predicate KnownCase(report: Report, ctx: Context, s: Scan, i: nat)
    requires Shaped(ctx) && i < |ctx.disk| && i < |report.cases|
  {
    && report.cases[i].caseId == ctx.caseIds[i]
    && (RanAt(report, i) || report.cases[i].entry == NotRun)
    && (RanAt(report, i) <==> ctx.disk[i].report.Some?)
    && (RanAt(report, i) ==> GatedAt(report, i).finish <= s.previous && OwnersIn(ctx.disk[i].starts) <= s.owners)
  }

  lemma {:induction false} KnownSnoc(report: Report, m: Manifest, ctx: Context, validate: Validate, s: Scan, n: nat)
    requires Shaped(ctx) && n < |ctx.disk| && Known(report, ctx, s, n) && Orderly(validate)
    requires ScanCase(report, m, ctx, validate, s, n).Some?
    ensures Known(report, ctx, ScanCase(report, m, ctx, validate, s, n).value, n + 1)
  {
    hide Gate, MustStop, SumAttempts, SumNative;
    var t := ScanCase(report, m, ctx, validate, s, n).value;
    SumsTo(report, n);
    OneCase(report, m, ctx, validate, s, n);
    assert forall i :: 0 <= i < n ==> KnownCase(report, ctx, s, i);
    hide ScanCase, ScanRun, OwnersIn, Fresh;
    if !RanAt(report, n) {
      assert t == s;
    } else {
      forall i | 0 <= i < n
        ensures KnownCase(report, ctx, t, i) && Apart(report, ctx, i, n)
      {
        assert KnownCase(report, ctx, s, i);
      }
    }
  }

  /** One accepted case, seen from outside. */
  lemma {:induction false} OneCase(report: Report, m: Manifest, ctx: Context, validate: Validate, s: Scan, n: nat)
    requires Shaped(ctx) && n < |ctx.disk| && Orderly(validate)
    requires ScanCase(report, m, ctx, validate, s, n).Some?
    ensures n < |report.cases| && report.cases[n].caseId == ctx.caseIds[n]
    ensures RanAt(report, n) <==> ctx.disk[n].report.Some?
    ensures var t := ScanCase(report, m, ctx, validate, s, n).value;
            if RanAt(report, n) then
              && !s.stopped && t.stopped == MustStop(GatedAt(report, n))
              && s.previous <= ctx.disk[n].report.value.started && s.previous <= t.previous == GatedAt(report, n).finish
              && OwnersIn(ctx.disk[n].starts) !! s.owners && t.owners == s.owners + OwnersIn(ctx.disk[n].starts)
              && t.attempts == s.attempts + GatedAt(report, n).result.attempts
                && t.native == s.native + GatedAt(report, n).result.native
            else t == s && report.cases[n].entry == NotRun && (report.status == Complete ==> s.stopped)
  {
    hide MustStop;
  }

  lemma {:induction false} SumsTo(report: Report, n: nat)
    requires n < |report.cases|
    ensures SumAttempts(report.cases[..n + 1]) == SumAttempts(report.cases[..n]) + AttemptsOf(report.cases[n].entry)
    ensures SumNative(report.cases[..n + 1]) == SumNative(report.cases[..n]) + NativeOf(report.cases[n].entry)
  {
    assert report.cases[..n + 1][..n] == report.cases[..n];
  }

  lemma {:induction false} ScanKnows(report: Report, m: Manifest, ctx: Context, validate: Validate, n: nat)
    requires Shaped(ctx) && n <= |ctx.disk| && Orderly(validate)
    requires ScanTo(report, m, ctx, validate, n).Some?
    ensures Known(report, ctx, ScanTo(report, m, ctx, validate, n).value, n)
  {
    hide ScanCase, Orderly;
    if n > 0 {
      hide Known;
      ScanKnows(report, m, ctx, validate, n - 1);
      KnownSnoc(report, m, ctx, validate, ScanTo(report, m, ctx, validate, n - 1).value, n - 1);
    } else {
      NothingKnown(report, m, ctx);
    }
  }

  lemma {:induction false} NothingKnown(report: Report, m: Manifest, ctx: Context)
    requires Shaped(ctx)
    ensures Known(report, ctx, Scan(false, {}, m.frozen, 0, 0), 0)
  {
  }

  /**
   An accepted complete sequence ran every registered case in order, without overlap or shared
   processes, with none that forces a stop, and with at most 428 attempts.
   */
  lemma {:induction false} CompleteMeansAll(report: Report, ctx: Context, validate: Validate)
    requires Shaped(ctx) && Orderly(validate)
    requires Reconstruct(report, ctx, validate).Some? && report.status == Complete
    ensures |report.cases| >= |ctx.disk|
    ensures forall i :: 0 <= i < |ctx.disk| ==>
      RanAt(report, i) && report.cases[i].caseId == ctx.caseIds[i] && !MustStop(GatedAt(report, i))
    ensures forall i, j :: 0 <= i < j < |ctx.disk| ==> Apart(report, ctx, i, j)
    ensures SumAttempts(report.cases[..|ctx.disk|]) == report.attempts <= MAXIMUM_ATTEMPTS
  {
    hide Orderly, Apart, ScanTo, MustStop, SumAttempts, SumNative, StartsOnDisk;
    var n := |ctx.disk|;
    ScanKnows(report, report.manifest.value, ctx, validate, n);
    var s := ScanTo(report, report.manifest.value, ctx, validate, n).value;
    assert !s.stopped;
    forall i | 0 <= i < n
      ensures RanAt(report, i) && report.cases[i].caseId == ctx.caseIds[i] && !MustStop(GatedAt(report, i))
    {
      assert KnownCase(report, ctx, s, i);
    }
  }

  /** An accepted stop names exactly one case that forces it, and nothing ran after that case. */
  lemma {:induction false} StopMeansOne(report: Report, ctx: Context, validate: Validate) returns (i: nat)
    requires Shaped(ctx) && Orderly(validate)
    requires Reconstruct(report, ctx, validate).Some? && report.status == SequenceStop
    ensures i < |ctx.disk| && RanAt(report, i) && MustStop(GatedAt(report, i))
    ensures forall j :: 0 <= j < |ctx.disk| && RanAt(report, j) && MustStop(GatedAt(report, j)) ==> j == i
    ensures forall j :: i < j < |ctx.disk| ==> !RanAt(report, j)
  {
    hide Orderly, Apart, ScanTo, MustStop, SumAttempts, SumNative, StartsOnDisk, KnownCase;
    var n := |ctx.disk|;
    ScanKnows(report, report.manifest.value, ctx, validate, n);
    i :| 0 <= i < n && RanAt(report, i) && MustStop(GatedAt(report, i));
  }

  // ---- A stop may hide a gap ----

  /** A case that ran is preceded only by cases that ran. */
  ghost predicate RanPrefix(report: Report, ctx: Context) {
    forall i, j :: 0 <= i < j < |ctx.disk| && RanAt(report, j) ==> RanAt(report, i)
  }

  /**
   The cases of an accepted stop form a prefix if and only if every planned case before the stopping
   one has left its report.
   */
  lemma {:induction false} StopIsPrefixExactly(report: Report, ctx: Context, validate: Validate, stop: nat)
    requires Shaped(ctx) && Orderly(validate)
    requires Reconstruct(report, ctx, validate).Some? && report.status == SequenceStop
    requires stop < |ctx.disk| && RanAt(report, stop) && MustStop(GatedAt(report, stop))
    ensures RanPrefix(report, ctx) <==> forall i :: 0 <= i < stop ==> ctx.disk[i].report.Some?
  {
    hide Orderly, Apart, ScanTo, MustStop, SumAttempts, SumNative, StartsOnDisk;
    var n := |ctx.disk|;
    var only := StopMeansOne(report, ctx, validate);
    ScanKnows(report, report.manifest.value, ctx, validate, n);
    var s := ScanTo(report, report.manifest.value, ctx, validate, n).value;
    forall i | 0 <= i < n
      ensures RanAt(report, i) <==> ctx.disk[i].report.Some?
    {
      assert KnownCase(report, ctx, s, i);
    }
  }

  const LATE: CaseReport := CaseReport(2, 0, 3, "")
  const FAILED: CaseResult := CaseResult(OtherCase, true, false, 1, 1)

  function OnlySecond(i: nat, r: CaseReport): Option<CaseResult> {
    if i == 1 && r.started <= r.collected then Some(FAILED) else None
  }

  const GAP: Report := Report(
    SequenceStop, Some(Manifest(0, 1, [0, 0, 0, 0])),
    [Saved("a", NotRun), Saved("b", Ran(Gate(LATE, FAILED, 4, 5, 0))), Saved("c", NotRun), Saved("d", NotRun)],
    1, 1, 0, 6)

  const GAP_CONTEXT: Context := Context(
    true, ["a", "b", "c", "d"], [true, true, true, true],
    [ABSENT, CaseDisk(true, Some(LATE), 1, [Owner(1, 1, "p")]), ABSENT, ABSENT])

  /**
   The validator alone does not demand a prefix: of four cases, a stopped report whose first case never
   ran is accepted.  Only the collector guarantees it.
   */
  lemma {:induction false} AcceptedStopMayHaveAGap()
    ensures Orderly(OnlySecond)
    ensures Reconstruct(GAP, GAP_CONTEXT, OnlySecond) == Some(Verdict(SequenceStop, 1, 1))
    ensures !RanPrefix(GAP, GAP_CONTEXT)
  {
    hide Fresh, StartsOnDisk;
    var m := GAP.manifest.value;
    var s0 := Scan(false, {}, 1, 0, 0);
    assert ScanTo(GAP, m, GAP_CONTEXT, OnlySecond, 0) == Some(s0);
    assert ScanTo(GAP, m, GAP_CONTEXT, OnlySecond, 1) == Some(s0);
    var starts := [Owner(1, 1, "p")];
    OneStart(Owner(1, 1, "p"));
    var s2 := Scan(true, {} + OwnersIn(starts), 5, 1, 1);
    assert ScanRun(GAP, m, GAP_CONTEXT.disk[1], OnlySecond, s0, 1) == Some(s2);
    assert ScanTo(GAP, m, GAP_CONTEXT, OnlySecond, 2) == Some(s2);
    assert ScanTo(GAP, m, GAP_CONTEXT, OnlySecond, 3) == Some(s2);
    assert ScanTo(GAP, m, GAP_CONTEXT, OnlySecond, 4) == Some(s2);
    FourDisks(ABSENT, GAP_CONTEXT.disk[1], ABSENT, ABSENT);
    assert !RanAt(GAP, 0) && RanAt(GAP, 1);
  }

  lemma {:induction false} OneStart(o: Owner)
    ensures Fresh({}, [o])
  {
  }

  lemma {:induction false} FourDisks(a: CaseDisk, b: CaseDisk, c: CaseDisk, d: CaseDisk)
    ensures StartsOnDisk([a, b, c, d]) == |a.starts| + |b.starts| + |c.starts| + |d.starts|
  {
    var all := [a, b, c, d];
    assert all[..3] == [a, b, c] && all[..3][..2] == [a, b] && [a, b][..1] == [a] && [a, b, c][..2] == [a, b];
    assert StartsOnDisk([a]) == |a.starts| by {
      var one := [a];
      assert one[..0] == [];
    }
    assert StartsOnDisk([a, b]) == |a.starts| + |b.starts|;
    assert StartsOnDisk([a, b, c]) == |a.starts| + |b.starts| + |c.starts|;
  }
}
