/** What the runner's journals satisfy without help, and what an accepted journal says about time. */
module StudyAudit {
  import opened Trace
  import opened StudyJournal

  // ---- Journals written by the runner ----

  /** The clock never goes back, and a start file's time lies inside its call. */
  predicate TimelyCall(c: Call) {
    && c.waitStarted <= c.waitFinished <= c.finished
    && (c.native.start.Some? && c.native.start.value.Some?
      ==> c.waitFinished <= c.native.start.value.value.started <= c.finished)
  }

  ghost predicate Timely(frozen: int, calls: seq<Call>) {
    && (forall i :: 0 <= i < |calls| ==> TimelyCall(calls[i]))
    && (forall i :: 0 <= i < |calls| ==> Clock(frozen, calls, i) <= calls[i].waitStarted)
  }

  function Clock(frozen: int, calls: seq<Call>, i: nat): int
    requires i <= |calls|
  {
    if i == 0 then frozen else calls[i - 1].finished
  }

  /** What every entry of a runner-written journal satisfies. */
  predicate Written(m: Manifest, disk: Disk, a: Attempt) {
    && Under(a.output, m.root) && Under(a.database, m.root)
    && a.finished.Some? && a.finished.value >= a.waitStarted
    && a.nativeStarted == (a.output in disk.starts)
    && WrittenStart(disk, a)
    && WrittenWait(a)
    && (a.output in disk.launches
      ==> a.context == Some(disk.launches[a.output].context) && disk.launches[a.output].host == m.host)
  }

  predicate WrittenStart(disk: Disk, a: Attempt) {
    a.output in disk.starts ==>
      && a.waitSeconds == WAIT_SECONDS
      && a.waitElapsed.Some? && a.waitElapsed.value >= WAIT_NS
      && a.identity == disk.starts[a.output]
      && (a.identity.Some? ==>
            && a.waitFinished.Some? && a.finished.Some?
            && a.waitFinished.value <= a.identity.value.started <= a.finished.value)
  }

  predicate WrittenWait(a: Attempt) {
    && (a.waitElapsed.Some? <==> a.waitFinished.Some?)
    && (a.waitElapsed.Some? ==> a.waitElapsed.value == a.waitFinished.value - a.waitStarted)
    && (a.waitElapsed.Some? ==> a.finished.Some? && a.waitStarted <= a.waitFinished.value <= a.finished.value)
  }

  ghost predicate StudyInv(m: Manifest, s: Study) {
    && |s.journal| <= MAXIMUM_NATIVE_PROCESSES
    && (forall i :: 0 <= i < |s.journal| ==> Written(m, s.disk, s.journal[i]))
    && s.disk.starts.Keys <= Outputs(s.journal)
    && s.disk.launches.Keys <= Outputs(s.journal)
    && InOrder(m.frozen, s.journal)
    && |s.disk.starts| == Started(s.journal)
  }

  /** One call keeps the invariant, if its output directory is a new one. */
  lemma {:induction false} StepKeeps(m: Manifest, s: Study, c: Call)
    requires StudyInv(m, s) && TimelyCall(c)
    requires Previous(m.frozen, s.journal) <= c.waitStarted
    requires !Refused(m, s.journal, c) ==> c.output !in Outputs(s.journal)
    ensures StudyInv(m, Step(m, s, c))
    ensures Previous(m.frozen, Step(m, s, c).journal) <= c.finished
  {
    if !Refused(m, s.journal, c) {
      var disk := DiskAfter(m, s.disk, c);
      var a := Entry(m, disk, c);
      assert Written(m, disk, a);
      forall i | 0 <= i < |s.journal|
        ensures Written(m, disk, s.journal[i])
      {
        assert s.journal[i].output in Outputs(s.journal);
      }
      OrderSnoc(m.frozen, s.journal, a);
      OutputsGrow(s.journal, a);
      assert (s.journal + [a])[..|s.journal|] == s.journal;
    }
  }

  lemma {:induction false} OutputsGrow(journal: seq<Attempt>, a: Attempt)
    ensures Outputs(journal + [a]) == Outputs(journal) + {a.output}
  {
    var all := journal + [a];
    assert all[|journal|] == a && forall i :: 0 <= i < |journal| ==> all[i] == journal[i];
  }

  lemma {:induction false} ConductKeeps(m: Manifest, calls: seq<Call>)
    requires Timely(m.frozen, calls) && DistinctOutputs(Conduct(m, calls).journal)
    ensures StudyInv(m, Conduct(m, calls))
    ensures Previous(m.frozen, Conduct(m, calls).journal) <= Clock(m.frozen, calls, |calls|)
  {
    hide TimelyCall, DistinctOutputs, Outputs, InOrder, Written;
    if calls == [] {
      EmptyStudy(m);
    } else {
      var n := |calls| - 1;
      var s := Conduct(m, calls[..n]);
      forall i | 0 <= i < n
        ensures TimelyCall(calls[..n][i]) && Clock(m.frozen, calls[..n], i) <= calls[..n][i].waitStarted
      {
        assert calls[..n][i] == calls[i] && Clock(m.frozen, calls, i) <= calls[i].waitStarted;
      }
      assert Clock(m.frozen, calls, n) <= calls[n].waitStarted;
      if !Refused(m, s.journal, calls[n]) {
        OutputsSnoc(s.journal, Entry(m, DiskAfter(m, s.disk, calls[n]), calls[n]));
      }
      ConductKeeps(m, calls[..n]);
      hide StudyInv, Previous, DiskAfter;
      StepKeeps(m, s, calls[n]);
    }
  }

  lemma {:induction false} EmptyStudy(m: Manifest)
    ensures StudyInv(m, Study([], FRESH)) && Previous(m.frozen, []) == m.frozen
  {
  }

  // ---- The budget ----

  /** A call that the guards let in: clean, and with output and database inside the study. */
  predicate Admissible(m: Manifest, c: Call) {
    c.clean && m.root <= c.output && m.root <= c.database
  }

  function AdmissibleCount(m: Manifest, calls: seq<Call>): nat {
    if calls == [] then 0
    else AdmissibleCount(m, calls[..|calls| - 1]) + if Admissible(m, calls[|calls| - 1]) then 1 else 0
  }

  /** Every admissible call makes one attempt until 148 are made, and no call more. */
  lemma {:induction false} BudgetExactly(m: Manifest, calls: seq<Call>)
    ensures |Conduct(m, calls).journal| == Min(148, AdmissibleCount(m, calls))
  {
    hide Entry, DiskAfter;
    if calls != [] {
      BudgetExactly(m, calls[..|calls| - 1]);
    }
  }

  /** A call whose process runs: a whole wait, clean guards, a start file, and an outcome. */
  predicate Runs(m: Manifest, c: Call) {
    && Admissible(m, c) && c.slept && c.cleanAfterWait && c.cleanAfterRun
    && c.waitFinished - c.waitStarted >= 30_000_000_000
    && c.native.start.Some? && c.native.outcome.Some?
  }

  /** The entry of such a call: started, with the process's own outcome and the whole wait. */
  predicate RunEntry(m: Manifest, c: Call, a: Attempt)
    requires Runs(m, c)
  {
    && a.output == c.output && a.database == c.database && a.stage == c.stage
    && a.nativeStarted && a.identity == c.native.start.value
    && a.status == Finished(c.native.outcome.value.status) && a.measurementId == c.native.outcome.value.measurementId
    && a.waitSeconds == 30 && a.waitStarted == c.waitStarted && a.waitFinished == Some(c.waitFinished)
    && a.waitElapsed == Some(c.waitFinished - c.waitStarted) && a.finished == Some(c.finished)
    && a.context == Some(if c.context.Some? then c.context.value else m.sha)
  }

  /** Up to 148 calls whose processes run leave just as many started entries, in order. */
  lemma {:induction false} RunsAreRecorded(m: Manifest, calls: seq<Call>)
    requires |calls| <= 148 && forall i :: 0 <= i < |calls| ==> Runs(m, calls[i])
    ensures |Conduct(m, calls).journal| == |calls| == Started(Conduct(m, calls).journal)
    ensures forall i :: 0 <= i < |calls| ==> RunEntry(m, calls[i], Conduct(m, calls).journal[i])
  {
    if calls != [] {
      var n := |calls| - 1;
      RunsAreRecorded(m, calls[..n]);
      var s := Conduct(m, calls[..n]);
      assert !Refused(m, s.journal, calls[n]);
      var a := Entry(m, DiskAfter(m, s.disk, calls[n]), calls[n]);
      assert (s.journal + [a])[..n] == s.journal;
    }
  }

  /** An attempt whose process is not reached, or fails, or ends with an unclean guard is recorded as raised. */
  lemma {:induction false} OthersAreRaised(m: Manifest, disk: Disk, c: Call)
    requires Admissible(m, c) && !(c.slept && c.cleanAfterWait && c.waitFinished - c.waitStarted >= 30_000_000_000
                                   && c.native.outcome.Some? && c.cleanAfterRun)
    ensures Entry(m, DiskAfter(m, disk, c), c).status == Raised
    ensures !(c.slept && c.cleanAfterWait && c.waitFinished - c.waitStarted >= 30_000_000_000) ==>
      DiskAfter(m, disk, c) == disk && Entry(m, disk, c).context == None && Entry(m, disk, c).measurementId == None
  {
  }

  // ---- The audit of runner journals ----

  /**
   What is left for the audit to decide about a runner-written journal: the callers chose different
   output directories, the start files are readable and name different processes, the contexts are
   the registered ones, and the records are bound to their attempts.
   */
  ghost predicate CallersAndProcessesOk(m: Manifest, s: Study, nested: Option<string>, bound: Attempt -> bool) {
    && DistinctOutputs(s.journal)
    && DistinctOwners(s.journal)
    && (forall i :: 0 <= i < |s.journal| ==> s.journal[i].nativeStarted ==> s.journal[i].identity.Some?)
    && (forall i :: 0 <= i < |s.journal| ==> RegisteredContext(m, s.disk, nested, s.journal[i]))
    && (forall i :: 0 <= i < |s.journal| ==> RecordOk(bound, s.journal[i]))
  }

  predicate RegisteredContext(m: Manifest, disk: Disk, nested: Option<string>, a: Attempt) {
    && ExpectedContext(m, nested, a).Some?
    && (a.output in disk.launches ==> a.context == ExpectedContext(m, nested, a))
  }

  lemma {:induction false} WrittenPasses(m: Manifest, disk: Disk, nested: Option<string>, bound: Attempt -> bool,
                                         a: Attempt)
    requires Written(m, disk, a)
    ensures AttemptOk(m, disk, nested, bound, a) <==>
            ((a.nativeStarted ==> a.identity.Some?) && RegisteredContext(m, disk, nested, a) && RecordOk(bound, a))
  {
    hide RecordOk, ExpectedContext, Under;
  }

  /**
   Budget, paths, order, fixed waits, start times and process counts can never fail a journal that the
   runner wrote under a clock that does not go back.
   */
  lemma {:induction false} RunnerJournalPasses(m: Manifest, calls: seq<Call>, nested: Option<string>,
                                               bound: Attempt -> bool)
    requires Timely(m.frozen, calls)
    ensures var s := Conduct(m, calls);
            AuditOk(m, s.journal, s.disk, nested, bound) <==> CallersAndProcessesOk(m, s, nested, bound)
  {
    hide Conduct, Timely, Written, AttemptOk, RegisteredContext, RecordOk, DistinctOutputs, DistinctOwners, InOrder;
    var s := Conduct(m, calls);
    if DistinctOutputs(s.journal) {
      ConductKeeps(m, calls);
      forall i | 0 <= i < |s.journal|
        ensures AttemptOk(m, s.disk, nested, bound, s.journal[i])
           <==> ((s.journal[i].nativeStarted ==> s.journal[i].identity.Some?)
             && RegisteredContext(m, s.disk, nested, s.journal[i]) && RecordOk(bound, s.journal[i]))
      {
        WrittenPasses(m, s.disk, nested, bound, s.journal[i]);
      }
    }
  }

  // ---- Waits and elapsed time ----

  function WaitOf(a: Attempt): int {
    if a.waitElapsed.Some? then a.waitElapsed.value else 0
  }

  function Waits(journal: seq<Attempt>): int {
    if journal == [] then 0 else Waits(journal[..|journal| - 1]) + WaitOf(journal[|journal| - 1])
  }

  function StartedWaits(journal: seq<Attempt>): int {
    if journal == [] then 0
    else
      var last := |journal| - 1;
      StartedWaits(journal[..last]) + if journal[last].nativeStarted then WaitOf(journal[last]) else 0
  }

  /**
   The accepted intervals do not overlap, so the waits of the processes that started fit between the
   freeze and the last finish; and each of those waits was complete.
   */
  lemma {:induction false} StartedWaitsFit(m: Manifest, journal: seq<Attempt>, disk: Disk, nested: Option<string>,
                                           bound: Attempt -> bool)
    requires EachOk(m, journal, disk, nested, bound)
    ensures Started(journal) * WAIT_NS <= StartedWaits(journal) <= Previous(m.frozen, journal) - m.frozen
  {
    hide ContextOk, RecordOk, Under, DistinctOutputs, DistinctOwners, InOrder;
    if journal != [] {
      var n := |journal| - 1;
      assert journal == journal[..n] + [journal[n]];
      EachOkSnoc(m, journal[..n], journal[n], disk, nested, bound);
      hide EachOk;
      StartedWaitsFit(m, journal[..n], disk, nested, bound);
    }
  }

  lemma {:induction false} PreviousBounded(frozen: int, end: int, journal: seq<Attempt>)
    requires frozen <= end
    requires forall i :: 0 <= i < |journal| && journal[i].finished.Some? ==> journal[i].finished.value <= end
    ensures Previous(frozen, journal) <= end
  {
  }

  /** The validator's bounds on the collector's own clock. */
  predicate CollectorOk(m: Manifest, journal: seq<Attempt>, start: int, end: int, elapsed: int) {
    && 0 < start <= m.frozen <= end
    && elapsed == end - start
    && elapsed >= Waits(journal)
    && (forall i :: 0 <= i < |journal| ==> journal[i].finished.Some? && journal[i].finished.value <= end)
  }

  /** The waits of all attempts, added up; an attempt that did not finish waiting has none. */
  lemma {:induction false} WaitsAre(journal: seq<Attempt>)
    ensures Waits(journal) as real == SumOver((i: nat) => WaitAt(journal, i), |journal|)
  {
    WaitsUpTo(journal, |journal|);
    assert journal[..|journal|] == journal;
  }

  function WaitAt(journal: seq<Attempt>, i: nat): real {
    if i < |journal| && journal[i].waitElapsed.Some? then journal[i].waitElapsed.value as real else 0.0
  }

  lemma {:induction false} WaitsUpTo(journal: seq<Attempt>, n: nat)
    requires n <= |journal|
    ensures Waits(journal[..n]) as real == SumOver((i: nat) => WaitAt(journal, i), n)
  {
    if n > 0 {
      WaitsUpTo(journal, n - 1);
      assert journal[..n][..n - 1] == journal[..n - 1];
    }
  }

  /** The cost check: a positive start, the freeze inside, the whole span claimed, and all waits inside it. */
  lemma {:induction false} CostsExactly(m: Manifest, journal: seq<Attempt>, start: int, end: int, elapsed: int)
    ensures CollectorOk(m, journal, start, end, elapsed)
       <==> start > 0 && start <= m.frozen && m.frozen <= end && elapsed == end - start
            && SumOver((i: nat) => WaitAt(journal, i), |journal|) <= elapsed as real
            && forall i :: 0 <= i < |journal| ==> journal[i].finished.Some? && journal[i].finished.value <= end
  {
    hide Waits, WaitAt, SumOver;
    WaitsAre(journal);
  }

  // ---- The audit, entry by entry ----

  /** What a native process must show: thirty seconds of wait, and the identity and time in its start file. */
  predicate ShowsProcess(disk: Disk, a: Attempt) {
    && a.output in disk.starts && disk.starts[a.output].Some? && a.identity == disk.starts[a.output]
    && a.waitSeconds == 30 && a.waitFinished.Some? && a.finished.Some?
    && a.waitElapsed == Some(a.waitFinished.value - a.waitStarted)
    && a.waitFinished.value - a.waitStarted >= 30_000_000_000
    && a.waitFinished.value <= a.identity.value.started <= a.finished.value
  }

  /** The context that an attempt's launch must carry. */
  predicate ShowsContext(m: Manifest, disk: Disk, nested: Option<string>, a: Attempt) {
    var inTransfer := m.root + ["transfer", "utility"] <= a.output;
    && (inTransfer ==> nested.Some?)
    && (a.output in disk.launches ==>
          && a.context == Some(disk.launches[a.output].context) && disk.launches[a.output].host == m.host
          && a.context == if inTransfer then nested else Some(m.sha))
  }

  /** An entry that the audit accepts. */
  predicate Audited(m: Manifest, disk: Disk, nested: Option<string>, bound: Attempt -> bool, a: Attempt) {
    && m.root <= a.output && m.root <= a.database
    && a.finished.Some? && a.waitStarted <= a.finished.value
    && (if a.nativeStarted then ShowsProcess(disk, a) else a.output !in disk.starts)
    && ShowsContext(m, disk, nested, a)
    && (a.measurementId.Some? ==> bound(a) && a.nativeStarted)
    && (a.status == Finished("measured") ==> a.measurementId.Some?)
  }

  lemma {:induction false} AttemptExactly(m: Manifest, disk: Disk, nested: Option<string>, bound: Attempt -> bool,
                                          a: Attempt)
    ensures AttemptOk(m, disk, nested, bound, a) <==> Audited(m, disk, nested, bound, a)
  {
  }

  /** Two entries in the order of the journal: other directory, other process, and later. */
  predicate Succeeds(a: Attempt, b: Attempt) {
    && a.output != b.output
    && (a.nativeStarted && b.nativeStarted && a.identity.Some? && b.identity.Some? ==>
          var p, q := a.identity.value, b.identity.value;
          p.pid != q.pid || p.created != q.created || p.source != q.source)
  }

  /**
   The audit accepts exactly the journals of at most 148 entries that are each accepted, each begin after
   the one before and after the freeze, have directories and processes of their own, and account for
   every start file.
   */
  lemma {:induction false} AuditExactly(m: Manifest, journal: seq<Attempt>, disk: Disk, nested: Option<string>,
                                        bound: Attempt -> bool)
    ensures AuditOk(m, journal, disk, nested, bound)
       <==> |journal| <= 148
            && (forall i :: 0 <= i < |journal| ==> Audited(m, disk, nested, bound, journal[i]))
            && (journal != [] ==> m.frozen <= journal[0].waitStarted)
            && (forall i :: 0 <= i < |journal| - 1 ==>
                  journal[i].finished.Some? && journal[i].finished.value <= journal[i + 1].waitStarted)
            && (forall i, j :: 0 <= i < j < |journal| ==> Succeeds(journal[i], journal[j]))
            && disk.starts.Keys == StartedOutputs(journal)
  {
    hide AttemptOk, Audited;
    forall i | 0 <= i < |journal|
      ensures AttemptOk(m, disk, nested, bound, journal[i]) <==> Audited(m, disk, nested, bound, journal[i])
    {
      AttemptExactly(m, disk, nested, bound, journal[i]);
    }
    if forall i :: 0 <= i < |journal| ==> Audited(m, disk, nested, bound, journal[i]) {
      OrderExactly(m, disk, nested, bound, journal);
      PairsExactly(journal);
      if forall i, j :: 0 <= i < j < |journal| ==> Succeeds(journal[i], journal[j]) {
        StartsExactly(m, disk, nested, bound, journal);
      }
    }
  }

  lemma {:induction false} OrderExactly(m: Manifest, disk: Disk, nested: Option<string>, bound: Attempt -> bool,
                                        journal: seq<Attempt>)
    requires forall i :: 0 <= i < |journal| ==> Audited(m, disk, nested, bound, journal[i])
    ensures InOrder(m.frozen, journal)
       <==> (journal != [] ==> m.frozen <= journal[0].waitStarted)
            && (forall i :: 0 <= i < |journal| - 1 ==>
                  journal[i].finished.Some? && journal[i].finished.value <= journal[i + 1].waitStarted)
  {
    hide ShowsProcess, ShowsContext;
    assert forall i :: 0 <= i < |journal| ==> Audited(m, disk, nested, bound, journal[i]) && journal[i].finished.Some?;
    if InOrder(m.frozen, journal) {
      forall i | 0 <= i < |journal| - 1
        ensures journal[i].finished.Some? && journal[i].finished.value <= journal[i + 1].waitStarted
      {
        var j := i + 1;
        assert journal[j].waitStarted >= FinishedBefore(m.frozen, journal, j);
      }
    }
    if (journal != [] ==> m.frozen <= journal[0].waitStarted)
      && (forall i :: 0 <= i < |journal| - 1 ==>
            journal[i].finished.Some? && journal[i].finished.value <= journal[i + 1].waitStarted) {
      forall i | 0 <= i < |journal|
        ensures journal[i].waitStarted >= FinishedBefore(m.frozen, journal, i)
      {
        if i > 0 {
          var j := i - 1;
          assert journal[j].finished.value <= journal[j + 1].waitStarted;
        }
      }
    }
  }

  lemma {:induction false} PairsExactly(journal: seq<Attempt>)
    ensures DistinctOutputs(journal) && DistinctOwners(journal)
       <==> forall i, j :: 0 <= i < j < |journal| ==> Succeeds(journal[i], journal[j])
  {
  }

  /** The directories of the entries whose process started. */
  function StartedOutputs(journal: seq<Attempt>): set<Path> {
    set i | 0 <= i < |journal| && journal[i].nativeStarted :: journal[i].output
  }

  lemma {:induction false} StartedCount(journal: seq<Attempt>)
    requires DistinctOutputs(journal)
    ensures |StartedOutputs(journal)| == Started(journal)
  {
    if journal == [] {
      assert StartedOutputs(journal) == {};
    } else {
      var n := |journal| - 1;
      StartedCount(journal[..n]);
      var before, a := StartedOutputs(journal[..n]), journal[n];
      assert a.output !in before;
      assert StartedOutputs(journal) == if a.nativeStarted then before + {a.output} else before;
    }
  }

  lemma {:induction false} StartsExactly(m: Manifest, disk: Disk, nested: Option<string>, bound: Attempt -> bool,
                                         journal: seq<Attempt>)
    requires forall i :: 0 <= i < |journal| ==> Audited(m, disk, nested, bound, journal[i])
    requires forall i, j :: 0 <= i < j < |journal| ==> Succeeds(journal[i], journal[j])
    ensures |disk.starts| == Started(journal) <==> disk.starts.Keys == StartedOutputs(journal)
  {
    hide ShowsContext;
    assert DistinctOutputs(journal);
    StartedCount(journal);
    var made, there := StartedOutputs(journal), disk.starts.Keys;
    forall p | p in made
      ensures p in there
    {
      var i :| 0 <= i < |journal| && journal[i].nativeStarted && journal[i].output == p;
      assert Audited(m, disk, nested, bound, journal[i]);
    }
    PathsCard(made, there);
  }

  lemma {:induction false} PathsCard(a: set<Path>, b: set<Path>)
    requires a <= b
    ensures |a| == |b| <==> a == b
  {
    assert b == a + (b - a);
    assert |b| == |a| + |b - a|;
  }

  /** An accepted study of n native processes took at least n times thirty seconds. */
  lemma {:induction false} ElapsedCoversProcesses(m: Manifest, journal: seq<Attempt>, disk: Disk,
                                                  nested: Option<string>, bound: Attempt -> bool, start: int, end: int,
                                                  elapsed: int)
    requires AuditOk(m, journal, disk, nested, bound) && CollectorOk(m, journal, start, end, elapsed)
    ensures Started(journal) * WAIT_NS <= StartedWaits(journal) <= elapsed
  {
    hide EachOk;
    StartedWaitsFit(m, journal, disk, nested, bound);
    PreviousBounded(m.frozen, end, journal);
  }

  lemma {:induction false} WrittenTimes(m: Manifest, disk: Disk, a: Attempt)
    requires Written(m, disk, a)
    ensures a.finished.Some? && a.waitStarted <= a.finished.value && WaitOf(a) <= a.finished.value - a.waitStarted
  {
  }

  lemma {:induction false} WrittenWaitsFit(m: Manifest, journal: seq<Attempt>, disk: Disk)
    requires InOrder(m.frozen, journal) && forall i :: 0 <= i < |journal| ==> Written(m, disk, journal[i])
    ensures Waits(journal) <= Previous(m.frozen, journal) - m.frozen
  {
    hide WrittenStart, Under, InOrder, Written;
    if journal != [] {
      var n := |journal| - 1;
      WrittenTimes(m, disk, journal[n]);
      assert journal == journal[..n] + [journal[n]];
      OrderSnoc(m.frozen, journal[..n], journal[n]);
      assert forall i :: 0 <= i < n ==> journal[..n][i] == journal[i];
      WrittenWaitsFit(m, journal[..n], disk);
    }
  }

  /** The summed waits never contradict a runner-written journal, whether or not a process started. */
  lemma {:induction false} RunnerCostsPass(m: Manifest, calls: seq<Call>, start: int, end: int)
    requires Timely(m.frozen, calls) && DistinctOutputs(Conduct(m, calls).journal)
    requires 0 < start <= m.frozen && Clock(m.frozen, calls, |calls|) <= end && m.frozen <= end
    ensures CollectorOk(m, Conduct(m, calls).journal, start, end, end - start)
  {
    hide Conduct, Timely, DistinctOutputs;
    var s := Conduct(m, calls);
    ConductKeeps(m, calls);
    WrittenWaitsFit(m, s.journal, s.disk);
    forall i | 0 <= i < |s.journal|
      ensures s.journal[i].finished.Some? && s.journal[i].finished.value <= end
    {
      FinishesGrow(m, s.journal, s.disk, i);
    }
  }

  lemma {:induction false} FinishesGrow(m: Manifest, journal: seq<Attempt>, disk: Disk, i: nat)
    requires InOrder(m.frozen, journal) && forall k :: 0 <= k < |journal| ==> Written(m, disk, journal[k])
    requires i < |journal|
    ensures journal[i].finished.Some? && journal[i].finished.value <= Previous(m.frozen, journal)
    decreases |journal| - i
  {
    hide Written, InOrder;
    WrittenTimes(m, disk, journal[i]);
    if i + 1 < |journal| {
      FinishesGrow(m, journal, disk, i + 1);
      NextStartsLater(m.frozen, journal, i);
      WrittenTimes(m, disk, journal[i + 1]);
    }
  }

  lemma {:induction false} NextStartsLater(frozen: int, journal: seq<Attempt>, i: nat)
    requires InOrder(frozen, journal) && i + 1 < |journal| && journal[i].finished.Some?
    ensures journal[i].finished.value <= journal[i + 1].waitStarted
  {
    assert journal[i + 1].waitStarted >= FinishedBefore(frozen, journal, i + 1);
  }

  // ---- What an accepted journal says ----

  /** Attempts do not overlap. */
  lemma {:induction false} AttemptsDisjoint(m: Manifest, journal: seq<Attempt>, disk: Disk, nested: Option<string>,
                                            bound: Attempt -> bool, i: nat, j: nat)
    requires EachOk(m, journal, disk, nested, bound) && i < j < |journal|
    ensures journal[i].finished.Some? && journal[i].finished.value <= journal[j].waitStarted
    decreases j
  {
    hide ContextOk, RecordOk, Under, StartOk, DistinctOutputs, DistinctOwners;
    assert AttemptOk(m, disk, nested, bound, journal[i]);
    assert journal[j].waitStarted >= FinishedBefore(m.frozen, journal, j);
    if i < j - 1 {
      AttemptsDisjoint(m, journal, disk, nested, bound, i, j - 1);
      assert AttemptOk(m, disk, nested, bound, journal[j - 1]);
    }
  }

  /** Two native processes of an accepted journal are different ones, started at least thirty seconds apart. */
  lemma {:induction false} StartsAreSpaced(m: Manifest, journal: seq<Attempt>, disk: Disk, nested: Option<string>,
                                           bound: Attempt -> bool, i: nat, j: nat)
    requires EachOk(m, journal, disk, nested, bound) && i < j < |journal| && journal[i].nativeStarted
    requires journal[j].nativeStarted
    ensures journal[i].identity.Some? && journal[j].identity.Some?
    ensures journal[j].identity.value.started - journal[i].identity.value.started >= WAIT_NS
    ensures OwnerOf(journal[i].identity.value) != OwnerOf(journal[j].identity.value)
  {
    hide ContextOk, RecordOk, Under, DistinctOutputs, InOrder;
    AttemptsDisjoint(m, journal, disk, nested, bound, i, j);
    assert AttemptOk(m, disk, nested, bound, journal[i]);
    assert AttemptOk(m, disk, nested, bound, journal[j]);
    assert !SameOwner(journal[i], journal[j]);
  }
}
