/** Reconstruction of a whole study: the journal is cut into phases by one cursor. */
module StudyPhases {
  import opened Trace
  import opened StudyJournal
  import opened StudyAudit
  import opened StudyBlocks

  datatype ReportStatus = RepeatabilityStop | ConsumerStop | TransferStop | ValidationStop | PassStudy | OtherStatus

  datatype Summary = Summary(name: string, status: BlockStatus, sha: bool)
  datatype TransferSummary = TransferSummary(status: TransferStatus, sha: bool)

  /** A main block on disk: its directory, its freeze, and its report (a fresh running one when there is none). */
  datatype MainBlock = MainBlock(present: bool, frozenExists: bool, block: Block)

  /**
   The outer report and what lies beside it.  `frozen`: manifest, inputs and prerequisite are the
   registered ones.  `publication`: the published plan is valid and is block B's.
   */
  datatype Followup = Followup(
    status: ReportStatus,
    frozen: bool,
    journal: seq<Attempt>,
    summaries: seq<Summary>,
    consumer: Option<Consumer>,
    transferSummary: Option<TransferSummary>,
    start: int,
    end: int,
    elapsed: int,
    blockA: MainBlock,
    blockB: MainBlock,
    blockAAccepted: bool,
    accepted: bool,
    publication: bool,
    consumerDir: bool,
    transferDir: bool,
    transferFrozen: bool,
    transfer: Transfer)

  // ---- One cursor ----

  /** The longest prefix inside a directory. */
  function Phase(journal: seq<Attempt>, path: Path): (entries: seq<Attempt>)
    ensures entries <= journal
  {
    if journal == [] || !Under(journal[0].output, path) then []
    else [journal[0]] + Phase(journal[1..], path)
  }

  lemma {:induction false} PhaseAt(journal: seq<Attempt>, at: nat, path: Path)
    requires at <= |journal|
    ensures at < |journal| && Under(journal[at].output, path) ==>
              Phase(journal[at..], path) == [journal[at]] + Phase(journal[at + 1..], path)
    ensures at == |journal| || !Under(journal[at].output, path) ==> Phase(journal[at..], path) == []
  {
    hide Under;
    if at < |journal| {
      assert journal[at..][0] == journal[at] && journal[at..][1..] == journal[at + 1..];
    }
  }

  method TakePhase(journal: seq<Attempt>, cursor: nat, path: Path) returns (entries: seq<Attempt>, next: nat)
    requires cursor <= |journal|
    ensures entries == Phase(journal[cursor..], path) && next == cursor + |entries| <= |journal|
    ensures journal[next..] == journal[cursor..][|entries|..]
  {
    hide Under, Phase;
    entries := [];
    next := cursor;
    assert [] + Phase(journal[cursor..], path) == Phase(journal[cursor..], path);
    while next < |journal| && Under(journal[next].output, path)
      invariant cursor <= next <= |journal| && |entries| == next - cursor
      invariant Phase(journal[cursor..], path) == entries + Phase(journal[next..], path)
      decreases |journal| - next
    {
      PhaseAt(journal, next, path);
      Shift(entries, journal[next], Phase(journal[next + 1..], path));
      entries := entries + [journal[next]];
      next := next + 1;
    }
    PhaseAt(journal, next, path);
    assert entries + [] == entries;
    SkipSkip(journal, cursor, |entries|);
  }

  lemma {:induction false} Shift(entries: seq<Attempt>, a: Attempt, later: seq<Attempt>)
    ensures entries + ([a] + later) == (entries + [a]) + later
  {
  }

  lemma {:induction false} SkipSkip(journal: seq<Attempt>, cursor: nat, n: nat)
    requires cursor + n <= |journal|
    ensures journal[cursor..][n..] == journal[cursor + n..]
  {
  }

  // ---- Main blocks ----

  function BlockName(index: nat): string {
    if index == 0 then "block-a" else "block-b"
  }

  function BlockDatabase(index: nat): string {
    if index == 0 then "block-a.sqlite3" else "block-b.sqlite3"
  }

  function BlockAt(f: Followup, index: nat): MainBlock {
    if index == 0 then f.blockA else f.blockB
  }

  datatype Main = Main(passed: nat, failed: bool, rest: seq<Attempt>)

  predicate SummaryOk(f: Followup, index: nat) {
    if index < |f.summaries| then f.summaries[index] == Summary(BlockName(index), BlockAt(f, index).block.status, true)
    else f.status == ValidationStop
  }

  predicate MainBlockOk(f: Followup, root: Path, schedule: Schedule, index: nat, entries: seq<Attempt>) {
    BlockOk(BlockAt(f, index).block, root + [BlockName(index)], root + [BlockDatabase(index)], schedule, entries)
  }

  /** The main blocks from `index` on, or None when the report is refused. */
  function MainFrom(f: Followup, root: Path, schedule: Schedule, index: nat, rest: seq<Attempt>): Option<Main>
    requires index <= 2
    decreases 2 - index
  {
    if index == 2 then Some(Main(2, false, rest))
    else if !BlockAt(f, index).frozenExists then
      (if BlockAt(f, index).present || |f.summaries| > index then None else Some(Main(index, false, rest)))
    else if !SummaryOk(f, index) then None
    else
      var entries := Phase(rest, root + [BlockName(index)]);
      if !MainBlockOk(f, root, schedule, index, entries) then None
      else if Passing(BlockAt(f, index).block) then MainFrom(f, root, schedule, index + 1, rest[|entries|..])
      else if f.status != RepeatabilityStop && f.status != ValidationStop then None
      else Some(Main(index, true, rest[|entries|..]))
  }

  method MainBlocks(f: Followup, root: Path, schedule: Schedule) returns (main: Option<Main>, cursor: nat)
    ensures main == MainFrom(f, root, schedule, 0, f.journal)
    ensures main.Some? ==> cursor <= |f.journal| && main.value.rest == f.journal[cursor..]
  {
    hide BlockOk, Phase, SummaryOk;
    cursor := 0;
    var passed := 0;
    assert f.journal[0..] == f.journal;
    while passed < 2
      invariant passed <= 2 && cursor <= |f.journal|
      invariant MainFrom(f, root, schedule, 0, f.journal) == MainFrom(f, root, schedule, passed, f.journal[cursor..])
      decreases 2 - passed
    {
      var b := BlockAt(f, passed);
      if !b.frozenExists {
        return (if b.present || |f.summaries| > passed then None else Some(Main(passed, false, f.journal[cursor..]))),
          cursor;
      }
      if !SummaryOk(f, passed) {
        return None, cursor;
      }
      var entries, next := TakePhase(f.journal, cursor, root + [BlockName(passed)]);
      var ok := VerifyBlock(b.block, root + [BlockName(passed)], root + [BlockDatabase(passed)], schedule, entries);
      if ok.None? {
        return None, cursor;
      }
      cursor := next;
      if !ok.value {
        return (if f.status != RepeatabilityStop && f.status != ValidationStop then None
                else Some(Main(passed, true, f.journal[cursor..]))), cursor;
      }
      passed := passed + 1;
    }
    main := Some(Main(2, false, f.journal[cursor..]));
  }

  // ---- Consumer and transfer ----

  datatype Finish = Finish(consumed: bool, transfer: Option<TransferStatus>, rest: seq<Attempt>)

  predicate LaterPhases(f: Followup) {
    f.consumerDir || f.transferDir || f.consumer.Some? || f.transferSummary.Some?
  }

  predicate TransferSummaryOk(f: Followup) {
    if f.transferSummary.Some? then f.transferSummary.value == TransferSummary(f.transfer.status, true)
    else f.status == ValidationStop
  }

  function TransferPhase(f: Followup, root: Path, schedule: Schedule, rest: seq<Attempt>): Option<Finish> {
    var nested := root + ["transfer", "utility"];
    var entries := Phase(rest, nested);
    if TransferOk(f.transfer, nested, root + ["transfer", "utility.sqlite3"], schedule, entries) && TransferSummaryOk(f)
    then Some(Finish(true, Some(f.transfer.status), rest[|entries|..]))
    else None
  }

  function ConsumerPhase(f: Followup, root: Path, schedule: Schedule, rest: seq<Attempt>): Option<Finish> {
    var entries := Phase(rest, root + ["consumer"]);
    if !f.publication || |entries| > 1 || (f.consumer.Some? && entries == []) then None
    else if entries != [] && !ConsumerOk(f.consumer, entries[0], root + [BlockDatabase(1)], root + ["consumer"])
      then None
    else if entries != [] && ConsumerAccepted(f.consumer) then
      (if f.transferFrozen then TransferPhase(f, root, schedule, rest[|entries|..])
       else if f.status != ValidationStop then None
       else Some(Finish(true, None, rest[|entries|..])))
    else if f.transferDir || f.transferSummary.Some? then None
    else Some(Finish(false, None, rest[|entries|..]))
  }

  function AfterMain(f: Followup, root: Path, schedule: Schedule, main: Main): Option<Finish> {
    if main.passed != 2 then
      (if f.accepted || LaterPhases(f) || (f.blockB.present && main.passed == 0) then None
       else Some(Finish(false, None, main.rest)))
    else if f.accepted then ConsumerPhase(f, root, schedule, main.rest)
    else if LaterPhases(f) then None
    else Some(Finish(false, None, main.rest))
  }

  function Expected(main: Main, finish: Finish): ReportStatus {
    if main.passed != 2 then RepeatabilityStop
    else if !finish.consumed then ConsumerStop
    else if finish.transfer == Some(PassUtilityProduct) then PassStudy
    else TransferStop
  }

  predicate TerminalOk(f: Followup, main: Main, finish: Finish) {
    && (f.status == Expected(main, finish) || f.status == ValidationStop)
    && finish.rest == []
    && (f.status == RepeatabilityStop ==> main.failed)
    && (f.status == ConsumerStop ==> f.consumer.Some?)
    && (f.status == PassStudy ==>
          Started(f.journal) == MAXIMUM_NATIVE_PROCESSES && |f.journal| == MAXIMUM_NATIVE_PROCESSES)
  }

  predicate PhasesOk(f: Followup, root: Path, schedule: Schedule) {
    var main := MainFrom(f, root, schedule, 0, f.journal);
    main.Some? &&
      var finish := AfterMain(f, root, schedule, main.value);
      finish.Some? && TerminalOk(f, main.value, finish.value)
  }

  ghost predicate FollowupOk(f: Followup, m: Manifest, disk: Disk, nested: Option<string>, bound: Attempt -> bool,
                             schedule: Schedule) {
    && f.status != OtherStatus && f.frozen
    && CollectorOk(m, f.journal, f.start, f.end, f.elapsed)
    && AuditOk(m, f.journal, disk, nested, bound)
    && |f.summaries| <= 2 && !f.blockAAccepted
    && PhasesOk(f, m.root, schedule)
  }

  method CheckConsumer(f: Followup, root: Path, schedule: Schedule, cursor: nat) returns (finish: Option<Finish>)
    requires cursor <= |f.journal|
    ensures finish == ConsumerPhase(f, root, schedule, f.journal[cursor..])
  {
    hide Phase, TransferOk, ConsumerOk, TransferSummaryOk;
    if !f.publication {
      return None;
    }
    var entries, next := TakePhase(f.journal, cursor, root + ["consumer"]);
    if |entries| > 1 || (f.consumer.Some? && entries == []) {
      return None;
    }
    var consumed := false;
    if entries != [] {
      if !ConsumerOk(f.consumer, entries[0], root + [BlockDatabase(1)], root + ["consumer"]) {
        return None;
      }
      consumed := ConsumerAccepted(f.consumer);
    }
    if !consumed {
      return if f.transferDir || f.transferSummary.Some? then None else Some(Finish(false, None, f.journal[next..]));
    }
    if !f.transferFrozen {
      return if f.status != ValidationStop then None else Some(Finish(true, None, f.journal[next..]));
    }
    var inner, last := TakePhase(f.journal, next, root + ["transfer", "utility"]);
    var ok := VerifyTransfer(f.transfer, root + ["transfer", "utility"], root
      + ["transfer", "utility.sqlite3"], schedule, inner);
    finish := if ok && TransferSummaryOk(f) then Some(Finish(true, Some(f.transfer.status), f.journal[last..]))
      else None;
  }

  method CheckPhases(f: Followup, root: Path, schedule: Schedule) returns (ok: bool)
    ensures ok == PhasesOk(f, root, schedule)
  {
    hide MainFrom, ConsumerPhase, TerminalOk;
    var main, cursor := MainBlocks(f, root, schedule);
    if main.None? {
      return false;
    }
    var finish := Some(Finish(false, None, f.journal[cursor..]));
    if main.value.passed != 2 {
      if f.accepted || LaterPhases(f) || (f.blockB.present && main.value.passed == 0) {
        return false;
      }
    } else if f.accepted {
      finish := CheckConsumer(f, root, schedule, cursor);
    } else if LaterPhases(f) {
      return false;
    }
    ok := finish.Some? && TerminalOk(f, main.value, finish.value);
  }

  /** The number of native processes, or None when the report is refused. */
  method ValidateFollowup(f: Followup, m: Manifest, disk: Disk, nested: Option<string>, bound: Attempt -> bool,
                          schedule: Schedule)
    returns (processes: Option<nat>)
    ensures processes.Some? <==> FollowupOk(f, m, disk, nested, bound, schedule)
    ensures processes.Some? ==> processes.value == Started(f.journal)
  {
    hide CollectorOk, AuditOk, PhasesOk, Started;
    if f.status == OtherStatus || !f.frozen || !CollectorOk(m, f.journal, f.start, f.end, f.elapsed) {
      return None;
    }
    processes := AuditAttempts(m, f.journal, disk, nested, bound);
    if processes.None? || |f.summaries| > 2 || f.blockAAccepted {
      return None;
    }
    var ok := CheckPhases(f, m.root, schedule);
    if !ok {
      return None;
    }
  }

  // ---- What an accepted report means ----

  predicate RunOf(a: Attempt, output: Path) {
    a.output == output && IsMeasured(a)
  }

  /** A whole block sits at `from`: twenty measured runs in the registered order. */
  ghost predicate BlockRuns(journal: seq<Attempt>, from: nat, root: Path, schedule: Schedule) {
    from + BLOCK_RUNS <= |journal| && forall i :: 0 <= i < BLOCK_RUNS ==>
      RunOf(journal[from + i], root + ["raw", PairLabel(schedule, i)])
  }

  /** A main block that was passed holds a whole block at the cursor, and the cursor moves on by twenty. */
  lemma {:induction false} PassedBlock(f: Followup, root: Path, schedule: Schedule, index: nat, cursor: nat)
    requires index < 2 && cursor <= |f.journal|
    requires var main := MainFrom(f, root, schedule, index, f.journal[cursor..]);
             main.Some? && main.value.passed > index
    ensures BlockRuns(f.journal, cursor, root + [BlockName(index)], schedule)
    ensures MainFrom(f, root, schedule, index, f.journal[cursor..])
      == MainFrom(f, root, schedule, index + 1, f.journal[cursor + BLOCK_RUNS..])
  {
    hide BlockOk, Phase, SummaryOk, Passing, PairLabel, IsMeasured, BlockName;
    var rest := f.journal[cursor..];
    var entries := Phase(rest, root + [BlockName(index)]);
    PassedAt(f, root, schedule, index, rest);
    PassingBlockIsComplete(BlockAt(f, index).block, root + [BlockName(index)], root
      + [BlockDatabase(index)], schedule, entries);
    assert forall i :: 0 <= i < BLOCK_RUNS ==> entries[i] == f.journal[cursor + i];
    assert rest[BLOCK_RUNS..] == f.journal[cursor + BLOCK_RUNS..];
  }

  lemma {:induction false} PassedAt(f: Followup, root: Path, schedule: Schedule, index: nat, rest: seq<Attempt>)
    requires index < 2
    requires var main := MainFrom(f, root, schedule, index, rest); main.Some? && main.value.passed > index
    ensures MainBlockOk(f, root, schedule, index, Phase(rest, root + [BlockName(index)]))
      && Passing(BlockAt(f, index).block)
    ensures MainFrom(f, root, schedule, index, rest)
         == MainFrom(f, root, schedule, index + 1, rest[|Phase(rest, root + [BlockName(index)])|..])
  {
    hide BlockOk, Phase, SummaryOk, Passing, BlockName, BlockDatabase;
  }

  lemma {:induction false} StoppedWithinTwenty(f: Followup, root: Path, schedule: Schedule, index: nat,
                                               rest: seq<Attempt>)
    requires index <= 2
    requires var main := MainFrom(f, root, schedule, index, rest); main.Some? && main.value.passed == index
    ensures |rest| - BLOCK_RUNS <= |MainFrom(f, root, schedule, index, rest).value.rest| <= |rest|
  {
    hide Phase, SummaryOk, Passing, BlockName, BlockDatabase, BlockEntryOk, BlockVerdictOk;
  }

  /** The first forty attempts of a study whose main blocks passed. */
  lemma {:induction false} BothBlocks(f: Followup, root: Path, schedule: Schedule)
    requires var main := MainFrom(f, root, schedule, 0, f.journal); main.Some? && main.value.passed == 2
    ensures BlockRuns(f.journal, 0, root + ["block-a"], schedule)
    ensures BlockRuns(f.journal, BLOCK_RUNS, root + ["block-b"], schedule)
    ensures MainFrom(f, root, schedule, 0, f.journal).value.rest == f.journal[2 * BLOCK_RUNS..]
  {
    hide MainBlockOk, SummaryOk, BlockRuns;
    assert f.journal[0..] == f.journal;
    PassedBlock(f, root, schedule, 0, 0);
    assert BlockRuns(f.journal, 0, root + ["block-a"], schedule) ==> BLOCK_RUNS <= |f.journal| by {
      RunsFit(f.journal, 0, root + ["block-a"], schedule);
    }
    PassedBlock(f, root, schedule, 1, BLOCK_RUNS);
  }

  lemma {:induction false} RunsFit(journal: seq<Attempt>, from: nat, root: Path, schedule: Schedule)
    ensures BlockRuns(journal, from, root, schedule) ==> from + BLOCK_RUNS <= |journal|
  {
  }

  /** A study stopped in its main blocks has made at most forty attempts. */
  lemma {:induction false} StoppedStudyIsShort(f: Followup, root: Path, schedule: Schedule)
    requires PhasesOk(f, root, schedule) && f.status == RepeatabilityStop
    ensures |f.journal| <= 2 * BLOCK_RUNS
  {
    hide MainBlockOk, SummaryOk, BlockRuns, ConsumerPhase;
    var main := MainFrom(f, root, schedule, 0, f.journal).value;
    assert main.passed != 2 && main.rest == [];
    if main.passed == 0 {
      StoppedWithinTwenty(f, root, schedule, 0, f.journal);
    } else {
      assert f.journal[0..] == f.journal;
      PassedBlock(f, root, schedule, 0, 0);
      RunsFit(f.journal, 0, root + [BlockName(0)], schedule);
      StoppedWithinTwenty(f, root, schedule, 1, f.journal[BLOCK_RUNS..]);
    }
  }

  lemma {:induction false} FailedMain(f: Followup, root: Path, schedule: Schedule, index: nat, rest: seq<Attempt>)
    requires index < 2
    requires var main := MainFrom(f, root, schedule, index, rest);
             main.Some? && main.value.passed == index && main.value.failed && main.value.rest == []
    ensures BlockAt(f, index).frozenExists && !Passing(BlockAt(f, index).block)
    ensures MainBlockOk(f, root, schedule, index, rest)
  {
    hide BlockOk, SummaryOk, Passing, BlockName, BlockDatabase;
    var entries := Phase(rest, root + [BlockName(index)]);
    var later := rest[|entries|..];
    PassedMore(f, root, schedule, index + 1, later);
    if BlockAt(f, index).frozenExists && MainBlockOk(f, root, schedule, index, entries) {
      if !Passing(BlockAt(f, index).block) {
        assert entries == rest;
      }
    }
  }

  lemma {:induction false} PassedMore(f: Followup, root: Path, schedule: Schedule, index: nat, rest: seq<Attempt>)
    requires index <= 2
    ensures var main := MainFrom(f, root, schedule, index, rest); main.Some? ==> main.value.passed >= index
    decreases 2 - index
  {
    hide BlockOk, SummaryOk, Passing, BlockName, BlockDatabase, Phase;
    if index < 2 {
      PassedMore(f, root, schedule, index + 1, rest[|Phase(rest, root + [BlockName(index)])|..]);
    }
  }

  /** Both main blocks, then one consumer run: what every later verdict rests on. */
  ghost predicate MainRuns(f: Followup, root: Path, schedule: Schedule) {
    && BlockRuns(f.journal, 0, root + ["block-a"], schedule)
    && BlockRuns(f.journal, BLOCK_RUNS, root + ["block-b"], schedule)
    && |f.journal| > 2 * BLOCK_RUNS
    && f.journal[2 * BLOCK_RUNS].output == root + ["consumer"]
  }

  lemma {:induction false} ConsumerRan(f: Followup, root: Path, schedule: Schedule, rest: seq<Attempt>)
    requires var finish := ConsumerPhase(f, root, schedule, rest);
             finish.Some? && (finish.value.consumed || f.consumer.Some?)
    ensures Phase(rest, root + ["consumer"]) == rest[..1] && |rest| > 0 && rest[0].output == root + ["consumer"]
    ensures ConsumerPhase(f, root, schedule, rest).value.consumed ==> IsMeasured(rest[0])
  {
    hide TransferPhase, Phase, IsMeasured;
  }

  lemma {:induction false} ReachedConsumer(f: Followup, root: Path, schedule: Schedule)
    requires PhasesOk(f, root, schedule)
    requires f.status == ConsumerStop || f.status == TransferStop || f.status == PassStudy
    ensures MainRuns(f, root, schedule)
    ensures ConsumerPhase(f, root, schedule, f.journal[2 * BLOCK_RUNS..]).Some?
    ensures var finish := ConsumerPhase(f, root, schedule, f.journal[2 * BLOCK_RUNS..]).value;
            finish.rest == [] && (f.status == ConsumerStop <==> !finish.consumed)
            && (f.status == PassStudy <==> finish.consumed && finish.transfer == Some(PassUtilityProduct))
    ensures if f.status == ConsumerStop then f.consumer.Some? else IsMeasured(f.journal[2 * BLOCK_RUNS])
  {
    hide MainFrom, ConsumerPhase, BlockRuns, IsMeasured;
    var main := MainFrom(f, root, schedule, 0, f.journal).value;
    assert main.passed == 2;
    BothBlocks(f, root, schedule);
    RunsFit(f.journal, BLOCK_RUNS, root + ["block-b"], schedule);
    assert f.accepted;
    ConsumerRan(f, root, schedule, main.rest);
  }

  /** A consumer stop comes after exactly forty-one attempts. */
  lemma {:induction false} ConsumerStopIsFortyOne(f: Followup, root: Path, schedule: Schedule)
    requires PhasesOk(f, root, schedule) && f.status == ConsumerStop
    ensures |f.journal| == 2 * BLOCK_RUNS + 1 && MainRuns(f, root, schedule)
  {
    hide PhasesOk, BlockRuns, TransferOk, Phase;
    ReachedConsumer(f, root, schedule);
    var rest := f.journal[2 * BLOCK_RUNS..];
    ConsumerRan(f, root, schedule, rest);
    assert |rest[..1]| == 1 && ConsumerPhase(f, root, schedule, rest).value.rest == rest[1..];
  }

  /** The transfer study starts at the forty-second attempt and takes the rest of the journal. */
  lemma {:induction false} TransferTakesTheRest(f: Followup, root: Path, schedule: Schedule)
    requires PhasesOk(f, root, schedule) && (f.status == TransferStop || f.status == PassStudy)
    ensures MainRuns(f, root, schedule)
    ensures TransferOk(f.transfer, root + ["transfer", "utility"], root
      + ["transfer", "utility.sqlite3"], schedule, f.journal[2 * BLOCK_RUNS + 1..])
    ensures f.status == PassStudy <==> f.transfer.status == PassUtilityProduct
    ensures |f.journal| <= MAXIMUM_NATIVE_PROCESSES
  {
    hide PhasesOk, BlockRuns, Phase, RawOk, ProductUse, ConsumerOk, TransferSummaryOk;
    ReachedConsumer(f, root, schedule);
    var rest := f.journal[2 * BLOCK_RUNS..];
    ConsumerRan(f, root, schedule, rest);
    var nested := root + ["transfer", "utility"];
    assert rest[1..] == f.journal[2 * BLOCK_RUNS + 1..];
    var entries := Phase(rest[1..], nested);
    assert rest[1..][|entries|..] == [];
    assert entries == rest[1..];
  }

  /** The transfer's part of a complete study. */
  ghost predicate TransferRuns(journal: seq<Attempt>, t: Transfer, nested: Path, schedule: Schedule) {
    && |journal| == MAXIMUM_NATIVE_PROCESSES && |t.screens| <= 100
    && |Registered(t, schedule)| >= RAW_RUNS
    && (forall i :: 0 <= i < RAW_RUNS ==> RunOf(journal[41 + i], nested + ["raw", Registered(t, schedule)[i].name]))
    && (forall i :: 0 <= i < BLOCK_RUNS ==>
      RunOf(journal[127 + i], nested + ["product", "raw", PairLabel(schedule, i)]))
    && RunOf(journal[147], nested + ["consumer"])
  }

  /**
   A pass forces the whole journal: 20 + 20 + 1 + 107 attempts in this order, the last 107 as 86 + 20 + 1,
   each in its registered directory, each measured, each with a native process of its own, and at
   least 148 times thirty seconds between the collector's start and its end.
   */
  lemma {:induction false} PassForcesTheJournal(f: Followup, m: Manifest, disk: Disk, nested: Option<string>,
                                                bound: Attempt -> bool, schedule: Schedule)
    requires FollowupOk(f, m, disk, nested, bound, schedule) && f.status == PassStudy
    ensures MainRuns(f, m.root, schedule) && IsMeasured(f.journal[40])
    ensures TransferRuns(f.journal, f.transfer, m.root + ["transfer", "utility"], schedule)
    ensures forall i :: 0 <= i < MAXIMUM_NATIVE_PROCESSES ==> f.journal[i].nativeStarted && f.journal[i].identity.Some?
    ensures forall i, j :: 0 <= i < j < MAXIMUM_NATIVE_PROCESSES ==>
      OwnerOf(f.journal[i].identity.value) != OwnerOf(f.journal[j].identity.value)
    ensures f.elapsed >= MAXIMUM_NATIVE_PROCESSES * WAIT_NS
  {
    hide CollectorOk, AuditOk, BlockRuns, TransferOk, MainFrom, AfterMain, Registered, PairLabel, IsMeasured;
    TransferTakesTheRest(f, m.root, schedule);
    ReachedConsumer(f, m.root, schedule);
    assert |f.journal| == MAXIMUM_NATIVE_PROCESSES;
    var root := m.root + ["transfer", "utility"];
    TransferRunsOf(f.journal, f.transfer, root, m.root + ["transfer", "utility.sqlite3"], schedule);
    AllStarted(f.journal);
    OwnersDiffer(m, f.journal, disk, nested, bound);
    ElapsedCoversProcesses(m, f.journal, disk, nested, bound, f.start, f.end, f.elapsed);
  }

  /** In an accepted journal every started attempt has an identity, and no two have the same. */
  lemma {:induction false} OwnersDiffer(m: Manifest, journal: seq<Attempt>, disk: Disk, nested: Option<string>,
                                        bound: Attempt -> bool)
    requires AuditOk(m, journal, disk, nested, bound) && forall i :: 0 <= i < |journal| ==> journal[i].nativeStarted
    ensures forall i :: 0 <= i < |journal| ==> journal[i].identity.Some?
    ensures forall i, j :: 0 <= i < j < |journal| ==>
      OwnerOf(journal[i].identity.value) != OwnerOf(journal[j].identity.value)
  {
    hide ContextOk, RecordOk, Under, InOrder, DistinctOutputs;
    forall i | 0 <= i < |journal|
      ensures journal[i].identity.Some?
    {
      assert AttemptOk(m, disk, nested, bound, journal[i]);
    }
    forall i, j | 0 <= i < j < |journal|
      ensures OwnerOf(journal[i].identity.value) != OwnerOf(journal[j].identity.value)
    {
      assert !SameOwner(journal[i], journal[j]);
    }
  }

  lemma {:induction false} TransferRunsOf(journal: seq<Attempt>, t: Transfer, nested: Path, database: Path,
                                          schedule: Schedule)
    requires |journal| == MAXIMUM_NATIVE_PROCESSES && t.status == PassUtilityProduct
    requires TransferOk(t, nested, database, schedule, journal[41..])
    ensures TransferRuns(journal, t, nested, schedule)
  {
    hide TransferOk, Registered, PairLabel, IsMeasured;
    var inner := journal[41..];
    SuccessfulTransferIsComplete(t, nested, database, schedule, inner);
    forall i | 0 <= i < RAW_RUNS
      ensures RunOf(journal[41 + i], nested + ["raw", Registered(t, schedule)[i].name])
    {
      assert inner[i] == journal[41 + i];
    }
    forall i | 0 <= i < BLOCK_RUNS
      ensures RunOf(journal[127 + i], nested + ["product", "raw", PairLabel(schedule, i)])
    {
      assert inner[RAW_RUNS + i] == journal[127 + i];
    }
    assert inner[RAW_RUNS + BLOCK_RUNS] == journal[147];
  }

  lemma {:induction false} AllStarted(journal: seq<Attempt>)
    ensures Started(journal) <= |journal|
    ensures Started(journal) == |journal| ==> forall i :: 0 <= i < |journal| ==> journal[i].nativeStarted
  {
    if journal != [] {
      AllStarted(journal[..|journal| - 1]);
    }
  }
}
