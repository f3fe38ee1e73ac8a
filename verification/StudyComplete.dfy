/** Exactly which transfers and which studies pass, in terms of their journals and the schedule alone. */
module StudyComplete {
  import opened Trace
  import opened StudyJournal
  import opened StudyAudit
  import opened StudyBlocks
  import opened StudyPhases
  import opened StudyOrder

  /** A block that claims a passing verdict which its rows evaluate to, with its ten pairs in order. */
  ghost predicate Passed(block: Block, root: Path, database: Path, schedule: Schedule, entries: seq<Attempt>) {
    && (block.status == PassMeasurement || block.status == PassStockFallback)
    && block.frozen && block.claims && block.verdict == Some(PassMeasurement)
    && WholeBlock(block, root, database, schedule, entries)
  }

  /** An accepted consumer: measured, in its own directory, bound to its record. */
  predicate Consumed(consumer: Option<Consumer>, a: Attempt, database: Path, output: Path) {
    && consumer.Some? && consumer.value.accepted && consumer.value.native
    && a.output == output && a.database == database && a.stage == "accepted-stock-run"
    && a.status == Finished("measured") && a.measurementId == Some(consumer.value.measurementId)
    && (consumer.value.outcome.Some? ==> consumer.value.outcome == Some(Outcome("measured", a.measurementId)))
  }

  lemma {:induction false} ConsumedExactly(consumer: Option<Consumer>, a: Attempt, database: Path, output: Path)
    ensures Consumed(consumer, a, database, output)
       <==> ConsumerOk(consumer, a, database, output) && ConsumerAccepted(consumer)
  {
    MeasuredText(a.status);
  }

  // ---- The transfer ----

  /** 86 registered raw runs, the product's ten pairs, and its consumer, with everything they depend on. */
  ghost predicate WholeTransfer(t: Transfer, nested: Path, database: Path, schedule: Schedule, entries: seq<Attempt>) {
    && |entries| == t.attempts == 107 && t.frozen && t.mirrored && |t.screens| <= 100
    && t.claimed == Some(t.ranked) && t.utility && t.gain
    && |t.rows| == |t.outcomes| == 86 <= |Registered(t, schedule)|
    && (forall i :: 0 <= i < 86 ==> IsPlanned(t, nested, database, entries[..86], i, Registered(t, schedule)[i]))
    && t.product.Some? && t.published
    && Passed(t.product.value, nested + ["product"], nested + ["product.sqlite3"], schedule, entries[86..106])
    && Consumed(t.consumer, entries[106], nested + ["product.sqlite3"], nested + ["consumer"])
  }

  lemma {:induction false} OnlyRaw(nested: Path, entries: seq<Attempt>)
    requires forall i :: 0 <= i < |entries| ==> IsRaw(nested, entries[i])
    ensures RawEntries(nested, entries) == entries
  {
    hide IsRaw;
    if entries != [] {
      OnlyRaw(nested, entries[..|entries| - 1]);
    }
  }

  lemma {:induction false} OnlyProduct(nested: Path, entries: seq<Attempt>, last: Attempt)
    requires forall i :: 0 <= i < |entries| ==> IsProduct(nested, entries[i])
    requires !IsProduct(nested, last)
    ensures ProductEntries(nested, entries) == ProductEntries(nested, entries + [last]) == entries
  {
    hide IsProduct;
    assert (entries + [last])[..|entries|] == entries;
    if entries != [] {
      OnlyProduct(nested, entries[..|entries| - 1], last);
    }
  }

  lemma {:induction false} RunsUnder(block: Block, root: Path, database: Path, schedule: Schedule,
                                     entries: seq<Attempt>)
    requires WholeBlock(block, root, database, schedule, entries)
    ensures forall i :: 0 <= i < BLOCK_RUNS ==> Under(entries[i].output, root) && |entries[i].output| == |root| + 2
  {
    hide Label, FirstArm;
    forall i | 0 <= i < BLOCK_RUNS
      ensures Under(entries[i].output, root) && |entries[i].output| == |root| + 2
    {
      assert IsPair(block, root, database, schedule, entries, i / 2);
      assert i == 2 * (i / 2) || i == 2 * (i / 2) + 1;
    }
  }

  lemma {:induction false} WholeIsSplit(t: Transfer, nested: Path, database: Path, schedule: Schedule,
                                        entries: seq<Attempt>)
    requires WholeTransfer(t, nested, database, schedule, entries)
    ensures RawEntries(nested, entries) == entries[..86] && ProductEntries(nested, entries[86..]) == entries[86..106]
  {
    hide Passed, IsRaw, IsProduct, IsPlanned, Registered, Consumed;
    var raw, product, last := entries[..86], entries[86..106], entries[106];
    forall i | 0 <= i < 86
      ensures IsRaw(nested, raw[i])
    {
      PlannedIsRaw(t, nested, database, raw, i, Registered(t, schedule)[i]);
    }
    OnlyRaw(nested, raw);
    ConsumerPlace(t.consumer, last, nested + ["product.sqlite3"], nested + ["consumer"]);
    DirectoriesDiffer(nested, last);
    PassedUnder(t.product.value, nested + ["product"], nested + ["product.sqlite3"], schedule, product);
    forall i | 0 <= i < 20
      ensures IsProduct(nested, product[i]) && !IsRaw(nested, product[i])
    {
      UnderIsProduct(nested, product[i]);
      DirectoriesDiffer(nested, product[i]);
    }
    assert entries == raw + (product + [last]) && entries[86..] == product + [last];
    OnlyProduct(nested, product, last);
    NoRaw(nested, product + [last]);
    RawConcat(nested, raw, product + [last]);
  }

  lemma {:induction false} PlannedIsRaw(t: Transfer, nested: Path, database: Path, raw: seq<Attempt>, i: nat,
                                        plan: Planned)
    requires i < |raw| == |t.rows| == |t.outcomes| && IsPlanned(t, nested, database, raw, i, plan)
    ensures IsRaw(nested, raw[i])
  {
    assert nested + ["raw", plan.name] == nested + ["raw"] + [plan.name];
  }

  lemma {:induction false} ConsumerPlace(consumer: Option<Consumer>, a: Attempt, database: Path, output: Path)
    requires Consumed(consumer, a, database, output)
    ensures a.output == output
  {
  }

  lemma {:induction false} PassedUnder(block: Block, root: Path, database: Path, schedule: Schedule,
                                       entries: seq<Attempt>)
    requires Passed(block, root, database, schedule, entries)
    ensures |entries| == BLOCK_RUNS && forall i :: 0 <= i < BLOCK_RUNS ==> Under(entries[i].output, root)
  {
    hide Under;
    RunsUnder(block, root, database, schedule, entries);
  }

  lemma {:induction false} UnderIsProduct(nested: Path, a: Attempt)
    requires Under(a.output, nested + ["product"])
    ensures IsProduct(nested, a)
  {
  }

  /** What the parts of a whole transfer decide, once the journal is split. */
  lemma {:induction false} SplitDecides(t: Transfer, nested: Path, database: Path, schedule: Schedule,
                                        entries: seq<Attempt>)
    requires |entries| == t.attempts == 107 && t.frozen && t.mirrored && |t.screens| <= 100
    requires t.status == PassUtilityProduct && |t.rows| == 86
    requires RawEntries(nested, entries) == entries[..86] && ProductEntries(nested, entries[86..]) == entries[86..106]
    ensures TransferOk(t, nested, database, schedule, entries)
       <==> RawOk(t, nested, database, schedule, entries[..86])
            && t.product.Some? && t.gain && t.published
            && BlockOk(t.product.value, nested + ["product"], nested + ["product.sqlite3"], schedule, entries[86..106])
            && Passing(t.product.value)
            && ConsumerOk(t.consumer, entries[106], nested + ["product.sqlite3"], nested + ["consumer"])
            && ConsumerAccepted(t.consumer)
  {
    hide RawOk, BlockOk, Passing, ConsumerOk, ConsumerAccepted, RawEntries, ProductEntries;
    assert entries[86..][20..] == [entries[106]];
  }

  /** A transfer succeeds with all its 107 runs exactly if it is whole. */
  lemma {:induction false} SuccessfulTransferExactly(t: Transfer, nested: Path, database: Path, schedule: Schedule,
                                                     entries: seq<Attempt>)
    requires t.status == PassUtilityProduct && |entries| == 107
    ensures TransferOk(t, nested, database, schedule, entries)
      <==> WholeTransfer(t, nested, database, schedule, entries)
  {
    hide RawOk, BlockOk, Passing, ConsumerOk, ConsumerAccepted, RawEntries, ProductEntries, IsPlanned, Consumed,
      WholeBlock, Registered, IsRaw, IsProduct, RawEntryOk;
    if TransferOk(t, nested, database, schedule, entries) {
      SucceededIsSplit(t, nested, database, schedule, entries);
    } else if WholeTransfer(t, nested, database, schedule, entries) {
      WholeIsSplit(t, nested, database, schedule, entries);
    } else {
      return;
    }
    SplitDecides(t, nested, database, schedule, entries);
    RegisteredIs(t, schedule);
    RawRunsExactly(t, nested, database, schedule, entries[..86], Registered(t, schedule));
    ConsumedExactly(t.consumer, entries[106], nested + ["product.sqlite3"], nested + ["consumer"]);
    if t.product.Some? {
      PassingBlockExactly(t.product.value, nested + ["product"], nested + ["product.sqlite3"], schedule,
                          entries[86..106]);
      PassingIs(t.product.value);
    }
  }

  lemma {:induction false} PassingIs(block: Block)
    ensures Passing(block) <==> block.status == PassMeasurement || block.status == PassStockFallback
  {
  }

  lemma {:induction false} SucceededIsSplit(t: Transfer, nested: Path, database: Path, schedule: Schedule,
                                            entries: seq<Attempt>)
    requires TransferOk(t, nested, database, schedule, entries)
    requires t.status == PassUtilityProduct && |entries| == 107
    ensures t.attempts == 107 && t.frozen && t.mirrored && |t.screens| <= 100 && |t.rows| == 86
    ensures RawEntries(nested, entries) == entries[..86] && ProductEntries(nested, entries[86..]) == entries[86..106]
  {
    hide BlockOk, Passing, IsRaw, IsProduct, RawEntryOk, IsMeasured, Registered;
    var r, k := TransferIsOrdered(t, nested, database, schedule, entries);
    var rest := entries[r..];
    assert r == RAW_RUNS == |t.rows|;
    assert t.product.Some?;
    assert k <= BLOCK_RUNS by {
      BlockFits(t.product.value, nested + ["product"], nested + ["product.sqlite3"], schedule,
                ProductEntries(nested, rest));
    }
    ProductPrefix(nested, rest, k);
    assert rest[..20] == entries[86..106];
  }

  // ---- The study ----

  ghost predicate WholeStudy(f: Followup, root: Path, schedule: Schedule) {
    && |f.journal| == 148
    && f.summaries == [Summary("block-a", f.blockA.block.status, true), Summary("block-b", f.blockB.block.status, true)]
    && f.blockA.frozenExists && f.blockB.frozenExists && !f.blockAAccepted && f.accepted && f.publication
    && Passed(f.blockA.block, root + ["block-a"], root + ["block-a.sqlite3"], schedule, f.journal[..20])
    && Passed(f.blockB.block, root + ["block-b"], root + ["block-b.sqlite3"], schedule, f.journal[20..40])
    && Consumed(f.consumer, f.journal[40], root + ["block-b.sqlite3"], root + ["consumer"])
    && f.transferFrozen && f.transfer.status == PassUtilityProduct
    && f.transferSummary == Some(TransferSummary(PassUtilityProduct, true))
    && WholeTransfer(f.transfer, root + ["transfer", "utility"], root + ["transfer", "utility.sqlite3"], schedule,
                     f.journal[41..])
  }

  lemma {:induction false} PhaseIs(journal: seq<Attempt>, path: Path, n: nat)
    requires n <= |journal| && forall i :: 0 <= i < n ==> Under(journal[i].output, path)
    requires n == |journal| || !Under(journal[n].output, path)
    ensures Phase(journal, path) == journal[..n]
  {
    hide Under;
    if n > 0 {
      PhaseIs(journal[1..], path, n - 1);
      assert journal[..n] == [journal[0]] + journal[1..][..n - 1];
    }
  }

  lemma {:induction false} Elsewhere(root: Path, name: string, other: string, path: Path)
    requires name != other && Under(path, root + [other])
    ensures !Under(path, root + [name])
  {
    NextComponent(root, name, path);
    NextComponent(root, other, path);
  }

  lemma {:induction false} NamesDiffer()
    ensures "block-a" != "block-b" && "block-b" != "consumer" && "consumer" != "transfer"
  {
    assert "block-a"[6] != "block-b"[6] && |"block-b"| == 7 && |"consumer"| == 8 && "consumer"[0] != "transfer"[0];
  }

  /** A whole main block is one step of the reconstruction. */
  lemma {:induction false} WholeBlockStep(f: Followup, root: Path, schedule: Schedule, index: nat, rest: seq<Attempt>)
    requires index < 2 && |rest| > 20 && f.status != ValidationStop && BlockAt(f, index).frozenExists
    requires index < |f.summaries|
    requires f.summaries[index] == Summary(BlockName(index), BlockAt(f, index).block.status, true)
    requires Passed(BlockAt(f, index).block, root + [BlockName(index)], root + [BlockDatabase(index)], schedule,
                    rest[..20])
    requires !Under(rest[20].output, root + [BlockName(index)])
    ensures MainFrom(f, root, schedule, index, rest) == MainFrom(f, root, schedule, index + 1, rest[20..])
  {
    hide Under, BlockOk, WholeBlock, BlockName, BlockDatabase;
    var block, path, database := BlockAt(f, index).block, root + [BlockName(index)], root + [BlockDatabase(index)];
    PassedUnder(block, path, database, schedule, rest[..20]);
    forall i | 0 <= i < 20
      ensures Under(rest[i].output, path)
    {
      assert rest[..20][i] == rest[i];
    }
    PhaseIs(rest, path, 20);
    PassingBlockExactly(block, path, database, schedule, rest[..20]);
  }

  lemma {:induction false} WholeTransferUnder(t: Transfer, nested: Path, database: Path, schedule: Schedule,
                                              entries: seq<Attempt>)
    requires WholeTransfer(t, nested, database, schedule, entries)
    ensures forall i :: 0 <= i < 107 ==> Under(entries[i].output, nested)
  {
    hide Registered, Consumed, TransferStage, Passed;
    ConsumerPlace(t.consumer, entries[106], nested + ["product.sqlite3"], nested + ["consumer"]);
    PassedUnder(t.product.value, nested + ["product"], nested + ["product.sqlite3"], schedule, entries[86..106]);
    forall i | 0 <= i < 107
      ensures Under(entries[i].output, nested)
    {
      if i < 86 {
        assert IsPlanned(t, nested, database, entries[..86], i, Registered(t, schedule)[i]);
      } else if i < 106 {
        assert entries[86..106][i - 86] == entries[i];
        assert nested <= nested + ["product"] <= entries[i].output;
      }
    }
  }

  /** A whole study is reconstructed as one. */
  lemma {:induction false} WholeIsReconstructed(f: Followup, root: Path, schedule: Schedule)
    requires f.status == PassStudy && WholeStudy(f, root, schedule) && Started(f.journal) == 148
    ensures PhasesOk(f, root, schedule)
  {
    hide Under, Passed, Consumed, WholeTransfer, TransferOk, Phase, ConsumerOk, ConsumerAccepted, MainFrom, Started;
    var j, nested := f.journal, root + ["transfer", "utility"];
    var inner := j[41..];
    NamesDiffer();
    PassedUnder(f.blockB.block, root + ["block-b"], root + ["block-b.sqlite3"], schedule, j[20..40]);
    assert j[20] == j[20..40][0];
    Elsewhere(root, "block-a", "block-b", j[20].output);
    WholeBlockStep(f, root, schedule, 0, j);
    ConsumerPlace(f.consumer, j[40], root + ["block-b.sqlite3"], root + ["consumer"]);
    SelfUnder(root + ["consumer"]);
    Elsewhere(root, "block-b", "consumer", j[40].output);
    assert j[20..][..20] == j[20..40] && j[20..][20] == j[40] && j[20..][20..] == j[40..];
    WholeBlockStep(f, root, schedule, 1, j[20..]);
    MainDone(f, root, schedule, j[40..]);
    WholeTransferUnder(f.transfer, nested, root + ["transfer", "utility.sqlite3"], schedule, inner);
    assert j[41] == inner[0];
    InTransfer(root, j[41].output);
    Elsewhere(root, "consumer", "transfer", j[41].output);
    PhaseIs(j[40..], root + ["consumer"], 1);
    assert j[40..][..1] == [j[40]] && j[40..][1..] == inner;
    ConsumedExactly(f.consumer, j[40], root + ["block-b.sqlite3"], root + ["consumer"]);
    WholeSize(f.transfer, nested, root + ["transfer", "utility.sqlite3"], schedule, inner);
    PhaseIs(inner, nested, 107);
    assert inner[..107] == inner && inner[107..] == [];
    SuccessfulTransferExactly(f.transfer, nested, root + ["transfer", "utility.sqlite3"], schedule, inner);
  }

  lemma {:induction false} WholeSize(t: Transfer, nested: Path, database: Path, schedule: Schedule,
                                     entries: seq<Attempt>)
    requires WholeTransfer(t, nested, database, schedule, entries)
    ensures |entries| == 107
  {
  }

  lemma {:induction false} SelfUnder(path: Path)
    ensures Under(path, path)
  {
  }

  lemma {:induction false} InTransfer(root: Path, path: Path)
    requires Under(path, root + ["transfer", "utility"])
    ensures Under(path, root + ["transfer"])
  {
    assert root + ["transfer"] <= root + ["transfer", "utility"];
  }

  lemma {:induction false} MainDone(f: Followup, root: Path, schedule: Schedule, rest: seq<Attempt>)
    ensures MainFrom(f, root, schedule, 2, rest) == Some(Main(2, false, rest))
  {
  }

  /** A reconstructed pass is a whole study. */
  lemma {:induction false} ReconstructedIsWhole(f: Followup, root: Path, schedule: Schedule)
    requires f.status == PassStudy && PhasesOk(f, root, schedule) && |f.summaries| <= 2 && !f.blockAAccepted
    ensures WholeStudy(f, root, schedule) && Started(f.journal) == 148
  {
    hide Under, Passed, Consumed, WholeTransfer, TransferOk, Phase, ConsumerOk, ConsumerAccepted, MainFrom, Started,
      PhasesOk, BlockRuns;
    var j, nested := f.journal, root + ["transfer", "utility"];
    TransferTakesTheRest(f, root, schedule);
    PassSizes(f, root, schedule);
    var inner := j[41..];
    SuccessfulTransferExactly(f.transfer, nested, root + ["transfer", "utility.sqlite3"], schedule, inner);
    PassedMain(f, root, schedule);
    PassedConsumer(f, root, schedule);
  }

  lemma {:induction false} PassSizes(f: Followup, root: Path, schedule: Schedule)
    requires f.status == PassStudy && PhasesOk(f, root, schedule)
    ensures |f.journal| == 148 && Started(f.journal) == 148
  {
    hide MainFrom, AfterMain, Started;
  }

  lemma {:induction false} PassedMain(f: Followup, root: Path, schedule: Schedule)
    requires f.status == PassStudy && PhasesOk(f, root, schedule) && |f.summaries| <= 2 && |f.journal| == 148
    ensures f.summaries == [Summary("block-a", f.blockA.block.status, true),
      Summary("block-b", f.blockB.block.status, true)]
    ensures f.blockA.frozenExists && f.blockB.frozenExists
    ensures Passed(f.blockA.block, root + ["block-a"], root + ["block-a.sqlite3"], schedule, f.journal[..20])
    ensures Passed(f.blockB.block, root + ["block-b"], root + ["block-b.sqlite3"], schedule, f.journal[20..40])
  {
    hide Under, Passed, Phase, AfterMain, BlockOk, MainFrom, BlockRuns;
    var j := f.journal;
    PassIsTwo(f, root, schedule);
    assert j[0..] == j;
    PassedBlock(f, root, schedule, 0, 0);
    OneMain(f, root, schedule, 0, j);
    OneMain(f, root, schedule, 1, j[20..]);
    PassedBlock(f, root, schedule, 1, 20);
    assert j[20..][..20] == j[20..40];
  }

  lemma {:induction false} PassIsTwo(f: Followup, root: Path, schedule: Schedule)
    requires f.status == PassStudy && PhasesOk(f, root, schedule)
    ensures var main := MainFrom(f, root, schedule, 0, f.journal);
            main.Some? && main.value.passed == 2 && main.value.rest == f.journal[40..] && f.accepted
  {
    hide MainFrom, ConsumerPhase, BlockRuns;
    BothBlocks(f, root, schedule);
  }

  lemma {:induction false} OneMain(f: Followup, root: Path, schedule: Schedule, index: nat, rest: seq<Attempt>)
    requires index < 2 && f.status == PassStudy
    requires var main := MainFrom(f, root, schedule, index, rest); main.Some? && main.value.passed > index
    ensures BlockAt(f, index).frozenExists
    ensures index < |f.summaries|
      && f.summaries[index] == Summary(BlockName(index), BlockAt(f, index).block.status, true)
    ensures |rest| >= 20
    ensures Passed(BlockAt(f, index).block, root + [BlockName(index)], root + [BlockDatabase(index)], schedule,
                   rest[..20])
  {
    hide Under, Phase, BlockOk, WholeBlock, BlockName, BlockDatabase, Passing;
    var block, path, database := BlockAt(f, index).block, root + [BlockName(index)], root + [BlockDatabase(index)];
    PassedAt(f, root, schedule, index, rest);
    PassingIs(block);
    PassingBlockExactly(block, path, database, schedule, Phase(rest, path));
    WholeBlockSize(block, path, database, schedule, Phase(rest, path));
    assert Phase(rest, path) == rest[..20];
  }

  lemma {:induction false} WholeBlockSize(block: Block, root: Path, database: Path, schedule: Schedule,
                                          entries: seq<Attempt>)
    requires WholeBlock(block, root, database, schedule, entries)
    ensures |entries| == 20
  {
  }

  lemma {:induction false} PassedConsumer(f: Followup, root: Path, schedule: Schedule)
    requires f.status == PassStudy && PhasesOk(f, root, schedule) && |f.journal| == 148
    ensures f.accepted && f.publication && f.transferFrozen
    ensures Consumed(f.consumer, f.journal[40], root + ["block-b.sqlite3"], root + ["consumer"])
    ensures f.transferSummary == Some(TransferSummary(f.transfer.status, true))
  {
    hide MainFrom, BlockRuns, Phase, ConsumerOk, ConsumerAccepted, TransferOk, Consumed;
    PassIsTwo(f, root, schedule);
    var rest := f.journal[40..];
    ConsumerRan(f, root, schedule, rest);
    assert rest[..1][0] == f.journal[40];
    ConsumedExactly(f.consumer, f.journal[40], root + ["block-b.sqlite3"], root + ["consumer"]);
  }

  /**
   A report is accepted as a pass exactly if its costs and its journal pass their audits and its journal
   is whole: two blocks of ten pairs in the order of the schedule, an accepted consumer, and a whole
   transfer, each run in its registered place.
   */
  lemma {:induction false} PassingStudyExactly(f: Followup, m: Manifest, disk: Disk, nested: Option<string>,
                                               bound: Attempt -> bool, schedule: Schedule)
    requires f.status == PassStudy
    ensures FollowupOk(f, m, disk, nested, bound, schedule)
       <==> f.frozen && CollectorOk(m, f.journal, f.start, f.end, f.elapsed)
            && AuditOk(m, f.journal, disk, nested, bound)
            && WholeStudy(f, m.root, schedule) && Started(f.journal) == 148
  {
    hide CollectorOk, AuditOk, PhasesOk, Started, Passed, Consumed, WholeTransfer;
    if f.frozen && |f.summaries| <= 2 && !f.blockAAccepted && PhasesOk(f, m.root, schedule) {
      ReconstructedIsWhole(f, m.root, schedule);
    }
    if WholeStudy(f, m.root, schedule) && Started(f.journal) == 148 {
      WholeIsReconstructed(f, m.root, schedule);
    }
  }

  // ---- Every accepted transfer ----

  /** A consumer run that was not accepted: in its place, with its outcome if there is one, and not measured. */
  predicate Unconsumed(consumer: Option<Consumer>, a: Attempt, database: Path, output: Path) {
    && (consumer.Some? ==> !consumer.value.accepted)
    && a.output == output && a.database == database && a.stage == "accepted-stock-run"
    && a.status != Finished("measured")
    && (consumer.Some? && consumer.value.outcome.Some? ==> Reports(a, consumer.value.outcome.value))
  }

  lemma {:induction false} UnconsumedExactly(consumer: Option<Consumer>, a: Attempt, database: Path, output: Path)
    ensures Unconsumed(consumer, a, database, output)
       <==> ConsumerOk(consumer, a, database, output) && !ConsumerAccepted(consumer)
  {
    hide StatusText;
    MeasuredText(a.status);
  }

  /** What may follow the raw runs: nothing, a failed product, or a passed one with at most one consumer run. */
  predicate TailOk(t: Transfer, nested: Path, schedule: Schedule, product: seq<Attempt>, last: seq<Attempt>) {
    var database, output := nested + ["product.sqlite3"], nested + ["consumer"];
    if t.product.None? then product == [] && last == [] && !t.consumerDir
    else
      && |t.rows| == 86 && t.gain && BlockOk(t.product.value, nested + ["product"], database, schedule, product)
      && if !Passing(t.product.value) then last == [] && !t.productAccepted && !t.consumerDir
         else
           && t.published
           && if last == [] then t.status != PassUtilityProduct
              else
                && |last| == 1
                && (Consumed(t.consumer, last[0], database, output)
                    || (Unconsumed(t.consumer, last[0], database, output)
                        && (t.status == TransferConsumerStop || t.status == TransferValidationStop)))
  }

  lemma {:induction false} TailExactly(t: Transfer, nested: Path, schedule: Schedule, rest: seq<Attempt>, k: nat)
    requires k <= |rest| && ProductEntries(nested, rest) == rest[..k]
    ensures ProductUse(t, nested, schedule, rest) == Some(|rest|) && (t.product.None? ==> k == 0)
       <==> TailOk(t, nested, schedule, rest[..k], rest[k..])
  {
    hide BlockOk, Passing, ProductEntries, Consumed, Unconsumed, ConsumerOk, ConsumerAccepted;
    if |rest| == k + 1 {
      ConsumedExactly(t.consumer, rest[k], nested + ["product.sqlite3"], nested + ["consumer"]);
      UnconsumedExactly(t.consumer, rest[k], nested + ["product.sqlite3"], nested + ["consumer"]);
    }
  }

  /** The journal of a transfer, cut into raw runs, product runs and at most one more. */
  ghost predicate IsCut(nested: Path, entries: seq<Attempt>, r: nat, k: nat) {
    && r + k <= |entries| <= r + k + 1
    && (forall i :: 0 <= i < r ==> IsRaw(nested, entries[i]))
    && (forall i :: r <= i < r + k ==> IsProduct(nested, entries[i]))
    && (r + k < |entries| ==> entries[r + k].output == nested + ["consumer"])
  }

  lemma {:induction false} CutSplits(nested: Path, entries: seq<Attempt>, r: nat, k: nat)
    requires IsCut(nested, entries, r, k)
    ensures RawEntries(nested, entries) == entries[..r] && ProductEntries(nested, entries[r..]) == entries[r..r + k]
  {
    hide IsRaw, IsProduct, RawEntries, ProductEntries;
    var raw, rest := entries[..r], entries[r..];
    OnlyRaw(nested, raw);
    forall i | 0 <= i < k
      ensures IsProduct(nested, rest[i])
    {
      assert rest[i] == entries[r + i];
    }
    if k < |rest| {
      assert rest[k] == entries[r + k];
    }
    RestSplits(nested, rest, k);
    assert rest[..k] == entries[r..r + k];
    assert entries == raw + rest;
    RawConcat(nested, raw, rest);
    assert raw + [] == raw;
  }

  lemma {:induction false} RestSplits(nested: Path, rest: seq<Attempt>, k: nat)
    requires k <= |rest| <= k + 1 && forall i :: 0 <= i < k ==> IsProduct(nested, rest[i])
    requires k < |rest| ==> rest[k].output == nested + ["consumer"]
    ensures RawEntries(nested, rest) == [] && ProductEntries(nested, rest) == rest[..k]
  {
    hide IsRaw, IsProduct, RawEntries, ProductEntries;
    forall i | 0 <= i < |rest|
      ensures !IsRaw(nested, rest[i])
    {
      DirectoriesDiffer(nested, rest[i]);
    }
    NoRaw(nested, rest);
    if k == |rest| {
      AllOfProduct(nested, rest);
      assert rest[..k] == rest;
    } else {
      DirectoriesDiffer(nested, rest[k]);
      OnlyProduct(nested, rest[..k], rest[k]);
      assert rest == rest[..k] + [rest[k]];
    }
  }

  lemma {:induction false} AllOfProduct(nested: Path, entries: seq<Attempt>)
    requires forall i :: 0 <= i < |entries| ==> IsProduct(nested, entries[i])
    ensures ProductEntries(nested, entries) == entries
  {
    hide IsProduct;
    if entries != [] {
      AllOfProduct(nested, entries[..|entries| - 1]);
    }
  }

  /** What the parts of a cut journal decide. */
  ghost predicate CutOk(t: Transfer, nested: Path, database: Path, schedule: Schedule, entries: seq<Attempt>, r: nat,
                        k: nat) {
    && |t.screens| <= 100 && IsCut(nested, entries, r, k)
    && RawOk(t, nested, database, schedule, entries[..r])
    && TailOk(t, nested, schedule, entries[r..r + k], entries[r + k..])
  }

  lemma {:induction false} CutDecides(t: Transfer, nested: Path, database: Path, schedule: Schedule,
                                      entries: seq<Attempt>, r: nat, k: nat)
    requires |t.screens| <= 100 && IsCut(nested, entries, r, k)
    ensures TransferOk(t, nested, database, schedule, entries)
       <==> t.frozen && |entries| == t.attempts <= 107 && t.mirrored && t.status != OtherTransfer
            && CutOk(t, nested, database, schedule, entries, r, k)
  {
    hide RawOk, BlockOk, TailOk, ProductUse, IsRaw, IsProduct, RawEntries, ProductEntries;
    CutSplits(nested, entries, r, k);
    var rest := entries[r..];
    assert rest[..k] == entries[r..r + k] && rest[k..] == entries[r + k..];
    TailExactly(t, nested, schedule, rest, k);
    if t.product.None? && ProductUse(t, nested, schedule, rest) == Some(|rest|) {
      NoProduct(t, nested, schedule, rest);
    }
  }

  lemma {:induction false} NoProduct(t: Transfer, nested: Path, schedule: Schedule, rest: seq<Attempt>)
    requires t.product.None? && ProductUse(t, nested, schedule, rest) == Some(|rest|)
    ensures rest == []
  {
  }

  /**
   Exactly the accepted transfers, finished or not: the journal falls into registered raw runs, the
   product's runs and at most one consumer run, in this order, and no part claims more than it may.
   */
  lemma {:induction false} TransferExactly(t: Transfer, nested: Path, database: Path, schedule: Schedule,
                                           entries: seq<Attempt>)
    ensures TransferOk(t, nested, database, schedule, entries)
       <==> t.frozen && |entries| == t.attempts <= 107 && t.mirrored && t.status != OtherTransfer
            && exists r: nat, k: nat :: CutOk(t, nested, database, schedule, entries, r, k)
  {
    hide RawOk, BlockOk, TailOk, IsRaw, IsProduct, TransferOk;
    if TransferOk(t, nested, database, schedule, entries) {
      var r, k := AcceptedIsCut(t, nested, database, schedule, entries);
      CutDecides(t, nested, database, schedule, entries, r, k);
    }
    if exists r: nat, k: nat :: CutOk(t, nested, database, schedule, entries, r, k) {
      var r: nat, k: nat :| CutOk(t, nested, database, schedule, entries, r, k);
      CutDecides(t, nested, database, schedule, entries, r, k);
    }
  }

  lemma {:induction false} AcceptedIsCut(t: Transfer, nested: Path, database: Path, schedule: Schedule,
                                         entries: seq<Attempt>)
    returns (r: nat, k: nat)
    requires TransferOk(t, nested, database, schedule, entries)
    ensures |t.screens| <= 100 && IsCut(nested, entries, r, k)
  {
    hide RawOk, BlockOk, IsRaw, IsProduct;
    r, k := TransferIsOrdered(t, nested, database, schedule, entries);
    var rest := entries[r..];
    assert forall i :: 0 <= i < |rest| ==> rest[i] == entries[r + i];
    forall i | r <= i < r + k
      ensures IsProduct(nested, entries[i])
    {
      assert rest[i - r] == entries[i];
    }
  }

  // ---- Every stopped study ----

  /** A summary that names a main block with its status and its report. */
  predicate Summarised(f: Followup, index: nat) {
    && index < |f.summaries| && f.summaries[index].sha && f.summaries[index].status == BlockAt(f, index).block.status
    && f.summaries[index].name == if index == 0 then "block-a" else "block-b"
  }

  /** Block A passed with the first twenty attempts. */
  ghost predicate FirstPassed(f: Followup, root: Path, schedule: Schedule) {
    && |f.journal| >= 20 && f.blockA.frozenExists && Summarised(f, 0)
    && Passed(f.blockA.block, root + ["block-a"], root + ["block-a.sqlite3"], schedule, f.journal[..20])
  }

  /** A main block that was frozen and summarised, is accepted, and did not pass. */
  predicate Stopped(f: Followup, root: Path, schedule: Schedule, index: nat, entries: seq<Attempt>) {
    && BlockAt(f, index).frozenExists && Summarised(f, index) && !Passing(BlockAt(f, index).block)
    && BlockOk(BlockAt(f, index).block, root + [if index == 0 then "block-a" else "block-b"],
               root + [if index == 0 then "block-a.sqlite3" else "block-b.sqlite3"], schedule, entries)
  }

  /** No publication, consumer or transfer. */
  predicate NothingLater(f: Followup) {
    !f.accepted && !f.consumerDir && !f.transferDir && f.consumer == None && f.transferSummary == None
  }

  lemma {:induction false} AcceptedUnder(block: Block, root: Path, database: Path, schedule: Schedule,
                                         entries: seq<Attempt>)
    requires BlockOk(block, root, database, schedule, entries)
    ensures forall i :: 0 <= i < |entries| ==> Under(entries[i].output, root)
  {
    hide Label, Suffix, StatusText, Claims;
    BlockExactly(block, root, database, schedule, entries);
    forall i | 0 <= i < |entries|
      ensures Under(entries[i].output, root)
    {
      assert InPlace(block, root, database, schedule, entries[i], i);
    }
  }

  /** A stopped block is the last step of the reconstruction. */
  lemma {:induction false} StoppedStep(f: Followup, root: Path, schedule: Schedule, index: nat, rest: seq<Attempt>)
    requires index < 2 && f.status == RepeatabilityStop && Stopped(f, root, schedule, index, rest)
    ensures MainFrom(f, root, schedule, index, rest) == Some(Main(index, true, []))
  {
    hide Under, BlockOk, Passing;
    var path := root + [BlockName(index)];
    AcceptedUnder(BlockAt(f, index).block, path, root + [BlockDatabase(index)], schedule, rest);
    PhaseIs(rest, path, |rest|);
    assert rest[..|rest|] == rest && rest[|rest|..] == [];
  }

  /** A passed block A is the first step. */
  lemma {:induction false} FirstStep(f: Followup, root: Path, schedule: Schedule)
    requires f.status != ValidationStop && FirstPassed(f, root, schedule)
    requires |f.journal| == 20 || !Under(f.journal[20].output, root + ["block-a"])
    ensures MainFrom(f, root, schedule, 0, f.journal) == MainFrom(f, root, schedule, 1, f.journal[20..])
  {
    hide Under, BlockOk, WholeBlock;
    var j, block, path, database := f.journal, f.blockA.block, root + ["block-a"], root + ["block-a.sqlite3"];
    PassedUnder(block, path, database, schedule, j[..20]);
    forall i | 0 <= i < 20
      ensures Under(j[i].output, path)
    {
      assert j[..20][i] == j[i];
    }
    PhaseIs(j, path, 20);
    PassingBlockExactly(block, path, database, schedule, j[..20]);
  }

  /**
   A repeatability stop is reconstructed exactly if nothing came later and block A holds the whole journal
   without passing and block B never began, or block A passed and block B holds the rest without passing.
   */
  lemma {:induction false} RepeatabilityStoppedExactly(f: Followup, root: Path, schedule: Schedule)
    requires f.status == RepeatabilityStop
    ensures PhasesOk(f, root, schedule)
       <==> NothingLater(f)
            && ((Stopped(f, root, schedule, 0, f.journal) && !f.blockB.present)
                || (FirstPassed(f, root, schedule) && Stopped(f, root, schedule, 1, f.journal[20..])))
  {
    hide Under, BlockOk, Passing, Passed, Phase, MainFrom, Stopped, Summarised;
    if PhasesOk(f, root, schedule) {
      StoppedParts(f, root, schedule);
    }
    if Stopped(f, root, schedule, 0, f.journal) {
      StoppedStep(f, root, schedule, 0, f.journal);
    }
    if FirstPassed(f, root, schedule) && Stopped(f, root, schedule, 1, f.journal[20..]) {
      SecondElsewhere(f, root, schedule);
      FirstStep(f, root, schedule);
      StoppedStep(f, root, schedule, 1, f.journal[20..]);
    }
  }

  lemma {:induction false} SecondElsewhere(f: Followup, root: Path, schedule: Schedule)
    requires |f.journal| >= 20 && Stopped(f, root, schedule, 1, f.journal[20..])
    ensures |f.journal| == 20 || !Under(f.journal[20].output, root + ["block-a"])
  {
    hide Under, BlockOk, Passing;
    NamesDiffer();
    AcceptedUnder(f.blockB.block, root + ["block-b"], root + ["block-b.sqlite3"], schedule, f.journal[20..]);
    if |f.journal| > 20 {
      assert f.journal[20..][0] == f.journal[20];
      Elsewhere(root, "block-a", "block-b", f.journal[20].output);
    }
  }

  lemma {:induction false} StoppedParts(f: Followup, root: Path, schedule: Schedule)
    requires f.status == RepeatabilityStop && PhasesOk(f, root, schedule)
    ensures NothingLater(f)
    ensures (Stopped(f, root, schedule, 0, f.journal) && !f.blockB.present)
            || (FirstPassed(f, root, schedule) && Stopped(f, root, schedule, 1, f.journal[20..]))
  {
    hide Under, BlockOk, Passing, Passed, Phase, MainFrom, ConsumerPhase, BlockRuns;
    var j, main := f.journal, MainFrom(f, root, schedule, 0, f.journal).value;
    assert j[0..] == j && main.passed != 2 && main.failed && main.rest == [];
    if main.passed == 0 {
      StoppedMain(f, root, schedule, 0, j);
    } else {
      FirstMain(f, root, schedule);
      PassedMore(f, root, schedule, 1, j[20..]);
      PassedAtMostTwo(f, root, schedule, 1, j[20..]);
      StoppedMain(f, root, schedule, 1, j[20..]);
    }
  }

  lemma {:induction false} PassedAtMostTwo(f: Followup, root: Path, schedule: Schedule, index: nat, rest: seq<Attempt>)
    requires index <= 2
    ensures var main := MainFrom(f, root, schedule, index, rest); main.Some? ==> main.value.passed <= 2
    decreases 2 - index
  {
    hide BlockOk, SummaryOk, Passing, BlockName, BlockDatabase, Phase;
    if index < 2 {
      PassedAtMostTwo(f, root, schedule, index + 1, rest[|Phase(rest, root + [BlockName(index)])|..]);
    }
  }

  lemma {:induction false} StoppedMain(f: Followup, root: Path, schedule: Schedule, index: nat, rest: seq<Attempt>)
    requires index < 2 && f.status != ValidationStop
    requires var main := MainFrom(f, root, schedule, index, rest);
             main.Some? && main.value.passed == index && main.value.failed && main.value.rest == []
    ensures Stopped(f, root, schedule, index, rest)
  {
    hide Under, BlockOk, Passing, Phase;
    FailedMain(f, root, schedule, index, rest);
    if index < 2 && !SummaryOk(f, index) {
      assert false;
    }
  }

  lemma {:induction false} FirstMain(f: Followup, root: Path, schedule: Schedule)
    requires f.status != ValidationStop
    requires var main := MainFrom(f, root, schedule, 0, f.journal); main.Some? && main.value.passed > 0
    ensures FirstPassed(f, root, schedule)
    ensures MainFrom(f, root, schedule, 0, f.journal) == MainFrom(f, root, schedule, 1, f.journal[20..])
  {
    hide Under, BlockOk, Passing, WholeBlock;
    var j, block, path, database := f.journal, f.blockA.block, root + ["block-a"], root + ["block-a.sqlite3"];
    PassedAt(f, root, schedule, 0, j);
    PassingIs(block);
    PassingBlockExactly(block, path, database, schedule, Phase(j, path));
    WholeBlockSize(block, path, database, schedule, Phase(j, path));
    assert Phase(j, path) == j[..20];
  }

  // ---- Studies that end after their main blocks ----

  /** Both main blocks passed with the first forty attempts, and block B was published. */
  ghost predicate BothPassed(f: Followup, root: Path, schedule: Schedule) {
    && |f.journal| > 40 && FirstPassed(f, root, schedule)
    && f.blockB.frozenExists && Summarised(f, 1) && f.accepted && f.publication
    && Passed(f.blockB.block, root + ["block-b"], root + ["block-b.sqlite3"], schedule, f.journal[20..40])
  }

  lemma {:induction false} BothSteps(f: Followup, root: Path, schedule: Schedule)
    requires f.status != ValidationStop && BothPassed(f, root, schedule)
    requires Under(f.journal[40].output, root + ["consumer"])
    ensures MainFrom(f, root, schedule, 0, f.journal) == Some(Main(2, false, f.journal[40..]))
  {
    hide Under, Passed, MainFrom;
    var j := f.journal;
    NamesDiffer();
    PassedUnder(f.blockB.block, root + ["block-b"], root + ["block-b.sqlite3"], schedule, j[20..40]);
    assert j[20] == j[20..40][0];
    Elsewhere(root, "block-a", "block-b", j[20].output);
    FirstStep(f, root, schedule);
    Elsewhere(root, "block-b", "consumer", j[40].output);
    assert j[20..][..20] == j[20..40] && j[20..][20] == j[40] && j[20..][20..] == j[40..];
    assert f.summaries[1] == Summary(BlockName(1), BlockAt(f, 1).block.status, true);
    WholeBlockStep(f, root, schedule, 1, j[20..]);
    MainDone(f, root, schedule, j[40..]);
  }

  lemma {:induction false} BothParts(f: Followup, root: Path, schedule: Schedule)
    requires f.status != ValidationStop && f.accepted && f.publication && |f.journal| > 40
    requires var main := MainFrom(f, root, schedule, 0, f.journal); main.Some? && main.value.passed == 2
    ensures BothPassed(f, root, schedule)
  {
    hide Under, BlockOk, WholeBlock, Passed, Phase, MainFrom, Passing;
    var j := f.journal;
    FirstMain(f, root, schedule);
    var path, database := root + ["block-b"], root + ["block-b.sqlite3"];
    PassedAt(f, root, schedule, 1, j[20..]);
    PassingIs(f.blockB.block);
    PassedPhase(f, root, schedule, Phase(j[20..], path));
    assert Phase(j[20..], path) == j[20..40];
    SummaryNeeded(f, root, schedule, 1, j[20..]);
  }

  lemma {:induction false} PassedPhase(f: Followup, root: Path, schedule: Schedule, entries: seq<Attempt>)
    requires BlockOk(f.blockB.block, root + ["block-b"], root + ["block-b.sqlite3"], schedule, entries)
    requires f.blockB.block.status == PassMeasurement || f.blockB.block.status == PassStockFallback
    ensures Passed(f.blockB.block, root + ["block-b"], root + ["block-b.sqlite3"], schedule, entries) && |entries| == 20
  {
    hide BlockOk;
    PassingBlockExactly(f.blockB.block, root + ["block-b"], root + ["block-b.sqlite3"], schedule, entries);
  }

  lemma {:induction false} SummaryNeeded(f: Followup, root: Path, schedule: Schedule, index: nat, rest: seq<Attempt>)
    requires index < 2 && f.status != ValidationStop
    requires var main := MainFrom(f, root, schedule, index, rest); main.Some? && main.value.passed > index
    ensures BlockAt(f, index).frozenExists && Summarised(f, index)
  {
    hide BlockOk, Phase, Passing;
  }

  /** A consumer stop is exactly forty-one attempts: both passing blocks and a consumer that was not accepted. */
  lemma {:induction false} ConsumerStoppedExactly(f: Followup, root: Path, schedule: Schedule)
    requires f.status == ConsumerStop
    ensures PhasesOk(f, root, schedule)
       <==> |f.journal| == 41 && BothPassed(f, root, schedule) && f.consumer.Some?
            && Unconsumed(f.consumer, f.journal[40], root + ["block-b.sqlite3"], root + ["consumer"])
            && !f.transferDir && f.transferSummary == None
  {
    hide Under, Passed, MainFrom, Phase, ConsumerOk, ConsumerAccepted, Unconsumed, BlockRuns, TransferOk, FirstPassed,
      Summarised;
    var j := f.journal;
    if PhasesOk(f, root, schedule) {
      ConsumerStopIsFortyOne(f, root, schedule);
      StoppedConsumer(f, root, schedule);
      BothParts(f, root, schedule);
    }
    if |j| == 41 && BothPassed(f, root, schedule) && f.consumer.Some? {
      UnconsumedExactly(f.consumer, j[40], root + ["block-b.sqlite3"], root + ["consumer"]);
      if Unconsumed(f.consumer, j[40], root + ["block-b.sqlite3"], root + ["consumer"]) {
        UnconsumedPlace(f.consumer, j[40], root + ["block-b.sqlite3"], root + ["consumer"]);
        SelfUnder(root + ["consumer"]);
        BothSteps(f, root, schedule);
        PhaseIs(j[40..], root + ["consumer"], 1);
        assert j[40..][..1] == [j[40]] && j[40..][1..] == [];
      }
    }
  }

  lemma {:induction false} UnconsumedPlace(consumer: Option<Consumer>, a: Attempt, database: Path, output: Path)
    requires Unconsumed(consumer, a, database, output)
    ensures a.output == output
  {
  }

  lemma {:induction false} StoppedConsumer(f: Followup, root: Path, schedule: Schedule)
    requires f.status == ConsumerStop && PhasesOk(f, root, schedule) && |f.journal| == 41
    ensures f.accepted && f.publication && f.consumer.Some? && !f.transferDir && f.transferSummary == None
    ensures Unconsumed(f.consumer, f.journal[40], root + ["block-b.sqlite3"], root + ["consumer"])
    ensures MainFrom(f, root, schedule, 0, f.journal).value.passed == 2
  {
    hide MainFrom, BlockRuns, Phase, ConsumerOk, ConsumerAccepted, TransferOk, Unconsumed;
    ReachedMain(f, root, schedule);
    var rest := f.journal[40..];
    ConsumerRan(f, root, schedule, rest);
    assert rest[..1][0] == f.journal[40];
    UnconsumedExactly(f.consumer, f.journal[40], root + ["block-b.sqlite3"], root + ["consumer"]);
  }

  lemma {:induction false} ReachedMain(f: Followup, root: Path, schedule: Schedule)
    requires |f.journal| > 40 && PhasesOk(f, root, schedule) && (f.status == ConsumerStop || f.status == TransferStop)
    ensures var main := MainFrom(f, root, schedule, 0, f.journal);
            main.Some? && main.value.passed == 2 && main.value.rest == f.journal[40..] && f.accepted
  {
    hide MainFrom, ConsumerPhase, BlockRuns;
    BothBlocks(f, root, schedule);
  }

  /**
   A transfer stop is exactly both passing blocks, an accepted consumer, and a transfer that takes the rest
   of the journal, is accepted and did not succeed.
   */
  lemma {:induction false} TransferStoppedExactly(f: Followup, root: Path, schedule: Schedule)
    requires f.status == TransferStop
    ensures PhasesOk(f, root, schedule)
       <==> BothPassed(f, root, schedule)
            && Consumed(f.consumer, f.journal[40], root + ["block-b.sqlite3"], root + ["consumer"])
            && f.transferFrozen && f.transfer.status != PassUtilityProduct
            && f.transferSummary == Some(TransferSummary(f.transfer.status, true))
            && TransferOk(f.transfer, root + ["transfer", "utility"], root + ["transfer", "utility.sqlite3"], schedule,
                          f.journal[41..])
  {
    hide Under, Passed, MainFrom, Phase, ConsumerOk, ConsumerAccepted, Consumed, BlockRuns, TransferOk, FirstPassed,
      Summarised;
    var j, nested, database := f.journal, root + ["transfer", "utility"], root + ["transfer", "utility.sqlite3"];
    if PhasesOk(f, root, schedule) {
      TransferTakesTheRest(f, root, schedule);
      StoppedTransfer(f, root, schedule);
      BothParts(f, root, schedule);
    }
    if BothPassed(f, root, schedule) && Consumed(f.consumer, j[40], root + ["block-b.sqlite3"], root + ["consumer"])
      && TransferOk(f.transfer, nested, database, schedule, j[41..]) {
      ConsumedExactly(f.consumer, j[40], root + ["block-b.sqlite3"], root + ["consumer"]);
      ConsumerPlace(f.consumer, j[40], root + ["block-b.sqlite3"], root + ["consumer"]);
      SelfUnder(root + ["consumer"]);
      BothSteps(f, root, schedule);
      NamesDiffer();
      var inner := j[41..];
      TransferUnder(f.transfer, nested, database, schedule, inner);
      if inner != [] {
        assert j[41] == inner[0];
        InTransfer(root, j[41].output);
        Elsewhere(root, "consumer", "transfer", j[41].output);
      }
      PhaseIs(j[40..], root + ["consumer"], 1);
      assert j[40..][..1] == [j[40]] && j[40..][1..] == inner;
      PhaseIs(inner, nested, |inner|);
      assert inner[..|inner|] == inner && inner[|inner|..] == [];
    }
  }

  lemma {:induction false} StoppedTransfer(f: Followup, root: Path, schedule: Schedule)
    requires f.status == TransferStop && PhasesOk(f, root, schedule) && |f.journal| > 40
    ensures f.accepted && f.publication && f.transferFrozen
    ensures Consumed(f.consumer, f.journal[40], root + ["block-b.sqlite3"], root + ["consumer"])
    ensures f.transferSummary == Some(TransferSummary(f.transfer.status, true))
    ensures MainFrom(f, root, schedule, 0, f.journal).Some?
      && MainFrom(f, root, schedule, 0, f.journal).value.passed == 2
  {
    hide MainFrom, BlockRuns, Phase, ConsumerOk, ConsumerAccepted, TransferOk, Consumed;
    ReachedMain(f, root, schedule);
    var rest := f.journal[40..];
    ConsumerRan(f, root, schedule, rest);
    assert rest[..1][0] == f.journal[40];
    ConsumedExactly(f.consumer, f.journal[40], root + ["block-b.sqlite3"], root + ["consumer"]);
  }

  lemma {:induction false} TransferUnder(t: Transfer, nested: Path, database: Path, schedule: Schedule,
                                         entries: seq<Attempt>)
    requires TransferOk(t, nested, database, schedule, entries)
    ensures forall i :: 0 <= i < |entries| ==> Under(entries[i].output, nested)
  {
    hide TransferOk;
    var r, k := AcceptedIsCut(t, nested, database, schedule, entries);
    forall i | 0 <= i < |entries|
      ensures Under(entries[i].output, nested)
    {
      assert nested <= nested + ["raw"] && nested <= nested + ["product"] && nested <= nested + ["consumer"];
    }
  }
}
