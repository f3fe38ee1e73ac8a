/** Reconstruction of one paired block, one consumer run and one transfer study from journal entries. */
module StudyBlocks {
  import opened Trace
  import opened StudyJournal

  const PAIRS: nat := 10
  const BLOCK_RUNS: nat := 20
  const RAW_RUNS: nat := 86
  const TRANSFER_RUNS: nat := 107

  datatype Arm = Direct | Sealed

  /** For each of the ten pairs, whether the direct arm runs first. */
  type Schedule = s: seq<bool> | |s| == PAIRS witness seq(PAIRS, i => true)

  function ArmAt(schedule: Schedule, index: nat): Arm
    requires index < BLOCK_RUNS
  {
    if schedule[index / 2] == (index % 2 == 0) then Direct else Sealed
  }

  const DIGITS: string := "0123456789"

  function Two(n: nat): string
    requires n < 100
  {
    [DIGITS[n / 10], DIGITS[n % 10]]
  }

  function ArmName(arm: Arm): string {
    if arm == Direct then "direct" else "sealed"
  }

  function PairLabel(schedule: Schedule, index: nat): string
    requires index < BLOCK_RUNS
  {
    "pair-" + Two(index / 2) + "-" + ArmName(ArmAt(schedule, index))
  }

  function StatusText(s: Status): string {
    match s
    case Waiting => "waiting"
    case Attempting => "attempting"
    case Raised => "exception"
    case Finished(outcome) => outcome
  }

  predicate IsMeasured(a: Attempt) {
    StatusText(a.status) == MEASURED
  }

  // ---- Entries and outcomes ----

  predicate Matches(a: Attempt, output: Path, database: Path, stage: string, outcome: Option<Outcome>) {
    && a.output == output && a.database == database && a.stage == stage
    && (outcome.Some? ==>
          StatusText(a.status) == outcome.value.status && a.measurementId == outcome.value.measurementId)
  }

  function OutcomeAt(outcomes: seq<Outcome>, i: nat): Option<Outcome> {
    if i < |outcomes| then Some(outcomes[i]) else None
  }

  // ---- A block of ten pairs ----

  datatype BlockStatus = PassMeasurement | PassStockFallback | BlockRunning | BlockValidationStop
    | BlockEnvironmentBlocked | Inconclusive | OtherBlock

  /** A claimed row; `native` says that its verified measurement has the block's source, settings, tokens and time. */
  datatype BlockRow = BlockRow(pair: nat, arm: Arm, measurementId: string, native: bool)

  /**
   A block report.  `frozen`: its freeze has the registered controls.  `verdict`: what its own verified
   rows evaluate to (None when they cannot be evaluated).  `claims`: the other statistics agree.
   */
  datatype Block = Block(
    status: BlockStatus,
    frozen: bool,
    experiment: string,
    rows: seq<BlockRow>,
    outcomes: seq<Outcome>,
    verdict: Option<BlockStatus>,
    claims: bool)

  function BlockStage(block: Block, schedule: Schedule, index: nat): string
    requires index < BLOCK_RUNS
  {
    "product-" + block.experiment + "-" + Two(index / 2) + "-" + ArmName(ArmAt(schedule, index))
  }

  predicate BlockRowOk(schedule: Schedule, row: BlockRow, a: Attempt, index: nat)
    requires index < BLOCK_RUNS
  {
    && IsMeasured(a) && a.measurementId == Some(row.measurementId)
    && row.pair == index / 2 && row.arm == ArmAt(schedule, index)
    && row.native
  }

  predicate BlockEntryOk(block: Block, root: Path, database: Path, schedule: Schedule, a: Attempt, index: nat)
    requires index < BLOCK_RUNS
  {
    && Matches(a, root + ["raw", PairLabel(schedule, index)], database, BlockStage(block, schedule, index),
      OutcomeAt(block.outcomes, index))
    && if index < |block.rows| then BlockRowOk(schedule, block.rows[index], a, index)
       else IsMeasured(a) ==> block.status == BlockValidationStop || block.status == BlockRunning
  }

  /** A complete block claims what its rows evaluate to; a partial one claims no result. */
  predicate BlockVerdictOk(block: Block) {
    if |block.rows| == BLOCK_RUNS then
      && block.verdict.Some? && block.claims
      && (if block.status == PassStockFallback then block.verdict.value == PassMeasurement
        else block.status == block.verdict.value)
    else block.status == BlockRunning || block.status == BlockValidationStop || block.status == BlockEnvironmentBlocked
  }

  predicate BlockSizesOk(block: Block, entries: seq<Attempt>) {
    && |block.rows| <= |block.outcomes| <= |entries| <= BLOCK_RUNS
    && |entries| <= |block.rows| + 1
  }

  predicate BlockOk(block: Block, root: Path, database: Path, schedule: Schedule, entries: seq<Attempt>) {
    && block.frozen
    && BlockSizesOk(block, entries)
    && (forall i :: 0 <= i < |entries| ==> BlockEntryOk(block, root, database, schedule, entries[i], i))
    && BlockVerdictOk(block)
  }

  predicate Passing(block: Block) {
    block.status == PassMeasurement || block.status == PassStockFallback
  }

  /** None when the block is refused, otherwise whether it passed. */
  method VerifyBlock(block: Block, root: Path, database: Path, schedule: Schedule, entries: seq<Attempt>)
    returns (passed: Option<bool>)
    ensures passed == if BlockOk(block, root, database, schedule, entries) then Some(Passing(block)) else None
  {
    hide Matches, BlockStage, PairLabel, BlockVerdictOk, Passing, IsMeasured, BlockRowOk;
    if !block.frozen || !BlockSizesOk(block, entries) {
      return None;
    }
    var i := 0;
    while i < |entries|
      invariant 0 <= i <= |entries|
      invariant forall j :: 0 <= j < i ==> BlockEntryOk(block, root, database, schedule, entries[j], j)
    {
      var stage := BlockStage(block, schedule, i);
      if !Matches(entries[i], root + ["raw", PairLabel(schedule, i)], database, stage, OutcomeAt(block.outcomes, i)) {
        return None;
      }
      if i >= |block.rows| {
        if IsMeasured(entries[i]) && block.status != BlockValidationStop && block.status != BlockRunning {
          return None;
        }
      } else if !BlockRowOk(schedule, block.rows[i], entries[i], i) {
        return None;
      }
      i := i + 1;
    }
    passed := if BlockVerdictOk(block) then Some(Passing(block)) else None;
  }

  /** A block passes only with all twenty runs, each measured, in the registered directories and order. */
  lemma {:induction false} PassingBlockIsComplete(block: Block, root: Path, database: Path, schedule: Schedule,
                                                  entries: seq<Attempt>)
    requires BlockOk(block, root, database, schedule, entries) && Passing(block)
    ensures |entries| == BLOCK_RUNS && |block.rows| == BLOCK_RUNS
    ensures forall i :: 0 <= i < BLOCK_RUNS ==>
      entries[i].output == root + ["raw", PairLabel(schedule, i)] && IsMeasured(entries[i])
    ensures block.verdict == Some(PassMeasurement)
  {
    hide PairLabel, BlockStage, ArmAt;
    forall i | 0 <= i < |entries|
      ensures entries[i].output == root + ["raw", PairLabel(schedule, i)]
      ensures i < |block.rows| ==> IsMeasured(entries[i])
    {
      assert BlockEntryOk(block, root, database, schedule, entries[i], i);
    }
  }

  // ---- The consumer ----

  datatype Consumer = Consumer(accepted: bool, outcome: Option<Outcome>, measurementId: string, native: bool)

  const CONSUMER_STAGE: string := "accepted-stock-run"

  predicate ConsumerOk(consumer: Option<Consumer>, a: Attempt, database: Path, output: Path) {
    && Matches(a, output, database, CONSUMER_STAGE, if consumer.None? then None else consumer.value.outcome)
    && if ConsumerAccepted(consumer)
       then IsMeasured(a) && a.measurementId == Some(consumer.value.measurementId) && consumer.value.native
       else !IsMeasured(a)
  }

  predicate ConsumerAccepted(consumer: Option<Consumer>) {
    consumer.Some? && consumer.value.accepted
  }

  // ---- The transfer study ----

  datatype TransferStatus =
    | TransferEnvironmentBlocked | TransferValidationStop | NoUtilityGain | VarianceStop | ManualBaselineStop
    | ProductValidationStop | TransferConsumerStop | PassUtilityProduct | OtherTransfer

  datatype TransferRow = TransferRow(name: string, candidate: string, measurementId: string, native: bool)

  /** A registered run: its label and its candidate. */
  datatype Planned = Planned(name: string, candidate: string)

  datatype Selection = Selection(automatic: string, manual: string)

  /**
   The nested report and what lies beside it.  `frozen`: its manifest has the registered protocol.
   `mirrored`: outer and nested journals agree entry by entry.  `claimed`: the selection it names.
   `ranked`: the selection its own screens give.  `utility`: the reconstruction of the utility gate
   agrees.  `gain`: its statistics claim a utility gain.  `published`: the accepted product is valid.
   */
  datatype Transfer = Transfer(
    status: TransferStatus,
    frozen: bool,
    attempts: nat,
    mirrored: bool,
    rows: seq<TransferRow>,
    outcomes: seq<Outcome>,
    experiment: string,
    defaultId: string,
    screens: seq<seq<string>>,
    claimed: Option<Selection>,
    ranked: Selection,
    utility: bool,
    gain: bool,
    product: Option<Block>,
    productAccepted: bool,
    published: bool,
    consumerDir: bool,
    consumer: Option<Consumer>)

  function References(defaultId: string, n: nat): (plan: seq<Planned>)
    requires n <= 100
    ensures |plan| == n
  {
    seq(n, i requires 0 <= i < n => Planned("reference-" + Two(i), defaultId))
  }

  function ScreenBlock(method_: string, block: nat, order: seq<string>): (plan: seq<Planned>)
    requires block < 100
    ensures |plan| == |order|
  {
    seq(|order|, i requires 0 <= i < |order| => Planned(method_ + "-screen-" + Two(block) + "-" + order[i], order[i]))
  }

  function Screens(method_: string, screens: seq<seq<string>>): seq<Planned>
    requires |screens| <= 100
  {
    if screens == [] then []
    else Screens(method_, screens[..|screens| - 1]) + ScreenBlock(method_, |screens| - 1, screens[|screens| - 1])
  }

  function Confirmations(purpose: string, control: string, automatic: string, schedule: Schedule): (plan: seq<Planned>)
    ensures |plan| == BLOCK_RUNS
  {
    seq(BLOCK_RUNS, i requires 0 <= i < BLOCK_RUNS =>
      Planned(purpose + "-" + PairLabel(schedule, i), if ArmAt(schedule, i) == Direct then control else automatic))
  }

  predicate Selecting(t: Transfer) {
    |t.rows| >= 46 && (t.claimed.Some? || |t.rows| > 46)
  }

  /** The registered runs: references, two screens, and once a selection is due its two confirmations. */
  function Registered(t: Transfer, schedule: Schedule): seq<Planned>
    requires |t.screens| <= 100
  {
    References(t.defaultId, 10) + Screens("automatic", t.screens) + Screens("manual", t.screens)
    + if Selecting(t)
      then Confirmations("defaults", t.defaultId, t.ranked.automatic, schedule)
         + Confirmations("manual", t.ranked.manual, t.ranked.automatic, schedule)
      else []
  }

  predicate IsRaw(nested: Path, a: Attempt) {
    |a.output| == |nested| + 2 && nested + ["raw"] <= a.output
  }

  predicate IsProduct(nested: Path, a: Attempt) {
    Under(a.output, nested + ["product"])
  }

  function RawEntries(nested: Path, entries: seq<Attempt>): (raw: seq<Attempt>)
    ensures |raw| <= |entries|
  {
    if entries == [] then []
    else RawEntries(nested, entries[..|entries| - 1]) + if IsRaw(nested, entries[|entries| - 1])
      then [entries[|entries| - 1]] else []
  }

  function ProductEntries(nested: Path, entries: seq<Attempt>): (product: seq<Attempt>)
    ensures |product| <= |entries|
  {
    if entries == [] then []
    else ProductEntries(nested, entries[..|entries| - 1]) + if IsProduct(nested, entries[|entries| - 1])
      then [entries[|entries| - 1]] else []
  }

  function TransferStage(t: Transfer, name: string): string {
    if "manual-pair-" <= name && |name| >= 7 && name[|name| - 7..] == "-sealed" then "confirmation"
    else "utility-" + t.experiment + "-" + name
  }

  predicate RawEntryOk(t: Transfer, nested: Path, database: Path, schedule: Schedule, a: Attempt, i: nat)
    requires |t.screens| <= 100 && i < |Registered(t, schedule)|
  {
    var plan := Registered(t, schedule)[i];
    && Matches(a, nested + ["raw", plan.name], database, TransferStage(t, plan.name), OutcomeAt(t.outcomes, i))
    && (i < |t.rows| ==>
          && t.rows[i].name == plan.name && t.rows[i].candidate == plan.candidate
          && IsMeasured(a) && a.measurementId == Some(t.rows[i].measurementId) && t.rows[i].native)
  }

  predicate RawSizesOk(t: Transfer, schedule: Schedule, raw: seq<Attempt>)
    requires |t.screens| <= 100
  {
    && |t.rows| <= |t.outcomes| <= |raw| <= RAW_RUNS
    && |raw| <= |Registered(t, schedule)|
    && |raw| <= |t.rows| + 1
  }

  predicate RawOk(t: Transfer, nested: Path, database: Path, schedule: Schedule, raw: seq<Attempt>)
    requires |t.screens| <= 100
  {
    && (Selecting(t) ==> t.claimed == Some(t.ranked))
    && RawSizesOk(t, schedule, raw)
    && (forall i :: 0 <= i < |raw| ==> RawEntryOk(t, nested, database, schedule, raw[i], i))
    && if |t.rows| == RAW_RUNS then t.utility
       else t.status == TransferValidationStop || t.status == TransferEnvironmentBlocked
  }

  /** What follows the raw runs: an optional product block and its consumer; the result is the entries they use. */
  function ProductUse(t: Transfer, nested: Path, schedule: Schedule, rest: seq<Attempt>): Option<nat> {
    match t.product
    case None => if t.consumerDir then None else Some(0)
    case Some(block) =>
      var entries := ProductEntries(nested, rest);
      if |t.rows| != RAW_RUNS || !t.gain then None
      else if !BlockOk(block, nested + ["product"], nested + ["product.sqlite3"], schedule, entries) then None
      else if !Passing(block) then (if t.productAccepted || t.consumerDir then None else Some(|entries|))
      else if !t.published then None
      else ConsumerUse(t, nested, rest[|entries|..], |entries|)
  }

  function ConsumerUse(t: Transfer, nested: Path, tail: seq<Attempt>, used: nat): Option<nat> {
    if tail == [] then (if t.status == PassUtilityProduct then None else Some(used))
    else if |tail| == 1 && !ConsumerOk(t.consumer, tail[0], nested + ["product.sqlite3"], nested + ["consumer"])
      then None
    else if (|tail| != 1 || !ConsumerAccepted(t.consumer)) && t.status != TransferConsumerStop
      && t.status != TransferValidationStop then None
    else Some(used + 1)
  }

  predicate TransferOk(t: Transfer, nested: Path, database: Path, schedule: Schedule, entries: seq<Attempt>) {
    && t.frozen && |t.screens| <= 100
    && |entries| == t.attempts && |entries| <= TRANSFER_RUNS && t.mirrored
    && RawOk(t, nested, database, schedule, RawEntries(nested, entries))
    && ProductUse(t, nested, schedule, entries[|RawEntries(nested, entries)|..])
      == Some(|entries| - |RawEntries(nested, entries)|)
    && t.status != OtherTransfer
  }

  method VerifyTransfer(t: Transfer, nested: Path, database: Path, schedule: Schedule, entries: seq<Attempt>)
    returns (ok: bool)
    ensures ok == TransferOk(t, nested, database, schedule, entries)
  {
    hide Matches, ConsumerOk, BlockOk, Registered, RawEntryOk, IsRaw, IsProduct, Passing;
    if !t.frozen || |t.screens| > 100 || |entries| != t.attempts || |entries| > TRANSFER_RUNS || !t.mirrored {
      return false;
    }
    var raw := RawEntries(nested, entries);
    if Selecting(t) && t.claimed != Some(t.ranked) {
      return false;
    }
    if !RawSizesOk(t, schedule, raw) {
      return false;
    }
    var i := 0;
    while i < |raw|
      invariant 0 <= i <= |raw|
      invariant forall j :: 0 <= j < i ==> RawEntryOk(t, nested, database, schedule, raw[j], j)
    {
      if !RawEntryOk(t, nested, database, schedule, raw[i], i) {
        return false;
      }
      i := i + 1;
    }
    if |t.rows| == RAW_RUNS && !t.utility {
      return false;
    }
    if |t.rows| != RAW_RUNS && t.status != TransferValidationStop && t.status != TransferEnvironmentBlocked {
      return false;
    }
    var rest := entries[|raw|..];
    var offset := |raw|;
    if t.product.Some? {
      if |t.rows| != RAW_RUNS || !t.gain {
        return false;
      }
      var block := ProductEntries(nested, rest);
      var passed := VerifyBlock(t.product.value, nested + ["product"], nested + ["product.sqlite3"], schedule, block);
      if passed.None? {
        return false;
      }
      offset := offset + |block|;
      if passed.value {
        if !t.published {
          return false;
        }
        if offset < |entries| {
          var one := offset + 1 == |entries|;
          if one && !ConsumerOk(t.consumer, entries[offset], nested + ["product.sqlite3"], nested + ["consumer"]) {
            return false;
          }
          if (!one || !ConsumerAccepted(t.consumer)) && t.status != TransferConsumerStop
            && t.status != TransferValidationStop {
            return false;
          }
          offset := offset + 1;
        } else if t.status == PassUtilityProduct {
          return false;
        }
      } else if t.productAccepted || t.consumerDir {
        return false;
      }
    } else if t.consumerDir {
      return false;
    }
    ok := offset == |entries| && t.status != OtherTransfer;
  }

  // ---- Order without an order check ----

  lemma {:induction false} RawConcat(nested: Path, a: seq<Attempt>, b: seq<Attempt>)
    ensures RawEntries(nested, a + b) == RawEntries(nested, a) + RawEntries(nested, b)
  {
    hide IsRaw;
    if b == [] {
      assert a + b == a;
    } else {
      var n := |b| - 1;
      assert (a + b)[..|a + b| - 1] == a + b[..n];
      RawConcat(nested, a, b[..n]);
    }
  }

  lemma {:induction false} AllRaw(nested: Path, entries: seq<Attempt>)
    requires |RawEntries(nested, entries)| == |entries|
    ensures RawEntries(nested, entries) == entries
    ensures forall i :: 0 <= i < |entries| ==> IsRaw(nested, entries[i])
  {
    hide IsRaw;
    if entries != [] {
      AllRaw(nested, entries[..|entries| - 1]);
    }
  }

  lemma {:induction false} NoRaw(nested: Path, entries: seq<Attempt>)
    requires forall i :: 0 <= i < |entries| ==> !IsRaw(nested, entries[i])
    ensures RawEntries(nested, entries) == []
  {
    hide IsRaw;
    if entries != [] {
      NoRaw(nested, entries[..|entries| - 1]);
    }
  }

  lemma {:induction false} AllProduct(nested: Path, entries: seq<Attempt>)
    requires |ProductEntries(nested, entries)| == |entries|
    ensures ProductEntries(nested, entries) == entries
    ensures forall i :: 0 <= i < |entries| ==> IsProduct(nested, entries[i])
  {
    hide IsProduct;
    if entries != [] {
      AllProduct(nested, entries[..|entries| - 1]);
    }
  }

  lemma {:induction false} DirectoriesDiffer(nested: Path, a: Attempt)
    ensures IsProduct(nested, a) ==> !IsRaw(nested, a)
    ensures a.output == nested + ["consumer"] ==> !IsProduct(nested, a) && !IsRaw(nested, a)
  {
    NextComponent(nested, "product", a.output);
    NextComponent(nested, "raw", a.output);
    NextComponent(nested, "consumer", a.output);
  }

  lemma {:induction false} NextComponent(nested: Path, name: string, path: Path)
    ensures nested + [name] <= path ==> |path| > |nested| && path[|nested|] == name && |path[|nested|]| == |name|
  {
    assert (nested + [name])[|nested|] == name;
  }

  /** The tail of a transfer: product runs, then at most one consumer run. */
  ghost predicate ProductTail(nested: Path, rest: seq<Attempt>, k: nat) {
    && k <= |rest| <= k + 1
    && (forall i :: 0 <= i < k ==> IsProduct(nested, rest[i]))
    && (k < |rest| ==> rest[k].output == nested + ["consumer"])
  }

  lemma {:induction false} TailIsOrdered(t: Transfer, nested: Path, schedule: Schedule, rest: seq<Attempt>)
    returns (k: nat)
    requires ProductUse(t, nested, schedule, rest) == Some(|rest|)
    ensures ProductTail(nested, rest, k) && k == |ProductEntries(nested, rest)|
    ensures k < |rest| ==> t.product.Some? && Passing(t.product.value)
  {
    hide BlockOk, Passing, IsProduct;
    k := |ProductEntries(nested, rest)|;
    if t.product.None? {
      assert rest == [];
    } else if k == |rest| {
      AllProduct(nested, rest);
    } else {
      var n := |rest| - 1;
      assert rest[k..] == [rest[n]];
      assert rest[n].output == nested + ["consumer"];
      DirectoriesDiffer(nested, rest[n]);
      AllProduct(nested, rest[..n]);
    }
  }

  /**
   The reconstruction only filters the transfer's entries by directory, yet every journal it accepts
   lists all raw runs first, then all product runs, then at most one consumer run.
   */
  lemma {:induction false} TransferIsOrdered(t: Transfer, nested: Path, database: Path, schedule: Schedule,
                                             entries: seq<Attempt>)
    returns (r: nat, k: nat)
    requires TransferOk(t, nested, database, schedule, entries)
    ensures r == |RawEntries(nested, entries)| <= |entries| && RawEntries(nested, entries) == entries[..r]
    ensures forall i :: 0 <= i < r ==> IsRaw(nested, entries[i])
    ensures ProductTail(nested, entries[r..], k) && k == |ProductEntries(nested, entries[r..])|
    ensures r + k < |entries| ==> t.product.Some? && Passing(t.product.value)
  {
    hide BlockOk, RawOk, Passing, IsRaw, IsProduct;
    r := |RawEntries(nested, entries)|;
    var rest := entries[r..];
    k := TailIsOrdered(t, nested, schedule, rest);
    forall i | 0 <= i < |rest|
      ensures !IsRaw(nested, rest[i])
    {
      DirectoriesDiffer(nested, rest[i]);
    }
    NoRaw(nested, rest);
    assert entries == entries[..r] + rest;
    RawConcat(nested, entries[..r], rest);
    AllRaw(nested, entries[..r]);
  }

  /**
   A transfer that claims success with all of its 107 runs holds exactly 86 raw runs, 20 product runs
   and one consumer run, in this order and in the registered directories.
   */
  lemma {:induction false} SuccessfulTransferIsComplete(t: Transfer, nested: Path, database: Path, schedule: Schedule,
                                                        entries: seq<Attempt>)
    requires TransferOk(t, nested, database, schedule, entries)
    requires t.status == PassUtilityProduct && |entries| == TRANSFER_RUNS
    ensures |t.screens| <= 100 && |Registered(t, schedule)| >= RAW_RUNS
    ensures forall i :: 0 <= i < RAW_RUNS ==>
      entries[i].output == nested + ["raw", Registered(t, schedule)[i].name] && IsMeasured(entries[i])
    ensures forall i :: 0 <= i < BLOCK_RUNS ==>
      entries[RAW_RUNS + i].output == nested + ["product", "raw", PairLabel(schedule, i)] &&
      IsMeasured(entries[RAW_RUNS + i])
    ensures entries[RAW_RUNS + BLOCK_RUNS].output == nested + ["consumer"] && IsMeasured(entries[RAW_RUNS + BLOCK_RUNS])
  {
    hide BlockOk, Passing, IsRaw, IsProduct, RawEntryOk, IsMeasured, Matches, Registered, PairLabel;
    var r, k := TransferIsOrdered(t, nested, database, schedule, entries);
    var raw := RawEntries(nested, entries);
    assert r == RAW_RUNS == |t.rows|;
    forall i | 0 <= i < RAW_RUNS
      ensures entries[i].output == nested + ["raw", Registered(t, schedule)[i].name] && IsMeasured(entries[i])
    {
      assert raw[i] == entries[i];
      RawEntryFacts(t, nested, database, schedule, raw[i], i);
    }
    var rest := entries[r..];
    var product := ProductEntries(nested, rest);
    assert t.product.Some?;
    var block := t.product.value;
    assert k <= BLOCK_RUNS by {
      BlockFits(block, nested + ["product"], nested + ["product.sqlite3"], schedule, product);
    }
    assert |rest| == BLOCK_RUNS + 1 && k == BLOCK_RUNS;
    PassingBlockIsComplete(block, nested + ["product"], nested + ["product.sqlite3"], schedule, product);
    ProductPrefix(nested, rest, k);
    forall i | 0 <= i < BLOCK_RUNS
      ensures entries[RAW_RUNS + i].output == nested + ["product", "raw", PairLabel(schedule, i)]
        && IsMeasured(entries[RAW_RUNS + i])
    {
      assert product[i] == rest[i] == entries[RAW_RUNS + i];
      assert nested + ["product"] + ["raw", PairLabel(schedule, i)]
        == nested + ["product", "raw", PairLabel(schedule, i)];
    }
    assert rest[k..] == [rest[k]] && rest[k] == entries[RAW_RUNS + BLOCK_RUNS];
    LastIsConsumer(t, nested, schedule, rest);
  }

  lemma {:induction false} RawEntryFacts(t: Transfer, nested: Path, database: Path, schedule: Schedule, a: Attempt,
                                         i: nat)
    requires |t.screens| <= 100 && i < |Registered(t, schedule)| && i < |t.rows|
    requires RawEntryOk(t, nested, database, schedule, a, i)
    ensures a.output == nested + ["raw", Registered(t, schedule)[i].name] && IsMeasured(a)
  {
    hide Registered, TransferStage;
  }

  lemma {:induction false} BlockFits(block: Block, root: Path, database: Path, schedule: Schedule,
                                     entries: seq<Attempt>)
    requires BlockOk(block, root, database, schedule, entries)
    ensures |entries| <= BLOCK_RUNS
  {
  }

  lemma {:induction false} ProductPrefix(nested: Path, rest: seq<Attempt>, k: nat)
    requires ProductTail(nested, rest, k) && k == |ProductEntries(nested, rest)|
    ensures ProductEntries(nested, rest) == rest[..k]
  {
    hide IsProduct;
    if k < |rest| {
      DirectoriesDiffer(nested, rest[k]);
      assert rest[..k] == rest[..|rest| - 1];
      AllProduct(nested, rest[..k]);
    } else {
      AllProduct(nested, rest);
      assert rest[..k] == rest;
    }
  }

  lemma {:induction false} LastIsConsumer(t: Transfer, nested: Path, schedule: Schedule, rest: seq<Attempt>)
    requires ProductUse(t, nested, schedule, rest) == Some(|rest|) && t.status == PassUtilityProduct
    requires |ProductEntries(nested, rest)| + 1 == |rest|
    ensures rest[|rest| - 1].output == nested + ["consumer"] && IsMeasured(rest[|rest| - 1])
  {
    hide BlockOk, IsProduct, IsMeasured;
    var k := |ProductEntries(nested, rest)|;
    assert rest[k..] == [rest[k]];
  }
}
