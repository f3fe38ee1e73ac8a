/**
 The registered order of runs, in terms of the schedule, the screens and the selection alone: names are
 spelled out, and which arm of a pair runs first is what the schedule says.
 */
module StudyOrder {
  import opened Trace
  import opened StudyJournal
  import opened StudyBlocks

  const ONES: string := "0123456789"

  /** The name of an arm of pair p behind "pair". */
  function Suffix(p: nat, arm: Arm): string
    requires p < PAIRS
  {
    "-0" + [ONES[p]] + if arm == Direct then "-direct" else "-sealed"
  }

  function Label(p: nat, arm: Arm): string
    requires p < PAIRS
  {
    "pair" + Suffix(p, arm)
  }

  function Other(arm: Arm): Arm {
    if arm == Direct then Sealed else Direct
  }

  function FirstArm(schedule: Schedule, p: nat): Arm
    requires p < PAIRS
  {
    if schedule[p] then Direct else Sealed
  }

  /** The arm that runs at a place of a block: the pair's first arm, then the other one. */
  lemma {:induction false} ArmsFollowTheSchedule(schedule: Schedule, p: nat)
    requires p < PAIRS
    ensures ArmAt(schedule, 2 * p) == FirstArm(schedule, p)
      && ArmAt(schedule, 2 * p + 1) == Other(FirstArm(schedule, p))
  {
  }

  lemma {:induction false} NameIs(p: nat, arm: Arm)
    requires p < PAIRS
    ensures "pair-" + Two(p) + "-" + ArmName(arm) == Label(p, arm)
    ensures "-" + Two(p) + "-" + ArmName(arm) == Suffix(p, arm)
  {
    var name := if arm == Direct then "direct" else "sealed";
    assert Two(p) == "0" + [ONES[p]];
    assert "-" + ("0" + [ONES[p]]) + "-" + name == "-0" + [ONES[p]] + ("-" + name);
    assert "pair-" + Two(p) + "-" + name == "pair" + ("-" + Two(p) + "-" + name);
    assert "-" + "direct" == "-direct" && "-" + "sealed" == "-sealed";
  }

  /** And its label. */
  lemma {:induction false} LabelsFollowTheSchedule(schedule: Schedule, p: nat)
    requires p < PAIRS
    ensures PairLabel(schedule, 2 * p) == Label(p, FirstArm(schedule, p))
    ensures PairLabel(schedule, 2 * p + 1) == Label(p, Other(FirstArm(schedule, p)))
  {
    hide Two, ArmName, Label, ArmAt;
    ArmsFollowTheSchedule(schedule, p);
    NameIs(p, FirstArm(schedule, p));
    NameIs(p, Other(FirstArm(schedule, p)));
  }

  // ---- A passing block ----

  /** Run i of a block is the given arm of pair p: its directory, stage, outcome and row say so. */
  predicate IsRun(block: Block, root: Path, database: Path, entries: seq<Attempt>, i: nat, p: nat, arm: Arm)
    requires p < PAIRS && i < |entries| == |block.rows| == |block.outcomes|
  {
    && entries[i].output == root + ["raw", Label(p, arm)] && entries[i].database == database
    && entries[i].stage == "product-" + block.experiment + Suffix(p, arm)
    && entries[i].status == Finished("measured") && block.outcomes[i].status == "measured"
    && entries[i].measurementId == block.outcomes[i].measurementId == Some(block.rows[i].measurementId)
    && block.rows[i].pair == p && block.rows[i].arm == arm && block.rows[i].native
  }

  /** Pair p of a block: the arm that the schedule names first, then the other. */
  predicate IsPair(block: Block, root: Path, database: Path, schedule: Schedule, entries: seq<Attempt>, p: nat)
    requires p < PAIRS && |entries| == |block.rows| == |block.outcomes| == BLOCK_RUNS
  {
    && IsRun(block, root, database, entries, 2 * p, p, FirstArm(schedule, p))
    && IsRun(block, root, database, entries, 2 * p + 1, p, Other(FirstArm(schedule, p)))
  }

  ghost predicate WholeBlock(block: Block, root: Path, database: Path, schedule: Schedule, entries: seq<Attempt>) {
    && |entries| == |block.rows| == |block.outcomes| == BLOCK_RUNS
    && forall p :: 0 <= p < PAIRS ==> IsPair(block, root, database, schedule, entries, p)
  }

  lemma {:induction false} EntryIsRun(block: Block, root: Path, database: Path, schedule: Schedule,
                                      entries: seq<Attempt>, i: nat, p: nat, arm: Arm)
    requires i < |entries| == |block.rows| == |block.outcomes| == BLOCK_RUNS && p < PAIRS && p == i / 2
    requires ArmAt(schedule, i) == arm && PairLabel(schedule, i) == Label(p, arm)
    ensures BlockEntryOk(block, root, database, schedule, entries[i], i)
       <==> IsRun(block, root, database, entries, i, p, arm)
  {
    hide PairLabel, ArmAt, Label, Suffix, Two, ArmName;
    NameIs(p, arm);
    assert "product-" + block.experiment + "-" + Two(p) + "-" + ArmName(arm)
        == "product-" + block.experiment + ("-" + Two(p) + "-" + ArmName(arm));
    MeasuredText(entries[i].status);
  }

  lemma {:induction false} MeasuredText(s: Status)
    ensures StatusText(s) == "measured" <==> s == Finished("measured")
  {
    assert |"waiting"| == 7 && |"measured"| == 8 && |"attempting"| == 10 && |"exception"| == 9;
  }

  /**
   A block passes exactly when it is frozen as registered, claims a passing verdict that its rows
   evaluate to, and holds its ten pairs of measured runs in the order of the schedule.
   */
  lemma {:induction false} PassingBlockExactly(block: Block, root: Path, database: Path, schedule: Schedule,
                                               entries: seq<Attempt>)
    ensures BlockOk(block, root, database, schedule, entries)
            && (block.status == PassMeasurement || block.status == PassStockFallback)
       <==> (block.status == PassMeasurement || block.status == PassStockFallback)
            && block.frozen && block.claims && block.verdict == Some(PassMeasurement)
            && WholeBlock(block, root, database, schedule, entries)
  {
    hide BlockEntryOk, IsRun, ArmAt, PairLabel;
    if |entries| == |block.rows| == |block.outcomes| == BLOCK_RUNS {
      forall p | 0 <= p < PAIRS
        ensures BlockEntryOk(block, root, database, schedule, entries[2 * p], 2 * p)
                && BlockEntryOk(block, root, database, schedule, entries[2 * p + 1], 2 * p + 1)
           <==> IsPair(block, root, database, schedule, entries, p)
      {
        ArmsFollowTheSchedule(schedule, p);
        LabelsFollowTheSchedule(schedule, p);
        EntryIsRun(block, root, database, schedule, entries, 2 * p, p, FirstArm(schedule, p));
        EntryIsRun(block, root, database, schedule, entries, 2 * p + 1, p, Other(FirstArm(schedule, p)));
      }
      if WholeBlock(block, root, database, schedule, entries) {
        forall i | 0 <= i < BLOCK_RUNS
          ensures BlockEntryOk(block, root, database, schedule, entries[i], i)
        {
          assert IsPair(block, root, database, schedule, entries, i / 2);
          assert i == 2 * (i / 2) || i == 2 * (i / 2) + 1;
        }
      }
    }
  }

  // ---- The registered runs of the transfer ----

  /** How many runs the first n screening blocks hold. */
  function Before(screens: seq<seq<string>>, n: nat): nat
    requires n <= |screens|
  {
    if n == 0 then 0 else Before(screens, n - 1) + |screens[n - 1]|
  }

  function ScreenName(kind: string, b: nat, candidate: string): string
    requires b < 100
  {
    kind + "-screen-" + [ONES[b / 10], ONES[b % 10]] + "-" + candidate
  }

  /** A confirmation of pair p: the direct arm runs the control, the sealed arm the automatic choice. */
  function Confirmation(purpose: string, control: string, automatic: string, p: nat, arm: Arm): Planned
    requires p < PAIRS
  {
    Planned(purpose + "-" + Label(p, arm), if arm == Direct then control else automatic)
  }

  lemma {:induction false} ScreensAt(kind: string, screens: seq<seq<string>>, b: nat, j: nat)
    requires b < |screens| <= 100 && j < |screens[b]|
    ensures |Screens(kind, screens)| == Before(screens, |screens|) && Before(screens, b) + j < |Screens(kind, screens)|
    ensures Screens(kind, screens)[Before(screens, b) + j]
         == Planned(ScreenName(kind, b, screens[b][j]), screens[b][j])
  {
    hide ScreenBlock;
    var n := |screens| - 1;
    ScreensSize(kind, screens);
    ScreensSize(kind, screens[..n]);
    BeforePrefix(screens, n);
    ScreenAt(kind, n, screens[n]);
    if b < n {
      BeforePrefixAt(screens, n, b);
      ScreensAt(kind, screens[..n], b, j);
    }
  }

  lemma {:induction false} ScreenAt(kind: string, b: nat, order: seq<string>)
    requires b < 100
    ensures forall j :: 0 <= j < |order| ==>
      ScreenBlock(kind, b, order)[j] == Planned(ScreenName(kind, b, order[j]), order[j])
  {
    assert Two(b) == [ONES[b / 10], ONES[b % 10]];
  }

  lemma {:induction false} ScreensSize(kind: string, screens: seq<seq<string>>)
    requires |screens| <= 100
    ensures |Screens(kind, screens)| == Before(screens, |screens|)
  {
    if screens != [] {
      var n := |screens| - 1;
      ScreensSize(kind, screens[..n]);
      BeforePrefix(screens, n);
    }
  }

  lemma {:induction false} BeforePrefix(screens: seq<seq<string>>, n: nat)
    requires n <= |screens|
    ensures Before(screens[..n], n) == Before(screens, n)
  {
    BeforePrefixAt(screens, n, n);
  }

  lemma {:induction false} BeforePrefixAt(screens: seq<seq<string>>, n: nat, m: nat)
    requires m <= n <= |screens|
    ensures Before(screens[..n], m) == Before(screens, m)
  {
    if m > 0 {
      BeforePrefixAt(screens, n, m - 1);
    }
  }

  lemma {:induction false} ConfirmationsAt(purpose: string, control: string, automatic: string, schedule: Schedule,
                                           p: nat)
    requires p < PAIRS
    ensures var plan, first := Confirmations(purpose, control, automatic, schedule), FirstArm(schedule, p);
            && plan[2 * p] == Confirmation(purpose, control, automatic, p, first)
            && plan[2 * p + 1] == Confirmation(purpose, control, automatic, p, Other(first))
  {
    hide ArmAt, PairLabel, Label;
    ArmsFollowTheSchedule(schedule, p);
    LabelsFollowTheSchedule(schedule, p);
  }

  /** Once 46 rows are in, a selection is due as soon as it is claimed or one more row exists. */
  predicate SelectionDue(t: Transfer) {
    |t.rows| > 46 || (|t.rows| == 46 && t.claimed.Some?)
  }

  /**
   The registered runs: ten references of the default; every screening block's candidates in order, first
   for the automatic and then for the manual choice; and once a selection is due, ten pairs of the default
   against the automatic choice and ten of the manual against the automatic choice.
   */
  ghost predicate RegisteredRuns(t: Transfer, schedule: Schedule, plan: seq<Planned>)
    requires |t.screens| <= 100
  {
    var all := Before(t.screens, |t.screens|);
    && |plan| == 10 + 2 * all + (if SelectionDue(t) then 40 else 0)
    && (forall i :: 0 <= i < 10 ==> plan[i] == Planned("reference-0" + [ONES[i]], t.defaultId))
    && (forall b, j :: 0 <= b < |t.screens| && 0 <= j < |t.screens[b]| ==> ScreenedAt(t, plan, b, j))
    && (SelectionDue(t) ==> forall p :: 0 <= p < PAIRS ==> ConfirmedAt(t, schedule, plan, p))
  }

  ghost predicate ScreenedAt(t: Transfer, plan: seq<Planned>, b: nat, j: nat)
    requires b < |t.screens| <= 100 && j < |t.screens[b]|
  {
    var all, at, candidate := Before(t.screens, |t.screens|), Before(t.screens, b) + j, t.screens[b][j];
    && 10 + all + at < |plan|
    && plan[10 + at] == Planned(ScreenName("automatic", b, candidate), candidate)
    && plan[10 + all + at] == Planned(ScreenName("manual", b, candidate), candidate)
  }

  ghost predicate ConfirmedAt(t: Transfer, schedule: Schedule, plan: seq<Planned>, p: nat)
    requires p < PAIRS
  {
    var from, first := 10 + 2 * Before(t.screens, |t.screens|), FirstArm(schedule, p);
    && from + 40 <= |plan|
    && plan[from + 2 * p] == Confirmation("defaults", t.defaultId, t.ranked.automatic, p, first)
    && plan[from + 2 * p + 1] == Confirmation("defaults", t.defaultId, t.ranked.automatic, p, Other(first))
    && plan[from + 20 + 2 * p] == Confirmation("manual", t.ranked.manual, t.ranked.automatic, p, first)
    && plan[from + 20 + 2 * p + 1] == Confirmation("manual", t.ranked.manual, t.ranked.automatic, p, Other(first))
  }

  /** The registered runs before a selection is due. */
  function Screened(t: Transfer): seq<Planned>
    requires |t.screens| <= 100
  {
    References(t.defaultId, 10) + Screens("automatic", t.screens) + Screens("manual", t.screens)
  }

  lemma {:induction false} ReferencesAre(t: Transfer, i: nat)
    requires i < 10
    ensures References(t.defaultId, 10)[i] == Planned("reference-0" + [ONES[i]], t.defaultId)
  {
    assert Two(i) == "0" + [ONES[i]];
    assert "reference-" + ("0" + [ONES[i]]) == "reference-0" + [ONES[i]];
  }

  lemma {:induction false} ScreenedIs(t: Transfer, plan: seq<Planned>)
    requires |t.screens| <= 100 && Screened(t) <= plan
    ensures |Screened(t)| == 10 + 2 * Before(t.screens, |t.screens|)
    ensures forall i :: 0 <= i < 10 ==> plan[i] == Planned("reference-0" + [ONES[i]], t.defaultId)
    ensures forall b, j :: 0 <= b < |t.screens| && 0 <= j < |t.screens[b]| ==> ScreenedAt(t, plan, b, j)
  {
    hide Screens, References, ScreenName, Before;
    var all, references := Before(t.screens, |t.screens|), References(t.defaultId, 10);
    var automatic, manual := Screens("automatic", t.screens), Screens("manual", t.screens);
    ScreensSize("automatic", t.screens);
    ScreensSize("manual", t.screens);
    TenReferences(t);
    forall i | 0 <= i < 10
      ensures plan[i] == Planned("reference-0" + [ONES[i]], t.defaultId)
    {
      ReferencesAre(t, i);
      assert Screened(t)[i] == references[i];
    }
    forall b, j | 0 <= b < |t.screens| && 0 <= j < |t.screens[b]|
      ensures ScreenedAt(t, plan, b, j)
    {
      ScreensAt("automatic", t.screens, b, j);
      ScreensAt("manual", t.screens, b, j);
      var at := Before(t.screens, b) + j;
      assert Screened(t)[10 + at] == automatic[at] && Screened(t)[10 + all + at] == manual[at];
    }
  }

  lemma {:induction false} TenReferences(t: Transfer)
    ensures |References(t.defaultId, 10)| == 10
  {
  }

  lemma {:induction false} RegisteredIs(t: Transfer, schedule: Schedule)
    requires |t.screens| <= 100
    ensures RegisteredRuns(t, schedule, Registered(t, schedule))
  {
    hide Screens, References, Confirmations, Before, ScreenedAt, Screened;
    var plan, first := Registered(t, schedule), Screened(t);
    var defaults := Confirmations("defaults", t.defaultId, t.ranked.automatic, schedule);
    var manual := Confirmations("manual", t.ranked.manual, t.ranked.automatic, schedule);
    TwentyConfirmations("defaults", t.defaultId, t.ranked.automatic, schedule);
    TwentyConfirmations("manual", t.ranked.manual, t.ranked.automatic, schedule);
    RegisteredSplits(t, schedule);
    ScreenedIs(t, plan);
    if SelectionDue(t) {
      forall p | 0 <= p < PAIRS
        ensures ConfirmedAt(t, schedule, plan, p)
      {
        ConfirmationsAt("defaults", t.defaultId, t.ranked.automatic, schedule, p);
        ConfirmationsAt("manual", t.ranked.manual, t.ranked.automatic, schedule, p);
        assert plan[|first| + 2 * p] == defaults[2 * p] && plan[|first| + 2 * p + 1] == defaults[2 * p + 1];
        assert plan[|first| + 20 + 2 * p] == manual[2 * p] && plan[|first| + 20 + 2 * p + 1] == manual[2 * p + 1];
      }
    }
  }

  lemma {:induction false} TwentyConfirmations(purpose: string, control: string, automatic: string, schedule: Schedule)
    ensures |Confirmations(purpose, control, automatic, schedule)| == 20
  {
  }

  lemma {:induction false} RegisteredSplits(t: Transfer, schedule: Schedule)
    requires |t.screens| <= 100
    ensures Registered(t, schedule)
         == if SelectionDue(t)
            then Screened(t) + Confirmations("defaults", t.defaultId, t.ranked.automatic, schedule)
                 + Confirmations("manual", t.ranked.manual, t.ranked.automatic, schedule)
            else Screened(t)
    ensures Screened(t) <= Registered(t, schedule)
  {
    hide Screens, References, Confirmations;
  }

  /** The runs are registered in exactly one way. */
  lemma {:induction false} PlaceOfRun(t: Transfer, i: nat) returns (b: nat, j: nat)
    requires |t.screens| <= 100 && i < Before(t.screens, |t.screens|)
    ensures b < |t.screens| && j < |t.screens[b]| && i == Before(t.screens, b) + j
  {
    b := PlaceIn(t.screens, i, |t.screens|);
    j := i - Before(t.screens, b);
  }

  lemma {:induction false} PlaceIn(screens: seq<seq<string>>, i: nat, n: nat) returns (b: nat)
    requires n <= |screens| && i < Before(screens, n)
    ensures b < n && Before(screens, b) <= i < Before(screens, b) + |screens[b]|
  {
    if i < Before(screens, n - 1) {
      b := PlaceIn(screens, i, n - 1);
    } else {
      b := n - 1;
    }
  }

  lemma {:induction false} RegisteredUnique(t: Transfer, schedule: Schedule, plan: seq<Planned>)
    requires |t.screens| <= 100 && RegisteredRuns(t, schedule, plan)
    ensures plan == Registered(t, schedule)
  {
    hide Registered, Confirmation, ScreenName, Before;
    RegisteredIs(t, schedule);
    var other, all := Registered(t, schedule), Before(t.screens, |t.screens|);
    forall i | 0 <= i < |plan|
      ensures plan[i] == other[i]
    {
      if 10 <= i < 10 + 2 * all {
        var b, j := PlaceOfRun(t, if i < 10 + all then i - 10 else i - 10 - all);
        assert ScreenedAt(t, plan, b, j) && ScreenedAt(t, other, b, j);
      } else if 10 + 2 * all <= i {
        var k := i - 10 - 2 * all;
        var p := (if k < 20 then k else k - 20) / 2;
        assert ConfirmedAt(t, schedule, plan, p) && ConfirmedAt(t, schedule, other, p);
      }
    }
  }

  // ---- The raw runs of an accepted transfer ----

  /** The sealed arms of the manual pairs are the product's confirmations; every other run is a utility run. */
  lemma {:induction false} StageIs(t: Transfer, name: string)
    ensures |name| >= 19 && name[..12] == "manual-pair-" && name[|name| - 7..] == "-sealed"
            ==> TransferStage(t, name) == "confirmation"
    ensures |name| < 7 || name[|name| - 7..] != "-sealed" || !("manual-pair-" <= name)
            ==> TransferStage(t, name) == "utility-" + t.experiment + "-" + name
  {
    if |name| >= 19 && name[..12] == "manual-pair-" {
      assert "manual-pair-" <= name;
    }
  }

  lemma {:induction false} StagesOfManual(t: Transfer, p: nat, arm: Arm)
    requires p < PAIRS
    ensures TransferStage(t, "manual-" + Label(p, arm))
         == if arm == Sealed then "confirmation" else "utility-" + t.experiment + "-" + ("manual-" + Label(p, arm))
  {
    var name := "manual-" + Label(p, arm);
    var end := if arm == Direct then "-direct" else "-sealed";
    assert name == "manual-pair-0" + [ONES[p]] + end;
    assert name[..12] == "manual-pair-" && name[|name| - 7..] == end;
    hide TransferStage;
    StageIs(t, name);
  }

  lemma {:induction false} StagesOfDefaults(t: Transfer, p: nat, arm: Arm)
    requires p < PAIRS
    ensures TransferStage(t, "defaults-" + Label(p, arm))
         == "utility-" + t.experiment + "-" + ("defaults-" + Label(p, arm))
  {
    assert ("defaults-" + Label(p, arm))[0] == 'd';
  }

  lemma {:induction false} StagesOfScreens(t: Transfer, kind: string, b: nat, candidate: string)
    requires b < 100 && (kind == "automatic" || kind == "manual")
    ensures TransferStage(t, ScreenName(kind, b, candidate))
         == "utility-" + t.experiment + "-" + ScreenName(kind, b, candidate)
  {
    var name := ScreenName(kind, b, candidate);
    if kind == "automatic" {
      assert name[0] == 'a';
    } else {
      assert name[7] == 's' && "manual-pair-"[7] == 'p';
    }
  }

  lemma {:induction false} StagesOfReferences(t: Transfer, i: nat)
    requires i < 10
    ensures TransferStage(t, "reference-0" + [ONES[i]]) == "utility-" + t.experiment + "-" + ("reference-0" + [ONES[i]])
  {
    assert ("reference-0" + [ONES[i]])[0] == 'r';
  }

  /** Raw run i is the planned one, measured, and its row and outcome say so. */
  predicate IsPlanned(t: Transfer, nested: Path, database: Path, raw: seq<Attempt>, i: nat, plan: Planned)
    requires i < |raw| == |t.rows| == |t.outcomes|
  {
    && raw[i].output == nested + ["raw", plan.name] && raw[i].database == database
    && raw[i].stage == TransferStage(t, plan.name)
    && raw[i].status == Finished("measured") && t.outcomes[i].status == "measured"
    && raw[i].measurementId == t.outcomes[i].measurementId == Some(t.rows[i].measurementId)
    && t.rows[i].name == plan.name && t.rows[i].candidate == plan.candidate && t.rows[i].native
  }

  /** With all 86 rows, exactly the registered runs are accepted, in any plan that has their names and order. */
  lemma {:induction false} RawRunsExactly(t: Transfer, nested: Path, database: Path, schedule: Schedule,
                                          raw: seq<Attempt>, plan: seq<Planned>)
    requires |t.screens| <= 100 && |t.rows| == 86 && RegisteredRuns(t, schedule, plan)
    ensures RawOk(t, nested, database, schedule, raw)
       <==> t.claimed == Some(t.ranked) && t.utility && |raw| == |t.outcomes| == 86 <= |plan|
            && forall i :: 0 <= i < 86 ==> IsPlanned(t, nested, database, raw, i, plan[i])
  {
    hide Registered, TransferStage, RegisteredRuns;
    RegisteredUnique(t, schedule, plan);
    if |raw| == |t.outcomes| == 86 <= |plan| {
      forall i | 0 <= i < 86
        ensures RawEntryOk(t, nested, database, schedule, raw[i], i)
           <==> IsPlanned(t, nested, database, raw, i, plan[i])
      {
        MeasuredText(raw[i].status);
      }
    }
  }

  // ---- Partial blocks and transfers ----

  lemma {:induction false} StatusTexts(outcome: string)
    ensures StatusText(Waiting) == "waiting" && StatusText(Attempting) == "attempting"
    ensures StatusText(Raised) == "exception" && StatusText(Finished(outcome)) == outcome
  {
  }

  /** An entry and its outcome say the same. */
  predicate Reports(a: Attempt, o: Outcome) {
    StatusText(a.status) == o.status && a.measurementId == o.measurementId
  }

  /** Entry i of a block, whole or not: in its place, and with its outcome and its row if there are any. */
  predicate InPlace(block: Block, root: Path, database: Path, schedule: Schedule, a: Attempt, i: nat)
    requires i < BLOCK_RUNS
  {
    var p, arm := i / 2, if i % 2 == 0 then FirstArm(schedule, i / 2) else Other(FirstArm(schedule, i / 2));
    && a.output == root + ["raw", Label(p, arm)] && a.database == database
    && a.stage == "product-" + block.experiment + Suffix(p, arm)
    && (i < |block.outcomes| ==> Reports(a, block.outcomes[i]))
    && (i < |block.rows| ==>
          && a.status == Finished("measured") && a.measurementId == Some(block.rows[i].measurementId)
          && block.rows[i].pair == p && block.rows[i].arm == arm && block.rows[i].native)
    && (i >= |block.rows| && a.status == Finished("measured") ==>
          block.status == BlockValidationStop || block.status == BlockRunning)
  }

  lemma {:induction false} EntryInPlace(block: Block, root: Path, database: Path, schedule: Schedule, a: Attempt,
                                        i: nat)
    requires i < BLOCK_RUNS
    ensures BlockEntryOk(block, root, database, schedule, a, i) <==> InPlace(block, root, database, schedule, a, i)
  {
    hide PairLabel, ArmAt, Label, Suffix, Two, ArmName, StatusText;
    var p, arm := i / 2, if i % 2 == 0 then FirstArm(schedule, i / 2) else Other(FirstArm(schedule, i / 2));
    assert i == 2 * p || i == 2 * p + 1;
    ArmsFollowTheSchedule(schedule, p);
    LabelsFollowTheSchedule(schedule, p);
    NameIs(p, arm);
    assert "product-" + block.experiment + "-" + Two(p) + "-" + ArmName(arm)
        == "product-" + block.experiment + ("-" + Two(p) + "-" + ArmName(arm));
    MeasuredText(a.status);
  }

  /** What a block may claim: with all rows what they evaluate to, and with fewer no result. */
  predicate Claims(block: Block) {
    if |block.rows| == 20 then
      && block.verdict.Some? && block.claims
      && (block.verdict == Some(block.status)
          || (block.status == PassStockFallback && block.verdict == Some(PassMeasurement)))
      && (block.status == PassStockFallback ==> block.verdict == Some(PassMeasurement))
    else block.status == BlockRunning || block.status == BlockValidationStop || block.status == BlockEnvironmentBlocked
  }

  /**
   Exactly the blocks that are accepted, whole or not: frozen, with at most one entry beyond the rows and
   at most twenty in all, every entry in its place by the schedule, and claiming no more than they may.
   */
  lemma {:induction false} BlockExactly(block: Block, root: Path, database: Path, schedule: Schedule,
                                        entries: seq<Attempt>)
    ensures BlockOk(block, root, database, schedule, entries)
       <==> block.frozen && |block.rows| <= |block.outcomes| <= |entries| <= 20 && |entries| <= |block.rows| + 1
            && (forall i :: 0 <= i < |entries| ==> InPlace(block, root, database, schedule, entries[i], i))
            && Claims(block)
  {
    hide BlockEntryOk, InPlace;
    if |entries| <= 20 {
      forall i | 0 <= i < |entries|
        ensures BlockEntryOk(block, root, database, schedule, entries[i], i)
           <==> InPlace(block, root, database, schedule, entries[i], i)
      {
        EntryInPlace(block, root, database, schedule, entries[i], i);
      }
    }
  }

  /** Raw run i of a transfer, whole or not. */
  predicate RawInPlace(t: Transfer, nested: Path, database: Path, a: Attempt, i: nat, plan: Planned) {
    && a.output == nested + ["raw", plan.name] && a.database == database && a.stage == TransferStage(t, plan.name)
    && (i < |t.outcomes| ==> Reports(a, t.outcomes[i]))
    && (i < |t.rows| ==>
          && a.status == Finished("measured") && a.measurementId == Some(t.rows[i].measurementId)
          && t.rows[i].name == plan.name && t.rows[i].candidate == plan.candidate && t.rows[i].native)
  }

  /** Exactly the raw runs that are accepted, all 86 or fewer. */
  lemma {:induction false} RawExactly(t: Transfer, nested: Path, database: Path, schedule: Schedule,
                                      raw: seq<Attempt>, plan: seq<Planned>)
    requires |t.screens| <= 100 && RegisteredRuns(t, schedule, plan)
    ensures RawOk(t, nested, database, schedule, raw)
       <==> (SelectionDue(t) ==> t.claimed == Some(t.ranked))
            && |t.rows| <= |t.outcomes| <= |raw| <= 86 && |raw| <= |plan| && |raw| <= |t.rows| + 1
            && (forall i :: 0 <= i < |raw| ==> RawInPlace(t, nested, database, raw[i], i, plan[i]))
            && if |t.rows| == 86 then t.utility
               else t.status == TransferValidationStop || t.status == TransferEnvironmentBlocked
  {
    hide Registered, TransferStage, RegisteredRuns, StatusText;
    RegisteredUnique(t, schedule, plan);
    if |raw| <= |plan| {
      forall i | 0 <= i < |raw|
        ensures RawEntryOk(t, nested, database, schedule, raw[i], i)
           <==> RawInPlace(t, nested, database, raw[i], i, plan[i])
      {
        MeasuredText(raw[i].status);
      }
    }
  }
}
