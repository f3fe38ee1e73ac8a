/** The registered sequence of cases: the collector that runs it and the validator that reconstructs it. */
module Coverage {
  import opened Trace
  import opened Processes

  const CASE_NS: int := 14_400_000_000_000
  const SEQUENCE_NS: int := 57_600_000_000_000
  const MAXIMUM_ATTEMPTS: nat := 428
  const CASES: nat := 4

  datatype CaseStatus = PassProduct | StatisticalStop | OtherCase

  /** What the validation of a case report yields. */
  datatype CaseResult = CaseResult(status: CaseStatus, allRaw: bool, gain: bool, attempts: nat, native: nat)

  /** A case report; times in nanoseconds, everything else is `content`. */
  datatype CaseReport = CaseReport(started: int, load: int, collected: int, content: string)

  /** A result with its wall clock and the resource gate applied. */
  datatype Gated = Gated(result: CaseResult, start: int, finish: int, wall: int, withinBudget: bool, gain: bool)

  /** Validation of a case: it depends on the case and its report, and None means it raises. */
  type Validate = (nat, CaseReport) -> Option<CaseResult>

  predicate CanContinue(r: CaseResult) {
    r.allRaw && (r.status == StatisticalStop || r.status == PassProduct)
  }

  function Gate(report: CaseReport, r: CaseResult, start: int, finish: int, sequenceStarted: int): Gated {
    var wall := report.load + (finish - report.started);
    var withinBudget := wall < CASE_NS && finish - sequenceStarted < SEQUENCE_NS;
    Gated(r, start, finish, wall, withinBudget, r.gain && withinBudget)
  }

  predicate MustStop(g: Gated) {
    !CanContinue(g.result) || !g.withinBudget
  }

  // ---- Reports ----

  /** A case in the sequence report; Retained is what an interrupted sequence keeps of an unverified case. */
  datatype Entry = NotRun | Ran(gated: Gated) | Retained(attempts: nat, native: nat)
  datatype Saved = Saved(caseId: string, entry: Entry)

  datatype SequenceStatus = Complete | SequenceStop | ResourceStop | IdentityStop

  datatype Manifest = Manifest(started: int, frozen: int, loads: seq<int>)

  datatype Report = Report(
    status: SequenceStatus,
    manifest: Option<Manifest>,
    cases: seq<Saved>,
    attempts: nat,
    native: nat,
    started: int,
    finished: int)

  /** A planned case directory: its report and the owners in its start files. */
  datatype CaseDisk = CaseDisk(present: bool, report: Option<CaseReport>, attempts: nat, starts: seq<Owner>)

  const ABSENT: CaseDisk := CaseDisk(false, None, 0, [])

  function AttemptsOf(e: Entry): nat {
    match e
    case NotRun => 0
    case Ran(g) => g.result.attempts
    case Retained(attempts, _) => attempts
  }

  function NativeOf(e: Entry): nat {
    match e
    case NotRun => 0
    case Ran(g) => g.result.native
    case Retained(_, native) => native
  }

  function SumAttempts(cases: seq<Saved>): nat {
    if cases == [] then 0 else SumAttempts(cases[..|cases| - 1]) + AttemptsOf(cases[|cases| - 1].entry)
  }

  function SumNative(cases: seq<Saved>): nat {
    if cases == [] then 0 else SumNative(cases[..|cases| - 1]) + NativeOf(cases[|cases| - 1].entry)
  }

  // ---- The collector ----

  datatype Failure = Resource | Identity

  /**
   What the world does for one case: the clock at the loop's budget check, whether executing the case
   raises, what it leaves on disk, and the clock around the reconstruction.
   */
  datatype CaseWorld = CaseWorld(clock: int, raised: Option<Failure>, disk: CaseDisk, before: int, finish: int)

  /** The preflight either fails or freezes a manifest. */
  datatype World = World(caseIds: seq<string>, started: int, preflight: Option<Failure>, manifest: Manifest,
    cases: seq<CaseWorld>, finished: int)

  /** A case that is executed without raising leaves its report. */
  predicate ReportsWritten(w: World) {
    && |w.cases| == |w.caseIds|
    && forall i :: 0 <= i < |w.cases| ==> w.cases[i].raised.None? ==>
      w.cases[i].disk.present && w.cases[i].disk.report.Some?
  }

  /** The sequence so far: entries and directories of the cases visited, and the verdict once there is one. */
  datatype Progress = Progress(cases: seq<Saved>, disk: seq<CaseDisk>, verdict: Option<SequenceStatus>)

  function StatusOf(f: Failure): SequenceStatus {
    if f == Resource then ResourceStop else IdentityStop
  }

  /** What the sequence keeps of a case whose evidence was not verified. */
  function Unverified(disk: CaseDisk): Entry {
    if disk.report.Some? then Retained(disk.attempts, |disk.starts|) else NotRun
  }

  function Visit(w: World, validate: Validate, p: Progress, i: nat): Progress
    requires ReportsWritten(w) && i < |w.cases|
  {
    var c := w.cases[i];
    if p.verdict.Some? || c.clock - w.started >= SEQUENCE_NS then
      Progress(p.cases + [Saved(w.caseIds[i], NotRun)], p.disk + [ABSENT], if p.verdict.Some? then p.verdict
        else Some(ResourceStop))
    else if c.raised.Some? then
      Progress(p.cases + [Saved(w.caseIds[i], Unverified(c.disk))], p.disk + [c.disk], Some(StatusOf(c.raised.value)))
    else
      match validate(i, c.disk.report.value)
      case None => Progress(p.cases + [Saved(w.caseIds[i], Unverified(c.disk))], p.disk + [c.disk], Some(IdentityStop))
      case Some(result) =>
        var g := Gate(c.disk.report.value, result, c.before, c.finish, w.started);
        var cases := p.cases + [Saved(w.caseIds[i], Ran(g))];
        Progress(cases, p.disk + [c.disk],
                 if SumAttempts(cases) > MAXIMUM_ATTEMPTS then Some(ResourceStop)
                 else if MustStop(g) then Some(SequenceStop)
                 else None)
  }

  function Collect(w: World, validate: Validate, n: nat): (p: Progress)
    requires ReportsWritten(w) && n <= |w.cases|
    ensures |p.cases| == |p.disk| == n
  {
    if n == 0 then Progress([], [], if w.preflight.Some? then Some(StatusOf(w.preflight.value)) else None)
    else Visit(w, validate, Collect(w, validate, n - 1), n - 1)
  }

  function Final(w: World, p: Progress): Report {
    Report(if p.verdict.Some? then p.verdict.value else Complete,
           if w.preflight.Some? then None else Some(w.manifest),
           p.cases, SumAttempts(p.cases), SumNative(p.cases), w.started, w.finished)
  }

  function Blank(caseIds: seq<string>): (cases: seq<Saved>)
    ensures |cases| == |caseIds|
  {
    seq(|caseIds|, i requires 0 <= i < |caseIds| => Saved(caseIds[i], NotRun))
  }

  /** One pass through the collector's loop: the case's entry, its directory, and the verdict. */
  method RunCase(w: World, validate: Validate, i: nat, ghost earlier: seq<CaseDisk>, cases: seq<Saved>,
                 verdict: Option<SequenceStatus>)
    returns (entry: Entry, disk: CaseDisk, next: Option<SequenceStatus>)
    requires ReportsWritten(w) && i < |w.cases|
    ensures Progress(cases + [Saved(w.caseIds[i], entry)], earlier + [disk], next)
      == Visit(w, validate, Progress(cases, earlier, verdict), i)
  {
    hide Gate, MustStop, SumAttempts;
    var c := w.cases[i];
    entry, disk, next := NotRun, ABSENT, verdict;
    if verdict.None? {
      if c.clock - w.started >= SEQUENCE_NS {
        next := Some(ResourceStop);
      } else {
        disk := c.disk;
        var result := if c.raised.Some? then None else validate(i, c.disk.report.value);
        if result.None? {
          next := Some(if c.raised.Some? then StatusOf(c.raised.value) else IdentityStop);
          entry := Unverified(c.disk);
        } else {
          var g := Gate(c.disk.report.value, result.value, c.before, c.finish, w.started);
          entry := Ran(g);
          if SumAttempts(cases + [Saved(w.caseIds[i], entry)]) > MAXIMUM_ATTEMPTS {
            next := Some(ResourceStop);
          } else if MustStop(g) {
            next := Some(SequenceStop);
          }
        }
      }
    }
  }

  /** The collector: the report starts with every case not run and is filled in as cases finish. */
  method RunSequence(w: World, validate: Validate) returns (report: Report, disk: seq<CaseDisk>)
    requires ReportsWritten(w)
    ensures report == Final(w, Collect(w, validate, |w.cases|)) && disk == Collect(w, validate, |w.cases|).disk
  {
    hide Visit, SumAttempts, SumNative;
    var n := |w.cases|;
    var cases := Blank(w.caseIds);
    var verdict: Option<SequenceStatus> := if w.preflight.Some? then Some(StatusOf(w.preflight.value)) else None;
    disk := [];
    var i := 0;
    while i < n
      invariant 0 <= i <= n && |cases| == n && |disk| == i
      invariant Progress(cases[..i], disk, verdict) == Collect(w, validate, i)
    {
      var entry, d, next := RunCase(w, validate, i, disk, cases[..i], verdict);
      ghost var earlier := cases[..i];
      cases := cases[i := Saved(w.caseIds[i], entry)];
      assert cases[..i + 1] == earlier + [cases[i]];
      disk, verdict := disk + [d], next;
      i := i + 1;
    }
    assert cases[..n] == cases;
    report := Final(w, Progress(cases, disk, verdict));
  }

  // ---- The validator ----

  /**
   `frozen`: manifest, sources, host and caps are the registered ones. `live[i]`: the inputs of case i
   are unchanged.
   */
  datatype Context = Context(frozen: bool, caseIds: seq<string>, live: seq<bool>, disk: seq<CaseDisk>)

  predicate Shaped(c: Context) {
    |c.caseIds| == |c.live| == |c.disk|
  }

  /** What the validator carries from case to case. */
  datatype Scan = Scan(stopped: bool, owners: set<Owner>, previous: int, attempts: nat, native: nat)

  predicate Fresh(owners: set<Owner>, starts: seq<Owner>) {
    && (forall i :: 0 <= i < |starts| ==> starts[i] !in owners)
    && (forall i, j :: 0 <= i < j < |starts| ==> starts[i] != starts[j])
  }

  function OwnersIn(starts: seq<Owner>): set<Owner> {
    set i | 0 <= i < |starts| :: starts[i]
  }

  method AddOwners(owners: set<Owner>, starts: seq<Owner>) returns (all: Option<set<Owner>>)
    ensures all == if Fresh(owners, starts) then Some(owners + OwnersIn(starts)) else None
  {
    var seen := owners;
    var i := 0;
    while i < |starts|
      invariant 0 <= i <= |starts|
      invariant Fresh(owners, starts[..i])
      invariant seen == owners + OwnersIn(starts[..i])
    {
      if starts[i] in seen {
        return None;
      }
      seen := seen + {starts[i]};
      i := i + 1;
    }
    assert starts[..i] == starts;
    all := Some(seen);
  }

  predicate TimesOk(r: CaseReport, g: Gated, previous: int, finished: int) {
    previous <= r.started && r.collected <= g.start <= g.finish <= finished
  }

  /** One case of the validator's loop; None when it refuses. */
  function ScanCase(report: Report, m: Manifest, ctx: Context, validate: Validate, s: Scan, i: nat): Option<Scan>
    requires Shaped(ctx) && i < |ctx.disk|
  {
    if i >= |report.cases| || report.cases[i].caseId != ctx.caseIds[i] then None
    else if ctx.disk[i].report.None? then
      (if report.cases[i].entry != NotRun || ctx.disk[i].present
        || (!s.stopped && report.status == Complete) then None else Some(s))
    else if s.stopped || !ctx.live[i] || i >= |m.loads| then None
    else ScanRun(report, m, ctx.disk[i], validate, s, i)
  }

  function ScanRun(report: Report, m: Manifest, disk: CaseDisk, validate: Validate, s: Scan, i: nat): Option<Scan>
    requires disk.report.Some? && i < |report.cases| && i < |m.loads|
  {
    var r := disk.report.value;
    match report.cases[i].entry
    case NotRun => None
    case Retained(_, _) => None
    case Ran(g) =>
      match validate(i, r)
      case None => None
      case Some(result) =>
        if && Fresh(s.owners, disk.starts) && r.load == m.loads[i]
           && g == Gate(r, result, g.start, g.finish, m.started)
           && TimesOk(r, g, s.previous, report.finished)
        then Some(Scan(MustStop(g), s.owners + OwnersIn(disk.starts), g.finish, s.attempts + result.attempts, s.native
          + result.native))
        else None
  }

  function ScanTo(report: Report, m: Manifest, ctx: Context, validate: Validate, n: nat): Option<Scan>
    requires Shaped(ctx) && n <= |ctx.disk|
  {
    if n == 0 then Some(Scan(false, {}, m.frozen, 0, 0))
    else
      match ScanTo(report, m, ctx, validate, n - 1)
      case None => None
      case Some(s) => ScanCase(report, m, ctx, validate, s, n - 1)
  }

  function StartsOnDisk(disk: seq<CaseDisk>): nat {
    if disk == [] then 0 else StartsOnDisk(disk[..|disk| - 1]) + |disk[|disk| - 1].starts|
  }

  datatype Verdict = Verdict(status: SequenceStatus, attempts: nat, native: nat)

  predicate ClockOk(report: Report, m: Manifest) {
    report.started == m.started && m.started <= m.frozen <= report.finished
  }

  /** The verdict of the reconstruction; None when the report is refused.  Exactly four cases are registered. */
  function Reconstruct(report: Report, ctx: Context, validate: Validate): Option<Verdict>
    requires Shaped(ctx)
  {
    if !ctx.frozen || |ctx.caseIds| != CASES || report.manifest.None?
      || !ClockOk(report, report.manifest.value) then None
    else
      match ScanTo(report, report.manifest.value, ctx, validate, |ctx.disk|)
      case None => None
      case Some(s) =>
        var status := if s.stopped then SequenceStop else Complete;
        if && s.attempts == report.attempts && s.native == report.native && s.attempts <= MAXIMUM_ATTEMPTS
           && StartsOnDisk(ctx.disk) == s.native && report.status == status
        then Some(Verdict(status, s.attempts, s.native))
        else None
  }

  method ValidateSequence(report: Report, ctx: Context, validate: Validate) returns (v: Option<Verdict>)
    requires Shaped(ctx)
    ensures v == Reconstruct(report, ctx, validate)
  {
    hide Fresh, OwnersIn, Gate, MustStop, StartsOnDisk;
    if !ctx.frozen || |ctx.caseIds| != CASES || report.manifest.None? || !ClockOk(report, report.manifest.value) {
      return None;
    }
    var m := report.manifest.value;
    var s := Scan(false, {}, m.frozen, 0, 0);
    var i := 0;
    while i < |ctx.disk|
      invariant 0 <= i <= |ctx.disk|
      invariant ScanTo(report, m, ctx, validate, i) == Some(s)
    {
      var next := ValidateCase(report, m, ctx, validate, s, i);
      if next.None? {
        Refused(report, m, ctx, validate, i + 1, |ctx.disk|);
        return None;
      }
      s := next.value;
      i := i + 1;
    }
    var status := if s.stopped then SequenceStop else Complete;
    if s.attempts != report.attempts || s.native != report.native || s.attempts > MAXIMUM_ATTEMPTS {
      return None;
    }
    if StartsOnDisk(ctx.disk) != s.native || report.status != status {
      return None;
    }
    v := Some(Verdict(status, s.attempts, s.native));
  }

  lemma {:induction false} Refused(report: Report, m: Manifest, ctx: Context, validate: Validate, i: nat, n: nat)
    requires Shaped(ctx) && i <= n <= |ctx.disk|
    requires ScanTo(report, m, ctx, validate, i).None?
    ensures ScanTo(report, m, ctx, validate, n).None?
    decreases n
  {
    if i < n {
      Refused(report, m, ctx, validate, i, n - 1);
    }
  }

  method ValidateCase(report: Report, m: Manifest, ctx: Context, validate: Validate, s: Scan, i: nat)
    returns (next: Option<Scan>)
    requires Shaped(ctx) && i < |ctx.disk|
    ensures next == ScanCase(report, m, ctx, validate, s, i)
  {
    hide Fresh, OwnersIn, Gate, MustStop;
    if i >= |report.cases| || report.cases[i].caseId != ctx.caseIds[i] {
      return None;
    }
    var saved := report.cases[i].entry;
    if ctx.disk[i].report.None? {
      if saved != NotRun || ctx.disk[i].present {
        return None;
      }
      return if !s.stopped && report.status == Complete then None else Some(s);
    }
    if s.stopped || !ctx.live[i] {
      return None;
    }
    var r := ctx.disk[i].report.value;
    if r.started < s.previous {
      return None;
    }
    var owners := AddOwners(s.owners, ctx.disk[i].starts);
    if owners.None? || i >= |m.loads| || r.load != m.loads[i] {
      return None;
    }
    var result := validate(i, r);
    if result.None? || !saved.Ran? {
      return None;
    }
    var g := Gate(r, result.value, saved.gated.start, saved.gated.finish, m.started);
    if saved.gated != g || !(r.collected <= g.start <= g.finish <= report.finished) {
      return None;
    }
    next := Some(Scan(MustStop(g), owners.value, g.finish, s.attempts + result.value.attempts, s.native
      + result.value.native));
  }
}
