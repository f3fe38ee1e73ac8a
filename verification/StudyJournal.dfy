/** The attempt journal of the paced study: the runner that writes it and the audit that reads it. */
module StudyJournal {
  import opened Trace
  import opened Processes

  const WAIT_SECONDS: nat := 30
  const WAIT_NS: nat := 30_000_000_000
  const MAXIMUM_NATIVE_PROCESSES: nat := 148
  const MEASURED: string := "measured"

  /** A resolved path by its components. */
  type Path = seq<string>

  predicate Under(path: Path, root: Path) {
    root <= path
  }

  /** What a native process leaves in its start file. */
  datatype Observed = Observed(pid: nat, created: nat, source: string, run: string, started: int)

  function OwnerOf(o: Observed): Owner {
    Owner(o.pid, o.created, o.source)
  }

  datatype Status = Waiting | Attempting | Raised | Finished(outcome: string)

  datatype Attempt = Attempt(
    output: Path,
    database: Path,
    stage: string,
    status: Status,
    nativeStarted: bool,
    identity: Option<Observed>,
    waitSeconds: nat,
    waitStarted: int,
    waitFinished: Option<int>,
    waitElapsed: Option<int>,
    context: Option<string>,
    measurementId: Option<string>,
    finished: Option<int>)

  datatype Launch = Launch(context: string, host: string)

  /** The study directory: start files by output directory (None is unreadable JSON) and launch files. */
  datatype Disk = Disk(starts: map<Path, Option<Observed>>, launches: map<Path, Launch>)

  const FRESH: Disk := Disk(map[], map[])

  datatype Manifest = Manifest(root: Path, frozen: int, sha: string, host: string)

  /** What the wrapped runner does: the files it leaves, and its outcome unless it raises. */
  datatype Native = Native(start: Option<Option<Observed>>, launched: bool, outcome: Option<Outcome>)
  datatype Outcome = Outcome(status: string, measurementId: Option<string>)

  /** One call and everything the world answers during it. */
  datatype Call = Call(
    output: Path,
    database: Path,
    stage: string,
    context: Option<string>,
    clean: bool,
    waitStarted: int,
    slept: bool,
    waitFinished: int,
    cleanAfterWait: bool,
    native: Native,
    cleanAfterRun: bool,
    finished: int)

  // ---- What one call does ----

  predicate Refused(m: Manifest, journal: seq<Attempt>, c: Call) {
    || !c.clean || !Under(c.output, m.root)
    || |journal| >= MAXIMUM_NATIVE_PROCESSES
    || !Under(c.database, m.root)
  }

  /** The wrapped runner is reached only after a complete wait and a second clean guard. */
  predicate Launches(c: Call) {
    c.slept && c.cleanAfterWait && c.waitFinished - c.waitStarted >= WAIT_NS
  }

  function ContextOf(m: Manifest, c: Call): string {
    if c.context.Some? then c.context.value else m.sha
  }

  function DiskAfter(m: Manifest, disk: Disk, c: Call): Disk {
    if !Launches(c) then disk
    else Disk(if c.native.start.Some? then disk.starts[c.output := c.native.start.value] else disk.starts,
              if c.native.launched then disk.launches[c.output := Launch(ContextOf(m, c), m.host)] else disk.launches)
  }

  function StatusAfter(c: Call): Status {
    if Launches(c) && c.native.outcome.Some? && c.cleanAfterRun then Finished(c.native.outcome.value.status)
    else Raised
  }

  /** The journal entry a call leaves, given the directory it finds at the end. */
  function Entry(m: Manifest, disk: Disk, c: Call): Attempt {
    Attempt(
      c.output, c.database, c.stage, StatusAfter(c),
      c.output in disk.starts,
      if c.output in disk.starts then disk.starts[c.output] else None,
      WAIT_SECONDS,
      c.waitStarted,
      if c.slept then Some(c.waitFinished) else None,
      if c.slept then Some(c.waitFinished - c.waitStarted) else None,
      if Launches(c) then Some(ContextOf(m, c)) else None,
      if Launches(c) && c.native.outcome.Some? then c.native.outcome.value.measurementId else None,
      Some(c.finished))
  }

  datatype Study = Study(journal: seq<Attempt>, disk: Disk)

  function Step(m: Manifest, s: Study, c: Call): Study {
    if Refused(m, s.journal, c) then s
    else
      var disk := DiskAfter(m, s.disk, c);
      Study(s.journal + [Entry(m, disk, c)], disk)
  }

  function Conduct(m: Manifest, calls: seq<Call>): Study {
    if calls == [] then Study([], FRESH)
    else Step(m, Conduct(m, calls[..|calls| - 1]), calls[|calls| - 1])
  }

  class GuardedRunner {
    const manifest: Manifest
    var journal: seq<Attempt>
    var disk: Disk

    constructor (m: Manifest)
      ensures manifest == m && Study(journal, disk) == Conduct(m, [])
    {
      manifest := m;
      journal := [];
      disk := FRESH;
    }

    /** None when the call raises. */
    method RunOnce(c: Call) returns (r: Option<Outcome>)
      modifies this
      ensures Study(journal, disk) == Step(manifest, Study(old(journal), old(disk)), c)
      ensures r.Some?
         <==> !Refused(manifest, old(journal), c) && Launches(c) && c.native.outcome.Some? && c.cleanAfterRun
      ensures r.Some? ==> r == c.native.outcome
    {
      if !c.clean || !Under(c.output, manifest.root) {
        return None;
      }
      if |journal| >= MAXIMUM_NATIVE_PROCESSES || !Under(c.database, manifest.root) {
        return None;
      }
      journal := journal + [Attempt(c.output, c.database, c.stage, Waiting, false, None, WAIT_SECONDS,
                                    c.waitStarted, None, None, None, None, None)];
      r := Attempted(c);
      Finish(c);
    }

    method Attempted(c: Call) returns (r: Option<Outcome>)
      requires journal != [] && journal[|journal| - 1].status == Waiting
      modifies this
      ensures |journal| == |old(journal)| && journal[..|journal| - 1] == old(journal)[..|journal| - 1]
      ensures disk == DiskAfter(manifest, old(disk), c)
      ensures r == if Launches(c) && c.cleanAfterRun then c.native.outcome else None
      ensures var a := old(journal)[|journal| - 1];
              journal[|journal| - 1] == a.(
                status := StatusAfter(c),
                waitFinished := if c.slept then Some(c.waitFinished) else a.waitFinished,
                waitElapsed := if c.slept then Some(c.waitFinished - a.waitStarted) else a.waitElapsed,
                context := if Launches(c) then Some(ContextOf(manifest, c)) else a.context,
                measurementId := if Launches(c)
                  && c.native.outcome.Some? then c.native.outcome.value.measurementId else a.measurementId)
      requires journal[|journal| - 1].waitStarted == c.waitStarted
    {
      var last := |journal| - 1;
      var a := journal[last];
      r := None;
      if c.slept {
        a := a.(waitFinished := Some(c.waitFinished), waitElapsed := Some(c.waitFinished - a.waitStarted));
        if c.cleanAfterWait && c.waitFinished - a.waitStarted >= WAIT_NS {
          a := a.(status := Attempting, context := Some(ContextOf(manifest, c)));
          disk := DiskAfter(manifest, disk, c);
          if c.native.outcome.Some? {
            a := a.(status := Finished(c.native.outcome.value.status),
              measurementId := c.native.outcome.value.measurementId);
            if c.cleanAfterRun {
              r := c.native.outcome;
            }
          }
        }
      }
      if r.None? {
        a := a.(status := Raised);
      }
      journal := journal[..last] + [a];
    }

    /** What is recorded whether or not the attempt raised. */
    method Finish(c: Call)
      requires journal != []
      modifies this`journal
      ensures var a := old(journal)[|old(journal)| - 1];
              journal == old(journal)[..|old(journal)| - 1] + [a.(
                finished := Some(c.finished),
                nativeStarted := if c.output in disk.starts then true else a.nativeStarted,
                identity := if c.output in disk.starts
                  && disk.starts[c.output].Some? then disk.starts[c.output] else a.identity)]
    {
      var last := |journal| - 1;
      var a := journal[last].(finished := Some(c.finished));
      if c.output in disk.starts {
        a := a.(nativeStarted := true);
        if disk.starts[c.output].Some? {
          a := a.(identity := disk.starts[c.output]);
        }
      }
      journal := journal[..last] + [a];
    }
  }

  // ---- The audit ----

  /** The registered context of an attempt; attempts of the transfer carry the nested study's. */
  function ExpectedContext(m: Manifest, nested: Option<string>, a: Attempt): Option<string> {
    if Under(a.output, m.root + ["transfer", "utility"]) then nested else Some(m.sha)
  }

  predicate ContextOk(m: Manifest, disk: Disk, nested: Option<string>, a: Attempt) {
    && ExpectedContext(m, nested, a).Some?
    && (a.output in disk.launches ==>
          && a.context == Some(disk.launches[a.output].context)
          && a.context == ExpectedContext(m, nested, a)
          && disk.launches[a.output].host == m.host)
  }

  /** A measured attempt has a record, and every record is bound to its attempt. */
  predicate RecordOk(bound: Attempt -> bool, a: Attempt) {
    if a.measurementId.Some? then bound(a) && a.nativeStarted else a.status != Finished(MEASURED)
  }

  predicate StartOk(disk: Disk, a: Attempt) {
    a.output in disk.starts ==>
      && a.waitSeconds == WAIT_SECONDS
      && a.waitElapsed.Some? && a.waitFinished.Some? && a.finished.Some?
      && a.waitElapsed.value >= WAIT_NS
      && a.waitElapsed.value == a.waitFinished.value - a.waitStarted
      && disk.starts[a.output].Some?
      && a.identity == disk.starts[a.output]
      && a.waitFinished.value <= a.identity.value.started <= a.finished.value
  }

  predicate AttemptOk(m: Manifest, disk: Disk, nested: Option<string>, bound: Attempt -> bool, a: Attempt) {
    && Under(a.output, m.root) && Under(a.database, m.root)
    && a.finished.Some? && a.finished.value >= a.waitStarted
    && a.nativeStarted == (a.output in disk.starts)
    && StartOk(disk, a)
    && ContextOk(m, disk, nested, a)
    && RecordOk(bound, a)
  }

  predicate InOrder(frozen: int, journal: seq<Attempt>) {
    forall i :: 0 <= i < |journal| ==> journal[i].waitStarted >= FinishedBefore(frozen, journal, i)
  }

  function FinishedBefore(frozen: int, journal: seq<Attempt>, i: nat): int
    requires i <= |journal|
  {
    if i == 0 || journal[i - 1].finished.None? then frozen else journal[i - 1].finished.value
  }

  predicate DistinctOutputs(journal: seq<Attempt>) {
    forall i, j :: 0 <= i < j < |journal| ==> journal[i].output != journal[j].output
  }

  predicate SameOwner(a: Attempt, b: Attempt) {
    a.nativeStarted && b.nativeStarted && a.identity.Some? && b.identity.Some?
    && OwnerOf(a.identity.value) == OwnerOf(b.identity.value)
  }

  predicate DistinctOwners(journal: seq<Attempt>) {
    forall i, j :: 0 <= i < j < |journal| ==> !SameOwner(journal[i], journal[j])
  }

  function Started(journal: seq<Attempt>): nat {
    if journal == [] then 0
    else Started(journal[..|journal| - 1]) + if journal[|journal| - 1].nativeStarted then 1 else 0
  }

  ghost predicate EachOk(m: Manifest, journal: seq<Attempt>, disk: Disk, nested: Option<string>,
                         bound: Attempt -> bool) {
    && (forall i :: 0 <= i < |journal| ==> AttemptOk(m, disk, nested, bound, journal[i]))
    && InOrder(m.frozen, journal)
    && DistinctOutputs(journal)
    && DistinctOwners(journal)
  }

  ghost predicate AuditOk(m: Manifest, journal: seq<Attempt>, disk: Disk, nested: Option<string>,
                          bound: Attempt -> bool) {
    && |journal| <= MAXIMUM_NATIVE_PROCESSES
    && EachOk(m, journal, disk, nested, bound)
    && |disk.starts| == Started(journal)
  }

  function Outputs(journal: seq<Attempt>): set<Path> {
    set i | 0 <= i < |journal| :: journal[i].output
  }

  function Owners(journal: seq<Attempt>): set<Owner> {
    if journal == [] then {}
    else Owners(journal[..|journal| - 1]) + OwnersOf(journal[|journal| - 1])
  }

  function OwnersOf(a: Attempt): set<Owner> {
    if a.nativeStarted && a.identity.Some? then {OwnerOf(a.identity.value)} else {}
  }

  lemma {:induction false} OwnersHas(journal: seq<Attempt>, o: Owner)
    ensures o in Owners(journal) <==> exists i :: 0 <= i < |journal| && o in OwnersOf(journal[i])
  {
    if journal != [] {
      var n := |journal| - 1;
      OwnersHas(journal[..n], o);
      assert forall i :: 0 <= i < n ==> journal[..n][i] == journal[i];
    }
  }

  /** Reading one more entry. */
  lemma {:induction false} EachOkSnoc(m: Manifest, journal: seq<Attempt>, a: Attempt, disk: Disk,
                                      nested: Option<string>, bound: Attempt -> bool)
    ensures EachOk(m, journal + [a], disk, nested, bound) <==>
            (EachOk(m, journal, disk, nested, bound) && AttemptOk(m, disk, nested, bound, a)
              && a.waitStarted >= FinishedBefore(m.frozen, journal, |journal|) && a.output !in Outputs(journal)
              && OwnersOf(a) !! Owners(journal))
  {
    hide AttemptOk;
    var all := journal + [a];
    assert all[|journal|] == a && forall i :: 0 <= i < |journal| ==> all[i] == journal[i];
    assert forall i :: 0 <= i <= |journal| ==> FinishedBefore(m.frozen, all, i) == FinishedBefore(m.frozen, journal, i);
    OrderSnoc(m.frozen, journal, a);
    OutputsSnoc(journal, a);
    OwnersSnoc(journal, a);
    hide InOrder, DistinctOutputs, DistinctOwners;
    if EachOk(m, all, disk, nested, bound) {
      assert forall i :: 0 <= i < |journal| ==> AttemptOk(m, disk, nested, bound, all[i]);
    }
  }

  lemma {:induction false} OrderSnoc(frozen: int, journal: seq<Attempt>, a: Attempt)
    ensures InOrder(frozen, journal + [a])
      <==> InOrder(frozen, journal) && a.waitStarted >= FinishedBefore(frozen, journal, |journal|)
  {
    var all := journal + [a];
    assert forall i :: 0 <= i <= |journal| ==> FinishedBefore(frozen, all, i) == FinishedBefore(frozen, journal, i);
    if InOrder(frozen, all) {
      assert all[|journal|].waitStarted >= FinishedBefore(frozen, all, |journal|);
      forall i | 0 <= i < |journal|
        ensures journal[i].waitStarted >= FinishedBefore(frozen, journal, i)
      {
        assert all[i].waitStarted >= FinishedBefore(frozen, all, i);
      }
    }
  }

  lemma {:induction false} OutputsSnoc(journal: seq<Attempt>, a: Attempt)
    ensures DistinctOutputs(journal + [a]) <==> DistinctOutputs(journal) && a.output !in Outputs(journal)
  {
    var all := journal + [a];
    assert all[|journal|] == a && forall i :: 0 <= i < |journal| ==> all[i] == journal[i];
  }

  lemma {:induction false} OwnersSnoc(journal: seq<Attempt>, a: Attempt)
    ensures DistinctOwners(journal + [a]) <==> DistinctOwners(journal) && OwnersOf(a) !! Owners(journal)
    ensures Owners(journal + [a]) == Owners(journal) + OwnersOf(a)
  {
    var all := journal + [a];
    assert all[|journal|] == a && forall i :: 0 <= i < |journal| ==> all[i] == journal[i];
    assert all[..|journal|] == journal;
    forall o
      ensures o in Owners(journal) <==> exists i :: 0 <= i < |journal| && o in OwnersOf(journal[i])
    {
      OwnersHas(journal, o);
    }
    if DistinctOwners(all) {
      forall i, j | 0 <= i < j < |journal|
        ensures !SameOwner(journal[i], journal[j])
      {
        assert !SameOwner(all[i], all[j]);
      }
      forall i | 0 <= i < |journal|
        ensures !SameOwner(journal[i], a)
      {
        assert !SameOwner(all[i], all[|journal|]);
      }
    }
  }

  /** In an accepted prefix every started attempt has an owner of its own. */
  lemma {:induction false} OneOwnerEach(m: Manifest, journal: seq<Attempt>, disk: Disk, nested: Option<string>,
                                        bound: Attempt -> bool)
    requires EachOk(m, journal, disk, nested, bound)
    ensures |Owners(journal)| == Started(journal)
  {
    hide ContextOk, RecordOk, Under, DistinctOutputs, DistinctOwners, InOrder;
    if journal != [] {
      var n := |journal| - 1;
      assert journal == journal[..n] + [journal[n]];
      EachOkSnoc(m, journal[..n], journal[n], disk, nested, bound);
      OneOwnerEach(m, journal[..n], disk, nested, bound);
    }
  }

  /** What the audit carries along once it has read `done`. */
  ghost predicate Carried(m: Manifest, done: seq<Attempt>, disk: Disk, nested: Option<string>, bound: Attempt -> bool,
                          previous: int, outputs: set<Path>, owners: set<Owner>) {
    && EachOk(m, done, disk, nested, bound)
    && previous == Previous(m.frozen, done) && outputs == Outputs(done) && owners == Owners(done)
  }

  /** The test the audit puts to the next entry. */
  predicate Admits(m: Manifest, a: Attempt, disk: Disk, nested: Option<string>, bound: Attempt -> bool,
                   previous: int, outputs: set<Path>, owners: set<Owner>) {
    && a.output !in outputs && a.waitStarted >= previous
    && AttemptOk(m, disk, nested, bound, a)
    && OwnersOf(a) !! owners
  }

  lemma {:induction false} AdmitsExactly(m: Manifest, done: seq<Attempt>, a: Attempt, disk: Disk,
                                         nested: Option<string>, bound: Attempt -> bool, previous: int,
                                         outputs: set<Path>, owners: set<Owner>)
    requires Carried(m, done, disk, nested, bound, previous, outputs, owners)
    ensures EachOk(m, done + [a], disk, nested, bound) <==> Admits(m, a, disk, nested, bound, previous, outputs, owners)
    ensures Admits(m, a, disk, nested, bound, previous, outputs, owners) ==>
              a.finished.Some? && Carried(m, done + [a], disk, nested, bound, a.finished.value, outputs
                + {a.output}, owners + OwnersOf(a))
  {
    EachOkSnoc(m, done, a, disk, nested, bound);
    OneMore(m, done, a, disk, nested, bound);
    hide AttemptOk, EachOk, Outputs, Owners, Previous, FinishedBefore, Started;
  }

  method AuditAttempts(m: Manifest, journal: seq<Attempt>, disk: Disk, nested: Option<string>, bound: Attempt -> bool)
    returns (processes: Option<nat>)
    ensures processes.Some? <==> AuditOk(m, journal, disk, nested, bound)
    ensures processes.Some? ==> processes.value == Started(journal)
  {
    hide EachOk, Carried, Admits, OwnersOf, Started;
    if |journal| > MAXIMUM_NATIVE_PROCESSES {
      return None;
    }
    var owners: set<Owner> := {};
    var outputs: set<Path> := {};
    var previous := m.frozen;
    var i := 0;
    EachOkNil(m, disk, nested, bound);
    assert journal[..0] == [];
    while i < |journal|
      invariant 0 <= i <= |journal|
      invariant Carried(m, journal[..i], disk, nested, bound, previous, outputs, owners)
    {
      var a := journal[i];
      assert journal[..i + 1] == journal[..i] + [a];
      AdmitsExactly(m, journal[..i], a, disk, nested, bound, previous, outputs, owners);
      if !Admits(m, a, disk, nested, bound, previous, outputs, owners) {
        EachOkPrefix(m, journal, i + 1, disk, nested, bound);
        return None;
      }
      owners := owners + OwnersOf(a);
      outputs := outputs + {a.output};
      previous := a.finished.value;
      i := i + 1;
    }
    assert journal[..i] == journal;
    CarriedOwners(m, journal, disk, nested, bound, previous, outputs, owners);
    if |disk.starts| != |owners| {
      return None;
    }
    processes := Some(|owners|);
  }

  lemma {:induction false} CarriedOwners(m: Manifest, journal: seq<Attempt>, disk: Disk, nested: Option<string>,
                                         bound: Attempt -> bool, previous: int, outputs: set<Path>, owners: set<Owner>)
    requires Carried(m, journal, disk, nested, bound, previous, outputs, owners)
    ensures EachOk(m, journal, disk, nested, bound) && |owners| == Started(journal)
  {
    hide EachOk;
    OneOwnerEach(m, journal, disk, nested, bound);
  }

  function Previous(frozen: int, journal: seq<Attempt>): int {
    FinishedBefore(frozen, journal, |journal|)
  }

  /** How the three things the audit carries move over one accepted entry. */
  lemma {:induction false} OneMore(m: Manifest, journal: seq<Attempt>, a: Attempt, disk: Disk, nested: Option<string>,
                                   bound: Attempt -> bool)
    ensures Outputs(journal + [a]) == Outputs(journal) + {a.output}
    ensures Owners(journal + [a]) == Owners(journal) + OwnersOf(a)
    ensures Previous(m.frozen, journal) == FinishedBefore(m.frozen, journal, |journal|)
    ensures AttemptOk(m, disk, nested, bound, a)
      ==> a.finished.Some? && a.finished.value == Previous(m.frozen, journal + [a])
    ensures AttemptOk(m, disk, nested, bound, a) && a.nativeStarted
      ==> a.identity.Some? && OwnersOf(a) == {OwnerOf(a.identity.value)}
    ensures !a.nativeStarted ==> OwnersOf(a) == {}
  {
    hide ContextOk, RecordOk, Under, DistinctOutputs, DistinctOwners, InOrder;
    var all := journal + [a];
    assert all[|journal|] == a && forall i :: 0 <= i < |journal| ==> all[i] == journal[i];
    OwnersSnoc(journal, a);
  }

  lemma {:induction false} EachOkNil(m: Manifest, disk: Disk, nested: Option<string>, bound: Attempt -> bool)
    ensures EachOk(m, [], disk, nested, bound)
    ensures Carried(m, [], disk, nested, bound, m.frozen, {}, {})
  {
  }

  lemma {:induction false} EachOkPrefix(m: Manifest, journal: seq<Attempt>, n: nat, disk: Disk, nested: Option<string>,
                                        bound: Attempt -> bool)
    requires n <= |journal|
    ensures EachOk(m, journal, disk, nested, bound) ==> EachOk(m, journal[..n], disk, nested, bound)
    decreases |journal|
  {
    hide *;
    if n < |journal| {
      var k := |journal| - 1;
      assert journal == journal[..k] + [journal[k]];
      EachOkSnoc(m, journal[..k], journal[k], disk, nested, bound);
      EachOkPrefix(m, journal[..k], n, disk, nested, bound);
      assert journal[..k][..n] == journal[..n];
    } else {
      assert journal[..n] == journal;
    }
  }
}
