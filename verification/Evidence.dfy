/** The append-only evidence store and the recursive verification of a measurement. */
module Evidence {
  import opened Trace
  import opened Plan

  /** A stored measurement.  A validation that is not a JSON boolean is None. */
  datatype Record = Record(
    id: string,
    owner: string,
    candidateId: string,
    identities: Identities,
    settings: Settings,
    exitCode: int,
    measured: bool,
    path: NumericalPath,
    comparisonIds: seq<string>,
    roles: seq<string>,
    validations: map<string, Option<bool>>)

  /** What the raw artifact files of a record establish when every check on them passes. */
  datatype Native = Native(
    owner: string,
    fork: bool,
    tokensSha: string,
    promptSha: string,
    decodeTps: real)

  /** The files behind a record; None when one is missing, altered or inconsistent. */
  type Files = Record -> Option<Native>

  // ---- Stored records ----

  function Find(rows: seq<Record>, id: string): (r: Option<Record>)
    ensures r.Some? ==> r.value in rows && r.value.id == id
    ensures r.None? ==> forall i :: 0 <= i < |rows| ==> rows[i].id != id
  {
    if rows == [] then None
    else if rows[0].id == id then Some(rows[0])
    else Find(rows[1..], id)
  }

  function Ids(rows: seq<Record>): set<string> {
    set i | 0 <= i < |rows| :: rows[i].id
  }

  /** Ids and owned runs are both unique. */
  predicate UniqueRows(rows: seq<Record>) {
    && (forall i, j :: 0 <= i < j < |rows| ==> rows[i].id != rows[j].id)
    && (forall i, j :: 0 <= i < j < |rows| ==> rows[i].owner != rows[j].owner)
  }

  lemma {:induction false} FindGrows(rows: seq<Record>, more: seq<Record>, id: string)
    requires Find(rows, id).Some?
    ensures Find(rows + more, id) == Find(rows, id)
  {
    if rows[0].id != id {
      assert (rows + more)[1..] == rows[1..] + more;
      FindGrows(rows[1..], more, id);
    }
  }

  // ---- Verification ----

  predicate Passed(r: Record) {
    forall name :: name in {"exact_tokens", "memory", "cleanup"}
      ==> name in r.validations && r.validations[name] == Some(true)
  }

  /** Everything verification asks of one record apart from its comparisons. */
  function LocalRow(d: Digests, files: Files, r: Record): Option<Row> {
    match files(r)
    case None => None
    case Some(n) =>
      if && r.candidateId == d.ofCandidate(r.identities, r.settings)
         && (n.fork == (r.path == ForkOffVsPristine) || r.path == NumericalPathChange)
         && n.owner == r.owner && r.exitCode == 0
         && r.path != NumericalPathChange && r.settings.staticLayers.None?
         && Passed(r)
      then Some(Row(r.candidateId, r.identities, d.ofSettings(r.settings), r.exitCode, r.measured, true, true, true,
                    n.tokensSha, n.promptSha, n.decodeTps, r.path, n.owner))
      else None
  }

  /** A pristine baseline for a forked run: same subject and output, other runtime. */
  predicate Baseline(fork: Row, base: Row) {
    && base.path == StockSameRuntime
    && base.identities.runtime != fork.identities.runtime
    && base.identities.model == fork.identities.model
    && base.identities.hardware == fork.identities.hardware
    && base.identities.workloadSha == fork.identities.workloadSha
    && base.tokensSha == fork.tokensSha
    && base.promptSha == fork.promptSha
  }

  lemma {:induction false} FewerUnseen(rows: seq<Record>, seen: set<string>, id: string)
    requires id !in seen && Find(rows, id).Some?
    ensures |Ids(rows) - (seen + {id})| < |Ids(rows) - seen|
  {
    var i :| 0 <= i < |rows| && rows[i].id == id;
    assert id in Ids(rows) - seen;
    assert Ids(rows) - (seen + {id}) == (Ids(rows) - seen) - {id};
  }

  /** Verification as the recursion does it: comparisons are verified with the current id marked as seen. */
  function Verified(d: Digests, files: Files, rows: seq<Record>, id: string, seen: set<string>): (v: Option<Row>)
    decreases |Ids(rows) - seen|
  {
    if id in seen || Find(rows, id).None? then None
    else
      var r := Find(rows, id).value;
      var row := LocalRow(d, files, r);
      FewerUnseen(rows, seen, id);
      if row.None? then None
      else if r.path == ForkOffVsPristine
              && (r.comparisonIds == []
                  || exists i :: 0 <= i < |r.comparisonIds|
                                 && !Compared(row.value, Verified(d, files, rows, r.comparisonIds[i], seen + {id})))
      then None
      else row
  }

  predicate Compared(fork: Row, base: Option<Row>) {
    base.Some? && Baseline(fork, base.value)
  }

  /** A stock record stands on its own. */
  predicate StockOk(d: Digests, files: Files, rows: seq<Record>, id: string) {
    && Find(rows, id).Some?
    && Find(rows, id).value.path == StockSameRuntime
    && LocalRow(d, files, Find(rows, id).value).Some?
  }

  /** The closed form of acceptance: a fork looks at stock records, and no further. */
  ghost predicate Accepted(d: Digests, files: Files, rows: seq<Record>, id: string) {
    && Find(rows, id).Some?
    && var r := Find(rows, id).value;
       var row := LocalRow(d, files, r);
       && row.Some?
       && (r.path == ForkOffVsPristine ==> r.comparisonIds != [])
       && (r.path == ForkOffVsPristine ==>
             forall i :: 0 <= i < |r.comparisonIds| ==> StockBaseline(d, files, rows, row.value, r.comparisonIds[i]))
  }

  ghost predicate StockBaseline(d: Digests, files: Files, rows: seq<Record>, fork: Row, id: string) {
    && StockOk(d, files, rows, id)
    && Baseline(fork, LocalRow(d, files, Find(rows, id).value).value)
  }

  /** A fork is never its own baseline, and a stock record never looks at what was seen before it. */
  lemma {:induction false} BaselineStandsAlone(d: Digests, files: Files, rows: seq<Record>, fork: Row, id: string,
                                               seen: set<string>)
    ensures Compared(fork, Verified(d, files, rows, id, seen))
      <==> id !in seen && StockBaseline(d, files, rows, fork, id)
  {
    hide Passed;
  }

  /**
   For every comparison graph, cyclic or not, verification accepts a record exactly when it passes by
   itself and every baseline it names is a stock record that passes by itself.
   */
  lemma {:induction false} VerifiedExactlyWhenAccepted(d: Digests, files: Files, rows: seq<Record>, id: string)
    ensures Verified(d, files, rows, id, {}).Some? <==> Accepted(d, files, rows, id)
    ensures Accepted(d, files, rows, id)
      ==> Verified(d, files, rows, id, {}) == LocalRow(d, files, Find(rows, id).value)
  {
    hide Passed;
    if Find(rows, id).Some? && LocalRow(d, files, Find(rows, id).value).Some? {
      var r := Find(rows, id).value;
      var row := LocalRow(d, files, r).value;
      forall i | 0 <= i < |r.comparisonIds| && r.path == ForkOffVsPristine
        ensures Compared(row, Verified(d, files, rows, r.comparisonIds[i], {} + {id}))
           <==> StockBaseline(d, files, rows, row, r.comparisonIds[i])
      {
        BaselineStandsAlone(d, files, rows, row, r.comparisonIds[i], {} + {id});
      }
      if r.path == ForkOffVsPristine && Verified(d, files, rows, id, {}).Some? {
        forall i | 0 <= i < |r.comparisonIds|
          ensures StockBaseline(d, files, rows, row, r.comparisonIds[i])
        {
          assert Compared(row, Verified(d, files, rows, r.comparisonIds[i], {} + {id}));
        }
      }
    }
  }

  /** Each record names the next one among its comparisons, and the last names the first. */
  predicate IsCycle(rows: seq<Record>, ids: seq<string>) {
    && |ids| > 0
    && (forall i :: 0 <= i < |ids| ==> Find(rows, ids[i]).Some?)
    && (forall i :: 0 <= i < |ids| ==> ids[(i + 1) % |ids|] in Find(rows, ids[i]).value.comparisonIds)
  }

  predicate IsFork(rows: seq<Record>, id: string) {
    Find(rows, id).Some? && Find(rows, id).value.path == ForkOffVsPristine
  }

  /** On a cycle of comparisons no fork is accepted whose successor is a fork. */
  lemma {:induction false} CyclesAreRejected(d: Digests, files: Files, rows: seq<Record>, ids: seq<string>, i: nat)
    requires IsCycle(rows, ids) && i < |ids| && IsFork(rows, ids[i]) && IsFork(rows, ids[(i + 1) % |ids|])
    ensures Verified(d, files, rows, ids[i], {}).None?
  {
    hide Passed, Verified, LocalRow, Baseline;
    var r := Find(rows, ids[i]).value;
    var next := ids[(i + 1) % |ids|];
    var j :| 0 <= j < |r.comparisonIds| && r.comparisonIds[j] == next;
    assert forall fork :: !StockBaseline(d, files, rows, fork, r.comparisonIds[j]);
    VerifiedExactlyWhenAccepted(d, files, rows, ids[i]);
  }

  /** So a cycle of forks has no accepted record. */
  lemma {:induction false} ForkCyclesAreRejected(d: Digests, files: Files, rows: seq<Record>, ids: seq<string>, i: nat)
    requires IsCycle(rows, ids) && i < |ids| && forall k :: 0 <= k < |ids| ==> IsFork(rows, ids[k])
    ensures Verified(d, files, rows, ids[i], {}).None?
  {
    hide Verified, IsFork;
    CyclesAreRejected(d, files, rows, ids, i);
  }

  /** A stock record's comparisons are never read: it breaks every cycle it lies on. */
  lemma {:induction false} StockIgnoresComparisons(d: Digests, files: Files, rows: seq<Record>, id: string,
                                                   seen: set<string>)
    requires Find(rows, id).Some? && Find(rows, id).value.path == StockSameRuntime && id !in seen
    ensures Verified(d, files, rows, id, seen) == LocalRow(d, files, Find(rows, id).value)
  {
    hide LocalRow;
  }

  /** Which records pass by themselves. */
  lemma {:induction false} PassesAlone(d: Digests, files: Files, r: Record)
    ensures LocalRow(d, files, r).Some?
       <==> files(r).Some?
            && files(r).value.owner == r.owner && r.exitCode == 0
            && r.candidateId == d.ofCandidate(r.identities, r.settings) && r.settings.staticLayers == None
            && ((r.path == ForkOffVsPristine && files(r).value.fork)
                || (r.path == StockSameRuntime && !files(r).value.fork))
            && forall name :: name in ["exact_tokens", "memory", "cleanup"] ==>
                 name in r.validations && r.validations[name] == Some(true)
  {
    var names := ["exact_tokens", "memory", "cleanup"];
    assert names[0] in names && names[1] in names && names[2] in names;
    assert forall name :: name in names <==> name in {"exact_tokens", "memory", "cleanup"};
  }

  // ---- A cycle that is accepted ----

  /** A stock record and a fork of it that name each other. */
  function NameEachOther(d: Digests, fork: Identities, stock: Identities, settings: Settings): seq<Record> {
    var passed := map["exact_tokens" := Some(true), "memory" := Some(true), "cleanup" := Some(true)];
    [Record("fork", "x", d.ofCandidate(fork, settings), fork, settings, 0, true, ForkOffVsPristine, ["stock"], [],
      passed),
     Record("stock", "y", d.ofCandidate(stock, settings), stock, settings, 0, true, StockSameRuntime, ["fork"], [],
       passed)]
  }

  /** Runs that produce the same tokens and prove their own owner. */
  const AGREEING: Files := (r: Record) => Some(Native(r.owner, r.path == ForkOffVsPristine, "tokens", "prompt", 1.0))

  /** A cycle alone refuses nothing: a fork and a stock record of another runtime may name each other. */
  lemma {:induction false} CyclesCanBeAccepted(d: Digests, fork: Identities, stock: Identities, settings: Settings)
    requires settings.staticLayers.None? && stock == fork.(runtime := stock.runtime) && stock.runtime != fork.runtime
    ensures var rows := NameEachOther(d, fork, stock, settings);
            && UniqueRows(rows) && IsCycle(rows, ["fork", "stock"])
            && Verified(d, AGREEING, rows, "fork", {}).Some? && Verified(d, AGREEING, rows, "stock", {}).Some?
  {
    hide Verified;
    var rows := NameEachOther(d, fork, stock, settings);
    assert rows[1..][0] == rows[1];
    assert Find(rows, "fork") == Some(rows[0]) && Find(rows, "stock") == Some(rows[1]);
    VerifiedExactlyWhenAccepted(d, AGREEING, rows, "fork");
    VerifiedExactlyWhenAccepted(d, AGREEING, rows, "stock");
  }

  /** Evidence once accepted stays accepted, with the same row, however much is appended. */
  lemma {:induction false} AcceptanceIsStable(d: Digests, files: Files, rows: seq<Record>, more: seq<Record>,
                                              id: string)
    requires Verified(d, files, rows, id, {}).Some?
    ensures Verified(d, files, rows + more, id, {}) == Verified(d, files, rows, id, {})
  {
    hide Passed, Verified, LocalRow, Baseline;
    VerifiedExactlyWhenAccepted(d, files, rows, id);
    VerifiedExactlyWhenAccepted(d, files, rows + more, id);
    FindGrows(rows, more, id);
    var r := Find(rows, id).value;
    var row := LocalRow(d, files, r).value;
    if r.path == ForkOffVsPristine {
      forall i | 0 <= i < |r.comparisonIds|
        ensures StockBaseline(d, files, rows + more, row, r.comparisonIds[i])
      {
        assert StockBaseline(d, files, rows, row, r.comparisonIds[i]);
        FindGrows(rows, more, r.comparisonIds[i]);
      }
    }
  }

  /**
   What an accepted record guarantees: a clean exit, all three validations, the owner its files prove,
   no changed numerical path and no static placement.  Its row reports the tokens, prompt and rate that
   its files prove, and everything else as recorded.
   */
  lemma {:induction false} AcceptedRecord(d: Digests, files: Files, rows: seq<Record>, id: string)
    requires Verified(d, files, rows, id, {}).Some?
    ensures var r := Find(rows, id).value;
            && Find(rows, id).Some? && r.exitCode == 0
            && (forall name :: name in {"exact_tokens", "memory", "cleanup"} ==>
              name in r.validations && r.validations[name] == Some(true))
            && files(r).Some? && files(r).value.owner == r.owner
            && r.path != NumericalPathChange && r.settings.staticLayers.None?
            && (files(r).value.fork <==> r.path == ForkOffVsPristine)
            && r.candidateId == d.ofCandidate(r.identities, r.settings)
    ensures var r, row := Find(rows, id).value, Verified(d, files, rows, id, {}).value;
            && row.tokensSha == files(r).value.tokensSha && row.promptSha == files(r).value.promptSha
            && row.decodeTps == files(r).value.decodeTps && row.ownedRun == files(r).value.owner
            && row.candidateId == r.candidateId && row.identities == r.identities
            && row.settingsSha == d.ofSettings(r.settings)
            && row.exitCode == 0 && row.measured == r.measured && row.exactTokens && row.memory && row.cleanup
            && row.path == r.path
  {
    hide Verified;
    VerifiedExactlyWhenAccepted(d, files, rows, id);
  }

  /**
   An accepted fork has been compared: each record it names is stock, accepted by itself, of another
   runtime, and produced the same tokens from the same prompt for the same model, hardware and workload.
   */
  lemma {:induction false} AcceptedForkIsPristine(d: Digests, files: Files, rows: seq<Record>, id: string, i: nat)
    requires Verified(d, files, rows, id, {}).Some? && Find(rows, id).Some?
    requires Find(rows, id).value.path == ForkOffVsPristine
    requires i < |Find(rows, id).value.comparisonIds|
    ensures var fork := Verified(d, files, rows, id, {}).value;
            var base := Verified(d, files, rows, Find(rows, id).value.comparisonIds[i], {});
            && base.Some? && base.value.path == StockSameRuntime
            && base.value.identities.runtime != fork.identities.runtime
            && base.value.identities.model == fork.identities.model
              && base.value.identities.hardware == fork.identities.hardware
            && base.value.identities.workloadSha == fork.identities.workloadSha
            && base.value.tokensSha == fork.tokensSha && base.value.promptSha == fork.promptSha
  {
    hide Verified, LocalRow;
    var c := Find(rows, id).value.comparisonIds[i];
    VerifiedExactlyWhenAccepted(d, files, rows, id);
    VerifiedExactlyWhenAccepted(d, files, rows, c);
    assert StockBaseline(d, files, rows, LocalRow(d, files, Find(rows, id).value).value, c);
  }
}
