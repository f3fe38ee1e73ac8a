/** The store itself: three tables written in one transaction, and its use by sealing. */
module EvidenceStore {
  import opened Trace
  import opened Plan
  import opened Evidence

  datatype ArtifactRow = ArtifactRow(id: string, role: string)
  datatype ValidationRow = ValidationRow(id: string, name: string, passed: bool)

  /** The three tables. */
  datatype Tables = Tables(
    measurement: seq<Record>,
    artifact: seq<ArtifactRow>,
    validation: seq<ValidationRow>)

  const EMPTY: Tables := Tables([], [], [])

  predicate AllBooleans(names: seq<string>, validations: map<string, Option<bool>>) {
    forall i :: 0 <= i < |names| ==> names[i] in validations && validations[names[i]].Some?
  }

  function ArtifactRows(id: string, roles: seq<string>): seq<ArtifactRow> {
    seq(|roles|, i requires 0 <= i < |roles| => ArtifactRow(id, roles[i]))
  }

  function ValidationRows(id: string, names: seq<string>, validations: map<string, Option<bool>>): seq<ValidationRow>
    requires AllBooleans(names, validations)
  {
    seq(|names|, i requires 0 <= i < |names| => ValidationRow(id, names[i], validations[names[i]].value))
  }

  /** Primary keys, foreign keys and the uniqueness of owned runs. */
  ghost predicate Consistent(t: Tables) {
    && UniqueRows(t.measurement)
    && (forall i, j :: 0 <= i < j < |t.artifact| ==> t.artifact[i] != t.artifact[j])
    && (forall i, j :: 0 <= i < j < |t.validation| ==>
          t.validation[i].id != t.validation[j].id || t.validation[i].name != t.validation[j].name)
    && (forall i :: 0 <= i < |t.artifact| ==> Find(t.measurement, t.artifact[i].id).Some?)
    && (forall i :: 0 <= i < |t.validation| ==> Find(t.measurement, t.validation[i].id).Some?)
  }

  /**
   One request: the record, its id, whether its files are intact, the run they prove, and the names of
   its validations in order.
   */
  datatype Request = Request(
    record: Record,
    id: string,
    intact: bool,
    owner: Option<string>,
    names: seq<string>)

  /** What holds of every request: roles do not repeat, and the names are the keys of the validations. */
  ghost predicate WellFormed(q: Request) {
    && AllDifferent(q.record.roles)
    && AllDifferent(q.names)
    && (forall i :: 0 <= i < |q.names| ==> q.names[i] in q.record.validations)
  }

  predicate Blank(s: string) {
    forall i :: 0 <= i < |s| ==> s[i] in {' ', '\t', '\n', '\r'}
  }

  /** An id is refused exactly when it has no character but spaces, tabs and line ends. */
  lemma {:induction false} BlankExactly(s: string)
    ensures !Blank(s) <==> exists i :: 0 <= i < |s| && s[i] != ' ' && s[i] != '\t' && s[i] != '\n' && s[i] != '\r'
  {
  }

  /** Whether the append goes through. */
  predicate Admitted(t: Tables, q: Request) {
    && !Blank(q.id) && q.intact && q.owner.Some?
    && (forall i :: 0 <= i < |t.measurement| ==> t.measurement[i].id != q.id && t.measurement[i].owner != q.owner.value)
    && AllBooleans(q.names, q.record.validations)
  }

  function Stored(q: Request): Record
    requires q.owner.Some?
  {
    q.record.(id := q.id, owner := q.owner.value)
  }

  function After(t: Tables, q: Request): Tables {
    if !Admitted(t, q) then t
    else Tables(t.measurement + [Stored(q)],
                t.artifact + ArtifactRows(q.id, q.record.roles),
                t.validation + ValidationRows(q.id, q.names, q.record.validations))
  }

  function History(requests: seq<Request>): Tables {
    if requests == [] then EMPTY
    else After(History(requests[..|requests| - 1]), requests[|requests| - 1])
  }

  class Database {
    var tables: Tables

    constructor ()
      ensures tables == EMPTY && Consistent(tables)
    {
      tables := EMPTY;
    }

    /** One transaction: every insert happens, or none does. */
    method AppendMeasurement(q: Request) returns (ok: bool)
      requires Consistent(tables) && WellFormed(q)
      modifies this
      ensures ok == Admitted(old(tables), q)
      ensures tables == After(old(tables), q)
      ensures Consistent(tables)
    {
      AfterConsistent(tables, q);
      if Blank(q.id) || !q.intact || q.owner.None? {
        return false;
      }
      var before := tables;
      ok := InsertMeasurement(Stored(q));
      if ok {
        InsertArtifacts(q.id, q.record.roles);
        ok := InsertValidations(q.id, q.names, q.record.validations);
      }
      if !ok {
        tables := before;
      }
    }

    method InsertMeasurement(r: Record) returns (ok: bool)
      modifies this
      ensures ok == forall i :: 0 <= i < |old(tables).measurement| ==>
        old(tables).measurement[i].id != r.id && old(tables).measurement[i].owner != r.owner
      ensures tables == if ok then old(tables).(measurement := old(tables).measurement + [r]) else old(tables)
    {
      ok := forall i :: 0 <= i < |tables.measurement| ==>
        tables.measurement[i].id != r.id && tables.measurement[i].owner != r.owner;
      if ok {
        tables := tables.(measurement := tables.measurement + [r]);
      }
    }

    method InsertArtifacts(id: string, roles: seq<string>)
      modifies this
      ensures tables == old(tables).(artifact := old(tables).artifact + ArtifactRows(id, roles))
    {
      var i := 0;
      assert ArtifactRows(id, roles[..0]) == [];
      while i < |roles|
        invariant 0 <= i <= |roles|
        invariant tables == old(tables).(artifact := old(tables).artifact + ArtifactRows(id, roles[..i]))
      {
        tables := tables.(artifact := tables.artifact + [ArtifactRow(id, roles[i])]);
        assert ArtifactRows(id, roles[..i + 1]) == ArtifactRows(id, roles[..i]) + [ArtifactRow(id, roles[i])];
        i := i + 1;
      }
      assert roles[..i] == roles;
    }

    method InsertValidations(id: string, names: seq<string>, validations: map<string, Option<bool>>) returns (ok: bool)
      requires forall i :: 0 <= i < |names| ==> names[i] in validations
      modifies this
      ensures ok == AllBooleans(names, validations)
      ensures ok ==> tables == old(tables).(validation := old(tables).validation
        + ValidationRows(id, names, validations))
    {
      var i := 0;
      while i < |names|
        invariant 0 <= i <= |names|
        invariant AllBooleans(names[..i], validations)
        invariant tables == old(tables).(validation := old(tables).validation
          + ValidationRows(id, names[..i], validations))
      {
        if validations[names[i]].None? {
          return false;
        }
        tables := tables.(validation := tables.validation + [ValidationRow(id, names[i], validations[names[i]].value)]);
        assert AllBooleans(names[..i + 1], validations);
        assert ValidationRows(id, names[..i + 1], validations)
            == ValidationRows(id, names[..i], validations) + [ValidationRow(id, names[i], validations[names[i]].value)];
        i := i + 1;
      }
      assert names[..i] == names;
      ok := true;
    }

    method VerifyMeasurement(d: Digests, files: Files, id: string, seen: set<string>) returns (v: Option<Row>)
      ensures v == Verified(d, files, tables.measurement, id, seen)
      decreases |Ids(tables.measurement) - seen|
    {
      hide LocalRow, Compared, Ids;
      if id in seen || Find(tables.measurement, id).None? {
        return None;
      }
      FewerUnseen(tables.measurement, seen, id);
      var r := Find(tables.measurement, id).value;
      v := LocalRow(d, files, r);
      if v.Some? && r.path == ForkOffVsPristine {
        if r.comparisonIds == [] {
          return None;
        }
        var i := 0;
        while i < |r.comparisonIds|
          invariant 0 <= i <= |r.comparisonIds|
          invariant forall j :: 0 <= j < i ==>
            Compared(v.value, Verified(d, files, tables.measurement, r.comparisonIds[j], seen + {id}))
        {
          var base := VerifyMeasurement(d, files, r.comparisonIds[i], seen + {id});
          if !Compared(v.value, base) {
            return None;
          }
          i := i + 1;
        }
      }
    }
  }

  // ---- Whole histories ----

  lemma {:induction false} FindSnoc(rows: seq<Record>, r: Record, id: string)
    ensures Find(rows, id).Some? ==> Find(rows + [r], id).Some?
    ensures id == r.id ==> Find(rows + [r], id).Some?
  {
    if Find(rows, id).Some? {
      FindGrows(rows, [r], id);
    }
    assert (rows + [r])[|rows|] == r;
  }

  /** The transaction's later inserts can break no key: only the first one can be refused. */
  lemma {:induction false} AfterConsistent(t: Tables, q: Request)
    requires Consistent(t) && WellFormed(q)
    ensures Consistent(After(t, q))
  {
    hide Blank, AllBooleans;
    if Admitted(t, q) {
      var u := After(t, q);
      forall i | 0 <= i < |u.artifact|
        ensures Find(u.measurement, u.artifact[i].id).Some?
      {
        FindSnoc(t.measurement, Stored(q), u.artifact[i].id);
      }
      forall i | 0 <= i < |u.validation|
        ensures Find(u.measurement, u.validation[i].id).Some?
      {
        FindSnoc(t.measurement, Stored(q), u.validation[i].id);
      }
      NewArtifactsDiffer(t, q);
      NewValidationsDiffer(t, q);
    }
  }

  lemma {:induction false} NewArtifactsDiffer(t: Tables, q: Request)
    requires Consistent(t) && WellFormed(q) && Admitted(t, q)
    ensures forall i, j :: 0 <= i < j < |After(t, q).artifact| ==> After(t, q).artifact[i] != After(t, q).artifact[j]
  {
    hide Blank, AllBooleans;
    assert forall i :: 0 <= i < |t.artifact| ==> t.artifact[i].id != q.id;
  }

  lemma {:induction false} NewValidationsDiffer(t: Tables, q: Request)
    requires Consistent(t) && WellFormed(q) && Admitted(t, q)
    ensures forall i, j :: 0 <= i < j < |After(t, q).validation| ==>
              After(t, q).validation[i].id != After(t, q).validation[j].id
                || After(t, q).validation[i].name != After(t, q).validation[j].name
  {
    hide Blank, AllBooleans;
    assert forall i :: 0 <= i < |t.validation| ==> t.validation[i].id != q.id;
  }

  /** Whatever is requested, in whatever order: the tables stay consistent and the records are only added to. */
  lemma {:induction false} HistoryOnlyGrows(requests: seq<Request>, n: nat)
    requires n <= |requests| && forall i :: 0 <= i < |requests| ==> WellFormed(requests[i])
    ensures Consistent(History(requests))
    ensures History(requests[..n]).measurement <= History(requests).measurement
  {
    if n < |requests| {
      var init := requests[..|requests| - 1];
      HistoryOnlyGrows(init, n);
      assert init[..n] == requests[..n];
      AfterConsistent(History(init), requests[|requests| - 1]);
    } else if n > 0 {
      HistoryOnlyGrows(requests, n - 1);
      assert requests[..n] == requests;
    }
  }

  /** The store that sealing sees. */
  function Backing(d: Digests, files: Files, rows: seq<Record>): Store {
    id => Verified(d, files, rows, id, {})
  }

  /** The owned run of verified evidence is the one the store holds under its id. */
  lemma {:induction false} VerifiedOwner(d: Digests, files: Files, rows: seq<Record>, id: string)
    requires Backing(d, files, rows)(id).Some?
    ensures Find(rows, id).Some? && Backing(d, files, rows)(id).value.ownedRun == Find(rows, id).value.owner
  {
    hide Verified;
    VerifiedExactlyWhenAccepted(d, files, rows, id);
  }

  /** With a store that keeps owned runs unique, different verified measurements are different owned runs. */
  lemma {:induction false} DifferentIdsDifferentRuns(d: Digests, files: Files, rows: seq<Record>, a: string, b: string)
    requires UniqueRows(rows) && a != b
    requires Backing(d, files, rows)(a).Some? && Backing(d, files, rows)(b).Some?
    ensures Backing(d, files, rows)(a).value.ownedRun != Backing(d, files, rows)(b).value.ownedRun
  {
    VerifiedOwner(d, files, rows, a);
    VerifiedOwner(d, files, rows, b);
    var i :| 0 <= i < |rows| && rows[i] == Find(rows, a).value;
    var j :| 0 <= j < |rows| && rows[j] == Find(rows, b).value;
    assert rows[i].id != rows[j].id;
  }

  /** A plan that was sealed stays accepted however much evidence is appended later. */
  lemma {:induction false} PlansStayAccepted(d: Digests, files: Files, rows: seq<Record>, more: seq<Record>,
                                             p: ExecutionPlan)
    requires ValidPlan(d, p, None, Some(Backing(d, files, rows)))
    ensures ValidPlan(d, p, None, Some(Backing(d, files, rows + more)))
  {
    hide Verified, ValidPlan;
    var s := Backing(d, files, rows);
    var t := Backing(d, files, rows + more);
    forall id | s(id).Some?
      ensures t(id) == s(id)
    {
      AcceptanceIsStable(d, files, rows, more, id);
    }
    ValidExactlyWhenChainOk(d, p, Some(s));
    ValidExactlyWhenChainOk(d, p, Some(t));
    forall i | 0 <= i < |Chain(p)|
      ensures MemberOk(d, Some(t), Chain(p)[i])
    {
      assert MemberOk(d, Some(s), Chain(p)[i]);
      MoreEvidence(d, Chain(p)[i].candidate, s, t);
    }
  }

  lemma {:induction false} MoreEvidence(d: Digests, c: Candidate, s: Store, t: Store)
    requires EvidenceOk(d, c, s)
    requires forall id :: s(id).Some? ==> t(id) == s(id)
    ensures EvidenceOk(d, c, t)
  {
    hide RowOk, StableRates;
    assert Rates(s, c.measurementIds) == Rates(t, c.measurementIds);
  }

  /** So with such a store, the check for a repeated owned run never decides: the ids already differ. */
  lemma {:induction false} RepeatedRunCheckIsRedundant(d: Digests, files: Files, requests: seq<Request>, c: Candidate)
    requires forall i :: 0 <= i < |requests| ==> WellFormed(requests[i])
    requires ValidCandidate(c)
    requires var s := Backing(d, files, History(requests).measurement);
             forall i :: 0 <= i < |c.measurementIds| ==> s(c.measurementIds[i]).Some?
    ensures var s := Backing(d, files, History(requests).measurement);
            forall i, j :: 0 <= i < j < |c.measurementIds|
              ==> s(c.measurementIds[i]).value.ownedRun != s(c.measurementIds[j]).value.ownedRun
  {
    hide Verified;
    HistoryOnlyGrows(requests, 0);
    var rows := History(requests).measurement;
    forall i, j | 0 <= i < j < |c.measurementIds|
      ensures Backing(d, files, rows)(c.measurementIds[i]).value.ownedRun != Backing(d, files,
        rows)(c.measurementIds[j]).value.ownedRun
    {
      DifferentIdsDifferentRuns(d, files, rows, c.measurementIds[i], c.measurementIds[j]);
    }
  }
}
