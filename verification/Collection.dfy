/** Resumable collection of parity-paired probe shards. */
module Collection {
  import opened Trace
  import opened CollectionPaths

  datatype FileName = BaselineTokens | InstrumentedTokens | TraceFile | BaselineOut | BaselineErr | InstrumentedOut
    | InstrumentedErr | ParityFile

  /** A file of an attempt's directory. */
  datatype Key = Key(dir: Path, name: FileName)

  type Files = map<Key, string>

  /** A recorded artifact: where it lies and what it held. */
  datatype Artifact = Artifact(key: Key, content: string)

  datatype Run = Run(code: int, out: Artifact, err: Artifact, tokens: Option<Artifact>)
  datatype ParityReport = ParityReport(prompt: bool, generated: bool, text: string)
  datatype TraceRecord = TraceRecord(artifact: Artifact, events: nat)
  datatype ParityRecord = ParityRecord(report: ParityReport, artifact: Artifact)

  datatype Attempt = Attempt(index: nat, baseline: Run, instrumented: Run, trace: Option<TraceRecord>,
    parity: Option<ParityRecord>)

  datatype Status = Passed | ParityFailed | ProcessFailed
  datatype Shard = Shard(conversation: string, attempts: seq<Attempt>, latest: Status)
  datatype Summary = Summary(conversations: nat, passed: nat, failed: nat, skipped: nat)
  datatype Manifest = Manifest(shards: seq<Shard>, summary: Summary)

  /** Reading a trace and comparing two token files; None means they raise. */
  datatype Tools = Tools(events: string -> Option<nat>, compare: (string, string) -> Option<ParityReport>)

  /** What the two probe processes of an attempt leave behind. */
  datatype Ran = Ran(files: Files, baseline: int, instrumented: int)
  type Probe = (string, nat, Files) -> Ran

  /** The processes write only into their own attempt's directory, and their logs exist. */
  ghost predicate Local(l: Layout, probe: Probe) {
    forall id, k, files :: LocalCall(l, probe, id, k, files)
  }

  ghost predicate LocalCall(l: Layout, probe: Probe, id: string, k: nat, files: Files) {
    var after, dir := probe(id, k, files).files, DirectoryOf(l, id, k);
    && (forall key: Key :: key.dir != dir ==>
      (key in after <==> key in files) && (key in files ==> after[key] == files[key]))
    && Key(dir, BaselineOut) in after && Key(dir, BaselineErr) in after
    && Key(dir, InstrumentedOut) in after && Key(dir, InstrumentedErr) in after
  }

  // ---- Judging a shard ----

  predicate Intact(files: Files, a: Artifact) {
    a.key in files && files[a.key] == a.content
  }

  predicate RunOk(files: Files, r: Run) {
    r.code == 0 && Intact(files, r.out) && Intact(files, r.err) && r.tokens.Some? && Intact(files, r.tokens.value)
  }

  predicate AttemptOk(files: Files, tools: Tools, a: Attempt) {
    && RunOk(files, a.baseline) && RunOk(files, a.instrumented)
    && a.trace.Some? && a.parity.Some?
    && Intact(files, a.trace.value.artifact) && Intact(files, a.parity.value.artifact)
    && a.parity.value.report.prompt && a.parity.value.report.generated
    && tools.events(a.trace.value.artifact.content) == Some(a.trace.value.events)
    && a.trace.value.events > 0
  }

  predicate ShardOk(files: Files, tools: Tools, s: Shard) {
    s.latest == Passed && s.attempts != [] && AttemptOk(files, tools, s.attempts[|s.attempts| - 1])
  }

  // ---- One attempt ----

  function ArtifactAt(files: Files, key: Key): Artifact
    requires key in files
  {
    Artifact(key, files[key])
  }

  function RunAt(files: Files, code: int, out: Key, err: Key, tokens: Key): Run
    requires out in files && err in files
  {
    Run(code, ArtifactAt(files, out), ArtifactAt(files, err), if tokens in files then Some(ArtifactAt(files, tokens))
      else None)
  }

  predicate Comparable(ran: Ran, dir: Path) {
    && ran.baseline == 0 && ran.instrumented == 0
    && Key(dir, TraceFile) in ran.files && Key(dir, BaselineTokens) in ran.files
      && Key(dir, InstrumentedTokens) in ran.files
  }

  predicate LogsWritten(ran: Ran, dir: Path) {
    && Key(dir, BaselineOut) in ran.files && Key(dir, BaselineErr) in ran.files
    && Key(dir, InstrumentedOut) in ran.files && Key(dir, InstrumentedErr) in ran.files
  }

  datatype Outcome = Outcome(files: Files, result: Option<Attempt>, status: Status)

  /** The files after an attempt, and the attempt unless it raises. */
  function Attempted(tools: Tools, ran: Ran, dir: Path, k: nat): Outcome
    requires LogsWritten(ran, dir)
  {
    var plain := Attempt(k,
      RunAt(ran.files, ran.baseline, Key(dir, BaselineOut), Key(dir, BaselineErr), Key(dir, BaselineTokens)),
      RunAt(ran.files, ran.instrumented, Key(dir, InstrumentedOut), Key(dir, InstrumentedErr),
        Key(dir, InstrumentedTokens)),
      None, None);
    if !Comparable(ran, dir) then Outcome(ran.files, Some(plain), ProcessFailed)
    else
      match tools.compare(ran.files[Key(dir, BaselineTokens)], ran.files[Key(dir, InstrumentedTokens)])
      case None => Outcome(ran.files, None, ProcessFailed)
      case Some(report) =>
        var files := ran.files[Key(dir, ParityFile) := report.text];
        match tools.events(files[Key(dir, TraceFile)])
        case None => Outcome(files, None, ProcessFailed)
        case Some(events) =>
          var full := plain.(trace := Some(TraceRecord(ArtifactAt(files, Key(dir, TraceFile)), events)),
                             parity := Some(ParityRecord(report, ArtifactAt(files, Key(dir, ParityFile)))));
          Outcome(files, Some(full), if events > 0 && report.prompt && report.generated then Passed else ParityFailed)
  }

  /** An attempt passes exactly when it is judged valid against the files it leaves. */
  lemma {:induction false} PassedIsValid(tools: Tools, ran: Ran, dir: Path, k: nat)
    requires LogsWritten(ran, dir) && Attempted(tools, ran, dir, k).result.Some?
    ensures var o := Attempted(tools, ran, dir, k); o.status == Passed <==> AttemptOk(o.files, tools, o.result.value)
  {
  }

  // ---- The collection ----

  datatype State = State(
    shards: seq<Shard>,
    files: Files,
    passed: nat,
    failed: nat,
    skipped: nat,
    launched: nat,
    saved: Option<Manifest>,
    raised: bool)

  function Find(shards: seq<Shard>, id: string): (i: Option<nat>)
    ensures i.Some? ==> i.value < |shards| && shards[i.value].conversation == id
    ensures i.None? ==> forall j :: 0 <= j < |shards| ==> shards[j].conversation != id
  {
    if shards == [] then None
    else if shards[|shards| - 1].conversation == id then Some(|shards| - 1)
    else Find(shards[..|shards| - 1], id)
  }

  function AttemptsOf(shards: seq<Shard>, id: string): seq<Attempt> {
    if Find(shards, id).Some? then shards[Find(shards, id).value].attempts else []
  }

  /** The shards with one more attempt for a conversation. */
  function WithAttempt(shards: seq<Shard>, id: string, a: Attempt, status: Status): seq<Shard> {
    match Find(shards, id)
    case None => shards + [Shard(id, [a], status)]
    case Some(i) => shards[i := Shard(id, shards[i].attempts + [a], status)]
  }

  predicate Skips(s: State, tools: Tools, id: string) {
    Find(s.shards, id).Some? && ShardOk(s.files, tools, s.shards[Find(s.shards, id).value])
  }

  function Visit(l: Layout, s: State, probe: Probe, tools: Tools, id: string, conversations: nat): State
    requires Local(l, probe)
  {
    if s.raised then s
    else if Skips(s, tools, id) then s.(passed := s.passed + 1, skipped := s.skipped + 1)
    else
      var k := |AttemptsOf(s.shards, id)|;
      LocalLogs(l, probe, id, k, s.files);
      var o := Attempted(tools, probe(id, k, s.files), DirectoryOf(l, id, k), k);
      match o.result
      case None => s.(files := o.files, launched := s.launched + 1, raised := true)
      case Some(a) =>
        var shards := WithAttempt(s.shards, id, a, o.status);
        var passed := s.passed + if o.status == Passed then 1 else 0;
        var failed := s.failed + if o.status == Passed then 0 else 1;
        State(shards, o.files, passed, failed, s.skipped, s.launched + 1,
              Some(Manifest(shards, Summary(conversations, passed, failed, s.skipped))), false)
  }

  lemma {:induction false} LocalLogs(l: Layout, probe: Probe, id: string, k: nat, files: Files)
    requires Local(l, probe)
    ensures LogsWritten(probe(id, k, files), DirectoryOf(l, id, k))
  {
    assert LocalCall(l, probe, id, k, files);
  }

  function Start(shards: seq<Shard>, files: Files, saved: Option<Manifest>): State {
    State(shards, files, 0, 0, 0, 0, saved, false)
  }

  /** After the first n conversations. */
  function CollectTo(l: Layout, s: State, probe: Probe, tools: Tools, corpus: seq<string>, n: nat): State
    requires Local(l, probe) && n <= |corpus|
  {
    if n == 0 then s else Visit(l, CollectTo(l, s, probe, tools, corpus, n - 1), probe, tools, corpus[n - 1], |corpus|)
  }

  function Finish(s: State, conversations: nat): State {
    if s.raised then s
    else s.(saved := Some(Manifest(s.shards, Summary(conversations, s.passed, s.failed, s.skipped))))
  }

  function Collected(l: Layout, s: State, probe: Probe, tools: Tools, corpus: seq<string>): State
    requires Local(l, probe)
  {
    Finish(CollectTo(l, s, probe, tools, corpus, |corpus|), |corpus|)
  }

  class Collector {
    const layout: Layout
    var shards: seq<Shard>
    var files: Files
    var passed: nat
    var failed: nat
    var skipped: nat
    var launched: nat
    var saved: Option<Manifest>

    constructor (layout: Layout, existing: seq<Shard>, files: Files, saved: Option<Manifest>)
      ensures this.layout == layout && Value(false) == Start(existing, files, saved)
    {
      this.layout := layout;
      this.shards, this.files, this.saved := existing, files, saved;
      passed, failed, skipped, launched := 0, 0, 0, 0;
    }

    ghost function Value(raised: bool): State
      reads this
    {
      State(shards, files, passed, failed, skipped, launched, saved, raised)
    }

    method CollectTracePairs(probe: Probe, tools: Tools, corpus: seq<string>) returns (ok: bool)
      requires Local(layout, probe)
      modifies this
      ensures Value(!ok) == Collected(layout, old(Value(false)), probe, tools, corpus)
    {
      hide Visit, Local;
      var i := 0;
      while i < |corpus|
        invariant 0 <= i <= |corpus|
        invariant Value(false) == CollectTo(layout, old(Value(false)), probe, tools, corpus, i)
      {
        ok := CollectOne(probe, tools, corpus[i], |corpus|);
        if !ok {
          RaisedStays(layout, old(Value(false)), probe, tools, corpus, i + 1, |corpus|);
          return;
        }
        i := i + 1;
      }
      Save(|corpus|);
      ok := true;
    }

    method CollectOne(probe: Probe, tools: Tools, id: string, conversations: nat) returns (ok: bool)
      requires Local(layout, probe)
      modifies this
      ensures Value(!ok) == Visit(layout, old(Value(false)), probe, tools, id, conversations)
    {
      hide ShardOk, Attempted, Local, LogsWritten, DirectoryOf;
      var at := Find(shards, id);
      if at.Some? && ShardOk(files, tools, shards[at.value]) {
        passed, skipped := passed + 1, skipped + 1;
        return true;
      }
      var k := if at.Some? then |shards[at.value].attempts| else 0;
      LocalLogs(layout, probe, id, k, files);
      launched := launched + 1;
      var o := Attempted(tools, probe(id, k, files), DirectoryOf(layout, id, k), k);
      files := o.files;
      if o.result.None? {
        return false;
      }
      if at.Some? {
        shards := shards[at.value := Shard(id, shards[at.value].attempts + [o.result.value], o.status)];
      } else {
        shards := shards + [Shard(id, [o.result.value], o.status)];
      }
      if o.status == Passed {
        passed := passed + 1;
      } else {
        failed := failed + 1;
      }
      Save(conversations);
      ok := true;
    }

    method Save(conversations: nat)
      modifies this`saved
      ensures saved == Some(Manifest(shards, Summary(conversations, passed, failed, skipped)))
    {
      saved := Some(Manifest(shards, Summary(conversations, passed, failed, skipped)));
    }
  }

  lemma {:induction false} VisitRaised(l: Layout, s: State, probe: Probe, tools: Tools, id: string, conversations: nat)
    requires Local(l, probe) && s.raised
    ensures Visit(l, s, probe, tools, id, conversations) == s
  {
  }

  lemma {:induction false} RaisedStays(l: Layout, s: State, probe: Probe, tools: Tools, corpus: seq<string>, i: nat,
                                       n: nat)
    requires Local(l, probe) && i <= n <= |corpus|
    requires CollectTo(l, s, probe, tools, corpus, i).raised
    ensures CollectTo(l, s, probe, tools, corpus, n) == CollectTo(l, s, probe, tools, corpus, i)
    decreases n
  {
    hide Local, Visit;
    if i < n {
      RaisedStays(l, s, probe, tools, corpus, i, n - 1);
      VisitRaised(l, CollectTo(l, s, probe, tools, corpus, n - 1), probe, tools, corpus[n - 1], |corpus|);
    }
  }
}
