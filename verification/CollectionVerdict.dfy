/** When a conversation passes, in terms of what its two processes left and what the tools say about it. */
module CollectionVerdict {
  import opened Trace
  import opened CollectionPaths
  import opened Collection
  import opened CollectionRuns

  predicate Wrote(files: Files, dir: Path, names: set<FileName>) {
    forall name :: name in names ==> Key(dir, name) in files
  }

  /** Both processes exit with zero and leave the trace and both token files. */
  predicate Comparing(ran: Ran, dir: Path) {
    && ran.baseline == 0 && ran.instrumented == 0
    && Wrote(ran.files, dir, {TraceFile, BaselineTokens, InstrumentedTokens})
  }

  /** The comparison of the two token files. */
  function Comparison(ran: Ran, tools: Tools, dir: Path): Option<ParityReport>
    requires Comparing(ran, dir)
  {
    assert Key(dir, BaselineTokens) in ran.files && Key(dir, InstrumentedTokens) in ran.files;
    tools.compare(ran.files[Key(dir, BaselineTokens)], ran.files[Key(dir, InstrumentedTokens)])
  }

  function Events(ran: Ran, tools: Tools, dir: Path): Option<nat>
    requires Comparing(ran, dir)
  {
    assert Key(dir, TraceFile) in ran.files;
    tools.events(ran.files[Key(dir, TraceFile)])
  }

  /** Equal prompts, equal generated tokens, and at least one event in the trace. */
  predicate Succeeds(ran: Ran, tools: Tools, dir: Path) {
    && Comparing(ran, dir)
    && Comparison(ran, tools, dir).Some? && Events(ran, tools, dir).Some?
    && Comparison(ran, tools, dir).value.prompt && Comparison(ran, tools, dir).value.generated
    && Events(ran, tools, dir).value > 0
  }

  /** A tool gives up on files that are there. */
  predicate Breaks(ran: Ran, tools: Tools, dir: Path) {
    Comparing(ran, dir) && (Comparison(ran, tools, dir).None? || Events(ran, tools, dir).None?)
  }

  // ---- One attempt ----

  predicate Holds(files: Files, a: Artifact, dir: Path, name: FileName) {
    a.key == Key(dir, name) && a.key in files && files[a.key] == a.content
  }

  /** The attempt that is recorded: its index, both exit codes, and the files as they are now. */
  predicate Records(a: Attempt, k: nat, ran: Ran, tools: Tools, dir: Path, files: Files) {
    && a.index == k && a.baseline.code == ran.baseline && a.instrumented.code == ran.instrumented
    && Holds(files, a.baseline.out, dir, BaselineOut) && Holds(files, a.baseline.err, dir, BaselineErr)
    && Holds(files, a.instrumented.out, dir, InstrumentedOut) && Holds(files, a.instrumented.err, dir, InstrumentedErr)
    && (a.baseline.tokens.Some? <==> Key(dir, BaselineTokens) in ran.files)
    && (a.baseline.tokens.Some? ==> Holds(files, a.baseline.tokens.value, dir, BaselineTokens))
    && (a.instrumented.tokens.Some? <==> Key(dir, InstrumentedTokens) in ran.files)
    && (a.instrumented.tokens.Some? ==> Holds(files, a.instrumented.tokens.value, dir, InstrumentedTokens))
    && (a.trace.Some? <==> Comparing(ran, dir)) && (a.parity.Some? <==> Comparing(ran, dir))
    && (Comparing(ran, dir) ==>
          && Holds(files, a.trace.value.artifact, dir, TraceFile)
          && Events(ran, tools, dir) == Some(a.trace.value.events)
          && Holds(files, a.parity.value.artifact, dir, ParityFile)
          && Comparison(ran, tools, dir) == Some(a.parity.value.report)
          && a.parity.value.artifact.content == a.parity.value.report.text)
  }

  /** An attempt raises exactly when a tool breaks, and passes exactly when it succeeds. */
  lemma {:induction false} AttemptedExactly(tools: Tools, ran: Ran, dir: Path, k: nat)
    requires LogsWritten(ran, dir)
    ensures var o := Attempted(tools, ran, dir, k);
            && (o.result.None? <==> Breaks(ran, tools, dir))
            && (o.result.Some? && o.status == Passed <==> Succeeds(ran, tools, dir))
            && (o.result.Some? && o.status == ProcessFailed <==> !Comparing(ran, dir))
            && (o.result.Some? ==> Records(o.result.value, k, ran, tools, dir, o.files))
    ensures var o := Attempted(tools, ran, dir, k);
            forall key: Key :: key != Key(dir, ParityFile) ==> SameAt(o.files, ran.files, key)
  {
    assert Wrote(ran.files, dir, {TraceFile, BaselineTokens, InstrumentedTokens})
      <==> Key(dir, TraceFile) in ran.files && Key(dir, BaselineTokens) in ran.files
           && Key(dir, InstrumentedTokens) in ran.files;
  }

  // ---- One visit ----

  /** The directory of a conversation's next attempt, and what its processes will leave there. */
  function NextDirectory(l: Layout, s: State, id: string): Path {
    DirectoryOf(l, id, |AttemptsOf(s.shards, id)|)
  }

  function NextRun(l: Layout, s: State, probe: Probe, id: string): Ran {
    probe(id, |AttemptsOf(s.shards, id)|, s.files)
  }

  /**
   A conversation that is not skipped is marked passed exactly when its new attempt succeeds, raises
   exactly when a tool breaks, and otherwise records the attempt.
   */
  lemma {:induction false} VisitPassesExactly(l: Layout, s: State, probe: Probe, tools: Tools, id: string,
                                              conversations: nat)
    requires Local(l, probe) && ShardsInv(l, s.shards) && !s.raised && !Skips(s, tools, id)
    ensures var t := Visit(l, s, probe, tools, id, conversations);
            var ran, dir, attempts := NextRun(l, s, probe, id), NextDirectory(l, s, id), AttemptsOf(t.shards, id);
            && t.launched == s.launched + 1
            && (t.raised <==> Breaks(ran, tools, dir))
            && (!t.raised ==>
                  && (HasPassed(t.shards, id) <==> Succeeds(ran, tools, dir))
                  && |attempts| == |AttemptsOf(s.shards, id)| + 1
                  && Records(attempts[|attempts| - 1], |attempts| - 1, ran, tools, dir, t.files)
                  && t.passed == s.passed + (if Succeeds(ran, tools, dir) then 1 else 0)
                  && t.failed == s.failed + (if Succeeds(ran, tools, dir) then 0 else 1))
  {
    hide ShardsInv, Attempted, LogsWritten, Local, WithAttempt, DirectoryOf, Succeeds, Breaks, Records, Owned, Skips;
    var k := |AttemptsOf(s.shards, id)|;
    var ran, dir := NextRun(l, s, probe, id), NextDirectory(l, s, id);
    LocalLogs(l, probe, id, k, s.files);
    AttemptedExactly(tools, ran, dir, k);
    AttemptedOwned(tools, ran, dir, k);
    var o := Attempted(tools, ran, dir, k);
    if o.result.Some? {
      WithAttemptShards(l, s.shards, id, o.result.value, o.status);
      ShardIs(WithAttempt(s.shards, id, o.result.value, o.status), id);
    }
  }

  lemma {:induction false} ShardIs(shards: seq<Shard>, id: string)
    ensures ShardOf(shards, id).Some? ==> AttemptsOf(shards, id) == ShardOf(shards, id).value.attempts
    ensures HasPassed(shards, id) <==> ShardOf(shards, id).Some? && ShardOf(shards, id).value.latest == Passed
  {
  }

  /** What a recorded attempt must show to be believed: zero exits, matching reports, events, and eight intact files. */
  predicate Believable(a: Attempt, tools: Tools, files: Files) {
    && a.baseline.code == 0 && a.instrumented.code == 0
    && a.baseline.tokens.Some? && a.instrumented.tokens.Some? && a.trace.Some? && a.parity.Some?
    && a.parity.value.report.prompt && a.parity.value.report.generated
    && a.trace.value.events > 0 && tools.events(a.trace.value.artifact.content) == Some(a.trace.value.events)
    && forall f :: f in EightFiles(a) ==> Unchanged(files, f)
  }

  function EightFiles(a: Attempt): seq<Artifact>
    requires a.baseline.tokens.Some? && a.instrumented.tokens.Some? && a.trace.Some? && a.parity.Some?
  {
    [a.baseline.out, a.baseline.err, a.baseline.tokens.value, a.instrumented.out, a.instrumented.err,
     a.instrumented.tokens.value, a.trace.value.artifact, a.parity.value.artifact]
  }

  predicate Unchanged(files: Files, f: Artifact) {
    f.key in files && files[f.key] == f.content
  }

  /** A conversation is skipped exactly when it is marked passed and its last attempt is believable. */
  lemma {:induction false} SkippedExactly(s: State, tools: Tools, id: string)
    ensures Skips(s, tools, id)
       <==> HasPassed(s.shards, id)
            && AttemptsOf(s.shards, id) != []
            && var attempts := AttemptsOf(s.shards, id); Believable(attempts[|attempts| - 1], tools, s.files)
  {
    if Find(s.shards, id).Some? && AttemptsOf(s.shards, id) != [] {
      var attempts := AttemptsOf(s.shards, id);
      BelievableIs(attempts[|attempts| - 1], tools, s.files);
    }
  }

  lemma {:induction false} BelievableIs(a: Attempt, tools: Tools, files: Files)
    ensures Believable(a, tools, files) <==> AttemptOk(files, tools, a)
  {
    if a.baseline.tokens.Some? && a.instrumented.tokens.Some? && a.trace.Some? && a.parity.Some? {
      var all := EightFiles(a);
      assert all[0] in all && all[1] in all && all[2] in all && all[3] in all && all[4] in all && all[5] in all
        && all[6] in all && all[7] in all;
    }
  }

  /** A run starts with the manifest's shards and the files on disk, and has counted nothing. */
  lemma {:induction false} StartIs(shards: seq<Shard>, files: Files, saved: Option<Manifest>)
    ensures var s := Start(shards, files, saved);
            && s.shards == shards && s.files == files && s.saved == saved && !s.raised
            && s.passed == 0 && s.failed == 0 && s.skipped == 0 && s.launched == 0
  {
  }
}
