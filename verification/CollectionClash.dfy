/** What runs mark as passed can be relied on exactly for conversations that are apart. */
module CollectionClash {
  import opened Trace
  import opened CollectionPaths
  import opened Collection
  import opened CollectionRuns

  // ---- The states a collection can be in ----

  /** One run of the collector: cut after some visits, or finished. */
  datatype Session = Cut(probe: Probe, visits: nat) | Finished(probe: Probe)

  ghost predicate Possible(l: Layout, corpus: seq<string>, sessions: seq<Session>) {
    forall i :: 0 <= i < |sessions|
      ==> Local(l, sessions[i].probe) && (sessions[i].Cut? ==> sessions[i].visits <= |corpus|)
  }

  /** From an empty disk, each run starts from what the one before it left. */
  function Reached(l: Layout, tools: Tools, corpus: seq<string>, sessions: seq<Session>): State
    requires Possible(l, corpus, sessions)
  {
    if sessions == [] then Start([], map[], None)
    else
      var n := |sessions| - 1;
      assert Possible(l, corpus, sessions[..n]);
      var s := Reached(l, tools, corpus, sessions[..n]);
      match sessions[n]
      case Cut(probe, visits) => Resumed(CollectTo(l, s, probe, tools, corpus, visits))
      case Finished(probe) => Resumed(Collected(l, s, probe, tools, corpus))
  }

  lemma {:induction false} ReachedSnoc(l: Layout, tools: Tools, corpus: seq<string>, sessions: seq<Session>,
                                       next: Session)
    requires Possible(l, corpus, sessions) && Possible(l, corpus, [next])
    ensures Possible(l, corpus, sessions + [next])
    ensures var s, t := Reached(l, tools, corpus, sessions), Reached(l, tools, corpus, sessions + [next]);
            var u := CollectTo(l, s, next.probe, tools, corpus, if next.Cut? then next.visits else |corpus|);
            t.shards == u.shards && t.files == u.files && !t.raised
  {
    hide Local, CollectTo;
    var more := sessions + [next];
    assert more[..|sessions|] == sessions && [next][0] == next;
  }

  lemma {:induction false} ReachedInv(l: Layout, tools: Tools, corpus: seq<string>, sessions: seq<Session>)
    requires Possible(l, corpus, sessions)
    ensures ShardsInv(l, Reached(l, tools, corpus, sessions).shards) && !Reached(l, tools, corpus, sessions).raised
    decreases |sessions|
  {
    hide Local, CollectTo, ShardInv;
    if sessions != [] {
      var n := |sessions| - 1;
      var last := sessions[n];
      assert sessions == sessions[..n] + [last] && [last][0] == last;
      ReachedInv(l, tools, corpus, sessions[..n]);
      ReachedSnoc(l, tools, corpus, sessions[..n], last);
      var s := Reached(l, tools, corpus, sessions[..n]);
      RunKeepsInv(l, s, last.probe, tools, corpus, if last.Cut? then last.visits else |corpus|);
    }
  }

  /** The manifest on disk holds exactly the shards a run had when it was cut: a later run sees nothing else. */
  ghost predicate OnDisk(s: State) {
    match s.saved
    case None => s.shards == []
    case Some(manifest) => manifest.shards == s.shards
  }

  lemma {:induction false} RunKeepsOnDisk(l: Layout, s: State, probe: Probe, tools: Tools, corpus: seq<string>, n: nat)
    requires Local(l, probe) && ShardsInv(l, s.shards) && OnDisk(s) && n <= |corpus|
    ensures OnDisk(CollectTo(l, s, probe, tools, corpus, n))
  {
    hide Local, ShardsInv, Visit, Skips, ShardOk, ShardOf, InConversation;
    if n > 0 {
      RunKeepsOnDisk(l, s, probe, tools, corpus, n - 1);
      OneVisit(l, s, probe, tools, corpus, n - 1);
    }
  }

  lemma {:induction false} ManifestIsState(l: Layout, tools: Tools, corpus: seq<string>, sessions: seq<Session>)
    requires Possible(l, corpus, sessions)
    ensures OnDisk(Reached(l, tools, corpus, sessions))
    decreases |sessions|
  {
    hide Local, CollectTo, ShardsInv;
    if sessions != [] {
      var n := |sessions| - 1;
      var last := sessions[n];
      ManifestIsState(l, tools, corpus, sessions[..n]);
      ReachedInv(l, tools, corpus, sessions[..n]);
      var s := Reached(l, tools, corpus, sessions[..n]);
      RunKeepsOnDisk(l, s, last.probe, tools, corpus, if last.Cut? then last.visits else |corpus|);
    }
  }

  // ---- Reliable marks ----

  /** A whole run leaves every conversation marked passed exactly when it is valid. */
  ghost predicate RunJudged(l: Layout, s: State, probe: Probe, tools: Tools, corpus: seq<string>)
    requires Local(l, probe)
  {
    var t := CollectTo(l, s, probe, tools, corpus, |corpus|);
    !t.raised ==> forall i :: 0 <= i < |corpus| ==> JudgedAt(t, tools, corpus[i])
  }

  /** Whatever was on disk and whatever the processes do. */
  ghost predicate AlwaysJudged(l: Layout, corpus: seq<string>) {
    forall s: State, probe, tools :: Local(l, probe) && ShardsInv(l, s.shards) ==> RunJudged(l, s, probe, tools, corpus)
  }

  /** Whatever the processes do, in any sequence of runs that started on an empty disk. */
  ghost predicate Dependable(l: Layout, corpus: seq<string>) {
    forall sessions, probe, tools :: Possible(l, corpus, sessions) && Local(l, probe) ==>
      RunJudged(l, Reached(l, tools, corpus, sessions), probe, tools, corpus)
  }

  // ---- Processes that succeed once ----

  /** Writes the conversation's id into every file; only one attempt of one conversation succeeds. */
  function OneSuccess(l: Layout, c: string, m: nat): Probe {
    (id: string, k: nat, files: Files) =>
      var code := if id == c && k == m then 0 else 1;
      Ran(Written(files, DirectoryOf(l, id, k), id), code, code)
  }

  function Written(files: Files, dir: Path, text: string): Files {
    files[Key(dir, BaselineTokens) := text][Key(dir, InstrumentedTokens) := text][Key(dir, TraceFile) := text]
         [Key(dir, BaselineOut) := text][Key(dir, BaselineErr) := text]
         [Key(dir, InstrumentedOut) := text][Key(dir, InstrumentedErr) := text]
  }

  const CONTENT: Tools := Tools(text => Some(1), (a, b) => Some(ParityReport(true, true, "")))

  lemma {:induction false} WrittenHolds(files: Files, dir: Path, text: string)
    ensures forall key: Key :: var after := Written(files, dir, text);
      if key.dir == dir && key.name != ParityFile then key in after && after[key] == text else SameAt(after, files, key)
  {
  }

  lemma {:induction false} OneSuccessLocal(l: Layout, c: string, m: nat)
    ensures Local(l, OneSuccess(l, c, m))
  {
    hide DirectoryOf;
    forall id, k, files
      ensures LocalCall(l, OneSuccess(l, c, m), id, k, files)
    {
    }
  }

  lemma {:induction false} OneAttempt(l: Layout, c: string, m: nat, files: Files, id: string, k: nat)
    ensures LogsWritten(OneSuccess(l, c, m)(id, k, files), DirectoryOf(l, id, k))
    ensures var dir := DirectoryOf(l, id, k);
            var o := Attempted(CONTENT, OneSuccess(l, c, m)(id, k, files), dir, k);
            && o.result.Some? && (o.status == Passed <==> id == c && k == m) && Owned(dir, k, o.result.value)
            && o.result.value.baseline.out == Artifact(Key(dir, BaselineOut), id)
            && (forall key: Key :: key.name == BaselineOut ==>
                  if key.dir == dir then key in o.files && o.files[key] == id else SameAt(o.files, files, key))
  {
    hide DirectoryOf, Written, Owned;
    var dir, ran := DirectoryOf(l, id, k), OneSuccess(l, c, m)(id, k, files);
    WrittenHolds(files, dir, id);
    assert Comparable(ran, dir) <==> id == c && k == m;
    AttemptedOwned(CONTENT, ran, dir, k);
  }

  // ---- One visit ----

  /** The log of the first process of an attempt. */
  function Log(l: Layout, id: string, k: nat): Key {
    Key(DirectoryOf(l, id, k), BaselineOut)
  }

  /** The conversation's latest attempt recorded this log. */
  predicate Logged(shards: seq<Shard>, id: string, key: Key) {
    && ShardOf(shards, id).Some?
    && var attempts := ShardOf(shards, id).value.attempts;
       attempts != [] && attempts[|attempts| - 1].baseline.out == Artifact(key, id)
  }

  lemma {:induction false} OneVisitOf(l: Layout, c: string, m: nat, s: State, id: string, conversations: nat)
    requires Local(l, OneSuccess(l, c, m)) && ShardsInv(l, s.shards) && !s.raised
    ensures var t := Visit(l, s, OneSuccess(l, c, m), CONTENT, id, conversations);
            var k := |AttemptsOf(s.shards, id)|;
            && !t.raised
            && (forall key: Key :: key.name == BaselineOut && !SameAt(t.files, s.files, key) ==>
                  key in t.files && t.files[key] == id)
            && if Skips(s, CONTENT, id) then t.shards == s.shards
               else && Log(l, id, k) in t.files && t.files[Log(l, id, k)] == id
                    && Logged(t.shards, id, Log(l, id, k)) && |AttemptsOf(t.shards, id)| == k + 1
                    && (HasPassed(t.shards, id) <==> id == c && k == m)
  {
    hide DirectoryOf, Skips, Owned, ShardsInv, Local, Attempted, OneSuccess, WithAttempt;
    if !Skips(s, CONTENT, id) {
      var k := |AttemptsOf(s.shards, id)|;
      var dir := DirectoryOf(l, id, k);
      OneAttempt(l, c, m, s.files, id, k);
      var o := Attempted(CONTENT, OneSuccess(l, c, m)(id, k, s.files), dir, k);
      WithAttemptShards(l, s.shards, id, o.result.value, o.status);
    }
  }

  /** A visit writes nowhere but in the directory of the conversation's next attempt. */
  lemma {:induction false} VisitTouches(l: Layout, s: State, probe: Probe, tools: Tools, id: string,
                                        conversations: nat, key: Key)
    requires Local(l, probe) && key.dir != DirectoryOf(l, id, |AttemptsOf(s.shards, id)|)
    ensures SameAt(Visit(l, s, probe, tools, id, conversations).files, s.files, key)
  {
    hide Local, Skips, Attempted, LogsWritten, WithAttempt, DirectoryOf;
    var k := |AttemptsOf(s.shards, id)|;
    LocalLogs(l, probe, id, k, s.files);
    LocalFiles(l, probe, id, k, s.files);
    AttemptedOwned(tools, probe(id, k, s.files), DirectoryOf(l, id, k), k);
  }

  lemma {:induction false} NotSkipped(s: State, id: string)
    requires !HasPassed(s.shards, id)
    ensures !Skips(s, CONTENT, id)
  {
  }

  // ---- One run ----

  lemma {:induction false} NothingRaises(l: Layout, c: string, m: nat, s: State, corpus: seq<string>, n: nat)
    requires Local(l, OneSuccess(l, c, m)) && ShardsInv(l, s.shards) && !s.raised && n <= |corpus|
    ensures !CollectTo(l, s, OneSuccess(l, c, m), CONTENT, corpus, n).raised
  {
    hide Local, ShardsInv, Visit;
    if n > 0 {
      NothingRaises(l, c, m, s, corpus, n - 1);
      RunKeepsInv(l, s, OneSuccess(l, c, m), CONTENT, corpus, n - 1);
      OneVisitOf(l, c, m, CollectTo(l, s, OneSuccess(l, c, m), CONTENT, corpus, n - 1), corpus[n - 1], |corpus|);
    }
  }

  /** A log that does not hold an id does not get it from other conversations. */
  lemma {:induction false} NotRestored(l: Layout, c: string, m: nat, s: State, corpus: seq<string>, from: nat, n: nat,
                                       key: Key)
    requires Local(l, OneSuccess(l, c, m)) && ShardsInv(l, s.shards) && !s.raised && from <= n <= |corpus|
    requires key.name == BaselineOut && forall i :: from <= i < n ==> corpus[i] != c
    requires var t := CollectTo(l, s, OneSuccess(l, c, m), CONTENT, corpus, from); key in t.files ==> t.files[key] != c
    ensures var u := CollectTo(l, s, OneSuccess(l, c, m), CONTENT, corpus, n); key in u.files ==> u.files[key] != c
    decreases n
  {
    hide Local, ShardsInv, Visit;
    if n > from {
      NotRestored(l, c, m, s, corpus, from, n - 1, key);
      NothingRaises(l, c, m, s, corpus, n - 1);
      RunKeepsInv(l, s, OneSuccess(l, c, m), CONTENT, corpus, n - 1);
      OneVisitOf(l, c, m, CollectTo(l, s, OneSuccess(l, c, m), CONTENT, corpus, n - 1), corpus[n - 1], |corpus|);
    }
  }

  /** A conversation that has not passed gets one more attempt. */
  lemma {:induction false} OneMore(l: Layout, c: string, m: nat, s: State, corpus: seq<string>, h: nat, n: nat)
    requires Local(l, OneSuccess(l, c, m)) && ShardsInv(l, s.shards) && !s.raised && Distinct(corpus)
    requires h < n <= |corpus|
    requires !HasPassed(s.shards, corpus[h])
    ensures var t, u := CollectTo(l, s, OneSuccess(l, c, m), CONTENT, corpus, n),
      CollectTo(l, s, OneSuccess(l, c, m), CONTENT, corpus, h + 1);
            var k, id := |AttemptsOf(s.shards, corpus[h])|, corpus[h];
            && |AttemptsOf(t.shards, id)| == k + 1 && Logged(t.shards, id, Log(l, id, k))
            && (HasPassed(t.shards, id) <==> id == c && k == m)
            && Log(l, id, k) in u.files && u.files[Log(l, id, k)] == id
  {
    hide Local, ShardsInv, Visit, Distinct, Skips, Log;
    var probe := OneSuccess(l, c, m);
    Earlier(corpus, h);
    NothingRaises(l, c, m, s, corpus, h);
    RunKeepsInv(l, s, probe, CONTENT, corpus, h);
    NotYetVisited(l, s, probe, CONTENT, corpus, h, corpus[h]);
    var t := CollectTo(l, s, probe, CONTENT, corpus, h);
    NotSkipped(t, corpus[h]);
    OneVisitOf(l, c, m, t, corpus[h], |corpus|);
    VisitedStays(l, s, probe, CONTENT, corpus, h, n);
  }

  /** No earlier conversation reaches this attempt's directory with its own attempt m or a later one. */
  ghost predicate Undisturbed(l: Layout, corpus: seq<string>, i: nat, m: nat)
    requires i < |corpus|
  {
    forall h, q: nat :: 0 <= h < i && q >= m ==> DirectoryOf(l, corpus[h], q) != DirectoryOf(l, corpus[i], m)
  }

  /** Files that no visit's next attempt lies beside are kept. */
  lemma {:induction false} BeforeKept(l: Layout, s: State, probe: Probe, corpus: seq<string>, n: nat, key: Key)
    requires Local(l, probe) && ShardsInv(l, s.shards) && Distinct(corpus) && n <= |corpus|
    requires forall h :: 0 <= h < n ==> key.dir != DirectoryOf(l, corpus[h], |AttemptsOf(s.shards, corpus[h])|)
    ensures SameAt(CollectTo(l, s, probe, CONTENT, corpus, n).files, s.files, key)
  {
    hide Local, ShardsInv, Visit, Distinct, DirectoryOf;
    if n > 0 {
      BeforeKept(l, s, probe, corpus, n - 1, key);
      Earlier(corpus, n - 1);
      NotYetVisited(l, s, probe, CONTENT, corpus, n - 1, corpus[n - 1]);
      VisitTouches(l, CollectTo(l, s, probe, CONTENT, corpus, n - 1), probe, CONTENT, corpus[n - 1], |corpus|, key);
    }
  }

  /** A valid conversation whose files the earlier visits leave alone keeps its shard. */
  lemma {:induction false} StaysPassed(l: Layout, c: string, m: nat, s: State, corpus: seq<string>, i: nat)
    requires Local(l, OneSuccess(l, c, m)) && ShardsInv(l, s.shards) && !s.raised && Distinct(corpus) && i < |corpus|
    requires HasPassed(s.shards, corpus[i]) && JudgedAt(s, CONTENT, corpus[i])
    requires |AttemptsOf(s.shards, corpus[i])| == m + 1 && Undisturbed(l, corpus, i, m)
    requires forall h :: 0 <= h < i ==> |AttemptsOf(s.shards, corpus[h])| >= m
    ensures ShardOf(CollectTo(l, s, OneSuccess(l, c, m), CONTENT, corpus, |corpus|).shards, corpus[i])
      == ShardOf(s.shards, corpus[i])
  {
    hide Local, ShardsInv, Visit, Distinct, Skips, DirectoryOf, ShardOk, ShardInv, Owned, AttemptOk;
    var probe, id := OneSuccess(l, c, m), corpus[i];
    var t := CollectTo(l, s, probe, CONTENT, corpus, i);
    forall key: Key | key.dir == DirectoryOf(l, id, m)
      ensures SameAt(t.files, s.files, key)
    {
      BeforeKept(l, s, probe, corpus, i, key);
    }
    Earlier(corpus, i);
    NothingRaises(l, c, m, s, corpus, i);
    RunKeepsInv(l, s, probe, CONTENT, corpus, i);
    NotYetVisited(l, s, probe, CONTENT, corpus, i, id);
    ShardOfInv(l, s.shards, id);
    StillValid(l, s.files, t.files, ShardOf(s.shards, id).value, m);
    SkipsValid(t, id);
    OneVisitOf(l, c, m, t, id, |corpus|);
    VisitedStays(l, s, probe, CONTENT, corpus, i, |corpus|);
  }

  lemma {:induction false} StillValid(l: Layout, a: Files, b: Files, shard: Shard, m: nat)
    requires ShardInv(l, shard) && |shard.attempts| == m + 1 && ShardOk(a, CONTENT, shard)
    requires forall key: Key :: key.dir == DirectoryOf(l, shard.conversation, m) ==> SameAt(b, a, key)
    ensures ShardOk(b, CONTENT, shard)
  {
    hide Owned, AttemptOk, DirectoryOf;
    JudgedByDirectory(DirectoryOf(l, shard.conversation, m), m, b, a, CONTENT, shard.attempts[m]);
  }

  lemma {:induction false} SkipsValid(s: State, id: string)
    requires ShardOf(s.shards, id).Some? && ShardOk(s.files, CONTENT, ShardOf(s.shards, id).value)
    ensures Skips(s, CONTENT, id)
  {
    hide ShardOk;
  }

  // ---- Runs up to the clash ----

  /** Some runs cut after the first `visits` conversations, then whole runs. */
  function Schedule(probe: Probe, visits: nat, cuts: nat, whole: nat): seq<Session>
    decreases cuts + whole
  {
    if whole > 0 then Schedule(probe, visits, cuts, whole - 1) + [Finished(probe)]
    else if cuts > 0 then Schedule(probe, visits, cuts - 1, 0) + [Cut(probe, visits)]
    else []
  }

  /** How many attempts conversation h has after such runs, when only attempt m of conversation i succeeds. */
  function Made(h: nat, i: nat, m: nat, cuts: nat, whole: nat): nat {
    if h < i then cuts + whole else if h > i then whole else Min(cuts + whole, m + 1)
  }

  ghost predicate After(l: Layout, s: State, corpus: seq<string>, i: nat, m: nat, cuts: nat, whole: nat)
    requires i < |corpus|
  {
    && ShardsInv(l, s.shards) && !s.raised
    && (forall h :: 0 <= h < |corpus| ==> |AttemptsOf(s.shards, corpus[h])| == Made(h, i, m, cuts, whole))
    && (forall h :: 0 <= h < |corpus| ==> (HasPassed(s.shards, corpus[h]) <==> h == i && cuts + whole > m))
    && (cuts + whole > m ==> Logged(s.shards, corpus[i], Log(l, corpus[i], m)))
  }

  lemma {:induction false} NextCut(l: Layout, s: State, t: State, corpus: seq<string>, i: nat, m: nat, cuts: nat)
    requires i < |corpus| && Distinct(corpus) && Local(l, OneSuccess(l, corpus[i], m))
    requires After(l, s, corpus, i, m, cuts, 0) && cuts < m
    requires var u := CollectTo(l, s, OneSuccess(l, corpus[i], m), CONTENT, corpus, i + 1);
             t.shards == u.shards && t.files == u.files && !t.raised
    ensures After(l, t, corpus, i, m, cuts + 1, 0)
  {
    hide Local, ShardsInv, CollectTo, Distinct, Log, OneSuccess, Logged, ShardOf, HasPassed;
    var probe := OneSuccess(l, corpus[i], m);
    RunKeepsInv(l, s, probe, CONTENT, corpus, i + 1);
    forall h | 0 <= h < |corpus|
      ensures |AttemptsOf(t.shards, corpus[h])| == Made(h, i, m, cuts + 1, 0) && !HasPassed(t.shards, corpus[h])
    {
      if h <= i {
        OneMore(l, corpus[i], m, s, corpus, h, i + 1);
        Names(corpus, h, i);
      } else {
        Earlier(corpus, h);
        NotYetVisited(l, s, probe, CONTENT, corpus, i + 1, corpus[h]);
        SameShard(s.shards, t.shards, corpus[h]);
      }
    }
  }

  lemma {:induction false} NextWhole(l: Layout, s: State, t: State, corpus: seq<string>, i: nat, m: nat, cuts: nat,
                                     whole: nat)
    requires i < |corpus| && Distinct(corpus) && Local(l, OneSuccess(l, corpus[i], m))
    requires After(l, s, corpus, i, m, cuts, whole)
    requires cuts + whole <= m || (cuts == 0 && Undisturbed(l, corpus, i, m) && JudgedAt(s, CONTENT, corpus[i]))
    requires var u := CollectTo(l, s, OneSuccess(l, corpus[i], m), CONTENT, corpus, |corpus|);
             t.shards == u.shards && t.files == u.files && !t.raised
    ensures After(l, t, corpus, i, m, cuts, whole + 1)
  {
    hide Local, ShardsInv, CollectTo, Distinct, Log, OneSuccess, Logged, ShardOf, HasPassed, Undisturbed, JudgedAt;
    var probe := OneSuccess(l, corpus[i], m);
    RunKeepsInv(l, s, probe, CONTENT, corpus, |corpus|);
    forall h | 0 <= h < |corpus|
      ensures |AttemptsOf(t.shards, corpus[h])| == Made(h, i, m, cuts, whole + 1)
      ensures HasPassed(t.shards, corpus[h]) <==> h == i && cuts + whole + 1 > m
      ensures h == i && cuts + whole + 1 > m ==> Logged(t.shards, corpus[i], Log(l, corpus[i], m))
    {
      if h == i && cuts + whole > m {
        StaysPassed(l, corpus[i], m, s, corpus, i);
        SameShard(s.shards, t.shards, corpus[i]);
      } else {
        OneMore(l, corpus[i], m, s, corpus, h, |corpus|);
        Names(corpus, h, i);
      }
    }
  }

  lemma {:induction false} Names(corpus: seq<string>, h: nat, i: nat)
    requires Distinct(corpus) && h < |corpus| && i < |corpus|
    ensures corpus[h] == corpus[i] <==> h == i
  {
  }

  lemma {:induction false} SameShard(a: seq<Shard>, b: seq<Shard>, id: string)
    requires ShardOf(a, id) == ShardOf(b, id)
    ensures AttemptsOf(a, id) == AttemptsOf(b, id) && (HasPassed(a, id) <==> HasPassed(b, id))
    ensures forall key :: Logged(a, id, key) <==> Logged(b, id, key)
  {
  }

  lemma {:induction false} EmptyDisk(l: Layout, corpus: seq<string>, i: nat, m: nat)
    requires i < |corpus|
    ensures After(l, Start([], map[], None), corpus, i, m, 0, 0)
  {
  }

  /** Unless the marks fail before, the schedule makes its attempts. */
  lemma {:induction false} Progress(l: Layout, corpus: seq<string>, i: nat, m: nat, cuts: nat, whole: nat)
    requires i < |corpus| && Distinct(corpus) && Local(l, OneSuccess(l, corpus[i], m))
    requires cuts <= m && (cuts + whole <= m || (cuts == 0 && Undisturbed(l, corpus, i, m) && Dependable(l, corpus)))
    ensures var sessions := Schedule(OneSuccess(l, corpus[i], m), i + 1, cuts, whole);
            && Possible(l, corpus, sessions)
              && After(l, Reached(l, CONTENT, corpus, sessions), corpus, i, m, cuts, whole)
            && (cuts + whole > m ==> JudgedAt(Reached(l, CONTENT, corpus, sessions), CONTENT, corpus[i]))
    decreases cuts + whole
  {
    hide Local, CollectTo, Distinct, OneSuccess, After, Undisturbed, Dependable, Possible, Reached, Collected;
    var probe := OneSuccess(l, corpus[i], m);
    if whole > 0 {
      Progress(l, corpus, i, m, cuts, whole - 1);
      Extend(l, corpus, Schedule(probe, i + 1, cuts, whole - 1), Finished(probe));
      var s := Reached(l, CONTENT, corpus, Schedule(probe, i + 1, cuts, whole - 1));
      NextWhole(l, s, Reached(l, CONTENT, corpus, Schedule(probe, i + 1, cuts, whole)), corpus, i, m, cuts, whole - 1);
      if cuts + whole > m {
        ReachedInv(l, CONTENT, corpus, Schedule(probe, i + 1, cuts, whole - 1));
        NothingRaises(l, corpus[i], m, s, corpus, |corpus|);
        MarksHold(l, corpus, probe, i + 1, whole, i);
      }
    } else if cuts > 0 {
      Progress(l, corpus, i, m, cuts - 1, 0);
      Extend(l, corpus, Schedule(probe, i + 1, cuts - 1, 0), Cut(probe, i + 1));
      var s := Reached(l, CONTENT, corpus, Schedule(probe, i + 1, cuts - 1, 0));
      NextCut(l, s, Reached(l, CONTENT, corpus, Schedule(probe, i + 1, cuts, 0)), corpus, i, m, cuts - 1);
    } else {
      NoSessions(l, corpus);
      EmptyDisk(l, corpus, i, m);
    }
  }

  lemma {:induction false} NoSessions(l: Layout, corpus: seq<string>)
    ensures Possible(l, corpus, []) && Reached(l, CONTENT, corpus, []) == Start([], map[], None)
  {
  }

  lemma {:induction false} Extend(l: Layout, corpus: seq<string>, sessions: seq<Session>, next: Session)
    requires Possible(l, corpus, sessions) && Local(l, next.probe) && (next.Cut? ==> next.visits <= |corpus|)
    ensures Possible(l, corpus, sessions + [next])
    ensures var s, t := Reached(l, CONTENT, corpus, sessions), Reached(l, CONTENT, corpus, sessions + [next]);
            var u := CollectTo(l, s, next.probe, CONTENT, corpus, if next.Cut? then next.visits else |corpus|);
            t.shards == u.shards && t.files == u.files && !t.raised
  {
    hide Local, CollectTo, Reached;
    ReachedSnoc(l, CONTENT, corpus, sessions, next);
  }

  /** After a whole run of the schedule every mark is right, if marks are dependable. */
  lemma {:induction false} MarksHold(l: Layout, corpus: seq<string>, probe: Probe, visits: nat, whole: nat, i: nat)
    requires Dependable(l, corpus) && Local(l, probe) && whole > 0 && visits <= |corpus| && i < |corpus|
    requires Possible(l, corpus, Schedule(probe, visits, 0, whole - 1))
    requires Possible(l, corpus, Schedule(probe, visits, 0, whole))
    requires !CollectTo(l, Reached(l, CONTENT, corpus, Schedule(probe, visits, 0, whole - 1)), probe, CONTENT, corpus,
      |corpus|).raised
    ensures JudgedAt(Reached(l, CONTENT, corpus, Schedule(probe, visits, 0, whole)), CONTENT, corpus[i])
  {
    hide Local, CollectTo, Reached, Possible, ShardOk, Dependable;
    var before := Schedule(probe, visits, 0, whole - 1);
    DependableRun(l, corpus, before, probe);
    Extend(l, corpus, before, Finished(probe));
  }

  lemma {:induction false} DependableRun(l: Layout, corpus: seq<string>, sessions: seq<Session>, probe: Probe)
    requires Dependable(l, corpus) && Possible(l, corpus, sessions) && Local(l, probe)
    ensures RunJudged(l, Reached(l, CONTENT, corpus, sessions), probe, CONTENT, corpus)
  {
    hide Local, CollectTo, Reached, Possible, RunJudged;
  }

  // ---- The clash ----

  lemma {:induction false} OverwrittenIsNotJudged(t: State, id: string, key: Key)
    requires Logged(t.shards, id, key) && HasPassed(t.shards, id) && (key in t.files ==> t.files[key] != id)
    ensures !JudgedAt(t, CONTENT, id)
  {
  }

  /**
   When attempts of two conversations share a directory, the later conversation overwrites the files
   of the earlier one's only successful attempt.
   */
  lemma {:induction false} ClashIsMisjudged(l: Layout, corpus: seq<string>, i: nat, j: nat, m: nat, n: nat)
    requires Distinct(corpus) && i < j < |corpus| && DirectoryOf(l, corpus[i], m) == DirectoryOf(l, corpus[j], n)
    requires m >= n || Undisturbed(l, corpus, i, m)
    ensures !Dependable(l, corpus)
  {
    hide Local, ShardsInv, CollectTo, Distinct, DirectoryOf, JudgedAt, ShardOf, HasPassed, Undisturbed, Dependable,
      Reached, Logged;
    if Dependable(l, corpus) {
      var c, probe := corpus[i], OneSuccess(l, corpus[i], m);
      OneSuccessLocal(l, c, m);
      var cuts := if m >= n then m - n else 0;
      var sessions := Schedule(probe, i + 1, cuts, n);
      Progress(l, corpus, i, m, cuts, n);
      var s := Reached(l, CONTENT, corpus, sessions);
      var t := CollectTo(l, s, probe, CONTENT, corpus, |corpus|);
      ReachedInv(l, CONTENT, corpus, sessions);
      OneMore(l, c, m, s, corpus, j, |corpus|);
      Others(corpus, i);
      NotRestored(l, c, m, s, corpus, j + 1, |corpus|, Log(l, c, m));
      NothingRaises(l, c, m, s, corpus, |corpus|);
      NextWhole(l, s, t, corpus, i, m, cuts, n);
      DependableRun(l, corpus, sessions, probe);
      OverwrittenIsNotJudged(t, c, Log(l, c, m));
    }
  }

  lemma {:induction false} Others(corpus: seq<string>, i: nat)
    requires Distinct(corpus) && i < |corpus|
    ensures forall k :: i < k < |corpus| ==> corpus[k] != corpus[i]
  {
  }

  /**
   Marks are reliable on every disk, and already on every disk that runs can lead to, exactly if no two
   conversations share an attempt directory.
   */
  lemma {:induction false} JudgedExactlyWhenSeparate(l: Layout, corpus: seq<string>)
    requires TellsAttemptsApart(l.fs) && Distinct(corpus)
    ensures Dependable(l, corpus) <==> Separate(l, corpus)
    ensures AlwaysJudged(l, corpus) <==> Separate(l, corpus)
  {
    hide Local, ShardsInv, CollectTo, Distinct, Directory, JudgedAt, TellsAttemptsApart, Reached, Possible, RunJudged,
      Dependable, Undisturbed;
    if Separate(l, corpus) {
      forall s: State, probe, tools | Local(l, probe) && ShardsInv(l, s.shards)
        ensures RunJudged(l, s, probe, tools, corpus)
      {
        Reliable(l, s, probe, tools, corpus);
      }
    } else {
      var i, j :| 0 <= i < j < |corpus| && !Apart(l.fs, l.root, corpus[i], corpus[j]);
      var m: nat, n: nat :| Directory(l.fs, l.root, corpus[i], m) == Directory(l.fs, l.root, corpus[j], n);
      AnyClash(l, corpus, i, j, m, n);
    }
    if AlwaysJudged(l, corpus) {
      AlwaysIsDependable(l, corpus);
    }
  }

  lemma {:induction false} AnyClash(l: Layout, corpus: seq<string>, i: nat, j: nat, m: nat, n: nat)
    requires Distinct(corpus) && i < j < |corpus| && DirectoryOf(l, corpus[i], m) == DirectoryOf(l, corpus[j], n)
    ensures !Dependable(l, corpus)
  {
    hide DirectoryOf, Dependable, Distinct;
    if m >= n || Undisturbed(l, corpus, i, m) {
      ClashIsMisjudged(l, corpus, i, j, m, n);
    } else {
      var h, q: nat :| 0 <= h < i && q >= m && DirectoryOf(l, corpus[h], q) == DirectoryOf(l, corpus[i], m);
      ClashIsMisjudged(l, corpus, h, i, q, m);
    }
  }

  lemma {:induction false} AlwaysIsDependable(l: Layout, corpus: seq<string>)
    requires AlwaysJudged(l, corpus)
    ensures Dependable(l, corpus)
  {
    hide Local, ShardsInv, CollectTo, Reached, Possible, RunJudged;
    forall sessions, probe, tools | Possible(l, corpus, sessions) && Local(l, probe)
      ensures RunJudged(l, Reached(l, tools, corpus, sessions), probe, tools, corpus)
    {
      ReachedInv(l, tools, corpus, sessions);
    }
  }

  lemma {:induction false} Reliable(l: Layout, s: State, probe: Probe, tools: Tools, corpus: seq<string>)
    requires Local(l, probe) && ShardsInv(l, s.shards) && Separate(l, corpus)
    ensures RunJudged(l, s, probe, tools, corpus)
  {
    hide Local, ShardsInv, CollectTo, JudgedAt, Separate;
    var t := CollectTo(l, s, probe, tools, corpus, |corpus|);
    if !t.raised {
      forall i | 0 <= i < |corpus|
        ensures JudgedAt(t, tools, corpus[i])
      {
        RunIsJudged(l, s, probe, tools, corpus, |corpus|, i);
      }
    }
  }
}
