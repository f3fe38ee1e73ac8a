/** What holds over whole collection runs, interruptions and reruns. */
module CollectionRuns {
  import opened Trace
  import opened CollectionPaths
  import opened Collection

  // ---- Invariant of the shards ----

  /** Every file an attempt records is its own. */
  predicate OwnsRun(dir: Path, r: Run) {
    r.out.key.dir == dir && r.err.key.dir == dir && (r.tokens.Some? ==> r.tokens.value.key.dir == dir)
  }

  predicate Owned(dir: Path, k: nat, a: Attempt) {
    && a.index == k
    && OwnsRun(dir, a.baseline) && OwnsRun(dir, a.instrumented)
    && (a.trace.Some? ==> a.trace.value.artifact.key.dir == dir)
    && (a.parity.Some? ==> a.parity.value.artifact.key.dir == dir)
  }

  predicate ShardInv(l: Layout, s: Shard) {
    s.attempts != [] && forall k :: 0 <= k < |s.attempts| ==> Owned(DirectoryOf(l, s.conversation, k), k, s.attempts[k])
  }

  ghost predicate ShardsInv(l: Layout, shards: seq<Shard>) {
    && (forall i, j :: 0 <= i < j < |shards| ==> shards[i].conversation != shards[j].conversation)
    && (forall i :: 0 <= i < |shards| ==> ShardInv(l, shards[i]))
  }

  /** A file in some attempt directory of the conversation. */
  ghost predicate InConversation(l: Layout, id: string, key: Key) {
    exists k: nat :: key.dir == DirectoryOf(l, id, k)
  }

  lemma {:induction false} NotInBoth(l: Layout, c: string, d: string, key: Key)
    requires Apart(l.fs, l.root, c, d) && InConversation(l, c, key)
    ensures !InConversation(l, d, key)
  {
    hide Directory;
    var j: nat :| key.dir == DirectoryOf(l, c, j);
    forall k: nat
      ensures key.dir != DirectoryOf(l, d, k)
    {
      assert Directory(l.fs, l.root, c, j) != Directory(l.fs, l.root, d, k);
    }
  }

  /** The shard of a conversation. */
  function ShardOf(shards: seq<Shard>, id: string): Option<Shard> {
    if Find(shards, id).Some? then Some(shards[Find(shards, id).value]) else None
  }

  lemma {:induction false} FindIs(shards: seq<Shard>, i: nat)
    requires i < |shards|
    requires forall j, k :: 0 <= j < k < |shards| ==> shards[j].conversation != shards[k].conversation
    ensures Find(shards, shards[i].conversation) == Some(i)
  {
    assert Find(shards, shards[i].conversation).Some?;
  }

  /** Adding an attempt touches one conversation only. */
  lemma {:induction false} WithAttemptShards(l: Layout, shards: seq<Shard>, id: string, a: Attempt, status: Status)
    requires ShardsInv(l, shards) && Owned(DirectoryOf(l, id, |AttemptsOf(shards, id)|), |AttemptsOf(shards, id)|, a)
    ensures var after := WithAttempt(shards, id, a, status);
            && ShardsInv(l, after)
            && ShardOf(after, id) == Some(Shard(id, AttemptsOf(shards, id) + [a], status))
            && (forall other :: other != id ==> ShardOf(after, other) == ShardOf(shards, other))
  {
    hide Owned, DirectoryOf;
    var after := WithAttempt(shards, id, a, status);
    var i := if Find(shards, id).Some? then Find(shards, id).value else |shards|;
    assert forall j :: 0 <= j < |shards| && j != i ==> after[j] == shards[j];
    forall j, k | 0 <= j < k < |after|
      ensures after[j].conversation != after[k].conversation
    {
      if k < |shards| {
        assert shards[j].conversation != shards[k].conversation;
      }
    }
    assert [] + [a] == [a];
    assert after[i] == Shard(id, AttemptsOf(shards, id) + [a], status);
    assert ShardInv(l, after[i]);
    FindIs(after, i);
    forall other | other != id
      ensures ShardOf(after, other) == ShardOf(shards, other)
    {
      FindOther(shards, after, i, other);
    }
  }

  lemma {:induction false} FindOther(shards: seq<Shard>, after: seq<Shard>, i: nat, other: string)
    requires forall j, k :: 0 <= j < k < |shards| ==> shards[j].conversation != shards[k].conversation
    requires forall j, k :: 0 <= j < k < |after| ==> after[j].conversation != after[k].conversation
    requires i <= |shards| && |shards| <= |after| <= |shards| + 1 && i < |after|
    requires (|after| > |shards| ==> i == |shards|)
    requires forall j :: 0 <= j < |shards| && j != i ==> after[j] == shards[j]
    requires after[i].conversation != other && (i < |shards| ==> shards[i].conversation != other)
    ensures ShardOf(after, other) == ShardOf(shards, other)
  {
    var f := Find(shards, other);
    if f.Some? {
      FindIs(after, f.value);
    } else {
      assert forall j :: 0 <= j < |after| ==> after[j].conversation != other;
    }
  }

  // ---- One conversation ----

  lemma {:induction false} AttemptedOwned(tools: Tools, ran: Ran, dir: Path, k: nat)
    requires LogsWritten(ran, dir)
    ensures Attempted(tools, ran, dir, k).result.Some? ==> Owned(dir, k, Attempted(tools, ran, dir, k).result.value)
    ensures forall key: Key :: key.dir != dir ==> SameAt(Attempted(tools, ran, dir, k).files, ran.files, key)
  {
  }

  predicate SameAt(a: Files, b: Files, key: Key) {
    (key in a <==> key in b) && (key in a ==> a[key] == b[key])
  }

  /** What one visit does, for every conversation. */
  ghost predicate Visited(l: Layout, s: State, t: State, tools: Tools, id: string, conversations: nat) {
    && ShardsInv(l, t.shards)
    && (forall other :: other != id ==> ShardOf(t.shards, other) == ShardOf(s.shards, other))
    && (forall key: Key :: !InConversation(l, id, key) ==> SameAt(t.files, s.files, key))
    && (t.raised ==> t.shards == s.shards && t.saved == s.saved)
    && (!t.raised ==> VisitedOne(s, t, tools, id, conversations))
  }

  /** A visit that does not raise leaves a judged shard, and launches exactly when there was no valid one. */
  ghost predicate VisitedOne(s: State, t: State, tools: Tools, id: string, conversations: nat) {
    && ShardOf(t.shards, id).Some?
    && (ShardOf(t.shards, id).value.latest == Passed <==> ShardOk(t.files, tools, ShardOf(t.shards, id).value))
    && t.passed == s.passed + (if ShardOf(t.shards, id).value.latest == Passed then 1 else 0)
    && t.failed == s.failed + (if ShardOf(t.shards, id).value.latest == Passed then 0 else 1)
    && if Skips(s, tools, id)
       then t == s.(passed := s.passed + 1, skipped := s.skipped + 1)
       else && t.launched == s.launched + 1 && |AttemptsOf(t.shards, id)| == |AttemptsOf(s.shards, id)| + 1
            && AttemptsOf(s.shards, id) <= AttemptsOf(t.shards, id)
            && t.saved == Some(Manifest(t.shards, Summary(conversations, t.passed, t.failed, t.skipped)))
  }

  lemma {:induction false} VisitFacts(l: Layout, s: State, probe: Probe, tools: Tools, id: string, conversations: nat)
    requires Local(l, probe) && ShardsInv(l, s.shards) && !s.raised
    ensures Visited(l, s, Visit(l, s, probe, tools, id, conversations), tools, id, conversations)
  {
    hide ShardsInv, ShardOk, Attempted, LogsWritten, Local, Owned, WithAttempt, AttemptOk, DirectoryOf, InConversation;
    var t := Visit(l, s, probe, tools, id, conversations);
    if !Skips(s, tools, id) {
      var k := |AttemptsOf(s.shards, id)|;
      var dir, ran := DirectoryOf(l, id, k), probe(id, k, s.files);
      LocalLogs(l, probe, id, k, s.files);
      LocalFiles(l, probe, id, k, s.files);
      AttemptedOwned(tools, ran, dir, k);
      var o := Attempted(tools, ran, dir, k);
      OutsideKept(l, s, t, id, k);
      if o.result.Some? {
        WithAttemptShards(l, s.shards, id, o.result.value, o.status);
        PassedIsValid(tools, ran, dir, k);
        LatestJudged(o.files, tools, Shard(id, AttemptsOf(s.shards, id) + [o.result.value], o.status), o.result.value);
      }
    } else {
      SkippedPassed(s, tools, id);
    }
  }

  lemma {:induction false} OutsideKept(l: Layout, s: State, t: State, id: string, k: nat)
    requires forall key: Key :: key.dir != DirectoryOf(l, id, k) ==> SameAt(t.files, s.files, key)
    ensures forall key: Key :: !InConversation(l, id, key) ==> SameAt(t.files, s.files, key)
  {
    hide Directory, SameAt;
  }

  /** A visit touches no file of an earlier attempt of its conversation. */
  lemma {:induction false} VisitKeepsEarlier(l: Layout, s: State, probe: Probe, tools: Tools, id: string,
                                             conversations: nat, key: Key, j: nat)
    requires Local(l, probe) && TellsAttemptsApart(l.fs) && j < |AttemptsOf(s.shards, id)|
    requires key.dir == DirectoryOf(l, id, j)
    ensures SameAt(Visit(l, s, probe, tools, id, conversations).files, s.files, key)
  {
    hide Local, Skips, Attempted, LogsWritten, WithAttempt, Directory, TellsAttemptsApart;
    var k := |AttemptsOf(s.shards, id)|;
    LocalLogs(l, probe, id, k, s.files);
    LocalFiles(l, probe, id, k, s.files);
    AttemptedOwned(tools, probe(id, k, s.files), DirectoryOf(l, id, k), k);
    OwnAttemptsApart(l.fs, l.root, id, j, k);
  }

  lemma {:induction false} LocalFiles(l: Layout, probe: Probe, id: string, k: nat, files: Files)
    requires Local(l, probe)
    ensures forall key: Key :: key.dir != DirectoryOf(l, id, k) ==> SameAt(probe(id, k, files).files, files, key)
  {
    hide DirectoryOf;
    assert LocalCall(l, probe, id, k, files);
  }

  lemma {:induction false} LatestJudged(files: Files, tools: Tools, shard: Shard, a: Attempt)
    requires shard.attempts != [] && shard.attempts[|shard.attempts| - 1] == a
    requires shard.latest == Passed <==> AttemptOk(files, tools, a)
    ensures shard.latest == Passed <==> ShardOk(files, tools, shard)
  {
  }

  lemma {:induction false} SkippedPassed(s: State, tools: Tools, id: string)
    requires Skips(s, tools, id)
    ensures ShardOf(s.shards, id).Some? && ShardOf(s.shards, id).value.latest == Passed
      && ShardOk(s.files, tools, ShardOf(s.shards, id).value)
  {
    hide AttemptOk;
  }

  // ---- Whole runs ----

  lemma {:induction false} RunKeepsInv(l: Layout, s: State, probe: Probe, tools: Tools, corpus: seq<string>, n: nat)
    requires Local(l, probe) && ShardsInv(l, s.shards) && n <= |corpus|
    ensures ShardsInv(l, CollectTo(l, s, probe, tools, corpus, n).shards)
  {
    hide Local, ShardsInv, Visit, VisitedOne;
    if n > 0 {
      RunKeepsInv(l, s, probe, tools, corpus, n - 1);
      var t := CollectTo(l, s, probe, tools, corpus, n - 1);
      if t.raised {
        VisitRaised(l, t, probe, tools, corpus[n - 1], |corpus|);
      } else {
        VisitFacts(l, t, probe, tools, corpus[n - 1], |corpus|);
      }
    }
  }

  /** A conversation that has not been visited yet is exactly as it was ... */
  lemma {:induction false} NotYetVisited(l: Layout, s: State, probe: Probe, tools: Tools, corpus: seq<string>, n: nat,
                                         id: string)
    requires Local(l, probe) && ShardsInv(l, s.shards) && n <= |corpus|
    requires forall i :: 0 <= i < n ==> corpus[i] != id
    ensures ShardOf(CollectTo(l, s, probe, tools, corpus, n).shards, id) == ShardOf(s.shards, id)
  {
    hide Local, ShardsInv, Visit, VisitedOne, ShardOf, InConversation;
    if n > 0 {
      NotYetVisited(l, s, probe, tools, corpus, n - 1, id);
      OneVisit(l, s, probe, tools, corpus, n - 1);
    }
  }

  /** ... and so are its files, if it is apart from those that have. */
  lemma {:induction false} FilesNotTouched(l: Layout, s: State, probe: Probe, tools: Tools, corpus: seq<string>,
                                           from: nat, n: nat, id: string)
    requires Local(l, probe) && ShardsInv(l, s.shards) && from <= n <= |corpus|
    requires forall i :: from <= i < n ==> Apart(l.fs, l.root, corpus[i], id)
    ensures forall key: Key :: InConversation(l, id, key) ==>
      SameAt(CollectTo(l, s, probe, tools, corpus, n).files, CollectTo(l, s, probe, tools, corpus, from).files, key)
    decreases n
  {
    hide Local, ShardsInv, Visit, VisitedOne, ShardOf, InConversation, Apart;
    if n > from {
      FilesNotTouched(l, s, probe, tools, corpus, from, n - 1, id);
      OneVisit(l, s, probe, tools, corpus, n - 1);
      var t, u := CollectTo(l, s, probe, tools, corpus, n - 1), CollectTo(l, s, probe, tools, corpus, n);
      forall key: Key | InConversation(l, id, key)
        ensures SameAt(u.files, t.files, key)
      {
        if InConversation(l, corpus[n - 1], key) {
          NotInBoth(l, corpus[n - 1], id, key);
        }
      }
    }
  }

  /** One more visit of a run, raised or not. */
  lemma {:induction false} OneVisit(l: Layout, s: State, probe: Probe, tools: Tools, corpus: seq<string>, n: nat)
    requires Local(l, probe) && ShardsInv(l, s.shards) && n < |corpus|
    ensures var t, u := CollectTo(l, s, probe, tools, corpus, n), CollectTo(l, s, probe, tools, corpus, n + 1);
            if t.raised then u == t else Visited(l, t, u, tools, corpus[n], |corpus|)
  {
    hide Local, ShardsInv, Visit, Visited;
    RunKeepsInv(l, s, probe, tools, corpus, n);
    var t := CollectTo(l, s, probe, tools, corpus, n);
    if t.raised {
      VisitRaised(l, t, probe, tools, corpus[n], |corpus|);
    } else {
      VisitFacts(l, t, probe, tools, corpus[n], |corpus|);
    }
  }

  /** From visit i on, the shard of a conversation that was visited then no longer changes. */
  lemma {:induction false} VisitedStays(l: Layout, s: State, probe: Probe, tools: Tools, corpus: seq<string>, i: nat,
                                        n: nat)
    requires Local(l, probe) && ShardsInv(l, s.shards) && Distinct(corpus) && i < n <= |corpus|
    ensures ShardOf(CollectTo(l, s, probe, tools, corpus, n).shards, corpus[i])
      == ShardOf(CollectTo(l, s, probe, tools, corpus, i + 1).shards, corpus[i])
    decreases n
  {
    hide Local, ShardsInv, Visit, VisitedOne, ShardOf, InConversation;
    if n > i + 1 {
      VisitedStays(l, s, probe, tools, corpus, i, n - 1);
      OneVisit(l, s, probe, tools, corpus, n - 1);
      assert corpus[i] != corpus[n - 1];
    }
  }

  /** In one run the attempts of a conversation only grow, and by at most one; earlier attempts stay. */
  lemma {:induction false} AttemptsGrowByOne(l: Layout, s: State, probe: Probe, tools: Tools, corpus: seq<string>,
                                             n: nat, id: string)
    requires Local(l, probe) && ShardsInv(l, s.shards) && Distinct(corpus) && n <= |corpus|
    ensures var t := CollectTo(l, s, probe, tools, corpus, n);
            AttemptsOf(s.shards, id) <= AttemptsOf(t.shards, id)
              && |AttemptsOf(t.shards, id)| <= |AttemptsOf(s.shards, id)| + 1
  {
    hide Local, ShardsInv, Visit, Skips, Distinct;
    if exists i :: 0 <= i < n && corpus[i] == id {
      var i :| 0 <= i < n && corpus[i] == id;
      Earlier(corpus, i);
      NotYetVisited(l, s, probe, tools, corpus, i, id);
      VisitedStays(l, s, probe, tools, corpus, i, n);
      RunKeepsInv(l, s, probe, tools, corpus, i);
      var t := CollectTo(l, s, probe, tools, corpus, i);
      if t.raised {
        VisitRaised(l, t, probe, tools, id, |corpus|);
      } else {
        VisitFacts(l, t, probe, tools, id, |corpus|);
      }
    } else {
      NotYetVisited(l, s, probe, tools, corpus, n, id);
    }
  }

  lemma {:induction false} Earlier(corpus: seq<string>, i: nat)
    requires Distinct(corpus) && i < |corpus|
    ensures forall j :: 0 <= j < i ==> corpus[j] != corpus[i]
  {
  }

  lemma {:induction false} SeparateIsDistinct(l: Layout, corpus: seq<string>)
    requires Separate(l, corpus)
    ensures Distinct(corpus)
    ensures forall i, j :: 0 <= i < |corpus| && 0 <= j < |corpus| && i != j ==>
      Apart(l.fs, l.root, corpus[i], corpus[j])
  {
    hide Apart, TellsAttemptsApart;
    forall i, j | 0 <= i < j < |corpus|
      ensures corpus[i] != corpus[j] && Apart(l.fs, l.root, corpus[j], corpus[i])
    {
      ApartBothWays(l, corpus[i], corpus[j]);
    }
  }

  /** A run overwrites no file of any earlier attempt. */
  lemma {:induction false} EarlierAttemptsKeepTheirFiles(l: Layout, s: State, probe: Probe, tools: Tools,
                                                         corpus: seq<string>, i: nat, key: Key, j: nat)
    requires Local(l, probe) && ShardsInv(l, s.shards) && Separate(l, corpus) && i < |corpus|
    requires j < |AttemptsOf(s.shards, corpus[i])| && key.dir == DirectoryOf(l, corpus[i], j)
    ensures SameAt(CollectTo(l, s, probe, tools, corpus, |corpus|).files, s.files, key)
  {
    hide Local, ShardsInv, Visit, Distinct, Apart, DirectoryOf, TellsAttemptsApart;
    SeparateIsDistinct(l, corpus);
    Earlier(corpus, i);
    FilesNotTouched(l, s, probe, tools, corpus, 0, i, corpus[i]);
    NotYetVisited(l, s, probe, tools, corpus, i, corpus[i]);
    var t := CollectTo(l, s, probe, tools, corpus, i);
    if t.raised {
      VisitRaised(l, t, probe, tools, corpus[i], |corpus|);
    } else {
      VisitKeepsEarlier(l, t, probe, tools, corpus[i], |corpus|, key, j);
    }
    FilesNotTouched(l, s, probe, tools, corpus, i + 1, |corpus|, corpus[i]);
    assert InConversation(l, corpus[i], key);
  }

  /** A judgement depends only on the shard's own files. */
  lemma {:induction false} JudgedByOwnFiles(l: Layout, a: Files, b: Files, tools: Tools, shard: Shard)
    requires ShardInv(l, shard) && forall key: Key :: InConversation(l, shard.conversation, key) ==> SameAt(a, b, key)
    ensures ShardOk(a, tools, shard) <==> ShardOk(b, tools, shard)
  {
    hide Owned, AttemptOk, DirectoryOf;
    var last := |shard.attempts| - 1;
    var dir := DirectoryOf(l, shard.conversation, last);
    assert Owned(dir, last, shard.attempts[last]);
    forall key: Key | key.dir == dir
      ensures SameAt(a, b, key)
    {
      assert InConversation(l, shard.conversation, key);
    }
    JudgedByDirectory(dir, last, a, b, tools, shard.attempts[last]);
  }

  lemma {:induction false} JudgedByDirectory(dir: Path, k: nat, a: Files, b: Files, tools: Tools, attempt: Attempt)
    requires Owned(dir, k, attempt) && forall key: Key :: key.dir == dir ==> SameAt(a, b, key)
    ensures AttemptOk(a, tools, attempt) <==> AttemptOk(b, tools, attempt)
  {
  }

  lemma {:induction false} ShardOfInv(l: Layout, shards: seq<Shard>, id: string)
    requires ShardsInv(l, shards) && ShardOf(shards, id).Some?
    ensures ShardInv(l, ShardOf(shards, id).value) && ShardOf(shards, id).value.conversation == id
  {
    hide ShardInv;
  }

  /** Conversations of the first n whose latest attempt passed. */
  function PassedCount(shards: seq<Shard>, corpus: seq<string>, n: nat): nat
    requires n <= |corpus|
  {
    if n == 0 then 0
    else PassedCount(shards, corpus, n - 1) + if HasPassed(shards, corpus[n - 1]) then 1 else 0
  }

  predicate HasPassed(shards: seq<Shard>, id: string) {
    ShardOf(shards, id).Some? && ShardOf(shards, id).value.latest == Passed
  }

  /** After n conversations: every one of them has a shard, and the counters say how many passed. */
  ghost predicate Counted(t: State, corpus: seq<string>, n: nat)
    requires n <= |corpus|
  {
    && (forall i :: 0 <= i < n ==> ShardOf(t.shards, corpus[i]).Some?)
    && t.passed == PassedCount(t.shards, corpus, n) && t.passed + t.failed == n
  }

  /** A conversation's shard is marked passed exactly when it would be judged valid. */
  predicate JudgedAt(t: State, tools: Tools, id: string) {
    && ShardOf(t.shards, id).Some?
    && (ShardOf(t.shards, id).value.latest == Passed <==> ShardOk(t.files, tools, ShardOf(t.shards, id).value))
  }

  lemma {:induction false} CountSame(a: seq<Shard>, b: seq<Shard>, corpus: seq<string>, n: nat)
    requires n <= |corpus| && forall i :: 0 <= i < n ==> ShardOf(a, corpus[i]) == ShardOf(b, corpus[i])
    ensures PassedCount(a, corpus, n) == PassedCount(b, corpus, n)
  {
    if n > 0 {
      CountSame(a, b, corpus, n - 1);
    }
  }

  /** At every point of a run that has not raised, passed plus failed is the number of visited conversations. */
  lemma {:induction false} RunIsCounted(l: Layout, s: State, probe: Probe, tools: Tools, corpus: seq<string>, n: nat)
    requires Local(l, probe) && ShardsInv(l, s.shards) && Distinct(corpus) && n <= |corpus|
    requires s.passed == s.failed == 0 && !CollectTo(l, s, probe, tools, corpus, n).raised
    ensures Counted(CollectTo(l, s, probe, tools, corpus, n), corpus, n)
  {
    hide Local, ShardsInv, Visit, Skips, Distinct, ShardOk, ShardOf, InConversation;
    if n > 0 {
      var t := CollectTo(l, s, probe, tools, corpus, n - 1);
      var u := CollectTo(l, s, probe, tools, corpus, n);
      OneVisit(l, s, probe, tools, corpus, n - 1);
      RunIsCounted(l, s, probe, tools, corpus, n - 1);
      Earlier(corpus, n - 1);
      CountSame(t.shards, u.shards, corpus, n - 1);
    }
  }

  /**
   At every point of a run that has not raised, over conversations that are apart, each visited one is
   marked passed exactly when the next run would judge it valid.
   */
  lemma {:induction false} RunIsJudged(l: Layout, s: State, probe: Probe, tools: Tools, corpus: seq<string>, n: nat,
                                       i: nat)
    requires Local(l, probe) && ShardsInv(l, s.shards) && Separate(l, corpus) && i < n <= |corpus|
    requires !CollectTo(l, s, probe, tools, corpus, n).raised
    ensures JudgedAt(CollectTo(l, s, probe, tools, corpus, n), tools, corpus[i])
  {
    hide Local, ShardsInv, Visit, Skips, ShardOk, ShardOf, InConversation, Separate, Apart, Distinct;
    SeparateIsDistinct(l, corpus);
    var t, u := CollectTo(l, s, probe, tools, corpus, i + 1), CollectTo(l, s, probe, tools, corpus, n);
    NotRaisedBefore(l, s, probe, tools, corpus, i, n);
    NotRaisedBefore(l, s, probe, tools, corpus, i + 1, n);
    OneVisit(l, s, probe, tools, corpus, i);
    RunKeepsInv(l, s, probe, tools, corpus, i + 1);
    VisitedStays(l, s, probe, tools, corpus, i, n);
    FilesNotTouched(l, s, probe, tools, corpus, i + 1, n, corpus[i]);
    ShardOfInv(l, t.shards, corpus[i]);
    JudgedByOwnFiles(l, u.files, t.files, tools, ShardOf(t.shards, corpus[i]).value);
  }

  lemma {:induction false} NotRaisedBefore(l: Layout, s: State, probe: Probe, tools: Tools, corpus: seq<string>,
                                           i: nat, n: nat)
    requires Local(l, probe) && i <= n <= |corpus| && !CollectTo(l, s, probe, tools, corpus, n).raised
    ensures !CollectTo(l, s, probe, tools, corpus, i).raised
  {
    hide Local, CollectTo;
    if CollectTo(l, s, probe, tools, corpus, i).raised {
      RaisedStays(l, s, probe, tools, corpus, i, n);
    }
  }

  // ---- Reruns ----

  /**
   A rerun on unchanged files launches exactly the conversations that have not passed: at every point
   it has launched as many as there were unpassed ones among those visited.
   */
  lemma {:induction false} RerunLaunches(l: Layout, s: State, probe: Probe, tools: Tools, corpus: seq<string>, n: nat)
    requires Local(l, probe) && ShardsInv(l, s.shards) && Separate(l, corpus) && n <= |corpus|
    requires s.launched == 0 && s.skipped == 0
    requires forall i :: 0 <= i < |corpus| ==> JudgedAt(s, tools, corpus[i])
    requires !CollectTo(l, s, probe, tools, corpus, n).raised
    ensures CollectTo(l, s, probe, tools, corpus, n).launched == n - PassedCount(s.shards, corpus, n)
    ensures CollectTo(l, s, probe, tools, corpus, n).skipped == PassedCount(s.shards, corpus, n)
  {
    hide Local, ShardsInv, Visit, Distinct, ShardOk, ShardOf, Separate, Apart, InConversation;
    if n > 0 {
      SeparateIsDistinct(l, corpus);
      var t := CollectTo(l, s, probe, tools, corpus, n - 1);
      if t.raised {
        VisitRaised(l, t, probe, tools, corpus[n - 1], |corpus|);
      }
      RerunLaunches(l, s, probe, tools, corpus, n - 1);
      RunKeepsInv(l, s, probe, tools, corpus, n - 1);
      Earlier(corpus, n - 1);
      NotYetVisited(l, s, probe, tools, corpus, n - 1, corpus[n - 1]);
      FilesNotTouched(l, s, probe, tools, corpus, 0, n - 1, corpus[n - 1]);
      SkipsPassed(l, s, t, tools, corpus[n - 1]);
      VisitCounts(l, t, probe, tools, corpus[n - 1], |corpus|);
    }
  }

  lemma {:induction false} VisitCounts(l: Layout, s: State, probe: Probe, tools: Tools, id: string, conversations: nat)
    requires Local(l, probe) && !s.raised
    ensures var t := Visit(l, s, probe, tools, id, conversations);
            if Skips(s, tools, id) then t.launched == s.launched && t.skipped == s.skipped + 1
            else t.launched == s.launched + 1 && t.skipped == s.skipped
  {
    hide Local, Skips, Attempted, LogsWritten, WithAttempt;
    LocalLogs(l, probe, id, |AttemptsOf(s.shards, id)|, s.files);
  }

  lemma {:induction false} SkipsPassed(l: Layout, s: State, t: State, tools: Tools, id: string)
    requires ShardsInv(l, s.shards) && JudgedAt(s, tools, id)
    requires ShardOf(t.shards, id) == ShardOf(s.shards, id)
    requires forall key: Key :: InConversation(l, id, key) ==> SameAt(t.files, s.files, key)
    ensures Skips(t, tools, id) <==> HasPassed(s.shards, id)
  {
    hide ShardsInv, ShardOk;
    ShardOfInv(l, s.shards, id);
    JudgedByOwnFiles(l, t.files, s.files, tools, ShardOf(s.shards, id).value);
  }

  lemma {:induction false} AllPassedCount(shards: seq<Shard>, corpus: seq<string>, n: nat)
    requires n <= |corpus|
    ensures PassedCount(shards, corpus, n) <= n
    ensures PassedCount(shards, corpus, n) == n <==> forall i :: 0 <= i < n ==> HasPassed(shards, corpus[i])
  {
    if n > 0 {
      AllPassedCount(shards, corpus, n - 1);
    }
  }

  /** The state a later run starts from: the manifest and the files are as they were left. */
  function Resumed(s: State): State {
    Start(s.shards, s.files, s.saved)
  }

  /**
   After a finished run, the next run on unchanged files launches as many conversations as had failed,
   and skips all that had passed.
   */
  lemma {:induction false} NextRunLaunchesFailures(l: Layout, s: State, probe: Probe, again: Probe, tools: Tools,
                                                   corpus: seq<string>)
    requires Local(l, probe) && Local(l, again) && ShardsInv(l, s.shards) && Separate(l, corpus)
    requires s.passed == s.failed == 0
    requires var t := Collected(l, s, probe, tools, corpus);
             !t.raised && !Collected(l, Resumed(t), again, tools, corpus).raised
    ensures var t := Collected(l, s, probe, tools, corpus);
            var u := Collected(l, Resumed(t), again, tools, corpus);
            u.launched == t.failed && u.skipped == t.passed
  {
    hide Local, ShardsInv, Distinct, CollectTo, ShardOk, Separate;
    var t := CollectTo(l, s, probe, tools, corpus, |corpus|);
    SeparateIsDistinct(l, corpus);
    RunIsCounted(l, s, probe, tools, corpus, |corpus|);
    RunKeepsInv(l, s, probe, tools, corpus, |corpus|);
    var r := Resumed(Finish(t, |corpus|));
    forall i | 0 <= i < |corpus|
      ensures JudgedAt(r, tools, corpus[i])
    {
      RunIsJudged(l, s, probe, tools, corpus, |corpus|, i);
    }
    RerunLaunches(l, r, again, tools, corpus, |corpus|);
  }

  // ---- The loader ----

  /** The loader's completeness check. */
  predicate Complete(m: Manifest) {
    m.summary.passed + m.summary.failed == m.summary.conversations
  }

  predicate LoaderAccepts(m: Manifest, excludeFailed: bool) {
    && Complete(m)
    && (m.summary.failed == 0 || excludeFailed)
    && m.shards != []
    && forall i :: 0 <= i < |m.shards| ==> m.shards[i].attempts != [] && (m.shards[i].latest == Passed || excludeFailed)
  }

  /** A shard that refuses the manifest, whatever the summary says. */
  predicate Unloadable(s: Shard, excludeFailed: bool) {
    |s.attempts| == 0 || (s.latest != Passed && !excludeFailed)
  }

  /** The loader refuses exactly what has no shard, a wrong sum, or an unloadable shard or a failure not excluded. */
  lemma {:induction false} LoaderRefusesExactly(m: Manifest, excludeFailed: bool)
    ensures !LoaderAccepts(m, excludeFailed)
       <==> |m.shards| == 0 || m.summary.conversations != m.summary.passed + m.summary.failed
            || (m.summary.failed > 0 && !excludeFailed)
            || exists i :: 0 <= i < |m.shards| && Unloadable(m.shards[i], excludeFailed)
  {
  }

  /**
   Wherever a run is cut short, the manifest on disk is the one it found or one that the loader's
   completeness check refuses; the last conversation is the first after which it can be complete.
   */
  lemma {:induction false} CutRunsAreIncomplete(l: Layout, s: State, probe: Probe, tools: Tools, corpus: seq<string>,
                                                n: nat)
    requires Local(l, probe) && ShardsInv(l, s.shards) && n <= |corpus|
    requires s.passed == s.failed == 0
    ensures var t := CollectTo(l, s, probe, tools, corpus, n);
            && t.passed + t.failed <= n && (!t.raised ==> t.passed + t.failed == n)
            && (t.saved == s.saved || (t.saved.Some? && SavedAt(t.saved.value, corpus, n)))
  {
    hide Local, ShardsInv, Visit, Skips, ShardOk;
    if n > 0 {
      CutRunsAreIncomplete(l, s, probe, tools, corpus, n - 1);
      RunKeepsInv(l, s, probe, tools, corpus, n - 1);
      var t := CollectTo(l, s, probe, tools, corpus, n - 1);
      if t.raised {
        VisitRaised(l, t, probe, tools, corpus[n - 1], |corpus|);
      } else {
        VisitFacts(l, t, probe, tools, corpus[n - 1], |corpus|);
        RaisedCounts(l, t, probe, tools, corpus[n - 1], |corpus|);
      }
    }
  }

  lemma {:induction false} RaisedCounts(l: Layout, s: State, probe: Probe, tools: Tools, id: string, conversations: nat)
    requires Local(l, probe) && !s.raised
    ensures var t := Visit(l, s, probe, tools, id, conversations);
            t.raised ==> t.passed == s.passed && t.failed == s.failed
  {
    hide Local, Skips, Attempted, LogsWritten, WithAttempt;
    LocalLogs(l, probe, id, |AttemptsOf(s.shards, id)|, s.files);
  }

  /** A manifest saved after at most n conversations. */
  predicate SavedAt(m: Manifest, corpus: seq<string>, n: nat) {
    m.summary.conversations == |corpus| && m.summary.passed + m.summary.failed <= n
  }

  lemma {:induction false} SavedEarlyIsIncomplete(m: Manifest, corpus: seq<string>, n: nat)
    requires SavedAt(m, corpus, n) && n < |corpus|
    ensures !Complete(m) && !LoaderAccepts(m, true) && !LoaderAccepts(m, false)
  {
  }

  /** Every shard belongs to a conversation of the corpus. */
  ghost predicate FromCorpus(shards: seq<Shard>, corpus: seq<string>) {
    forall i :: 0 <= i < |shards| ==> shards[i].conversation in corpus
  }

  lemma {:induction false} WithAttemptCorpus(shards: seq<Shard>, id: string, a: Attempt, status: Status,
                                             corpus: seq<string>)
    requires FromCorpus(shards, corpus) && id in corpus
    ensures FromCorpus(WithAttempt(shards, id, a, status), corpus)
  {
  }

  lemma {:induction false} VisitKeepsCorpus(l: Layout, s: State, probe: Probe, tools: Tools, id: string,
                                            conversations: nat, corpus: seq<string>)
    requires Local(l, probe) && FromCorpus(s.shards, corpus) && id in corpus
    ensures FromCorpus(Visit(l, s, probe, tools, id, conversations).shards, corpus)
  {
    hide Local, Skips, Attempted, LogsWritten, FromCorpus, WithAttempt;
    var k := |AttemptsOf(s.shards, id)|;
    LocalLogs(l, probe, id, k, s.files);
    var o := Attempted(tools, probe(id, k, s.files), DirectoryOf(l, id, k), k);
    if o.result.Some? {
      WithAttemptCorpus(s.shards, id, o.result.value, o.status, corpus);
    }
  }

  lemma {:induction false} RunKeepsCorpus(l: Layout, s: State, probe: Probe, tools: Tools, corpus: seq<string>, n: nat)
    requires Local(l, probe) && n <= |corpus| && FromCorpus(s.shards, corpus)
    ensures FromCorpus(CollectTo(l, s, probe, tools, corpus, n).shards, corpus)
  {
    hide Local, Visit, FromCorpus;
    if n > 0 {
      RunKeepsCorpus(l, s, probe, tools, corpus, n - 1);
      var id := corpus[n - 1];
      assert id in corpus;
      VisitKeepsCorpus(l, CollectTo(l, s, probe, tools, corpus, n - 1), probe, tools, id, |corpus|, corpus);
    }
  }

  /**
   A finished manifest is complete, it is loaded with failures excluded, and without that exception it
   is loaded exactly when every conversation of the corpus has passed.
   */
  lemma {:induction false} FinishedManifestLoads(l: Layout, s: State, probe: Probe, tools: Tools, corpus: seq<string>)
    requires Local(l, probe) && ShardsInv(l, s.shards) && FromCorpus(s.shards, corpus) && Distinct(corpus)
    requires corpus != []
    requires s.passed == s.failed == 0 && !Collected(l, s, probe, tools, corpus).raised
    ensures var t := Collected(l, s, probe, tools, corpus);
            && t.saved.Some? && Complete(t.saved.value) && LoaderAccepts(t.saved.value, true)
            && (LoaderAccepts(t.saved.value, false)
              <==> forall i :: 0 <= i < |corpus| ==> HasPassed(t.shards, corpus[i]))
  {
    hide Local, Distinct, CollectTo, ShardOk, ShardOf;
    var t := CollectTo(l, s, probe, tools, corpus, |corpus|);
    RunIsCounted(l, s, probe, tools, corpus, |corpus|);
    RunKeepsInv(l, s, probe, tools, corpus, |corpus|);
    RunKeepsCorpus(l, s, probe, tools, corpus, |corpus|);
    AllPassedCount(t.shards, corpus, |corpus|);
    assert ShardOf(t.shards, corpus[0]).Some?;
    SomeShard(t.shards, corpus[0]);
    forall i | 0 <= i < |t.shards|
      ensures t.shards[i].attempts != []
      ensures HasPassed(t.shards, t.shards[i].conversation) <==> t.shards[i].latest == Passed
    {
      assert ShardInv(l, t.shards[i]);
      PassedShard(l, t.shards, i);
    }
    if forall i :: 0 <= i < |corpus| ==> HasPassed(t.shards, corpus[i]) {
      forall i | 0 <= i < |t.shards|
        ensures t.shards[i].latest == Passed
      {
        var id := t.shards[i].conversation;
        assert id in corpus;
        var j :| 0 <= j < |corpus| && corpus[j] == id;
        assert HasPassed(t.shards, corpus[j]);
      }
    }
  }

  lemma {:induction false} SomeShard(shards: seq<Shard>, id: string)
    requires ShardOf(shards, id).Some?
    ensures shards != []
  {
  }

  lemma {:induction false} PassedShard(l: Layout, shards: seq<Shard>, i: nat)
    requires ShardsInv(l, shards) && i < |shards|
    ensures HasPassed(shards, shards[i].conversation) <==> shards[i].latest == Passed
  {
    hide ShardInv;
    FindIs(shards, i);
  }
}
