/**
 The native live-cache configuration: its parser, its tensor overrides, and the environment that is
 printed for it.
 */
module LayerConfig {
  import opened Trace
  import opened LayerList

  const ENABLED: string := "EXPERTFLOW_LIVE_CACHE"
  const MODE: string := "EXPERTFLOW_LIVE_CACHE_MODE"
  const LAYER: string := "EXPERTFLOW_LIVE_CACHE_LAYER"
  const LAYER_LIST: string := "EXPERTFLOW_LIVE_CACHE_LAYERS"
  const AUTO: string := "EXPERTFLOW_LIVE_CACHE_AUTO_ELIGIBLE"
  const NGL: string := "EXPERTFLOW_LIVE_CACHE_NGL"
  const LOG: string := "EXPERTFLOW_LIVE_CACHE_LOG"
  const DETAIL: string := "EXPERTFLOW_LIVE_CACHE_LOG_DETAIL"
  const EVICT: string := "EXPERTFLOW_LIVE_CACHE_FORCE_EVICT"

  type Environment = map<string, string>

  datatype Mode = Disabled | Passthrough | Blocking

  predicate IsLetter(c: char) {
    'a' <= c <= 'z' || 'A' <= c <= 'Z'
  }

  predicate IsAbsoluteWindowsPath(p: string) {
    |p| >= 3 && IsLetter(p[0]) && p[1] == ':' && (p[2] == '\\' || p[2] == '/')
  }

  // ---- What an environment means ----

  /** The settings of a valid environment; `single` is the layer of the legacy setting, -1 without it. */
  datatype Settings = Settings(mode: Mode, single: int, auto: bool, layers: seq<int>, log: string, evict: bool)

  const OFF: Settings := Settings(Disabled, -1, false, [], "", false)

  /** What is wrong with a refused environment, one for each of the parser's messages. */
  datatype Problem =
    | StraySetting | BadSwitch | NotOneSelection | BadAuto | BadSingle | BadList | BadMode | StrayOutput | BadLog
      | BadEvict

  datatype Reading<T> = Accepted(value: T) | Refused(problem: Problem)

  function AllIds(n: nat): (ids: seq<int>)
    ensures |ids| == n
  {
    seq(n, i => i)
  }

  predicate NothingSet(env: Environment) {
    MODE !in env && LAYER !in env && LAYER_LIST !in env && AUTO !in env && LOG !in env && EVICT !in env
  }

  /** Exactly one of the three ways to name layers. */
  predicate OneSelection(env: Environment) {
    || (LAYER in env && LAYER_LIST !in env && AUTO !in env)
    || (LAYER !in env && LAYER_LIST in env && AUTO !in env)
    || (LAYER !in env && LAYER_LIST !in env && AUTO in env)
  }

  /** The layers that the one selection names. */
  function Selected(env: Environment): Reading<seq<int>> {
    if !OneSelection(env) then Refused(NotOneSelection)
    else if AUTO in env then (if env[AUTO] == "1" then Accepted(AllIds(LAYERS)) else Refused(BadAuto))
    else if LAYER in env then (if env[LAYER] == "24" then Accepted([24]) else Refused(BadSingle))
    else if IsLayerList(env[LAYER_LIST]) then Accepted(LayersOf(env[LAYER_LIST]))
    else Refused(BadList)
  }

  datatype Output = Output(mode: Mode, log: string, evict: bool)

  function OutputOf(env: Environment): Reading<Output>
    requires MODE in env
  {
    if env[MODE] == "passthrough" then
      (if LOG in env || EVICT in env then Refused(StrayOutput) else Accepted(Output(Passthrough, "", false)))
    else if env[MODE] != "blocking" then Refused(BadMode)
    else if LOG !in env || !IsAbsoluteWindowsPath(env[LOG]) then Refused(BadLog)
    else if EVICT in env && env[EVICT] != "1" then Refused(BadEvict)
    else Accepted(Output(Blocking, env[LOG], EVICT in env))
  }

  function Meaning(env: Environment): Reading<Settings> {
    if ENABLED !in env then (if NothingSet(env) then Accepted(OFF) else Refused(StraySetting))
    else if env[ENABLED] != "1" then Refused(BadSwitch)
    else if MODE !in env then Refused(NotOneSelection)
    else
      match Selected(env)
      case Refused(p) => Refused(p)
      case Accepted(layers) =>
        match OutputOf(env)
        case Refused(p) => Refused(p)
        case Accepted(o) => Accepted(Settings(o.mode, if LAYER in env then 24
          else -1, AUTO in env, layers, o.log, o.evict))
  }

  // ---- The configuration record ----

  class LiveCacheConfig {
    var valid: bool
    var mode: Mode
    var single: int
    var auto: bool
    const layerIds: array<int>
    const requested: array<bool>
    const enabled: array<bool>
    var layerCount: nat
    var log: string
    var evict: bool
    var problem: Option<Problem>

    ghost predicate Valid()
      reads this, layerIds
    {
      && layerIds.Length == LAYERS && requested.Length == LAYERS && enabled.Length == LAYERS
      && requested != enabled
      && layerCount <= LAYERS
    }

    /** The layers listed so far. */
    ghost function Layers(): seq<int>
      reads this, layerIds
      requires Valid()
    {
      layerIds[..layerCount]
    }

    /** Both flag arrays are set at exactly the listed layers, which are in order. */
    ghost predicate Consistent()
      reads this, layerIds, requested, enabled
    {
      && Valid()
      && Ascending(Layers())
      && (forall i :: 0 <= i < layerCount ==> 0 <= layerIds[i] < LAYERS)
      && (forall id :: 0 <= id < LAYERS ==> (requested[id] <==> id in Layers()))
      && (forall id :: 0 <= id < LAYERS ==> (enabled[id] <==> id in Layers()))
    }

    ghost function Value(): Settings
      reads this, layerIds
      requires Valid()
    {
      Settings(mode, single, auto, Layers(), log, evict)
    }

    constructor ()
      ensures Consistent() && fresh(layerIds) && fresh(requested) && fresh(enabled)
      ensures !valid && Value() == OFF && problem.None?
    {
      valid, mode, single, auto, layerCount, log, evict, problem := false, Disabled, -1, false, 0, "", false, None;
      layerIds := new int[LAYERS](_ => 0);
      requested := new bool[LAYERS](_ => false);
      enabled := new bool[LAYERS](_ => false);
    }

    /** Appends one layer that is larger than all listed ones. */
    method Add(id: int)
      requires Consistent() && layerCount < LAYERS && 0 <= id < LAYERS
      requires forall i :: 0 <= i < layerCount ==> layerIds[i] < id
      modifies this`layerCount, layerIds, requested, enabled
      ensures Consistent() && layerCount == old(layerCount) + 1
      ensures Layers() == old(Layers()) + [id]
    {
      ghost var before := Layers();
      layerIds[layerCount] := id;
      layerCount := layerCount + 1;
      requested[id] := true;
      enabled[id] := true;
      assert layerIds[..layerCount - 1] == before;
      assert Layers() == before + [id];
    }

    /** Reads the digits at the cursor; None when the number reaches thirty. */
    static method ReadNumber(value: string, start: nat) returns (number: Option<nat>, cursor: nat)
      requires start < |value| && IsDigit(value[start])
      ensures start < cursor <= |value|
      ensures forall i :: start <= i < cursor ==> IsDigit(value[i])
      ensures number.Some? ==> (cursor == |value| || !IsDigit(value[cursor]))
      ensures AllDigits(value[start..cursor])
      ensures if number.Some? then number.value == Number(value[start..cursor]) < LAYERS
        else Number(value[start..cursor]) >= LAYERS
    {
      cursor := start;
      var id := 0;
      assert value[start..start] == "";
      while cursor < |value| && IsDigit(value[cursor])
        invariant start <= cursor <= |value|
        invariant forall i :: start <= i < cursor ==> IsDigit(value[i])
        invariant id == Number(value[start..cursor]) < LAYERS
        decreases |value| - cursor
      {
        NumberSnoc(value[start..cursor], value[cursor]);
        assert value[start..cursor + 1] == value[start..cursor] + [value[cursor]];
        id := id * 10 + (value[cursor] - '0') as nat;
        cursor := cursor + 1;
        if id >= LAYERS {
          return None, cursor;
        }
      }
      number := Some(id);
    }

    /**
     Accepts exactly the layer lists and records them.  The test against the array's capacity is the
     source's; no text ever makes it decide.
     */
    method ParseLayerList(value: string) returns (ok: bool)
      requires Consistent() && layerCount == 0
      modifies this`layerCount, layerIds, requested, enabled
      ensures Valid()
      ensures ok <==> IsLayerList(value)
      ensures ok ==> Consistent() && Layers() == LayersOf(value)
    {
      hide At, Ascending, IsLayerList, LayersOf, Numbers, AllLayers, IsLayer, Number;
      var cursor := 0;
      var previous: int := -1;
      ghost var done: seq<string> := [];
      AtStart(value);
      if value == "" {
        return false;
      }
      while cursor < |value|
        invariant cursor <= |value| && Consistent()
        invariant previous == LastOf(Layers())
        invariant At(value, cursor, done) && AllLayers(done) && Numbers(done) == Layers()
        invariant cursor == |value| ==> layerCount > 0 && value[cursor - 1] != ','
        decreases |value| - cursor
      {
        if !IsDigit(value[cursor]) {
          NoDigit(value, cursor, done);
          return false;
        }
        var number, next := ReadNumber(value, cursor);
        if number.None? {
          TooLarge(value, cursor, done, next);
          return false;
        }
        var id := number.value;
        LastIsLargest(Layers());
        if id <= previous || layerCount >= LAYERS {
          NotAscending(value, cursor, done, next, Layers());
          return false;
        }
        Add(id);
        previous := id;
        if next < |value| && value[next] != ',' {
          Spoiled(value, cursor, done, next);
          return false;
        }
        Advance(value, cursor, done, next);
        done := done + [value[cursor..next]];
        cursor := next;
        if cursor < |value| {
          cursor := cursor + 1;
          if cursor == |value| {
            Trailing(value, done);
            return false;
          }
        }
      }
      Finished(value, done);
      ok := layerCount > 0;
    }
  }

  function LastOf(ids: seq<int>): int {
    if ids == [] then -1 else ids[|ids| - 1]
  }

  /** The text is read up to the cursor: the tokens done, then the tokens of what is left. */
  ghost predicate At(value: string, cursor: nat, done: seq<string>) {
    && cursor <= |value| && AllLayers(done)
    && Split(value) == done + TokensFrom(value, cursor)
  }

  function TokensFrom(value: string, cursor: nat): seq<string>
    requires cursor <= |value|
  {
    if cursor > 0 && cursor == |value| && value[cursor - 1] != ',' then [] else Split(value[cursor..])
  }

  lemma {:induction false} AtStart(value: string)
    ensures At(value, 0, []) && AllLayers([]) && Numbers([]) == []
    ensures !IsLayerList("")
  {
    assert value[0..] == value;
    EmptyToken("");
  }

  lemma {:induction false} BadNext(value: string, cursor: nat, done: seq<string>)
    requires At(value, cursor, done) && cursor < |value| && !IsLayer(Split(value[cursor..])[0])
    ensures !IsLayerList(value)
  {
    assert Split(value)[|done|] == Split(value[cursor..])[0];
  }

  lemma {:induction false} NoDigit(value: string, cursor: nat, done: seq<string>)
    requires At(value, cursor, done) && cursor < |value| && !IsDigit(value[cursor])
    ensures !IsLayerList(value)
  {
    var rest := value[cursor..];
    if rest[0] == ',' {
      EmptyToken(rest);
    } else {
      BadToken(rest, 0);
    }
    BadNext(value, cursor, done);
  }

  lemma {:induction false} TooLarge(value: string, cursor: nat, done: seq<string>, next: nat)
    requires At(value, cursor, done) && cursor < next <= |value|
    requires AllDigits(value[cursor..next]) && Number(value[cursor..next]) >= LAYERS
    ensures !IsLayerList(value)
  {
    assert value[cursor..][..next - cursor] == value[cursor..next];
    LargeToken(value[cursor..], next - cursor);
    BadNext(value, cursor, done);
  }

  lemma {:induction false} Spoiled(value: string, cursor: nat, done: seq<string>, next: nat)
    requires At(value, cursor, done) && cursor < next < |value|
    requires AllDigits(value[cursor..next]) && !IsDigit(value[next]) && value[next] != ','
    ensures !IsLayerList(value)
  {
    var rest := value[cursor..];
    forall i | 0 <= i < next - cursor
      ensures IsDigit(rest[i])
    {
      assert value[cursor..next][i] == rest[i];
    }
    BadToken(rest, next - cursor);
    BadNext(value, cursor, done);
  }

  function Next(value: string, next: nat): nat {
    if next < |value| then next + 1 else next
  }

  lemma {:induction false} TokenEnds(value: string, cursor: nat, next: nat)
    requires cursor < next <= |value| && AllDigits(value[cursor..next])
    requires next == |value| || value[next] == ','
    ensures TokensFrom(value, cursor) == [value[cursor..next]] + TokensFrom(value, Next(value, next))
  {
    var rest := value[cursor..];
    var k := next - cursor;
    forall i | 0 <= i < k
      ensures IsDigit(rest[i])
    {
      assert value[cursor..next][i] == rest[i];
    }
    assert rest[..k] == value[cursor..next];
    hide AllDigits;
    SplitAt(rest, k);
    assert IsDigit(rest[k - 1]) && value[next - 1] == rest[k - 1];
    if next < |value| {
      assert rest[k + 1..] == value[next + 1..];
    }
  }

  /** One number and its separator. */
  lemma {:induction false} Advance(value: string, cursor: nat, done: seq<string>, next: nat)
    requires At(value, cursor, done) && cursor < next <= |value|
    requires AllDigits(value[cursor..next]) && Number(value[cursor..next]) < LAYERS
    requires next == |value| || value[next] == ','
    ensures var more := done + [value[cursor..next]];
            && At(value, Next(value, next), more) && AllLayers(more)
            && Numbers(more) == Numbers(done) + [Number(value[cursor..next])]
  {
    hide Split, TokensFrom, Number, AllDigits;
    TokenEnds(value, cursor, next);
    assert IsLayer(value[cursor..next]);
    assert done + ([value[cursor..next]] + TokensFrom(value, Next(value, next)))
      == (done + [value[cursor..next]]) + TokensFrom(value, Next(value, next));
  }

  /** Nothing may follow the last comma. */
  lemma {:induction false} Trailing(value: string, done: seq<string>)
    requires value != "" && value[|value| - 1] == ',' && At(value, |value|, done)
    ensures !IsLayerList(value)
  {
    assert value[|value|..] == "";
    assert Split(value)[|done|] == "";
  }

  lemma {:induction false} Finished(value: string, done: seq<string>)
    requires At(value, |value|, done) && value != "" && value[|value| - 1] != ','
    ensures IsLayerList(value) <==> Ascending(Numbers(done))
    ensures IsLayerList(value) ==> LayersOf(value) == Numbers(done)
  {
    assert Split(value) == done;
  }

  lemma {:induction false} LastIsLargest(ids: seq<int>)
    requires Ascending(ids) && forall i :: 0 <= i < |ids| ==> 0 <= ids[i] < LAYERS
    ensures forall i :: 0 <= i < |ids| ==> ids[i] <= LastOf(ids)
    ensures |ids| <= LastOf(ids) + 1
  {
    AscendingIsShort(ids);
  }

  /** A layer above the last one always finds room: the capacity test never decides. */
  lemma {:induction false} CapacityNeverDecides(ids: seq<int>, id: int)
    requires Ascending(ids) && forall i :: 0 <= i < |ids| ==> 0 <= ids[i] < LAYERS
    requires LastOf(ids) < id < LAYERS
    ensures |ids| < LAYERS
  {
    LastIsLargest(ids);
  }

  /** A number that does not exceed the one before it spoils the list. */
  lemma {:induction false} NotAscending(value: string, cursor: nat, done: seq<string>, next: nat, ids: seq<int>)
    requires At(value, cursor, done) && cursor < next <= |value|
    requires AllDigits(value[cursor..next]) && (next == |value| || !IsDigit(value[next]))
    requires Number(value[cursor..next]) < LAYERS && Numbers(done) == ids && Number(value[cursor..next]) <= LastOf(ids)
    ensures !IsLayerList(value)
  {
    if next < |value| && value[next] != ',' {
      Spoiled(value, cursor, done, next);
    } else {
      Advance(value, cursor, done, next);
      var tokens := Split(value);
      assert tokens[|done| - 1] == done[|done| - 1] && tokens[|done|] == value[cursor..next];
      assert ids[|ids| - 1] == Number(done[|done| - 1]);
      if AllLayers(tokens) {
        assert Numbers(tokens)[|done| - 1] >= Numbers(tokens)[|done|];
      }
    }
  }

  /** The parser; a configuration that is not valid carries nothing else. */
  method ParseConfig(env: Environment) returns (c: LiveCacheConfig)
    ensures fresh(c) && fresh(c.layerIds) && fresh(c.requested) && fresh(c.enabled) && c.Consistent()
    ensures c.valid == Meaning(env).Accepted?
    ensures match Meaning(env)
            case Accepted(settings) => c.Value() == settings && c.problem.None?
            case Refused(problem) => c.Value() == OFF && c.problem == Some(problem)
  {
    hide IsLayerList, Ascending, Selected, OutputOf, NothingSet, IsLayer, Str, Number, OneSelection;
    if ENABLED !in env {
      if !NothingSet(env) {
        c := Invalid(StraySetting);
        return;
      }
      c := new LiveCacheConfig();
      c.valid := true;
      return;
    }
    if env[ENABLED] != "1" {
      c := Invalid(BadSwitch);
      return;
    }
    OneSelectionFirst(env);
    var selections := (if LAYER in env then 1 else 0) + (if LAYER_LIST in env then 1 else 0) + if AUTO in env then 1
      else 0;
    if MODE !in env || selections != 1 {
      c := Invalid(NotOneSelection);
      return;
    }
    c := new LiveCacheConfig();
    var problem := SelectLayers(env, c);
    if problem.None? {
      c.auto := AUTO in env;
      problem := SelectOutput(env, c);
    }
    if problem.Some? {
      c := Invalid(problem.value);
    } else {
      c.valid := true;
    }
  }

  method Invalid(problem: Problem) returns (c: LiveCacheConfig)
    ensures fresh(c) && fresh(c.layerIds) && fresh(c.requested) && fresh(c.enabled) && c.Consistent()
    ensures !c.valid && c.Value() == OFF && c.problem == Some(problem)
  {
    c := new LiveCacheConfig();
    c.problem := Some(problem);
  }

  lemma {:induction false} OneSelectionFirst(env: Environment)
    ensures OneSelection(env)
       <==> (if LAYER in env then 1 else 0) + (if LAYER_LIST in env then 1 else 0) + (if AUTO in env then 1 else 0) == 1
    ensures !OneSelection(env) ==> Selected(env) == Refused(NotOneSelection)
  {
    hide IsLayerList;
  }

  method SelectOutput(env: Environment, c: LiveCacheConfig) returns (problem: Option<Problem>)
    requires MODE in env && c.log == "" && !c.evict
    modifies c`mode, c`log, c`evict
    ensures match OutputOf(env)
            case Accepted(o) => problem.None? && Output(c.mode, c.log, c.evict) == o
            case Refused(p) => problem == Some(p)
  {
    hide IsAbsoluteWindowsPath;
    problem := None;
    if env[MODE] == "passthrough" {
      c.mode := Passthrough;
      return if LOG in env || EVICT in env then Some(StrayOutput) else None;
    }
    if env[MODE] != "blocking" {
      return Some(BadMode);
    }
    c.mode := Blocking;
    if LOG !in env || !IsAbsoluteWindowsPath(env[LOG]) {
      return Some(BadLog);
    }
    c.log := env[LOG];
    if EVICT in env {
      if env[EVICT] != "1" {
        return Some(BadEvict);
      }
      c.evict := true;
    }
  }

  method SelectLayers(env: Environment, c: LiveCacheConfig) returns (problem: Option<Problem>)
    requires c.Consistent() && c.layerCount == 0 && c.single == -1 && OneSelection(env)
    modifies c`single, c`layerCount, c.layerIds, c.requested, c.enabled
    ensures c.Valid()
    ensures match Selected(env)
            case Accepted(layers) => problem.None? && c.Consistent() && c.Layers() == layers
              && c.single == (if LAYER in env then 24 else -1)
            case Refused(p) => problem == Some(p)
  {
    problem := None;
    if AUTO in env {
      if env[AUTO] != "1" {
        return Some(BadAuto);
      }
      var id := 0;
      assert c.Layers() == AllIds(0);
      while id < LAYERS
        invariant id <= LAYERS && c.Consistent() && c.layerCount == id && c.Layers() == AllIds(id) && c.single == -1
      {
        assert forall i :: 0 <= i < c.layerCount ==> c.layerIds[i] == c.Layers()[i] < id;
        c.Add(id);
        assert AllIds(id) + [id] == AllIds(id + 1);
        id := id + 1;
      }
    } else if LAYER in env {
      if env[LAYER] != "24" {
        return Some(BadSingle);
      }
      assert c.Layers() == [];
      c.Add(24);
      c.single := 24;
    } else {
      var ok := c.ParseLayerList(env[LAYER_LIST]);
      if !ok {
        return Some(BadList);
      }
    }
  }

  // ---- Tensor overrides ----

  /** With automatic selection only the layers on the GPU side are kept. */
  function FirstKept(auto: bool, gpuLayers: int): (first: int)
    ensures 0 <= first <= LAYERS
  {
    if !auto then 0 else LAYERS - Repeating(gpuLayers)
  }

  function Repeating(gpuLayers: int): (n: int)
    ensures 0 <= n <= LAYERS
  {
    if gpuLayers <= 0 then 0 else if gpuLayers - 1 > LAYERS then LAYERS else gpuLayers - 1
  }

  function Kept(ids: seq<int>, first: int): (kept: seq<int>)
    ensures |kept| <= |ids|
  {
    if ids == [] then []
    else Kept(ids[..|ids| - 1], first) + if ids[|ids| - 1] >= first then [ids[|ids| - 1]] else []
  }

  function PatternsOf(id: int): (patterns: seq<string>)
    ensures |patterns| == 3
  {
    var prefix := "^blk\\." + Str(id) + "\\.";
    [prefix + "ffn_gate_up_exps\\.weight$", prefix + "ffn_down_exps\\.weight$", prefix + "ffn_down_exps\\.scale$"]
  }

  function Patterns(ids: seq<int>): (patterns: seq<string>)
    ensures |patterns| == 3 * |ids|
  {
    if ids == [] then [] else Patterns(ids[..|ids| - 1]) + PatternsOf(ids[|ids| - 1])
  }

  /** Every write lands in the ninety slots. */
  method TensorOverridePatterns(c: LiveCacheConfig, gpuLayers: int) returns (values: array<string>, count: nat)
    requires c.Consistent()
    ensures values.Length == 90 && fresh(values)
    ensures count == 3 * |Kept(c.Layers(), FirstKept(c.auto, gpuLayers))| <= 90
    ensures values[..count] == Patterns(Kept(c.Layers(), FirstKept(c.auto, gpuLayers)))
  {
    hide PatternsOf, Patterns, Kept;
    KeptNothing(FirstKept(c.auto, gpuLayers));
    values := new string[90](_ => "");
    count := 0;
    var first := 0;
    if c.auto {
      var repeating := if gpuLayers > 0 then gpuLayers - 1 else 0;
      if repeating > LAYERS {
        repeating := LAYERS;
      }
      first := LAYERS - repeating;
    }
    ghost var ids := c.Layers();
    ghost var kept: seq<int> := [];
    var index := 0;
    while index < c.layerCount
      invariant index <= c.layerCount && ids == c.Layers()
      invariant kept == Kept(ids[..index], first)
      invariant count == 3 * |kept| <= 3 * index
      invariant values[..count] == Patterns(kept)
    {
      var id := c.layerIds[index];
      KeptSnoc(ids, index, first);
      index := index + 1;
      if id < first {
        continue;
      }
      PatternsSnoc(kept, id);
      WriteThree(values, count, PatternsOf(id));
      kept := kept + [id];
      count := count + 3;
    }
    assert ids[..index] == ids;
  }

  method WriteThree(values: array<string>, at: nat, three: seq<string>)
    requires |three| == 3 && at + 3 <= values.Length
    modifies values
    ensures values[..at + 3] == old(values[..at]) + three
  {
    values[at] := three[0];
    values[at + 1] := three[1];
    values[at + 2] := three[2];
  }

  lemma {:induction false} KeptNothing(first: int)
    ensures Kept([], first) == [] && Patterns([]) == []
  {
  }

  lemma {:induction false} KeptSnoc(ids: seq<int>, index: nat, first: int)
    requires index < |ids|
    ensures Kept(ids[..index + 1], first) == Kept(ids[..index], first) + if ids[index] >= first then [ids[index]]
      else []
  {
    assert ids[..index + 1][..index] == ids[..index];
  }

  lemma {:induction false} PatternsSnoc(ids: seq<int>, id: int)
    ensures Patterns(ids + [id]) == Patterns(ids) + PatternsOf(id)
  {
    hide PatternsOf;
    assert (ids + [id])[..|ids|] == ids;
  }

  /** Keeping is filtering by the first kept layer. */
  lemma {:induction false} KeptExactly(ids: seq<int>, first: int)
    requires Ascending(ids)
    ensures Ascending(Kept(ids, first))
    ensures forall id :: id in Kept(ids, first) <==> id in ids && id >= first
  {
    if ids != [] {
      var n := |ids| - 1;
      KeptExactly(ids[..n], first);
      assert ids == ids[..n] + [ids[n]];
      var kept := Kept(ids[..n], first);
      forall i | 0 <= i < |kept|
        ensures kept[i] < ids[n]
      {
        assert kept[i] in kept;
        assert kept[i] in ids[..n];
      }
    }
  }

  /** Automatic selection keeps exactly the last layers, one fewer than the GPU layers and at most thirty. */
  lemma {:induction false} AutoKeepsTheLast(gpuLayers: int)
    ensures var kept := Kept(AllIds(LAYERS), FirstKept(true, gpuLayers));
            && |kept| == (if gpuLayers <= 1 then 0 else if gpuLayers >= 31 then 30 else gpuLayers - 1)
            && forall i :: 0 <= i < |kept| ==> kept[i] == 30 - |kept| + i
  {
    KeptOfAll(LAYERS, FirstKept(true, gpuLayers));
  }

  /** A list or a single layer keeps every layer, whatever runs on the GPU. */
  lemma {:induction false} ListsAreKept(ids: seq<int>, gpuLayers: int)
    requires forall i :: 0 <= i < |ids| ==> ids[i] >= 0
    ensures Kept(ids, FirstKept(false, gpuLayers)) == ids
  {
    if ids != [] {
      ListsAreKept(ids[..|ids| - 1], gpuLayers);
    }
  }

  lemma {:induction false} KeptOfAll(n: nat, first: nat)
    ensures |Kept(AllIds(n), first)| == if n <= first then 0 else n - first
    ensures forall i :: 0 <= i < |Kept(AllIds(n), first)| ==> Kept(AllIds(n), first)[i] == first + i
  {
    if n > 0 {
      assert AllIds(n)[..n - 1] == AllIds(n - 1);
      KeptOfAll(n - 1, first);
    }
  }

  // ---- The environment that is printed ----

  const CACHE_NAMES: set<string> := {ENABLED, MODE, LAYER, LAYER_LIST, AUTO, NGL, LOG, DETAIL, EVICT}

  /**
   Everything inherited except the cache settings, and the four settings of a blocking run; refused for
   a path that the launcher's own path library, `absolute`, does not call absolute.
   */
  function CacheEnvironment(absolute: string -> bool, inherited: Environment, layers: seq<int>,
                            path: string): Option<Environment> {
    if !absolute(path) then None
    else
      var env := inherited - CACHE_NAMES;
      Some(env[ENABLED := "1"][MODE := "blocking"][LAYER_LIST := Join(Printed(layers))][LOG := path])
  }

  lemma {:induction false} NamesDiffer()
    ensures ENABLED != MODE && ENABLED != LAYER_LIST && ENABLED != LOG && MODE != LAYER_LIST && MODE != LOG
      && LAYER_LIST != LOG
    ensures LAYER !in {ENABLED, MODE, LAYER_LIST, LOG} && AUTO !in {ENABLED, MODE, LAYER_LIST, LOG}
      && EVICT !in {ENABLED, MODE, LAYER_LIST, LOG}
  {
    assert |ENABLED| == 21 && |MODE| == 26 && |LAYER| == 27 && |LAYER_LIST| == 28 && |LOG| == 25;
    assert |AUTO| == 35 && |EVICT| == 33;
  }

  lemma {:induction false} CacheEnvironmentHas(absolute: string -> bool, inherited: Environment, layers: seq<int>,
                                               path: string)
    ensures CacheEnvironment(absolute, inherited, layers, path).Some? <==> absolute(path)
    ensures absolute(path) ==> Prints(CacheEnvironment(absolute, inherited, layers, path).value, inherited, layers,
      path)
  {
    hide Join, Printed;
    NamesDiffer();
    ClearedAre();
  }

  lemma {:induction false} ClearedAre()
    ensures CLEARED == [LAYER, AUTO, NGL, DETAIL, EVICT]
    ensures LAYER in CLEARED && AUTO in CLEARED && NGL in CLEARED && DETAIL in CLEARED && EVICT in CLEARED
    ensures ENABLED !in CLEARED && MODE !in CLEARED && LAYER_LIST !in CLEARED && LOG !in CLEARED
  {
    NamesDiffer();
    var names := CLEARED;
    assert names[0] == LAYER && names[1] == AUTO && names[2] == NGL && names[3] == DETAIL && names[4] == EVICT;
    assert |NGL| == 25 && |DETAIL| == 32;
    assert NGL[22] == 'N' && LOG[22] == 'L';
  }

  /** The settings that the launcher never hands on. */
  const CLEARED: seq<string> :=
    ["EXPERTFLOW_LIVE_CACHE_LAYER", "EXPERTFLOW_LIVE_CACHE_AUTO_ELIGIBLE", "EXPERTFLOW_LIVE_CACHE_NGL",
     "EXPERTFLOW_LIVE_CACHE_LOG_DETAIL", "EXPERTFLOW_LIVE_CACHE_FORCE_EVICT"]

  /** The four settings, none of the cleared ones, and whatever else was inherited. */
  ghost predicate Prints(env: Environment, inherited: Environment, layers: seq<int>, path: string) {
    var enabled, mode, list, log := "EXPERTFLOW_LIVE_CACHE", "EXPERTFLOW_LIVE_CACHE_MODE",
                                    "EXPERTFLOW_LIVE_CACHE_LAYERS", "EXPERTFLOW_LIVE_CACHE_LOG";
    && enabled in env && env[enabled] == "1" && mode in env && env[mode] == "blocking"
    && list in env && env[list] == Join(Printed(layers))
    && log in env && env[log] == path
    && (forall name :: name in CLEARED ==> name !in env)
    && forall name :: name !in CLEARED && name != enabled && name != mode && name != list && name != log ==>
         (name in env <==> name in inherited) && (name in env ==> env[name] == inherited[name])
  }

  /**
   Whatever was inherited and whatever counts as absolute, the launcher prints an environment exactly
   for an absolute path, and the native parser accepts that environment exactly when the layers are a
   non-empty ascending list within 0..29 and the path has a drive letter; it then reads back exactly
   these layers and this path, in blocking mode.
   */
  lemma {:induction false} PrintedEnvironmentReadsBack(absolute: string -> bool, inherited: Environment,
                                                       layers: seq<int>, path: string)
    ensures match CacheEnvironment(absolute, inherited, layers, path)
            case None => !absolute(path)
            case Some(env) =>
              absolute(path) && Meaning(env)
              == if !(layers != [] && Ascending(layers) && forall i :: 0 <= i < |layers| ==> 0 <= layers[i] < LAYERS)
                then Refused(BadList)
                 else if !IsAbsoluteWindowsPath(path) then Refused(BadLog)
                 else Accepted(Settings(Blocking, -1, false, layers, path, false))
  {
    hide IsLayerList, CacheEnvironment, Ascending, IsAbsoluteWindowsPath, Join, Printed;
    CacheEnvironmentHas(absolute, inherited, layers, path);
    ClearedAre();
    PrintedListReadsBack(layers);
    assert "blocking" != "passthrough" by {
      assert |"blocking"| == 8 && |"passthrough"| == 11;
    }
  }

  /** Every accepted enabled environment selects layers of the model, in order; only blocking runs log or evict. */
  lemma {:induction false} AcceptedSettings(env: Environment)
    requires Meaning(env).Accepted? && ENABLED in env
    ensures var s := Meaning(env).value;
            && s.mode != Disabled
            && 1 <= |s.layers| <= LAYERS && Ascending(s.layers)
            && (forall i :: 0 <= i < |s.layers| ==> 0 <= s.layers[i] < LAYERS)
            && (s.auto ==> |s.layers| == LAYERS) && (s.single != -1 ==> s.layers == [s.single])
            && (s.mode == Blocking <==> IsAbsoluteWindowsPath(s.log))
            && (s.evict ==> s.mode == Blocking)
  {
    hide IsLayerList, LayersOf;
    assert !IsAbsoluteWindowsPath("");
    if AUTO !in env && LAYER !in env {
      ListedLayers(env[LAYER_LIST]);
    }
  }

  lemma {:induction false} ListedLayers(value: string)
    requires IsLayerList(value)
    ensures var ids := LayersOf(value);
            && 1 <= |ids| <= LAYERS && Ascending(ids) && forall i :: 0 <= i < |ids| ==> 0 <= ids[i] < LAYERS
  {
    hide Split, Number, AllDigits;
    assert forall i :: 0 <= i < |Split(value)| ==> IsLayer(Split(value)[i]);
    AscendingIsShort(LayersOf(value));
  }

  // ---- Every accepted environment ----

  /** A drive letter, a colon and a slash of either kind. */
  predicate DrivePath(p: string) {
    && |p| >= 3 && ('A' <= p[0] <= 'Z' || 'a' <= p[0] <= 'z') && p[1] == ':' && p[2] in ['/', '\\']
  }

  /** The switch and the six settings that it governs. */
  const READ_NAMES: seq<string> :=
    ["EXPERTFLOW_LIVE_CACHE", "EXPERTFLOW_LIVE_CACHE_MODE", "EXPERTFLOW_LIVE_CACHE_LAYER",
     "EXPERTFLOW_LIVE_CACHE_LAYERS", "EXPERTFLOW_LIVE_CACHE_AUTO_ELIGIBLE", "EXPERTFLOW_LIVE_CACHE_LOG",
     "EXPERTFLOW_LIVE_CACHE_FORCE_EVICT"]

  /** The cache is off: neither the switch nor any other setting is there. */
  predicate SwitchedOff(env: Environment, s: Settings) {
    && s == Settings(Disabled, -1, false, [], "", false)
    && forall name :: name in READ_NAMES ==> name !in env
  }

  /** The single layer 24, a list of layers, or all thirty automatically, and nothing else beside it. */
  predicate LayersGiven(env: Environment, s: Settings) {
    var single, list, automatic :=
      "EXPERTFLOW_LIVE_CACHE_LAYER", "EXPERTFLOW_LIVE_CACHE_LAYERS", "EXPERTFLOW_LIVE_CACHE_AUTO_ELIGIBLE";
    || (single in env && list !in env && automatic !in env
        && env[single] == "24" && s.single == 24 && !s.auto && s.layers == [24])
    || (single !in env && list in env && automatic !in env
        && IsLayerList(env[list]) && s.single == -1 && !s.auto && s.layers == LayersOf(env[list]))
    || (single !in env && list !in env && automatic in env
        && env[automatic] == "1" && s.single == -1 && s.auto
        && |s.layers| == 30 && forall i :: 0 <= i < 30 ==> s.layers[i] == i)
  }

  /** Pass-through without log and eviction, or blocking with a log on a drive and eviction when it is forced. */
  predicate OutputGiven(env: Environment, s: Settings) {
    var mode, log, evict :=
      "EXPERTFLOW_LIVE_CACHE_MODE", "EXPERTFLOW_LIVE_CACHE_LOG", "EXPERTFLOW_LIVE_CACHE_FORCE_EVICT";
    && mode in env
    && ((env[mode] == "passthrough" && log !in env && evict !in env
         && s.mode == Passthrough && s.log == "" && !s.evict)
        || (env[mode] == "blocking" && log in env && DrivePath(env[log]) && (evict in env ==> env[evict] == "1")
            && s.mode == Blocking && s.log == env[log] && s.evict == (evict in env)))
  }

  lemma {:induction false} LayersExactly(env: Environment, s: Settings)
    ensures LayersGiven(env, s)
       <==> Selected(env) == Accepted(s.layers)
            && s.auto == (AUTO in env) && s.single == (if LAYER in env then 24 else -1)
  {
    hide IsLayerList, LayersOf;
    if |s.layers| == 30 && forall i :: 0 <= i < 30 ==> s.layers[i] == i {
      assert s.layers == AllIds(30);
    }
  }

  lemma {:induction false} OutputExactly(env: Environment, s: Settings)
    ensures OutputGiven(env, s) <==> MODE in env && OutputOf(env) == Accepted(Output(s.mode, s.log, s.evict))
  {
    assert "passthrough" != "blocking" by {
      assert |"passthrough"| == 11 && |"blocking"| == 8;
    }
  }

  lemma {:induction false} OffExactly(env: Environment, s: Settings)
    ensures SwitchedOff(env, s) <==> ENABLED !in env && NothingSet(env) && s == OFF
  {
    var names := READ_NAMES;
    assert names[0] in names && names[1] in names && names[2] in names && names[3] in names && names[4] in names
      && names[5] in names && names[6] in names;
  }

  /**
   Exactly which environments are accepted, and with which settings: the cache switched off, or switched
   on with one way to name layers and one output.
   */
  lemma {:induction false} MeaningExactly(env: Environment, s: Settings)
    ensures Meaning(env) == Accepted(s)
       <==> SwitchedOff(env, s)
            || ("EXPERTFLOW_LIVE_CACHE" in env && env["EXPERTFLOW_LIVE_CACHE"] == "1"
                && LayersGiven(env, s) && OutputGiven(env, s))
  {
    hide Selected, OutputOf, NothingSet, LayersGiven, OutputGiven, SwitchedOff;
    LayersExactly(env, s);
    OutputExactly(env, s);
    OffExactly(env, s);
  }

  // ---- Every pattern ----

  /** Pattern j of a layer: gate and up weights, down weights, down scales. */
  function PatternOf(id: int, j: nat): string {
    "^blk\\." + Str(id) + "\\." + if j == 0 then "ffn_gate_up_exps\\.weight$"
                                 else if j == 1 then "ffn_down_exps\\.weight$"
                                 else "ffn_down_exps\\.scale$"
  }

  /** The patterns are those of the layers, three by three. */
  lemma {:induction false} PatternsExactly(ids: seq<int>, i: nat, j: nat)
    requires i < |ids| && j < 3
    ensures 3 * i + j < |Patterns(ids)| && Patterns(ids)[3 * i + j] == PatternOf(ids[i], j)
  {
    hide PatternsOf, PatternOf;
    var n := |ids| - 1;
    if i < n {
      PatternsExactly(ids[..n], i, j);
    } else {
      PatternsOfIs(ids[n], j);
    }
  }

  lemma {:induction false} PatternsOfIs(id: int, j: nat)
    requires j < 3
    ensures PatternsOf(id)[j] == PatternOf(id, j)
  {
    hide Str;
  }
}
