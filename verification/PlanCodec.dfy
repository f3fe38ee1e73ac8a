/** Canonical payloads of the frozen records, and decoding them through the records' own constructors. */
module PlanCodec {
  import opened Trace

  /** A Python value as the records hold it; a record names its class. */
  datatype Value =
    | Null
    | Bool(b: bool)
    | Int(i: int)
    | Float(x: real)
    | Text(s: string)
    | Tuple(items: seq<Value>)
    | Record(cls: string, fields: map<string, Value>)

  datatype Payload =
    | PNull
    | PBool(b: bool)
    | PInt(i: int)
    | PFloat(x: real)
    | PText(s: string)
    | List(items: seq<Payload>)
    | Object(members: map<string, Payload>)

  /** A field that holds another record; an optional one may be null instead. */
  datatype Nested = Nested(cls: string, optional: bool)

  /**
   The classes: their fields, which of them are nested, left out when null, defaulted or kept sorted,
   the order of sorting, and what the constructor accepts.
   */
  datatype Table = Table(
    fieldsOf: string -> set<string>,
    nested: (string, string) -> Option<Nested>,
    omitted: (string, string) -> bool,
    defaults: (string, string) -> Option<Value>,
    sorted: (string, string) -> bool,
    leq: (Value, Value) -> bool,
    accepts: (string, map<string, Value>) -> bool)

  /** Only fields that default to null are ever left out, and the order is total. */
  ghost predicate TableOk(t: Table) {
    && (forall c, f :: t.omitted(c, f) ==> t.defaults(c, f) == Some(Null) && t.nested(c, f).None?)
    && (forall a, b :: t.leq(a, b) || t.leq(b, a))
  }

  // ---- Encoding ----

  predicate Omits(t: Table, c: string, f: string, v: Value) {
    t.omitted(c, f) && v == Null
  }

  function ToPayload(t: Table, v: Value): Payload {
    match v
    case Null => PNull
    case Bool(b) => PBool(b)
    case Int(i) => PInt(i)
    case Float(x) => PFloat(x)
    case Text(s) => PText(s)
    case Tuple(items) => List(seq(|items|, i requires 0 <= i < |items| => ToPayload(t, items[i])))
    case Record(c, fields) => Object(map f | f in fields && !Omits(t, c, f, fields[f]) :: ToPayload(t, fields[f]))
  }

  /**
   The payload of every value: a scalar as it is, a tuple item by item, and a record as an object of
   exactly its fields, without those that are left out and null.
   */
  lemma {:induction false} PayloadIs(t: Table, v: Value)
    ensures v == Null ==> ToPayload(t, v) == PNull
    ensures v.Bool? ==> ToPayload(t, v) == PBool(v.b)
    ensures v.Int? ==> ToPayload(t, v) == PInt(v.i)
    ensures v.Float? ==> ToPayload(t, v) == PFloat(v.x)
    ensures v.Text? ==> ToPayload(t, v) == PText(v.s)
    ensures v.Tuple? ==>
      var p := ToPayload(t, v);
      p.List? && |p.items| == |v.items| && forall i :: 0 <= i < |v.items| ==> p.items[i] == ToPayload(t, v.items[i])
    ensures v.Record? ==>
      var p := ToPayload(t, v);
      && p.Object?
      && (forall f :: f in p.members <==> f in v.fields && !(t.omitted(v.cls, f) && v.fields[f] == Null))
      && (forall f :: f in p.members ==> p.members[f] == ToPayload(t, v.fields[f]))
  {
  }

  // ---- Constructors ----

  function Insert(leq: (Value, Value) -> bool, x: Value, xs: seq<Value>): seq<Value> {
    if xs == [] then [x]
    else if leq(x, xs[0]) then [x] + xs
    else [xs[0]] + Insert(leq, x, xs[1..])
  }

  function Sort(leq: (Value, Value) -> bool, xs: seq<Value>): seq<Value> {
    if xs == [] then [] else Insert(leq, xs[0], Sort(leq, xs[1..]))
  }

  ghost predicate IsSorted(leq: (Value, Value) -> bool, xs: seq<Value>) {
    forall i :: 0 <= i < |xs| - 1 ==> leq(xs[i], xs[i + 1])
  }

  lemma {:induction false} InsertSorted(leq: (Value, Value) -> bool, x: Value, xs: seq<Value>)
    requires (forall a, b :: leq(a, b) || leq(b, a)) && IsSorted(leq, xs)
    ensures IsSorted(leq, Insert(leq, x, xs))
    ensures Insert(leq, x, xs) != [] && (Insert(leq, x, xs)[0] == x || (xs != [] && Insert(leq, x, xs)[0] == xs[0]))
    ensures multiset(Insert(leq, x, xs)) == multiset(xs) + multiset{x}
  {
    if xs == [] {
    } else if leq(x, xs[0]) {
      var ys := [x] + xs;
      forall i | 0 <= i < |ys| - 1
        ensures leq(ys[i], ys[i + 1])
      {
        if i > 0 {
          assert leq(xs[i - 1], xs[i - 1 + 1]);
        }
      }
    } else {
      var tail := xs[1..];
      forall i | 0 <= i < |tail| - 1
        ensures leq(tail[i], tail[i + 1])
      {
        var j := i + 1;
        assert leq(xs[j], xs[j + 1]);
      }
      InsertSorted(leq, x, tail);
      var ys := Insert(leq, x, tail);
      if tail != [] {
        var j := 0;
        assert leq(xs[j], xs[j + 1]);
      }
      assert xs == [xs[0]] + tail;
      var zs := [xs[0]] + ys;
      forall i | 0 <= i < |zs| - 1
        ensures leq(zs[i], zs[i + 1])
      {
        if i > 0 {
          assert leq(ys[i - 1], ys[i - 1 + 1]);
        }
      }
    }
  }

  /** Sorting sorts, keeps every element, and does nothing to what is sorted. */
  lemma {:induction false} SortSorts(leq: (Value, Value) -> bool, xs: seq<Value>)
    requires forall a, b :: leq(a, b) || leq(b, a)
    ensures IsSorted(leq, Sort(leq, xs)) && multiset(Sort(leq, xs)) == multiset(xs)
  {
    if xs != [] {
      SortSorts(leq, xs[1..]);
      InsertSorted(leq, xs[0], Sort(leq, xs[1..]));
      assert xs == [xs[0]] + xs[1..];
    }
  }

  lemma {:induction false} SortedStays(leq: (Value, Value) -> bool, xs: seq<Value>)
    requires IsSorted(leq, xs)
    ensures Sort(leq, xs) == xs
  {
    if xs != [] {
      var tail := xs[1..];
      forall i | 0 <= i < |tail| - 1
        ensures leq(tail[i], tail[i + 1])
      {
        var j := i + 1;
        assert leq(xs[j], xs[j + 1]);
      }
      SortedStays(leq, tail);
      if tail != [] {
        var j := 0;
        assert leq(xs[j], xs[j + 1]);
      }
    }
  }

  /** What a constructor makes of one field. */
  function Normal(t: Table, c: string, f: string, v: Value): Value {
    if t.sorted(c, f) && v.Tuple? then Tuple(Sort(t.leq, v.items)) else v
  }

  function Normalised(t: Table, c: string, fields: map<string, Value>): map<string, Value> {
    map f | f in fields :: Normal(t, c, f, fields[f])
  }

  /** A record's constructor: all fields, normalised once, and then checked. */
  function Construct(t: Table, c: string, fields: map<string, Value>): Option<Value> {
    var normal := Normalised(t, c, fields);
    if fields.Keys == t.fieldsOf(c) && t.accepts(c, normal) then Some(Record(c, normal)) else None
  }

  /** Values without records inside. */
  predicate Plain(v: Value) {
    match v
    case Tuple(items) => forall i :: 0 <= i < |items| ==> Plain(items[i])
    case Record(_, _) => false
    case _ => true
  }

  /** Records that constructors make, all the way down. */
  ghost predicate Constructed(t: Table, v: Value)
    decreases v, 0
  {
    v.Record?
    && (exists fields :: Construct(t, v.cls, fields) == Some(v))
    && forall f :: f in v.fields ==> FieldOk(t, v.cls, f, v.fields[f])
  }

  ghost predicate FieldOk(t: Table, c: string, f: string, v: Value)
    decreases v, 1
  {
    match t.nested(c, f)
    case None => Plain(v)
    case Some(n) => (n.optional && v == Null) || (v.Record? && v.cls == n.cls && Constructed(t, v))
  }

  // ---- Decoding ----

  function FromPlain(p: Payload): Option<Value> {
    match p
    case PNull => Some(Null)
    case PBool(b) => Some(Bool(b))
    case PInt(i) => Some(Int(i))
    case PFloat(x) => Some(Float(x))
    case PText(s) => Some(Text(s))
    case Object(_) => None
    case List(items) =>
      if forall i :: 0 <= i < |items| ==> FromPlain(items[i]).Some?
      then Some(Tuple(seq(|items|, i requires 0 <= i < |items| => FromPlain(items[i]).value)))
      else None
  }

  /** Nested members must be present; other missing ones take their default. */
  function DecodeField(t: Table, c: string, f: string, p: Payload): Option<Value>
    requires p.Object?
    decreases p, 0
  {
    match t.nested(c, f)
    case None => if f in p.members then FromPlain(p.members[f]) else t.defaults(c, f)
    case Some(n) =>
      if f !in p.members then None
      else if n.optional && p.members[f] == PNull then Some(Null)
      else Decode(t, n.cls, p.members[f])
  }

  /** The record of a class that the payload describes; unknown members are refused. */
  function Decode(t: Table, c: string, p: Payload): Option<Value>
    decreases p, 1
  {
    if !p.Object? || !(p.members.Keys <= t.fieldsOf(c)) then None
    else if forall f :: f in t.fieldsOf(c) ==> DecodeField(t, c, f, p).Some? then
      Construct(t, c, map f | f in t.fieldsOf(c) :: DecodeField(t, c, f, p).value)
    else None
  }

  // ---- Round trip ----

  lemma {:induction false} PlainRoundTrip(t: Table, v: Value)
    requires Plain(v)
    ensures FromPlain(ToPayload(t, v)) == Some(v)
  {
    if v.Tuple? {
      forall i | 0 <= i < |v.items|
        ensures FromPlain(ToPayload(t, v.items[i])) == Some(v.items[i])
      {
        PlainRoundTrip(t, v.items[i]);
      }
      assert FromPlain(ToPayload(t, v)).value.items == v.items;
    }
  }

  /** A constructor does nothing to what a constructor made. */
  lemma {:induction false} ConstructAgain(t: Table, c: string, fields: map<string, Value>)
    requires TableOk(t) && Construct(t, c, fields).Some?
    ensures Construct(t, c, Construct(t, c, fields).value.fields) == Construct(t, c, fields)
  {
    var normal := Normalised(t, c, fields);
    forall f | f in fields
      ensures Normal(t, c, f, normal[f]) == normal[f]
    {
      if t.sorted(c, f) && fields[f].Tuple? {
        SortSorts(t.leq, fields[f].items);
        SortedStays(t.leq, normal[f].items);
      }
    }
    assert Normalised(t, c, normal) == normal;
  }

  lemma {:induction false} FieldRoundTrip(t: Table, v: Value, f: string)
    requires TableOk(t) && Constructed(t, v) && f in v.fields
    ensures ToPayload(t, v).Object? && DecodeField(t, v.cls, f, ToPayload(t, v)) == Some(v.fields[f])
    decreases v, 0
  {
    var p := ToPayload(t, v);
    var x := v.fields[f];
    assert FieldOk(t, v.cls, f, x);
    match t.nested(v.cls, f) {
      case None =>
        PlainRoundTrip(t, x);
      case Some(n) =>
        assert !Omits(t, v.cls, f, x);
        assert p.members[f] == ToPayload(t, x);
        if x != Null {
          RoundTrip(t, x);
        }
    }
  }

  /** Decoding the canonical payload of a record gives back the record, nested records and omitted fields included. */
  lemma {:induction false} RoundTrip(t: Table, v: Value)
    requires TableOk(t) && Constructed(t, v)
    ensures Decode(t, v.cls, ToPayload(t, v)) == Some(v)
    decreases v, 1
  {
    var p := ToPayload(t, v);
    var fields :| Construct(t, v.cls, fields) == Some(v);
    assert v.fields.Keys == t.fieldsOf(v.cls);
    forall f | f in t.fieldsOf(v.cls)
      ensures DecodeField(t, v.cls, f, p) == Some(v.fields[f])
    {
      FieldRoundTrip(t, v, f);
    }
    assert (map f | f in t.fieldsOf(v.cls) :: DecodeField(t, v.cls, f, p).value) == v.fields;
    ConstructAgain(t, v.cls, fields);
  }

  /** Equal payloads come from equal records: what is left out loses nothing. */
  lemma {:induction false} PayloadInjective(t: Table, a: Value, b: Value)
    requires TableOk(t) && Constructed(t, a) && Constructed(t, b) && a.cls == b.cls
    ensures ToPayload(t, a) == ToPayload(t, b) ==> a == b
  {
    RoundTrip(t, a);
    RoundTrip(t, b);
  }

  // ---- Decoded records ----

  lemma {:induction false} FromPlainIsPlain(p: Payload)
    ensures FromPlain(p).Some? ==> Plain(FromPlain(p).value)
  {
    if p.List? {
      forall i | 0 <= i < |p.items|
        ensures FromPlain(p.items[i]).Some? ==> Plain(FromPlain(p.items[i]).value)
      {
        FromPlainIsPlain(p.items[i]);
      }
    }
  }

  /** Defaults are plain values, and only plain fields are kept sorted. */
  ghost predicate DefaultsPlain(t: Table) {
    && (forall c, f :: t.defaults(c, f).Some? ==> Plain(t.defaults(c, f).value))
    && (forall c, f :: t.sorted(c, f) ==> t.nested(c, f).None?)
  }

  lemma {:induction false} SortPlain(leq: (Value, Value) -> bool, xs: seq<Value>)
    requires (forall a, b :: leq(a, b) || leq(b, a)) && forall i :: 0 <= i < |xs| ==> Plain(xs[i])
    ensures forall i :: 0 <= i < |Sort(leq, xs)| ==> Plain(Sort(leq, xs)[i])
  {
    SortSorts(leq, xs);
    forall i | 0 <= i < |Sort(leq, xs)|
      ensures Plain(Sort(leq, xs)[i])
    {
      var x := Sort(leq, xs)[i];
      assert x in multiset(Sort(leq, xs));
      assert x in xs;
    }
  }

  lemma {:induction false} DecodedField(t: Table, c: string, f: string, p: Payload)
    requires TableOk(t) && DefaultsPlain(t) && p.Object? && DecodeField(t, c, f, p).Some?
    ensures FieldOk(t, c, f, Normal(t, c, f, DecodeField(t, c, f, p).value))
    decreases p, 0
  {
    match t.nested(c, f) {
      case None =>
        if f in p.members {
          FromPlainIsPlain(p.members[f]);
        }
        var v := DecodeField(t, c, f, p).value;
        if v.Tuple? {
          SortPlain(t.leq, v.items);
        }
      case Some(n) =>
        if !(n.optional && p.members[f] == PNull) {
          DecodedIsConstructed(t, n.cls, p.members[f]);
        }
    }
  }

  /** Whatever payload is decoded, the result is a record that constructors make. */
  lemma {:induction false} DecodedIsConstructed(t: Table, c: string, p: Payload)
    requires TableOk(t) && DefaultsPlain(t) && Decode(t, c, p).Some?
    ensures Constructed(t, Decode(t, c, p).value) && Decode(t, c, p).value.cls == c
    decreases p, 1
  {
    var fields := map f | f in t.fieldsOf(c) :: DecodeField(t, c, f, p).value;
    var v := Decode(t, c, p).value;
    assert Construct(t, c, fields) == Some(v);
    forall f | f in v.fields
      ensures FieldOk(t, c, f, v.fields[f])
    {
      DecodedField(t, c, f, p);
    }
  }

  /** Encoding a decoded payload gives the canonical form: decoding that changes nothing more. */
  lemma {:induction false} DecodingIsStable(t: Table, c: string, p: Payload)
    requires TableOk(t) && DefaultsPlain(t) && Decode(t, c, p).Some?
    ensures Decode(t, c, ToPayload(t, Decode(t, c, p).value)) == Decode(t, c, p)
  {
    DecodedIsConstructed(t, c, p);
    RoundTrip(t, Decode(t, c, p).value);
  }

  // ---- The classes of an execution plan ----

  const PLAN: string := "ExecutionPlan"
  const CANDIDATE: string := "CandidatePlan"
  const IDENTITIES: string := "PlanIdentities"
  const WORKLOAD: string := "WorkloadIR"
  const SETTINGS: string := "RuntimeSettings"
  const STATIC: string := "StaticPlacement"

  const PLAN_FIELDS: set<string> := {"schema_version", "compiler_version", "launcher_abi", "candidate", "fallback",
    "sealed_at", "plan_sha256"}
  const CANDIDATE_FIELDS: set<string> := {"identities", "settings", "status", "estimated_decode_tps", "measurement_ids",
    "rejection_reasons", "validation"}
  const IDENTITY_FIELDS: set<string> := {"model_sha256", "hardware_sha256", "workload_sha256", "runtime_sha256",
    "workload"}
  const WORKLOAD_FIELDS: set<string> := {
    "prompt", "context_size", "predict_tokens", "schema_version", "objective", "policy", "runtime_interface",
      "concurrency",
    "threads", "seed", "temperature", "ignore_eos", "cache_prompt", "kv_type_k", "kv_type_v", "cuda_graphs",
      "batch_size",
    "microbatch_size", "warmup_runs", "measured_runs", "minimum_vram_reserve_mib", "maximum_cv_pct",
      "confirmation_pairs",
    "bootstrap_samples", "bootstrap_seed", "replay_tolerance_pct", "health_timeout_seconds",
      "completion_timeout_seconds",
    "approximate_quality_budget"}
  const SETTINGS_FIELDS: set<string> := {
    "gpu_layers", "cpu_moe", "cuda_graphs", "kv_type_k", "kv_type_v", "batch_size", "microbatch_size", "static",
      "cuda_pdl"}
  const STATIC_FIELDS: set<string> := {"layer_ids", "precompute", "arena_bytes"}

  function PlanFields(c: string): set<string> {
    if c == PLAN then PLAN_FIELDS
    else if c == CANDIDATE then CANDIDATE_FIELDS
    else if c == IDENTITIES then IDENTITY_FIELDS
    else if c == WORKLOAD then WORKLOAD_FIELDS
    else if c == SETTINGS then SETTINGS_FIELDS
    else if c == STATIC then STATIC_FIELDS
    else {}
  }

  function PlanNested(c: string, f: string): Option<Nested> {
    if c == PLAN && f == "candidate" then Some(Nested(CANDIDATE, false))
    else if c == PLAN && f == "fallback" then Some(Nested(PLAN, true))
    else if c == CANDIDATE && f == "identities" then Some(Nested(IDENTITIES, false))
    else if c == CANDIDATE && f == "settings" then Some(Nested(SETTINGS, false))
    else if c == IDENTITIES && f == "workload" then Some(Nested(WORKLOAD, false))
    else if c == SETTINGS && f == "static" then Some(Nested(STATIC, true))
    else None
  }

  function WorkloadText(f: string): Option<string> {
    if f == "schema_version" then Some("1.0.0")
    else if f == "objective" then Some("decode_tps")
    else if f == "policy" then Some("exact")
    else if f == "runtime_interface" then Some("server_completion")
    else if f == "kv_type_k" || f == "kv_type_v" then Some("f16")
    else if f == "cuda_graphs" then Some("on")
    else None
  }

  function WorkloadInt(f: string): Option<int> {
    if f == "concurrency" || f == "warmup_runs" then Some(1)
    else if f == "threads" then Some(12)
    else if f == "seed" then Some(42)
    else if f == "batch_size" then Some(2048)
    else if f == "microbatch_size" then Some(512)
    else if f == "measured_runs" then Some(3)
    else if f == "minimum_vram_reserve_mib" then Some(256)
    else if f == "confirmation_pairs" then Some(10)
    else if f == "bootstrap_samples" then Some(10000)
    else if f == "bootstrap_seed" then Some(20261003)
    else if f == "health_timeout_seconds" then Some(180)
    else if f == "completion_timeout_seconds" then Some(300)
    else None
  }

  function WorkloadFloat(f: string): Option<real> {
    if f == "temperature" then Some(0.0)
    else if f == "maximum_cv_pct" then Some(10.0)
    else if f == "replay_tolerance_pct" then Some(2.0)
    else None
  }

  function WorkloadDefault(f: string): Option<Value> {
    if WorkloadText(f).Some? then Some(Text(WorkloadText(f).value))
    else if WorkloadInt(f).Some? then Some(Int(WorkloadInt(f).value))
    else if WorkloadFloat(f).Some? then Some(Float(WorkloadFloat(f).value))
    else if f == "ignore_eos" then Some(Bool(true))
    else if f == "cache_prompt" then Some(Bool(false))
    else if f == "approximate_quality_budget" then Some(Null)
    else None
  }

  function SettingsDefault(f: string): Option<Value> {
    if f == "cuda_graphs" then Some(Text("on"))
    else if f == "kv_type_k" || f == "kv_type_v" then Some(Text("f16"))
    else if f == "batch_size" then Some(Int(2048))
    else if f == "microbatch_size" then Some(Int(512))
    else if f == "static" || f == "cuda_pdl" then Some(Null)
    else None
  }

  function PlanDefault(c: string, f: string): Option<Value> {
    if c == WORKLOAD then WorkloadDefault(f)
    else if c == SETTINGS then SettingsDefault(f)
    else if c == STATIC && f == "precompute" then Some(Bool(true))
    else if c == STATIC && f == "arena_bytes" then Some(Int(0))
    else if c == CANDIDATE && f == "status" then Some(Text("unmeasured"))
    else if c == CANDIDATE && f == "estimated_decode_tps" then Some(Null)
    else if c == CANDIDATE && f in {"measurement_ids", "rejection_reasons", "validation"} then Some(Tuple([]))
    else None
  }

  predicate PlanOmitted(c: string, f: string) {
    c == SETTINGS && f == "cuda_pdl"
  }

  predicate PlanSorted(c: string, f: string) {
    (c == STATIC && f == "layer_ids") || (c == CANDIDATE && f == "validation")
  }

  /** The plan's classes, whatever the constructors check and whichever total order sorts. */
  function PlanTable(leq: (Value, Value) -> bool, accepts: (string, map<string, Value>) -> bool): Table {
    Table(PlanFields, PlanNested, PlanOmitted, PlanDefault, PlanSorted, leq, accepts)
  }

  lemma {:induction false} DefaultIsPlain(c: string, f: string)
    ensures PlanDefault(c, f).Some? ==> Plain(PlanDefault(c, f).value)
  {
    hide WorkloadDefault, SettingsDefault;
    WorkloadDefaultIsPlain(f);
    SettingsDefaultIsPlain(f);
  }

  lemma {:induction false} WorkloadDefaultIsPlain(f: string)
    ensures WorkloadDefault(f).Some? ==> Plain(WorkloadDefault(f).value)
  {
    hide WorkloadText, WorkloadInt, WorkloadFloat;
  }

  lemma {:induction false} SettingsDefaultIsPlain(f: string)
    ensures SettingsDefault(f).Some? ==> Plain(SettingsDefault(f).value)
  {
  }

  /** The only field that is ever left out is an optional control that defaults to null. */
  lemma {:induction false} OmittedDefaultsToNull(c: string, f: string)
    requires PlanOmitted(c, f)
    ensures PlanDefault(c, f) == Some(Null) && PlanNested(c, f).None?
  {
    hide WorkloadDefault, PlanFields;
    assert |SETTINGS| == 15 && |WORKLOAD| == 10 && |PLAN| == 13 && |CANDIDATE| == 13 && |IDENTITIES| == 14;
    assert |"cuda_pdl"| == 8 && |"static"| == 6 && |"kv_type_k"| == 9 && |"batch_size"| == 10 && |"cuda_graphs"| == 11;
  }

  lemma {:induction false} SortedIsPlain(c: string, f: string)
    requires PlanSorted(c, f)
    ensures PlanNested(c, f).None?
  {
    assert |STATIC| == 15 && |"layer_ids"| == 9 && |"validation"| == 10;
    assert |SETTINGS| == 15 && STATIC[0] == 'S' && SETTINGS[0] == 'R';
  }

  lemma {:induction false} PlanTableOk(leq: (Value, Value) -> bool, accepts: (string, map<string, Value>) -> bool)
    requires forall a, b :: leq(a, b) || leq(b, a)
    ensures TableOk(PlanTable(leq, accepts)) && DefaultsPlain(PlanTable(leq, accepts))
  {
    hide PlanFields, PlanDefault, PlanNested, PlanOmitted, PlanSorted;
    var t := PlanTable(leq, accepts);
    forall c, f
      ensures t.omitted(c, f) ==> t.defaults(c, f) == Some(Null) && t.nested(c, f).None?
      ensures t.defaults(c, f).Some? ==> Plain(t.defaults(c, f).value)
      ensures t.sorted(c, f) ==> t.nested(c, f).None?
    {
      DefaultIsPlain(c, f);
      if t.omitted(c, f) {
        OmittedDefaultsToNull(c, f);
      }
      if t.sorted(c, f) {
        SortedIsPlain(c, f);
      }
    }
  }

  /** Every plan, with all its fallbacks, survives being written and loaded. */
  lemma {:induction false} PlanRoundTrip(leq: (Value, Value) -> bool, accepts: (string, map<string, Value>) -> bool,
                                         plan: Value)
    requires forall a, b :: leq(a, b) || leq(b, a)
    requires var t := PlanTable(leq, accepts); Constructed(t, plan) && plan.cls == PLAN
    ensures var t := PlanTable(leq, accepts); Decode(t, PLAN, ToPayload(t, plan)) == Some(plan)
  {
    PlanTableOk(leq, accepts);
    RoundTrip(PlanTable(leq, accepts), plan);
  }

  /** Settings with different values have different payloads, although one field is left out when null. */
  lemma {:induction false} SettingsPayloadInjective(leq: (Value, Value) -> bool,
                                                    accepts: (string, map<string, Value>) -> bool, a: Value, b: Value)
    requires forall x, y :: leq(x, y) || leq(y, x)
    requires var t := PlanTable(leq, accepts); Constructed(t, a) && Constructed(t, b) && a.cls == b.cls == SETTINGS
    ensures var t := PlanTable(leq, accepts); ToPayload(t, a) == ToPayload(t, b) <==> a == b
  {
    PlanTableOk(leq, accepts);
    PayloadInjective(PlanTable(leq, accepts), a, b);
  }

  // ---- What the plan's classes are ----

  /** The nested records of a plan, by class and field. */
  lemma {:induction false} NestedExactly(c: string, f: string, n: Nested)
    ensures PlanNested(c, f) == Some(n)
       <==> (c == "ExecutionPlan" && f == "candidate" && n == Nested("CandidatePlan", false))
            || (c == "ExecutionPlan" && f == "fallback" && n == Nested("ExecutionPlan", true))
            || (c == "CandidatePlan" && f == "identities" && n == Nested("PlanIdentities", false))
            || (c == "CandidatePlan" && f == "settings" && n == Nested("RuntimeSettings", false))
            || (c == "PlanIdentities" && f == "workload" && n == Nested("WorkloadIR", false))
            || (c == "RuntimeSettings" && f == "static" && n == Nested("StaticPlacement", true))
  {
    ClassesDiffer();
    assert "candidate" != "fallback" && "identities" != "settings" by {
      assert |"candidate"| == 9 && |"fallback"| == 8 && |"identities"| == 10;
    }
  }

  lemma {:induction false} ClassesDiffer()
    ensures PLAN != CANDIDATE && PLAN != IDENTITIES && PLAN != WORKLOAD && PLAN != SETTINGS && PLAN != STATIC
    ensures CANDIDATE != IDENTITIES && CANDIDATE != WORKLOAD && CANDIDATE != SETTINGS && CANDIDATE != STATIC
    ensures IDENTITIES != WORKLOAD && IDENTITIES != SETTINGS && IDENTITIES != STATIC
    ensures WORKLOAD != SETTINGS && WORKLOAD != STATIC && SETTINGS != STATIC
  {
    assert PLAN[0] == 'E' && CANDIDATE[0] == 'C' && IDENTITIES[0] == 'P' && WORKLOAD[0] == 'W' && SETTINGS[0] == 'R'
      && STATIC[0] == 'S';
  }

  /** Static layers and validations are kept sorted, and nothing else is. */
  lemma {:induction false} SortedExactly(c: string, f: string)
    ensures PlanSorted(c, f)
       <==> (c == "StaticPlacement" && f == "layer_ids") || (c == "CandidatePlan" && f == "validation")
  {
  }

  /** The CUDA control of the settings is left out when it is null, and nothing else is. */
  lemma {:induction false} OmittedExactly(c: string, f: string)
    ensures PlanOmitted(c, f) <==> c == "RuntimeSettings" && f == "cuda_pdl"
  {
  }

  /** The fields of each class, in full. */
  lemma {:induction false} FieldsAre()
    ensures PlanFields("ExecutionPlan")
         == {"schema_version", "compiler_version", "launcher_abi", "candidate", "fallback", "sealed_at", "plan_sha256"}
    ensures PlanFields("CandidatePlan")
         == {"identities", "settings", "status", "estimated_decode_tps", "measurement_ids", "rejection_reasons",
             "validation"}
    ensures PlanFields("PlanIdentities")
         == {"model_sha256", "hardware_sha256", "workload_sha256", "runtime_sha256", "workload"}
    ensures PlanFields("RuntimeSettings")
         == {"gpu_layers", "cpu_moe", "cuda_graphs", "kv_type_k", "kv_type_v", "batch_size", "microbatch_size",
           "static",
             "cuda_pdl"}
    ensures PlanFields("StaticPlacement") == {"layer_ids", "precompute", "arena_bytes"}
  {
    ClassesDiffer();
  }

  /** Settings that give only the GPU layers, the CPU experts and no static placement take six defaults. */
  lemma {:induction false} MinimalSettings(leq: (Value, Value) -> bool,
                                           accepts: (string, map<string, Value>) -> bool, layers: int, cpu: bool)
    ensures Decode(PlanTable(leq, accepts), "RuntimeSettings",
                   Object(map["gpu_layers" := PInt(layers), "cpu_moe" := PBool(cpu), "static" := PNull]))
         == Construct(PlanTable(leq, accepts), "RuntimeSettings",
                      map["gpu_layers" := Int(layers), "cpu_moe" := Bool(cpu), "static" := Null,
                          "cuda_graphs" := Text("on"), "kv_type_k" := Text("f16"), "kv_type_v" := Text("f16"),
                          "batch_size" := Int(2048), "microbatch_size" := Int(512), "cuda_pdl" := Null])
  {
    hide PlanFields, PlanNested, PlanDefault, Construct, DecodeField;
    var t := PlanTable(leq, accepts);
    var p := Object(map["gpu_layers" := PInt(layers), "cpu_moe" := PBool(cpu), "static" := PNull]);
    FieldsAre();
    SettingsFields(t, p, layers, cpu);
    var fields := map f | f in t.fieldsOf("RuntimeSettings") :: DecodeField(t, "RuntimeSettings", f, p).value;
    assert fields == map["gpu_layers" := Int(layers), "cpu_moe" := Bool(cpu), "static" := Null,
                         "cuda_graphs" := Text("on"), "kv_type_k" := Text("f16"), "kv_type_v" := Text("f16"),
                         "batch_size" := Int(2048), "microbatch_size" := Int(512), "cuda_pdl" := Null];
  }

  lemma {:induction false} SettingsFields(t: Table, p: Payload, layers: int, cpu: bool)
    requires t.nested == PlanNested && t.defaults == PlanDefault
    requires p == Object(map["gpu_layers" := PInt(layers), "cpu_moe" := PBool(cpu), "static" := PNull])
    ensures var c := "RuntimeSettings";
            && DecodeField(t, c, "gpu_layers", p) == Some(Int(layers))
            && DecodeField(t, c, "cpu_moe", p) == Some(Bool(cpu)) && DecodeField(t, c, "static", p) == Some(Null)
            && DecodeField(t, c, "cuda_graphs", p) == Some(Text("on"))
            && DecodeField(t, c, "kv_type_k", p) == Some(Text("f16"))
            && DecodeField(t, c, "kv_type_v", p) == Some(Text("f16"))
            && DecodeField(t, c, "batch_size", p) == Some(Int(2048))
            && DecodeField(t, c, "microbatch_size", p) == Some(Int(512))
            && DecodeField(t, c, "cuda_pdl", p) == Some(Null)
  {
    hide DecodeField, PlanDefault, PlanNested;
    SettingsDefaults();
    GivenSettings(t, p, layers, cpu);
    AbsentSetting(t, p, "cuda_graphs");
    AbsentSetting(t, p, "kv_type_k");
    AbsentSetting(t, p, "kv_type_v");
    AbsentSetting(t, p, "batch_size");
    AbsentSetting(t, p, "microbatch_size");
    AbsentSetting(t, p, "cuda_pdl");
  }

  lemma {:induction false} GivenSettings(t: Table, p: Payload, layers: int, cpu: bool)
    requires t.nested == PlanNested
    requires p == Object(map["gpu_layers" := PInt(layers), "cpu_moe" := PBool(cpu), "static" := PNull])
    ensures var c := "RuntimeSettings";
            && DecodeField(t, c, "gpu_layers", p) == Some(Int(layers))
            && DecodeField(t, c, "cpu_moe", p) == Some(Bool(cpu)) && DecodeField(t, c, "static", p) == Some(Null)
  {
    hide PlanNested;
    assert "gpu_layers"[0] == 'g' && "cpu_moe"[1] == 'p' && "static"[0] == 's' && "cpu_moe"[0] == 'c';
    NotNested("gpu_layers");
    NotNested("cpu_moe");
    NestedExactly("RuntimeSettings", "static", Nested("StaticPlacement", true));
  }

  lemma {:induction false} AbsentSetting(t: Table, p: Payload, f: string)
    requires t.nested == PlanNested && p.Object? && f !in p.members && f != "static"
    ensures DecodeField(t, "RuntimeSettings", f, p) == t.defaults("RuntimeSettings", f)
  {
    hide PlanNested;
    NotNested(f);
  }

  lemma {:induction false} NotNested(f: string)
    requires f != "static"
    ensures PlanNested("RuntimeSettings", f).None?
  {
    hide PlanNested;
    ClassesDiffer();
    if PlanNested("RuntimeSettings", f).Some? {
      NestedExactly("RuntimeSettings", f, PlanNested("RuntimeSettings", f).value);
    }
  }

  /** What absent settings stand for; GPU layers and CPU experts must be given. */
  lemma {:induction false} SettingsDefaults()
    ensures PlanDefault("RuntimeSettings", "cuda_graphs") == Some(Text("on"))
    ensures PlanDefault("RuntimeSettings", "kv_type_k") == Some(Text("f16"))
    ensures PlanDefault("RuntimeSettings", "kv_type_v") == Some(Text("f16"))
    ensures PlanDefault("RuntimeSettings", "batch_size") == Some(Int(2048))
    ensures PlanDefault("RuntimeSettings", "microbatch_size") == Some(Int(512))
    ensures PlanDefault("RuntimeSettings", "cuda_pdl") == Some(Null)
    ensures PlanDefault("RuntimeSettings", "gpu_layers").None? && PlanDefault("RuntimeSettings", "cpu_moe").None?
  {
    hide WorkloadDefault;
    ClassesDiffer();
  }

  /** The fields of a workload, and what an absent one stands for; the prompt and its sizes must be given. */
  lemma {:induction false} WorkloadFieldsAre()
    ensures PlanFields("WorkloadIR")
         == {"prompt", "context_size", "predict_tokens", "schema_version", "objective", "policy", "runtime_interface",
             "concurrency", "threads", "seed", "temperature", "ignore_eos", "cache_prompt", "kv_type_k", "kv_type_v",
             "cuda_graphs", "batch_size", "microbatch_size", "warmup_runs", "measured_runs",
             "minimum_vram_reserve_mib", "maximum_cv_pct", "confirmation_pairs", "bootstrap_samples",
             "bootstrap_seed", "replay_tolerance_pct", "health_timeout_seconds", "completion_timeout_seconds",
             "approximate_quality_budget"}
    ensures forall f :: PlanDefault("WorkloadIR", f) == WorkloadDefault(f)
  {
    hide WorkloadDefault;
    ClassesDiffer();
  }

  lemma {:induction false} WorkloadTexts()
    ensures WorkloadDefault("schema_version") == Some(Text("1.0.0"))
    ensures WorkloadDefault("objective") == Some(Text("decode_tps"))
    ensures WorkloadDefault("policy") == Some(Text("exact"))
    ensures WorkloadDefault("runtime_interface") == Some(Text("server_completion"))
    ensures WorkloadDefault("kv_type_k") == WorkloadDefault("kv_type_v") == Some(Text("f16"))
    ensures WorkloadDefault("cuda_graphs") == Some(Text("on"))
  {
    hide WorkloadInt, WorkloadFloat;
  }

  lemma {:induction false} WorkloadCounts()
    ensures WorkloadDefault("concurrency") == WorkloadDefault("warmup_runs") == Some(Int(1))
    ensures WorkloadDefault("measured_runs") == Some(Int(3)) && WorkloadDefault("threads") == Some(Int(12))
  {
    hide WorkloadFloat;
  }

  lemma {:induction false} WorkloadSizes()
    ensures WorkloadDefault("batch_size") == Some(Int(2048)) && WorkloadDefault("microbatch_size") == Some(Int(512))
    ensures WorkloadDefault("minimum_vram_reserve_mib") == Some(Int(256)) && WorkloadDefault("seed") == Some(Int(42))
  {
    hide WorkloadFloat;
  }

  lemma {:induction false} WorkloadSamples()
    ensures WorkloadDefault("confirmation_pairs") == Some(Int(10))
    ensures WorkloadDefault("bootstrap_samples") == Some(Int(10000))
    ensures WorkloadDefault("bootstrap_seed") == Some(Int(20261003))
  {
    hide WorkloadFloat;
  }

  lemma {:induction false} WorkloadTimeouts()
    ensures WorkloadDefault("health_timeout_seconds") == Some(Int(180))
    ensures WorkloadDefault("completion_timeout_seconds") == Some(Int(300))
  {
    hide WorkloadFloat;
  }

  lemma {:induction false} WorkloadTemperature()
    ensures WorkloadDefault("temperature") == Some(Float(0.0))
  {
  }

  lemma {:induction false} WorkloadVariation()
    ensures WorkloadDefault("maximum_cv_pct") == Some(Float(10.0))
  {
  }

  lemma {:induction false} WorkloadTolerance()
    ensures WorkloadDefault("replay_tolerance_pct") == Some(Float(2.0))
  {
  }

  lemma {:induction false} WorkloadStop()
    ensures WorkloadDefault("ignore_eos") == Some(Bool(true))
  {
  }

  lemma {:induction false} WorkloadPromptCache()
    ensures WorkloadDefault("cache_prompt") == Some(Bool(false))
  {
  }

  lemma {:induction false} WorkloadQuality()
    ensures WorkloadDefault("approximate_quality_budget") == Some(Null)
  {
  }

  lemma {:induction false} WorkloadRequired()
    ensures WorkloadDefault("prompt").None? && WorkloadDefault("context_size").None?
    ensures WorkloadDefault("predict_tokens").None?
  {
  }

  /** What an absent member of a candidate or a static placement stands for; identities, settings and layers are due. */
  lemma {:induction false} CandidateDefaults()
    ensures PlanDefault("CandidatePlan", "status") == Some(Text("unmeasured"))
    ensures PlanDefault("CandidatePlan", "estimated_decode_tps") == Some(Null)
    ensures PlanDefault("CandidatePlan", "measurement_ids") == Some(Tuple([]))
    ensures PlanDefault("CandidatePlan", "rejection_reasons") == Some(Tuple([]))
    ensures PlanDefault("CandidatePlan", "validation") == Some(Tuple([]))
    ensures PlanDefault("StaticPlacement", "precompute") == Some(Bool(true))
    ensures PlanDefault("StaticPlacement", "arena_bytes") == Some(Int(0))
    ensures PlanDefault("StaticPlacement", "layer_ids").None?
    ensures forall f :: PlanDefault("ExecutionPlan", f).None? && PlanDefault("PlanIdentities", f).None?
  {
    ClassesDiffer();
  }
}
