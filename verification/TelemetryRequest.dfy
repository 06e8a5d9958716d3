/** telemetry.SubscriptionRequest and the messages inside it as values. Here merging is
    recursive: two `input` sub-messages become one. */
module TelemetryRequest {
  import opened Wire
  import opened Records
  import opened PlainLoop
  import opened Proto3
  import opened Utf8

  datatype Collector = Collector(address: bytes, port: uint32)
  datatype SubscriptionInput = SubscriptionInput(collectors: seq<Collector>)
  datatype Path = Path(path: bytes, filter: bytes, suppressUnchanged: bool, maxSilentInterval: uint32,
                       sampleFrequency: uint32)
  datatype AdditionalConfig = AdditionalConfig(limitRecords: int32, limitTimeSeconds: int32)
  datatype SubscriptionRequest = SubscriptionRequest(input: Option<SubscriptionInput>, paths: seq<Path>,
                                                     config: Option<AdditionalConfig>)

  const EMPTY_COLLECTOR := Collector([], 0)
  const EMPTY_INPUT := SubscriptionInput([])
  const EMPTY_PATH := Path([], [], false, 0, 0)
  const EMPTY_CONFIG := AdditionalConfig(0, 0)
  const EMPTY_REQUEST := SubscriptionRequest(None, [], None)

  // ---- Reading -------------------------------------------------------------------------------

  function HandleCollector(m: Collector, r: Record, depth: nat): Option<Collector>
  {
    match r
    case BytesField(1, s) => if ValidUtf8(s) then Some(m.(address := s)) else None
    case VarintField(2, v) => Some(m.(port := v % TWO32))
    case _ => Some(m)
  }

  function HandleInput(m: SubscriptionInput, r: Record, depth: nat): Option<SubscriptionInput>
  {
    match r
    case BytesField(1, s) =>
      (match Nested(HandleCollector, EMPTY_COLLECTOR, s, depth)
       case None => None
       case Some(c) => Some(SubscriptionInput(m.collectors + [c])))
    case _ => Some(m)
  }

  function HandlePath(m: Path, r: Record, depth: nat): Option<Path>
  {
    match r
    case BytesField(1, s) => if ValidUtf8(s) then Some(m.(path := s)) else None
    case BytesField(2, s) => if ValidUtf8(s) then Some(m.(filter := s)) else None
    case VarintField(3, v) => Some(m.(suppressUnchanged := v != 0))
    case VarintField(4, v) => Some(m.(maxSilentInterval := v % TWO32))
    case VarintField(5, v) => Some(m.(sampleFrequency := v % TWO32))
    case _ => Some(m)
  }

  function HandleConfig(m: AdditionalConfig, r: Record, depth: nat): Option<AdditionalConfig>
  {
    match r
    case VarintField(1, v) => Some(m.(limitRecords := ToI32(v)))
    case VarintField(2, v) => Some(m.(limitTimeSeconds := ToI32(v)))
    case _ => Some(m)
  }

  function Present<T>(o: Option<T>, default: T): T { if o.Some? then o.value else default }

  /** A singular sub-message that occurs again is parsed into the one already there. */
  function HandleRequest(m: SubscriptionRequest, r: Record, depth: nat): Option<SubscriptionRequest>
  {
    match r
    case BytesField(1, s) =>
      (match Nested(HandleInput, Present(m.input, EMPTY_INPUT), s, depth)
       case None => None
       case Some(i) => Some(m.(input := Some(i))))
    case BytesField(2, s) =>
      (match Nested(HandlePath, EMPTY_PATH, s, depth)
       case None => None
       case Some(p) => Some(m.(paths := m.paths + [p])))
    case BytesField(3, s) =>
      (match Nested(HandleConfig, Present(m.config, EMPTY_CONFIG), s, depth)
       case None => None
       case Some(c) => Some(m.(config := Some(c))))
    case _ => Some(m)
  }

  // ---- Writing -------------------------------------------------------------------------------

  function CollectorRecords(m: Collector): seq<Record> { TextField(1, m.address) + NumberField(2, m.port) }
  function SerializeCollector(m: Collector): bytes { EncodeAll(CollectorRecords(m)) }

  function CollectorsRecords(cs: seq<Collector>): seq<Record>
  {
    if cs == [] then [] else [BytesField(1, SerializeCollector(cs[0]))] + CollectorsRecords(cs[1..])
  }

  function SerializeInput(m: SubscriptionInput): bytes { EncodeAll(CollectorsRecords(m.collectors)) }

  function PathRecords(m: Path): seq<Record>
  {
    TextField(1, m.path) + (TextField(2, m.filter) + (NumberField(3, if m.suppressUnchanged then 1 else 0) +
    (NumberField(4, m.maxSilentInterval) + NumberField(5, m.sampleFrequency))))
  }

  function SerializePath(m: Path): bytes { EncodeAll(PathRecords(m)) }

  function PathsRecords(ps: seq<Path>): seq<Record>
  {
    if ps == [] then [] else [BytesField(2, SerializePath(ps[0]))] + PathsRecords(ps[1..])
  }

  /** A negative int32 travels as a sign-extended 64-bit varint. */
  function ConfigRecords(m: AdditionalConfig): seq<Record>
  {
    NumberField(1, ToU64(m.limitRecords)) + NumberField(2, ToU64(m.limitTimeSeconds))
  }

  function SerializeConfig(m: AdditionalConfig): bytes { EncodeAll(ConfigRecords(m)) }

  function InputField(o: Option<SubscriptionInput>): seq<Record>
  {
    if o.None? then [] else [BytesField(1, SerializeInput(o.value))]
  }

  function ConfigField(o: Option<AdditionalConfig>): seq<Record>
  {
    if o.None? then [] else [BytesField(3, SerializeConfig(o.value))]
  }

  function RequestRecords(m: SubscriptionRequest): seq<Record>
  {
    InputField(m.input) + (PathsRecords(m.paths) + ConfigField(m.config))
  }

  function SerializeRequest(m: SubscriptionRequest): bytes { EncodeAll(RequestRecords(m)) }

  // ---- Merging -------------------------------------------------------------------------------

  function MergeCollector(x: Collector, y: Collector): Collector
  {
    Collector(Later(x.address, y.address, []), Later(x.port, y.port, 0))
  }

  function MergeInput(x: SubscriptionInput, y: SubscriptionInput): SubscriptionInput
  {
    SubscriptionInput(x.collectors + y.collectors)
  }

  function MergePath(x: Path, y: Path): Path
  {
    Path(Later(x.path, y.path, []), Later(x.filter, y.filter, []),
         Later(x.suppressUnchanged, y.suppressUnchanged, false),
         Later(x.maxSilentInterval, y.maxSilentInterval, 0), Later(x.sampleFrequency, y.sampleFrequency, 0))
  }

  function MergeConfig(x: AdditionalConfig, y: AdditionalConfig): AdditionalConfig
  {
    AdditionalConfig(Later(x.limitRecords, y.limitRecords, 0), Later(x.limitTimeSeconds, y.limitTimeSeconds, 0))
  }

  function MergeRequest(x: SubscriptionRequest, y: SubscriptionRequest): SubscriptionRequest
  {
    SubscriptionRequest(
      if y.input.None? then x.input else Some(MergeInput(Present(x.input, EMPTY_INPUT), y.input.value)),
      x.paths + y.paths,
      if y.config.None? then x.config else Some(MergeConfig(Present(x.config, EMPTY_CONFIG), y.config.value)))
  }

  // ---- What a parser accepts -----------------------------------------------------------------

  predicate CollectorsOk(cs: seq<Collector>, depth: nat)
  {
    cs == [] || (depth > 0 && ValidUtf8(cs[0].address) && CollectorsOk(cs[1..], depth))
  }

  predicate PathOk(p: Path) { ValidUtf8(p.path) && ValidUtf8(p.filter) }

  predicate PathsOk(ps: seq<Path>, depth: nat)
  {
    ps == [] || (depth > 0 && PathOk(ps[0]) && PathsOk(ps[1..], depth))
  }

  /** The strings are UTF-8 and the nesting stays within the budget: one level for a path or the
      configuration, two for a collector. */
  predicate RequestOk(m: SubscriptionRequest, depth: nat)
  {
    (m.input.Some? ==> depth > 0 && CollectorsOk(m.input.value.collectors, depth - 1)) &&
    PathsOk(m.paths, depth) &&
    (m.config.Some? ==> depth > 0)
  }

  // ---- Folding is merging, message by message -----------------------------------------------

  lemma CollectorWhole(m: Collector, y: Collector, depth: nat)
    requires |SerializeCollector(y)| < TWO31
    ensures Whole(HandleCollector, m, SerializeCollector(y), depth)
         == if ValidUtf8(y.address) then Some(MergeCollector(m, y)) else None
  {
    hide Fold, Whole, HandleCollector;
    var h := HandleCollector;
    var t2 := NumberField(2, y.port);
    var m1 := m.(address := Later(m.address, y.address, []));
    PlainFits(CollectorRecords(y), depth);
    WholeWritten(h, m, CollectorRecords(y), depth);
    CollectorAddress(m, y.address, t2, depth);
    CollectorPort(m1, y.port, depth);
  }

  lemma CollectorAddress(m: Collector, s: bytes, rest: seq<Record>, depth: nat)
    ensures Fold(HandleCollector, m, TextField(1, s) + rest, depth)
         == if ValidUtf8(s) then Fold(HandleCollector, m.(address := Later(m.address, s, [])), rest, depth) else None
  {
    hide Fold;
    TextStep(HandleCollector, m, 1, s, rest, depth);
  }

  lemma CollectorPort(m: Collector, v: uint32, depth: nat)
    ensures Fold(HandleCollector, m, NumberField(2, v), depth) == Some(m.(port := Later(m.port, v, 0)))
  {
    if v != 0 { FoldOne(HandleCollector, m, VarintField(2, v), depth); }
  }

  lemma CollectorStep(m: SubscriptionInput, y: Collector, rest: seq<Record>, depth: nat)
    requires |SerializeCollector(y)| < TWO31
    ensures Fold(HandleInput, m, [BytesField(1, SerializeCollector(y))] + rest, depth)
         == if depth > 0 && ValidUtf8(y.address)
            then Fold(HandleInput, SubscriptionInput(m.collectors + [y]), rest, depth) else None
  {
    FoldCons(HandleInput, m, BytesField(1, SerializeCollector(y)), rest, depth);
    if depth > 0 { CollectorWhole(EMPTY_COLLECTOR, y, depth - 1); }
  }

  lemma NestedSmaller(num: nat, s: bytes, rest: seq<Record>)
    ensures |EncodeAll([BytesField(num, s)] + rest)| > |s| + |EncodeAll(rest)|
  {
    assert ([BytesField(num, s)] + rest)[1..] == rest;
    assert |Encode(BytesField(num, s))| > |s|;
  }

  lemma {:induction false} InputFold(m: SubscriptionInput, cs: seq<Collector>, depth: nat)
    requires |EncodeAll(CollectorsRecords(cs))| < TWO31
    ensures Fold(HandleInput, m, CollectorsRecords(cs), depth)
         == if CollectorsOk(cs, depth) then Some(SubscriptionInput(m.collectors + cs)) else None
    decreases |cs|
  {
    hide HandleInput, SerializeCollector;
    if cs == [] {
      assert m.collectors + cs == m.collectors;
    } else {
      NestedSmaller(1, SerializeCollector(cs[0]), CollectorsRecords(cs[1..]));
      CollectorStep(m, cs[0], CollectorsRecords(cs[1..]), depth);
      var m' := SubscriptionInput(m.collectors + [cs[0]]);
      InputFold(m', cs[1..], depth);
      assert m'.collectors + cs[1..] == m.collectors + cs;
    }
  }

  lemma {:induction false} CollectorsPlain(cs: seq<Collector>)
    ensures AllPlain(CollectorsRecords(cs))
  {
    if cs != [] { CollectorsPlain(cs[1..]); }
  }

  lemma InputWhole(m: SubscriptionInput, y: SubscriptionInput, depth: nat)
    requires |SerializeInput(y)| < TWO31
    ensures Whole(HandleInput, m, SerializeInput(y), depth)
         == if CollectorsOk(y.collectors, depth) then Some(MergeInput(m, y)) else None
  {
    hide Fold, Whole, HandleInput;
    var rs := CollectorsRecords(y.collectors);
    CollectorsPlain(y.collectors);
    PlainFits(rs, depth);
    WholeWritten(HandleInput, m, rs, depth);
    InputFold(m, y.collectors, depth);
  }

  lemma PathWhole(m: Path, y: Path, depth: nat)
    requires |SerializePath(y)| < TWO31
    ensures Whole(HandlePath, m, SerializePath(y), depth) == if PathOk(y) then Some(MergePath(m, y)) else None
  {
    hide Fold, Whole, HandlePath, MergePath, PathOk;
    PlainFits(PathRecords(y), depth);
    WholeWritten(HandlePath, m, PathRecords(y), depth);
    PathFold(m, y, depth);
  }

  lemma PathFold(m: Path, y: Path, depth: nat)
    ensures Fold(HandlePath, m, PathRecords(y), depth) == if PathOk(y) then Some(MergePath(m, y)) else None
  {
    hide Fold;
    var h := HandlePath;
    var u: uint64 := if y.suppressUnchanged then 1 else 0;
    var t5 := NumberField(5, y.sampleFrequency);
    var t4 := NumberField(4, y.maxSilentInterval) + t5;
    var t3 := NumberField(3, u) + t4;
    var t2 := TextField(2, y.filter) + t3;
    var m1 := m.(path := Later(m.path, y.path, []));
    var m2 := m1.(filter := Later(m.filter, y.filter, []));
    var m3 := m2.(suppressUnchanged := Later(m.suppressUnchanged, y.suppressUnchanged, false));
    var m4 := m3.(maxSilentInterval := Later(m.maxSilentInterval, y.maxSilentInterval, 0));
    assert Fold(h, m, PathRecords(y), depth) == if ValidUtf8(y.path) then Fold(h, m1, t2, depth) else None by {
      TextStep(h, m, 1, y.path, t2, depth);
    }
    assert Fold(h, m1, t2, depth) == if ValidUtf8(y.filter) then Fold(h, m2, t3, depth) else None by {
      TextStep(h, m1, 2, y.filter, t3, depth);
    }
    assert Fold(h, m2, t3, depth) == Fold(h, m3, t4, depth) by { NumberStep(h, m2, 3, u, t4, depth); }
    assert Fold(h, m3, t4, depth) == Fold(h, m4, t5, depth) by {
      NumberStep(h, m3, 4, y.maxSilentInterval, t5, depth);
    }
    assert Fold(h, m4, t5, depth) == Some(MergePath(m, y)) by {
      if y.sampleFrequency == 0 { FoldNil(h, m4, depth); }
      else { FoldOne(h, m4, VarintField(5, y.sampleFrequency), depth); }
    }
  }

  lemma FoldNil<M>(h: (M, Record, nat) -> Option<M>, m: M, depth: nat)
    ensures Fold(h, m, [], depth) == Some(m)
  {
  }

  lemma ConfigWhole(m: AdditionalConfig, y: AdditionalConfig, depth: nat)
    requires |SerializeConfig(y)| < TWO31
    ensures Whole(HandleConfig, m, SerializeConfig(y), depth) == Some(MergeConfig(m, y))
  {
    var h := HandleConfig;
    var t2 := NumberField(2, ToU64(y.limitTimeSeconds));
    PlainFits(ConfigRecords(y), depth);
    WholeWritten(h, m, ConfigRecords(y), depth);
    Int32RoundTrip(y.limitRecords, 0);
    Int32RoundTrip(y.limitTimeSeconds, 0);
    hide ToI32, Whole;
    NumberStep(h, m, 1, ToU64(y.limitRecords), t2, depth);
    var m1 := m.(limitRecords := Later(m.limitRecords, y.limitRecords, 0));
    NumberStep(h, m1, 2, ToU64(y.limitTimeSeconds), [], depth);
    assert t2 + [] == t2;
  }

  // ---- The request -----------------------------------------------------------------------------

  lemma PathStep(m: SubscriptionRequest, y: Path, rest: seq<Record>, depth: nat)
    requires |SerializePath(y)| < TWO31
    ensures Fold(HandleRequest, m, [BytesField(2, SerializePath(y))] + rest, depth)
         == if depth > 0 && PathOk(y) then Fold(HandleRequest, m.(paths := m.paths + [y]), rest, depth) else None
  {
    FoldCons(HandleRequest, m, BytesField(2, SerializePath(y)), rest, depth);
    if depth > 0 { PathWhole(EMPTY_PATH, y, depth - 1); }
  }

  lemma {:induction false} PathsFold(m: SubscriptionRequest, ps: seq<Path>, rest: seq<Record>, depth: nat)
    requires |EncodeAll(PathsRecords(ps))| < TWO31
    ensures Fold(HandleRequest, m, PathsRecords(ps) + rest, depth)
         == if PathsOk(ps, depth) then Fold(HandleRequest, m.(paths := m.paths + ps), rest, depth) else None
    decreases |ps|
  {
    hide HandleRequest, SerializePath, Fold, PathOk;
    if ps == [] {
      assert m.paths + ps == m.paths;
      assert PathsRecords(ps) + rest == rest;
    } else {
      var r, more := BytesField(2, SerializePath(ps[0])), PathsRecords(ps[1..]);
      NestedSmaller(2, r.s, more);
      assert [r] + more + rest == [r] + (more + rest);
      PathStep(m, ps[0], more + rest, depth);
      var m' := m.(paths := m.paths + [ps[0]]);
      PathsFold(m', ps[1..], rest, depth);
      assert m'.paths + ps[1..] == m.paths + ps;
    }
  }

  lemma InputStep(m: SubscriptionRequest, y: Option<SubscriptionInput>, rest: seq<Record>, depth: nat)
    requires y.Some? ==> |SerializeInput(y.value)| < TWO31
    ensures Fold(HandleRequest, m, InputField(y) + rest, depth)
         == if y.None? then Fold(HandleRequest, m, rest, depth)
            else if depth > 0 && CollectorsOk(y.value.collectors, depth - 1)
            then Fold(HandleRequest, m.(input := Some(MergeInput(Present(m.input, EMPTY_INPUT), y.value))), rest, depth)
            else None
  {
    if y.None? {
      assert InputField(y) + rest == rest;
    } else {
      FoldCons(HandleRequest, m, BytesField(1, SerializeInput(y.value)), rest, depth);
      if depth > 0 { InputWhole(Present(m.input, EMPTY_INPUT), y.value, depth - 1); }
    }
  }

  lemma ConfigStep(m: SubscriptionRequest, y: Option<AdditionalConfig>, depth: nat)
    requires y.Some? ==> |SerializeConfig(y.value)| < TWO31
    ensures Fold(HandleRequest, m, ConfigField(y), depth)
         == if y.None? then Some(m)
            else if depth > 0 then Some(m.(config := Some(MergeConfig(Present(m.config, EMPTY_CONFIG), y.value))))
            else None
  {
    if y.Some? {
      FoldOne(HandleRequest, m, BytesField(3, SerializeConfig(y.value)), depth);
      if depth > 0 { ConfigWhole(Present(m.config, EMPTY_CONFIG), y.value, depth - 1); }
    }
  }

  lemma {:induction false} PathsPlain(ps: seq<Path>)
    ensures AllPlain(PathsRecords(ps))
  {
    if ps != [] { PathsPlain(ps[1..]); }
  }

  /** Every sub-message of a request is shorter than the request. */
  lemma RequestParts(y: SubscriptionRequest)
    ensures AllPlain(RequestRecords(y))
    ensures |EncodeAll(PathsRecords(y.paths))| <= |SerializeRequest(y)|
    ensures y.input.Some? ==> |SerializeInput(y.input.value)| <= |SerializeRequest(y)|
    ensures y.config.Some? ==> |SerializeConfig(y.config.value)| <= |SerializeRequest(y)|
  {
    PathsPlain(y.paths);
    hide SerializeInput, SerializeConfig, PathsRecords;
    var a, b, c := InputField(y.input), PathsRecords(y.paths), ConfigField(y.config);
    EncodeAppend(a, b + c);
    EncodeAppend(b, c);
    if y.input.Some? { NestedSmaller(1, SerializeInput(y.input.value), []); assert a + [] == a; }
    if y.config.Some? { NestedSmaller(3, SerializeConfig(y.config.value), []); assert c + [] == c; }
  }

  lemma RequestWhole(m: SubscriptionRequest, y: SubscriptionRequest, depth: nat)
    requires |SerializeRequest(y)| < TWO31
    ensures Whole(HandleRequest, m, SerializeRequest(y), depth)
         == if RequestOk(y, depth) then Some(MergeRequest(m, y)) else None
  {
    hide Whole, HandleRequest, Fold, PathsOk, CollectorsOk, MergeInput, MergeConfig;
    var h := HandleRequest;
    var b, c := PathsRecords(y.paths), ConfigField(y.config);
    RequestParts(y);
    PlainFits(RequestRecords(y), depth);
    WholeWritten(h, m, RequestRecords(y), depth);
    InputStep(m, y.input, b + c, depth);
    var m1 := if y.input.None? then m
              else m.(input := Some(MergeInput(Present(m.input, EMPTY_INPUT), y.input.value)));
    PathsFold(m1, y.paths, c, depth);
    ConfigStep(m1.(paths := m.paths + y.paths), y.config, depth);
  }

  lemma RequestRoundTrip(y: SubscriptionRequest, depth: nat)
    requires |SerializeRequest(y)| < TWO31
    ensures Whole(HandleRequest, EMPTY_REQUEST, SerializeRequest(y), depth)
         == if RequestOk(y, depth) then Some(y) else None
  {
    hide Whole, HandleRequest, RequestOk, SerializeRequest;
    RequestWhole(EMPTY_REQUEST, y, depth);
    assert [] + y.paths == y.paths;
    if y.input.Some? { assert [] + y.input.value.collectors == y.input.value.collectors; }
  }

  /** Concatenation is merge, with `input` and `additional_config` merged field by field. */
  lemma RequestConcatIsMerge(m: SubscriptionRequest, bs: bytes, y: SubscriptionRequest, depth: nat)
    requires Whole(HandleRequest, m, bs, depth).Some?
    requires |SerializeRequest(y)| < TWO31 && RequestOk(y, depth)
    ensures Whole(HandleRequest, m, bs + SerializeRequest(y), depth)
         == Some(MergeRequest(Whole(HandleRequest, m, bs, depth).value, y))
  {
    hide HandleRequest, RequestOk, SerializeRequest, Parse;
    ParseConcat(HandleRequest, m, bs, SerializeRequest(y), depth);
    RequestWhole(Whole(HandleRequest, m, bs, depth).value, y, depth);
  }
}
