/** When parsing a concatenation is merging, for proto3 messages and arbitrary bytes. A zero that stands on the wire
    overwrites when it is parsed; a zero in a message does not overwrite when it is merged. So the law depends on what
    the second byte string leaves at an explicit zero, which a message does not show: it has to be read off the
    wire. */
module ExplicitZeros {
  import opened Wire
  import opened Records
  import opened PlainLoop
  import opened Proto3
  import opened Utf8
  import opened TelemetryData
  import opened TelemetryRequest

  // ---- One field --------------------------------------------------------------------------------------

  /** A field that held x, after a byte string in which it occurred last as o, or not at all. */
  function Last<T>(x: T, o: Option<T>): T { if o.Some? then o.value else x }

  /** The wire says zero explicitly, and there is something to lose. */
  predicate Erases<T(==)>(x: T, o: Option<T>, zero: T) { o == Some(zero) && x != zero }

  lemma FieldIff<T>(x: T, o: Option<T>, zero: T)
    ensures Last(x, o) == Later(x, Last(zero, o), zero) <==> !Erases(x, o, zero)
  {
  }

  /** What was seen on the wire decides what becomes of any message it is parsed into. */
  lemma SeenDecides<M(!new), S(!new)>(h: (M, Record, nat) -> Option<M>, g: (S, Record, nat) -> Option<S>,
                                      over: (M, S) -> M, x: M, empty: M, nothing: S, b: bytes, depth: nat)
    requires Commutes(h, g, over) && over(x, nothing) == x && over(empty, nothing) == empty
    requires Whole(h, empty, b, depth).Some?
    ensures Whole(g, nothing, b, depth).Some?
    ensures Whole(h, empty, b, depth) == Some(over(empty, Whole(g, nothing, b, depth).value))
    ensures Whole(h, x, b, depth) == Some(over(x, Whole(g, nothing, b, depth).value))
  {
    hide Whole, Commutes;
    WholeMerges(h, g, over, x, nothing, b, depth);
    WholeMerges(h, g, over, empty, nothing, b, depth);
  }

  lemma ConcatInto<M>(h: (M, Record, nat) -> Option<M>, empty: M, a: bytes, b: bytes, depth: nat)
    requires Whole(h, empty, a, depth).Some?
    ensures Whole(h, empty, a + b, depth) == Whole(h, Whole(h, empty, a, depth).value, b, depth)
  {
    hide Parse;
    ParseConcat(h, empty, a, b, depth);
  }

  // ---- KeyValue -----------------------------------------------------------------------------------------

  /** The fields of a KeyValue as they were seen: only the key has a zero that may be explicit. */
  datatype KeyValueSeen = KeyValueSeen(key: Option<bytes>, value: Value)

  const NO_KEY_VALUE := KeyValueSeen(None, NotSet)

  function SeeKeyValue(s: KeyValueSeen, r: Record, depth: nat): Option<KeyValueSeen>
  {
    match r
    case BytesField(1, t) => if ValidUtf8(t) then Some(s.(key := Some(t))) else None
    case Fixed64Field(5, v) => Some(s.(value := DoubleValue(v)))
    case VarintField(6, v) => Some(s.(value := IntValue(ToI64(v))))
    case VarintField(7, v) => Some(s.(value := UintValue(v)))
    case VarintField(8, v) => Some(s.(value := SintValue(Unzigzag(v))))
    case VarintField(9, v) => Some(s.(value := BoolValue(v != 0)))
    case BytesField(10, t) => if ValidUtf8(t) then Some(s.(value := StrValue(t))) else None
    case BytesField(11, t) => Some(s.(value := BytesValue(t)))
    case _ => Some(s)
  }

  function OverKeyValue(x: KeyValue, s: KeyValueSeen): KeyValue
  {
    KeyValue(Last(x.key, s.key), if s.value.NotSet? then x.value else s.value)
  }

  lemma KeyValueCommutes()
    ensures Commutes(HandleKeyValue, SeeKeyValue, OverKeyValue)
  {
    hide ValidUtf8, ToI64, Unzigzag;
  }

  /** For every two complete byte strings: parsing the concatenation is merging exactly if the second does not leave
      the key explicitly empty while the first has one. */
  lemma KeyValueConcatIff(a: bytes, b: bytes, depth: nat)
    requires Whole(HandleKeyValue, EMPTY_KEY_VALUE, a, depth).Some?
    requires Whole(HandleKeyValue, EMPTY_KEY_VALUE, b, depth).Some?
    ensures Whole(SeeKeyValue, NO_KEY_VALUE, b, depth).Some?
    ensures var x := Whole(HandleKeyValue, EMPTY_KEY_VALUE, a, depth).value;
            var y := Whole(HandleKeyValue, EMPTY_KEY_VALUE, b, depth).value;
            Whole(HandleKeyValue, EMPTY_KEY_VALUE, a + b, depth) == Some(MergeKeyValue(x, y))
            <==> !Erases(x.key, Whole(SeeKeyValue, NO_KEY_VALUE, b, depth).value.key, [])
  {
    hide HandleKeyValue, SeeKeyValue, Whole, Commutes;
    var x := Whole(HandleKeyValue, EMPTY_KEY_VALUE, a, depth).value;
    KeyValueCommutes();
    ConcatInto(HandleKeyValue, EMPTY_KEY_VALUE, a, b, depth);
    SeenDecides(HandleKeyValue, SeeKeyValue, OverKeyValue, x, EMPTY_KEY_VALUE, NO_KEY_VALUE, b, depth);
    FieldIff(x.key, Whole(SeeKeyValue, NO_KEY_VALUE, b, depth).value.key, []);
  }

  // ---- OpenConfigData --------------------------------------------------------------------------------------

  datatype DataSeen = DataSeen(systemId: Option<bytes>, componentId: Option<uint32>, subComponentId: Option<uint32>,
                               path: Option<bytes>, sequenceNumber: Option<uint64>, timestamp: Option<uint64>,
                               kv: seq<KeyValue>)

  const NO_DATA := DataSeen(None, None, None, None, None, None, [])

  function SeeData(s: DataSeen, r: Record, depth: nat): Option<DataSeen>
  {
    match r
    case BytesField(1, t) => if ValidUtf8(t) then Some(s.(systemId := Some(t))) else None
    case VarintField(2, v) => Some(s.(componentId := Some(v % TWO32)))
    case VarintField(3, v) => Some(s.(subComponentId := Some(v % TWO32)))
    case BytesField(4, t) => if ValidUtf8(t) then Some(s.(path := Some(t))) else None
    case VarintField(5, v) => Some(s.(sequenceNumber := Some(v)))
    case VarintField(6, v) => Some(s.(timestamp := Some(v)))
    case BytesField(7, t) =>
      (match Nested(HandleKeyValue, EMPTY_KEY_VALUE, t, depth)
       case None => None
       case Some(kv) => Some(s.(kv := s.kv + [kv])))
    case _ => Some(s)
  }

  function OverData(x: OpenConfigData, s: DataSeen): OpenConfigData
  {
    OpenConfigData(Last(x.systemId, s.systemId), Last(x.componentId, s.componentId),
                   Last(x.subComponentId, s.subComponentId), Last(x.path, s.path),
                   Last(x.sequenceNumber, s.sequenceNumber), Last(x.timestamp, s.timestamp), x.kv + s.kv)
  }

  /** Some scalar field of x is lost to an explicit zero. */
  predicate ErasesData(x: OpenConfigData, s: DataSeen)
  {
    Erases(x.systemId, s.systemId, []) || Erases(x.componentId, s.componentId, 0) ||
    Erases(x.subComponentId, s.subComponentId, 0) || Erases(x.path, s.path, []) ||
    Erases(x.sequenceNumber, s.sequenceNumber, 0) || Erases(x.timestamp, s.timestamp, 0)
  }

  lemma DataCommutes()
    ensures Commutes(HandleData, SeeData, OverData)
  {
    hide HandleData, SeeData, OverData;
    forall x: OpenConfigData, s: DataSeen, r: Record, depth: nat
      ensures HandleData(OverData(x, s), r, depth) == MergedInto(OverData, x, SeeData(s, r, depth))
    {
      if r.VarintField? { DataNumber(x, s, r, depth); } else { DataText(x, s, r, depth); }
    }
  }

  lemma DataNumber(x: OpenConfigData, s: DataSeen, r: Record, depth: nat)
    requires r.VarintField?
    ensures HandleData(OverData(x, s), r, depth) == MergedInto(OverData, x, SeeData(s, r, depth))
  {
    hide Nested, ValidUtf8;
  }

  lemma DataText(x: OpenConfigData, s: DataSeen, r: Record, depth: nat)
    requires !r.VarintField?
    ensures HandleData(OverData(x, s), r, depth) == MergedInto(OverData, x, SeeData(s, r, depth))
  {
    hide Nested, ValidUtf8;
    if r.BytesField? && r.num == 7 && Nested(HandleKeyValue, EMPTY_KEY_VALUE, r.s, depth).Some? {
      var kv := Nested(HandleKeyValue, EMPTY_KEY_VALUE, r.s, depth).value;
      assert x.kv + s.kv + [kv] == x.kv + (s.kv + [kv]);
    }
  }

  lemma DataFieldsIff(x: OpenConfigData, s: DataSeen)
    ensures OverData(x, s) == MergeData(x, OverData(EMPTY_DATA, s)) <==> !ErasesData(x, s)
  {
    hide Erases, Last, Later;
    FieldIff(x.systemId, s.systemId, []);
    FieldIff(x.componentId, s.componentId, 0);
    FieldIff(x.subComponentId, s.subComponentId, 0);
    FieldIff(x.path, s.path, []);
    FieldIff(x.sequenceNumber, s.sequenceNumber, 0);
    FieldIff(x.timestamp, s.timestamp, 0);
    assert [] + s.kv == s.kv;
  }

  lemma DataNothing(x: OpenConfigData)
    ensures OverData(x, NO_DATA) == x
  {
    assert x.kv + [] == x.kv;
  }

  /** For every two complete byte strings: parsing the concatenation is merging exactly if no scalar field that the
      second leaves at an explicit zero, or explicitly empty, is set in the first. */
  lemma DataConcatIff(a: bytes, b: bytes, depth: nat)
    requires Whole(HandleData, EMPTY_DATA, a, depth).Some? && Whole(HandleData, EMPTY_DATA, b, depth).Some?
    ensures Whole(SeeData, NO_DATA, b, depth).Some?
    ensures var x := Whole(HandleData, EMPTY_DATA, a, depth).value;
            var y := Whole(HandleData, EMPTY_DATA, b, depth).value;
            Whole(HandleData, EMPTY_DATA, a + b, depth) == Some(MergeData(x, y))
            <==> !ErasesData(x, Whole(SeeData, NO_DATA, b, depth).value)
  {
    hide HandleData, SeeData, OverData, MergeData, ErasesData, Whole, Commutes;
    var x := Whole(HandleData, EMPTY_DATA, a, depth).value;
    DataCommutes();
    ConcatInto(HandleData, EMPTY_DATA, a, b, depth);
    DataNothing(x);
    DataNothing(EMPTY_DATA);
    SeenDecides(HandleData, SeeData, OverData, x, EMPTY_DATA, NO_DATA, b, depth);
    DataFieldsIff(x, Whole(SeeData, NO_DATA, b, depth).value);
  }

  // ---- SubscriptionRequest --------------------------------------------------------------------------------------

  datatype ConfigSeen = ConfigSeen(limitRecords: Option<int32>, limitTimeSeconds: Option<int32>)

  const NO_CONFIG := ConfigSeen(None, None)

  function SeeConfig(s: ConfigSeen, r: Record, depth: nat): Option<ConfigSeen>
  {
    match r
    case VarintField(1, v) => Some(s.(limitRecords := Some(ToI32(v))))
    case VarintField(2, v) => Some(s.(limitTimeSeconds := Some(ToI32(v))))
    case _ => Some(s)
  }

  function OverConfig(x: AdditionalConfig, s: ConfigSeen): AdditionalConfig
  {
    AdditionalConfig(Last(x.limitRecords, s.limitRecords), Last(x.limitTimeSeconds, s.limitTimeSeconds))
  }

  predicate ErasesConfig(x: AdditionalConfig, s: ConfigSeen)
  {
    Erases(x.limitRecords, s.limitRecords, 0) || Erases(x.limitTimeSeconds, s.limitTimeSeconds, 0)
  }

  lemma ConfigCommutes()
    ensures Commutes(HandleConfig, SeeConfig, OverConfig)
  {
    hide ToI32;
  }

  lemma ConfigFieldsIff(x: AdditionalConfig, s: ConfigSeen)
    ensures OverConfig(x, s) == MergeConfig(x, OverConfig(EMPTY_CONFIG, s)) <==> !ErasesConfig(x, s)
  {
    FieldIff(x.limitRecords, s.limitRecords, 0);
    FieldIff(x.limitTimeSeconds, s.limitTimeSeconds, 0);
  }

  lemma InputCommutes()
    ensures Commutes(HandleInput, HandleInput, MergeInput)
  {
    hide Nested;
    forall x: SubscriptionInput, y: SubscriptionInput, r: Record, depth: nat
      ensures HandleInput(MergeInput(x, y), r, depth) == MergedInto(MergeInput, x, HandleInput(y, r, depth))
    {
      if r.BytesField? && r.num == 1 && Nested(HandleCollector, EMPTY_COLLECTOR, r.s, depth).Some? {
        var c := Nested(HandleCollector, EMPTY_COLLECTOR, r.s, depth).value;
        assert x.collectors + y.collectors + [c] == x.collectors + (y.collectors + [c]);
      }
    }
  }

  /** Collectors have no zeros to lose: they are appended, not merged. The configuration is merged recursively. */
  datatype RequestSeen = RequestSeen(input: Option<SubscriptionInput>, paths: seq<Path>, config: Option<ConfigSeen>)

  const NO_REQUEST := RequestSeen(None, [], None)

  function SeeRequest(s: RequestSeen, r: Record, depth: nat): Option<RequestSeen>
  {
    match r
    case BytesField(1, t) =>
      (match Nested(HandleInput, Present(s.input, EMPTY_INPUT), t, depth)
       case None => None
       case Some(i) => Some(s.(input := Some(i))))
    case BytesField(2, t) =>
      (match Nested(HandlePath, EMPTY_PATH, t, depth)
       case None => None
       case Some(p) => Some(s.(paths := s.paths + [p])))
    case BytesField(3, t) =>
      (match Nested(SeeConfig, Present(s.config, NO_CONFIG), t, depth)
       case None => None
       case Some(c) => Some(s.(config := Some(c))))
    case _ => Some(s)
  }

  function OverRequest(x: SubscriptionRequest, s: RequestSeen): SubscriptionRequest
  {
    SubscriptionRequest(
      if s.input.None? then x.input else Some(MergeInput(Present(x.input, EMPTY_INPUT), s.input.value)),
      x.paths + s.paths,
      if s.config.None? then x.config else Some(OverConfig(Present(x.config, EMPTY_CONFIG), s.config.value)))
  }

  /** A limit that is set in the configuration of x is lost to an explicit zero. */
  predicate ErasesRequest(x: SubscriptionRequest, s: RequestSeen)
  {
    s.config.Some? && ErasesConfig(Present(x.config, EMPTY_CONFIG), s.config.value)
  }

  lemma InputField1(x: SubscriptionRequest, s: RequestSeen, t: bytes, depth: nat)
    ensures HandleRequest(OverRequest(x, s), BytesField(1, t), depth)
         == MergedInto(OverRequest, x, SeeRequest(s, BytesField(1, t), depth))
  {
    hide Whole, HandleInput, MergeInput, OverConfig, Commutes;
    InputCommutes();
    var px := Present(x.input, EMPTY_INPUT);
    var py := Present(s.input, EMPTY_INPUT);
    InputNothing(px);
    if depth > 0 { WholeMerges(HandleInput, HandleInput, MergeInput, px, py, t, depth - 1); }
  }

  lemma InputNothing(x: SubscriptionInput)
    ensures MergeInput(x, EMPTY_INPUT) == x && MergeInput(EMPTY_INPUT, x) == x
  {
    assert x.collectors + [] == x.collectors && [] + x.collectors == x.collectors;
  }

  lemma PathField2(x: SubscriptionRequest, s: RequestSeen, t: bytes, depth: nat)
    ensures HandleRequest(OverRequest(x, s), BytesField(2, t), depth)
         == MergedInto(OverRequest, x, SeeRequest(s, BytesField(2, t), depth))
  {
    hide Nested, MergeInput, OverConfig;
    if Nested(HandlePath, EMPTY_PATH, t, depth).Some? {
      var p := Nested(HandlePath, EMPTY_PATH, t, depth).value;
      assert x.paths + s.paths + [p] == x.paths + (s.paths + [p]);
    }
  }

  lemma ConfigField3(x: SubscriptionRequest, s: RequestSeen, t: bytes, depth: nat)
    ensures HandleRequest(OverRequest(x, s), BytesField(3, t), depth)
         == MergedInto(OverRequest, x, SeeRequest(s, BytesField(3, t), depth))
  {
    hide Whole, HandleConfig, SeeConfig, MergeInput, OverConfig, Commutes;
    ConfigCommutes();
    var px := Present(x.config, EMPTY_CONFIG);
    var ps := Present(s.config, NO_CONFIG);
    ConfigNothing(px);
    if depth > 0 { WholeMerges(HandleConfig, SeeConfig, OverConfig, px, ps, t, depth - 1); }
  }

  lemma ConfigNothing(x: AdditionalConfig)
    ensures OverConfig(x, NO_CONFIG) == x
  {
  }

  lemma RequestCommutes()
    ensures Commutes(HandleRequest, SeeRequest, OverRequest)
  {
    hide HandleRequest, SeeRequest, OverRequest;
    forall x: SubscriptionRequest, s: RequestSeen, r: Record, depth: nat
      ensures HandleRequest(OverRequest(x, s), r, depth) == MergedInto(OverRequest, x, SeeRequest(s, r, depth))
    {
      match r
      case BytesField(1, t) => InputField1(x, s, t, depth);
      case BytesField(2, t) => PathField2(x, s, t, depth);
      case BytesField(3, t) => ConfigField3(x, s, t, depth);
      case _ => RequestOther(x, s, r, depth);
    }
  }

  lemma RequestOther(x: SubscriptionRequest, s: RequestSeen, r: Record, depth: nat)
    requires !(r.BytesField? && 1 <= r.num <= 3)
    ensures HandleRequest(OverRequest(x, s), r, depth) == MergedInto(OverRequest, x, SeeRequest(s, r, depth))
  {
    hide Nested, OverRequest;
  }

  lemma RequestFieldsIff(x: SubscriptionRequest, s: RequestSeen)
    ensures OverRequest(x, s) == MergeRequest(x, OverRequest(EMPTY_REQUEST, s)) <==> !ErasesRequest(x, s)
  {
    hide OverConfig, MergeConfig, ErasesConfig, MergeInput;
    assert [] + s.paths == s.paths;
    if s.input.Some? { InputNothing(s.input.value); }
    if s.config.Some? { ConfigFieldsIff(Present(x.config, EMPTY_CONFIG), s.config.value); }
  }

  lemma RequestNothing(x: SubscriptionRequest)
    ensures OverRequest(x, NO_REQUEST) == x
  {
    assert x.paths + [] == x.paths;
  }

  /** For every two complete byte strings: parsing the concatenation is merging exactly if the second does not leave a
      limit at an explicit zero that the configuration of the first has set. */
  lemma RequestConcatIff(a: bytes, b: bytes, depth: nat)
    requires Whole(HandleRequest, EMPTY_REQUEST, a, depth).Some?
    requires Whole(HandleRequest, EMPTY_REQUEST, b, depth).Some?
    ensures Whole(SeeRequest, NO_REQUEST, b, depth).Some?
    ensures var x := Whole(HandleRequest, EMPTY_REQUEST, a, depth).value;
            var y := Whole(HandleRequest, EMPTY_REQUEST, b, depth).value;
            Whole(HandleRequest, EMPTY_REQUEST, a + b, depth) == Some(MergeRequest(x, y))
            <==> !ErasesRequest(x, Whole(SeeRequest, NO_REQUEST, b, depth).value)
  {
    hide HandleRequest, SeeRequest, OverRequest, MergeRequest, ErasesRequest, Whole, Commutes;
    var x := Whole(HandleRequest, EMPTY_REQUEST, a, depth).value;
    RequestCommutes();
    ConcatInto(HandleRequest, EMPTY_REQUEST, a, b, depth);
    RequestNothing(x);
    RequestNothing(EMPTY_REQUEST);
    SeenDecides(HandleRequest, SeeRequest, OverRequest, x, EMPTY_REQUEST, NO_REQUEST, b, depth);
    RequestFieldsIff(x, Whole(SeeRequest, NO_REQUEST, b, depth).value);
  }
}
