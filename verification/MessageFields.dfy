/** What the parsed telemetry and inventory messages and LspStatsRecord hold, field number by field number, for every
    list of fields. */
module MessageFields {
  import opened Wire
  import opened Records
  import opened PlainLoop
  import opened Proto3
  import opened Utf8
  import opened LastFields
  import opened TelemetryData
  import opened TelemetryRequest
  import opened InventoryData
  import opened LspStats

  // ---- proto3: defaults, and text that has to be UTF-8 --------------------------------------------------

  function TextOr(rs: seq<Record>, num: nat): bytes
  {
    if LastText(rs, num).Some? then LastText(rs, num).value else []
  }

  function NumberOr(rs: seq<Record>, num: nat): uint64
  {
    if LastNumber(rs, num).Some? then LastNumber(rs, num).value else 0
  }

  /** Every text under these numbers is UTF-8, those that are overwritten later as well. */
  ghost predicate TextsOk(rs: seq<Record>, nums: seq<nat>)
  {
    forall i :: 0 <= i < |rs| && rs[i].BytesField? && rs[i].num in nums ==> ValidUtf8(rs[i].s)
  }

  lemma TextsOkSnoc(rs: seq<Record>, r: Record, nums: seq<nat>)
    ensures TextsOk(rs + [r], nums) <==> TextsOk(rs, nums) && (r.BytesField? && r.num in nums ==> ValidUtf8(r.s))
  {
    hide ValidUtf8;
    var all := rs + [r];
    assert all[|rs|] == r;
    assert forall i :: 0 <= i < |rs| ==> all[i] == rs[i];
  }

  /** address = 1, port = 2. */
  ghost function CollectorOf(rs: seq<Record>, depth: nat): Option<Collector>
  {
    if !TextsOk(rs, [1]) then None
    else Some(Collector(address := TextOr(rs, 1), port := NumberOr(rs, 2) % TWO32))
  }

  lemma CollectorStep(rs: seq<Record>, r: Record, depth: nat)
    ensures CollectorOf(rs + [r], depth)
         == match CollectorOf(rs, depth) case None => None case Some(m) => HandleCollector(m, r, depth)
  {
    hide LastNumber, LastText, Payloads, Others, TextsOk, ValidUtf8;
    Snoc(rs, r);
    TextsOkSnoc(rs, r, [1]);
    match r
    case VarintField(_, _) =>
    case BytesField(_, _) =>
    case _ =>
  }

  lemma CollectorStart(depth: nat)
    ensures CollectorOf([], depth) == Some(EMPTY_COLLECTOR)
  {
  }

  lemma CollectorFields(rs: seq<Record>, depth: nat)
    ensures Fold(HandleCollector, EMPTY_COLLECTOR, rs, depth) == CollectorOf(rs, depth)
  {
    hide HandleCollector, CollectorOf;
    CollectorStart(depth);
    forall init: seq<Record>, r: Record
      ensures CollectorOf(init + [r], depth)
           == match CollectorOf(init, depth) case None => None case Some(m) => HandleCollector(m, r, depth)
    {
      CollectorStep(init, r, depth);
    }
    FoldIs(HandleCollector, EMPTY_COLLECTOR, xs => CollectorOf(xs, depth), rs, depth);
  }

  /** path = 1, filter = 2, suppress_unchanged = 3, max_silent_interval = 4, sample_frequency = 5. */
  ghost function PathOf(rs: seq<Record>, depth: nat): Option<Path>
  {
    if !TextsOk(rs, [1, 2]) then None
    else Some(Path(path := TextOr(rs, 1), filter := TextOr(rs, 2), suppressUnchanged := NumberOr(rs, 3) != 0,
                   maxSilentInterval := NumberOr(rs, 4) % TWO32, sampleFrequency := NumberOr(rs, 5) % TWO32))
  }

  lemma PathStep(rs: seq<Record>, r: Record, depth: nat)
    ensures PathOf(rs + [r], depth)
         == match PathOf(rs, depth) case None => None case Some(m) => HandlePath(m, r, depth)
  {
    hide LastNumber, LastText, Payloads, Others, TextsOk, ValidUtf8;
    Snoc(rs, r);
    TextsOkSnoc(rs, r, [1, 2]);
    match r
    case VarintField(_, _) =>
    case BytesField(_, _) =>
    case _ =>
  }

  lemma PathStart(depth: nat)
    ensures PathOf([], depth) == Some(EMPTY_PATH)
  {
  }

  lemma PathFields(rs: seq<Record>, depth: nat)
    ensures Fold(HandlePath, EMPTY_PATH, rs, depth) == PathOf(rs, depth)
  {
    hide HandlePath, PathOf;
    PathStart(depth);
    forall init: seq<Record>, r: Record
      ensures PathOf(init + [r], depth)
           == match PathOf(init, depth) case None => None case Some(m) => HandlePath(m, r, depth)
    {
      PathStep(init, r, depth);
    }
    FoldIs(HandlePath, EMPTY_PATH, xs => PathOf(xs, depth), rs, depth);
  }

  /** limit_records = 1, limit_time_seconds = 2: signed, from the low 32 bits. */
  function ConfigOf(rs: seq<Record>, depth: nat): Option<AdditionalConfig>
  {
    Some(AdditionalConfig(limitRecords := ToI32(NumberOr(rs, 1)), limitTimeSeconds := ToI32(NumberOr(rs, 2))))
  }

  lemma ConfigStep(rs: seq<Record>, r: Record, depth: nat)
    ensures ConfigOf(rs + [r], depth)
         == match ConfigOf(rs, depth) case None => None case Some(m) => HandleConfig(m, r, depth)
  {
    hide LastNumber, LastText, Payloads, Others;
    Snoc(rs, r);
    match r
    case VarintField(_, _) =>
    case BytesField(_, _) =>
    case _ =>
  }

  lemma ConfigStart(depth: nat)
    ensures ConfigOf([], depth) == Some(EMPTY_CONFIG)
  {
  }

  lemma ConfigFields(rs: seq<Record>, depth: nat)
    ensures Fold(HandleConfig, EMPTY_CONFIG, rs, depth) == ConfigOf(rs, depth)
  {
    hide HandleConfig, ConfigOf;
    ConfigStart(depth);
    forall init: seq<Record>, r: Record
      ensures ConfigOf(init + [r], depth)
           == match ConfigOf(init, depth) case None => None case Some(m) => HandleConfig(m, r, depth)
    {
      ConfigStep(init, r, depth);
    }
    FoldIs(HandleConfig, EMPTY_CONFIG, xs => ConfigOf(xs, depth), rs, depth);
  }

  /** What a field says about the oneof: double_value = 5, int_value = 6, uint_value = 7, sint_value = 8,
      bool_value = 9, str_value = 10, bytes_value = 11. */
  function MemberOf(r: Record): Value
  {
    if r.Fixed64Field? && r.num == 5 then DoubleValue(r.v)
    else if r.BytesField? && r.num == 10 then StrValue(r.s)
    else if r.BytesField? && r.num == 11 then BytesValue(r.s)
    else if !r.VarintField? then NotSet
    else if r.num == 6 then IntValue(ToI64(r.v))
    else if r.num == 7 then UintValue(r.v)
    else if r.num == 8 then SintValue(Unzigzag(r.v))
    else if r.num == 9 then BoolValue(r.v != 0)
    else NotSet
  }

  /** The member of the oneof that came last. */
  function LastMember(rs: seq<Record>): Value
  {
    if rs == [] then NotSet
    else
      var v := MemberOf(rs[|rs| - 1]);
      if v.NotSet? then LastMember(rs[..|rs| - 1]) else v
  }

  lemma LastMemberSnoc(rs: seq<Record>, r: Record)
    ensures LastMember(rs + [r]) == if MemberOf(r).NotSet? then LastMember(rs) else MemberOf(r)
  {
    assert (rs + [r])[..|rs|] == rs;
  }

  /** key = 1, and the oneof. */
  ghost function KeyValueOf(rs: seq<Record>, depth: nat): Option<KeyValue>
  {
    if !TextsOk(rs, [1, 10]) then None
    else Some(KeyValue(key := TextOr(rs, 1), value := LastMember(rs)))
  }

  lemma KeyValueStep(rs: seq<Record>, r: Record, depth: nat)
    ensures KeyValueOf(rs + [r], depth)
         == match KeyValueOf(rs, depth) case None => None case Some(m) => HandleKeyValue(m, r, depth)
  {
    hide LastNumber, LastText, Payloads, Others, TextsOk, ValidUtf8, LastMember;
    Snoc(rs, r);
    TextsOkSnoc(rs, r, [1, 10]);
    LastMemberSnoc(rs, r);
    match r
    case VarintField(_, _) =>
    case BytesField(_, _) =>
    case Fixed64Field(_, _) =>
    case _ =>
  }

  lemma KeyValueStart(depth: nat)
    ensures KeyValueOf([], depth) == Some(EMPTY_KEY_VALUE)
  {
  }

  lemma KeyValueFields(rs: seq<Record>, depth: nat)
    ensures Fold(HandleKeyValue, EMPTY_KEY_VALUE, rs, depth) == KeyValueOf(rs, depth)
  {
    hide HandleKeyValue, KeyValueOf;
    KeyValueStart(depth);
    forall init: seq<Record>, r: Record
      ensures KeyValueOf(init + [r], depth)
           == match KeyValueOf(init, depth) case None => None case Some(m) => HandleKeyValue(m, r, depth)
    {
      KeyValueStep(init, r, depth);
    }
    FoldIs(HandleKeyValue, EMPTY_KEY_VALUE, xs => KeyValueOf(xs, depth), rs, depth);
  }

  /** system_id = 1, component_id = 2, sub_component_id = 3, path = 4, sequence_number = 5, timestamp = 6,
      kv = 7. */
  ghost function DataOf(rs: seq<Record>, depth: nat): Option<OpenConfigData>
  {
    if !TextsOk(rs, [1, 4]) then None
    else
      match Each(HandleKeyValue, EMPTY_KEY_VALUE, Payloads(rs, 7), depth)
      case None => None
      case Some(kvs) =>
        Some(OpenConfigData(systemId := TextOr(rs, 1), componentId := NumberOr(rs, 2) % TWO32,
                            subComponentId := NumberOr(rs, 3) % TWO32, path := TextOr(rs, 4),
                            sequenceNumber := NumberOr(rs, 5), timestamp := NumberOr(rs, 6), kv := kvs))
  }

  lemma DataStep(rs: seq<Record>, r: Record, depth: nat)
    ensures DataOf(rs + [r], depth)
         == match DataOf(rs, depth) case None => None case Some(m) => HandleData(m, r, depth)
  {
    hide LastNumber, LastText, Payloads, Others, Each, Nested, TextsOk, ValidUtf8;
    Snoc(rs, r);
    TextsOkSnoc(rs, r, [1, 4]);
    if r.BytesField? && r.num == 7 { EachSnoc(HandleKeyValue, EMPTY_KEY_VALUE, Payloads(rs, 7), r.s, depth); }
    match r
    case VarintField(_, _) =>
    case BytesField(_, _) =>
    case _ =>
  }

  lemma DataStart(depth: nat)
    ensures DataOf([], depth) == Some(EMPTY_DATA)
  {
  }

  lemma DataFields(rs: seq<Record>, depth: nat)
    ensures Fold(HandleData, EMPTY_DATA, rs, depth) == DataOf(rs, depth)
  {
    hide HandleData, DataOf;
    DataStart(depth);
    forall init: seq<Record>, r: Record
      ensures DataOf(init + [r], depth)
           == match DataOf(init, depth) case None => None case Some(m) => HandleData(m, r, depth)
    {
      DataStep(init, r, depth);
    }
    FoldIs(HandleData, EMPTY_DATA, xs => DataOf(xs, depth), rs, depth);
  }

  /** collector_list = 1. */
  function InputOf(rs: seq<Record>, depth: nat): Option<SubscriptionInput>
  {
    match Each(HandleCollector, EMPTY_COLLECTOR, Payloads(rs, 1), depth)
    case None => None
    case Some(cs) => Some(SubscriptionInput(cs))
  }

  lemma InputStep(rs: seq<Record>, r: Record, depth: nat)
    ensures InputOf(rs + [r], depth)
         == match InputOf(rs, depth) case None => None case Some(m) => HandleInput(m, r, depth)
  {
    hide LastNumber, LastText, Payloads, Others, Each, Nested;
    Snoc(rs, r);
    if r.BytesField? && r.num == 1 { EachSnoc(HandleCollector, EMPTY_COLLECTOR, Payloads(rs, 1), r.s, depth); }
  }

  lemma InputStart(depth: nat)
    ensures InputOf([], depth) == Some(EMPTY_INPUT)
  {
  }

  lemma InputFields(rs: seq<Record>, depth: nat)
    ensures Fold(HandleInput, EMPTY_INPUT, rs, depth) == InputOf(rs, depth)
  {
    hide HandleInput, InputOf;
    InputStart(depth);
    forall init: seq<Record>, r: Record
      ensures InputOf(init + [r], depth)
           == match InputOf(init, depth) case None => None case Some(m) => HandleInput(m, r, depth)
    {
      InputStep(init, r, depth);
    }
    FoldIs(HandleInput, EMPTY_INPUT, xs => InputOf(xs, depth), rs, depth);
  }

  /** A singular sub-message is there if it occurs at all. */
  function There<M>(ss: seq<bytes>, m: M): Option<M> { if ss == [] then None else Some(m) }

  /** input = 1, path_list = 2, additional_config = 3: a singular sub-message is made up of all its payloads. */
  function RequestOf(rs: seq<Record>, depth: nat): Option<SubscriptionRequest>
  {
    var i := Serial(HandleInput, EMPTY_INPUT, Payloads(rs, 1), depth);
    var c := Serial(HandleConfig, EMPTY_CONFIG, Payloads(rs, 3), depth);
    var ps := Each(HandlePath, EMPTY_PATH, Payloads(rs, 2), depth);
    if i.None? || c.None? || ps.None? then None
    else Some(SubscriptionRequest(input := There(Payloads(rs, 1), i.value), paths := ps.value,
                                  config := There(Payloads(rs, 3), c.value)))
  }

  lemma RequestStep(rs: seq<Record>, r: Record, depth: nat)
    ensures RequestOf(rs + [r], depth)
         == match RequestOf(rs, depth) case None => None case Some(m) => HandleRequest(m, r, depth)
  {
    hide LastNumber, LastText, Payloads, Others, Each, Serial, Nested;
    Snoc(rs, r);
    NothingYet(depth);
    if r.BytesField? && 1 <= r.num <= 3 {
      SerialSnoc(HandleInput, EMPTY_INPUT, Payloads(rs, 1), r.s, depth);
      SerialSnoc(HandleConfig, EMPTY_CONFIG, Payloads(rs, 3), r.s, depth);
      EachSnoc(HandlePath, EMPTY_PATH, Payloads(rs, 2), r.s, depth);
    }
  }

  lemma RequestStart(depth: nat)
    ensures RequestOf([], depth) == Some(EMPTY_REQUEST)
  {
  }

  lemma RequestFields(rs: seq<Record>, depth: nat)
    ensures Fold(HandleRequest, EMPTY_REQUEST, rs, depth) == RequestOf(rs, depth)
  {
    hide HandleRequest, RequestOf;
    RequestStart(depth);
    forall init: seq<Record>, r: Record
      ensures RequestOf(init + [r], depth)
           == match RequestOf(init, depth) case None => None case Some(m) => HandleRequest(m, r, depth)
    {
      RequestStep(init, r, depth);
    }
    FoldIs(HandleRequest, EMPTY_REQUEST, xs => RequestOf(xs, depth), rs, depth);
  }

  lemma NothingYet(depth: nat)
    ensures Serial(HandleInput, EMPTY_INPUT, [], depth) == Some(EMPTY_INPUT)
    ensures Serial(HandleConfig, EMPTY_CONFIG, [], depth) == Some(EMPTY_CONFIG)
  {
  }

  // ---- proto2 -----------------------------------------------------------------------------------------

  function Low32(o: Option<uint64>): Option<uint32> { if o.None? then None else Some(o.value % TWO32) }
  function Signed(o: Option<uint64>): Option<int64> { if o.None? then None else Some(ToI64(o.value)) }

  /** key = 1, int_value = 2, str_value = 3. */
  function KeyValOf(rs: seq<Record>): KeyVal
  {
    KeyVal(key := LastText(rs, 1), intValue := Signed(LastNumber(rs, 2)), strValue := LastText(rs, 3),
           unknown := Others(rs, [10, 16, 26]))
  }

  lemma KeyValStep(rs: seq<Record>, r: Record, depth: nat)
    ensures HandleKeyVal(KeyValOf(rs), r, depth) == Some(KeyValOf(rs + [r]))
  {
    hide LastNumber, LastText, Payloads, Others;
    Snoc(rs, r);
    TagParts(r);
    if TagOf(r) in [10, 16, 26] {
      match r
      case VarintField(_, _) =>
      case BytesField(_, _) =>
      case _ =>
    }
  }

  /** For every list of fields. */
  lemma KeyValFields(rs: seq<Record>, depth: nat)
    ensures Fold(HandleKeyVal, EMPTY_KEY_VAL, rs, depth) == Some(KeyValOf(rs))
  {
    hide HandleKeyVal, KeyValOf;
    KeyValStart();
    forall init: seq<Record>, r: Record
      ensures HandleKeyVal(KeyValOf(init), r, depth) == Some(KeyValOf(init + [r]))
    {
      KeyValStep(init, r, depth);
    }
    FoldIs(HandleKeyVal, EMPTY_KEY_VAL, xs => Some(KeyValOf(xs)), rs, depth);
  }

  lemma KeyValStart()
    ensures KeyValOf([]) == EMPTY_KEY_VAL
  {
  }

  /** The seven fields in the order of their numbers. */
  function LspOf(rs: seq<Record>): LspRecord
  {
    LspRecord(name := LastText(rs, 1), instanceIdentifier := Low32(LastNumber(rs, 2)),
              counterName := LastText(rs, 3), packets := LastNumber(rs, 4), bytesSent := LastNumber(rs, 5),
              packetRate := LastNumber(rs, 6), byteRate := LastNumber(rs, 7),
              unknown := Others(rs, [10, 16, 26, 32, 40, 48, 56]))
  }

  lemma LspStep(rs: seq<Record>, r: Record, depth: nat)
    ensures HandleLsp(LspOf(rs), r, depth) == Some(LspOf(rs + [r]))
  {
    hide LastNumber, LastText, Payloads, Others;
    Snoc(rs, r);
    TagParts(r);
    if TagOf(r) in [10, 16, 26, 32, 40, 48, 56] {
      match r
      case VarintField(_, _) =>
      case BytesField(_, _) =>
      case _ =>
    }
  }

  /** For every list of fields. */
  lemma LspFields(rs: seq<Record>, depth: nat)
    ensures Fold(HandleLsp, EMPTY_LSP, rs, depth) == Some(LspOf(rs))
  {
    hide HandleLsp, LspOf;
    LspStart();
    forall init: seq<Record>, r: Record
      ensures HandleLsp(LspOf(init), r, depth) == Some(LspOf(init + [r]))
    {
      LspStep(init, r, depth);
    }
    FoldIs(HandleLsp, EMPTY_LSP, xs => Some(LspOf(xs)), rs, depth);
  }

  lemma LspStart()
    ensures LspOf([]) == EMPTY_LSP
  {
  }

  /** The types a component can have, and their numbers. */
  datatype ComponentType = Null | Port | Linecard | Optic | Backplane

  function TypeNumber(t: ComponentType): int32
  {
    match t
    case Null => 0
    case Port => 1
    case Linecard => 2
    case Optic => 3
    case Backplane => 4
  }

  ghost predicate IsNamed(n: int32) { exists t :: TypeNumber(t) == n }

  /** The check of the parser accepts exactly the numbers that have a name. */
  lemma NamedTypes(n: int32)
    ensures ComponentTypeIsValid(n) <==> IsNamed(n)
  {
    if ComponentTypeIsValid(n) {
      var t := if n == 0 then Null else if n == 1 then Port else if n == 2 then Linecard else if n == 3 then Optic
               else Backplane;
      assert TypeNumber(t) == n;
    }
  }

  /** The type: the last number under 5 that has a name. */
  ghost function LastType(rs: seq<Record>): Option<int32>
  {
    if rs == [] then None
    else
      var r := rs[|rs| - 1];
      if r.VarintField? && r.num == 5 && IsNamed(ToI32(r.v)) then Some(ToI32(r.v)) else LastType(rs[..|rs| - 1])
  }

  /** What becomes of a field that sets nothing: a type without a name stays as a sign-extended number. */
  ghost function Unset(r: Record): seq<Record>
  {
    if r.VarintField? && r.num == 5 then if IsNamed(ToI32(r.v)) then [] else [VarintField(5, ToU64(ToI32(r.v)))]
    else if TagOf(r) in [10, 16, 24, 34, 50, 58, 66] then []
    else [r]
  }

  ghost function AllUnset(rs: seq<Record>): seq<Record>
  {
    if rs == [] then [] else AllUnset(rs[..|rs| - 1]) + Unset(rs[|rs| - 1])
  }

  lemma TypeSnoc(rs: seq<Record>, r: Record)
    ensures LastType(rs + [r])
         == if r.VarintField? && r.num == 5 && IsNamed(ToI32(r.v)) then Some(ToI32(r.v)) else LastType(rs)
    ensures AllUnset(rs + [r]) == AllUnset(rs) + Unset(r)
  {
    assert (rs + [r])[..|rs|] == rs;
  }

  /** name = 1, serial_number = 2, part_number = 3, description = 4, type = 5, properties = 6,
      operational_state = 7, sub_components = 8. */
  ghost function ComponentOf(rs: seq<Record>, depth: nat): Option<Component>
  {
    var p := Each(HandleKeyVal, EMPTY_KEY_VAL, Payloads(rs, 6), depth);
    var s := Each(HandleKeyVal, EMPTY_KEY_VAL, Payloads(rs, 7), depth);
    if p.None? || s.None? then None
    else Some(Component(name := LastText(rs, 1), serialNumber := Low32(LastNumber(rs, 2)),
                        partNumber := Low32(LastNumber(rs, 3)), description := LastText(rs, 4),
                        ctype := LastType(rs), properties := p.value, operationalState := s.value,
                        subComponents := Payloads(rs, 8), unknown := AllUnset(rs)))
  }

  lemma ComponentStep(rs: seq<Record>, r: Record, depth: nat)
    ensures ComponentOf(rs + [r], depth)
         == match ComponentOf(rs, depth) case None => None case Some(m) => HandleComponent(m, r, depth)
  {
    hide LastNumber, LastText, Payloads, Others, Each, Nested, LastType, AllUnset;
    hide ToI32, ToU64, IsNamed, ComponentTypeIsValid;
    Snoc(rs, r);
    TypeSnoc(rs, r);
    TagParts(r);
    assert AllUnset(rs) + [] == AllUnset(rs);
    if r.VarintField? { NamedTypes(ToI32(r.v)); }
    if r.BytesField? && 6 <= r.num <= 7 {
      EachSnoc(HandleKeyVal, EMPTY_KEY_VAL, Payloads(rs, 6), r.s, depth);
      EachSnoc(HandleKeyVal, EMPTY_KEY_VAL, Payloads(rs, 7), r.s, depth);
    }
    match r
    case VarintField(_, _) =>
    case BytesField(_, _) =>
    case _ =>
  }

  lemma ComponentStart(depth: nat)
    ensures ComponentOf([], depth) == Some(EMPTY_COMPONENT)
  {
  }

  lemma ComponentFields(rs: seq<Record>, depth: nat)
    ensures Fold(HandleComponent, EMPTY_COMPONENT, rs, depth) == ComponentOf(rs, depth)
  {
    hide HandleComponent, ComponentOf;
    ComponentStart(depth);
    forall init: seq<Record>, r: Record
      ensures ComponentOf(init + [r], depth)
           == match ComponentOf(init, depth) case None => None case Some(m) => HandleComponent(m, r, depth)
    {
      ComponentStep(init, r, depth);
    }
    FoldIs(HandleComponent, EMPTY_COMPONENT, xs => ComponentOf(xs, depth), rs, depth);
  }
}
