/** The order in which the serialisers write: known fields by ascending number, then the unknown ones as they came. */
module FieldOrder {
  import opened Wire
  import opened Records
  import opened Proto2
  import opened Proto3
  import opened TelemetryData
  import opened TelemetryRequest
  import opened InventoryData
  import opened LspStats

  /** Field numbers from lo to hi that never decrease. */
  ghost predicate Ascending(rs: seq<Record>, lo: nat, hi: nat)
  {
    (forall i :: 0 <= i < |rs| ==> lo <= rs[i].num <= hi) &&
    (forall i, j :: 0 <= i < j < |rs| ==> rs[i].num <= rs[j].num)
  }

  /** Ascending fields in front of the unknown ones. */
  ghost predicate AscendingThen(rs: seq<Record>, lo: nat, hi: nat, unknown: seq<Record>)
  {
    |unknown| <= |rs| && rs[|rs| - |unknown|..] == unknown && Ascending(rs[..|rs| - |unknown|], lo, hi)
  }

  lemma Then(a: seq<Record>, b: seq<Record>, lo: nat, mid: nat, next: nat, hi: nat)
    requires Ascending(a, lo, mid) && Ascending(b, next, hi) && lo <= mid < next <= hi
    ensures Ascending(a + b, lo, hi)
  {
  }

  lemma ThenUnknown(a: seq<Record>, b: seq<Record>, lo: nat, mid: nat, next: nat, hi: nat, unknown: seq<Record>)
    requires Ascending(a, lo, mid) && AscendingThen(b, next, hi, unknown) && lo <= mid < next <= hi
    ensures AscendingThen(a + b, lo, hi, unknown)
  {
    var known := b[..|b| - |unknown|];
    Then(a, known, lo, mid, next, hi);
    assert (a + b)[|a + b| - |unknown|..] == unknown && (a + b)[..|a + b| - |unknown|] == a + known;
  }

  lemma OneNumber(num: nat, rs: seq<Record>)
    requires forall i :: 0 <= i < |rs| ==> rs[i].num == num
    ensures Ascending(rs, num, num)
  {
  }

  // ---- proto3 ---------------------------------------------------------------------------------------------

  lemma {:induction false} KvNumbers(kvs: seq<KeyValue>)
    ensures Ascending(KvRecords(kvs), 7, 7)
  {
    hide SerializeKeyValue;
    if kvs != [] { KvNumbers(kvs[1..]); }
  }

  lemma DataOrder(m: OpenConfigData)
    ensures Ascending(DataRecords(m), 1, 7)
  {
    hide KvRecords, Ascending;
    KvNumbers(m.kv);
    Scalars();
    var g := KvRecords(m.kv);
    Then(NumberField(6, m.timestamp), g, 6, 6, 7, 7);
    var f := NumberField(6, m.timestamp) + g;
    Then(NumberField(5, m.sequenceNumber), f, 5, 5, 6, 7);
    var e := NumberField(5, m.sequenceNumber) + f;
    Then(TextField(4, m.path), e, 4, 4, 5, 7);
    var d := TextField(4, m.path) + e;
    Then(NumberField(3, m.subComponentId), d, 3, 3, 4, 7);
    var c := NumberField(3, m.subComponentId) + d;
    Then(NumberField(2, m.componentId), c, 2, 2, 3, 7);
    Then(TextField(1, m.systemId), NumberField(2, m.componentId) + c, 1, 1, 2, 7);
  }

  lemma Scalars()
    ensures forall num, s :: Ascending(TextField(num, s), num, num)
    ensures forall num, v :: Ascending(NumberField(num, v), num, num)
  {
  }

  lemma KeyValueOrder(m: KeyValue)
    ensures Ascending(KeyValueRecords(m), 1, 11) && |ValueRecords(m.value)| <= 1
  {
  }

  lemma PathOrder(m: Path)
    ensures Ascending(PathRecords(m), 1, 5)
  {
    hide Ascending;
    Scalars();
    var d, e := NumberField(4, m.maxSilentInterval), NumberField(5, m.sampleFrequency);
    var b, c := TextField(2, m.filter), NumberField(3, if m.suppressUnchanged then 1 else 0);
    Then(d, e, 4, 4, 5, 5);
    Then(c, d + e, 3, 3, 4, 5);
    Then(b, c + (d + e), 2, 2, 3, 5);
    Then(TextField(1, m.path), b + (c + (d + e)), 1, 1, 2, 5);
  }

  lemma SmallOrders(c: Collector, a: AdditionalConfig)
    ensures Ascending(CollectorRecords(c), 1, 2) && Ascending(ConfigRecords(a), 1, 2)
  {
    hide ToU64;
  }

  lemma {:induction false} PathNumbers(ps: seq<Path>)
    ensures Ascending(PathsRecords(ps), 2, 2)
  {
    hide SerializePath;
    if ps != [] { PathNumbers(ps[1..]); }
  }

  lemma RequestOrder(m: SubscriptionRequest)
    ensures Ascending(RequestRecords(m), 1, 3)
  {
    hide PathsRecords, SerializeInput, SerializeConfig, Ascending;
    PathNumbers(m.paths);
    OneNumber(1, InputField(m.input));
    OneNumber(3, ConfigField(m.config));
    Then(PathsRecords(m.paths), ConfigField(m.config), 2, 2, 3, 3);
    Then(InputField(m.input), PathsRecords(m.paths) + ConfigField(m.config), 1, 1, 2, 3);
  }

  // ---- proto2 ---------------------------------------------------------------------------------------------

  lemma Optionals(num: nat, s: Option<bytes>, v: Option<uint32>, w: Option<uint64>, e: Option<int32>, i: Option<int64>)
    ensures Ascending(Opt(BytesOf(num, s)), num, num) && Ascending(Opt(NumberOf(num, v)), num, num)
    ensures Ascending(Opt(Number64Of(num, w)), num, num) && Ascending(Opt(EnumOf(num, e)), num, num)
    ensures Ascending(Opt(SignedOf(num, i)), num, num)
  {
    hide ToU64;
  }

  lemma KeyValOrder(m: KeyVal)
    ensures AscendingThen(KeyValRecords(m), 1, 3, m.unknown)
  {
    hide Ascending, AscendingThen, Opt, BytesOf, SignedOf;
    Optionals(1, m.key, None, None, None, None);
    Optionals(2, None, None, None, None, m.intValue);
    Optionals(3, m.strValue, None, None, None, None);
    var c := Opt(BytesOf(3, m.strValue));
    LastKnown(c, 3, m.unknown);
    ThenUnknown(Opt(SignedOf(2, m.intValue)), c + m.unknown, 2, 2, 3, 3, m.unknown);
    ThenUnknown(Opt(BytesOf(1, m.key)), Opt(SignedOf(2, m.intValue)) + (c + m.unknown), 1, 1, 2, 3, m.unknown);
  }

  lemma LastKnown(a: seq<Record>, num: nat, unknown: seq<Record>)
    requires Ascending(a, num, num)
    ensures AscendingThen(a + unknown, num, num, unknown)
  {
    assert (a + unknown)[|a|..] == unknown && (a + unknown)[..|a|] == a;
  }

  lemma {:induction false} KeyValNumbers(num: nat, kvs: seq<KeyVal>)
    ensures Ascending(KeyValsRecords(num, kvs), num, num)
  {
    hide SerializeKeyVal;
    if kvs != [] { KeyValNumbers(num, kvs[1..]); }
  }

  lemma {:induction false} StringNumbers(num: nat, ss: seq<bytes>)
    ensures Ascending(StringsRecords(num, ss), num, num)
  {
    if ss != [] { StringNumbers(num, ss[1..]); }
  }

  lemma ComponentOrder(m: Component)
    ensures AscendingThen(ComponentRecords(m), 1, 8, m.unknown)
  {
    hide Ascending, AscendingThen, Opt, BytesOf, NumberOf, EnumOf, KeyValsRecords, StringsRecords;
    Optionals(1, m.name, None, None, None, None);
    Optionals(2, None, m.serialNumber, None, None, None);
    Optionals(3, None, m.partNumber, None, None, None);
    Optionals(4, m.description, None, None, None, None);
    Optionals(5, None, None, None, m.ctype, None);
    KeyValNumbers(6, m.properties);
    KeyValNumbers(7, m.operationalState);
    StringNumbers(8, m.subComponents);
    var u := m.unknown;
    var h := StringsRecords(8, m.subComponents) + u;
    LastKnown(StringsRecords(8, m.subComponents), 8, u);
    var g := KeyValsRecords(7, m.operationalState) + h;
    ThenUnknown(KeyValsRecords(7, m.operationalState), h, 7, 7, 8, 8, u);
    var f := KeyValsRecords(6, m.properties) + g;
    ThenUnknown(KeyValsRecords(6, m.properties), g, 6, 6, 7, 8, u);
    var e := Opt(EnumOf(5, m.ctype)) + f;
    ThenUnknown(Opt(EnumOf(5, m.ctype)), f, 5, 5, 6, 8, u);
    var d := Opt(BytesOf(4, m.description)) + e;
    ThenUnknown(Opt(BytesOf(4, m.description)), e, 4, 4, 5, 8, u);
    var c := Opt(NumberOf(3, m.partNumber)) + d;
    ThenUnknown(Opt(NumberOf(3, m.partNumber)), d, 3, 3, 4, 8, u);
    ThenUnknown(Opt(NumberOf(2, m.serialNumber)), c, 2, 2, 3, 8, u);
    ThenUnknown(Opt(BytesOf(1, m.name)), Opt(NumberOf(2, m.serialNumber)) + c, 1, 1, 2, 8, u);
  }

  lemma LspOrder(m: LspRecord)
    ensures AscendingThen(LspRecords(m), 1, 7, m.unknown)
  {
    hide Ascending, AscendingThen, Opt, BytesOf, NumberOf, Number64Of;
    Optionals(1, m.name, None, None, None, None);
    Optionals(2, None, m.instanceIdentifier, None, None, None);
    Optionals(3, m.counterName, None, None, None, None);
    Optionals(4, None, None, m.packets, None, None);
    Optionals(5, None, None, m.bytesSent, None, None);
    Optionals(6, None, None, m.packetRate, None, None);
    Optionals(7, None, None, m.byteRate, None, None);
    var u := m.unknown;
    var g := Opt(Number64Of(7, m.byteRate)) + u;
    LastKnown(Opt(Number64Of(7, m.byteRate)), 7, u);
    var f := Opt(Number64Of(6, m.packetRate)) + g;
    ThenUnknown(Opt(Number64Of(6, m.packetRate)), g, 6, 6, 7, 7, u);
    var e := Opt(Number64Of(5, m.bytesSent)) + f;
    ThenUnknown(Opt(Number64Of(5, m.bytesSent)), f, 5, 5, 6, 7, u);
    var d := Opt(Number64Of(4, m.packets)) + e;
    ThenUnknown(Opt(Number64Of(4, m.packets)), e, 4, 4, 5, 7, u);
    var c := Opt(BytesOf(3, m.counterName)) + d;
    ThenUnknown(Opt(BytesOf(3, m.counterName)), d, 3, 3, 4, 7, u);
    ThenUnknown(Opt(NumberOf(2, m.instanceIdentifier)), c, 2, 2, 3, 7, u);
    ThenUnknown(Opt(BytesOf(1, m.name)), Opt(NumberOf(2, m.instanceIdentifier)) + c, 1, 1, 2, 7, u);
  }
}
