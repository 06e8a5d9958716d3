/** telemetry.KeyValue and telemetry.OpenConfigData as values: what their fields mean on the
    wire, and what merging does. Strings are byte strings; a double is its 64-bit pattern. */
module TelemetryData {
  import opened Wire
  import opened Records
  import opened PlainLoop
  import opened Proto3
  import opened Utf8

  // ---- KeyValue --------------------------------------------------------------------------

  datatype Value =
    | NotSet
    | DoubleValue(bits: uint64)
    | IntValue(i: int64)
    | UintValue(u: uint64)
    | SintValue(z: int64)
    | BoolValue(b: bool)
    | StrValue(str: bytes)
    | BytesValue(raw: bytes)

  datatype KeyValue = KeyValue(key: bytes, value: Value)

  const EMPTY_KEY_VALUE := KeyValue([], NotSet)

  function HandleKeyValue(m: KeyValue, r: Record, depth: nat): Option<KeyValue>
  {
    match r
    case BytesField(1, s) => if ValidUtf8(s) then Some(m.(key := s)) else None
    case Fixed64Field(5, v) => Some(m.(value := DoubleValue(v)))
    case VarintField(6, v) => Some(m.(value := IntValue(ToI64(v))))
    case VarintField(7, v) => Some(m.(value := UintValue(v)))
    case VarintField(8, v) => Some(m.(value := SintValue(Unzigzag(v))))
    case VarintField(9, v) => Some(m.(value := BoolValue(v != 0)))
    case BytesField(10, s) => if ValidUtf8(s) then Some(m.(value := StrValue(s))) else None
    case BytesField(11, s) => Some(m.(value := BytesValue(s)))
    case _ => Some(m)
  }

  /** A oneof member is written whenever it is the one that is set, zero or not. */
  function ValueRecords(v: Value): seq<Record>
  {
    match v
    case NotSet => []
    case DoubleValue(bits) => [Fixed64Field(5, bits)]
    case IntValue(i) => [VarintField(6, ToU64(i))]
    case UintValue(u) => [VarintField(7, u)]
    case SintValue(z) => [VarintField(8, Zigzag(z))]
    case BoolValue(b) => [VarintField(9, if b then 1 else 0)]
    case StrValue(s) => [BytesField(10, s)]
    case BytesValue(s) => [BytesField(11, s)]
  }

  function KeyValueRecords(m: KeyValue): seq<Record>
  {
    TextField(1, m.key) + ValueRecords(m.value)
  }

  function SerializeKeyValue(m: KeyValue): bytes { EncodeAll(KeyValueRecords(m)) }

  /** The strings a proto3 parser will accept. */
  predicate KeyValueTextOk(m: KeyValue)
  {
    ValidUtf8(m.key) && (m.value.StrValue? ==> ValidUtf8(m.value.str))
  }

  function MergeKeyValue(x: KeyValue, y: KeyValue): KeyValue
  {
    KeyValue(Later(x.key, y.key, []), if y.value.NotSet? then x.value else y.value)
  }

  /** Folding the records of y into m merges y into m, exactly when y's strings are UTF-8. */
  lemma KeyValueFold(m: KeyValue, y: KeyValue, depth: nat)
    ensures Fold(HandleKeyValue, m, KeyValueRecords(y), depth)
         == if KeyValueTextOk(y) then Some(MergeKeyValue(m, y)) else None
  {
    TextStep(HandleKeyValue, m, 1, y.key, ValueRecords(y.value), depth);
    if ValidUtf8(y.key) {
      var m' := m.(key := Later(m.key, y.key, []));
      match y.value
      case NotSet =>
      case IntValue(i) => SignedRoundTrips(i, 0); FoldOne(HandleKeyValue, m', ValueRecords(y.value)[0], depth);
      case SintValue(z) => SignedRoundTrips(z, 0); FoldOne(HandleKeyValue, m', ValueRecords(y.value)[0], depth);
      case _ => FoldOne(HandleKeyValue, m', ValueRecords(y.value)[0], depth);
    }
  }

  lemma KeyValuePlain(m: KeyValue)
    ensures AllPlain(KeyValueRecords(m))
  {
  }

  lemma KeyValueWhole(m: KeyValue, y: KeyValue, depth: nat)
    requires |SerializeKeyValue(y)| < TWO31
    ensures Whole(HandleKeyValue, m, SerializeKeyValue(y), depth)
         == if KeyValueTextOk(y) then Some(MergeKeyValue(m, y)) else None
  {
    KeyValuePlain(y);
    PlainFits(KeyValueRecords(y), depth);
    WholeWritten(HandleKeyValue, m, KeyValueRecords(y), depth);
    KeyValueFold(m, y, depth);
  }

  // ---- OpenConfigData ----------------------------------------------------------------------

  datatype OpenConfigData = OpenConfigData(systemId: bytes, componentId: uint32, subComponentId: uint32,
                                           path: bytes, sequenceNumber: uint64, timestamp: uint64,
                                           kv: seq<KeyValue>)

  const EMPTY_DATA := OpenConfigData([], 0, 0, [], 0, 0, [])

  function HandleData(m: OpenConfigData, r: Record, depth: nat): Option<OpenConfigData>
  {
    match r
    case BytesField(1, s) => if ValidUtf8(s) then Some(m.(systemId := s)) else None
    case VarintField(2, v) => Some(m.(componentId := v % TWO32))
    case VarintField(3, v) => Some(m.(subComponentId := v % TWO32))
    case BytesField(4, s) => if ValidUtf8(s) then Some(m.(path := s)) else None
    case VarintField(5, v) => Some(m.(sequenceNumber := v))
    case VarintField(6, v) => Some(m.(timestamp := v))
    case BytesField(7, s) =>
      (match Nested(HandleKeyValue, EMPTY_KEY_VALUE, s, depth)
       case None => None
       case Some(kv) => Some(m.(kv := m.kv + [kv])))
    case _ => Some(m)
  }

  function KvRecords(kvs: seq<KeyValue>): seq<Record>
  {
    if kvs == [] then [] else [BytesField(7, SerializeKeyValue(kvs[0]))] + KvRecords(kvs[1..])
  }

  function DataRecords(m: OpenConfigData): seq<Record>
  {
    TextField(1, m.systemId) + (NumberField(2, m.componentId) + (NumberField(3, m.subComponentId) +
    (TextField(4, m.path) + (NumberField(5, m.sequenceNumber) + (NumberField(6, m.timestamp) + KvRecords(m.kv))))))
  }

  function SerializeData(m: OpenConfigData): bytes { EncodeAll(DataRecords(m)) }

  /** Every key-value pair is accepted: its strings are UTF-8 and there is a level of nesting left. */
  predicate KvsOk(kvs: seq<KeyValue>, depth: nat)
  {
    kvs == [] || (depth > 0 && KeyValueTextOk(kvs[0]) && KvsOk(kvs[1..], depth))
  }

  predicate DataOk(m: OpenConfigData, depth: nat)
  {
    ValidUtf8(m.systemId) && ValidUtf8(m.path) && KvsOk(m.kv, depth)
  }

  function MergeData(x: OpenConfigData, y: OpenConfigData): OpenConfigData
  {
    OpenConfigData(Later(x.systemId, y.systemId, []), Later(x.componentId, y.componentId, 0),
                   Later(x.subComponentId, y.subComponentId, 0), Later(x.path, y.path, []),
                   Later(x.sequenceNumber, y.sequenceNumber, 0), Later(x.timestamp, y.timestamp, 0),
                   x.kv + y.kv)
  }

  lemma KvParts(kvs: seq<KeyValue>)
    requires kvs != []
    ensures |EncodeAll(KvRecords(kvs))| > |SerializeKeyValue(kvs[0])| + |EncodeAll(KvRecords(kvs[1..]))|
  {
    var r := BytesField(7, SerializeKeyValue(kvs[0]));
    assert ([r] + KvRecords(kvs[1..]))[1..] == KvRecords(kvs[1..]);
    assert |Encode(r)| > |SerializeKeyValue(kvs[0])|;
  }

  lemma KvStep(m: OpenConfigData, y: KeyValue, rest: seq<Record>, depth: nat)
    requires |SerializeKeyValue(y)| < TWO31
    ensures Fold(HandleData, m, [BytesField(7, SerializeKeyValue(y))] + rest, depth)
         == if depth > 0 && KeyValueTextOk(y) then Fold(HandleData, m.(kv := m.kv + [y]), rest, depth) else None
  {
    FoldCons(HandleData, m, BytesField(7, SerializeKeyValue(y)), rest, depth);
    if depth > 0 { KeyValueWhole(EMPTY_KEY_VALUE, y, depth - 1); }
  }

  lemma {:induction false} KvFold(m: OpenConfigData, kvs: seq<KeyValue>, depth: nat)
    requires |EncodeAll(KvRecords(kvs))| < TWO31
    ensures Fold(HandleData, m, KvRecords(kvs), depth)
         == if KvsOk(kvs, depth) then Some(m.(kv := m.kv + kvs)) else None
    decreases |kvs|
  {
    hide HandleData, SerializeKeyValue;
    if kvs == [] {
      assert m.kv + kvs == m.kv;
    } else {
      KvParts(kvs);
      KvStep(m, kvs[0], KvRecords(kvs[1..]), depth);
      if depth > 0 && KeyValueTextOk(kvs[0]) {
        var m' := m.(kv := m.kv + [kvs[0]]);
        KvFold(m', kvs[1..], depth);
        assert m'.kv + kvs[1..] == m.kv + kvs;
      }
    }
  }

  /** Folding the records of y into m merges y into m, exactly when y is acceptable. */
  lemma DataFold(m: OpenConfigData, y: OpenConfigData, depth: nat)
    requires |EncodeAll(KvRecords(y.kv))| < TWO31
    ensures Fold(HandleData, m, DataRecords(y), depth) == if DataOk(y, depth) then Some(MergeData(m, y)) else None
  {
    hide Fold, Nested, KvRecords;
    var h := HandleData;
    var t6 := NumberField(6, y.timestamp) + KvRecords(y.kv);
    var t5 := NumberField(5, y.sequenceNumber) + t6;
    var t4 := TextField(4, y.path) + t5;
    var t3 := NumberField(3, y.subComponentId) + t4;
    var t2 := NumberField(2, y.componentId) + t3;
    var m1 := m.(systemId := Later(m.systemId, y.systemId, []));
    var m2 := m1.(componentId := Later(m.componentId, y.componentId, 0));
    var m3 := m2.(subComponentId := Later(m.subComponentId, y.subComponentId, 0));
    var m4 := m3.(path := Later(m.path, y.path, []));
    var m5 := m4.(sequenceNumber := Later(m.sequenceNumber, y.sequenceNumber, 0));
    var m6 := m5.(timestamp := Later(m.timestamp, y.timestamp, 0));
    assert Fold(h, m, DataRecords(y), depth) == if ValidUtf8(y.systemId) then Fold(h, m1, t2, depth) else None by {
      TextStep(h, m, 1, y.systemId, t2, depth);
    }
    assert Fold(h, m1, t2, depth) == Fold(h, m2, t3, depth) by { NumberStep(h, m1, 2, y.componentId, t3, depth); }
    assert Fold(h, m2, t3, depth) == Fold(h, m3, t4, depth) by { NumberStep(h, m2, 3, y.subComponentId, t4, depth); }
    assert Fold(h, m3, t4, depth) == if ValidUtf8(y.path) then Fold(h, m4, t5, depth) else None by {
      TextStep(h, m3, 4, y.path, t5, depth);
    }
    assert Fold(h, m4, t5, depth) == Fold(h, m5, t6, depth) by { NumberStep(h, m4, 5, y.sequenceNumber, t6, depth); }
    assert Fold(h, m5, t6, depth) == Fold(h, m6, KvRecords(y.kv), depth) by {
      NumberStep(h, m5, 6, y.timestamp, KvRecords(y.kv), depth);
    }
    KvFold(m6, y.kv, depth);
  }

  lemma {:induction false} KvsPlain(kvs: seq<KeyValue>)
    ensures AllPlain(KvRecords(kvs))
  {
    if kvs != [] { KvsPlain(kvs[1..]); }
  }

  lemma PlainAppend(a: seq<Record>, b: seq<Record>)
    requires AllPlain(a) && AllPlain(b)
    ensures AllPlain(a + b)
  {
  }

  lemma DataPlain(m: OpenConfigData)
    ensures AllPlain(DataRecords(m))
  {
    var t6 := NumberField(6, m.timestamp) + KvRecords(m.kv);
    var t5 := NumberField(5, m.sequenceNumber) + t6;
    var t4 := TextField(4, m.path) + t5;
    var t3 := NumberField(3, m.subComponentId) + t4;
    var t2 := NumberField(2, m.componentId) + t3;
    KvsPlain(m.kv);
    ScalarPlain(1, m.systemId, 2, m.componentId);
    ScalarPlain(4, m.path, 3, m.subComponentId);
    ScalarPlain(4, m.path, 5, m.sequenceNumber);
    ScalarPlain(4, m.path, 6, m.timestamp);
    hide AllPlain, KvRecords, TextField, NumberField;
    PlainAppend(NumberField(6, m.timestamp), KvRecords(m.kv));
    PlainAppend(NumberField(5, m.sequenceNumber), t6);
    PlainAppend(TextField(4, m.path), t5);
    PlainAppend(NumberField(3, m.subComponentId), t4);
    PlainAppend(NumberField(2, m.componentId), t3);
    PlainAppend(TextField(1, m.systemId), t2);
  }

  lemma ScalarPlain(i: nat, s: bytes, j: nat, v: uint64)
    requires 0 < i < 16 && 0 < j < 16
    ensures AllPlain(TextField(i, s)) && AllPlain(NumberField(j, v))
  {
  }

  lemma SuffixSmaller(a: seq<Record>, b: seq<Record>)
    ensures |EncodeAll(b)| <= |EncodeAll(a + b)|
  {
    EncodeAppend(a, b);
  }

  lemma DataKvsSmaller(y: OpenConfigData)
    ensures |EncodeAll(KvRecords(y.kv))| <= |SerializeData(y)|
  {
    var t6 := NumberField(6, y.timestamp) + KvRecords(y.kv);
    var t5 := NumberField(5, y.sequenceNumber) + t6;
    var t4 := TextField(4, y.path) + t5;
    var t3 := NumberField(3, y.subComponentId) + t4;
    var t2 := NumberField(2, y.componentId) + t3;
    hide EncodeAll, KvRecords, TextField, NumberField;
    SuffixSmaller(TextField(1, y.systemId), t2);
    SuffixSmaller(NumberField(2, y.componentId), t3);
    SuffixSmaller(NumberField(3, y.subComponentId), t4);
    SuffixSmaller(TextField(4, y.path), t5);
    SuffixSmaller(NumberField(5, y.sequenceNumber), t6);
    SuffixSmaller(NumberField(6, y.timestamp), KvRecords(y.kv));
  }

  /** Parsing the bytes written for y into m merges y into m; it fails exactly when a string of y is
      not UTF-8 or a key-value pair would exceed the recursion budget. */
  lemma DataWhole(m: OpenConfigData, y: OpenConfigData, depth: nat)
    requires |SerializeData(y)| < TWO31
    ensures Whole(HandleData, m, SerializeData(y), depth) == if DataOk(y, depth) then Some(MergeData(m, y)) else None
  {
    hide Fold, HandleData, Whole, DataOk;
    DataPlain(y);
    PlainFits(DataRecords(y), depth);
    WholeWritten(HandleData, m, DataRecords(y), depth);
    DataKvsSmaller(y);
    DataFold(m, y, depth);
  }

  /** The round trip: a cleared message that parses the bytes of y is y again, and all bytes are used. */
  lemma DataRoundTrip(y: OpenConfigData, depth: nat)
    requires |SerializeData(y)| < TWO31
    ensures Whole(HandleData, EMPTY_DATA, SerializeData(y), depth) == if DataOk(y, depth) then Some(y) else None
  {
    hide Whole, HandleData, DataOk, SerializeData;
    DataWhole(EMPTY_DATA, y, depth);
    assert [] + y.kv == y.kv;
  }

  /** Concatenation is merge: parsing any complete message followed by the bytes of y gives what
      merging y into that message gives. */
  lemma DataConcatIsMerge(m: OpenConfigData, bs: bytes, y: OpenConfigData, depth: nat)
    requires Whole(HandleData, m, bs, depth).Some?
    requires |SerializeData(y)| < TWO31 && DataOk(y, depth)
    ensures Whole(HandleData, m, bs + SerializeData(y), depth)
         == Some(MergeData(Whole(HandleData, m, bs, depth).value, y))
  {
    hide HandleData, DataOk, SerializeData, Parse;
    ParseConcat(HandleData, m, bs, SerializeData(y), depth);
    DataWhole(Whole(HandleData, m, bs, depth).value, y, depth);
  }

  /** The same law read off the two serialised messages alone. */
  lemma DataConcatOfWritten(x: OpenConfigData, y: OpenConfigData, depth: nat)
    requires |SerializeData(x)| < TWO31 && DataOk(x, depth)
    requires |SerializeData(y)| < TWO31 && DataOk(y, depth)
    ensures Whole(HandleData, EMPTY_DATA, SerializeData(x) + SerializeData(y), depth) == Some(MergeData(x, y))
  {
    hide HandleData, DataOk, SerializeData, Whole;
    DataRoundTrip(x, depth);
    DataConcatIsMerge(EMPTY_DATA, SerializeData(x), y, depth);
  }

  /** The second message must be written by the serialiser for the law to hold: a zero put on the
      wire explicitly overwrites when parsed but not when merged. Here component_id = 7 is followed by
      component_id = 0. */
  lemma ExplicitZeroIsNotMerged()
    ensures var a, b := [16, 7], [16, 0];
            Whole(HandleData, EMPTY_DATA, a, 1) == Some(EMPTY_DATA.(componentId := 7)) &&
            Whole(HandleData, EMPTY_DATA, b, 1) == Some(EMPTY_DATA) &&
            Whole(HandleData, EMPTY_DATA, a + b, 1) == Some(EMPTY_DATA) &&
            MergeData(EMPTY_DATA.(componentId := 7), EMPTY_DATA) == EMPTY_DATA.(componentId := 7)
  {
    hide Parse, Encode;
    ComponentIdBytes(7);
    ComponentIdBytes(0);
    ComponentIdRead(EMPTY_DATA, 7);
    ComponentIdRead(EMPTY_DATA, 0);
    ComponentIdRead(EMPTY_DATA.(componentId := 7), 0);
    ParseConcat(HandleData, EMPTY_DATA, [16, 7], [16, 0], 1);
  }

  lemma ComponentIdBytes(v: nat)
    requires v < 128
    ensures Encode(VarintField(2, v)) == [16, v]
  {
  }

  lemma ComponentIdRead(m: OpenConfigData, v: nat)
    requires v < 128
    ensures Whole(HandleData, m, Encode(VarintField(2, v)), 1) == Some(m.(componentId := v))
  {
    hide Whole, Fold, Encode;
    var r := VarintField(2, v);
    EncodeOne(r);
    assert AllFit([r], 1);
    WholeWritten(HandleData, m, [r], 1);
    FoldOne(HandleData, m, r, 1);
  }
}
