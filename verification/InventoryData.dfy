/** Component and InventoryKeyVal as values (proto2: presence, unknown fields, and an enum whose
    unknown numbers become unknown fields). The main results: re-encoding a parsed message loses
    nothing, and parsing two byte strings in a row is merging what each of them parses to. */
module InventoryData {
  import opened Wire
  import opened Records
  import opened PlainLoop
  import opened Proto2
  import opened Proto3

  datatype KeyVal = KeyVal(key: Option<bytes>, intValue: Option<int64>, strValue: Option<bytes>, unknown: seq<Record>)

  datatype Component = Component(name: Option<bytes>, serialNumber: Option<uint32>, partNumber: Option<uint32>,
                                 description: Option<bytes>, ctype: Option<int32>, properties: seq<KeyVal>,
                                 operationalState: seq<KeyVal>, subComponents: seq<bytes>, unknown: seq<Record>)

  const EMPTY_KEY_VAL := KeyVal(None, None, None, [])
  const EMPTY_COMPONENT := Component(None, None, None, None, None, [], [], [], [])

  predicate ComponentTypeIsValid(t: int) { 0 <= t <= 4 }

  // ---- Reading -------------------------------------------------------------------------------

  function HandleKeyVal(m: KeyVal, r: Record, depth: nat): Option<KeyVal>
  {
    match r
    case BytesField(1, s) => Some(m.(key := Some(s)))
    case VarintField(2, v) => Some(m.(intValue := Some(ToI64(v))))
    case BytesField(3, s) => Some(m.(strValue := Some(s)))
    case _ => Some(m.(unknown := m.unknown + [r]))
  }

  /** An enum number that is not one of the type's is kept as an unknown varint, sign-extended. */
  function HandleComponent(m: Component, r: Record, depth: nat): Option<Component>
  {
    match r
    case BytesField(1, s) => Some(m.(name := Some(s)))
    case VarintField(2, v) => Some(m.(serialNumber := Some(v % TWO32)))
    case VarintField(3, v) => Some(m.(partNumber := Some(v % TWO32)))
    case BytesField(4, s) => Some(m.(description := Some(s)))
    case VarintField(5, v) =>
      var t := ToI32(v);
      if ComponentTypeIsValid(t) then Some(m.(ctype := Some(t)))
      else Some(m.(unknown := m.unknown + [VarintField(5, ToU64(t))]))
    case BytesField(6, s) =>
      (match Nested(HandleKeyVal, EMPTY_KEY_VAL, s, depth)
       case None => None
       case Some(x) => Some(m.(properties := m.properties + [x])))
    case BytesField(7, s) =>
      (match Nested(HandleKeyVal, EMPTY_KEY_VAL, s, depth)
       case None => None
       case Some(x) => Some(m.(operationalState := m.operationalState + [x])))
    case BytesField(8, s) => Some(m.(subComponents := m.subComponents + [s]))
    case _ => Some(m.(unknown := m.unknown + [r]))
  }

  // ---- Writing -------------------------------------------------------------------------------

  function KeyValRecords(m: KeyVal): seq<Record>
  {
    Opt(BytesOf(1, m.key)) + (Opt(SignedOf(2, m.intValue)) + (Opt(BytesOf(3, m.strValue)) + m.unknown))
  }

  function SerializeKeyVal(m: KeyVal): bytes { EncodeAll(KeyValRecords(m)) }

  function KeyValsRecords(num: nat, kvs: seq<KeyVal>): seq<Record>
  {
    if kvs == [] then [] else [BytesField(num, SerializeKeyVal(kvs[0]))] + KeyValsRecords(num, kvs[1..])
  }

  function StringsRecords(num: nat, ss: seq<bytes>): seq<Record>
  {
    if ss == [] then [] else [BytesField(num, ss[0])] + StringsRecords(num, ss[1..])
  }

  /** The known fields in the order of their numbers, then the unknown ones. */
  function ComponentRecords(m: Component): seq<Record>
  {
    Opt(BytesOf(1, m.name)) + (Opt(NumberOf(2, m.serialNumber)) + (Opt(NumberOf(3, m.partNumber)) +
    (Opt(BytesOf(4, m.description)) + (Opt(EnumOf(5, m.ctype)) +
    (KeyValsRecords(6, m.properties) + (KeyValsRecords(7, m.operationalState) +
    (StringsRecords(8, m.subComponents) + m.unknown)))))))
  }

  function SerializeComponent(m: Component): bytes { EncodeAll(ComponentRecords(m)) }

  // ---- Merging is what parsing more does, for any bytes -----------------------------------------

  function MergeComponent(x: Component, y: Component): Component
  {
    Component(Or(x.name, y.name), Or(x.serialNumber, y.serialNumber), Or(x.partNumber, y.partNumber),
              Or(x.description, y.description), Or(x.ctype, y.ctype), x.properties + y.properties,
              x.operationalState + y.operationalState, x.subComponents + y.subComponents, x.unknown + y.unknown)
  }

  /** What one record does to a message is to merge into it what the record makes of an empty one. */
  lemma RecordMerges(m: Component, r: Record, depth: nat)
    ensures HandleComponent(m, r, depth)
         == match HandleComponent(EMPTY_COMPONENT, r, depth)
            case None => None
            case Some(d) => Some(MergeComponent(m, d))
  {
    hide Nested, ToI32;
    match HandleComponent(EMPTY_COMPONENT, r, depth)
    case None =>
    case Some(d) =>
      var m' := HandleComponent(m, r, depth).value;
      assert m'.properties == m.properties + d.properties;
      assert m'.operationalState == m.operationalState + d.operationalState;
      assert m'.subComponents == m.subComponents + d.subComponents && m'.unknown == m.unknown + d.unknown;
  }

  lemma MergeAssociative(x: Component, y: Component, z: Component)
    ensures MergeComponent(MergeComponent(x, y), z) == MergeComponent(x, MergeComponent(y, z))
  {
    ConcatAssoc(x.properties, y.properties, z.properties);
    ConcatAssoc(x.operationalState, y.operationalState, z.operationalState);
    ConcatAssoc(x.subComponents, y.subComponents, z.subComponents);
    ConcatAssoc(x.unknown, y.unknown, z.unknown);
  }

  lemma ComponentCommutes()
    ensures Commutes(HandleComponent, HandleComponent, MergeComponent)
  {
    hide HandleComponent, MergeComponent;
    forall x: Component, y: Component, r: Record, depth: nat
      ensures HandleComponent(MergeComponent(x, y), r, depth)
           == MergedInto(MergeComponent, x, HandleComponent(y, r, depth))
    {
      RecordMerges(MergeComponent(x, y), r, depth);
      RecordMerges(y, r, depth);
      match HandleComponent(EMPTY_COMPONENT, r, depth)
      case None =>
      case Some(d) => MergeAssociative(x, y, d);
    }
  }

  /** For every two byte strings that are complete messages, written by a serialiser or not: parsing their
      concatenation is merging the second message into the first. */
  lemma ComponentConcatIsMerge(a: bytes, b: bytes, depth: nat)
    requires Whole(HandleComponent, EMPTY_COMPONENT, a, depth).Some?
    requires Whole(HandleComponent, EMPTY_COMPONENT, b, depth).Some?
    ensures Whole(HandleComponent, EMPTY_COMPONENT, a + b, depth)
         == Some(MergeComponent(Whole(HandleComponent, EMPTY_COMPONENT, a, depth).value,
                                Whole(HandleComponent, EMPTY_COMPONENT, b, depth).value))
  {
    hide HandleComponent, Whole, Commutes;
    ComponentCommutes();
    MergeNothing(Whole(HandleComponent, EMPTY_COMPONENT, a, depth).value);
    ConcatIsMerge(HandleComponent, MergeComponent, EMPTY_COMPONENT, a, b, depth);
  }

  lemma MergeNothing(x: Component)
    ensures MergeComponent(x, EMPTY_COMPONENT) == x && MergeComponent(EMPTY_COMPONENT, x) == x
  {
  }

  // ---- Nothing is lost by re-encoding --------------------------------------------------------------

  /** What a parser can have put into the unknown fields of a KeyVal. */
  predicate KeyValUnknown(r: Record, depth: nat) { Fits(r, depth) && TagOf(r) !in [10, 16, 26] }

  predicate KeyValGenuine(m: KeyVal, depth: nat)
  {
    (m.key.Some? ==> |m.key.value| < TWO31) && (m.strValue.Some? ==> |m.strValue.value| < TWO31) &&
    forall i :: 0 <= i < |m.unknown| ==> KeyValUnknown(m.unknown[i], depth)
  }

  lemma KeyValSize(m: KeyVal)
    ensures |SerializeKeyVal(m)|
         == OptSize(BytesOf(1, m.key)) + OptSize(SignedOf(2, m.intValue)) + OptSize(BytesOf(3, m.strValue)) +
            |EncodeAll(m.unknown)|
  {
    hide EncodeAll, Opt, OptSize;
    var a, b, c := Opt(BytesOf(1, m.key)), Opt(SignedOf(2, m.intValue)), Opt(BytesOf(3, m.strValue));
    EncodeAppend(a, b + (c + m.unknown));
    EncodeAppend(b, c + m.unknown);
    EncodeAppend(c, m.unknown);
    OptSizeIs(BytesOf(1, m.key));
    OptSizeIs(SignedOf(2, m.intValue));
    OptSizeIs(BytesOf(3, m.strValue));
  }

  lemma KeyValStep(m: KeyVal, r: Record, depth: nat)
    requires KeyValGenuine(m, depth) && Fits(r, depth)
    ensures var m' := HandleKeyVal(m, r, depth).value;
            KeyValGenuine(m', depth) && |SerializeKeyVal(m')| <= |SerializeKeyVal(m)| + |Encode(r)|
  {
    hide SerializeKeyVal, Encode;
    KeyValStepSize(m, r, depth);
  }

  lemma KeyValStepSize(m: KeyVal, r: Record, depth: nat)
    ensures |SerializeKeyVal(HandleKeyVal(m, r, depth).value)| <= |SerializeKeyVal(m)| + |Encode(r)|
  {
    hide SerializeKeyVal, Encode, ToI64, ToU64;
    var m' := HandleKeyVal(m, r, depth).value;
    KeyValSize(m);
    KeyValSize(m');
    if m'.unknown != m.unknown {
      EncodeAppend(m.unknown, [r]);
      EncodeOne(r);
    } else if r.VarintField? && r.num == 2 {
      SignedRoundTrips(0, r.v);
    }
  }

  lemma {:induction false} KeyValFoldKeeps(m: KeyVal, rs: seq<Record>, depth: nat)
    requires KeyValGenuine(m, depth) && AllFit(rs, depth)
    ensures Fold(HandleKeyVal, m, rs, depth).Some?
    ensures var z := Fold(HandleKeyVal, m, rs, depth).value;
            KeyValGenuine(z, depth) && |SerializeKeyVal(z)| <= |SerializeKeyVal(m)| + |EncodeAll(rs)|
    decreases |rs|
  {
    hide KeyValGenuine, SerializeKeyVal, Encode;
    if rs != [] {
      assert Fits(rs[0], depth);
      KeyValStep(m, rs[0], depth);
      KeyValFoldKeeps(HandleKeyVal(m, rs[0], depth).value, rs[1..], depth);
    }
  }

  /** A parsed KeyVal can be written again, in no more bytes than it was read from. */
  lemma KeyValParsed(s: bytes, depth: nat)
    requires Whole(HandleKeyVal, EMPTY_KEY_VAL, s, depth).Some?
    ensures var z := Whole(HandleKeyVal, EMPTY_KEY_VAL, s, depth).value;
            KeyValGenuine(z, depth) && |SerializeKeyVal(z)| <= |s|
  {
    hide Parse, Fold;
    var rs := ParseIsFold(HandleKeyVal, EMPTY_KEY_VAL, s, depth);
    KeyValFoldKeeps(EMPTY_KEY_VAL, rs, depth);
  }

  lemma {:induction false} KeyValUnknownFold(m: KeyVal, us: seq<Record>, depth: nat)
    requires forall i :: 0 <= i < |us| ==> KeyValUnknown(us[i], depth)
    ensures Fold(HandleKeyVal, m, us, depth) == Some(m.(unknown := m.unknown + us))
    decreases |us|
  {
    if us == [] {
      assert m.unknown + us == m.unknown;
    } else {
      var m' := m.(unknown := m.unknown + [us[0]]);
      assert KeyValUnknown(us[0], depth);
      KeyValUnknownFold(m', us[1..], depth);
      assert m'.unknown + us[1..] == m.unknown + us;
    }
  }

  lemma KeyValReparsed(y: KeyVal, depth: nat)
    requires KeyValGenuine(y, depth)
    ensures AllFit(KeyValRecords(y), depth)
    ensures Whole(HandleKeyVal, EMPTY_KEY_VAL, SerializeKeyVal(y), depth) == Some(y)
  {
    KeyValRecordsFit(y, depth);
    hide Fold, Whole, AllFit;
    var h := HandleKeyVal;
    WholeWritten(h, EMPTY_KEY_VAL, KeyValRecords(y), depth);
    var t3 := Opt(BytesOf(3, y.strValue)) + y.unknown;
    var t2 := Opt(SignedOf(2, y.intValue)) + t3;
    var m1 := EMPTY_KEY_VAL.(key := y.key);
    var m2 := m1.(intValue := y.intValue);
    var m3 := m2.(strValue := y.strValue);
    assert Fold(h, EMPTY_KEY_VAL, KeyValRecords(y), depth) == Fold(h, m1, t2, depth) by {
      OptStep(h, EMPTY_KEY_VAL, BytesOf(1, y.key), t2, depth);
    }
    assert Fold(h, m1, t2, depth) == Fold(h, m2, t3, depth) by {
      OptStep(h, m1, SignedOf(2, y.intValue), t3, depth);
      if y.intValue.Some? { SignedRoundTrips(y.intValue.value, 0); }
    }
    assert Fold(h, m2, t3, depth) == Fold(h, m3, y.unknown, depth) by {
      OptStep(h, m2, BytesOf(3, y.strValue), y.unknown, depth);
    }
    hide HandleKeyVal;
    KeyValUnknownFold(m3, y.unknown, depth);
    assert [] + y.unknown == y.unknown;
  }

  lemma KeyValRecordsFit(y: KeyVal, depth: nat)
    requires KeyValGenuine(y, depth)
    ensures AllFit(KeyValRecords(y), depth)
  {
    forall i | 0 <= i < |y.unknown| ensures Fits(y.unknown[i], depth) { assert KeyValUnknown(y.unknown[i], depth); }
  }

  /** What a parser can have put into the unknown fields of a Component: a field of another number or wire
      type, or an enum number outside the type. */
  predicate ComponentUnknown(r: Record, depth: nat)
  {
    Fits(r, depth) &&
    (|| TagOf(r) !in [10, 16, 24, 34, 40, 50, 58, 66]
     || (r.VarintField? && r.num == 5 && !ComponentTypeIsValid(ToI32(r.v)) && r.v == ToU64(ToI32(r.v))))
  }

  predicate KeyValWritable(x: KeyVal, depth: nat)
  {
    depth > 0 && KeyValGenuine(x, depth - 1) && |SerializeKeyVal(x)| < TWO31
  }

  /** What every parsed Component satisfies. */
  predicate ComponentGenuine(m: Component, depth: nat)
  {
    (m.name.Some? ==> |m.name.value| < TWO31) && (m.description.Some? ==> |m.description.value| < TWO31) &&
    (m.ctype.Some? ==> ComponentTypeIsValid(m.ctype.value)) &&
    (forall i :: 0 <= i < |m.properties| ==> KeyValWritable(m.properties[i], depth)) &&
    (forall i :: 0 <= i < |m.operationalState| ==> KeyValWritable(m.operationalState[i], depth)) &&
    (forall i :: 0 <= i < |m.subComponents| ==> |m.subComponents[i]| < TWO31) &&
    (forall i :: 0 <= i < |m.unknown| ==> ComponentUnknown(m.unknown[i], depth))
  }

  lemma ComponentStep(m: Component, r: Record, depth: nat)
    requires ComponentGenuine(m, depth) && Fits(r, depth) && HandleComponent(m, r, depth).Some?
    ensures ComponentGenuine(HandleComponent(m, r, depth).value, depth)
  {
    hide KeyValWritable, Whole;
    if r.BytesField? && r.num == 6 {
      PropertyParsed(m, r.s, depth);
    } else if r.BytesField? && r.num == 7 {
      StateParsed(m, r.s, depth);
    } else if r.VarintField? && r.num == 5 {
      TypeParsed(m, r.v, depth);
    } else {
      hide Fits;
    }
  }

  /** A nested KeyVal that was parsed can be written again. */
  lemma NestedKeyVal(s: bytes, depth: nat)
    requires |s| < TWO31 && Nested(HandleKeyVal, EMPTY_KEY_VAL, s, depth).Some?
    ensures KeyValWritable(Nested(HandleKeyVal, EMPTY_KEY_VAL, s, depth).value, depth)
  {
    hide Whole, HandleKeyVal, KeyValGenuine, SerializeKeyVal;
    KeyValParsed(s, depth - 1);
  }

  lemma PropertyParsed(m: Component, s: bytes, depth: nat)
    requires ComponentGenuine(m, depth) && |s| < TWO31 && HandleComponent(m, BytesField(6, s), depth).Some?
    ensures ComponentGenuine(HandleComponent(m, BytesField(6, s), depth).value, depth)
  {
    hide Nested, KeyValWritable, ComponentUnknown;
    NestedKeyVal(s, depth);
  }

  lemma StateParsed(m: Component, s: bytes, depth: nat)
    requires ComponentGenuine(m, depth) && |s| < TWO31 && HandleComponent(m, BytesField(7, s), depth).Some?
    ensures ComponentGenuine(HandleComponent(m, BytesField(7, s), depth).value, depth)
  {
    hide Nested, KeyValWritable, ComponentUnknown;
    NestedKeyVal(s, depth);
  }

  lemma TypeParsed(m: Component, v: uint64, depth: nat)
    requires ComponentGenuine(m, depth)
    ensures ComponentGenuine(HandleComponent(m, VarintField(5, v), depth).value, depth)
  {
    hide KeyValWritable;
    Int32RoundTrip(0, v);
    hide ToI32, ToU64;
    assert ComponentUnknown(VarintField(5, ToU64(ToI32(v))), depth) || ComponentTypeIsValid(ToI32(v));
  }

  lemma {:induction false} ComponentFoldKeeps(m: Component, rs: seq<Record>, depth: nat)
    requires ComponentGenuine(m, depth) && AllFit(rs, depth) && Fold(HandleComponent, m, rs, depth).Some?
    ensures ComponentGenuine(Fold(HandleComponent, m, rs, depth).value, depth)
    decreases |rs|
  {
    hide ComponentGenuine, HandleComponent;
    if rs != [] {
      assert Fits(rs[0], depth);
      ComponentStep(m, rs[0], depth);
      ComponentFoldKeeps(HandleComponent(m, rs[0], depth).value, rs[1..], depth);
    }
  }

  // Folding the lists of a Component back in.

  lemma {:induction false} PropertiesFold(m: Component, kvs: seq<KeyVal>, rest: seq<Record>, depth: nat)
    requires forall i :: 0 <= i < |kvs| ==> KeyValWritable(kvs[i], depth)
    ensures Fold(HandleComponent, m, KeyValsRecords(6, kvs) + rest, depth)
         == Fold(HandleComponent, m.(properties := m.properties + kvs), rest, depth)
    decreases |kvs|
  {
    hide Fold, Whole, KeyValGenuine, SerializeKeyVal;
    if kvs == [] {
      assert m.properties + kvs == m.properties && KeyValsRecords(6, kvs) + rest == rest;
    } else {
      assert KeyValWritable(kvs[0], depth);
      KeyValReparsed(kvs[0], depth - 1);
      var more := KeyValsRecords(6, kvs[1..]) + rest;
      ConcatAssoc([BytesField(6, SerializeKeyVal(kvs[0]))], KeyValsRecords(6, kvs[1..]), rest);
      FoldCons(HandleComponent, m, BytesField(6, SerializeKeyVal(kvs[0])), more, depth);
      var m' := m.(properties := m.properties + [kvs[0]]);
      PropertiesFold(m', kvs[1..], rest, depth);
      assert m'.properties + kvs[1..] == m.properties + kvs;
    }
  }

  lemma {:induction false} OperationalFold(m: Component, kvs: seq<KeyVal>, rest: seq<Record>, depth: nat)
    requires forall i :: 0 <= i < |kvs| ==> KeyValWritable(kvs[i], depth)
    ensures Fold(HandleComponent, m, KeyValsRecords(7, kvs) + rest, depth)
         == Fold(HandleComponent, m.(operationalState := m.operationalState + kvs), rest, depth)
    decreases |kvs|
  {
    hide Fold, Whole, KeyValGenuine, SerializeKeyVal;
    if kvs == [] {
      assert m.operationalState + kvs == m.operationalState && KeyValsRecords(7, kvs) + rest == rest;
    } else {
      assert KeyValWritable(kvs[0], depth);
      KeyValReparsed(kvs[0], depth - 1);
      var more := KeyValsRecords(7, kvs[1..]) + rest;
      ConcatAssoc([BytesField(7, SerializeKeyVal(kvs[0]))], KeyValsRecords(7, kvs[1..]), rest);
      FoldCons(HandleComponent, m, BytesField(7, SerializeKeyVal(kvs[0])), more, depth);
      var m' := m.(operationalState := m.operationalState + [kvs[0]]);
      OperationalFold(m', kvs[1..], rest, depth);
      assert m'.operationalState + kvs[1..] == m.operationalState + kvs;
    }
  }

  lemma {:induction false} StringsFold(m: Component, ss: seq<bytes>, rest: seq<Record>, depth: nat)
    ensures Fold(HandleComponent, m, StringsRecords(8, ss) + rest, depth)
         == Fold(HandleComponent, m.(subComponents := m.subComponents + ss), rest, depth)
    decreases |ss|
  {
    hide Fold, Nested;
    if ss == [] {
      assert m.subComponents + ss == m.subComponents && StringsRecords(8, ss) + rest == rest;
    } else {
      var more := StringsRecords(8, ss[1..]) + rest;
      ConcatAssoc([BytesField(8, ss[0])], StringsRecords(8, ss[1..]), rest);
      FoldCons(HandleComponent, m, BytesField(8, ss[0]), more, depth);
      var m' := m.(subComponents := m.subComponents + [ss[0]]);
      StringsFold(m', ss[1..], rest, depth);
      assert m'.subComponents + ss[1..] == m.subComponents + ss;
    }
  }

  lemma {:induction false} UnknownFold(m: Component, us: seq<Record>, depth: nat)
    requires forall i :: 0 <= i < |us| ==> ComponentUnknown(us[i], depth)
    ensures Fold(HandleComponent, m, us, depth) == Some(m.(unknown := m.unknown + us))
    decreases |us|
  {
    hide Nested, ToI32;
    if us == [] {
      assert m.unknown + us == m.unknown;
    } else {
      var m' := m.(unknown := m.unknown + [us[0]]);
      assert ComponentUnknown(us[0], depth);
      UnknownFold(m', us[1..], depth);
      assert m'.unknown + us[1..] == m.unknown + us;
    }
  }

  lemma {:induction false} KeyValsFit(num: nat, kvs: seq<KeyVal>, depth: nat)
    requires 0 < num < 16 && forall i :: 0 <= i < |kvs| ==> KeyValWritable(kvs[i], depth)
    ensures AllFit(KeyValsRecords(num, kvs), depth)
  {
    hide SerializeKeyVal, KeyValGenuine;
    if kvs != [] {
      assert KeyValWritable(kvs[0], depth);
      KeyValsFit(num, kvs[1..], depth);
    }
  }

  lemma {:induction false} StringsFit(num: nat, ss: seq<bytes>, depth: nat)
    requires 0 < num < 16 && forall i :: 0 <= i < |ss| ==> |ss[i]| < TWO31
    ensures AllFit(StringsRecords(num, ss), depth)
  {
    if ss != [] { StringsFit(num, ss[1..], depth); }
  }

  lemma FitAppend(a: seq<Record>, b: seq<Record>, depth: nat)
    requires AllFit(a, depth) && AllFit(b, depth)
    ensures AllFit(a + b, depth)
  {
  }

  lemma OptFit(o: Option<Record>, rest: seq<Record>, depth: nat)
    requires (o.Some? ==> Fits(o.value, depth)) && AllFit(rest, depth)
    ensures AllFit(Opt(o) + rest, depth)
  {
    FitAppend(Opt(o), rest, depth);
  }

  lemma ComponentListsFit(y: Component, depth: nat)
    requires ComponentGenuine(y, depth)
    ensures AllFit(KeyValsRecords(6, y.properties) + (KeyValsRecords(7, y.operationalState) +
                   (StringsRecords(8, y.subComponents) + y.unknown)), depth)
  {
    forall i | 0 <= i < |y.unknown| ensures Fits(y.unknown[i], depth) { assert ComponentUnknown(y.unknown[i], depth); }
    KeyValsFit(6, y.properties, depth);
    KeyValsFit(7, y.operationalState, depth);
    StringsFit(8, y.subComponents, depth);
    assert AllFit(y.unknown, depth);
    hide ComponentGenuine, AllFit, KeyValsRecords, StringsRecords;
    var a, b, c := KeyValsRecords(6, y.properties), KeyValsRecords(7, y.operationalState),
                   StringsRecords(8, y.subComponents);
    FitAppend(c, y.unknown, depth);
    FitAppend(b, c + y.unknown, depth);
    FitAppend(a, b + (c + y.unknown), depth);
  }

  lemma ComponentRecordsFit(y: Component, depth: nat)
    requires ComponentGenuine(y, depth)
    ensures AllFit(ComponentRecords(y), depth)
  {
    ComponentListsFit(y, depth);
    hide AllFit, Opt, KeyValsRecords, StringsRecords, KeyValWritable, ComponentUnknown;
    var t6 := KeyValsRecords(6, y.properties) + (KeyValsRecords(7, y.operationalState) +
              (StringsRecords(8, y.subComponents) + y.unknown));
    var t5 := Opt(EnumOf(5, y.ctype)) + t6;
    var t4 := Opt(BytesOf(4, y.description)) + t5;
    var t3 := Opt(NumberOf(3, y.partNumber)) + t4;
    OptFit(EnumOf(5, y.ctype), t6, depth);
    OptFit(BytesOf(4, y.description), t5, depth);
    OptFit(NumberOf(3, y.partNumber), t4, depth);
    OptFit(NumberOf(2, y.serialNumber), t3, depth);
    OptFit(BytesOf(1, y.name), Opt(NumberOf(2, y.serialNumber)) + t3, depth);
  }

  lemma ScalarsFold(y: Component, rest: seq<Record>, depth: nat)
    requires y.ctype.Some? ==> ComponentTypeIsValid(y.ctype.value)
    ensures Fold(HandleComponent, EMPTY_COMPONENT,
                 Opt(BytesOf(1, y.name)) + (Opt(NumberOf(2, y.serialNumber)) + (Opt(NumberOf(3, y.partNumber)) +
                 (Opt(BytesOf(4, y.description)) + (Opt(EnumOf(5, y.ctype)) + rest)))), depth)
         == Fold(HandleComponent,
                 Component(y.name, y.serialNumber, y.partNumber, y.description, y.ctype, [], [], [], []), rest, depth)
  {
    hide Fold, Nested;
    var h := HandleComponent;
    var t5 := Opt(EnumOf(5, y.ctype)) + rest;
    var t4 := Opt(BytesOf(4, y.description)) + t5;
    var t3 := Opt(NumberOf(3, y.partNumber)) + t4;
    var t2 := Opt(NumberOf(2, y.serialNumber)) + t3;
    var m1 := EMPTY_COMPONENT.(name := y.name);
    var m2 := m1.(serialNumber := y.serialNumber);
    var m3 := m2.(partNumber := y.partNumber);
    var m4 := m3.(description := y.description);
    assert Fold(h, EMPTY_COMPONENT, Opt(BytesOf(1, y.name)) + t2, depth) == Fold(h, m1, t2, depth) by {
      OptStep(h, EMPTY_COMPONENT, BytesOf(1, y.name), t2, depth);
    }
    assert Fold(h, m1, t2, depth) == Fold(h, m2, t3, depth) by {
      OptStep(h, m1, NumberOf(2, y.serialNumber), t3, depth);
    }
    assert Fold(h, m2, t3, depth) == Fold(h, m3, t4, depth) by { OptStep(h, m2, NumberOf(3, y.partNumber), t4, depth); }
    assert Fold(h, m3, t4, depth) == Fold(h, m4, t5, depth) by { OptStep(h, m3, BytesOf(4, y.description), t5, depth); }
    assert Fold(h, m4, t5, depth) == Fold(h, m4.(ctype := y.ctype), rest, depth) by {
      OptStep(h, m4, EnumOf(5, y.ctype), rest, depth);
      if y.ctype.Some? { Int32RoundTrip(y.ctype.value, 0); }
    }
  }

  lemma ComponentReparsed(y: Component, depth: nat)
    requires ComponentGenuine(y, depth)
    ensures Whole(HandleComponent, EMPTY_COMPONENT, SerializeComponent(y), depth) == Some(y)
  {
    ComponentRecordsFit(y, depth);
    hide Fold, Whole, AllFit, HandleComponent, KeyValsRecords, StringsRecords, Opt;
    WholeWritten(HandleComponent, EMPTY_COMPONENT, ComponentRecords(y), depth);
    var t8 := StringsRecords(8, y.subComponents) + y.unknown;
    var t7 := KeyValsRecords(7, y.operationalState) + t8;
    ScalarsFold(y, KeyValsRecords(6, y.properties) + t7, depth);
    var m5 := Component(y.name, y.serialNumber, y.partNumber, y.description, y.ctype, [], [], [], []);
    PropertiesFold(m5, y.properties, t7, depth);
    var m6 := m5.(properties := [] + y.properties);
    OperationalFold(m6, y.operationalState, t8, depth);
    var m7 := m6.(operationalState := [] + y.operationalState);
    StringsFold(m7, y.subComponents, y.unknown, depth);
    var m8 := m7.(subComponents := [] + y.subComponents);
    UnknownFold(m8, y.unknown, depth);
    assert m8.(unknown := [] + y.unknown) == y;
  }

  /** For every byte string that parses to its end: writing the message and parsing it again gives the same
      message, with every unknown field, every field of the wrong wire type and every out-of-range enum
      number. So a second re-encoding changes no byte. */
  lemma ReencodeLosesNothing(bs: bytes, depth: nat)
    requires Whole(HandleComponent, EMPTY_COMPONENT, bs, depth).Some?
    ensures var m := Whole(HandleComponent, EMPTY_COMPONENT, bs, depth).value;
            Whole(HandleComponent, EMPTY_COMPONENT, SerializeComponent(m), depth) == Some(m)
  {
    hide Whole, Fold, HandleComponent;
    var rs := ParseIsFold(HandleComponent, EMPTY_COMPONENT, bs, depth);
    ComponentFoldKeeps(EMPTY_COMPONENT, rs, depth);
    ComponentReparsed(Whole(HandleComponent, EMPTY_COMPONENT, bs, depth).value, depth);
  }
}
