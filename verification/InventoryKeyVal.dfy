/** InventoryKeyVal as the generated class, and the repeated fields that own such objects: what is written for them
    follows their size caches. */
module InventoryKeyVal {
  import opened Wire
  import opened Records
  import opened PlainLoop
  import opened Proto2
  import opened CodedStream
  import opened CodedOutput
  import opened PredictedLoop
  import opened CachedSizes
  import opened InventoryData

  function MergeKeyVal(x: KeyVal, y: KeyVal): KeyVal
  {
    KeyVal(Or(x.key, y.key), Or(x.intValue, y.intValue), Or(x.strValue, y.strValue), x.unknown + y.unknown)
  }

  lemma MergeIntoEmpty(y: KeyVal)
    ensures MergeKeyVal(EMPTY_KEY_VAL, y) == y
  {
    assert [] + y.unknown == y.unknown;
  }

  lemma KeyValParts(m: KeyVal)
    ensures SerializeKeyVal(m) == EncodeAll(Opt(BytesOf(1, m.key))) + EncodeAll(Opt(SignedOf(2, m.intValue))) +
                                  EncodeAll(Opt(BytesOf(3, m.strValue))) + EncodeAll(m.unknown)
  {
    hide EncodeAll, Opt;
    var a, b, c := Opt(BytesOf(1, m.key)), Opt(SignedOf(2, m.intValue)), Opt(BytesOf(3, m.strValue));
    EncodeAppend(a, b + (c + m.unknown));
    EncodeAppend(b, c + m.unknown);
    EncodeAppend(c, m.unknown);
    ConcatAssoc(EncodeAll(a), EncodeAll(b), EncodeAll(c) + EncodeAll(m.unknown));
    ConcatAssoc(EncodeAll(a) + EncodeAll(b), EncodeAll(c), EncodeAll(m.unknown));
  }

  lemma KeyValAfter(before: bytes, m: KeyVal)
    ensures before + EncodeAll(Opt(BytesOf(1, m.key))) + EncodeAll(Opt(SignedOf(2, m.intValue))) +
                     EncodeAll(Opt(BytesOf(3, m.strValue))) + EncodeAll(m.unknown)
         == before + SerializeKeyVal(m)
  {
    hide EncodeAll, Opt, BytesOf, SignedOf, SerializeKeyVal;
    KeyValParts(m);
    var a, b := EncodeAll(Opt(BytesOf(1, m.key))), EncodeAll(Opt(SignedOf(2, m.intValue)));
    var c := EncodeAll(Opt(BytesOf(3, m.strValue)));
    ConcatAssoc(before, a, b);
    ConcatAssoc(before, a + b, c);
    ConcatAssoc(before, a + b + c, EncodeAll(m.unknown));
  }

  class KeyValMessage {
    var key: Option<bytes>
    var intValue: Option<int64>
    var strValue: Option<bytes>
    var unknown: seq<Record>
    var cachedSize: nat

    function Value(): KeyVal
      reads this`key, this`intValue, this`strValue, this`unknown
    {
      KeyVal(key, intValue, strValue, unknown)
    }

    constructor ()
      ensures Value() == EMPTY_KEY_VAL
    {
      key, intValue, strValue, unknown, cachedSize := None, None, None, [], 0;
    }

    method MergeFrom(from: KeyValMessage)
      requires from != this
      modifies this`key, this`intValue, this`strValue, this`unknown
      ensures Value() == MergeKeyVal(old(Value()), from.Value())
    {
      if from.key.Some? { key := from.key; }
      if from.intValue.Some? { intValue := from.intValue; }
      if from.strValue.Some? { strValue := from.strValue; }
      unknown := unknown + from.unknown;
    }

    /** The computed size is the length of the serialised message, unknown fields included. */
    method ByteSize() returns (total: nat)
      modifies this`cachedSize
      ensures total == cachedSize == |SerializeKeyVal(Value())|
    {
      hide VarintSize, OptSize, ToU64, SerializeKeyVal;
      total := 0;
      Absent();
      if key.Some? {
        FieldSize(BytesField(1, key.value));
        total := total + 1 + VarintSize(|key.value|) + |key.value|;
      }
      if intValue.Some? {
        FieldSize(VarintField(2, ToU64(intValue.value)));
        total := total + 1 + VarintSize(ToU64(intValue.value));
      }
      if strValue.Some? {
        FieldSize(BytesField(3, strValue.value));
        total := total + 1 + VarintSize(|strValue.value|) + |strValue.value|;
      }
      total := total + |EncodeAll(unknown)|;
      KeyValSize(Value());
      cachedSize := total;
    }

    method SerializeWithCachedSizes(output: CodedOutputStream)
      modifies output
      ensures output.out == old(output.out) + SerializeKeyVal(Value())
    {
      hide Encode, EncodeAll, Opt, SerializeKeyVal;
      ghost var before, out0 := output.out, output.out;
      if key.Some? { output.WriteBytes(1, key.value); }
      OptWritten(before, BytesOf(1, key), output.out);
      before := output.out;
      if intValue.Some? { output.WriteNumber(2, ToU64(intValue.value)); }
      OptWritten(before, SignedOf(2, intValue), output.out);
      before := output.out;
      if strValue.Some? { output.WriteBytes(3, strValue.value); }
      OptWritten(before, BytesOf(3, strValue), output.out);
      output.WriteRaw(EncodeAll(unknown));
      hide BytesOf, SignedOf;
      KeyValAfter(out0, Value());
    }

    method MergePartialFromCodedStream(input: CodedInputStream) returns (ok: bool)
      requires input.Valid() && input.budget >= 0
      modifies this, input
      ensures Agrees(Parse(HandleKeyVal, old(Value()), old(input.Rest()), old(input.budget)), ok, Value(), input,
                     old(input.limit), old(input.budget))
    {
      hide Parse, HandleKeyVal;
      var m;
      ok, m := ParseInARow(input, HandleKeyVal, Value(), [10, 16, 26]);
      if ok { key, intValue, strValue, unknown := m.key, m.intValue, m.strValue, m.unknown; }
    }
  }

  // ---- Repeated fields ---------------------------------------------------------------------------------

  /** The nested messages. */
  function Payloads(kvs: seq<KeyVal>): (ss: seq<bytes>)
    ensures |ss| == |kvs| && forall i :: 0 <= i < |kvs| ==> ss[i] == SerializeKeyVal(kvs[i])
  {
    seq(|kvs|, i requires 0 <= i < |kvs| => SerializeKeyVal(kvs[i]))
  }

  lemma {:induction false} PayloadRecords(num: nat, kvs: seq<KeyVal>)
    ensures KeyValsRecords(num, kvs) == NestedRecords(num, Payloads(kvs))
    decreases |kvs|
  {
    hide SerializeKeyVal;
    if kvs != [] {
      PayloadRecords(num, kvs[1..]);
      assert Payloads(kvs)[1..] == Payloads(kvs[1..]);
    }
  }

  function Values(kvs: seq<KeyValMessage>): (r: seq<KeyVal>)
    reads kvs`key, kvs`intValue, kvs`strValue, kvs`unknown
    ensures |r| == |kvs| && forall i :: 0 <= i < |kvs| ==> r[i] == kvs[i].Value()
  {
    if kvs == [] then [] else [kvs[0].Value()] + Values(kvs[1..])
  }

  function Sizes(kvs: seq<KeyValMessage>): (r: seq<nat>)
    reads kvs`cachedSize
    ensures |r| == |kvs| && forall i :: 0 <= i < |kvs| ==> r[i] == kvs[i].cachedSize
  {
    if kvs == [] then [] else [kvs[0].cachedSize] + Sizes(kvs[1..])
  }

  lemma ValuesAppend(a: seq<KeyValMessage>, b: seq<KeyValMessage>)
    ensures Values(a + b) == Values(a) + Values(b)
  {
  }

  lemma ValuesSnoc(a: seq<KeyValMessage>, x: KeyValMessage)
    ensures Values(a + [x]) == Values(a) + [x.Value()]
  {
  }

  /** New objects with the values of the given ones. */
  method CopyKeyVals(from: seq<KeyValMessage>) returns (copies: seq<KeyValMessage>)
    ensures Values(copies) == Values(from) && forall x :: x in copies ==> fresh(x)
  {
    hide Values;
    copies := [];
    for i := 0 to |from|
      invariant |copies| == i && forall x :: x in copies ==> fresh(x)
      invariant forall k :: 0 <= k < i ==> copies[k].Value() == from[k].Value()
    {
      var x := new KeyValMessage();
      x.MergeFrom(from[i]);
      MergeIntoEmpty(from[i].Value());
      copies := copies + [x];
    }
  }

  /** The size of the repeated field; on the way every element caches its own. */
  method SizeOfKeyVals(tag: nat, kvs: seq<KeyValMessage>) returns (total: nat)
    requires tag < 128
    modifies kvs`cachedSize
    ensures Values(kvs) == old(Values(kvs)) && Fresh(Payloads(Values(kvs)), Sizes(kvs))
    ensures total == |ListBytes(tag, Payloads(Values(kvs)), Sizes(kvs))|
  {
    hide Values, Sizes, Payloads, ListBytes, SerializeKeyVal, Prefixed, VarintSize;
    ghost var ms, ss := Values(kvs), Payloads(Values(kvs));
    ghost var sizes := Lengths(ss);
    total := |kvs|;
    assert ss[..0] == [] && sizes[..0] == [];
    NoList(tag);
    for i := 0 to |kvs|
      invariant forall k :: 0 <= k < |kvs| ==> kvs[k].Value() == ms[k]
      invariant forall k :: 0 <= k < i ==> kvs[k].cachedSize == sizes[k]
      invariant total == |kvs| - i + |ListBytes(tag, ss[..i], sizes[..i])|
    {
      var n := kvs[i].ByteSize();
      total := total + n + VarintSize(n);
      OneMore(tag, ss, sizes, i);
      PrefixedSize(tag, sizes[i], ss[i]);
    }
    assert ss[..|kvs|] == ss && sizes[..|kvs|] == sizes;
    assert Values(kvs) == ms && Sizes(kvs) == sizes;
  }

  /** WriteMessageMaybeToArray for every element: tag, cached size, message. */
  method WriteKeyVals(tag: nat, kvs: seq<KeyValMessage>, output: CodedOutputStream)
    modifies output
    ensures output.out == old(output.out) + ListBytes(tag, Payloads(Values(kvs)), Sizes(kvs))
  {
    hide Values, Sizes, Payloads, ListBytes, SerializeKeyVal, Prefixed, Varint;
    ghost var before, ms, sizes := output.out, Values(kvs), Sizes(kvs);
    ghost var ss := Payloads(ms);
    assert ss[..0] == [] && sizes[..0] == [] && before + [] == before;
    NoList(tag);
    for i := 0 to |kvs|
      invariant forall k :: 0 <= k < |kvs| ==> kvs[k].Value() == ms[k] && kvs[k].cachedSize == sizes[k]
      invariant output.out == before + ListBytes(tag, ss[..i], sizes[..i])
    {
      output.WriteVarint(tag);
      output.WriteVarint(kvs[i].cachedSize);
      kvs[i].SerializeWithCachedSizes(output);
      OneMoreWritten(before, tag, ss, sizes, i);
    }
    assert ss[..|kvs|] == ss && sizes[..|kvs|] == sizes;
    assert Values(kvs) == ms && Sizes(kvs) == sizes;
  }

  /** A new element and the parse into it, within a pushed limit. */
  method ReadKeyVal(input: CodedInputStream) returns (ok: bool, x: KeyValMessage)
    requires input.Valid() && input.budget >= 0
    modifies input
    ensures fresh(x)
    ensures match ReadBytes(old(input.Rest()))
            case Bad => !ok
            case Got(s, rest) =>
              match Whole(HandleKeyVal, EMPTY_KEY_VAL, s, old(input.budget))
              case None => !ok
              case Some(v) => ok && x.Value() == v && input.Valid() && input.Rest() == rest &&
                              |rest| < |old(input.Rest())| && input.limit == old(input.limit) &&
                              input.budget == old(input.budget)
  {
    hide Parse, ReadBytes;
    x := new KeyValMessage();
    var oldLimit;
    ok, oldLimit := input.ReadLengthAndPushLimit();
    if !ok { return; }
    ok := x.MergePartialFromCodedStream(input);
    if !ok { return; }
    ok := input.CheckEntireMessageConsumedAndPopLimit(oldLimit);
  }
}
