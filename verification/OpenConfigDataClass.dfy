/** telemetry.OpenConfigData as the generated class. It owns KeyValue objects; computing its size fills the
    size caches all the way down, and both writers take the length prefixes from those caches. */
module OpenConfigDataClass {
  import opened Wire
  import opened Records
  import opened PlainLoop
  import opened Proto3
  import opened Utf8
  import opened CodedStream
  import opened CodedOutput
  import opened PredictedLoop
  import opened Proto3Writer
  import opened CachedSizes
  import opened TelemetryData
  import KeyValueClass

  type KeyValueMessage = KeyValueClass.KeyValueMessage

  // ---- What the writers write, given the cached sizes ----------------------------------------------

  function HeadBytes(m: OpenConfigData): bytes
  {
    TextBytes(1, m.systemId) + NumberBytes(2, m.componentId) + NumberBytes(3, m.subComponentId) +
    TextBytes(4, m.path) + NumberBytes(5, m.sequenceNumber) + NumberBytes(6, m.timestamp)
  }

  /** The nested messages. */
  function Payloads(kvs: seq<KeyValue>): (ss: seq<bytes>)
    ensures |ss| == |kvs| && forall i :: 0 <= i < |kvs| ==> ss[i] == SerializeKeyValue(kvs[i])
  {
    seq(|kvs|, i requires 0 <= i < |kvs| => SerializeKeyValue(kvs[i]))
  }

  lemma {:induction false} PayloadRecords(kvs: seq<KeyValue>)
    ensures KvRecords(kvs) == NestedRecords(7, Payloads(kvs))
    decreases |kvs|
  {
    hide SerializeKeyValue;
    if kvs != [] {
      PayloadRecords(kvs[1..]);
      assert Payloads(kvs)[1..] == Payloads(kvs[1..]);
    }
  }

  function DataBytes(m: OpenConfigData, sizes: seq<nat>): bytes
    requires |sizes| == |m.kv|
  {
    HeadBytes(m) + ListBytes(58, Payloads(m.kv), sizes)
  }

  lemma HeadIsWritten(m: OpenConfigData)
    ensures SerializeData(m) == HeadBytes(m) + EncodeAll(KvRecords(m.kv))
  {
    var t6 := NumberField(6, m.timestamp) + KvRecords(m.kv);
    var t5 := NumberField(5, m.sequenceNumber) + t6;
    var t4 := TextField(4, m.path) + t5;
    var t3 := NumberField(3, m.subComponentId) + t4;
    var t2 := NumberField(2, m.componentId) + t3;
    hide EncodeAll, KvRecords, TextField, NumberField, TextBytes, NumberBytes;
    TextWritten(1, m.systemId, t2);
    NumberWritten(2, m.componentId, t3);
    NumberWritten(3, m.subComponentId, t4);
    TextWritten(4, m.path, t5);
    NumberWritten(5, m.sequenceNumber, t6);
    NumberWritten(6, m.timestamp, KvRecords(m.kv));
    Regroup(TextBytes(1, m.systemId), NumberBytes(2, m.componentId), NumberBytes(3, m.subComponentId),
            TextBytes(4, m.path), NumberBytes(5, m.sequenceNumber), NumberBytes(6, m.timestamp),
            EncodeAll(KvRecords(m.kv)));
  }

  lemma Regroup(a: bytes, b: bytes, c: bytes, d: bytes, e: bytes, f: bytes, g: bytes)
    ensures a + (b + (c + (d + (e + (f + g))))) == a + b + c + d + e + f + g
  {
    ConcatAssoc(a + b + c + d + e, f, g);
    ConcatAssoc(a + b + c + d, e, f + g);
    ConcatAssoc(a + b + c, d, e + (f + g));
    ConcatAssoc(a + b, c, d + (e + (f + g)));
    ConcatAssoc(a, b, c + (d + (e + (f + g))));
  }

  /** The writers' output is the serialised message exactly when every cached size is right. So a single
      stale cache spoils the bytes, and recomputing the sizes first is enough. */
  lemma WrittenIffFresh(m: OpenConfigData, sizes: seq<nat>)
    requires |sizes| == |m.kv|
    ensures DataBytes(m, sizes) == SerializeData(m) <==> Fresh(Payloads(m.kv), sizes)
  {
    hide HeadBytes, SerializeData, ListBytes, KvRecords, Payloads;
    var h, ss := HeadBytes(m), Payloads(m.kv);
    HeadIsWritten(m);
    PayloadRecords(m.kv);
    ListFresh(7, ss, Lengths(ss));
    SameAsLengths(ss, sizes);
    if DataBytes(m, sizes) == SerializeData(m) {
      var x, y := ListBytes(58, ss, sizes), ListBytes(58, ss, Lengths(ss));
      assert x == (h + x)[|h|..] && y == (h + y)[|h|..];
      assert x + [] == x && y + [] == y;
      ListInjective(58, ss, sizes, Lengths(ss), [], []);
    }
  }

  // ---- Sizes -----------------------------------------------------------------------------------------

  lemma HeadSize(m: OpenConfigData)
    ensures |HeadBytes(m)| == TextSize(m.systemId) + NumberSize(m.componentId) + NumberSize(m.subComponentId) +
                              TextSize(m.path) + NumberSize(m.sequenceNumber) + NumberSize(m.timestamp)
  {
    TextSizeIs(1, m.systemId);
    NumberSizeIs(2, m.componentId);
    NumberSizeIs(3, m.subComponentId);
    TextSizeIs(4, m.path);
    NumberSizeIs(5, m.sequenceNumber);
    NumberSizeIs(6, m.timestamp);
    hide TextBytes, NumberBytes, TextSize, NumberSize;
  }

  datatype Label =
    | NextTag
    | ParseSystemId
    | ParseComponentId
    | ParseSubComponentId
    | ParsePath
    | ParseSequenceNumber
    | ParseTimestamp
    | ParseKv
    | LoopKv
  {
    /** The tag that has been consumed when control is here; 0 at the top of the loop. */
    function Tag(): nat
    {
      match this
      case NextTag => 0
      case ParseSystemId => 10
      case ParseComponentId => 16
      case ParseSubComponentId => 24
      case ParsePath => 34
      case ParseSequenceNumber => 40
      case ParseTimestamp => 48
      case ParseKv => 58
      case LoopKv => 58
    }

    /** Whether the recursion depth has been charged for sub-messages when control is here. */
    predicate Charged() { LoopKv? }
  }

  // ---- The objects -------------------------------------------------------------------------------------

  function Values(kvs: seq<KeyValueMessage>): (r: seq<KeyValue>)
    reads kvs`key, kvs`valueCase, kvs`word, kvs`text
    ensures |r| == |kvs| && forall i :: 0 <= i < |kvs| ==> r[i] == kvs[i].Value()
  {
    if kvs == [] then [] else [kvs[0].Value()] + Values(kvs[1..])
  }

  function Sizes(kvs: seq<KeyValueMessage>): (r: seq<nat>)
    reads kvs`cachedSize
    ensures |r| == |kvs| && forall i :: 0 <= i < |kvs| ==> r[i] == kvs[i].cachedSize
  {
    if kvs == [] then [] else [kvs[0].cachedSize] + Sizes(kvs[1..])
  }

  lemma ValuesAppend(a: seq<KeyValueMessage>, b: seq<KeyValueMessage>)
    ensures Values(a + b) == Values(a) + Values(b)
  {
  }

  lemma ValuesSnoc(a: seq<KeyValueMessage>, x: KeyValueMessage)
    ensures Values(a + [x]) == Values(a) + [x.Value()]
  {
  }

  /** New objects with the values of the given ones. */
  method CopyPairs(from: seq<KeyValueMessage>) returns (copies: seq<KeyValueMessage>)
    ensures Values(copies) == Values(from) && forall x :: x in copies ==> fresh(x)
  {
    hide Values;
    copies := [];
    for i := 0 to |from|
      invariant |copies| == i && forall x :: x in copies ==> fresh(x)
      invariant forall k :: 0 <= k < i ==> copies[k].Value() == from[k].Value()
    {
      var x := new KeyValueClass.KeyValueMessage();
      x.MergeFrom(from[i]);
      copies := copies + [x];
    }
  }

  /** The size of the repeated field; on the way every element caches its own. */
  method SizeOfPairs(tag: nat, kvs: seq<KeyValueMessage>) returns (total: nat)
    requires tag < 128
    modifies kvs`cachedSize
    ensures Values(kvs) == old(Values(kvs)) && Fresh(Payloads(Values(kvs)), Sizes(kvs))
    ensures total == |ListBytes(tag, Payloads(Values(kvs)), Sizes(kvs))|
  {
    hide Values, Sizes, Payloads, ListBytes, SerializeKeyValue, Prefixed, VarintSize;
    ghost var ms, ss := Values(kvs), Payloads(Values(kvs));
    ghost var sizes := Lengths(ss);
    total := |kvs|;
    assert ss[..0] == [] && sizes[..0] == [];
    NoList(tag);
    for i := 0 to |kvs|
      invariant forall k :: 0 <= k < |kvs| ==> kvs[k].Value() == ms[k]
      invariant forall k :: 0 <= k < i ==> kvs[k].cachedSize == sizes[k]
      invariant total == |kvs| - i + |ListBytes(tag, ss[..i], sizes[..i])|
    {
      var n := kvs[i].ByteSize();
      total := total + n + VarintSize(n);
      OneMore(tag, ss, sizes, i);
      PrefixedSize(tag, sizes[i], ss[i]);
    }
    assert ss[..|kvs|] == ss && sizes[..|kvs|] == sizes;
    assert Values(kvs) == ms && Sizes(kvs) == sizes;
  }

  /** WriteMessageMaybeToArray for every element: tag, cached size, message. */
  method WritePairs(tag: nat, kvs: seq<KeyValueMessage>, output: CodedOutputStream)
    modifies output
    ensures output.out == old(output.out) + ListBytes(tag, Payloads(Values(kvs)), Sizes(kvs))
  {
    hide Values, Sizes, Payloads, ListBytes, SerializeKeyValue, Prefixed, Varint;
    ghost var before, ms, sizes := output.out, Values(kvs), Sizes(kvs);
    ghost var ss := Payloads(ms);
    assert ss[..0] == [] && sizes[..0] == [] && before + [] == before;
    NoList(tag);
    for i := 0 to |kvs|
      invariant forall k :: 0 <= k < |kvs| ==> kvs[k].Value() == ms[k] && kvs[k].cachedSize == sizes[k]
      invariant output.out == before + ListBytes(tag, ss[..i], sizes[..i])
    {
      output.WriteVarint(tag);
      output.WriteVarint(kvs[i].cachedSize);
      kvs[i].SerializeWithCachedSizes(output);
      OneMoreWritten(before, tag, ss, sizes, i);
    }
    assert ss[..|kvs|] == ss && sizes[..|kvs|] == sizes;
    assert Values(kvs) == ms && Sizes(kvs) == sizes;
  }

  /** WriteMessageNoVirtualToArray for every element. */
  method PairsToArray(tag: nat, kvs: seq<KeyValueMessage>, target: array<byte>, at: nat) returns (end: nat)
    requires at + |ListBytes(tag, Payloads(Values(kvs)), Sizes(kvs))| <= target.Length
    modifies target
    ensures Wrote(old(target[..]), target[..], at, end, ListBytes(tag, Payloads(Values(kvs)), Sizes(kvs)))
  {
    hide Values, Sizes, Payloads, ListBytes, SerializeKeyValue, Prefixed, Varint, Wrote;
    ghost var before, ms, sizes := target[..], Values(kvs), Sizes(kvs);
    ghost var ss := Payloads(ms);
    end := at;
    assert ss[..0] == [] && sizes[..0] == [];
    NoList(tag);
    WroteNothing(before, at);
    for i := 0 to |kvs|
      invariant forall k :: 0 <= k < |kvs| ==> kvs[k].Value() == ms[k] && kvs[k].cachedSize == sizes[k]
      invariant Wrote(before, target[..], at, end, ListBytes(tag, ss[..i], sizes[..i]))
      invariant end == at + |ListBytes(tag, ss[..i], sizes[..i])|
    {
      ghost var between, mid, done := target[..], end, ListBytes(tag, ss[..i], sizes[..i]);
      OneFits(tag, ss, sizes, i);
      OneMore(tag, ss, sizes, i);
      end := PairToArray(tag, kvs[i], target, end);
      WroteTwice(before, between, target[..], at, mid, end, done, Prefixed(tag, sizes[i], ss[i]));
      WroteLength(before, target[..], at, end, done + Prefixed(tag, sizes[i], ss[i]));
    }
    assert ss[..|kvs|] == ss && sizes[..|kvs|] == sizes;
    assert Values(kvs) == ms && Sizes(kvs) == sizes;
  }

  method PairToArray(tag: nat, x: KeyValueMessage, target: array<byte>, at: nat) returns (end: nat)
    requires at + |Prefixed(tag, x.cachedSize, SerializeKeyValue(x.Value()))| <= target.Length
    modifies target
    ensures Wrote(old(target[..]), target[..], at, end, Prefixed(tag, x.cachedSize, SerializeKeyValue(x.Value())))
  {
    hide SerializeKeyValue, Varint, Wrote;
    ghost var before, s := target[..], SerializeKeyValue(x.Value());
    var mid := PrefixToArray(tag, x.cachedSize, target, at);
    ghost var between := target[..];
    WroteLength(before, between, at, mid, Varint(tag) + Varint(x.cachedSize));
    end := x.SerializeWithCachedSizesToArray(target, mid);
    WroteTwice(before, between, target[..], at, mid, end, Varint(tag) + Varint(x.cachedSize), s);
    ConcatAssoc(Varint(tag), Varint(x.cachedSize), s);
  }

  /** A new element and the parse into it, within a pushed limit. */
  method ReadPair(input: CodedInputStream) returns (ok: bool, x: KeyValueMessage)
    requires input.Valid() && input.budget >= 0
    modifies input
    ensures fresh(x)
    ensures match ReadBytes(old(input.Rest()))
            case Bad => !ok
            case Got(s, rest) =>
              match Whole(HandleKeyValue, EMPTY_KEY_VALUE, s, old(input.budget))
              case None => !ok
              case Some(v) => ok && x.Value() == v && input.Valid() && input.Rest() == rest &&
                              |rest| < |old(input.Rest())| && input.limit == old(input.limit) &&
                              input.budget == old(input.budget)
  {
    hide Parse, ReadBytes;
    x := new KeyValueClass.KeyValueMessage();
    var oldLimit;
    ok, oldLimit := input.ReadLengthAndPushLimit();
    if !ok { return; }
    ok := x.MergePartialFromCodedStream(input);
    if !ok { return; }
    ok := input.CheckEntireMessageConsumedAndPopLimit(oldLimit);
  }

  class OpenConfigDataMessage {
    var systemId: bytes
    var componentId: uint32
    var subComponentId: uint32
    var path: bytes
    var sequenceNumber: uint64
    var timestamp: uint64
    var kv: seq<KeyValueMessage>
    var cachedSize: nat

    function Value(): OpenConfigData
      reads this, kv
    {
      OpenConfigData(systemId, componentId, subComponentId, path, sequenceNumber, timestamp, Values(kv))
    }

    constructor ()
      ensures Value() == EMPTY_DATA && kv == []
    {
      systemId, path, kv := [], [], [];
      componentId, subComponentId, sequenceNumber, timestamp, cachedSize := 0, 0, 0, 0, 0;
    }

    method Clear()
      modifies this
      ensures Value() == EMPTY_DATA && kv == []
    {
      componentId, subComponentId := 0, 0;
      sequenceNumber, timestamp := 0, 0;
      systemId, path := [], [];
      kv := [];
    }

    /** The list grows by copies of the other message's pairs; the other message shares none of them. */
    method MergeFrom(from: OpenConfigDataMessage)
      requires from != this
      modifies this
      ensures Value() == MergeData(old(Value()), from.Value()) && from.Value() == old(from.Value())
      ensures forall x :: x in kv && x !in old(kv) ==> fresh(x)
    {
      hide Values;
      var copies := CopyPairs(from.kv);
      ValuesAppend(kv, copies);
      kv := kv + copies;
      MergeScalars(from);
    }

    /** Zeros and empty strings do not overwrite. */
    method MergeScalars(from: OpenConfigDataMessage)
      requires from != this
      modifies this`systemId, this`componentId, this`subComponentId, this`path, this`sequenceNumber, this`timestamp
      ensures systemId == Later(old(systemId), from.systemId, []) && path == Later(old(path), from.path, [])
      ensures componentId == Later(old(componentId), from.componentId, 0)
      ensures subComponentId == Later(old(subComponentId), from.subComponentId, 0)
      ensures sequenceNumber == Later(old(sequenceNumber), from.sequenceNumber, 0)
      ensures timestamp == Later(old(timestamp), from.timestamp, 0)
    {
      if |from.systemId| > 0 { systemId := from.systemId; }
      if from.componentId != 0 { componentId := from.componentId; }
      if from.subComponentId != 0 { subComponentId := from.subComponentId; }
      if |from.path| > 0 { path := from.path; }
      if from.sequenceNumber != 0 { sequenceNumber := from.sequenceNumber; }
      if from.timestamp != 0 { timestamp := from.timestamp; }
    }

    method CopyFrom(from: OpenConfigDataMessage)
      modifies this
      ensures Value() == old(from.Value())
    {
      if from == this { return; }
      Clear();
      MergeFrom(from);
    }

    method SizeOfHead() returns (total: nat)
      ensures total == |HeadBytes(Value())|
    {
      hide HeadBytes, VarintSize, Values;
      total := 0;
      if |systemId| > 0 { total := total + 1 + VarintSize(|systemId|) + |systemId|; }
      if componentId != 0 { total := total + 1 + VarintSize(componentId); }
      if subComponentId != 0 { total := total + 1 + VarintSize(subComponentId); }
      if |path| > 0 { total := total + 1 + VarintSize(|path|) + |path|; }
      if sequenceNumber != 0 { total := total + 1 + VarintSize(sequenceNumber); }
      if timestamp != 0 { total := total + 1 + VarintSize(timestamp); }
      HeadSize(Value());
    }

    /** Afterwards every cache below is right. The value of the message does not change. */
    method ByteSize() returns (total: nat)
      modifies this, kv
      ensures kv == old(kv) && Value() == old(Value())
      ensures total == cachedSize == |SerializeData(Value())| && Fresh(Payloads(Value().kv), Sizes(kv))
    {
      hide HeadBytes, ListBytes, Payloads, SerializeData, SerializeKeyValue, VarintSize, Values, Sizes;
      ghost var m := Value();
      total := SizeOfHead();
      var n := SizeOfPairs(58, kv);
      total := total + n;
      cachedSize := total;
      WrittenIffFresh(m, Sizes(kv));
    }

    method WriteHead(output: CodedOutputStream)
      modifies output
      ensures output.out == old(output.out) + HeadBytes(Value())
    {
      hide HeadBytes, TextBytes, NumberBytes, Values;
      ghost var before, m := output.out, Value();
      WriteText(1, systemId, output);
      WriteCount(2, componentId, output);
      WriteCount(3, subComponentId, output);
      WriteText(4, path, output);
      WriteCount(5, sequenceNumber, output);
      WriteCount(6, timestamp, output);
      HeadAfter(before, m);
    }

    /** The bytes depend on the caches alone, not on the true sizes. */
    method SerializeWithCachedSizes(output: CodedOutputStream)
      modifies output
      ensures output.out == old(output.out) + DataBytes(Value(), Sizes(kv))
    {
      hide HeadBytes, ListBytes, Payloads, Values, Sizes;
      ghost var before, m := output.out, Value();
      WriteHead(output);
      WritePairs(58, kv, output);
      ConcatAssoc(before, HeadBytes(m), ListBytes(58, Payloads(m.kv), Sizes(kv)));
    }

    /** The array writer writes the same bytes as the stream writer. */
    method SerializeWithCachedSizesToArray(target: array<byte>, at: nat) returns (end: nat)
      requires at + |DataBytes(Value(), Sizes(kv))| <= target.Length
      modifies target
      ensures Wrote(old(target[..]), target[..], at, end, DataBytes(Value(), Sizes(kv)))
    {
      hide ListBytes, Payloads, HeadBytes, Values, Sizes, Wrote;
      ghost var before, m, sizes := target[..], Value(), Sizes(kv);
      end := HeadToArray(target, at);
      ghost var between, mid := target[..], end;
      WroteLength(before, between, at, end, HeadBytes(m));
      end := PairsToArray(58, kv, target, end);
      WroteTwice(before, between, target[..], at, mid, end, HeadBytes(m), ListBytes(58, Payloads(m.kv), sizes));
    }

    method HeadToArray(target: array<byte>, at: nat) returns (end: nat)
      requires at + |HeadBytes(Value())| <= target.Length
      modifies target
      ensures Wrote(old(target[..]), target[..], at, end, HeadBytes(Value()))
    {
      hide TextBytes, NumberBytes, Wrote;
      ghost var before, m := target[..], Value();
      hide Values;
      end := TextToArray(1, systemId, target, at);
      end := ThenNumber(2, componentId, target, before, at, end, TextBytes(1, m.systemId));
      end := ThenNumber(3, subComponentId, target, before, at, end,
                        TextBytes(1, m.systemId) + NumberBytes(2, m.componentId));
      end := ThenText(4, path, target, before, at, end,
                      TextBytes(1, m.systemId) + NumberBytes(2, m.componentId) + NumberBytes(3, m.subComponentId));
      end := ThenNumber(5, sequenceNumber, target, before, at, end,
                        TextBytes(1, m.systemId) + NumberBytes(2, m.componentId) + NumberBytes(3, m.subComponentId) +
                        TextBytes(4, m.path));
      end := ThenNumber(6, timestamp, target, before, at, end,
                        TextBytes(1, m.systemId) + NumberBytes(2, m.componentId) + NumberBytes(3, m.subComponentId) +
                        TextBytes(4, m.path) + NumberBytes(5, m.sequenceNumber));
    }

    // ---- Size first, then write: how the library serialises a message ------------------------------------

    method SerializeToStream(output: CodedOutputStream)
      modifies this, kv, output
      ensures Value() == old(Value())
      ensures output.out == old(output.out) + SerializeData(Value())
    {
      hide Values, Sizes, Fresh, DataBytes, SerializeData;
      var n := ByteSize();
      SerializeWithCachedSizes(output);
      WrittenIffFresh(Value(), Sizes(kv));
    }

    lemma FreshIsWritten()
      requires Fresh(Payloads(Value().kv), Sizes(kv))
      ensures |Value().kv| == |Sizes(kv)| && DataBytes(Value(), Sizes(kv)) == SerializeData(Value())
    {
      hide Payloads, Fresh, DataBytes, SerializeData;
      WrittenIffFresh(Value(), Sizes(kv));
    }

    /** The array is exactly as long as the computed size, and both writers fill it alike. */
    method SerializeToArray() returns (target: array<byte>)
      modifies this, kv
      ensures Value() == old(Value())
      ensures fresh(target) && target[..] == SerializeData(Value())
    {
      hide Value, Fresh, DataBytes, SerializeData, Wrote, Values, Sizes;
      var n := ByteSize();
      FreshIsWritten();
      target := new byte[n](i => 0);
      ghost var empty := target[..];
      var end := SerializeWithCachedSizesToArray(target, 0);
      WroteAll(empty, target[..], end, SerializeData(Value()));
    }

    /** What holds after a block ended in a jump, `goal` being what the plain loop does from its start. */
    ghost predicate Jumped(j: Jump<Label>, goal: Outcome<OpenConfigData>, input: CodedInputStream,
                           limit: nat, depth: nat)
      reads this, kv, input
    {
      match j
      case Failure => goal == Failed
      case Success => Agrees(goal, true, Value(), input, limit, depth)
      case Goto(at) => AtLabel(goal, HandleData, at.Tag(), at.Charged(), Value(), input, limit, depth)
    }

    method ReadSystemId(input: CodedInputStream, ghost depth: nat) returns (ok: bool)
      requires input.Valid() && input.budget == depth
      modifies this, input
      ensures FieldRead(AfterTag(HandleData, old(Value()), 10, old(input.Rest()), depth),
                        HandleData, ok, Value(), input, old(input.Rest()),
                        old(input.limit), old(input.budget), depth)
      ensures forall x :: x in kv && x !in old(kv) ==> fresh(x)
    {
      hide Parse, AfterTag, Nested, Values;
      TurnBytes(HandleData, Value(), 10, input.Rest(), depth);
      var s;
      ok, s := input.ReadString();
      ok := ok && ValidUtf8(s);
      if ok { systemId := s; }
    }

    method ReadComponentId(input: CodedInputStream, ghost depth: nat) returns (ok: bool)
      requires input.Valid() && input.budget == depth
      modifies this, input
      ensures FieldRead(AfterTag(HandleData, old(Value()), 16, old(input.Rest()), depth),
                        HandleData, ok, Value(), input, old(input.Rest()),
                        old(input.limit), old(input.budget), depth)
      ensures forall x :: x in kv && x !in old(kv) ==> fresh(x)
    {
      hide Parse, AfterTag, Nested, Values;
      TurnVarint(HandleData, Value(), 16, input.Rest(), depth);
      var v;
      ok, v := input.ReadVarint64();
      if ok { componentId := v % TWO32; }
    }

    method ReadSubComponentId(input: CodedInputStream, ghost depth: nat) returns (ok: bool)
      requires input.Valid() && input.budget == depth
      modifies this, input
      ensures FieldRead(AfterTag(HandleData, old(Value()), 24, old(input.Rest()), depth),
                        HandleData, ok, Value(), input, old(input.Rest()),
                        old(input.limit), old(input.budget), depth)
      ensures forall x :: x in kv && x !in old(kv) ==> fresh(x)
    {
      hide Parse, AfterTag, Nested, Values;
      TurnVarint(HandleData, Value(), 24, input.Rest(), depth);
      var v;
      ok, v := input.ReadVarint64();
      if ok { subComponentId := v % TWO32; }
    }

    method ReadPath(input: CodedInputStream, ghost depth: nat) returns (ok: bool)
      requires input.Valid() && input.budget == depth
      modifies this, input
      ensures FieldRead(AfterTag(HandleData, old(Value()), 34, old(input.Rest()), depth),
                        HandleData, ok, Value(), input, old(input.Rest()),
                        old(input.limit), old(input.budget), depth)
      ensures forall x :: x in kv && x !in old(kv) ==> fresh(x)
    {
      hide Parse, AfterTag, Nested, Values;
      TurnBytes(HandleData, Value(), 34, input.Rest(), depth);
      var s;
      ok, s := input.ReadString();
      ok := ok && ValidUtf8(s);
      if ok { path := s; }
    }

    method ReadSequenceNumber(input: CodedInputStream, ghost depth: nat) returns (ok: bool)
      requires input.Valid() && input.budget == depth
      modifies this, input
      ensures FieldRead(AfterTag(HandleData, old(Value()), 40, old(input.Rest()), depth),
                        HandleData, ok, Value(), input, old(input.Rest()),
                        old(input.limit), old(input.budget), depth)
      ensures forall x :: x in kv && x !in old(kv) ==> fresh(x)
    {
      hide Parse, AfterTag, Nested, Values;
      TurnVarint(HandleData, Value(), 40, input.Rest(), depth);
      var v;
      ok, v := input.ReadVarint64();
      if ok { sequenceNumber := v; }
    }

    method ReadTimestamp(input: CodedInputStream, ghost depth: nat) returns (ok: bool)
      requires input.Valid() && input.budget == depth
      modifies this, input
      ensures FieldRead(AfterTag(HandleData, old(Value()), 48, old(input.Rest()), depth),
                        HandleData, ok, Value(), input, old(input.Rest()),
                        old(input.limit), old(input.budget), depth)
      ensures forall x :: x in kv && x !in old(kv) ==> fresh(x)
    {
      hide Parse, AfterTag, Nested, Values;
      TurnVarint(HandleData, Value(), 48, input.Rest(), depth);
      var v;
      ok, v := input.ReadVarint64();
      if ok { timestamp := v; }
    }

    method AddKv(input: CodedInputStream, ghost depth: nat) returns (ok: bool)
      requires input.Valid() && input.budget == depth - 1 && depth > 0
      modifies this, input
      ensures FieldRead(AfterTag(HandleData, old(Value()), 58, old(input.Rest()), depth),
                        HandleData, ok, Value(), input, old(input.Rest()),
                        old(input.limit), old(input.budget), depth)
      ensures forall x :: x in kv && x !in old(kv) ==> fresh(x)
    {
      hide Parse, AfterTag, HandleData, Values, Whole, ReadBytes, HandleKeyValue;
      OnKv(Value(), depth);
      TurnBytes(HandleData, Value(), 58, input.Rest(), depth);
      var x;
      ok, x := ReadPair(input);
      if !ok { return; }
      ValuesSnoc(kv, x);
      kv := kv + [x];
    }

    /** A field that is not dispatched on is skipped and forgotten. */
    method SkipUnknown(input: CodedInputStream, tag: uint32, ghost depth: nat) returns (ok: bool)
      requires input.Valid() && input.budget == depth && tag !in [0, 10, 16, 24, 34, 40, 48, 58]
      requires !IsEndGroup(tag)
      modifies this, input
      ensures FieldRead(AfterTag(HandleData, old(Value()), tag, old(input.Rest()), depth),
                        HandleData, ok, Value(), input, old(input.Rest()),
                        old(input.limit), old(input.budget), depth)
      ensures forall x :: x in kv && x !in old(kv) ==> fresh(x)
    {
      hide Parse, AfterTag, HandleData, Values;
      var r;
      ok, r := ReadField(input, HandleData, Value(), tag);
      if ok {
        Unrecognised(Value(), r, depth);
      }
    }

    method BlockNextTag(input: CodedInputStream, ghost depth: nat) returns (j: Jump<Label>)
      requires Ready(input, NextTag.Charged(), depth)
      modifies this, input
      ensures Jumped(j, old(Resume(HandleData, 0, Value(), input.Rest(), depth)), input, old(input.limit), depth)
      ensures j.Goto? ==> |input.Rest()| < |old(input.Rest())|
      ensures forall x :: x in kv && x !in old(kv) ==> fresh(x)
    {
      hide Parse, AfterTag, HandleData, Values;
      var tag, small := TopOfLoop(input, HandleData, Value(), depth);
      if small && tag == 10 {
        j := Goto(ParseSystemId);
      } else if small && tag == 16 {
        j := Goto(ParseComponentId);
      } else if small && tag == 24 {
        j := Goto(ParseSubComponentId);
      } else if small && tag == 34 {
        j := Goto(ParsePath);
      } else if small && tag == 40 {
        j := Goto(ParseSequenceNumber);
      } else if small && tag == 48 {
        j := Goto(ParseTimestamp);
      } else if small && tag == 58 {
        j := Goto(ParseKv);
      } else {
        if tag == 0 || IsEndGroup(tag) { return Success; }
        var ok := SkipUnknown(input, tag, depth);
        j := if ok then Goto(NextTag) else Failure;
      }
    }

    method BlockParseSystemId(input: CodedInputStream, ghost depth: nat) returns (j: Jump<Label>)
      requires Ready(input, ParseSystemId.Charged(), depth)
      modifies this, input
      ensures Jumped(j, old(Resume(HandleData, 10, Value(), input.Rest(), depth)), input, old(input.limit), depth)
      ensures j.Goto? ==> |input.Rest()| < |old(input.Rest())|
      ensures forall x :: x in kv && x !in old(kv) ==> fresh(x)
    {
      hide Parse, AfterTag, HandleData, Values;
      var ok := ReadSystemId(input, depth);
      if !ok { return Failure; }
      var hit := Predict(input, HandleData, Value(), depth, 16);
      j := Goto(if hit then ParseComponentId else NextTag);
    }

    method BlockParseComponentId(input: CodedInputStream, ghost depth: nat) returns (j: Jump<Label>)
      requires Ready(input, ParseComponentId.Charged(), depth)
      modifies this, input
      ensures Jumped(j, old(Resume(HandleData, 16, Value(), input.Rest(), depth)), input, old(input.limit), depth)
      ensures j.Goto? ==> |input.Rest()| < |old(input.Rest())|
      ensures forall x :: x in kv && x !in old(kv) ==> fresh(x)
    {
      hide Parse, AfterTag, HandleData, Values;
      var ok := ReadComponentId(input, depth);
      if !ok { return Failure; }
      var hit := Predict(input, HandleData, Value(), depth, 24);
      j := Goto(if hit then ParseSubComponentId else NextTag);
    }

    method BlockParseSubComponentId(input: CodedInputStream, ghost depth: nat) returns (j: Jump<Label>)
      requires Ready(input, ParseSubComponentId.Charged(), depth)
      modifies this, input
      ensures Jumped(j, old(Resume(HandleData, 24, Value(), input.Rest(), depth)), input, old(input.limit), depth)
      ensures j.Goto? ==> |input.Rest()| < |old(input.Rest())|
      ensures forall x :: x in kv && x !in old(kv) ==> fresh(x)
    {
      hide Parse, AfterTag, HandleData, Values;
      var ok := ReadSubComponentId(input, depth);
      if !ok { return Failure; }
      var hit := Predict(input, HandleData, Value(), depth, 34);
      j := Goto(if hit then ParsePath else NextTag);
    }

    method BlockParsePath(input: CodedInputStream, ghost depth: nat) returns (j: Jump<Label>)
      requires Ready(input, ParsePath.Charged(), depth)
      modifies this, input
      ensures Jumped(j, old(Resume(HandleData, 34, Value(), input.Rest(), depth)), input, old(input.limit), depth)
      ensures j.Goto? ==> |input.Rest()| < |old(input.Rest())|
      ensures forall x :: x in kv && x !in old(kv) ==> fresh(x)
    {
      hide Parse, AfterTag, HandleData, Values;
      var ok := ReadPath(input, depth);
      if !ok { return Failure; }
      var hit := Predict(input, HandleData, Value(), depth, 40);
      j := Goto(if hit then ParseSequenceNumber else NextTag);
    }

    method BlockParseSequenceNumber(input: CodedInputStream, ghost depth: nat) returns (j: Jump<Label>)
      requires Ready(input, ParseSequenceNumber.Charged(), depth)
      modifies this, input
      ensures Jumped(j, old(Resume(HandleData, 40, Value(), input.Rest(), depth)), input, old(input.limit), depth)
      ensures j.Goto? ==> |input.Rest()| < |old(input.Rest())|
      ensures forall x :: x in kv && x !in old(kv) ==> fresh(x)
    {
      hide Parse, AfterTag, HandleData, Values;
      var ok := ReadSequenceNumber(input, depth);
      if !ok { return Failure; }
      var hit := Predict(input, HandleData, Value(), depth, 48);
      j := Goto(if hit then ParseTimestamp else NextTag);
    }

    method BlockParseTimestamp(input: CodedInputStream, ghost depth: nat) returns (j: Jump<Label>)
      requires Ready(input, ParseTimestamp.Charged(), depth)
      modifies this, input
      ensures Jumped(j, old(Resume(HandleData, 48, Value(), input.Rest(), depth)), input, old(input.limit), depth)
      ensures j.Goto? ==> |input.Rest()| < |old(input.Rest())|
      ensures forall x :: x in kv && x !in old(kv) ==> fresh(x)
    {
      hide Parse, AfterTag, HandleData, Values;
      var ok := ReadTimestamp(input, depth);
      if !ok { return Failure; }
      var hit := Predict(input, HandleData, Value(), depth, 58);
      j := Goto(if hit then ParseKv else NextTag);
    }

    method BlockParseKv(input: CodedInputStream, ghost depth: nat) returns (j: Jump<Label>)
      requires Ready(input, ParseKv.Charged(), depth)
      modifies this, input
      ensures Jumped(j, old(Resume(HandleData, 58, Value(), input.Rest(), depth)), input, old(input.limit), depth)
      ensures j.Goto? ==> input.Rest() == old(input.Rest()) && j.at.LoopKv?
      ensures forall x :: x in kv && x !in old(kv) ==> fresh(x)
    {
      hide Parse, AfterTag, HandleData, Values;
      var ok := input.IncrementRecursionDepth();
      if !ok { NoBudget(Value(), 58, input.Rest()); return Failure; }
      j := Goto(LoopKv);
    }

    method BlockLoopKv(input: CodedInputStream, ghost depth: nat) returns (j: Jump<Label>)
      requires Ready(input, LoopKv.Charged(), depth)
      modifies this, input
      ensures Jumped(j, old(Resume(HandleData, 58, Value(), input.Rest(), depth)), input, old(input.limit), depth)
      ensures j.Goto? ==> |input.Rest()| < |old(input.Rest())|
      ensures forall x :: x in kv && x !in old(kv) ==> fresh(x)
    {
      hide Parse, AfterTag, HandleData, Values;
      var ok := AddKv(input, depth);
      if !ok { return Failure; }
      var hit := Predict(input, HandleData, Value(), depth, 58);
      if hit { return Goto(LoopKv); }
      input.UnsafeDecrementRecursionDepth();
      hit := input.ExpectAtEnd();
      if hit { TurnAtEnd(HandleData, Value(), input.Rest(), depth); return Success; }
      j := Goto(NextTag);
    }

    /** For every byte string and every way the predictions may answer: the verdict, the message,
        the leftover input and the recursion budget are those of the plain loop. Every turn consumes
        input, or enters a loop of sub-messages, or leaves. */
    method MergePartialFromCodedStream(input: CodedInputStream) returns (ok: bool)
      requires input.Valid() && input.budget >= 0
      modifies this, input
      ensures Agrees(Parse(HandleData, old(Value()), old(input.Rest()), old(input.budget)), ok, Value(), input,
                     old(input.limit), old(input.budget))
      ensures forall x :: x in kv && x !in old(kv) ==> fresh(x)
    {
      hide Parse, AfterTag, HandleData, Values;
      ghost var depth: nat := input.budget;
      ghost var goal := Parse(HandleData, Value(), input.Rest(), depth);
      var j := Goto(NextTag);
      while j.Goto?
        invariant Jumped(j, goal, input, old(input.limit), depth)
        invariant forall x :: x in kv && x !in old(kv) ==> fresh(x)
        decreases if j.Goto? then 1 else 0, if j.Goto? then |input.Rest()| else 0,
                  if j.Goto? && j.at.ParseKv? then 1 else 0
      {
        match j.at
        case NextTag => j := BlockNextTag(input, depth);
        case ParseSystemId => j := BlockParseSystemId(input, depth);
        case ParseComponentId => j := BlockParseComponentId(input, depth);
        case ParseSubComponentId => j := BlockParseSubComponentId(input, depth);
        case ParsePath => j := BlockParsePath(input, depth);
        case ParseSequenceNumber => j := BlockParseSequenceNumber(input, depth);
        case ParseTimestamp => j := BlockParseTimestamp(input, depth);
        case ParseKv => j := BlockParseKv(input, depth);
        case LoopKv => j := BlockLoopKv(input, depth);
      }
      ok := j.Success?;
    }
  }

  /** Without recursion budget a sub-message fails in the plain loop too. */
  lemma NoBudget(m: OpenConfigData, tag: nat, bs: bytes)
    requires tag == 58
    ensures AfterTag(HandleData, m, tag, bs, 0) == Failed
  {
    hide Parse, AfterTag;
    TurnBytes(HandleData, m, tag, bs, 0);
  }

  /** How the plain loop takes a key-value pair. */
  lemma OnKv(m: OpenConfigData, depth: nat)
    requires depth > 0
    ensures forall s :: HandleData(m, BytesField(7, s), depth)
                     == match Whole(HandleKeyValue, EMPTY_KEY_VALUE, s, depth - 1)
                        case None => None case Some(x) => Some(m.(kv := m.kv + [x]))
  {
  }

  /** Records with other tags are not fields of this message. */
  lemma Unrecognised(m: OpenConfigData, r: Record, depth: nat)
    requires TagOf(r) !in [10, 16, 24, 34, 40, 48, 58]
    ensures HandleData(m, r, depth) == Some(m)
  {
  }

  // ---- Steps of the writers ---------------------------------------------------------------------------

  /** The bytes after the six scalar fields have been appended one by one. */
  lemma HeadAfter(before: bytes, m: OpenConfigData)
    ensures before + TextBytes(1, m.systemId) + NumberBytes(2, m.componentId) + NumberBytes(3, m.subComponentId) +
            TextBytes(4, m.path) + NumberBytes(5, m.sequenceNumber) + NumberBytes(6, m.timestamp)
         == before + HeadBytes(m)
  {
    hide TextBytes, NumberBytes;
    var a, b, c := TextBytes(1, m.systemId), NumberBytes(2, m.componentId), NumberBytes(3, m.subComponentId);
    var d, e, f := TextBytes(4, m.path), NumberBytes(5, m.sequenceNumber), NumberBytes(6, m.timestamp);
    ConcatAssoc(before, a, b);
    ConcatAssoc(before, a + b, c);
    ConcatAssoc(before, a + b + c, d);
    ConcatAssoc(before, a + b + c + d, e);
    ConcatAssoc(before, a + b + c + d + e, f);
  }
}
