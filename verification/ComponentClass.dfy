/** Component::MergePartialFromCodedStream with its gotos, as in FirewallClass: labels, blocks, jumps. The
    goto out of the loop of `properties` enters the loop of `operational_state` behind its increment of the
    recursion depth; the one out of that loop leaves after the decrement. */
module ComponentClass {
  import opened Wire
  import opened Records
  import opened PlainLoop
  import opened Proto3
  import opened CodedStream
  import opened CodedOutput
  import opened Proto2
  import opened PredictedLoop
  import opened CachedSizes
  import opened InventoryData
  import InventoryKeyVal

  type KeyValMessage = InventoryKeyVal.KeyValMessage

  datatype Label =
    | NextTag
    | ParseName
    | ParseSerialNumber
    | ParsePartNumber
    | ParseDescription
    | ParseType
    | ParseProperties
    | LoopProperties
    | LoopOperationalState
    | ParseSubComponents
  {
    /** The tag that has been consumed when control is here; 0 at the top of the loop. */
    function Tag(): nat
    {
      match this
      case NextTag => 0
      case ParseName => 10
      case ParseSerialNumber => 16
      case ParsePartNumber => 24
      case ParseDescription => 34
      case ParseType => 40
      case ParseProperties => 50
      case LoopProperties => 50
      case LoopOperationalState => 58
      case ParseSubComponents => 66
    }

    /** Whether the recursion depth has been charged for sub-messages when control is here. */
    predicate Charged() { LoopProperties? || LoopOperationalState? }
  }

  class ComponentMessage {
    var name: Option<bytes>
    var serialNumber: Option<uint32>
    var partNumber: Option<uint32>
    var description: Option<bytes>
    var ctype: Option<int32>
    var properties: seq<KeyValMessage>
    var operationalState: seq<KeyValMessage>
    var subComponents: seq<bytes>
    var unknown: seq<Record>
    var cachedSize: nat

    function Value(): Component
      reads this`name, this`serialNumber, this`partNumber, this`description, this`ctype
      reads this`properties, this`operationalState, this`subComponents, this`unknown
      reads properties`key, properties`intValue, properties`strValue, properties`unknown
      reads operationalState`key, operationalState`intValue, operationalState`strValue, operationalState`unknown
    {
      Component(name, serialNumber, partNumber, description, ctype, InventoryKeyVal.Values(properties),
                InventoryKeyVal.Values(operationalState), subComponents, unknown)
    }

    /** The caches of the two lists of sub-messages. */
    function PropertySizes(): (sizes: seq<nat>)
      reads this`properties, properties`cachedSize
      ensures |sizes| == |properties|
    {
      InventoryKeyVal.Sizes(properties)
    }

    function StateSizes(): (sizes: seq<nat>)
      reads this`operationalState, operationalState`cachedSize
      ensures |sizes| == |operationalState|
    {
      InventoryKeyVal.Sizes(operationalState)
    }

    /** What has come into this message since is new. */
    twostate predicate OwnsFresh()
      reads this
    {
      (forall x :: x in properties && x !in old(properties) ==> fresh(x)) &&
      (forall x :: x in operationalState && x !in old(operationalState) ==> fresh(x))
    }

    constructor ()
      ensures Value() == EMPTY_COMPONENT
    {
      name, serialNumber, partNumber, description, ctype := None, None, None, None, None;
      properties, operationalState, subComponents, unknown := [], [], [], [];
      cachedSize := 0;
    }

    method Clear()
      modifies this
      ensures Value() == EMPTY_COMPONENT
    {
      name, serialNumber, partNumber, description, ctype := None, None, None, None, None;
      properties, operationalState, subComponents, unknown := [], [], [], [];
    }

    method MergeProperties(from: ComponentMessage)
      requires from != this
      modifies this`properties
      ensures Value() == old(Value()).(properties := old(Value()).properties + from.Value().properties)
      ensures from.Value() == old(from.Value()) && OwnsFresh()
    {
      hide InventoryKeyVal.Values;
      var p := InventoryKeyVal.CopyKeyVals(from.properties);
      InventoryKeyVal.ValuesAppend(properties, p);
      properties := properties + p;
    }

    method MergeStates(from: ComponentMessage)
      requires from != this
      modifies this`operationalState
      ensures var x := old(Value());
              Value() == x.(operationalState := x.operationalState + from.Value().operationalState)
      ensures from.Value() == old(from.Value()) && OwnsFresh()
    {
      hide InventoryKeyVal.Values;
      var s := InventoryKeyVal.CopyKeyVals(from.operationalState);
      InventoryKeyVal.ValuesAppend(operationalState, s);
      operationalState := operationalState + s;
    }

    /** Present fields overwrite. */
    method MergeScalars(from: ComponentMessage)
      requires from != this
      modifies this`name, this`serialNumber, this`partNumber, this`description, this`ctype
      ensures name == Or(old(name), from.name) && serialNumber == Or(old(serialNumber), from.serialNumber)
      ensures partNumber == Or(old(partNumber), from.partNumber) && ctype == Or(old(ctype), from.ctype)
      ensures description == Or(old(description), from.description)
    {
      if from.name.Some? { name := from.name; }
      if from.serialNumber.Some? { serialNumber := from.serialNumber; }
      if from.partNumber.Some? { partNumber := from.partNumber; }
      if from.description.Some? { description := from.description; }
      if from.ctype.Some? { ctype := from.ctype; }
    }

    method MergePresent(from: ComponentMessage)
      requires from != this
      modifies this`name, this`serialNumber, this`partNumber, this`description, this`ctype
      ensures var x, y := old(Value()), from.Value();
              Value() == x.(name := Or(x.name, y.name), serialNumber := Or(x.serialNumber, y.serialNumber),
                            partNumber := Or(x.partNumber, y.partNumber),
                            description := Or(x.description, y.description), ctype := Or(x.ctype, y.ctype))
      ensures from.Value() == old(from.Value())
    {
      hide InventoryKeyVal.Values;
      MergeScalars(from);
    }

    method MergeTexts(from: ComponentMessage)
      requires from != this
      modifies this`subComponents, this`unknown
      ensures var x, y := old(Value()), from.Value();
              Value() == x.(subComponents := x.subComponents + y.subComponents, unknown := x.unknown + y.unknown)
      ensures from.Value() == old(from.Value())
    {
      hide InventoryKeyVal.Values;
      subComponents := subComponents + from.subComponents;
      unknown := unknown + from.unknown;
    }

    /** The lists grow by copies; the other message shares none of them. */
    method MergeFrom(from: ComponentMessage)
      requires from != this
      modifies this
      ensures Value() == MergeComponent(old(Value()), from.Value()) && from.Value() == old(from.Value())
      ensures OwnsFresh()
    {
      hide Value;
      MergeProperties(from);
      MergeStates(from);
      MergeTexts(from);
      MergePresent(from);
    }

    method CopyFrom(from: ComponentMessage)
      modifies this
      ensures Value() == old(from.Value())
    {
      hide MergeComponent, InventoryKeyVal.Values;
      if from == this { return; }
      Clear();
      MergeNothing(from.Value());
      MergeFrom(from);
    }

    // ---- Size and writer ------------------------------------------------------------------------------

    method SizeOfScalars() returns (total: nat)
      ensures total == |ScalarBytes(Value())|
    {
      hide VarintSize, OptSize, ToU64, InventoryKeyVal.Values;
      total := 0;
      Absent();
      if name.Some? {
        FieldSize(BytesField(1, name.value));
        total := total + 1 + VarintSize(|name.value|) + |name.value|;
      }
      if serialNumber.Some? {
        FieldSize(VarintField(2, serialNumber.value));
        total := total + 1 + VarintSize(serialNumber.value);
      }
      if partNumber.Some? {
        FieldSize(VarintField(3, partNumber.value));
        total := total + 1 + VarintSize(partNumber.value);
      }
      if description.Some? {
        FieldSize(BytesField(4, description.value));
        total := total + 1 + VarintSize(|description.value|) + |description.value|;
      }
      if ctype.Some? {
        FieldSize(VarintField(5, ToU64(ctype.value)));
        total := total + 1 + VarintSize(ToU64(ctype.value));
      }
      hide ScalarBytes, BytesOf, NumberOf, EnumOf;
      ScalarSize(Value());
    }

    /** The sizes of the two lists; a sub-message in both would get the same size twice. */
    method SizeOfLists() returns (total: nat)
      modifies properties`cachedSize, operationalState`cachedSize
      ensures Value() == old(Value())
      ensures Fresh(InventoryKeyVal.Payloads(Value().properties), PropertySizes())
      ensures Fresh(InventoryKeyVal.Payloads(Value().operationalState), StateSizes())
      ensures total == |ListBytes(50, InventoryKeyVal.Payloads(Value().properties), PropertySizes())| +
                       |ListBytes(58, InventoryKeyVal.Payloads(Value().operationalState), StateSizes())|
    {
      hide InventoryKeyVal.Values, InventoryKeyVal.Sizes, InventoryKeyVal.Payloads, ListBytes, SerializeKeyVal;
      total := InventoryKeyVal.SizeOfKeyVals(50, properties);
      ghost var ss, sizes := InventoryKeyVal.Payloads(Value().properties), PropertySizes();
      var n := InventoryKeyVal.SizeOfKeyVals(58, operationalState);
      total := total + n;
      ghost var ts := InventoryKeyVal.Payloads(Value().operationalState);
      forall i | 0 <= i < |properties|
        ensures properties[i].cachedSize == sizes[i]
      {
        if properties[i] in operationalState {
          var k :| 0 <= k < |operationalState| && operationalState[k] == properties[i];
          assert StateSizes()[k] == |ts[k]|;
        }
      }
      assert PropertySizes() == sizes;
    }

    /** Afterwards the caches of the sub-messages are right. The value of the message does not change. */
    method ByteSize() returns (total: nat)
      modifies this`cachedSize, properties`cachedSize, operationalState`cachedSize
      ensures Value() == old(Value()) && total == cachedSize == |SerializeComponent(Value())|
      ensures Fresh(InventoryKeyVal.Payloads(Value().properties), PropertySizes())
      ensures Fresh(InventoryKeyVal.Payloads(Value().operationalState), StateSizes())
    {
      hide EncodeAll, StringsRecords, SerializeComponent, ScalarBytes, InventoryKeyVal.Values, InventoryKeyVal.Payloads;
      hide ListBytes, InventoryKeyVal.Sizes, Fresh;
      total := SizeOfScalars();
      var n := SizeOfLists();
      var c := SizeOfStrings(8, subComponents);
      total := total + n + c + |EncodeAll(unknown)|;
      WrittenIfFresh(Value(), PropertySizes(), StateSizes());
      cachedSize := total;
    }

    /** Writing changes neither the message nor its caches. */
    twostate predicate Unwritten()
      reads this, properties, operationalState
    {
      Value() == old(Value()) && properties == old(properties) && operationalState == old(operationalState) &&
      PropertySizes() == old(PropertySizes()) && StateSizes() == old(StateSizes())
    }

    method WriteLists(output: CodedOutputStream)
      modifies output
      ensures Unwritten()
      ensures output.out == old(output.out) +
                            ListBytes(50, InventoryKeyVal.Payloads(Value().properties), PropertySizes()) +
                            ListBytes(58, InventoryKeyVal.Payloads(Value().operationalState), StateSizes())
    {
      hide ListBytes, InventoryKeyVal.Values, InventoryKeyVal.Sizes, InventoryKeyVal.Payloads;
      InventoryKeyVal.WriteKeyVals(50, properties, output);
      InventoryKeyVal.WriteKeyVals(58, operationalState, output);
    }

    method WriteTexts(output: CodedOutputStream)
      modifies output
      ensures Unwritten()
      ensures output.out == old(output.out) + EncodeAll(StringsRecords(8, Value().subComponents)) +
                            EncodeAll(Value().unknown)
    {
      hide EncodeAll, StringsRecords, InventoryKeyVal.Values, InventoryKeyVal.Sizes;
      WriteStrings(8, subComponents, output);
      output.WriteRaw(EncodeAll(unknown));
    }

    method WriteKnown(output: CodedOutputStream)
      modifies output
      ensures Unwritten()
      ensures output.out == old(output.out) + ScalarBytes(Value()) +
                            ListBytes(50, InventoryKeyVal.Payloads(Value().properties), PropertySizes()) +
                            ListBytes(58, InventoryKeyVal.Payloads(Value().operationalState), StateSizes())
    {
      hide ScalarBytes, ListBytes, InventoryKeyVal.Values, InventoryKeyVal.Sizes, InventoryKeyVal.Payloads;
      WriteScalars(output);
      assert Unwritten();
      WriteLists(output);
    }

    lemma SizesFit()
      ensures |PropertySizes()| == |Value().properties| && |StateSizes()| == |Value().operationalState|
    {
    }

    /** The bytes depend on the caches of the sub-messages, not on their true sizes. */
    method SerializeWithCachedSizes(output: CodedOutputStream)
      modifies output
      ensures Unwritten()
      ensures output.out == old(output.out) + ComponentBytes(Value(), PropertySizes(), StateSizes())
    {
      hide EncodeAll, StringsRecords, ScalarBytes, ListBytes, Value, PropertySizes, StateSizes;
      hide InventoryKeyVal.Payloads;
      ghost var before, m := output.out, Value();
      SizesFit();
      ghost var p := ListBytes(50, InventoryKeyVal.Payloads(m.properties), PropertySizes());
      ghost var s := ListBytes(58, InventoryKeyVal.Payloads(m.operationalState), StateSizes());
      WriteKnown(output);
      WriteTexts(output);
      FiveInOrder(before, ScalarBytes(m), p, s, EncodeAll(StringsRecords(8, m.subComponents)), EncodeAll(m.unknown));
    }

    /** Size first, then write: how the library serialises a message. */
    method SerializeToStream(output: CodedOutputStream)
      modifies this`cachedSize, properties`cachedSize, operationalState`cachedSize, output
      ensures Value() == old(Value()) && output.out == old(output.out) + SerializeComponent(Value())
    {
      hide SerializeComponent, ComponentBytes, InventoryKeyVal.Payloads, Fresh, Value, PropertySizes, StateSizes;
      var n := ByteSize();
      SizesFit();
      SerializeWithCachedSizes(output);
      WrittenIfFresh(Value(), PropertySizes(), StateSizes());
    }

    method WriteScalars(output: CodedOutputStream)
      modifies output
      ensures output.out == old(output.out) + ScalarBytes(Value())
    {
      hide Encode, EncodeAll, Opt, InventoryKeyVal.Values;
      ghost var before, out0 := output.out, output.out;
      if name.Some? { output.WriteBytes(1, name.value); }
      OptWritten(before, BytesOf(1, name), output.out);
      before := output.out;
      if serialNumber.Some? { output.WriteNumber(2, serialNumber.value); }
      OptWritten(before, NumberOf(2, serialNumber), output.out);
      before := output.out;
      if partNumber.Some? { output.WriteNumber(3, partNumber.value); }
      OptWritten(before, NumberOf(3, partNumber), output.out);
      before := output.out;
      if description.Some? { output.WriteBytes(4, description.value); }
      OptWritten(before, BytesOf(4, description), output.out);
      before := output.out;
      if ctype.Some? { output.WriteNumber(5, ToU64(ctype.value)); }
      OptWritten(before, EnumOf(5, ctype), output.out);
      hide BytesOf, NumberOf, EnumOf;
      FiveInOrder(out0, EncodeAll(Opt(BytesOf(1, name))), EncodeAll(Opt(NumberOf(2, serialNumber))),
                  EncodeAll(Opt(NumberOf(3, partNumber))), EncodeAll(Opt(BytesOf(4, description))),
                  EncodeAll(Opt(EnumOf(5, ctype))));
    }

    // ---- The parser -----------------------------------------------------------------------------------

    /** What holds after a block ended in a jump, `goal` being what the plain loop does from its start. */
    ghost predicate Jumped(j: Jump<Label>, goal: Outcome<Component>, input: CodedInputStream, limit: nat, depth: nat)
      reads this`name, this`serialNumber, this`partNumber, this`description, this`ctype
      reads this`properties, this`operationalState, this`subComponents, this`unknown
      reads properties`key, properties`intValue, properties`strValue, properties`unknown
      reads operationalState`key, operationalState`intValue, operationalState`strValue, operationalState`unknown
      reads input
    {
      match j
      case Failure => goal == Failed
      case Success => Agrees(goal, true, Value(), input, limit, depth)
      case Goto(at) => AtLabel(goal, HandleComponent, at.Tag(), at.Charged(), Value(), input, limit, depth)
    }

    // ---- Reading one field ------------------------------------------------------------------------

    method ReadName(input: CodedInputStream, ghost depth: nat) returns (ok: bool)
      requires input.Valid() && input.budget == depth
      modifies this, input
      ensures FieldRead(AfterTag(HandleComponent, old(Value()), 10, old(input.Rest()), depth),
                        HandleComponent, ok, Value(), input, old(input.Rest()),
                        old(input.limit), old(input.budget), depth)
      ensures OwnsFresh()
    {
      hide Parse, AfterTag, InventoryKeyVal.Values, Nested;
      TurnBytes(HandleComponent, Value(), 10, input.Rest(), depth);
      var s;
      ok, s := input.ReadString();
      if ok { name := Some(s); }
    }

    method ReadSerialNumber(input: CodedInputStream, ghost depth: nat) returns (ok: bool)
      requires input.Valid() && input.budget == depth
      modifies this, input
      ensures FieldRead(AfterTag(HandleComponent, old(Value()), 16, old(input.Rest()), depth),
                        HandleComponent, ok, Value(), input, old(input.Rest()),
                        old(input.limit), old(input.budget), depth)
      ensures OwnsFresh()
    {
      hide Parse, AfterTag, InventoryKeyVal.Values, Nested;
      TurnVarint(HandleComponent, Value(), 16, input.Rest(), depth);
      var v;
      ok, v := input.ReadVarint64();
      if ok { serialNumber := Some(v % TWO32); }
    }

    method ReadPartNumber(input: CodedInputStream, ghost depth: nat) returns (ok: bool)
      requires input.Valid() && input.budget == depth
      modifies this, input
      ensures FieldRead(AfterTag(HandleComponent, old(Value()), 24, old(input.Rest()), depth),
                        HandleComponent, ok, Value(), input, old(input.Rest()),
                        old(input.limit), old(input.budget), depth)
      ensures OwnsFresh()
    {
      hide Parse, AfterTag, InventoryKeyVal.Values, Nested;
      TurnVarint(HandleComponent, Value(), 24, input.Rest(), depth);
      var v;
      ok, v := input.ReadVarint64();
      if ok { partNumber := Some(v % TWO32); }
    }

    method ReadDescription(input: CodedInputStream, ghost depth: nat) returns (ok: bool)
      requires input.Valid() && input.budget == depth
      modifies this, input
      ensures FieldRead(AfterTag(HandleComponent, old(Value()), 34, old(input.Rest()), depth),
                        HandleComponent, ok, Value(), input, old(input.Rest()),
                        old(input.limit), old(input.budget), depth)
      ensures OwnsFresh()
    {
      hide Parse, AfterTag, InventoryKeyVal.Values, Nested;
      TurnBytes(HandleComponent, Value(), 34, input.Rest(), depth);
      var s;
      ok, s := input.ReadString();
      if ok { description := Some(s); }
    }

    method ReadType(input: CodedInputStream, ghost depth: nat) returns (ok: bool)
      requires input.Valid() && input.budget == depth
      modifies this, input
      ensures FieldRead(AfterTag(HandleComponent, old(Value()), 40, old(input.Rest()), depth),
                        HandleComponent, ok, Value(), input, old(input.Rest()),
                        old(input.limit), old(input.budget), depth)
      ensures OwnsFresh()
    {
      hide Parse, AfterTag, InventoryKeyVal.Values, Nested, ToI32, ToU64;
      TurnVarint(HandleComponent, Value(), 40, input.Rest(), depth);
      var v;
      ok, v := input.ReadVarint64();
      if ok {
        var t := ToI32(v);
        if ComponentTypeIsValid(t) { ctype := Some(t); } else { unknown := unknown + [VarintField(5, ToU64(t))]; }
      }
    }

    method AddProperty(input: CodedInputStream, ghost depth: nat) returns (ok: bool)
      requires input.Valid() && input.budget == depth - 1 && depth > 0
      modifies this, input
      ensures FieldRead(AfterTag(HandleComponent, old(Value()), 50, old(input.Rest()), depth),
                        HandleComponent, ok, Value(), input, old(input.Rest()),
                        old(input.limit), old(input.budget), depth)
      ensures OwnsFresh()
    {
      hide Parse, AfterTag, Whole, HandleComponent, ReadBytes, HandleKeyVal, InventoryKeyVal.Values;
      OnKeyVal(Value(), depth);
      TurnBytes(HandleComponent, Value(), 50, input.Rest(), depth);
      var x;
      ok, x := InventoryKeyVal.ReadKeyVal(input);
      if !ok { return; }
      InventoryKeyVal.ValuesSnoc(properties, x);
      properties := properties + [x];
    }

    method AddOperationalState(input: CodedInputStream, ghost depth: nat) returns (ok: bool)
      requires input.Valid() && input.budget == depth - 1 && depth > 0
      modifies this, input
      ensures FieldRead(AfterTag(HandleComponent, old(Value()), 58, old(input.Rest()), depth),
                        HandleComponent, ok, Value(), input, old(input.Rest()),
                        old(input.limit), old(input.budget), depth)
      ensures OwnsFresh()
    {
      hide Parse, AfterTag, Whole, HandleComponent, ReadBytes, HandleKeyVal, InventoryKeyVal.Values;
      OnKeyVal(Value(), depth);
      TurnBytes(HandleComponent, Value(), 58, input.Rest(), depth);
      var x;
      ok, x := InventoryKeyVal.ReadKeyVal(input);
      if !ok { return; }
      InventoryKeyVal.ValuesSnoc(operationalState, x);
      operationalState := operationalState + [x];
    }

    method AddSubComponent(input: CodedInputStream, ghost depth: nat) returns (ok: bool)
      requires input.Valid() && input.budget == depth
      modifies this, input
      ensures FieldRead(AfterTag(HandleComponent, old(Value()), 66, old(input.Rest()), depth),
                        HandleComponent, ok, Value(), input, old(input.Rest()),
                        old(input.limit), old(input.budget), depth)
      ensures OwnsFresh()
    {
      hide Parse, AfterTag, InventoryKeyVal.Values, Nested;
      TurnBytes(HandleComponent, Value(), 66, input.Rest(), depth);
      var s;
      ok, s := input.ReadString();
      if ok { subComponents := subComponents + [s]; }
    }

    /** A tag that is not dispatched on becomes an unknown field. */
    method KeepUnknown(input: CodedInputStream, tag: uint32, ghost depth: nat) returns (ok: bool)
      requires input.Valid() && input.budget == depth && tag !in [0, 10, 16, 24, 34, 40, 50, 58, 66]
      requires !IsEndGroup(tag)
      modifies this, input
      ensures FieldRead(AfterTag(HandleComponent, old(Value()), tag, old(input.Rest()), depth),
                        HandleComponent, ok, Value(), input, old(input.Rest()),
                        old(input.limit), old(input.budget), depth)
      ensures OwnsFresh()
    {
      hide Parse, AfterTag, HandleComponent, InventoryKeyVal.Values;
      var r;
      ok, r := ReadField(input, HandleComponent, Value(), tag);
      if ok {
        Unrecognised(Value(), r, depth);
        unknown := unknown + [r];
      }
    }

    // ---- The blocks between the jumps ------------------------------------------------------------

    method BlockNextTag(input: CodedInputStream, ghost depth: nat) returns (j: Jump<Label>)
      requires Ready(input, NextTag.Charged(), depth)
      modifies this, input
      ensures Jumped(j, old(Resume(HandleComponent, 0, Value(), input.Rest(), depth)), input, old(input.limit), depth)
      ensures j.Goto? ==> |input.Rest()| < |old(input.Rest())|
      ensures OwnsFresh()
    {
      hide Parse, AfterTag, HandleComponent, InventoryKeyVal.Values, Value;
      var tag, small := TopOfLoop(input, HandleComponent, Value(), depth);
      if small && tag == 10 {
        j := Goto(ParseName);
      } else if small && tag == 16 {
        j := Goto(ParseSerialNumber);
      } else if small && tag == 24 {
        j := Goto(ParsePartNumber);
      } else if small && tag == 34 {
        j := Goto(ParseDescription);
      } else if small && tag == 40 {
        j := Goto(ParseType);
      } else if small && tag == 50 {
        j := Goto(ParseProperties);
      } else if small && tag == 58 {
        var ok := input.IncrementRecursionDepth();
        if !ok { NoBudget(Value(), tag, input.Rest()); return Failure; }
        j := Goto(LoopOperationalState);
      } else if small && tag == 66 {
        j := Goto(ParseSubComponents);
      } else {
        if tag == 0 || IsEndGroup(tag) { return Success; }
        var ok := KeepUnknown(input, tag, depth);
        j := if ok then Goto(NextTag) else Failure;
      }
    }

    method BlockParseName(input: CodedInputStream, ghost depth: nat) returns (j: Jump<Label>)
      requires Ready(input, ParseName.Charged(), depth)
      modifies this, input
      ensures Jumped(j, old(Resume(HandleComponent, 10, Value(), input.Rest(), depth)), input, old(input.limit), depth)
      ensures j.Goto? ==> |input.Rest()| < |old(input.Rest())|
      ensures OwnsFresh()
    {
      hide Parse, AfterTag, HandleComponent, InventoryKeyVal.Values, Value;
      var ok := ReadName(input, depth);
      if !ok { return Failure; }
      var hit := Predict(input, HandleComponent, Value(), depth, 16);
      j := Goto(if hit then ParseSerialNumber else NextTag);
    }

    method BlockParseSerialNumber(input: CodedInputStream, ghost depth: nat) returns (j: Jump<Label>)
      requires Ready(input, ParseSerialNumber.Charged(), depth)
      modifies this, input
      ensures Jumped(j, old(Resume(HandleComponent, 16, Value(), input.Rest(), depth)), input, old(input.limit), depth)
      ensures j.Goto? ==> |input.Rest()| < |old(input.Rest())|
      ensures OwnsFresh()
    {
      hide Parse, AfterTag, HandleComponent, InventoryKeyVal.Values, Value;
      var ok := ReadSerialNumber(input, depth);
      if !ok { return Failure; }
      var hit := Predict(input, HandleComponent, Value(), depth, 24);
      j := Goto(if hit then ParsePartNumber else NextTag);
    }

    method BlockParsePartNumber(input: CodedInputStream, ghost depth: nat) returns (j: Jump<Label>)
      requires Ready(input, ParsePartNumber.Charged(), depth)
      modifies this, input
      ensures Jumped(j, old(Resume(HandleComponent, 24, Value(), input.Rest(), depth)), input, old(input.limit), depth)
      ensures j.Goto? ==> |input.Rest()| < |old(input.Rest())|
      ensures OwnsFresh()
    {
      hide Parse, AfterTag, HandleComponent, InventoryKeyVal.Values, Value;
      var ok := ReadPartNumber(input, depth);
      if !ok { return Failure; }
      var hit := Predict(input, HandleComponent, Value(), depth, 34);
      j := Goto(if hit then ParseDescription else NextTag);
    }

    method BlockParseDescription(input: CodedInputStream, ghost depth: nat) returns (j: Jump<Label>)
      requires Ready(input, ParseDescription.Charged(), depth)
      modifies this, input
      ensures Jumped(j, old(Resume(HandleComponent, 34, Value(), input.Rest(), depth)), input, old(input.limit), depth)
      ensures j.Goto? ==> |input.Rest()| < |old(input.Rest())|
      ensures OwnsFresh()
    {
      hide Parse, AfterTag, HandleComponent, InventoryKeyVal.Values, Value;
      var ok := ReadDescription(input, depth);
      if !ok { return Failure; }
      var hit := Predict(input, HandleComponent, Value(), depth, 40);
      j := Goto(if hit then ParseType else NextTag);
    }

    method BlockParseType(input: CodedInputStream, ghost depth: nat) returns (j: Jump<Label>)
      requires Ready(input, ParseType.Charged(), depth)
      modifies this, input
      ensures Jumped(j, old(Resume(HandleComponent, 40, Value(), input.Rest(), depth)), input, old(input.limit), depth)
      ensures j.Goto? ==> |input.Rest()| < |old(input.Rest())|
      ensures OwnsFresh()
    {
      hide Parse, AfterTag, HandleComponent, InventoryKeyVal.Values, Value;
      var ok := ReadType(input, depth);
      if !ok { return Failure; }
      var hit := Predict(input, HandleComponent, Value(), depth, 50);
      j := Goto(if hit then ParseProperties else NextTag);
    }

    method BlockParseProperties(input: CodedInputStream, ghost depth: nat) returns (j: Jump<Label>)
      requires Ready(input, ParseProperties.Charged(), depth)
      modifies this, input
      ensures Jumped(j, old(Resume(HandleComponent, 50, Value(), input.Rest(), depth)), input, old(input.limit), depth)
      ensures j.Goto? ==> input.Rest() == old(input.Rest()) && j.at.LoopProperties?
      ensures OwnsFresh()
    {
      hide Parse, AfterTag, HandleComponent, InventoryKeyVal.Values, Value;
      var ok := input.IncrementRecursionDepth();
      if !ok { NoBudget(Value(), 50, input.Rest()); return Failure; }
      j := Goto(LoopProperties);
    }

    method BlockLoopProperties(input: CodedInputStream, ghost depth: nat) returns (j: Jump<Label>)
      requires Ready(input, LoopProperties.Charged(), depth)
      modifies this, input
      ensures Jumped(j, old(Resume(HandleComponent, 50, Value(), input.Rest(), depth)), input, old(input.limit), depth)
      ensures j.Goto? ==> |input.Rest()| < |old(input.Rest())|
      ensures OwnsFresh()
    {
      hide Parse, AfterTag, HandleComponent, InventoryKeyVal.Values, Value;
      var ok := AddProperty(input, depth);
      if !ok { return Failure; }
      var hit := Predict(input, HandleComponent, Value(), depth, 50);
      if hit { return Goto(LoopProperties); }
      hit := Predict(input, HandleComponent, Value(), depth, 58);
      if hit { return Goto(LoopOperationalState); }
      input.UnsafeDecrementRecursionDepth();
      j := Goto(NextTag);
    }

    method BlockLoopOperationalState(input: CodedInputStream, ghost depth: nat) returns (j: Jump<Label>)
      requires Ready(input, LoopOperationalState.Charged(), depth)
      modifies this, input
      ensures Jumped(j, old(Resume(HandleComponent, 58, Value(), input.Rest(), depth)), input, old(input.limit), depth)
      ensures j.Goto? ==> |input.Rest()| < |old(input.Rest())|
      ensures OwnsFresh()
    {
      hide Parse, AfterTag, HandleComponent, InventoryKeyVal.Values, Value;
      var ok := AddOperationalState(input, depth);
      if !ok { return Failure; }
      var hit := Predict(input, HandleComponent, Value(), depth, 58);
      if hit { return Goto(LoopOperationalState); }
      input.UnsafeDecrementRecursionDepth();
      hit := Predict(input, HandleComponent, Value(), depth, 66);
      j := Goto(if hit then ParseSubComponents else NextTag);
    }

    method BlockParseSubComponents(input: CodedInputStream, ghost depth: nat) returns (j: Jump<Label>)
      requires Ready(input, ParseSubComponents.Charged(), depth)
      modifies this, input
      ensures Jumped(j, old(Resume(HandleComponent, 66, Value(), input.Rest(), depth)), input, old(input.limit), depth)
      ensures j.Goto? ==> |input.Rest()| < |old(input.Rest())|
      ensures OwnsFresh()
    {
      hide Parse, AfterTag, HandleComponent, InventoryKeyVal.Values, Value;
      var ok := AddSubComponent(input, depth);
      if !ok { return Failure; }
      var hit := Predict(input, HandleComponent, Value(), depth, 66);
      if hit { return Goto(ParseSubComponents); }
      hit := input.ExpectAtEnd();
      if hit { TurnAtEnd(HandleComponent, Value(), input.Rest(), depth); return Success; }
      j := Goto(NextTag);
    }

    /** For every byte string and every way the predictions may answer: the verdict, the message,
        the leftover input and the recursion budget are those of the plain loop. Every turn consumes
        input, or enters a loop of sub-messages, or leaves. */
    method MergePartialFromCodedStream(input: CodedInputStream) returns (ok: bool)
      requires input.Valid() && input.budget >= 0
      modifies this, input
      ensures Agrees(Parse(HandleComponent, old(Value()), old(input.Rest()), old(input.budget)), ok, Value(), input,
                     old(input.limit), old(input.budget))
      ensures OwnsFresh()
    {
      hide Parse, AfterTag, HandleComponent, InventoryKeyVal.Values, Value;
      ghost var depth: nat := input.budget;
      ghost var goal := Parse(HandleComponent, Value(), input.Rest(), depth);
      var j := Goto(NextTag);
      while j.Goto?
        invariant Jumped(j, goal, input, old(input.limit), depth) && OwnsFresh()
        decreases if j.Goto? then 1 else 0, if j.Goto? then |input.Rest()| else 0,
                  if j.Goto? && j.at.ParseProperties? then 1 else 0
      {
        match j.at
        case NextTag => j := BlockNextTag(input, depth);
        case ParseName => j := BlockParseName(input, depth);
        case ParseSerialNumber => j := BlockParseSerialNumber(input, depth);
        case ParsePartNumber => j := BlockParsePartNumber(input, depth);
        case ParseDescription => j := BlockParseDescription(input, depth);
        case ParseType => j := BlockParseType(input, depth);
        case ParseProperties => j := BlockParseProperties(input, depth);
        case LoopProperties => j := BlockLoopProperties(input, depth);
        case LoopOperationalState => j := BlockLoopOperationalState(input, depth);
        case ParseSubComponents => j := BlockParseSubComponents(input, depth);
      }
      ok := j.Success?;
    }
  }

  // ---- Sizes and bytes of the parts -----------------------------------------------------------------------

  function ScalarBytes(m: Component): bytes
  {
    EncodeAll(Opt(BytesOf(1, m.name))) + EncodeAll(Opt(NumberOf(2, m.serialNumber))) +
    EncodeAll(Opt(NumberOf(3, m.partNumber))) + EncodeAll(Opt(BytesOf(4, m.description))) +
    EncodeAll(Opt(EnumOf(5, m.ctype)))
  }

  lemma FiveInOrder(before: bytes, a: bytes, b: bytes, c: bytes, d: bytes, e: bytes)
    ensures before + a + b + c + d + e == before + (a + b + c + d + e)
  {
    ConcatAssoc(before, a, b);
    ConcatAssoc(before, a + b, c);
    ConcatAssoc(before, a + b + c, d);
    ConcatAssoc(before, a + b + c + d, e);
  }

  lemma ComponentParts(m: Component)
    ensures SerializeComponent(m) == ScalarBytes(m) + EncodeAll(KeyValsRecords(6, m.properties)) +
                                     EncodeAll(KeyValsRecords(7, m.operationalState)) +
                                     EncodeAll(StringsRecords(8, m.subComponents)) + EncodeAll(m.unknown)
  {
    var a, b, c := Opt(BytesOf(1, m.name)), Opt(NumberOf(2, m.serialNumber)), Opt(NumberOf(3, m.partNumber));
    var d, e := Opt(BytesOf(4, m.description)), Opt(EnumOf(5, m.ctype));
    var p, q := KeyValsRecords(6, m.properties), KeyValsRecords(7, m.operationalState);
    var s := StringsRecords(8, m.subComponents);
    hide EncodeAll, KeyValsRecords, StringsRecords, Opt, BytesOf, NumberOf, EnumOf;
    EncodeAppend(s, m.unknown);
    EncodeAppend(q, s + m.unknown);
    EncodeAppend(p, q + (s + m.unknown));
    EncodeAppend(e, p + (q + (s + m.unknown)));
    EncodeAppend(d, e + (p + (q + (s + m.unknown))));
    EncodeAppend(c, d + (e + (p + (q + (s + m.unknown)))));
    EncodeAppend(b, c + (d + (e + (p + (q + (s + m.unknown))))));
    EncodeAppend(a, b + (c + (d + (e + (p + (q + (s + m.unknown)))))));
    NineInOrder(EncodeAll(a), EncodeAll(b), EncodeAll(c), EncodeAll(d), EncodeAll(e), EncodeAll(p), EncodeAll(q),
                EncodeAll(s), EncodeAll(m.unknown));
  }

  lemma NineInOrder(a: bytes, b: bytes, c: bytes, d: bytes, e: bytes, p: bytes, q: bytes, s: bytes, u: bytes)
    ensures a + (b + (c + (d + (e + (p + (q + (s + u))))))) == a + b + c + d + e + p + q + s + u
  {
    ConcatAssoc(a + b + c + d + e + p + q, s, u);
    ConcatAssoc(a + b + c + d + e + p, q, s + u);
    ConcatAssoc(a + b + c + d + e, p, q + (s + u));
    ConcatAssoc(a + b + c + d, e, p + (q + (s + u)));
    ConcatAssoc(a + b + c, d, e + (p + (q + (s + u))));
    ConcatAssoc(a + b, c, d + (e + (p + (q + (s + u)))));
    ConcatAssoc(a, b, c + (d + (e + (p + (q + (s + u))))));
  }

  lemma ScalarSize(m: Component)
    ensures |ScalarBytes(m)|
         == OptSize(BytesOf(1, m.name)) + OptSize(NumberOf(2, m.serialNumber)) + OptSize(NumberOf(3, m.partNumber)) +
            OptSize(BytesOf(4, m.description)) + OptSize(EnumOf(5, m.ctype))
  {
    hide EncodeAll, Opt, BytesOf, NumberOf, EnumOf, OptSize;
    OptSizeIs(BytesOf(1, m.name));
    OptSizeIs(NumberOf(2, m.serialNumber));
    OptSizeIs(NumberOf(3, m.partNumber));
    OptSizeIs(BytesOf(4, m.description));
    OptSizeIs(EnumOf(5, m.ctype));
  }

  /** What the writer writes, given the cached sizes of the sub-messages. */
  function ComponentBytes(m: Component, ps: seq<nat>, os: seq<nat>): bytes
    requires |ps| == |m.properties| && |os| == |m.operationalState|
  {
    ScalarBytes(m) + ListBytes(50, InventoryKeyVal.Payloads(m.properties), ps) +
    ListBytes(58, InventoryKeyVal.Payloads(m.operationalState), os) + EncodeAll(StringsRecords(8, m.subComponents)) +
    EncodeAll(m.unknown)
  }

  lemma WrittenIfFresh(m: Component, ps: seq<nat>, os: seq<nat>)
    requires |ps| == |m.properties| && |os| == |m.operationalState|
    requires Fresh(InventoryKeyVal.Payloads(m.properties), ps)
    requires Fresh(InventoryKeyVal.Payloads(m.operationalState), os)
    ensures ComponentBytes(m, ps, os) == SerializeComponent(m)
  {
    hide ScalarBytes, ListBytes, EncodeAll, KeyValsRecords, StringsRecords, SerializeComponent, Fresh;
    hide InventoryKeyVal.Payloads;
    ComponentParts(m);
    InventoryKeyVal.PayloadRecords(6, m.properties);
    InventoryKeyVal.PayloadRecords(7, m.operationalState);
    ListFresh(6, InventoryKeyVal.Payloads(m.properties), ps);
    ListFresh(7, InventoryKeyVal.Payloads(m.operationalState), os);
  }

  /** The writer's output is the serialised message exactly when every cached size is right, in both lists. */
  lemma WrittenIffFresh(m: Component, ps: seq<nat>, os: seq<nat>)
    requires |ps| == |m.properties| && |os| == |m.operationalState|
    ensures ComponentBytes(m, ps, os) == SerializeComponent(m)
        <==> Fresh(InventoryKeyVal.Payloads(m.properties), ps) &&
             Fresh(InventoryKeyVal.Payloads(m.operationalState), os)
  {
    hide ScalarBytes, ListBytes, StringsRecords, EncodeAll, SerializeComponent, InventoryKeyVal.Payloads;
    var ss, ts := InventoryKeyVal.Payloads(m.properties), InventoryKeyVal.Payloads(m.operationalState);
    var qs, rs := Lengths(ss), Lengths(ts);
    SameAsLengths(ss, ps);
    SameAsLengths(ts, os);
    hide Fresh, Lengths;
    WrittenIfFresh(m, qs, rs);
    if ComponentBytes(m, ps, os) == SerializeComponent(m) {
      var a, u, v := ScalarBytes(m), EncodeAll(StringsRecords(8, m.subComponents)), EncodeAll(m.unknown);
      SameTails(a, ListBytes(50, ss, ps), ListBytes(58, ts, os), ListBytes(50, ss, qs), ListBytes(58, ts, rs), u, v);
      ListInjective(50, ss, ps, qs, ListBytes(58, ts, os) + (u + v), ListBytes(58, ts, rs) + (u + v));
      ListInjective(58, ts, os, rs, u + v, u + v);
    }
  }

  lemma SameTails(a: bytes, p: bytes, o: bytes, q: bytes, r: bytes, u: bytes, v: bytes)
    requires a + p + o + u + v == a + q + r + u + v
    ensures p + (o + (u + v)) == q + (r + (u + v))
  {
    FromLeft(a, p, o, u, v);
    FromLeft(a, q, r, u, v);
    var x, y := p + (o + (u + v)), q + (r + (u + v));
    assert x == (a + x)[|a|..] && y == (a + y)[|a|..];
  }

  lemma FromLeft(a: bytes, p: bytes, o: bytes, u: bytes, v: bytes)
    ensures a + p + o + u + v == a + (p + (o + (u + v)))
  {
    ConcatAssoc(a + p + o, u, v);
    ConcatAssoc(a + p, o, u + v);
    ConcatAssoc(a, p, o + (u + v));
  }

  lemma StringsUnfold(num: nat, ss: seq<bytes>, i: nat)
    requires i < |ss|
    ensures EncodeAll(StringsRecords(num, ss[i..]))
         == Encode(BytesField(num, ss[i])) + EncodeAll(StringsRecords(num, ss[i + 1..]))
  {
    hide Encode;
    assert ss[i..][1..] == ss[i + 1..];
    var r, rest := BytesField(num, ss[i]), StringsRecords(num, ss[i + 1..]);
    assert ([r] + rest)[1..] == rest;
  }

  lemma NoneLeft(num: nat)
    ensures EncodeAll(StringsRecords(num, [])) == []
  {
  }

  lemma DelimitedSize(num: nat, s: bytes)
    requires 0 < num < 16
    ensures |Encode(BytesField(num, s))| == 1 + VarintSize(|s|) + |s|
  {
    OneByteTag(BytesField(num, s));
  }

  method SizeOfStrings(num: nat, ss: seq<bytes>) returns (total: nat)
    requires 0 < num < 16
    ensures total == |EncodeAll(StringsRecords(num, ss))|
  {
    hide VarintSize, Encode, EncodeAll, StringsRecords;
    total := |ss|;
    assert ss[0..] == ss;
    for i := 0 to |ss|
      invariant total + |EncodeAll(StringsRecords(num, ss[i..]))| == |EncodeAll(StringsRecords(num, ss))| + |ss| - i
    {
      StringsUnfold(num, ss, i);
      DelimitedSize(num, ss[i]);
      total := total + VarintSize(|ss[i]|) + |ss[i]|;
    }
    assert ss[|ss|..] == [];
    NoneLeft(num);
  }

  method WriteStrings(num: nat, ss: seq<bytes>, output: CodedOutputStream)
    modifies output
    ensures output.out == old(output.out) + EncodeAll(StringsRecords(num, ss))
  {
    hide Encode, EncodeAll, StringsRecords;
    assert ss[0..] == ss;
    for i := 0 to |ss|
      invariant output.out + EncodeAll(StringsRecords(num, ss[i..]))
             == old(output.out) + EncodeAll(StringsRecords(num, ss))
    {
      ghost var before := output.out;
      StringsUnfold(num, ss, i);
      output.WriteBytes(num, ss[i]);
      ConcatAssoc(before, Encode(BytesField(num, ss[i])), EncodeAll(StringsRecords(num, ss[i + 1..])));
    }
    assert ss[|ss|..] == [];
    NoneLeft(num);
    assert output.out + [] == output.out;
  }

  /** Without recursion budget a sub-message fails in the plain loop too. */
  lemma NoBudget(m: Component, tag: nat, bs: bytes)
    requires tag == 50 || tag == 58
    ensures AfterTag(HandleComponent, m, tag, bs, 0) == Failed
  {
    hide Parse, AfterTag;
    TurnBytes(HandleComponent, m, tag, bs, 0);
  }

  /** How the plain loop takes the two lists of sub-messages. */
  lemma OnKeyVal(m: Component, depth: nat)
    requires depth > 0
    ensures forall s :: HandleComponent(m, BytesField(6, s), depth)
                     == match Whole(HandleKeyVal, EMPTY_KEY_VAL, s, depth - 1)
                        case None => None case Some(x) => Some(m.(properties := m.properties + [x]))
    ensures forall s :: HandleComponent(m, BytesField(7, s), depth)
                     == match Whole(HandleKeyVal, EMPTY_KEY_VAL, s, depth - 1)
                        case None => None case Some(x) => Some(m.(operationalState := m.operationalState + [x]))
  {
  }

  /** Records with other tags are not fields of this message. */
  lemma Unrecognised(m: Component, r: Record, depth: nat)
    requires TagOf(r) !in [10, 16, 24, 34, 40, 50, 58, 66]
    ensures HandleComponent(m, r, depth) == Some(m.(unknown := m.unknown + [r]))
  {
  }
}
