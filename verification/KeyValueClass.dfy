/** telemetry.KeyValue as the generated class: fields changed in place, a oneof, a cached size. */
module KeyValueClass {
  import opened Wire
  import opened Records
  import opened PlainLoop
  import opened Proto3
  import opened Utf8
  import opened CodedStream
  import opened CodedOutput
  import opened PredictedLoop
  import opened Proto3Writer
  import opened TelemetryData

  datatype Label =
    | NextTag
    | ParseKey
    | ParseDouble
    | ParseInt
    | ParseUint
    | ParseSint
    | ParseBool
    | ParseStr
    | ParseBytes
  {
    /** The tag that has been consumed when control is here; 0 at the top of the loop. */
    function Tag(): nat
    {
      match this
      case NextTag => 0
      case ParseKey => 10
      case ParseDouble => 41
      case ParseInt => 48
      case ParseUint => 56
      case ParseSint => 64
      case ParseBool => 72
      case ParseStr => 82
      case ParseBytes => 90
    }

    /** No label of this parser lies inside a loop over sub-messages. */
    predicate Charged() { false }
  }

  /** The member of the oneof that a case number and the storage behind it stand for. */
  function Member(valueCase: nat, word: uint64, text: bytes): Value
  {
    if valueCase == 5 then DoubleValue(word)
    else if valueCase == 6 then IntValue(ToI64(word))
    else if valueCase == 7 then UintValue(word)
    else if valueCase == 8 then SintValue(ToI64(word))
    else if valueCase == 9 then BoolValue(word != 0)
    else if valueCase == 10 then StrValue(text)
    else if valueCase == 11 then BytesValue(text)
    else NotSet
  }

  class KeyValueMessage {
    var key: bytes
    /** The field number of the member that is set, or 0; the numbers share one word, the strings one pointer. */
    var valueCase: nat
    var word: uint64
    var text: bytes
    var cachedSize: nat

    function Value(): KeyValue
      reads this`key, this`valueCase, this`word, this`text
    {
      KeyValue(key, Member(valueCase, word, text))
    }

    constructor ()
      ensures Value() == EMPTY_KEY_VALUE
    {
      key, valueCase, word, text, cachedSize := [], 0, 0, [], 0;
    }

    /** Whatever member is set is unset; a string is given up. */
    method ClearValue()
      modifies this`valueCase, this`text
      ensures Value() == old(Value()).(value := NotSet) && valueCase == 0
    {
      if valueCase == 10 || valueCase == 11 { text := []; }
      valueCase := 0;
    }

    method Clear()
      modifies this`key, this`valueCase, this`text
      ensures Value() == EMPTY_KEY_VALUE
    {
      key := [];
      ClearValue();
    }

    method SetKey(s: bytes)
      modifies this`key
      ensures Value() == old(Value()).(key := s)
    {
      key := s;
    }

    method SetDoubleValue(bits: uint64)
      modifies this`valueCase, this`word, this`text
      ensures Value() == old(Value()).(value := DoubleValue(bits))
    {
      if valueCase != 5 {
        ClearValue();
        valueCase := 5;
      }
      word := bits;
    }

    method SetIntValue(i: int64)
      modifies this`valueCase, this`word, this`text
      ensures Value() == old(Value()).(value := IntValue(i))
    {
      if valueCase != 6 {
        ClearValue();
        valueCase := 6;
      }
      word := ToU64(i);
    }

    method SetUintValue(u: uint64)
      modifies this`valueCase, this`word, this`text
      ensures Value() == old(Value()).(value := UintValue(u))
    {
      if valueCase != 7 {
        ClearValue();
        valueCase := 7;
      }
      word := u;
    }

    method SetSintValue(z: int64)
      modifies this`valueCase, this`word, this`text
      ensures Value() == old(Value()).(value := SintValue(z))
    {
      if valueCase != 8 {
        ClearValue();
        valueCase := 8;
      }
      word := ToU64(z);
    }

    method SetBoolValue(b: bool)
      modifies this`valueCase, this`word, this`text
      ensures Value() == old(Value()).(value := BoolValue(b))
    {
      if valueCase != 9 {
        ClearValue();
        valueCase := 9;
      }
      word := if b then 1 else 0;
    }

    method SetStrValue(s: bytes)
      modifies this`valueCase, this`word, this`text
      ensures Value() == old(Value()).(value := StrValue(s))
    {
      if valueCase != 10 {
        ClearValue();
        valueCase := 10;
      }
      text := s;
    }

    method SetBytesValue(s: bytes)
      modifies this`valueCase, this`word, this`text
      ensures Value() == old(Value()).(value := BytesValue(s))
    {
      if valueCase != 11 {
        ClearValue();
        valueCase := 11;
      }
      text := s;
    }

    /** Setting one member of the oneof unsets the others. */
    method SetValue(v: Value)
      requires !v.NotSet?
      modifies this`valueCase, this`word, this`text
      ensures Value() == old(Value()).(value := v)
    {
      match v {
        case DoubleValue(bits) => SetDoubleValue(bits);
        case IntValue(i) => SetIntValue(i);
        case UintValue(u) => SetUintValue(u);
        case SintValue(z) => SetSintValue(z);
        case BoolValue(b) => SetBoolValue(b);
        case StrValue(s) => SetStrValue(s);
        case BytesValue(s) => SetBytesValue(s);
      }
    }

    /** Merging a message into itself is a fatal error in the source. */
    method MergeFrom(from: KeyValueMessage)
      requires from != this
      modifies this`key, this`valueCase, this`word, this`text
      ensures Value() == MergeKeyValue(old(Value()), from.Value())
    {
      MergeValue(from);
      if |from.key| > 0 { key := from.key; }
    }

    method MergeValue(from: KeyValueMessage)
      requires from != this
      modifies this`valueCase, this`word, this`text
      ensures Value() == old(Value()).(value := if from.Value().value.NotSet? then old(Value()).value
                                               else from.Value().value)
    {
      if from.valueCase == 5 {
        SetDoubleValue(from.word);
      } else if from.valueCase == 6 {
        SetIntValue(ToI64(from.word));
      } else if from.valueCase == 7 {
        SetUintValue(from.word);
      } else if from.valueCase == 8 {
        SetSintValue(ToI64(from.word));
      } else if from.valueCase == 9 {
        SetBoolValue(from.word != 0);
      } else if from.valueCase == 10 {
        SetStrValue(from.text);
      } else if from.valueCase == 11 {
        SetBytesValue(from.text);
      }
    }

    method CopyFrom(from: KeyValueMessage)
      modifies this`key, this`valueCase, this`word, this`text
      ensures Value() == old(from.Value())
    {
      if from == this { return; }
      Clear();
      MergeFrom(from);
    }

    // ---- Size and writers ---------------------------------------------------------------------------

    /** The size is computed, not measured, and it is the length of what will be written. */
    method ByteSize() returns (total: nat)
      modifies this`cachedSize
      ensures total == cachedSize == |SerializeKeyValue(Value())|
    {
      hide VarintSize, SerializeKeyValue, Zigzag;
      total := 0;
      WordBack(word);
      BoolSize();
      if |key| > 0 { total := total + 1 + VarintSize(|key|) + |key|; }
      if valueCase == 5 {
        total := total + 1 + 8;
      } else if valueCase == 6 {
        total := total + 1 + VarintSize(word);
      } else if valueCase == 7 {
        total := total + 1 + VarintSize(word);
      } else if valueCase == 8 {
        total := total + 1 + VarintSize(Zigzag(ToI64(word)));
      } else if valueCase == 9 {
        total := total + 1 + 1;
      } else if valueCase == 10 {
        total := total + 1 + VarintSize(|text|) + |text|;
      } else if valueCase == 11 {
        total := total + 1 + VarintSize(|text|) + |text|;
      }
      cachedSize := total;
      KeyValueSize(Value());
    }

    method SerializeWithCachedSizes(output: CodedOutputStream)
      modifies output
      ensures output.out == old(output.out) + SerializeKeyValue(Value())
    {
      hide SerializeKeyValue, EncodeAll, Encode;
      ghost var before := output.out;
      if |key| > 0 { output.WriteBytes(1, key); }
      WordBack(word);
      if valueCase == 5 {
        output.WriteDouble(5, word);
      } else if valueCase == 6 {
        output.WriteNumber(6, word);
      } else if valueCase == 7 {
        output.WriteNumber(7, word);
      } else if valueCase == 8 {
        output.WriteNumber(8, Zigzag(ToI64(word)));
      } else if valueCase == 9 {
        output.WriteNumber(9, if word != 0 then 1 else 0);
      } else if valueCase == 10 {
        output.WriteBytes(10, text);
      } else if valueCase == 11 {
        output.WriteBytes(11, text);
      }
      KeyValueBytes(Value());
      ConcatAssoc(before, TextBytes(1, key), ValueBytes(Value().value));
    }

    method SerializeWithCachedSizesToArray(target: array<byte>, at: nat) returns (end: nat)
      requires at + |SerializeKeyValue(Value())| <= target.Length
      modifies target
      ensures Wrote(old(target[..]), target[..], at, end, SerializeKeyValue(Value()))
    {
      hide SerializeKeyValue, EncodeAll, Encode, Wrote;
      KeyValueBytes(Value());
      ghost var before := target[..];
      end := at;
      if |key| > 0 { end := BytesToArray(1, key, target, at); } else { WroteNothing(before, at); }
      ghost var between := target[..];
      var mid := end;
      WroteLength(before, between, at, mid, TextBytes(1, key));
      WordBack(word);
      if valueCase == 5 {
        end := DoubleToArray(5, word, target, mid);
      } else if valueCase == 6 {
        end := NumberToArray(6, word, target, mid);
      } else if valueCase == 7 {
        end := NumberToArray(7, word, target, mid);
      } else if valueCase == 8 {
        end := NumberToArray(8, Zigzag(ToI64(word)), target, mid);
      } else if valueCase == 9 {
        end := NumberToArray(9, if word != 0 then 1 else 0, target, mid);
      } else if valueCase == 10 {
        end := BytesToArray(10, text, target, mid);
      } else if valueCase == 11 {
        end := BytesToArray(11, text, target, mid);
      } else {
        WroteNothing(between, mid);
      }
      WroteTwice(before, between, target[..], at, mid, end, TextBytes(1, key),
                 ValueBytes(Value().value));
    }

    // ---- The parser ---------------------------------------------------------------------------------

    /** What holds after a block ended in a jump, `goal` being what the plain loop does from its start. */
    ghost predicate Jumped(j: Jump<Label>, goal: Outcome<KeyValue>, input: CodedInputStream, limit: nat, depth: nat)
      reads this, input
    {
      match j
      case Failure => goal == Failed
      case Success => Agrees(goal, true, Value(), input, limit, depth)
      case Goto(at) => AtLabel(goal, HandleKeyValue, at.Tag(), at.Charged(), Value(), input, limit, depth)
    }

    method ReadKey(input: CodedInputStream, ghost depth: nat) returns (ok: bool)
      requires input.Valid() && input.budget == depth
      modifies this, input
      ensures FieldRead(AfterTag(HandleKeyValue, old(Value()), 10, old(input.Rest()), depth),
                        HandleKeyValue, ok, Value(), input, old(input.Rest()),
                        old(input.limit), old(input.budget), depth)
    {
      hide Parse, AfterTag;
      TurnBytes(HandleKeyValue, Value(), 10, input.Rest(), depth);
      var s;
      ok, s := input.ReadString();
      ok := ok && ValidUtf8(s);
      if ok { key := s; }
    }

    method ReadDoubleValue(input: CodedInputStream, ghost depth: nat) returns (ok: bool)
      requires input.Valid() && input.budget == depth
      modifies this, input
      ensures FieldRead(AfterTag(HandleKeyValue, old(Value()), 41, old(input.Rest()), depth),
                        HandleKeyValue, ok, Value(), input, old(input.Rest()),
                        old(input.limit), old(input.budget), depth)
    {
      hide Parse, AfterTag;
      TurnFixed64(HandleKeyValue, Value(), 41, input.Rest(), depth);
      ClearValue();
      var v;
      ok, v := input.ReadDouble();
      if ok { word, valueCase := v, 5; }
    }

    method ReadIntValue(input: CodedInputStream, ghost depth: nat) returns (ok: bool)
      requires input.Valid() && input.budget == depth
      modifies this, input
      ensures FieldRead(AfterTag(HandleKeyValue, old(Value()), 48, old(input.Rest()), depth),
                        HandleKeyValue, ok, Value(), input, old(input.Rest()),
                        old(input.limit), old(input.budget), depth)
    {
      hide Parse, AfterTag;
      TurnVarint(HandleKeyValue, Value(), 48, input.Rest(), depth);
      ClearValue();
      var v;
      ok, v := input.ReadVarint64();
      if ok { word, valueCase := v, 6; }
    }

    method ReadUintValue(input: CodedInputStream, ghost depth: nat) returns (ok: bool)
      requires input.Valid() && input.budget == depth
      modifies this, input
      ensures FieldRead(AfterTag(HandleKeyValue, old(Value()), 56, old(input.Rest()), depth),
                        HandleKeyValue, ok, Value(), input, old(input.Rest()),
                        old(input.limit), old(input.budget), depth)
    {
      hide Parse, AfterTag;
      TurnVarint(HandleKeyValue, Value(), 56, input.Rest(), depth);
      ClearValue();
      var v;
      ok, v := input.ReadVarint64();
      if ok { word, valueCase := v, 7; }
    }

    method ReadSintValue(input: CodedInputStream, ghost depth: nat) returns (ok: bool)
      requires input.Valid() && input.budget == depth
      modifies this, input
      ensures FieldRead(AfterTag(HandleKeyValue, old(Value()), 64, old(input.Rest()), depth),
                        HandleKeyValue, ok, Value(), input, old(input.Rest()),
                        old(input.limit), old(input.budget), depth)
    {
      hide Parse, AfterTag;
      TurnVarint(HandleKeyValue, Value(), 64, input.Rest(), depth);
      ClearValue();
      var v;
      ok, v := input.ReadVarint64();
      if ok { word, valueCase := ToU64(Unzigzag(v)), 8; }
    }

    method ReadBoolValue(input: CodedInputStream, ghost depth: nat) returns (ok: bool)
      requires input.Valid() && input.budget == depth
      modifies this, input
      ensures FieldRead(AfterTag(HandleKeyValue, old(Value()), 72, old(input.Rest()), depth),
                        HandleKeyValue, ok, Value(), input, old(input.Rest()),
                        old(input.limit), old(input.budget), depth)
    {
      hide Parse, AfterTag;
      TurnVarint(HandleKeyValue, Value(), 72, input.Rest(), depth);
      ClearValue();
      var v;
      ok, v := input.ReadVarint64();
      if ok { word, valueCase := if v != 0 then 1 else 0, 9; }
    }

    method ReadStrValue(input: CodedInputStream, ghost depth: nat) returns (ok: bool)
      requires input.Valid() && input.budget == depth
      modifies this, input
      ensures FieldRead(AfterTag(HandleKeyValue, old(Value()), 82, old(input.Rest()), depth),
                        HandleKeyValue, ok, Value(), input, old(input.Rest()),
                        old(input.limit), old(input.budget), depth)
    {
      hide Parse, AfterTag;
      TurnBytes(HandleKeyValue, Value(), 82, input.Rest(), depth);
      var s;
      ok, s := input.ReadString();
      ok := ok && ValidUtf8(s);
      if ok { SetStrValue(s); }
    }

    method ReadBytesValue(input: CodedInputStream, ghost depth: nat) returns (ok: bool)
      requires input.Valid() && input.budget == depth
      modifies this, input
      ensures FieldRead(AfterTag(HandleKeyValue, old(Value()), 90, old(input.Rest()), depth),
                        HandleKeyValue, ok, Value(), input, old(input.Rest()),
                        old(input.limit), old(input.budget), depth)
    {
      hide Parse, AfterTag;
      TurnBytes(HandleKeyValue, Value(), 90, input.Rest(), depth);
      var s;
      ok, s := input.ReadString();
      if ok { SetBytesValue(s); }
    }

    /** A field that is not dispatched on is skipped and forgotten. */
    method SkipUnknown(input: CodedInputStream, tag: uint32, ghost depth: nat) returns (ok: bool)
      requires input.Valid() && input.budget == depth && tag !in [0, 10, 41, 48, 56, 64, 72, 82, 90]
      requires !IsEndGroup(tag)
      modifies this, input
      ensures FieldRead(AfterTag(HandleKeyValue, old(Value()), tag, old(input.Rest()), depth),
                        HandleKeyValue, ok, Value(), input, old(input.Rest()),
                        old(input.limit), old(input.budget), depth)
    {
      hide Parse, AfterTag, HandleKeyValue;
      var r;
      ok, r := ReadField(input, HandleKeyValue, Value(), tag);
      if ok {
        Unrecognised(Value(), r, depth);
      }
    }

    method BlockNextTag(input: CodedInputStream, ghost depth: nat) returns (j: Jump<Label>)
      requires Ready(input, NextTag.Charged(), depth)
      modifies this, input
      ensures Jumped(j, old(Resume(HandleKeyValue, 0, Value(), input.Rest(), depth)), input, old(input.limit), depth)
      ensures j.Goto? ==> |input.Rest()| < |old(input.Rest())|
    {
      hide Parse, AfterTag, HandleKeyValue;
      var tag, small := TopOfLoop(input, HandleKeyValue, Value(), depth);
      if small && tag == 10 {
        j := Goto(ParseKey);
      } else if small && tag == 41 {
        j := Goto(ParseDouble);
      } else if small && tag == 48 {
        j := Goto(ParseInt);
      } else if small && tag == 56 {
        j := Goto(ParseUint);
      } else if small && tag == 64 {
        j := Goto(ParseSint);
      } else if small && tag == 72 {
        j := Goto(ParseBool);
      } else if small && tag == 82 {
        j := Goto(ParseStr);
      } else if small && tag == 90 {
        j := Goto(ParseBytes);
      } else {
        if tag == 0 || IsEndGroup(tag) { return Success; }
        var ok := SkipUnknown(input, tag, depth);
        j := if ok then Goto(NextTag) else Failure;
      }
    }

    method BlockParseKey(input: CodedInputStream, ghost depth: nat) returns (j: Jump<Label>)
      requires Ready(input, ParseKey.Charged(), depth)
      modifies this, input
      ensures Jumped(j, old(Resume(HandleKeyValue, 10, Value(), input.Rest(), depth)), input, old(input.limit), depth)
      ensures j.Goto? ==> |input.Rest()| < |old(input.Rest())|
    {
      hide Parse, AfterTag, HandleKeyValue;
      var ok := ReadKey(input, depth);
      if !ok { return Failure; }
      var hit := Predict(input, HandleKeyValue, Value(), depth, 41);
      j := Goto(if hit then ParseDouble else NextTag);
    }

    method BlockParseDouble(input: CodedInputStream, ghost depth: nat) returns (j: Jump<Label>)
      requires Ready(input, ParseDouble.Charged(), depth)
      modifies this, input
      ensures Jumped(j, old(Resume(HandleKeyValue, 41, Value(), input.Rest(), depth)), input, old(input.limit), depth)
      ensures j.Goto? ==> |input.Rest()| < |old(input.Rest())|
    {
      hide Parse, AfterTag, HandleKeyValue;
      var ok := ReadDoubleValue(input, depth);
      if !ok { return Failure; }
      var hit := Predict(input, HandleKeyValue, Value(), depth, 48);
      j := Goto(if hit then ParseInt else NextTag);
    }

    method BlockParseInt(input: CodedInputStream, ghost depth: nat) returns (j: Jump<Label>)
      requires Ready(input, ParseInt.Charged(), depth)
      modifies this, input
      ensures Jumped(j, old(Resume(HandleKeyValue, 48, Value(), input.Rest(), depth)), input, old(input.limit), depth)
      ensures j.Goto? ==> |input.Rest()| < |old(input.Rest())|
    {
      hide Parse, AfterTag, HandleKeyValue;
      var ok := ReadIntValue(input, depth);
      if !ok { return Failure; }
      var hit := Predict(input, HandleKeyValue, Value(), depth, 56);
      j := Goto(if hit then ParseUint else NextTag);
    }

    method BlockParseUint(input: CodedInputStream, ghost depth: nat) returns (j: Jump<Label>)
      requires Ready(input, ParseUint.Charged(), depth)
      modifies this, input
      ensures Jumped(j, old(Resume(HandleKeyValue, 56, Value(), input.Rest(), depth)), input, old(input.limit), depth)
      ensures j.Goto? ==> |input.Rest()| < |old(input.Rest())|
    {
      hide Parse, AfterTag, HandleKeyValue;
      var ok := ReadUintValue(input, depth);
      if !ok { return Failure; }
      var hit := Predict(input, HandleKeyValue, Value(), depth, 64);
      j := Goto(if hit then ParseSint else NextTag);
    }

    method BlockParseSint(input: CodedInputStream, ghost depth: nat) returns (j: Jump<Label>)
      requires Ready(input, ParseSint.Charged(), depth)
      modifies this, input
      ensures Jumped(j, old(Resume(HandleKeyValue, 64, Value(), input.Rest(), depth)), input, old(input.limit), depth)
      ensures j.Goto? ==> |input.Rest()| < |old(input.Rest())|
    {
      hide Parse, AfterTag, HandleKeyValue;
      var ok := ReadSintValue(input, depth);
      if !ok { return Failure; }
      var hit := Predict(input, HandleKeyValue, Value(), depth, 72);
      j := Goto(if hit then ParseBool else NextTag);
    }

    method BlockParseBool(input: CodedInputStream, ghost depth: nat) returns (j: Jump<Label>)
      requires Ready(input, ParseBool.Charged(), depth)
      modifies this, input
      ensures Jumped(j, old(Resume(HandleKeyValue, 72, Value(), input.Rest(), depth)), input, old(input.limit), depth)
      ensures j.Goto? ==> |input.Rest()| < |old(input.Rest())|
    {
      hide Parse, AfterTag, HandleKeyValue;
      var ok := ReadBoolValue(input, depth);
      if !ok { return Failure; }
      var hit := Predict(input, HandleKeyValue, Value(), depth, 82);
      j := Goto(if hit then ParseStr else NextTag);
    }

    method BlockParseStr(input: CodedInputStream, ghost depth: nat) returns (j: Jump<Label>)
      requires Ready(input, ParseStr.Charged(), depth)
      modifies this, input
      ensures Jumped(j, old(Resume(HandleKeyValue, 82, Value(), input.Rest(), depth)), input, old(input.limit), depth)
      ensures j.Goto? ==> |input.Rest()| < |old(input.Rest())|
    {
      hide Parse, AfterTag, HandleKeyValue;
      var ok := ReadStrValue(input, depth);
      if !ok { return Failure; }
      var hit := Predict(input, HandleKeyValue, Value(), depth, 90);
      j := Goto(if hit then ParseBytes else NextTag);
    }

    method BlockParseBytes(input: CodedInputStream, ghost depth: nat) returns (j: Jump<Label>)
      requires Ready(input, ParseBytes.Charged(), depth)
      modifies this, input
      ensures Jumped(j, old(Resume(HandleKeyValue, 90, Value(), input.Rest(), depth)), input, old(input.limit), depth)
      ensures j.Goto? ==> |input.Rest()| < |old(input.Rest())|
    {
      hide Parse, AfterTag, HandleKeyValue;
      var ok := ReadBytesValue(input, depth);
      if !ok { return Failure; }
      var hit := input.ExpectAtEnd();
      if hit { TurnAtEnd(HandleKeyValue, Value(), input.Rest(), depth); return Success; }
      j := Goto(NextTag);
    }

    /** For every byte string and every way the predictions may answer: the verdict, the message,
        the leftover input and the recursion budget are those of the plain loop. Every turn consumes
        input, or enters a loop of sub-messages, or leaves. */
    method MergePartialFromCodedStream(input: CodedInputStream) returns (ok: bool)
      requires input.Valid() && input.budget >= 0
      modifies this, input
      ensures Agrees(Parse(HandleKeyValue, old(Value()), old(input.Rest()), old(input.budget)), ok, Value(), input,
                     old(input.limit), old(input.budget))
    {
      hide Parse, AfterTag, HandleKeyValue;
      ghost var depth: nat := input.budget;
      ghost var goal := Parse(HandleKeyValue, Value(), input.Rest(), depth);
      var j := Goto(NextTag);
      while j.Goto?
        invariant Jumped(j, goal, input, old(input.limit), depth)
        decreases if j.Goto? then 1 else 0, if j.Goto? then |input.Rest()| else 0
      {
        match j.at
        case NextTag => j := BlockNextTag(input, depth);
        case ParseKey => j := BlockParseKey(input, depth);
        case ParseDouble => j := BlockParseDouble(input, depth);
        case ParseInt => j := BlockParseInt(input, depth);
        case ParseUint => j := BlockParseUint(input, depth);
        case ParseSint => j := BlockParseSint(input, depth);
        case ParseBool => j := BlockParseBool(input, depth);
        case ParseStr => j := BlockParseStr(input, depth);
        case ParseBytes => j := BlockParseBytes(input, depth);
      }
      ok := j.Success?;
    }
  }

  /** Records with other tags are not fields of this message. */
  lemma Unrecognised(m: KeyValue, r: Record, depth: nat)
    requires TagOf(r) !in [10, 41, 48, 56, 64, 72, 82, 90]
    ensures HandleKeyValue(m, r, depth) == Some(m)
  {
  }

  // ---- The parts of a written KeyValue ---------------------------------------------------------------

  function ValueBytes(v: Value): bytes { if v.NotSet? then [] else Encode(ValueRecords(v)[0]) }

  lemma KeyValueBytes(m: KeyValue)
    ensures SerializeKeyValue(m) == TextBytes(1, m.key) + ValueBytes(m.value)
  {
    hide Encode;
    EncodeAppend(TextField(1, m.key), ValueRecords(m.value));
    if m.key != [] { EncodeOne(BytesField(1, m.key)); }
    if !m.value.NotSet? { EncodeOne(ValueRecords(m.value)[0]); }
  }

  /** What is kept in the word comes back out of it. */
  lemma WordBack(w: uint64)
    ensures ToU64(ToI64(w)) == w
  {
  }

  lemma BoolSize()
    ensures VarintSize(1) == VarintSize(0) == 1
  {
  }

  function ValueSize(v: Value): nat
  {
    match v
    case NotSet => 0
    case DoubleValue(_) => 9
    case IntValue(i) => 1 + VarintSize(ToU64(i))
    case UintValue(u) => 1 + VarintSize(u)
    case SintValue(z) => 1 + VarintSize(Zigzag(z))
    case BoolValue(_) => 2
    case StrValue(s) => 1 + VarintSize(|s|) + |s|
    case BytesValue(s) => 1 + VarintSize(|s|) + |s|
  }

  lemma KeyValueSize(m: KeyValue)
    ensures |SerializeKeyValue(m)|
         == (if m.key == [] then 0 else 1 + VarintSize(|m.key|) + |m.key|) + ValueSize(m.value)
  {
    KeyValueBytes(m);
    hide SerializeKeyValue;
    assert |TextBytes(1, m.key)| == if m.key == [] then 0 else 1 + VarintSize(|m.key|) + |m.key| by {
      if m.key != [] { OneByteTag(BytesField(1, m.key)); }
    }
    assert |ValueBytes(m.value)| == ValueSize(m.value) by {
      if !m.value.NotSet? { OneByteTag(ValueRecords(m.value)[0]); }
    }
  }
}
