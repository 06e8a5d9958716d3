/** The messages without sub-messages inside a telemetry.SubscriptionRequest as the generated classes: fields changed
    in place and a cached size. */
module RequestParts {
  import opened Wire
  import opened Records
  import opened PlainLoop
  import opened Proto3
  import opened CodedStream
  import opened CodedOutput
  import opened PredictedLoop
  import opened CachedSizes
  import opened Proto3Writer
  import opened TelemetryRequest

  /** How a bool travels. */
  function Flag(b: bool): uint64 { if b then 1 else 0 }

  lemma FlagSize()
    ensures VarintSize(1) == 1
  {
  }

  // ---- Collector ---------------------------------------------------------------------------------------

  function CollectorBytes(m: Collector): bytes
  {
    TextBytes(1, m.address) + NumberBytes(2, m.port)
  }

  lemma CollectorIsWritten(m: Collector)
    ensures SerializeCollector(m) == CollectorBytes(m)
  {
    hide EncodeAll, TextField, NumberField, TextBytes, NumberBytes;
    TextWritten(1, m.address, NumberField(2, m.port));
    LastNumberWritten(2, m.port);
  }

  lemma CollectorSize(m: Collector)
    ensures |CollectorBytes(m)| == TextSize(m.address) + NumberSize(m.port)
  {
    TextSizeIs(1, m.address);
    NumberSizeIs(2, m.port);
    hide TextBytes, NumberBytes, TextSize, NumberSize;
  }

  /** The bytes after the fields have been appended one by one. */
  lemma CollectorAfter(before: bytes, m: Collector)
    ensures before + TextBytes(1, m.address) + NumberBytes(2, m.port)
         == before + CollectorBytes(m)
  {
    hide TextBytes, NumberBytes;
    ConcatAssoc(before, TextBytes(1, m.address), NumberBytes(2, m.port));
  }

  class CollectorMessage {
    var address: bytes
    var port: uint32
    var cachedSize: nat

    function Value(): Collector
      reads this`address, this`port
    {
      Collector(address, port)
    }

    constructor ()
      ensures Value() == EMPTY_COLLECTOR
    {
      address, port, cachedSize := [], 0, 0;
    }

    method Clear()
      modifies this`address, this`port
      ensures Value() == EMPTY_COLLECTOR
    {
      address := [];
      port := 0;
    }

    /** Zeros and empty strings do not overwrite. */
    method MergeFrom(from: CollectorMessage)
      requires from != this
      modifies this`address, this`port
      ensures Value() == MergeCollector(old(Value()), from.Value())
    {
      if |from.address| > 0 { address := from.address; }
      if from.port != 0 { port := from.port; }
    }

    method CopyFrom(from: CollectorMessage)
      modifies this`address, this`port
      ensures Value() == old(from.Value())
    {
      if from == this { return; }
      Clear();
      MergeFrom(from);
    }

    /** The size is computed, not measured, and it is the length of what will be written. */
    method ByteSize() returns (total: nat)
      modifies this`cachedSize
      ensures total == cachedSize == |SerializeCollector(Value())|
    {
      hide VarintSize, SerializeCollector, CollectorBytes;
      total := 0;
      if |address| > 0 { total := total + 1 + VarintSize(|address|) + |address|; }
      if port != 0 { total := total + 1 + VarintSize(port); }
      CollectorSize(Value());
      CollectorIsWritten(Value());
      cachedSize := total;
    }

    method SerializeWithCachedSizes(output: CodedOutputStream)
      modifies output
      ensures output.out == old(output.out) + SerializeCollector(Value())
    {
      hide TextBytes, NumberBytes, SerializeCollector, CollectorBytes;
      ghost var before := output.out;
      WriteText(1, address, output);
      WriteCount(2, port, output);
      CollectorAfter(before, Value());
      CollectorIsWritten(Value());
    }

    method SerializeWithCachedSizesToArray(target: array<byte>, at: nat) returns (end: nat)
      requires at + |SerializeCollector(Value())| <= target.Length
      modifies target
      ensures Wrote(old(target[..]), target[..], at, end, SerializeCollector(Value()))
    {
      CollectorIsWritten(Value());
      hide TextBytes, NumberBytes, Wrote, SerializeCollector;
      ghost var before, m := target[..], Value();
      end := TextToArray(1, address, target, at);
      end := ThenNumber(2, port, target, before, at, end, TextBytes(1, m.address));
    }

    method MergePartialFromCodedStream(input: CodedInputStream) returns (ok: bool)
      requires input.Valid() && input.budget >= 0
      modifies this, input
      ensures Agrees(Parse(HandleCollector, old(Value()), old(input.Rest()), old(input.budget)), ok, Value(), input,
                     old(input.limit), old(input.budget))
    {
      hide Parse, HandleCollector;
      var m;
      ok, m := ParseInARow(input, HandleCollector, Value(), [10, 16]);
      if ok { address, port := m.address, m.port; }
    }
  }

  // ---- Path --------------------------------------------------------------------------------------------

  function PathBytes(m: Path): bytes
  {
    TextBytes(1, m.path) + TextBytes(2, m.filter) + NumberBytes(3, Flag(m.suppressUnchanged)) +
    NumberBytes(4, m.maxSilentInterval) + NumberBytes(5, m.sampleFrequency)
  }

  lemma PathIsWritten(m: Path)
    ensures SerializePath(m) == PathBytes(m)
  {
    var t5 := NumberField(5, m.sampleFrequency);
    var t4 := NumberField(4, m.maxSilentInterval) + t5;
    var t3 := NumberField(3, Flag(m.suppressUnchanged)) + t4;
    var t2 := TextField(2, m.filter) + t3;
    hide EncodeAll, TextField, NumberField, TextBytes, NumberBytes;
    TextWritten(1, m.path, t2);
    TextWritten(2, m.filter, t3);
    NumberWritten(3, Flag(m.suppressUnchanged), t4);
    NumberWritten(4, m.maxSilentInterval, t5);
    LastNumberWritten(5, m.sampleFrequency);
    var a, b, c := TextBytes(1, m.path), TextBytes(2, m.filter), NumberBytes(3, Flag(m.suppressUnchanged));
    var d, e := NumberBytes(4, m.maxSilentInterval), NumberBytes(5, m.sampleFrequency);
    ConcatAssoc(a + b + c, d, e);
    ConcatAssoc(a + b, c, d + e);
    ConcatAssoc(a, b, c + (d + e));
  }

  lemma PathSize(m: Path)
    ensures |PathBytes(m)| == TextSize(m.path) + TextSize(m.filter) + NumberSize(Flag(m.suppressUnchanged)) +
                              NumberSize(m.maxSilentInterval) + NumberSize(m.sampleFrequency)
  {
    TextSizeIs(1, m.path);
    TextSizeIs(2, m.filter);
    NumberSizeIs(3, Flag(m.suppressUnchanged));
    NumberSizeIs(4, m.maxSilentInterval);
    NumberSizeIs(5, m.sampleFrequency);
    hide TextBytes, NumberBytes, TextSize, NumberSize;
  }

  /** The bytes after the fields have been appended one by one. */
  lemma PathAfter(before: bytes, m: Path)
    ensures before + TextBytes(1, m.path) + TextBytes(2, m.filter) +
                     NumberBytes(3, Flag(m.suppressUnchanged)) + NumberBytes(4, m.maxSilentInterval) +
                     NumberBytes(5, m.sampleFrequency)
         == before + PathBytes(m)
  {
    hide TextBytes, NumberBytes;
    var a, b, c := TextBytes(1, m.path), TextBytes(2, m.filter), NumberBytes(3, Flag(m.suppressUnchanged));
    var d, e := NumberBytes(4, m.maxSilentInterval), NumberBytes(5, m.sampleFrequency);
    ConcatAssoc(before, a, b);
    ConcatAssoc(before, a + b, c);
    ConcatAssoc(before, a + b + c, d);
    ConcatAssoc(before, a + b + c + d, e);
  }

  class PathMessage {
    var path: bytes
    var filter: bytes
    var suppressUnchanged: bool
    var maxSilentInterval: uint32
    var sampleFrequency: uint32
    var cachedSize: nat

    function Value(): Path
      reads this`path, this`filter, this`suppressUnchanged, this`maxSilentInterval, this`sampleFrequency
    {
      Path(path, filter, suppressUnchanged, maxSilentInterval, sampleFrequency)
    }

    constructor ()
      ensures Value() == EMPTY_PATH
    {
      path, filter, suppressUnchanged, maxSilentInterval, sampleFrequency, cachedSize := [], [], false, 0, 0, 0;
    }

    method Clear()
      modifies this`path, this`filter, this`suppressUnchanged, this`maxSilentInterval, this`sampleFrequency
      ensures Value() == EMPTY_PATH
    {
      path := [];
      filter := [];
      suppressUnchanged := false;
      maxSilentInterval := 0;
      sampleFrequency := 0;
    }

    /** Zeros and empty strings do not overwrite. */
    method MergeFrom(from: PathMessage)
      requires from != this
      modifies this`path, this`filter, this`suppressUnchanged, this`maxSilentInterval, this`sampleFrequency
      ensures Value() == MergePath(old(Value()), from.Value())
    {
      if |from.path| > 0 { path := from.path; }
      if |from.filter| > 0 { filter := from.filter; }
      if from.suppressUnchanged { suppressUnchanged := from.suppressUnchanged; }
      if from.maxSilentInterval != 0 { maxSilentInterval := from.maxSilentInterval; }
      if from.sampleFrequency != 0 { sampleFrequency := from.sampleFrequency; }
    }

    method CopyFrom(from: PathMessage)
      modifies this`path, this`filter, this`suppressUnchanged, this`maxSilentInterval, this`sampleFrequency
      ensures Value() == old(from.Value())
    {
      if from == this { return; }
      Clear();
      MergeFrom(from);
    }

    /** The size is computed, not measured, and it is the length of what will be written. */
    method ByteSize() returns (total: nat)
      modifies this`cachedSize
      ensures total == cachedSize == |SerializePath(Value())|
    {
      hide VarintSize, SerializePath, PathBytes;
      total := 0;
      if |path| > 0 { total := total + 1 + VarintSize(|path|) + |path|; }
      if |filter| > 0 { total := total + 1 + VarintSize(|filter|) + |filter|; }
      if suppressUnchanged { total := total + 1 + 1; }
      if maxSilentInterval != 0 { total := total + 1 + VarintSize(maxSilentInterval); }
      if sampleFrequency != 0 { total := total + 1 + VarintSize(sampleFrequency); }
      FlagSize();
      PathSize(Value());
      PathIsWritten(Value());
      cachedSize := total;
    }

    method SerializeWithCachedSizes(output: CodedOutputStream)
      modifies output
      ensures output.out == old(output.out) + SerializePath(Value())
    {
      hide TextBytes, NumberBytes, SerializePath, PathBytes;
      ghost var before := output.out;
      WriteText(1, path, output);
      WriteText(2, filter, output);
      WriteCount(3, Flag(suppressUnchanged), output);
      WriteCount(4, maxSilentInterval, output);
      WriteCount(5, sampleFrequency, output);
      PathAfter(before, Value());
      PathIsWritten(Value());
    }

    method SerializeWithCachedSizesToArray(target: array<byte>, at: nat) returns (end: nat)
      requires at + |SerializePath(Value())| <= target.Length
      modifies target
      ensures Wrote(old(target[..]), target[..], at, end, SerializePath(Value()))
    {
      PathIsWritten(Value());
      hide TextBytes, NumberBytes, Wrote, SerializePath;
      ghost var before, m := target[..], Value();
      end := TextToArray(1, path, target, at);
      end := ThenText(2, filter, target, before, at, end, TextBytes(1, m.path));
      end := ThenNumber(3, Flag(suppressUnchanged), target, before, at, end,
                        TextBytes(1, m.path) + TextBytes(2, m.filter));
      end := ThenNumber(4, maxSilentInterval, target, before, at, end,
                        TextBytes(1, m.path) + TextBytes(2, m.filter) +
                        NumberBytes(3, Flag(m.suppressUnchanged)));
      end := ThenNumber(5, sampleFrequency, target, before, at, end,
                        TextBytes(1, m.path) + TextBytes(2, m.filter) +
                        NumberBytes(3, Flag(m.suppressUnchanged)) + NumberBytes(4, m.maxSilentInterval));
    }

    method MergePartialFromCodedStream(input: CodedInputStream) returns (ok: bool)
      requires input.Valid() && input.budget >= 0
      modifies this, input
      ensures Agrees(Parse(HandlePath, old(Value()), old(input.Rest()), old(input.budget)), ok, Value(), input,
                     old(input.limit), old(input.budget))
    {
      hide Parse, HandlePath;
      var m;
      ok, m := ParseInARow(input, HandlePath, Value(), [10, 18, 24, 32, 40]);
      if ok {
        path, filter := m.path, m.filter;
        suppressUnchanged, maxSilentInterval := m.suppressUnchanged, m.maxSilentInterval;
        sampleFrequency := m.sampleFrequency;
      }
    }
  }

  // ---- AdditionalConfig --------------------------------------------------------------------------------

  function ConfigBytes(m: AdditionalConfig): bytes
  {
    NumberBytes(1, ToU64(m.limitRecords)) + NumberBytes(2, ToU64(m.limitTimeSeconds))
  }

  lemma ConfigIsWritten(m: AdditionalConfig)
    ensures SerializeConfig(m) == ConfigBytes(m)
  {
    hide EncodeAll, TextField, NumberField, TextBytes, NumberBytes;
    NumberWritten(1, ToU64(m.limitRecords), NumberField(2, ToU64(m.limitTimeSeconds)));
    LastNumberWritten(2, ToU64(m.limitTimeSeconds));
  }

  lemma ConfigSize(m: AdditionalConfig)
    ensures |ConfigBytes(m)| == NumberSize(ToU64(m.limitRecords)) +
                                          NumberSize(ToU64(m.limitTimeSeconds))
  {
    NumberSizeIs(1, ToU64(m.limitRecords));
    NumberSizeIs(2, ToU64(m.limitTimeSeconds));
    hide TextBytes, NumberBytes, TextSize, NumberSize;
  }

  /** The bytes after the fields have been appended one by one. */
  lemma ConfigAfter(before: bytes, m: AdditionalConfig)
    ensures before + NumberBytes(1, ToU64(m.limitRecords)) + NumberBytes(2, ToU64(m.limitTimeSeconds))
         == before + ConfigBytes(m)
  {
    hide TextBytes, NumberBytes;
    ConcatAssoc(before, NumberBytes(1, ToU64(m.limitRecords)), NumberBytes(2, ToU64(m.limitTimeSeconds)));
  }

  class ConfigMessage {
    var limitRecords: int32
    var limitTimeSeconds: int32
    var cachedSize: nat

    function Value(): AdditionalConfig
      reads this`limitRecords, this`limitTimeSeconds
    {
      AdditionalConfig(limitRecords, limitTimeSeconds)
    }

    constructor ()
      ensures Value() == EMPTY_CONFIG
    {
      limitRecords, limitTimeSeconds, cachedSize := 0, 0, 0;
    }

    method Clear()
      modifies this`limitRecords, this`limitTimeSeconds
      ensures Value() == EMPTY_CONFIG
    {
      limitRecords := 0;
      limitTimeSeconds := 0;
    }

    /** Zeros and empty strings do not overwrite. */
    method MergeFrom(from: ConfigMessage)
      requires from != this
      modifies this`limitRecords, this`limitTimeSeconds
      ensures Value() == MergeConfig(old(Value()), from.Value())
    {
      if from.limitRecords != 0 { limitRecords := from.limitRecords; }
      if from.limitTimeSeconds != 0 { limitTimeSeconds := from.limitTimeSeconds; }
    }

    method CopyFrom(from: ConfigMessage)
      modifies this`limitRecords, this`limitTimeSeconds
      ensures Value() == old(from.Value())
    {
      if from == this { return; }
      Clear();
      MergeFrom(from);
    }

    /** The size is computed, not measured, and it is the length of what will be written. */
    method ByteSize() returns (total: nat)
      modifies this`cachedSize
      ensures total == cachedSize == |SerializeConfig(Value())|
    {
      hide VarintSize, SerializeConfig, ConfigBytes;
      total := 0;
      if limitRecords != 0 { total := total + 1 + VarintSize(ToU64(limitRecords)); }
      if limitTimeSeconds != 0 { total := total + 1 + VarintSize(ToU64(limitTimeSeconds)); }
      ConfigSize(Value());
      ConfigIsWritten(Value());
      cachedSize := total;
    }

    method SerializeWithCachedSizes(output: CodedOutputStream)
      modifies output
      ensures output.out == old(output.out) + SerializeConfig(Value())
    {
      hide TextBytes, NumberBytes, SerializeConfig, ConfigBytes;
      ghost var before := output.out;
      WriteCount(1, ToU64(limitRecords), output);
      WriteCount(2, ToU64(limitTimeSeconds), output);
      ConfigAfter(before, Value());
      ConfigIsWritten(Value());
    }

    method SerializeWithCachedSizesToArray(target: array<byte>, at: nat) returns (end: nat)
      requires at + |SerializeConfig(Value())| <= target.Length
      modifies target
      ensures Wrote(old(target[..]), target[..], at, end, SerializeConfig(Value()))
    {
      ConfigIsWritten(Value());
      hide TextBytes, NumberBytes, Wrote, SerializeConfig;
      ghost var before, m := target[..], Value();
      end := CountToArray(1, ToU64(limitRecords), target, at);
      end := ThenNumber(2, ToU64(limitTimeSeconds), target, before, at, end, NumberBytes(1, ToU64(m.limitRecords)));
    }

    method MergePartialFromCodedStream(input: CodedInputStream) returns (ok: bool)
      requires input.Valid() && input.budget >= 0
      modifies this, input
      ensures Agrees(Parse(HandleConfig, old(Value()), old(input.Rest()), old(input.budget)), ok, Value(), input,
                     old(input.limit), old(input.budget))
    {
      hide Parse, HandleConfig;
      var m;
      ok, m := ParseInARow(input, HandleConfig, Value(), [8, 16]);
      if ok { limitRecords, limitTimeSeconds := m.limitRecords, m.limitTimeSeconds; }
    }
  }

  method ConfigToArray(tag: nat, x: ConfigMessage, target: array<byte>, at: nat) returns (end: nat)
    requires at + |Prefixed(tag, x.cachedSize, SerializeConfig(x.Value()))| <= target.Length
    modifies target
    ensures Wrote(old(target[..]), target[..], at, end, Prefixed(tag, x.cachedSize, SerializeConfig(x.Value())))
  {
    hide SerializeConfig, Varint, Wrote;
    ghost var before, s := target[..], SerializeConfig(x.Value());
    var mid := PrefixToArray(tag, x.cachedSize, target, at);
    ghost var between := target[..];
    WroteLength(before, between, at, mid, Varint(tag) + Varint(x.cachedSize));
    end := x.SerializeWithCachedSizesToArray(target, mid);
    WroteTwice(before, between, target[..], at, mid, end, Varint(tag) + Varint(x.cachedSize), s);
    ConcatAssoc(Varint(tag), Varint(x.cachedSize), s);
  }

  /** ReadMessageNoVirtual: the parse into a message that is there, within a pushed limit and one level deeper. */
  method ReadConfig(input: CodedInputStream, x: ConfigMessage) returns (ok: bool)
    requires input.Valid() && input.budget >= 0
    modifies input, x
    ensures match ReadBytes(old(input.Rest()))
            case Bad => !ok
            case Got(s, rest) =>
              match Nested(HandleConfig, old(x.Value()), s, old(input.budget))
              case None => !ok
              case Some(v) => ok && x.Value() == v && input.Valid() && input.Rest() == rest &&
                              |rest| < |old(input.Rest())| && input.limit == old(input.limit) &&
                              input.budget == old(input.budget)
  {
    hide Parse, HandleConfig, ReadBytes;
    ok := input.IncrementRecursionDepth();
    if !ok { return; }
    var oldLimit;
    ok, oldLimit := input.ReadLengthAndPushLimit();
    if !ok { return; }
    ok := x.MergePartialFromCodedStream(input);
    if !ok { return; }
    ok := input.CheckEntireMessageConsumedAndPopLimit(oldLimit);
    input.UnsafeDecrementRecursionDepth();
  }
}
