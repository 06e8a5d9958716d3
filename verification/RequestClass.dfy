/** telemetry.SubscriptionRequest as the generated class: its singular sub-messages are objects that are created on
    demand and merged in place, and the size caches form a tree. */
module RequestClass {
  import opened Wire
  import opened Records
  import opened PlainLoop
  import opened Proto3
  import opened CodedStream
  import opened CodedOutput
  import opened PredictedLoop
  import opened CachedSizes
  import opened TelemetryRequest
  import Utf8
  import InputClass
  import RequestParts

  type PathMessage = RequestParts.PathMessage
  type CollectorMessage = RequestParts.CollectorMessage

  // ---- What the writers write, given the cached sizes ----------------------------------------------

  /** The size caches below a request; those of an absent sub-message mean nothing. */
  datatype Caches = Caches(input: nat, collectors: seq<nat>, paths: seq<nat>, config: nat)

  /** A cache for every element. */
  predicate Fit(m: SubscriptionRequest, c: Caches)
  {
    |c.paths| == |m.paths| && |c.collectors| == |CollectorsOf(m)|
  }

  function CollectorsOf(m: SubscriptionRequest): seq<Collector> { Present(m.input, EMPTY_INPUT).collectors }

  /** The nested messages. */
  function Payloads(ps: seq<Path>): (ss: seq<bytes>)
    ensures |ss| == |ps| && forall i :: 0 <= i < |ps| ==> ss[i] == SerializePath(ps[i])
  {
    seq(|ps|, i requires 0 <= i < |ps| => SerializePath(ps[i]))
  }

  lemma {:induction false} PayloadRecords(ps: seq<Path>)
    ensures PathsRecords(ps) == NestedRecords(2, Payloads(ps))
    decreases |ps|
  {
    hide SerializePath;
    if ps != [] {
      PayloadRecords(ps[1..]);
      assert Payloads(ps)[1..] == Payloads(ps[1..]);
    }
  }

  function InputPart(m: SubscriptionRequest, c: Caches): bytes
    requires Fit(m, c)
  {
    if m.input.None? then [] else Prefixed(10, c.input, InputClass.InputBytes(m.input.value, c.collectors))
  }

  function PathsPart(m: SubscriptionRequest, c: Caches): bytes
    requires Fit(m, c)
  {
    ListBytes(18, Payloads(m.paths), c.paths)
  }

  function ConfigPart(m: SubscriptionRequest, c: Caches): bytes
  {
    if m.config.None? then [] else Prefixed(26, c.config, SerializeConfig(m.config.value))
  }

  /** What the writers write for a request whose caches are c, right or wrong. */
  function RequestBytes(m: SubscriptionRequest, c: Caches): bytes
    requires Fit(m, c)
  {
    InputPart(m, c) + PathsPart(m, c) + ConfigPart(m, c)
  }

  predicate InputFresh(m: SubscriptionRequest, c: Caches)
    requires Fit(m, c)
  {
    (m.input.Some? ==> c.input == |SerializeInput(m.input.value)|) &&
    Fresh(InputClass.Payloads(CollectorsOf(m)), c.collectors)
  }

  predicate ConfigFresh(m: SubscriptionRequest, c: Caches)
  {
    m.config.Some? ==> c.config == |SerializeConfig(m.config.value)|
  }

  /** Every cache on the way down holds the length of its message. */
  predicate TreeFresh(m: SubscriptionRequest, c: Caches)
    requires Fit(m, c)
  {
    InputFresh(m, c) && Fresh(Payloads(m.paths), c.paths) && ConfigFresh(m, c)
  }

  /** Only the caches of a sub-message itself matter to it. */
  lemma SameInputCaches(m: SubscriptionRequest, c: Caches, d: Caches)
    requires Fit(m, c) && Fit(m, d) && c.input == d.input && c.collectors == d.collectors
    ensures InputFresh(m, c) == InputFresh(m, d) && InputPart(m, c) == InputPart(m, d)
  {
    hide Prefixed, InputClass.InputBytes;
  }

  lemma SameConfigCaches(m: SubscriptionRequest, c: Caches, d: Caches)
    requires c.config == d.config
    ensures ConfigFresh(m, c) == ConfigFresh(m, d) && ConfigPart(m, c) == ConfigPart(m, d)
  {
    hide Prefixed;
  }

  /** The caches as they should be. */
  function TrueCaches(m: SubscriptionRequest): (c: Caches)
    ensures Fit(m, c) && TreeFresh(m, c)
  {
    Caches(if m.input.None? then 0 else |SerializeInput(m.input.value)|, Lengths(InputClass.Payloads(CollectorsOf(m))),
           Lengths(Payloads(m.paths)), if m.config.None? then 0 else |SerializeConfig(m.config.value)|)
  }

  lemma WrittenIfFresh(m: SubscriptionRequest, c: Caches)
    requires Fit(m, c) && TreeFresh(m, c)
    ensures RequestBytes(m, c) == SerializeRequest(m)
  {
    hide Payloads, InputClass.Payloads, ListBytes, PathsRecords, SerializeInput, SerializeConfig, Encode, Prefixed;
    hide InputClass.InputBytes;
    PayloadRecords(m.paths);
    ListFresh(2, Payloads(m.paths), c.paths);
    var a, b, d := InputField(m.input), PathsRecords(m.paths), ConfigField(m.config);
    EncodeAppend(a, b + d);
    EncodeAppend(b, d);
    ConcatAssoc(EncodeAll(a), EncodeAll(b), EncodeAll(d));
    if m.input.Some? {
      InputClass.WrittenIfFresh(m.input.value, c.collectors);
      PrefixedFresh(1, SerializeInput(m.input.value));
      EncodeOne(BytesField(1, SerializeInput(m.input.value)));
    }
    if m.config.Some? {
      PrefixedFresh(3, SerializeConfig(m.config.value));
      EncodeOne(BytesField(3, SerializeConfig(m.config.value)));
    }
  }

  /** Two trees of caches with the same bytes agree wherever there is a message. */
  lemma SameInput(m: SubscriptionRequest, c: Caches, d: Caches, x: bytes, y: bytes)
    requires Fit(m, c) && Fit(m, d) && InputPart(m, c) + x == InputPart(m, d) + y
    ensures (m.input.Some? ==> c.input == d.input) && c.collectors == d.collectors && x == y
  {
    hide ListBytes, InputClass.Payloads, Prefixed;
    if m.input.None? {
      assert [] + x == x && [] + y == y;
      assert c.collectors == [] == d.collectors;
    } else {
      var ss := InputClass.Payloads(m.input.value.collectors);
      var a, b := ListBytes(10, ss, c.collectors), ListBytes(10, ss, d.collectors);
      PrefixedSameSize(10, c.input, a, x, d.input, b, y);
      ListInjective(10, ss, c.collectors, d.collectors, x, y);
    }
  }

  lemma SameConfig(m: SubscriptionRequest, c: Caches, d: Caches)
    requires ConfigPart(m, c) == ConfigPart(m, d)
    ensures m.config.Some? ==> c.config == d.config
  {
    hide Prefixed, SerializeConfig;
    if m.config.Some? {
      assert ConfigPart(m, c) + [] == ConfigPart(m, c);
      PrefixedInjective(26, c.config, d.config, SerializeConfig(m.config.value), [], []);
    }
  }

  /** The writers' output is the serialised message exactly when every cache in the tree is right. */
  lemma WrittenIffFresh(m: SubscriptionRequest, c: Caches)
    requires Fit(m, c)
    ensures RequestBytes(m, c) == SerializeRequest(m) <==> TreeFresh(m, c)
  {
    hide InputPart, ConfigPart, ListBytes, Payloads, InputClass.Payloads;
    hide SerializeRequest, SerializeInput, SerializeConfig;
    var d := TrueCaches(m);
    WrittenIfFresh(m, d);
    if TreeFresh(m, c) {
      WrittenIfFresh(m, c);
    } else if RequestBytes(m, c) == SerializeRequest(m) {
      var ss := Payloads(m.paths);
      ConcatAssoc(InputPart(m, c), PathsPart(m, c), ConfigPart(m, c));
      ConcatAssoc(InputPart(m, d), PathsPart(m, d), ConfigPart(m, d));
      SameInput(m, c, d, PathsPart(m, c) + ConfigPart(m, c), PathsPart(m, d) + ConfigPart(m, d));
      ListInjective(18, ss, c.paths, d.paths, ConfigPart(m, c), ConfigPart(m, d));
      SameConfig(m, c, d);
      assert false;
    }
  }

  datatype Label =
    | NextTag
    | ParseInput
    | ParsePathList
    | LoopPathList
    | ParseAdditionalConfig
  {
    /** The tag that has been consumed when control is here; 0 at the top of the loop. */
    function Tag(): nat
    {
      match this
      case NextTag => 0
      case ParseInput => 10
      case ParsePathList => 18
      case LoopPathList => 18
      case ParseAdditionalConfig => 26
    }

    /** Whether the recursion depth has been charged for sub-messages when control is here. */
    predicate Charged() { LoopPathList? }
  }

  // ---- The objects -------------------------------------------------------------------------------------

  function Values(ps: seq<PathMessage>): (r: seq<Path>)
    reads ps`path, ps`filter, ps`suppressUnchanged, ps`maxSilentInterval, ps`sampleFrequency
    ensures |r| == |ps| && forall i :: 0 <= i < |ps| ==> r[i] == ps[i].Value()
  {
    if ps == [] then [] else [ps[0].Value()] + Values(ps[1..])
  }

  function Sizes(ps: seq<PathMessage>): (r: seq<nat>)
    reads ps`cachedSize
    ensures |r| == |ps| && forall i :: 0 <= i < |ps| ==> r[i] == ps[i].cachedSize
  {
    if ps == [] then [] else [ps[0].cachedSize] + Sizes(ps[1..])
  }

  lemma ValuesAppend(a: seq<PathMessage>, b: seq<PathMessage>)
    ensures Values(a + b) == Values(a) + Values(b)
  {
  }

  lemma ValuesSnoc(a: seq<PathMessage>, x: PathMessage)
    ensures Values(a + [x]) == Values(a) + [x.Value()]
  {
  }

  /** New objects with the values of the given ones. */
  method CopyPaths(from: seq<PathMessage>) returns (copies: seq<PathMessage>)
    ensures Values(copies) == Values(from) && forall x :: x in copies ==> fresh(x)
  {
    hide Values;
    copies := [];
    for i := 0 to |from|
      invariant |copies| == i && forall x :: x in copies ==> fresh(x)
      invariant forall k :: 0 <= k < i ==> copies[k].Value() == from[k].Value()
    {
      var x := new RequestParts.PathMessage();
      x.MergeFrom(from[i]);
      copies := copies + [x];
    }
  }

  /** The size of the repeated field; on the way every element caches its own. */
  method SizeOfPaths(tag: nat, ps: seq<PathMessage>) returns (total: nat)
    requires tag < 128
    modifies ps`cachedSize
    ensures Values(ps) == old(Values(ps)) && Fresh(Payloads(Values(ps)), Sizes(ps))
    ensures total == |ListBytes(tag, Payloads(Values(ps)), Sizes(ps))|
  {
    hide Values, Sizes, Payloads, ListBytes, SerializePath, Prefixed, VarintSize;
    ghost var ms, ss := Values(ps), Payloads(Values(ps));
    ghost var sizes := Lengths(ss);
    total := |ps|;
    assert ss[..0] == [] && sizes[..0] == [];
    NoList(tag);
    for i := 0 to |ps|
      invariant forall k :: 0 <= k < |ps| ==> ps[k].Value() == ms[k]
      invariant forall k :: 0 <= k < i ==> ps[k].cachedSize == sizes[k]
      invariant total == |ps| - i + |ListBytes(tag, ss[..i], sizes[..i])|
    {
      var n := ps[i].ByteSize();
      total := total + n + VarintSize(n);
      OneMore(tag, ss, sizes, i);
      PrefixedSize(tag, sizes[i], ss[i]);
    }
    assert ss[..|ps|] == ss && sizes[..|ps|] == sizes;
    assert Values(ps) == ms && Sizes(ps) == sizes;
  }

  /** WriteMessageMaybeToArray for every element: tag, cached size, message. */
  method WritePaths(tag: nat, ps: seq<PathMessage>, output: CodedOutputStream)
    modifies output
    ensures output.out == old(output.out) + ListBytes(tag, Payloads(Values(ps)), Sizes(ps))
  {
    hide Values, Sizes, Payloads, ListBytes, SerializePath, Prefixed, Varint;
    ghost var before, ms, sizes := output.out, Values(ps), Sizes(ps);
    ghost var ss := Payloads(ms);
    assert ss[..0] == [] && sizes[..0] == [] && before + [] == before;
    NoList(tag);
    for i := 0 to |ps|
      invariant forall k :: 0 <= k < |ps| ==> ps[k].Value() == ms[k] && ps[k].cachedSize == sizes[k]
      invariant output.out == before + ListBytes(tag, ss[..i], sizes[..i])
    {
      output.WriteVarint(tag);
      output.WriteVarint(ps[i].cachedSize);
      ps[i].SerializeWithCachedSizes(output);
      OneMoreWritten(before, tag, ss, sizes, i);
    }
    assert ss[..|ps|] == ss && sizes[..|ps|] == sizes;
    assert Values(ps) == ms && Sizes(ps) == sizes;
  }

  /** WriteMessageNoVirtualToArray for every element. */
  method PathsToArray(tag: nat, ps: seq<PathMessage>, target: array<byte>, at: nat) returns (end: nat)
    requires at + |ListBytes(tag, Payloads(Values(ps)), Sizes(ps))| <= target.Length
    modifies target
    ensures Wrote(old(target[..]), target[..], at, end, ListBytes(tag, Payloads(Values(ps)), Sizes(ps)))
  {
    hide Values, Sizes, Payloads, ListBytes, SerializePath, Prefixed, Varint, Wrote;
    ghost var before, ms, sizes := target[..], Values(ps), Sizes(ps);
    ghost var ss := Payloads(ms);
    end := at;
    assert ss[..0] == [] && sizes[..0] == [];
    NoList(tag);
    WroteNothing(before, at);
    for i := 0 to |ps|
      invariant forall k :: 0 <= k < |ps| ==> ps[k].Value() == ms[k] && ps[k].cachedSize == sizes[k]
      invariant Wrote(before, target[..], at, end, ListBytes(tag, ss[..i], sizes[..i]))
      invariant end == at + |ListBytes(tag, ss[..i], sizes[..i])|
    {
      ghost var between, mid, done := target[..], end, ListBytes(tag, ss[..i], sizes[..i]);
      OneFits(tag, ss, sizes, i);
      OneMore(tag, ss, sizes, i);
      end := PathToArray(tag, ps[i], target, end);
      WroteTwice(before, between, target[..], at, mid, end, done, Prefixed(tag, sizes[i], ss[i]));
      WroteLength(before, target[..], at, end, done + Prefixed(tag, sizes[i], ss[i]));
    }
    assert ss[..|ps|] == ss && sizes[..|ps|] == sizes;
    assert Values(ps) == ms && Sizes(ps) == sizes;
  }

  method PathToArray(tag: nat, x: PathMessage, target: array<byte>, at: nat) returns (end: nat)
    requires at + |Prefixed(tag, x.cachedSize, SerializePath(x.Value()))| <= target.Length
    modifies target
    ensures Wrote(old(target[..]), target[..], at, end, Prefixed(tag, x.cachedSize, SerializePath(x.Value())))
  {
    hide SerializePath, Varint, Wrote;
    ghost var before, s := target[..], SerializePath(x.Value());
    var mid := PrefixToArray(tag, x.cachedSize, target, at);
    ghost var between := target[..];
    WroteLength(before, between, at, mid, Varint(tag) + Varint(x.cachedSize));
    end := x.SerializeWithCachedSizesToArray(target, mid);
    WroteTwice(before, between, target[..], at, mid, end, Varint(tag) + Varint(x.cachedSize), s);
    ConcatAssoc(Varint(tag), Varint(x.cachedSize), s);
  }

  /** A new element and the parse into it, within a pushed limit. */
  method ReadPath(input: CodedInputStream) returns (ok: bool, x: PathMessage)
    requires input.Valid() && input.budget >= 0
    modifies input
    ensures fresh(x)
    ensures match ReadBytes(old(input.Rest()))
            case Bad => !ok
            case Got(s, rest) =>
              match Whole(HandlePath, EMPTY_PATH, s, old(input.budget))
              case None => !ok
              case Some(v) => ok && x.Value() == v && input.Valid() && input.Rest() == rest &&
                              |rest| < |old(input.Rest())| && input.limit == old(input.limit) &&
                              input.budget == old(input.budget)
  {
    hide Parse, ReadBytes;
    x := new RequestParts.PathMessage();
    var oldLimit;
    ok, oldLimit := input.ReadLengthAndPushLimit();
    if !ok { return; }
    ok := x.MergePartialFromCodedStream(input);
    if !ok { return; }
    ok := input.CheckEntireMessageConsumedAndPopLimit(oldLimit);
  }

  class SubscriptionRequestMessage {
    var inputMessage: InputClass.InputMessage?
    var paths: seq<PathMessage>
    var config: RequestParts.ConfigMessage?
    var cachedSize: nat

    /** The singular sub-messages that are there. */
    function Inputs(): set<InputClass.InputMessage>
      reads this`inputMessage
    {
      if inputMessage == null then {} else {inputMessage}
    }

    function Configs(): set<RequestParts.ConfigMessage>
      reads this`config
    {
      if config == null then {} else {config}
    }

    function Collectors(): seq<CollectorMessage>
      reads this`inputMessage, Inputs()`collectors
    {
      if inputMessage == null then [] else inputMessage.collectors
    }

    function Value(): SubscriptionRequest
      reads this`inputMessage, this`paths, this`config
      reads Inputs()`collectors, Collectors()`address, Collectors()`port
      reads paths`path, paths`filter, paths`suppressUnchanged, paths`maxSilentInterval, paths`sampleFrequency
      reads Configs()`limitRecords, Configs()`limitTimeSeconds
    {
      SubscriptionRequest(if inputMessage == null then None else Some(inputMessage.Value()), Values(paths),
                          if config == null then None else Some(config.Value()))
    }

    /** The caches below. */
    function CachesBelow(): (c: Caches)
      reads this`inputMessage, this`paths, this`config, Inputs()`collectors
      reads Inputs()`cachedSize, Collectors()`cachedSize, paths`cachedSize, Configs()`cachedSize
      ensures |c.collectors| == |Collectors()| && |c.paths| == |paths|
    {
      Caches(if inputMessage == null then 0 else inputMessage.cachedSize, InputClass.Sizes(Collectors()), Sizes(paths),
             if config == null then 0 else config.cachedSize)
    }

    /** Two requests that own no singular sub-message together. */
    ghost predicate Apart(other: SubscriptionRequestMessage)
      reads this, other
    {
      (inputMessage == null || inputMessage != other.inputMessage) && (config == null || config != other.config)
    }

    /** What has come into this message since is new. */
    twostate predicate OwnsFresh()
      reads this
    {
      (inputMessage == null || inputMessage == old(inputMessage) || fresh(inputMessage)) &&
      (config == null || config == old(config) || fresh(config)) &&
      forall x :: x in paths && x !in old(paths) ==> fresh(x)
    }

    constructor ()
      ensures Value() == EMPTY_REQUEST && inputMessage == null && config == null && paths == []
    {
      inputMessage, paths, config, cachedSize := null, [], null, 0;
    }

    method Clear()
      modifies this
      ensures Value() == EMPTY_REQUEST && inputMessage == null && config == null && paths == []
    {
      inputMessage := null;
      config := null;
      paths := [];
    }

    /** The sub-message there is, or a new empty one, which makes it present. */
    method MutableInput() returns (x: InputClass.InputMessage)
      modifies this`inputMessage
      ensures x == inputMessage && (if old(inputMessage) == null then fresh(x) else x == old(inputMessage))
      ensures x.Value() == Present(old(Value()).input, EMPTY_INPUT) && Collectors() == old(Collectors())
    {
      if inputMessage == null { inputMessage := new InputClass.InputMessage(); }
      x := inputMessage;
    }

    method MutableAdditionalConfig() returns (x: RequestParts.ConfigMessage)
      modifies this`config
      ensures x == config && (if old(config) == null then fresh(x) else x == old(config))
      ensures x.Value() == Present(old(Value()).config, EMPTY_CONFIG)
    {
      if config == null { config := new RequestParts.ConfigMessage(); }
      x := config;
    }

    /** A new path at the end of the list. */
    method AddPathList() returns (x: PathMessage)
      modifies this`paths
      ensures fresh(x) && paths == old(paths) + [x] && x.Value() == EMPTY_PATH
    {
      x := new RequestParts.PathMessage();
      paths := paths + [x];
    }

    method MergePathsFrom(from: SubscriptionRequestMessage)
      requires from != this
      modifies this`paths
      ensures Value() == old(Value()).(paths := old(Value()).paths + from.Value().paths)
      ensures from.Value() == old(from.Value())
      ensures forall x :: x in paths && x !in old(paths) ==> fresh(x)
    {
      hide Values, InputClass.Values, InputClass.InputMessage.Value;
      var copies := CopyPaths(from.paths);
      ValuesAppend(paths, copies);
      paths := paths + copies;
    }

    method MergeInputFrom(from: SubscriptionRequestMessage)
      requires from != this && Apart(from)
      modifies this`inputMessage, inputMessage
      ensures Value() == old(Value()).(input := MergeRequest(old(Value()), from.Value()).input)
      ensures from.Value() == old(from.Value()) && Apart(from)
      ensures inputMessage == null || inputMessage == old(inputMessage) || fresh(inputMessage)
    {
      hide Values, InputClass.Values;
      if from.inputMessage != null {
        var x := MutableInput();
        x.MergeFrom(from.inputMessage);
      }
    }

    method MergeConfigFrom(from: SubscriptionRequestMessage)
      requires from != this && Apart(from)
      modifies this`config, config
      ensures Value() == old(Value()).(config := MergeRequest(old(Value()), from.Value()).config)
      ensures from.Value() == old(from.Value()) && Apart(from)
      ensures config == null || config == old(config) || fresh(config)
    {
      hide Values, InputClass.Values;
      if from.config != null {
        var x := MutableAdditionalConfig();
        x.MergeFrom(from.config);
      }
    }

    /** Sub-messages merge recursively, in the objects that are there; the other message keeps its own. */
    method MergeFrom(from: SubscriptionRequestMessage)
      requires from != this && Apart(from)
      modifies this, inputMessage, config
      ensures Value() == MergeRequest(old(Value()), from.Value())
      ensures from.Value() == old(from.Value()) && Apart(from) && OwnsFresh()
    {
      hide Value;
      MergePathsFrom(from);
      MergeInputFrom(from);
      MergeConfigFrom(from);
    }

    method CopyFrom(from: SubscriptionRequestMessage)
      requires from == this || Apart(from)
      modifies this
      ensures Value() == old(from.Value())
    {
      hide Values, InputClass.Values;
      if from == this { return; }
      Clear();
      ghost var m := from.Value();
      assert [] + m.paths == m.paths;
      assert m.input.Some? ==> [] + m.input.value.collectors == m.input.value.collectors;
      MergeFrom(from);
    }

    /** MessageSizeNoVirtual and a byte for the tag, if there is an input; its caches are right afterwards. */
    method SizeOfInput() returns (total: nat)
      modifies Inputs()`cachedSize, Collectors()`cachedSize
      ensures Value() == old(Value()) && Collectors() == old(Collectors())
      ensures var m, c := Value(), CachesBelow(); InputFresh(m, c) && total == |InputPart(m, c)|
    {
      hide Values, Sizes, InputClass.Values, InputClass.Sizes, InputClass.Payloads;
      hide ListBytes, SerializeInput, VarintSize;
      total := 0;
      if inputMessage != null {
        var n := inputMessage.ByteSize();
        total := total + 1 + VarintSize(n) + n;
        InputClass.WrittenIfFresh(inputMessage.Value(), InputClass.Sizes(Collectors()));
        PrefixedSize(10, n, SerializeInput(inputMessage.Value()));
      }
    }

    method SizeOfConfig() returns (total: nat)
      modifies Configs()`cachedSize
      ensures Value() == old(Value())
      ensures var m, c := Value(), CachesBelow(); ConfigFresh(m, c) && total == |ConfigPart(m, c)|
    {
      hide Values, Sizes, InputClass.Values, InputClass.Sizes, SerializeConfig, VarintSize;
      total := 0;
      if config != null {
        var n := config.ByteSize();
        total := total + 1 + VarintSize(n) + n;
        PrefixedSize(26, n, SerializeConfig(config.Value()));
      }
    }

    method SizeOfSingular() returns (total: nat)
      modifies Inputs()`cachedSize, Collectors()`cachedSize, Configs()`cachedSize
      ensures Value() == old(Value()) && Collectors() == old(Collectors())
      ensures var m, c := Value(), CachesBelow();
              InputFresh(m, c) && ConfigFresh(m, c) && total == |InputPart(m, c)| + |ConfigPart(m, c)|
    {
      hide Values, Sizes, InputClass.Values, InputClass.Sizes, InputFresh, ConfigFresh, InputPart, ConfigPart;
      total := SizeOfInput();
      ghost var m, c := Value(), CachesBelow();
      var n := SizeOfConfig();
      total := total + n;
      SameInputCaches(m, c, CachesBelow());
    }

    method SizeOfPathList() returns (total: nat)
      modifies paths`cachedSize
      ensures Value() == old(Value()) && Collectors() == old(Collectors())
      ensures CachesBelow() == old(CachesBelow()).(paths := CachesBelow().paths)
      ensures var ss, c := Payloads(Value().paths), CachesBelow();
              |c.paths| == |ss| && Fresh(ss, c.paths) && total == |ListBytes(18, ss, c.paths)|
    {
      hide Values, Sizes, InputClass.Values, InputClass.Sizes, Payloads, ListBytes, Fresh;
      total := SizeOfPaths(18, paths);
    }

    lemma CachesFit()
      ensures Fit(Value(), CachesBelow())
    {
      hide Values, Sizes, InputClass.Values, InputClass.Sizes;
    }

    /** Afterwards every cache in the tree is right. The value of the message does not change. */
    method ByteSize() returns (total: nat)
      modifies this`cachedSize, Inputs()`cachedSize, Collectors()`cachedSize, Configs()`cachedSize, paths`cachedSize
      ensures Value() == old(Value()) && total == cachedSize == |SerializeRequest(Value())|
      ensures Collectors() == old(Collectors())
      ensures Fit(Value(), CachesBelow()) && TreeFresh(Value(), CachesBelow())
    {
      hide Payloads, InputFresh, ConfigFresh, InputPart, ConfigPart, ListBytes, SerializeRequest, Fresh;
      hide Value, CachesBelow;
      total := SizeOfSingular();
      ghost var m, c := Value(), CachesBelow();
      CachesFit();
      var n := SizeOfPathList();
      ghost var d := CachesBelow();
      CachesFit();
      SameInputCaches(m, c, d);
      SameConfigCaches(m, c, d);
      WrittenIfFresh(m, d);
      total := total + n;
      cachedSize := total;
      assert Value() == m && CachesBelow() == d;
    }

    method WriteInput(output: CodedOutputStream)
      modifies output
      ensures Value() == old(Value()) && CachesBelow() == old(CachesBelow()) && Fit(Value(), CachesBelow())
      ensures output.out == old(output.out) + InputPart(Value(), CachesBelow())
    {
      hide Values, Sizes, InputClass.Values, InputClass.Sizes, InputClass.InputBytes, Varint;
      ghost var before := output.out;
      assert before + [] == before;
      if inputMessage != null {
        output.WriteVarint(10);
        output.WriteVarint(inputMessage.cachedSize);
        inputMessage.SerializeWithCachedSizes(output);
        PrefixedInParts(before, 10, inputMessage.cachedSize,
                        InputClass.InputBytes(inputMessage.Value(), InputClass.Sizes(inputMessage.collectors)));
      }
    }

    method WriteConfig(output: CodedOutputStream)
      modifies output
      ensures Value() == old(Value()) && CachesBelow() == old(CachesBelow())
      ensures output.out == old(output.out) + ConfigPart(Value(), CachesBelow())
    {
      hide Values, Sizes, InputClass.Values, InputClass.Sizes, SerializeConfig, Varint;
      ghost var before := output.out;
      assert before + [] == before;
      if config != null {
        output.WriteVarint(26);
        output.WriteVarint(config.cachedSize);
        config.SerializeWithCachedSizes(output);
        PrefixedInParts(before, 26, config.cachedSize, SerializeConfig(config.Value()));
      }
    }

    method WritePathList(output: CodedOutputStream)
      modifies output
      ensures Value() == old(Value()) && CachesBelow() == old(CachesBelow()) && Fit(Value(), CachesBelow())
      ensures output.out == old(output.out) + PathsPart(Value(), CachesBelow())
    {
      hide Values, Sizes, InputClass.Values, InputClass.Sizes, Payloads, ListBytes;
      WritePaths(18, paths, output);
    }

    /** The bytes depend on the caches alone, not on the true sizes. */
    method SerializeWithCachedSizes(output: CodedOutputStream)
      modifies output
      ensures Value() == old(Value()) && Fit(Value(), CachesBelow())
      ensures output.out == old(output.out) + RequestBytes(Value(), CachesBelow())
    {
      hide InputPart, PathsPart, ConfigPart, Value, CachesBelow;
      ghost var before, m, c := output.out, Value(), CachesBelow();
      CachesFit();
      WriteInput(output);
      WritePathList(output);
      WriteConfig(output);
      ConcatAssoc(before, InputPart(m, c), PathsPart(m, c));
      ConcatAssoc(before, InputPart(m, c) + PathsPart(m, c), ConfigPart(m, c));
    }

    method InputPartToArray(target: array<byte>, at: nat) returns (end: nat)
      requires Fit(Value(), CachesBelow()) && at + |InputPart(Value(), CachesBelow())| <= target.Length
      modifies target
      ensures Value() == old(Value()) && CachesBelow() == old(CachesBelow()) && Fit(Value(), CachesBelow())
      ensures Wrote(old(target[..]), target[..], at, end, InputPart(Value(), CachesBelow()))
    {
      hide Values, Sizes, InputClass.Values, InputClass.Sizes, InputClass.InputBytes, Prefixed, Wrote;
      end := at;
      WroteNothing(target[..], at);
      if inputMessage != null { end := InputClass.InputToArray(10, inputMessage, target, at); }
    }

    method PathListToArray(target: array<byte>, at: nat) returns (end: nat)
      requires Fit(Value(), CachesBelow()) && at + |PathsPart(Value(), CachesBelow())| <= target.Length
      modifies target
      ensures Value() == old(Value()) && CachesBelow() == old(CachesBelow()) && Fit(Value(), CachesBelow())
      ensures Wrote(old(target[..]), target[..], at, end, PathsPart(Value(), CachesBelow()))
    {
      hide Values, Sizes, InputClass.Values, InputClass.Sizes, Payloads, ListBytes, Wrote;
      end := PathsToArray(18, paths, target, at);
    }

    method ConfigPartToArray(target: array<byte>, at: nat) returns (end: nat)
      requires at + |ConfigPart(Value(), CachesBelow())| <= target.Length
      modifies target
      ensures Value() == old(Value()) && CachesBelow() == old(CachesBelow())
      ensures Wrote(old(target[..]), target[..], at, end, ConfigPart(Value(), CachesBelow()))
    {
      hide Values, Sizes, InputClass.Values, InputClass.Sizes, SerializeConfig, Prefixed, Wrote;
      end := at;
      WroteNothing(target[..], at);
      if config != null { end := RequestParts.ConfigToArray(26, config, target, at); }
    }

    /** The array writer writes the same bytes as the stream writer. */
    method SerializeWithCachedSizesToArray(target: array<byte>, at: nat) returns (end: nat)
      requires Fit(Value(), CachesBelow()) && at + |RequestBytes(Value(), CachesBelow())| <= target.Length
      modifies target
      ensures Fit(Value(), CachesBelow())
      ensures Wrote(old(target[..]), target[..], at, end, RequestBytes(Value(), CachesBelow()))
    {
      hide InputPart, PathsPart, ConfigPart, Wrote, Value, CachesBelow;
      ghost var before, m, c := target[..], Value(), CachesBelow();
      end := InputPartToArray(target, at);
      ghost var first, mid := target[..], end;
      WroteLength(before, first, at, mid, InputPart(m, c));
      end := PathListToArray(target, end);
      ghost var second, late := target[..], end;
      WroteLength(first, second, mid, late, PathsPart(m, c));
      WroteTwice(before, first, second, at, mid, late, InputPart(m, c), PathsPart(m, c));
      end := ConfigPartToArray(target, end);
      WroteTwice(before, second, target[..], at, late, end, InputPart(m, c) + PathsPart(m, c), ConfigPart(m, c));
    }

    // ---- Size first, then write: how the library serialises a message ------------------------------------

    method SerializeToStream(output: CodedOutputStream)
      modifies this`cachedSize, Inputs()`cachedSize, Collectors()`cachedSize, Configs()`cachedSize, paths`cachedSize
      modifies output
      ensures Value() == old(Value())
      ensures output.out == old(output.out) + SerializeRequest(Value())
    {
      hide TreeFresh, RequestBytes, SerializeRequest, Value, CachesBelow;
      var n := ByteSize();
      SerializeWithCachedSizes(output);
      WrittenIfFresh(Value(), CachesBelow());
    }

    /** The array is exactly as long as the computed size, and both writers fill it alike. */
    method SerializeToArray() returns (target: array<byte>)
      modifies this`cachedSize, Inputs()`cachedSize, Collectors()`cachedSize, Configs()`cachedSize, paths`cachedSize
      ensures Value() == old(Value())
      ensures fresh(target) && target[..] == SerializeRequest(Value())
    {
      hide TreeFresh, RequestBytes, SerializeRequest, Value, CachesBelow, Wrote;
      var n := ByteSize();
      WrittenIfFresh(Value(), CachesBelow());
      target := new byte[n](i => 0);
      ghost var empty := target[..];
      var end := SerializeWithCachedSizesToArray(target, 0);
      WroteAll(empty, target[..], end, SerializeRequest(Value()));
    }

    /** What holds after a block ended in a jump, `goal` being what the plain loop does from its start. */
    ghost predicate Jumped(j: Jump<Label>, goal: Outcome<SubscriptionRequest>, input: CodedInputStream,
                           limit: nat, depth: nat)
      reads this`inputMessage, this`paths, this`config
      reads Inputs()`collectors, Collectors()`address, Collectors()`port
      reads paths`path, paths`filter, paths`suppressUnchanged, paths`maxSilentInterval, paths`sampleFrequency
      reads Configs()`limitRecords, Configs()`limitTimeSeconds
      reads input
    {
      match j
      case Failure => goal == Failed
      case Success => Agrees(goal, true, Value(), input, limit, depth)
      case Goto(at) => AtLabel(goal, HandleRequest, at.Tag(), at.Charged(), Value(), input, limit, depth)
    }

    method ReadInput(input: CodedInputStream, ghost depth: nat) returns (ok: bool)
      requires input.Valid() && input.budget == depth
      modifies this, inputMessage, config, input
      ensures FieldRead(AfterTag(HandleRequest, old(Value()), 10, old(input.Rest()), depth),
                        HandleRequest, ok, Value(), input, old(input.Rest()),
                        old(input.limit), old(input.budget), depth)
      ensures OwnsFresh()
    {
      hide Parse, AfterTag, HandleRequest, Values, InputClass.Values, Nested, ReadBytes;
      OnInput(Value(), depth);
      TurnBytes(HandleRequest, Value(), 10, input.Rest(), depth);
      var x := MutableInput();
      ok := InputClass.ReadInput(input, x);
    }

    method ReadAdditionalConfig(input: CodedInputStream, ghost depth: nat) returns (ok: bool)
      requires input.Valid() && input.budget == depth
      modifies this, inputMessage, config, input
      ensures FieldRead(AfterTag(HandleRequest, old(Value()), 26, old(input.Rest()), depth),
                        HandleRequest, ok, Value(), input, old(input.Rest()),
                        old(input.limit), old(input.budget), depth)
      ensures OwnsFresh()
    {
      hide Parse, AfterTag, HandleRequest, Values, InputClass.Values, Nested, ReadBytes;
      OnConfig(Value(), depth);
      TurnBytes(HandleRequest, Value(), 26, input.Rest(), depth);
      var x := MutableAdditionalConfig();
      ok := RequestParts.ReadConfig(input, x);
    }

    method AddPath(input: CodedInputStream, ghost depth: nat) returns (ok: bool)
      requires input.Valid() && input.budget == depth - 1 && depth > 0
      modifies this, inputMessage, config, input
      ensures FieldRead(AfterTag(HandleRequest, old(Value()), 18, old(input.Rest()), depth),
                        HandleRequest, ok, Value(), input, old(input.Rest()),
                        old(input.limit), old(input.budget), depth)
      ensures OwnsFresh()
    {
      hide Parse, AfterTag, HandleRequest, Values, InputClass.Values, Whole, ReadBytes, HandlePath;
      OnPath(Value(), depth);
      TurnBytes(HandleRequest, Value(), 18, input.Rest(), depth);
      var x;
      ok, x := ReadPath(input);
      if !ok { return; }
      ValuesSnoc(paths, x);
      paths := paths + [x];
    }

    /** A field that is not dispatched on is skipped and forgotten. */
    method SkipUnknown(input: CodedInputStream, tag: uint32, ghost depth: nat) returns (ok: bool)
      requires input.Valid() && input.budget == depth && tag !in [0, 10, 18, 26]
      requires !IsEndGroup(tag)
      modifies this, inputMessage, config, input
      ensures FieldRead(AfterTag(HandleRequest, old(Value()), tag, old(input.Rest()), depth),
                        HandleRequest, ok, Value(), input, old(input.Rest()),
                        old(input.limit), old(input.budget), depth)
      ensures OwnsFresh()
    {
      hide Parse, AfterTag, HandleRequest, Values, InputClass.Values;
      var r;
      ok, r := ReadField(input, HandleRequest, Value(), tag);
      if ok {
        Unrecognised(Value(), r, depth);
      }
    }

    method BlockNextTag(input: CodedInputStream, ghost depth: nat) returns (j: Jump<Label>)
      requires Ready(input, NextTag.Charged(), depth)
      modifies this, inputMessage, config, input
      ensures Jumped(j, old(Resume(HandleRequest, 0, Value(), input.Rest(), depth)), input, old(input.limit), depth)
      ensures j.Goto? ==> |input.Rest()| < |old(input.Rest())|
      ensures OwnsFresh()
    {
      hide Parse, AfterTag, HandleRequest, Values, InputClass.Values;
      var tag, small := TopOfLoop(input, HandleRequest, Value(), depth);
      if small && tag == 10 {
        j := Goto(ParseInput);
      } else if small && tag == 18 {
        j := Goto(ParsePathList);
      } else if small && tag == 26 {
        j := Goto(ParseAdditionalConfig);
      } else {
        if tag == 0 || IsEndGroup(tag) { return Success; }
        var ok := SkipUnknown(input, tag, depth);
        j := if ok then Goto(NextTag) else Failure;
      }
    }

    method BlockParseInput(input: CodedInputStream, ghost depth: nat) returns (j: Jump<Label>)
      requires Ready(input, ParseInput.Charged(), depth)
      modifies this, inputMessage, config, input
      ensures Jumped(j, old(Resume(HandleRequest, 10, Value(), input.Rest(), depth)), input, old(input.limit), depth)
      ensures j.Goto? ==> |input.Rest()| < |old(input.Rest())|
      ensures OwnsFresh()
    {
      hide Parse, AfterTag, HandleRequest, Values, InputClass.Values;
      var ok := ReadInput(input, depth);
      if !ok { return Failure; }
      var hit := Predict(input, HandleRequest, Value(), depth, 18);
      j := Goto(if hit then ParsePathList else NextTag);
    }

    method BlockParsePathList(input: CodedInputStream, ghost depth: nat) returns (j: Jump<Label>)
      requires Ready(input, ParsePathList.Charged(), depth)
      modifies this, inputMessage, config, input
      ensures Jumped(j, old(Resume(HandleRequest, 18, Value(), input.Rest(), depth)), input, old(input.limit), depth)
      ensures j.Goto? ==> input.Rest() == old(input.Rest()) && j.at.LoopPathList?
      ensures OwnsFresh()
    {
      hide Parse, AfterTag, HandleRequest, Values, InputClass.Values;
      var ok := input.IncrementRecursionDepth();
      if !ok { NoBudget(Value(), 18, input.Rest()); return Failure; }
      j := Goto(LoopPathList);
    }

    method BlockLoopPathList(input: CodedInputStream, ghost depth: nat) returns (j: Jump<Label>)
      requires Ready(input, LoopPathList.Charged(), depth)
      modifies this, inputMessage, config, input
      ensures Jumped(j, old(Resume(HandleRequest, 18, Value(), input.Rest(), depth)), input, old(input.limit), depth)
      ensures j.Goto? ==> |input.Rest()| < |old(input.Rest())|
      ensures OwnsFresh()
    {
      hide Parse, AfterTag, HandleRequest, Values, InputClass.Values;
      var ok := AddPath(input, depth);
      if !ok { return Failure; }
      var hit := Predict(input, HandleRequest, Value(), depth, 18);
      if hit { return Goto(LoopPathList); }
      input.UnsafeDecrementRecursionDepth();
      hit := Predict(input, HandleRequest, Value(), depth, 26);
      j := Goto(if hit then ParseAdditionalConfig else NextTag);
    }

    method BlockParseAdditionalConfig(input: CodedInputStream, ghost depth: nat) returns (j: Jump<Label>)
      requires Ready(input, ParseAdditionalConfig.Charged(), depth)
      modifies this, inputMessage, config, input
      ensures Jumped(j, old(Resume(HandleRequest, 26, Value(), input.Rest(), depth)), input, old(input.limit), depth)
      ensures j.Goto? ==> |input.Rest()| < |old(input.Rest())|
      ensures OwnsFresh()
    {
      hide Parse, AfterTag, HandleRequest, Values, InputClass.Values;
      var ok := ReadAdditionalConfig(input, depth);
      if !ok { return Failure; }
      var hit := input.ExpectAtEnd();
      if hit { TurnAtEnd(HandleRequest, Value(), input.Rest(), depth); return Success; }
      j := Goto(NextTag);
    }

    /** For every byte string and every way the predictions may answer: the verdict, the message,
        the leftover input and the recursion budget are those of the plain loop. Every turn consumes
        input, or enters a loop of sub-messages, or leaves. */
    method MergePartialFromCodedStream(input: CodedInputStream) returns (ok: bool)
      requires input.Valid() && input.budget >= 0
      modifies this, inputMessage, config, input
      ensures Agrees(Parse(HandleRequest, old(Value()), old(input.Rest()), old(input.budget)), ok, Value(), input,
                     old(input.limit), old(input.budget))
      ensures OwnsFresh()
    {
      hide Parse, AfterTag, HandleRequest, Values, InputClass.Values;
      ghost var depth: nat := input.budget;
      ghost var goal := Parse(HandleRequest, Value(), input.Rest(), depth);
      var j := Goto(NextTag);
      while j.Goto?
        invariant Jumped(j, goal, input, old(input.limit), depth)
        invariant OwnsFresh()
        decreases if j.Goto? then 1 else 0, if j.Goto? then |input.Rest()| else 0,
                  if j.Goto? && j.at.ParsePathList? then 1 else 0
      {
        match j.at
        case NextTag => j := BlockNextTag(input, depth);
        case ParseInput => j := BlockParseInput(input, depth);
        case ParsePathList => j := BlockParsePathList(input, depth);
        case LoopPathList => j := BlockLoopPathList(input, depth);
        case ParseAdditionalConfig => j := BlockParseAdditionalConfig(input, depth);
      }
      ok := j.Success?;
    }
  }

  /** How the plain loop takes the sub-messages. */
  lemma OnInput(m: SubscriptionRequest, depth: nat)
    ensures forall s :: HandleRequest(m, BytesField(1, s), depth)
                     == match Nested(HandleInput, Present(m.input, EMPTY_INPUT), s, depth)
                        case None => None case Some(x) => Some(m.(input := Some(x)))
  {
  }

  lemma OnConfig(m: SubscriptionRequest, depth: nat)
    ensures forall s :: HandleRequest(m, BytesField(3, s), depth)
                     == match Nested(HandleConfig, Present(m.config, EMPTY_CONFIG), s, depth)
                        case None => None case Some(x) => Some(m.(config := Some(x)))
  {
  }

  lemma OnPath(m: SubscriptionRequest, depth: nat)
    requires depth > 0
    ensures forall s :: HandleRequest(m, BytesField(2, s), depth)
                     == match Whole(HandlePath, EMPTY_PATH, s, depth - 1)
                        case None => None case Some(x) => Some(m.(paths := m.paths + [x]))
  {
  }

  /** Without recursion budget a sub-message fails in the plain loop too. */
  lemma NoBudget(m: SubscriptionRequest, tag: nat, bs: bytes)
    requires tag == 18
    ensures AfterTag(HandleRequest, m, tag, bs, 0) == Failed
  {
    hide Parse, AfterTag;
    TurnBytes(HandleRequest, m, tag, bs, 0);
  }

  /** Records with other tags are not fields of this message. */
  lemma Unrecognised(m: SubscriptionRequest, r: Record, depth: nat)
    requires TagOf(r) !in [10, 18, 26]
    ensures HandleRequest(m, r, depth) == Some(m)
  {
  }

  // ---- The client's request ----------------------------------------------------------------------------

  /** The request that subscribeTelemetry sends: one path for each name, with the frequency and nothing else set. The
      configuration is present even without limits; a limit of 2^31 or more becomes negative. */
  method BuildRequest(names: seq<bytes>, frequency: uint32, limitRecords: uint32, limitSeconds: uint32)
    returns (request: SubscriptionRequestMessage)
    ensures fresh(request)
    ensures request.Value().input == None && |request.Value().paths| == |names|
    ensures forall i :: 0 <= i < |names| ==> request.Value().paths[i] == Path(names[i], [], false, 0, frequency)
    ensures request.Value().config == Some(AdditionalConfig(ToI32(limitRecords), ToI32(limitSeconds)))
  {
    hide ToI32;
    request := new SubscriptionRequestMessage();
    var config := request.MutableAdditionalConfig();
    for i := 0 to |names|
      invariant request.config == config && request.inputMessage == null && config.Value() == EMPTY_CONFIG
      invariant fresh(config) && |request.paths| == i && forall x :: x in request.paths ==> fresh(x)
      invariant forall k :: 0 <= k < i ==> request.paths[k].Value() == Path(names[k], [], false, 0, frequency)
    {
      var x := request.AddPathList();
      x.path := names[i];
      x.sampleFrequency := frequency;
    }
    LimitsOrZero(limitRecords);
    LimitsOrZero(limitSeconds);
    if limitRecords != 0 { config.limitRecords := ToI32(limitRecords); }
    if limitSeconds != 0 { config.limitTimeSeconds := ToI32(limitSeconds); }
  }

  /** A limit that is not set stays at zero. */
  lemma LimitsOrZero(limit: uint32)
    ensures limit == 0 ==> ToI32(limit) == 0
  {
  }

  /** The server reads exactly the request y that was built, if the path names are UTF-8 text. */
  lemma ServerReadsRequest(y: SubscriptionRequest, names: seq<bytes>, frequency: uint32, depth: nat)
    requires depth > 0 && forall i :: 0 <= i < |names| ==> Utf8.ValidUtf8(names[i])
    requires y.input == None && y.config.Some? && |y.paths| == |names|
    requires forall i :: 0 <= i < |names| ==> y.paths[i] == Path(names[i], [], false, 0, frequency)
    requires |SerializeRequest(y)| < TWO31
    ensures Whole(HandleRequest, EMPTY_REQUEST, SerializeRequest(y), depth) == Some(y)
  {
    hide HandleRequest, SerializeRequest, Whole, PathsOk, Utf8.ValidUtf8;
    EmptyTextOk();
    forall i | 0 <= i < |y.paths| ensures PathOk(y.paths[i]) { assert Utf8.ValidUtf8(names[i]); }
    AllPathsOk(y.paths, depth);
    RequestRoundTrip(y, depth);
  }

  lemma {:induction false} AllPathsOk(ps: seq<Path>, depth: nat)
    requires depth > 0 && forall i :: 0 <= i < |ps| ==> PathOk(ps[i])
    ensures PathsOk(ps, depth)
    decreases |ps|
  {
    hide Utf8.ValidUtf8;
    if ps != [] { AllPathsOk(ps[1..], depth); }
  }

  lemma EmptyTextOk()
    ensures Utf8.ValidUtf8([])
  {
  }
}
