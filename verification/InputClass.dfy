/** telemetry.SubscriptionInput as the generated class: it owns Collector objects. */
module InputClass {
  import opened Wire
  import opened Records
  import opened PlainLoop
  import opened Proto3
  import opened CodedStream
  import opened CodedOutput
  import opened PredictedLoop
  import opened CachedSizes
  import opened TelemetryRequest
  import RequestParts

  type CollectorMessage = RequestParts.CollectorMessage

  // ---- What the writers write, given the cached sizes ----------------------------------------------

  /** The nested messages. */
  function Payloads(cs: seq<Collector>): (ss: seq<bytes>)
    ensures |ss| == |cs| && forall i :: 0 <= i < |cs| ==> ss[i] == SerializeCollector(cs[i])
  {
    seq(|cs|, i requires 0 <= i < |cs| => SerializeCollector(cs[i]))
  }

  lemma {:induction false} PayloadRecords(cs: seq<Collector>)
    ensures CollectorsRecords(cs) == NestedRecords(1, Payloads(cs))
    decreases |cs|
  {
    hide SerializeCollector;
    if cs != [] {
      PayloadRecords(cs[1..]);
      assert Payloads(cs)[1..] == Payloads(cs[1..]);
    }
  }

  function InputBytes(m: SubscriptionInput, sizes: seq<nat>): bytes
    requires |sizes| == |m.collectors|
  {
    ListBytes(10, Payloads(m.collectors), sizes)
  }

  lemma WrittenIfFresh(m: SubscriptionInput, sizes: seq<nat>)
    requires |sizes| == |m.collectors| && Fresh(Payloads(m.collectors), sizes)
    ensures InputBytes(m, sizes) == SerializeInput(m)
  {
    hide Payloads, ListBytes, CollectorsRecords;
    PayloadRecords(m.collectors);
    ListFresh(1, Payloads(m.collectors), sizes);
  }

  datatype Label =
    | NextTag
    | LoopCollectorList
  {
    /** The tag that has been consumed when control is here; 0 at the top of the loop. */
    function Tag(): nat
    {
      match this
      case NextTag => 0
      case LoopCollectorList => 10
    }

    /** Whether the recursion depth has been charged for sub-messages when control is here. */
    predicate Charged() { LoopCollectorList? }
  }

  // ---- The objects -------------------------------------------------------------------------------------

  function Values(cs: seq<CollectorMessage>): (r: seq<Collector>)
    reads cs`address, cs`port
    ensures |r| == |cs| && forall i :: 0 <= i < |cs| ==> r[i] == cs[i].Value()
  {
    if cs == [] then [] else [cs[0].Value()] + Values(cs[1..])
  }

  function Sizes(cs: seq<CollectorMessage>): (r: seq<nat>)
    reads cs`cachedSize
    ensures |r| == |cs| && forall i :: 0 <= i < |cs| ==> r[i] == cs[i].cachedSize
  {
    if cs == [] then [] else [cs[0].cachedSize] + Sizes(cs[1..])
  }

  lemma ValuesAppend(a: seq<CollectorMessage>, b: seq<CollectorMessage>)
    ensures Values(a + b) == Values(a) + Values(b)
  {
  }

  lemma ValuesSnoc(a: seq<CollectorMessage>, x: CollectorMessage)
    ensures Values(a + [x]) == Values(a) + [x.Value()]
  {
  }

  /** New objects with the values of the given ones. */
  method CopyCollectors(from: seq<CollectorMessage>) returns (copies: seq<CollectorMessage>)
    ensures Values(copies) == Values(from) && forall x :: x in copies ==> fresh(x)
  {
    hide Values;
    copies := [];
    for i := 0 to |from|
      invariant |copies| == i && forall x :: x in copies ==> fresh(x)
      invariant forall k :: 0 <= k < i ==> copies[k].Value() == from[k].Value()
    {
      var x := new RequestParts.CollectorMessage();
      x.MergeFrom(from[i]);
      copies := copies + [x];
    }
  }

  /** The size of the repeated field; on the way every element caches its own. */
  method SizeOfCollectors(tag: nat, cs: seq<CollectorMessage>) returns (total: nat)
    requires tag < 128
    modifies cs`cachedSize
    ensures Values(cs) == old(Values(cs)) && Fresh(Payloads(Values(cs)), Sizes(cs))
    ensures total == |ListBytes(tag, Payloads(Values(cs)), Sizes(cs))|
  {
    hide Values, Sizes, Payloads, ListBytes, SerializeCollector, Prefixed, VarintSize;
    ghost var ms, ss := Values(cs), Payloads(Values(cs));
    ghost var sizes := Lengths(ss);
    total := |cs|;
    assert ss[..0] == [] && sizes[..0] == [];
    NoList(tag);
    for i := 0 to |cs|
      invariant forall k :: 0 <= k < |cs| ==> cs[k].Value() == ms[k]
      invariant forall k :: 0 <= k < i ==> cs[k].cachedSize == sizes[k]
      invariant total == |cs| - i + |ListBytes(tag, ss[..i], sizes[..i])|
    {
      var n := cs[i].ByteSize();
      total := total + n + VarintSize(n);
      OneMore(tag, ss, sizes, i);
      PrefixedSize(tag, sizes[i], ss[i]);
    }
    assert ss[..|cs|] == ss && sizes[..|cs|] == sizes;
    assert Values(cs) == ms && Sizes(cs) == sizes;
  }

  /** WriteMessageMaybeToArray for every element: tag, cached size, message. */
  method WriteCollectors(tag: nat, cs: seq<CollectorMessage>, output: CodedOutputStream)
    modifies output
    ensures output.out == old(output.out) + ListBytes(tag, Payloads(Values(cs)), Sizes(cs))
  {
    hide Values, Sizes, Payloads, ListBytes, SerializeCollector, Prefixed, Varint;
    ghost var before, ms, sizes := output.out, Values(cs), Sizes(cs);
    ghost var ss := Payloads(ms);
    assert ss[..0] == [] && sizes[..0] == [] && before + [] == before;
    NoList(tag);
    for i := 0 to |cs|
      invariant forall k :: 0 <= k < |cs| ==> cs[k].Value() == ms[k] && cs[k].cachedSize == sizes[k]
      invariant output.out == before + ListBytes(tag, ss[..i], sizes[..i])
    {
      output.WriteVarint(tag);
      output.WriteVarint(cs[i].cachedSize);
      cs[i].SerializeWithCachedSizes(output);
      OneMoreWritten(before, tag, ss, sizes, i);
    }
    assert ss[..|cs|] == ss && sizes[..|cs|] == sizes;
    assert Values(cs) == ms && Sizes(cs) == sizes;
  }

  /** WriteMessageNoVirtualToArray for every element. */
  method CollectorsToArray(tag: nat, cs: seq<CollectorMessage>, target: array<byte>, at: nat) returns (end: nat)
    requires at + |ListBytes(tag, Payloads(Values(cs)), Sizes(cs))| <= target.Length
    modifies target
    ensures Wrote(old(target[..]), target[..], at, end, ListBytes(tag, Payloads(Values(cs)), Sizes(cs)))
  {
    hide Values, Sizes, Payloads, ListBytes, SerializeCollector, Prefixed, Varint, Wrote;
    ghost var before, ms, sizes := target[..], Values(cs), Sizes(cs);
    ghost var ss := Payloads(ms);
    end := at;
    assert ss[..0] == [] && sizes[..0] == [];
    NoList(tag);
    WroteNothing(before, at);
    for i := 0 to |cs|
      invariant forall k :: 0 <= k < |cs| ==> cs[k].Value() == ms[k] && cs[k].cachedSize == sizes[k]
      invariant Wrote(before, target[..], at, end, ListBytes(tag, ss[..i], sizes[..i]))
      invariant end == at + |ListBytes(tag, ss[..i], sizes[..i])|
    {
      ghost var between, mid, done := target[..], end, ListBytes(tag, ss[..i], sizes[..i]);
      OneFits(tag, ss, sizes, i);
      OneMore(tag, ss, sizes, i);
      end := CollectorToArray(tag, cs[i], target, end);
      WroteTwice(before, between, target[..], at, mid, end, done, Prefixed(tag, sizes[i], ss[i]));
      WroteLength(before, target[..], at, end, done + Prefixed(tag, sizes[i], ss[i]));
    }
    assert ss[..|cs|] == ss && sizes[..|cs|] == sizes;
    assert Values(cs) == ms && Sizes(cs) == sizes;
  }

  method CollectorToArray(tag: nat, x: CollectorMessage, target: array<byte>, at: nat) returns (end: nat)
    requires at + |Prefixed(tag, x.cachedSize, SerializeCollector(x.Value()))| <= target.Length
    modifies target
    ensures Wrote(old(target[..]), target[..], at, end, Prefixed(tag, x.cachedSize, SerializeCollector(x.Value())))
  {
    hide SerializeCollector, Varint, Wrote;
    ghost var before, s := target[..], SerializeCollector(x.Value());
    var mid := PrefixToArray(tag, x.cachedSize, target, at);
    ghost var between := target[..];
    WroteLength(before, between, at, mid, Varint(tag) + Varint(x.cachedSize));
    end := x.SerializeWithCachedSizesToArray(target, mid);
    WroteTwice(before, between, target[..], at, mid, end, Varint(tag) + Varint(x.cachedSize), s);
    ConcatAssoc(Varint(tag), Varint(x.cachedSize), s);
  }

  /** A new element and the parse into it, within a pushed limit. */
  method ReadCollector(input: CodedInputStream) returns (ok: bool, x: CollectorMessage)
    requires input.Valid() && input.budget >= 0
    modifies input
    ensures fresh(x)
    ensures match ReadBytes(old(input.Rest()))
            case Bad => !ok
            case Got(s, rest) =>
              match Whole(HandleCollector, EMPTY_COLLECTOR, s, old(input.budget))
              case None => !ok
              case Some(v) => ok && x.Value() == v && input.Valid() && input.Rest() == rest &&
                              |rest| < |old(input.Rest())| && input.limit == old(input.limit) &&
                              input.budget == old(input.budget)
  {
    hide Parse, ReadBytes;
    x := new RequestParts.CollectorMessage();
    var oldLimit;
    ok, oldLimit := input.ReadLengthAndPushLimit();
    if !ok { return; }
    ok := x.MergePartialFromCodedStream(input);
    if !ok { return; }
    ok := input.CheckEntireMessageConsumedAndPopLimit(oldLimit);
  }

  class InputMessage {
    var collectors: seq<CollectorMessage>
    var cachedSize: nat

    function Value(): SubscriptionInput
      reads this`collectors, collectors`address, collectors`port
    {
      SubscriptionInput(Values(collectors))
    }

    constructor ()
      ensures Value() == EMPTY_INPUT && collectors == []
    {
      collectors, cachedSize := [], 0;
    }

    method Clear()
      modifies this`collectors
      ensures Value() == EMPTY_INPUT && collectors == []
    {
      collectors := [];
    }

    /** The list grows by copies; the other message shares none of them. */
    method MergeFrom(from: InputMessage)
      requires from != this
      modifies this`collectors
      ensures Value() == MergeInput(old(Value()), from.Value()) && from.Value() == old(from.Value())
      ensures forall x :: x in collectors && x !in old(collectors) ==> fresh(x)
    {
      hide Values;
      var copies := CopyCollectors(from.collectors);
      ValuesAppend(collectors, copies);
      collectors := collectors + copies;
    }

    method CopyFrom(from: InputMessage)
      modifies this`collectors
      ensures Value() == old(from.Value())
    {
      if from == this { return; }
      Clear();
      MergeFrom(from);
    }

    /** Afterwards every cache below is right. The value of the message does not change. */
    method ByteSize() returns (total: nat)
      modifies this`cachedSize, collectors`cachedSize
      ensures Value() == old(Value())
      ensures total == cachedSize == |SerializeInput(Value())| && Fresh(Payloads(Value().collectors), Sizes(collectors))
    {
      hide Values, Sizes, Payloads, ListBytes, SerializeInput;
      total := SizeOfCollectors(10, collectors);
      cachedSize := total;
      WrittenIfFresh(Value(), Sizes(collectors));
    }

    /** The bytes depend on the caches alone, not on the true sizes. */
    method SerializeWithCachedSizes(output: CodedOutputStream)
      modifies output
      ensures output.out == old(output.out) + InputBytes(Value(), Sizes(collectors))
    {
      hide Values, Sizes, Payloads, ListBytes;
      WriteCollectors(10, collectors, output);
    }

    method SerializeWithCachedSizesToArray(target: array<byte>, at: nat) returns (end: nat)
      requires at + |InputBytes(Value(), Sizes(collectors))| <= target.Length
      modifies target
      ensures Wrote(old(target[..]), target[..], at, end, InputBytes(Value(), Sizes(collectors)))
    {
      hide Values, Sizes, Payloads, ListBytes, Wrote;
      end := CollectorsToArray(10, collectors, target, at);
    }

    /** What holds after a block ended in a jump, `goal` being what the plain loop does from its start. */
    ghost predicate Jumped(j: Jump<Label>, goal: Outcome<SubscriptionInput>, input: CodedInputStream,
                           limit: nat, depth: nat)
      reads this`collectors, collectors`address, collectors`port, input
    {
      match j
      case Failure => goal == Failed
      case Success => Agrees(goal, true, Value(), input, limit, depth)
      case Goto(at) => AtLabel(goal, HandleInput, at.Tag(), at.Charged(), Value(), input, limit, depth)
    }

    method AddCollector(input: CodedInputStream, ghost depth: nat) returns (ok: bool)
      requires input.Valid() && input.budget == depth - 1 && depth > 0
      modifies this, input
      ensures FieldRead(AfterTag(HandleInput, old(Value()), 10, old(input.Rest()), depth),
                        HandleInput, ok, Value(), input, old(input.Rest()),
                        old(input.limit), old(input.budget), depth)
      ensures forall x :: x in collectors && x !in old(collectors) ==> fresh(x)
    {
      hide Parse, AfterTag, HandleInput, Values, Whole, ReadBytes, HandleCollector;
      OnCollector(Value(), depth);
      TurnBytes(HandleInput, Value(), 10, input.Rest(), depth);
      var x;
      ok, x := ReadCollector(input);
      if !ok { return; }
      ValuesSnoc(collectors, x);
      collectors := collectors + [x];
    }

    /** A field that is not dispatched on is skipped and forgotten. */
    method SkipUnknown(input: CodedInputStream, tag: uint32, ghost depth: nat) returns (ok: bool)
      requires input.Valid() && input.budget == depth && tag !in [0, 10]
      requires !IsEndGroup(tag)
      modifies this, input
      ensures FieldRead(AfterTag(HandleInput, old(Value()), tag, old(input.Rest()), depth),
                        HandleInput, ok, Value(), input, old(input.Rest()),
                        old(input.limit), old(input.budget), depth)
      ensures forall x :: x in collectors && x !in old(collectors) ==> fresh(x)
    {
      hide Parse, AfterTag, HandleInput, Values, Value;
      var r;
      ok, r := ReadField(input, HandleInput, Value(), tag);
      if ok {
        Unrecognised(Value(), r, depth);
      }
    }

    method BlockNextTag(input: CodedInputStream, ghost depth: nat) returns (j: Jump<Label>)
      requires Ready(input, NextTag.Charged(), depth)
      modifies this, input
      ensures Jumped(j, old(Resume(HandleInput, 0, Value(), input.Rest(), depth)), input, old(input.limit), depth)
      ensures j.Goto? ==> |input.Rest()| < |old(input.Rest())|
      ensures forall x :: x in collectors && x !in old(collectors) ==> fresh(x)
    {
      hide Parse, AfterTag, HandleInput, Values, Value;
      var tag, small := TopOfLoop(input, HandleInput, Value(), depth);
      if small && tag == 10 {
        var ok := input.IncrementRecursionDepth();
        if !ok { NoBudget(Value(), tag, input.Rest()); return Failure; }
        j := Goto(LoopCollectorList);
      } else {
        if tag == 0 || IsEndGroup(tag) { return Success; }
        var ok := SkipUnknown(input, tag, depth);
        j := if ok then Goto(NextTag) else Failure;
      }
    }

    method BlockLoopCollectorList(input: CodedInputStream, ghost depth: nat) returns (j: Jump<Label>)
      requires Ready(input, LoopCollectorList.Charged(), depth)
      modifies this, input
      ensures Jumped(j, old(Resume(HandleInput, 10, Value(), input.Rest(), depth)), input, old(input.limit), depth)
      ensures j.Goto? ==> |input.Rest()| < |old(input.Rest())|
      ensures forall x :: x in collectors && x !in old(collectors) ==> fresh(x)
    {
      hide Parse, AfterTag, HandleInput, Values, Value;
      var ok := AddCollector(input, depth);
      if !ok { return Failure; }
      var hit := Predict(input, HandleInput, Value(), depth, 10);
      if hit { return Goto(LoopCollectorList); }
      input.UnsafeDecrementRecursionDepth();
      hit := input.ExpectAtEnd();
      if hit { TurnAtEnd(HandleInput, Value(), input.Rest(), depth); return Success; }
      j := Goto(NextTag);
    }

    /** For every byte string and every way the predictions may answer: the verdict, the message,
        the leftover input and the recursion budget are those of the plain loop. Every turn consumes
        input, or enters a loop of sub-messages, or leaves. */
    method MergePartialFromCodedStream(input: CodedInputStream) returns (ok: bool)
      requires input.Valid() && input.budget >= 0
      modifies this, input
      ensures Agrees(Parse(HandleInput, old(Value()), old(input.Rest()), old(input.budget)), ok, Value(), input,
                     old(input.limit), old(input.budget))
      ensures forall x :: x in collectors && x !in old(collectors) ==> fresh(x)
    {
      hide Parse, AfterTag, HandleInput, Values, Value;
      ghost var depth: nat := input.budget;
      ghost var goal := Parse(HandleInput, Value(), input.Rest(), depth);
      var j := Goto(NextTag);
      while j.Goto?
        invariant Jumped(j, goal, input, old(input.limit), depth)
        invariant forall x :: x in collectors && x !in old(collectors) ==> fresh(x)
        decreases if j.Goto? then 1 else 0, if j.Goto? then |input.Rest()| else 0
      {
        match j.at
        case NextTag => j := BlockNextTag(input, depth);
        case LoopCollectorList => j := BlockLoopCollectorList(input, depth);
      }
      ok := j.Success?;
    }
  }

  method InputToArray(tag: nat, x: InputMessage, target: array<byte>, at: nat) returns (end: nat)
    requires at + |Prefixed(tag, x.cachedSize, InputBytes(x.Value(), Sizes(x.collectors)))| <= target.Length
    modifies target
    ensures Wrote(old(target[..]), target[..], at, end,
                  Prefixed(tag, x.cachedSize, InputBytes(x.Value(), Sizes(x.collectors))))
  {
    hide InputBytes, Values, Sizes, Varint, Wrote;
    ghost var before, s := target[..], InputBytes(x.Value(), Sizes(x.collectors));
    var mid := PrefixToArray(tag, x.cachedSize, target, at);
    ghost var between := target[..];
    WroteLength(before, between, at, mid, Varint(tag) + Varint(x.cachedSize));
    end := x.SerializeWithCachedSizesToArray(target, mid);
    WroteTwice(before, between, target[..], at, mid, end, Varint(tag) + Varint(x.cachedSize), s);
    ConcatAssoc(Varint(tag), Varint(x.cachedSize), s);
  }

  /** ReadMessageNoVirtual: the parse into a message that is there, within a pushed limit and one level deeper. */
  method ReadInput(input: CodedInputStream, x: InputMessage) returns (ok: bool)
    requires input.Valid() && input.budget >= 0
    modifies input, x
    ensures forall c :: c in x.collectors && c !in old(x.collectors) ==> fresh(c)
    ensures match ReadBytes(old(input.Rest()))
            case Bad => !ok
            case Got(s, rest) =>
              match Nested(HandleInput, old(x.Value()), s, old(input.budget))
              case None => !ok
              case Some(v) => ok && x.Value() == v && input.Valid() && input.Rest() == rest &&
                              |rest| < |old(input.Rest())| && input.limit == old(input.limit) &&
                              input.budget == old(input.budget)
  {
    hide Parse, HandleInput, Values, ReadBytes;
    ok := input.IncrementRecursionDepth();
    if !ok { return; }
    var oldLimit;
    ok, oldLimit := input.ReadLengthAndPushLimit();
    if !ok { return; }
    ok := x.MergePartialFromCodedStream(input);
    if !ok { return; }
    ok := input.CheckEntireMessageConsumedAndPopLimit(oldLimit);
    input.UnsafeDecrementRecursionDepth();
  }

  /** How the plain loop takes a collector. */
  lemma OnCollector(m: SubscriptionInput, depth: nat)
    requires depth > 0
    ensures forall s :: HandleInput(m, BytesField(1, s), depth)
                     == match Whole(HandleCollector, EMPTY_COLLECTOR, s, depth - 1)
                        case None => None case Some(x) => Some(SubscriptionInput(m.collectors + [x]))
  {
  }

  /** Without recursion budget a sub-message fails in the plain loop too. */
  lemma NoBudget(m: SubscriptionInput, tag: nat, bs: bytes)
    requires tag == 10
    ensures AfterTag(HandleInput, m, tag, bs, 0) == Failed
  {
    hide Parse, AfterTag;
    TurnBytes(HandleInput, m, tag, bs, 0);
  }

  /** Records with other tags are not fields of this message. */
  lemma Unrecognised(m: SubscriptionInput, r: Record, depth: nat)
    requires TagOf(r) !in [10]
    ensures HandleInput(m, r, depth) == Some(m)
  {
  }
}
