/** PolicerStats::MergePartialFromCodedStream with its gotos. Its sub-message is read through the same stream into the
    one already there, with its own predictions, limit and charge of the recursion depth. */
module PolicerClass {
  import opened Wire
  import opened Records
  import opened PlainLoop
  import opened Proto3
  import opened CodedStream
  import opened PredictedLoop
  import opened FirewallData
  import opened FirewallMerge

  datatype Label =
    | NextTag
    | ParseName
    | ParsePackets
    | ParseBytes
    | ParseExtended
  {
    /** The tag that has been consumed when control is here; 0 at the top of the loop. */
    function Tag(): nat
    {
      match this
      case NextTag => 0
      case ParseName => 10
      case ParsePackets => 16
      case ParseBytes => 24
      case ParseExtended => 34
    }

    /** No label of this parser lies inside a loop over sub-messages. */
    predicate Charged() { false }
  }

  class PolicerStatsMessage {
    var name: Option<bytes>
    var packets: Option<uint64>
    var octets: Option<uint64>
    var extended: Option<ExtendedPolicerStats>
    var unknown: seq<Record>

    function Value(): PolicerStats
      reads this
    {
      PolicerStats(name, packets, octets, extended, unknown)
    }

    constructor ()
      ensures Value() == EMPTY_POLICER
    {
      name, packets, octets, extended, unknown := None, None, None, None, [];
    }

    method Clear()
      modifies this
      ensures Value() == EMPTY_POLICER
    {
      name, packets, octets, extended, unknown := None, None, None, None, [];
    }

    /** The sub-message is merged into the one already there. */
    method MergeFrom(from: PolicerStatsMessage)
      requires from != this
      modifies this
      ensures Value() == MergePolicer(old(Value()), from.Value())
    {
      if from.name.Some? { name := from.name; }
      if from.packets.Some? { packets := from.packets; }
      if from.octets.Some? { octets := from.octets; }
      if from.extended.Some? { extended := Some(MergeExtended(Sub(extended), from.extended.value)); }
      unknown := unknown + from.unknown;
    }

    method CopyFrom(from: PolicerStatsMessage)
      modifies this
      ensures Value() == old(from.Value())
    {
      if from == this { return; }
      Clear();
      ghost var y := from.Value();
      assert [] + y.unknown == y.unknown;
      if y.extended.Some? { ExtendedNothing(y.extended.value); }
      MergeFrom(from);
    }

    /** What holds after a block ended in a jump, `goal` being what the plain loop does from its start. */
    ghost predicate Jumped(j: Jump<Label>, goal: Outcome<PolicerStats>, input: CodedInputStream,
                           limit: nat, depth: nat)
      reads this, input
    {
      match j
      case Failure => goal == Failed
      case Success => Agrees(goal, true, Value(), input, limit, depth)
      case Goto(at) => AtLabel(goal, HandlePolicer, at.Tag(), at.Charged(), Value(), input, limit, depth)
    }

    method ReadName(input: CodedInputStream, ghost depth: nat) returns (ok: bool)
      requires input.Valid() && input.budget == depth
      modifies this, input
      ensures FieldRead(AfterTag(HandlePolicer, old(Value()), 10, old(input.Rest()), depth),
                        HandlePolicer, ok, Value(), input, old(input.Rest()),
                        old(input.limit), old(input.budget), depth)
    {
      hide Parse, AfterTag, Nested;
      TurnBytes(HandlePolicer, Value(), 10, input.Rest(), depth);
      var s;
      ok, s := input.ReadString();
      if ok { name := Some(s); }
    }

    method ReadPackets(input: CodedInputStream, ghost depth: nat) returns (ok: bool)
      requires input.Valid() && input.budget == depth
      modifies this, input
      ensures FieldRead(AfterTag(HandlePolicer, old(Value()), 16, old(input.Rest()), depth),
                        HandlePolicer, ok, Value(), input, old(input.Rest()),
                        old(input.limit), old(input.budget), depth)
    {
      hide Parse, AfterTag, Nested;
      TurnVarint(HandlePolicer, Value(), 16, input.Rest(), depth);
      var v;
      ok, v := input.ReadVarint64();
      if ok { packets := Some(v); }
    }

    method ReadOctets(input: CodedInputStream, ghost depth: nat) returns (ok: bool)
      requires input.Valid() && input.budget == depth
      modifies this, input
      ensures FieldRead(AfterTag(HandlePolicer, old(Value()), 24, old(input.Rest()), depth),
                        HandlePolicer, ok, Value(), input, old(input.Rest()),
                        old(input.limit), old(input.budget), depth)
    {
      hide Parse, AfterTag, Nested;
      TurnVarint(HandlePolicer, Value(), 24, input.Rest(), depth);
      var v;
      ok, v := input.ReadVarint64();
      if ok { octets := Some(v); }
    }

    /** ReadMessageNoVirtual: one level of depth is charged for the sub-message and given back. */
    method ReadExtended(input: CodedInputStream, ghost depth: nat) returns (ok: bool)
      requires input.Valid() && input.budget == depth
      modifies this, input
      ensures FieldRead(AfterTag(HandlePolicer, old(Value()), 34, old(input.Rest()), depth),
                        HandlePolicer, ok, Value(), input, old(input.Rest()),
                        old(input.limit), old(input.budget), depth)
    {
      hide Parse, AfterTag, Whole, HandlePolicer, HandleExtended, ReadBytes, Predictable;
      OnExtended(Value(), depth);
      TurnBytes(HandlePolicer, Value(), 34, input.Rest(), depth);
      ok := input.IncrementRecursionDepth();
      if !ok {
        NoBudget(Value(), 34, input.Rest());
        return;
      }
      ExtendedTags();
      var x;
      ok, x := ReadMessage(input, HandleExtended, Sub(extended), EXTENDED_TAGS);
      if !ok { return; }
      extended := Some(x);
      input.UnsafeDecrementRecursionDepth();
    }

    /** A tag that is not dispatched on becomes an unknown field. */
    method KeepUnknown(input: CodedInputStream, tag: uint32, ghost depth: nat) returns (ok: bool)
      requires input.Valid() && input.budget == depth && tag !in [0, 10, 16, 24, 34]
      requires !IsEndGroup(tag)
      modifies this, input
      ensures FieldRead(AfterTag(HandlePolicer, old(Value()), tag, old(input.Rest()), depth),
                        HandlePolicer, ok, Value(), input, old(input.Rest()),
                        old(input.limit), old(input.budget), depth)
    {
      hide Parse, AfterTag, HandlePolicer;
      var r;
      ok, r := ReadField(input, HandlePolicer, Value(), tag);
      if ok {
        Unrecognised(Value(), r, depth);
        unknown := unknown + [r];
      }
    }

    method BlockNextTag(input: CodedInputStream, ghost depth: nat) returns (j: Jump<Label>)
      requires Ready(input, NextTag.Charged(), depth)
      modifies this, input
      ensures Jumped(j, old(Resume(HandlePolicer, 0, Value(), input.Rest(), depth)), input, old(input.limit), depth)
      ensures j.Goto? ==> |input.Rest()| < |old(input.Rest())|
    {
      hide Parse, AfterTag, HandlePolicer;
      var tag, small := TopOfLoop(input, HandlePolicer, Value(), depth);
      if small && tag == 10 {
        j := Goto(ParseName);
      } else if small && tag == 16 {
        j := Goto(ParsePackets);
      } else if small && tag == 24 {
        j := Goto(ParseBytes);
      } else if small && tag == 34 {
        j := Goto(ParseExtended);
      } else {
        if tag == 0 || IsEndGroup(tag) { return Success; }
        var ok := KeepUnknown(input, tag, depth);
        j := if ok then Goto(NextTag) else Failure;
      }
    }

    method BlockParseName(input: CodedInputStream, ghost depth: nat) returns (j: Jump<Label>)
      requires Ready(input, ParseName.Charged(), depth)
      modifies this, input
      ensures Jumped(j, old(Resume(HandlePolicer, 10, Value(), input.Rest(), depth)), input, old(input.limit), depth)
      ensures j.Goto? ==> |input.Rest()| < |old(input.Rest())|
    {
      hide Parse, AfterTag, HandlePolicer;
      var ok := ReadName(input, depth);
      if !ok { return Failure; }
      var hit := Predict(input, HandlePolicer, Value(), depth, 16);
      j := Goto(if hit then ParsePackets else NextTag);
    }

    method BlockParsePackets(input: CodedInputStream, ghost depth: nat) returns (j: Jump<Label>)
      requires Ready(input, ParsePackets.Charged(), depth)
      modifies this, input
      ensures Jumped(j, old(Resume(HandlePolicer, 16, Value(), input.Rest(), depth)), input, old(input.limit), depth)
      ensures j.Goto? ==> |input.Rest()| < |old(input.Rest())|
    {
      hide Parse, AfterTag, HandlePolicer;
      var ok := ReadPackets(input, depth);
      if !ok { return Failure; }
      var hit := Predict(input, HandlePolicer, Value(), depth, 24);
      j := Goto(if hit then ParseBytes else NextTag);
    }

    method BlockParseBytes(input: CodedInputStream, ghost depth: nat) returns (j: Jump<Label>)
      requires Ready(input, ParseBytes.Charged(), depth)
      modifies this, input
      ensures Jumped(j, old(Resume(HandlePolicer, 24, Value(), input.Rest(), depth)), input, old(input.limit), depth)
      ensures j.Goto? ==> |input.Rest()| < |old(input.Rest())|
    {
      hide Parse, AfterTag, HandlePolicer;
      var ok := ReadOctets(input, depth);
      if !ok { return Failure; }
      var hit := Predict(input, HandlePolicer, Value(), depth, 34);
      j := Goto(if hit then ParseExtended else NextTag);
    }

    method BlockParseExtended(input: CodedInputStream, ghost depth: nat) returns (j: Jump<Label>)
      requires Ready(input, ParseExtended.Charged(), depth)
      modifies this, input
      ensures Jumped(j, old(Resume(HandlePolicer, 34, Value(), input.Rest(), depth)), input, old(input.limit), depth)
      ensures j.Goto? ==> |input.Rest()| < |old(input.Rest())|
    {
      hide Parse, AfterTag, HandlePolicer;
      var ok := ReadExtended(input, depth);
      if !ok { return Failure; }
      var hit := input.ExpectAtEnd();
      if hit { TurnAtEnd(HandlePolicer, Value(), input.Rest(), depth); return Success; }
      j := Goto(NextTag);
    }

    /** For every byte string and every way the predictions may answer: the verdict, the message,
        the leftover input and the recursion budget are those of the plain loop. Every turn consumes
        input, or enters a loop of sub-messages, or leaves. */
    method MergePartialFromCodedStream(input: CodedInputStream) returns (ok: bool)
      requires input.Valid() && input.budget >= 0
      modifies this, input
      ensures Agrees(Parse(HandlePolicer, old(Value()), old(input.Rest()), old(input.budget)), ok, Value(), input,
                     old(input.limit), old(input.budget))
    {
      hide Parse, AfterTag, HandlePolicer;
      ghost var depth: nat := input.budget;
      ghost var goal := Parse(HandlePolicer, Value(), input.Rest(), depth);
      var j := Goto(NextTag);
      while j.Goto?
        invariant Jumped(j, goal, input, old(input.limit), depth)
        decreases if j.Goto? then 1 else 0, if j.Goto? then |input.Rest()| else 0
      {
        match j.at
        case NextTag => j := BlockNextTag(input, depth);
        case ParseName => j := BlockParseName(input, depth);
        case ParsePackets => j := BlockParsePackets(input, depth);
        case ParseBytes => j := BlockParseBytes(input, depth);
        case ParseExtended => j := BlockParseExtended(input, depth);
      }
      ok := j.Success?;
    }
  }

  /** add_policer_stats() and the parse into it, within a pushed limit. */
  method ReadPolicer(input: CodedInputStream) returns (ok: bool, m: PolicerStats)
    requires input.Valid() && input.budget >= 0
    modifies input
    ensures match ReadBytes(old(input.Rest()))
            case Bad => !ok
            case Got(s, rest) =>
              match Whole(HandlePolicer, EMPTY_POLICER, s, old(input.budget))
              case None => !ok
              case Some(v) => ok && m == v && input.Valid() && input.Rest() == rest && |rest| < |old(input.Rest())| &&
                              input.limit == old(input.limit) && input.budget == old(input.budget)
  {
    hide Parse, ReadBytes;
    m := EMPTY_POLICER;
    var x := new PolicerStatsMessage();
    var oldLimit;
    ok, oldLimit := input.ReadLengthAndPushLimit();
    if !ok { return; }
    ok := x.MergePartialFromCodedStream(input);
    if !ok { return; }
    ok := input.CheckEntireMessageConsumedAndPopLimit(oldLimit);
    m := x.Value();
  }

  /** The tags of the sub-message's fields, in the order in which its parser predicts them. */
  const EXTENDED_TAGS: seq<byte> := [8, 16, 24, 32]

  lemma ExtendedTags()
    ensures Predictable(EXTENDED_TAGS)
  {
  }

  /** How the plain loop takes the sub-message. */
  lemma OnExtended(m: PolicerStats, depth: nat)
    ensures depth > 0 ==>
              forall s :: HandlePolicer(m, BytesField(4, s), depth)
                       == match Whole(HandleExtended, Sub(m.extended), s, depth - 1)
                          case None => None case Some(x) => Some(m.(extended := Some(x)))
  {
  }

  /** Without recursion budget a sub-message fails in the plain loop too. */
  lemma NoBudget(m: PolicerStats, tag: nat, bs: bytes)
    requires tag == 34
    ensures AfterTag(HandlePolicer, m, tag, bs, 0) == Failed
  {
    hide Parse, AfterTag;
    TurnBytes(HandlePolicer, m, tag, bs, 0);
  }

  /** Records with other tags are not fields of this message. */
  lemma Unrecognised(m: PolicerStats, r: Record, depth: nat)
    requires TagOf(r) !in [10, 16, 24, 34]
    ensures HandlePolicer(m, r, depth) == Some(m.(unknown := m.unknown + [r]))
  {
  }
}
