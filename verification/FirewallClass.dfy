/** FirewallStats::MergePartialFromCodedStream with its gotos. A label is a place the C++ jumps to; a block
    is what runs from one label to the next jump. The gotos lead from one field's loop into the next one's,
    past the increment of the recursion depth, so that a run over four kinds of sub-messages pays for one
    level only and gives it back once. */
module FirewallClass {
  import opened Wire
  import opened Records
  import opened PlainLoop
  import opened Proto3
  import opened CodedStream
  import opened PredictedLoop
  import opened FirewallData
  import opened FirewallMerge
  import PolicerClass

  datatype Label =
    | NextTag
    | ParseFilterName
    | ParseTimestamp
    | ParseMemoryUsage
    | LoopMemoryUsage
    | LoopCounterStats
    | LoopPolicerStats
    | LoopHierarchical
  {
    /** The tag that has been consumed when control is here; 0 at the top of the loop. */
    function Tag(): nat
    {
      match this
      case NextTag => 0
      case ParseFilterName => 10
      case ParseTimestamp => 16
      case ParseMemoryUsage => 26
      case LoopMemoryUsage => 26
      case LoopCounterStats => 34
      case LoopPolicerStats => 42
      case LoopHierarchical => 50
    }

    /** Whether the recursion depth has been charged for sub-messages when control is here. */
    predicate Charged() { LoopMemoryUsage? || LoopCounterStats? || LoopPolicerStats? || LoopHierarchical? }
  }

  class FirewallStatsMessage {
    var filterName: Option<bytes>
    var timestamp: Option<uint64>
    var memoryUsage: seq<MemoryUsage>
    var counterStats: seq<CounterStats>
    var policerStats: seq<PolicerStats>
    var hierarchical: seq<HierarchicalPolicerStats>
    var unknown: seq<Record>

    function Value(): FirewallStats
      reads this
    {
      FirewallStats(filterName, timestamp, memoryUsage, counterStats, policerStats, hierarchical, unknown)
    }

    constructor ()
      ensures Value() == EMPTY_FIREWALL
    {
      filterName, timestamp := None, None;
      memoryUsage, counterStats, policerStats, hierarchical, unknown := [], [], [], [], [];
    }

    method Clear()
      modifies this
      ensures Value() == EMPTY_FIREWALL
    {
      filterName, timestamp := None, None;
      memoryUsage, counterStats, policerStats, hierarchical := [], [], [], [];
      unknown := [];
    }

    /** Lists grow, a present field overwrites. */
    method MergeFrom(from: FirewallStatsMessage)
      requires from != this
      modifies this
      ensures Value() == MergeFirewall(old(Value()), from.Value())
    {
      memoryUsage := memoryUsage + from.memoryUsage;
      counterStats := counterStats + from.counterStats;
      policerStats := policerStats + from.policerStats;
      hierarchical := hierarchical + from.hierarchical;
      if from.filterName.Some? { filterName := from.filterName; }
      if from.timestamp.Some? { timestamp := from.timestamp; }
      unknown := unknown + from.unknown;
    }

    method CopyFrom(from: FirewallStatsMessage)
      modifies this
      ensures Value() == old(from.Value())
    {
      if from == this { return; }
      Clear();
      MergeFrom(from);
    }

    /** What holds after a block ended in a jump, `goal` being what the plain loop does from its start. */
    ghost predicate Jumped(j: Jump<Label>, goal: Outcome<FirewallStats>, input: CodedInputStream,
                           limit: nat, depth: nat)
      reads this, input
    {
      match j
      case Failure => goal == Failed
      case Success => Agrees(goal, true, Value(), input, limit, depth)
      case Goto(at) => AtLabel(goal, HandleFirewall, at.Tag(), at.Charged(), Value(), input, limit, depth)
    }

    // ---- Reading one field ------------------------------------------------------------------------

    method ReadFilterName(input: CodedInputStream, ghost depth: nat) returns (ok: bool)
      requires input.Valid() && input.budget == depth
      modifies this, input
      ensures FieldRead(AfterTag(HandleFirewall, old(Value()), 10, old(input.Rest()), depth),
                        HandleFirewall, ok, Value(), input, old(input.Rest()),
                        old(input.limit), old(input.budget), depth)
    {
      hide Parse, AfterTag, Nested;
      TurnBytes(HandleFirewall, Value(), 10, input.Rest(), depth);
      var s;
      ok, s := input.ReadString();
      if ok { filterName := Some(s); }
    }

    method ReadTimestamp(input: CodedInputStream, ghost depth: nat) returns (ok: bool)
      requires input.Valid() && input.budget == depth
      modifies this, input
      ensures FieldRead(AfterTag(HandleFirewall, old(Value()), 16, old(input.Rest()), depth),
                        HandleFirewall, ok, Value(), input, old(input.Rest()),
                        old(input.limit), old(input.budget), depth)
    {
      hide Parse, AfterTag, Nested;
      TurnVarint(HandleFirewall, Value(), 16, input.Rest(), depth);
      var v;
      ok, v := input.ReadVarint64();
      if ok { timestamp := Some(v); }
    }

    method AddMemoryUsage(input: CodedInputStream, ghost depth: nat) returns (ok: bool)
      requires input.Valid() && input.budget == depth - 1 && depth > 0
      modifies this, input
      ensures FieldRead(AfterTag(HandleFirewall, old(Value()), 26, old(input.Rest()), depth),
                        HandleFirewall, ok, Value(), input, old(input.Rest()),
                        old(input.limit), old(input.budget), depth)
    {
      hide Parse, AfterTag, Whole, HandleFirewall, Predictable, ReadBytes, HandleMemory;
      OnMemory(Value(), depth);
      SubMessageTags();
      TurnBytes(HandleFirewall, Value(), 26, input.Rest(), depth);
      var x;
      ok, x := ReadMessage(input, HandleMemory, EMPTY_MEMORY, MEMORY_TAGS);
      if ok { memoryUsage := memoryUsage + [x]; }
    }

    method AddCounterStats(input: CodedInputStream, ghost depth: nat) returns (ok: bool)
      requires input.Valid() && input.budget == depth - 1 && depth > 0
      modifies this, input
      ensures FieldRead(AfterTag(HandleFirewall, old(Value()), 34, old(input.Rest()), depth),
                        HandleFirewall, ok, Value(), input, old(input.Rest()),
                        old(input.limit), old(input.budget), depth)
    {
      hide Parse, AfterTag, Whole, HandleFirewall, Predictable, ReadBytes, HandleCounter;
      OnCounter(Value(), depth);
      SubMessageTags();
      TurnBytes(HandleFirewall, Value(), 34, input.Rest(), depth);
      var x;
      ok, x := ReadMessage(input, HandleCounter, EMPTY_COUNTER, COUNTER_TAGS);
      if ok { counterStats := counterStats + [x]; }
    }

    method AddPolicerStats(input: CodedInputStream, ghost depth: nat) returns (ok: bool)
      requires input.Valid() && input.budget == depth - 1 && depth > 0
      modifies this, input
      ensures FieldRead(AfterTag(HandleFirewall, old(Value()), 42, old(input.Rest()), depth),
                        HandleFirewall, ok, Value(), input, old(input.Rest()),
                        old(input.limit), old(input.budget), depth)
    {
      hide Parse, AfterTag, Whole, HandleFirewall, Predictable, ReadBytes, HandlePolicer;
      OnPolicer(Value(), depth);
      SubMessageTags();
      TurnBytes(HandleFirewall, Value(), 42, input.Rest(), depth);
      var x;
      ok, x := PolicerClass.ReadPolicer(input);
      if ok { policerStats := policerStats + [x]; }
    }

    method AddHierarchical(input: CodedInputStream, ghost depth: nat) returns (ok: bool)
      requires input.Valid() && input.budget == depth - 1 && depth > 0
      modifies this, input
      ensures FieldRead(AfterTag(HandleFirewall, old(Value()), 50, old(input.Rest()), depth),
                        HandleFirewall, ok, Value(), input, old(input.Rest()),
                        old(input.limit), old(input.budget), depth)
    {
      hide Parse, AfterTag, Whole, HandleFirewall, Predictable, ReadBytes, HandleHierarchical;
      OnHierarchical(Value(), depth);
      SubMessageTags();
      TurnBytes(HandleFirewall, Value(), 50, input.Rest(), depth);
      var x;
      ok, x := ReadMessage(input, HandleHierarchical, EMPTY_HIERARCHICAL, HIERARCHICAL_TAGS);
      if ok { hierarchical := hierarchical + [x]; }
    }

    /** A tag that is not dispatched on becomes an unknown field. */
    method KeepUnknown(input: CodedInputStream, tag: uint32, ghost depth: nat) returns (ok: bool)
      requires input.Valid() && input.budget == depth && tag !in [0, 10, 16, 26, 34, 42, 50]
      requires !IsEndGroup(tag)
      modifies this, input
      ensures FieldRead(AfterTag(HandleFirewall, old(Value()), tag, old(input.Rest()), depth),
                        HandleFirewall, ok, Value(), input, old(input.Rest()),
                        old(input.limit), old(input.budget), depth)
    {
      hide Parse, AfterTag, HandleFirewall;
      var r;
      ok, r := ReadField(input, HandleFirewall, Value(), tag);
      if ok {
        Unrecognised(Value(), r, depth);
        unknown := unknown + [r];
      }
    }

    // ---- The blocks between the jumps ------------------------------------------------------------

    method BlockNextTag(input: CodedInputStream, ghost depth: nat) returns (j: Jump<Label>)
      requires Ready(input, NextTag.Charged(), depth)
      modifies this, input
      ensures Jumped(j, old(Resume(HandleFirewall, 0, Value(), input.Rest(), depth)), input, old(input.limit), depth)
      ensures j.Goto? ==> |input.Rest()| < |old(input.Rest())|
    {
      hide Parse, AfterTag, HandleFirewall;
      var tag, small := TopOfLoop(input, HandleFirewall, Value(), depth);
      if small && tag == 10 {
        j := Goto(ParseFilterName);
      } else if small && tag == 16 {
        j := Goto(ParseTimestamp);
      } else if small && tag == 26 {
        j := Goto(ParseMemoryUsage);
      } else if small && tag == 34 {
        var ok := input.IncrementRecursionDepth();
        if !ok { NoBudget(Value(), tag, input.Rest()); return Failure; }
        j := Goto(LoopCounterStats);
      } else if small && tag == 42 {
        var ok := input.IncrementRecursionDepth();
        if !ok { NoBudget(Value(), tag, input.Rest()); return Failure; }
        j := Goto(LoopPolicerStats);
      } else if small && tag == 50 {
        var ok := input.IncrementRecursionDepth();
        if !ok { NoBudget(Value(), tag, input.Rest()); return Failure; }
        j := Goto(LoopHierarchical);
      } else {
        if tag == 0 || IsEndGroup(tag) { return Success; }
        var ok := KeepUnknown(input, tag, depth);
        j := if ok then Goto(NextTag) else Failure;
      }
    }

    method BlockParseFilterName(input: CodedInputStream, ghost depth: nat) returns (j: Jump<Label>)
      requires Ready(input, ParseFilterName.Charged(), depth)
      modifies this, input
      ensures Jumped(j, old(Resume(HandleFirewall, 10, Value(), input.Rest(), depth)), input, old(input.limit), depth)
      ensures j.Goto? ==> |input.Rest()| < |old(input.Rest())|
    {
      hide Parse, AfterTag, HandleFirewall;
      var ok := ReadFilterName(input, depth);
      if !ok { return Failure; }
      var hit := Predict(input, HandleFirewall, Value(), depth, 16);
      j := Goto(if hit then ParseTimestamp else NextTag);
    }

    method BlockParseTimestamp(input: CodedInputStream, ghost depth: nat) returns (j: Jump<Label>)
      requires Ready(input, ParseTimestamp.Charged(), depth)
      modifies this, input
      ensures Jumped(j, old(Resume(HandleFirewall, 16, Value(), input.Rest(), depth)), input, old(input.limit), depth)
      ensures j.Goto? ==> |input.Rest()| < |old(input.Rest())|
    {
      hide Parse, AfterTag, HandleFirewall;
      var ok := ReadTimestamp(input, depth);
      if !ok { return Failure; }
      var hit := Predict(input, HandleFirewall, Value(), depth, 26);
      j := Goto(if hit then ParseMemoryUsage else NextTag);
    }

    method BlockParseMemoryUsage(input: CodedInputStream, ghost depth: nat) returns (j: Jump<Label>)
      requires Ready(input, ParseMemoryUsage.Charged(), depth)
      modifies this, input
      ensures Jumped(j, old(Resume(HandleFirewall, 26, Value(), input.Rest(), depth)), input, old(input.limit), depth)
      ensures j.Goto? ==> input.Rest() == old(input.Rest()) && j.at.LoopMemoryUsage?
    {
      hide Parse, AfterTag, HandleFirewall;
      var ok := input.IncrementRecursionDepth();
      if !ok { NoBudget(Value(), 26, input.Rest()); return Failure; }
      j := Goto(LoopMemoryUsage);
    }

    method BlockLoopMemoryUsage(input: CodedInputStream, ghost depth: nat) returns (j: Jump<Label>)
      requires Ready(input, LoopMemoryUsage.Charged(), depth)
      modifies this, input
      ensures Jumped(j, old(Resume(HandleFirewall, 26, Value(), input.Rest(), depth)), input, old(input.limit), depth)
      ensures j.Goto? ==> |input.Rest()| < |old(input.Rest())|
    {
      hide Parse, AfterTag, HandleFirewall;
      var ok := AddMemoryUsage(input, depth);
      if !ok { return Failure; }
      var hit := Predict(input, HandleFirewall, Value(), depth, 26);
      if hit { return Goto(LoopMemoryUsage); }
      hit := Predict(input, HandleFirewall, Value(), depth, 34);
      if hit { return Goto(LoopCounterStats); }
      input.UnsafeDecrementRecursionDepth();
      j := Goto(NextTag);
    }

    method BlockLoopCounterStats(input: CodedInputStream, ghost depth: nat) returns (j: Jump<Label>)
      requires Ready(input, LoopCounterStats.Charged(), depth)
      modifies this, input
      ensures Jumped(j, old(Resume(HandleFirewall, 34, Value(), input.Rest(), depth)), input, old(input.limit), depth)
      ensures j.Goto? ==> |input.Rest()| < |old(input.Rest())|
    {
      hide Parse, AfterTag, HandleFirewall;
      var ok := AddCounterStats(input, depth);
      if !ok { return Failure; }
      var hit := Predict(input, HandleFirewall, Value(), depth, 34);
      if hit { return Goto(LoopCounterStats); }
      hit := Predict(input, HandleFirewall, Value(), depth, 42);
      if hit { return Goto(LoopPolicerStats); }
      input.UnsafeDecrementRecursionDepth();
      j := Goto(NextTag);
    }

    method BlockLoopPolicerStats(input: CodedInputStream, ghost depth: nat) returns (j: Jump<Label>)
      requires Ready(input, LoopPolicerStats.Charged(), depth)
      modifies this, input
      ensures Jumped(j, old(Resume(HandleFirewall, 42, Value(), input.Rest(), depth)), input, old(input.limit), depth)
      ensures j.Goto? ==> |input.Rest()| < |old(input.Rest())|
    {
      hide Parse, AfterTag, HandleFirewall;
      var ok := AddPolicerStats(input, depth);
      if !ok { return Failure; }
      var hit := Predict(input, HandleFirewall, Value(), depth, 42);
      if hit { return Goto(LoopPolicerStats); }
      hit := Predict(input, HandleFirewall, Value(), depth, 50);
      if hit { return Goto(LoopHierarchical); }
      input.UnsafeDecrementRecursionDepth();
      j := Goto(NextTag);
    }

    method BlockLoopHierarchical(input: CodedInputStream, ghost depth: nat) returns (j: Jump<Label>)
      requires Ready(input, LoopHierarchical.Charged(), depth)
      modifies this, input
      ensures Jumped(j, old(Resume(HandleFirewall, 50, Value(), input.Rest(), depth)), input, old(input.limit), depth)
      ensures j.Goto? ==> |input.Rest()| < |old(input.Rest())|
    {
      hide Parse, AfterTag, HandleFirewall;
      var ok := AddHierarchical(input, depth);
      if !ok { return Failure; }
      var hit := Predict(input, HandleFirewall, Value(), depth, 50);
      if hit { return Goto(LoopHierarchical); }
      input.UnsafeDecrementRecursionDepth();
      hit := input.ExpectAtEnd();
      if hit { TurnAtEnd(HandleFirewall, Value(), input.Rest(), depth); return Success; }
      j := Goto(NextTag);
    }

    /** For every byte string and every way the predictions may answer: the verdict, the message,
        the leftover input and the recursion budget are those of the plain loop. Every turn consumes
        input, or enters a loop of sub-messages, or leaves. */
    method MergePartialFromCodedStream(input: CodedInputStream) returns (ok: bool)
      requires input.Valid() && input.budget >= 0
      modifies this, input
      ensures Agrees(Parse(HandleFirewall, old(Value()), old(input.Rest()), old(input.budget)), ok, Value(), input,
                     old(input.limit), old(input.budget))
    {
      hide Parse, AfterTag, HandleFirewall;
      ghost var depth: nat := input.budget;
      ghost var goal := Parse(HandleFirewall, Value(), input.Rest(), depth);
      var j := Goto(NextTag);
      while j.Goto?
        invariant Jumped(j, goal, input, old(input.limit), depth)
        decreases if j.Goto? then 1 else 0, if j.Goto? then |input.Rest()| else 0,
                  if j.Goto? && j.at.ParseMemoryUsage? then 1 else 0
      {
        match j.at
        case NextTag => j := BlockNextTag(input, depth);
        case ParseFilterName => j := BlockParseFilterName(input, depth);
        case ParseTimestamp => j := BlockParseTimestamp(input, depth);
        case ParseMemoryUsage => j := BlockParseMemoryUsage(input, depth);
        case LoopMemoryUsage => j := BlockLoopMemoryUsage(input, depth);
        case LoopCounterStats => j := BlockLoopCounterStats(input, depth);
        case LoopPolicerStats => j := BlockLoopPolicerStats(input, depth);
        case LoopHierarchical => j := BlockLoopHierarchical(input, depth);
      }
      ok := j.Success?;
    }
  }

  /** The tags of the sub-messages' fields, in the order in which their parsers predict them. */
  const MEMORY_TAGS: seq<byte> := [10, 16]
  const COUNTER_TAGS: seq<byte> := [10, 16, 24]
  const HIERARCHICAL_TAGS: seq<byte> := [10, 16, 24, 32, 40]

  lemma SubMessageTags()
    ensures Predictable(MEMORY_TAGS) && Predictable(COUNTER_TAGS) && Predictable(HIERARCHICAL_TAGS)
  {
  }

  /** Without recursion budget a sub-message fails in the plain loop too. */
  lemma NoBudget(m: FirewallStats, tag: nat, bs: bytes)
    requires tag == 26 || tag == 34 || tag == 42 || tag == 50
    ensures AfterTag(HandleFirewall, m, tag, bs, 0) == Failed
  {
    hide Parse, AfterTag;
    TurnBytes(HandleFirewall, m, tag, bs, 0);
  }

  // How the plain loop takes the four kinds of sub-messages.

  lemma OnMemory(m: FirewallStats, depth: nat)
    requires depth > 0
    ensures forall s :: HandleFirewall(m, BytesField(3, s), depth)
                     == match Whole(HandleMemory, EMPTY_MEMORY, s, depth - 1)
                        case None => None case Some(x) => Some(m.(memoryUsage := m.memoryUsage + [x]))
  {
  }

  lemma OnCounter(m: FirewallStats, depth: nat)
    requires depth > 0
    ensures forall s :: HandleFirewall(m, BytesField(4, s), depth)
                     == match Whole(HandleCounter, EMPTY_COUNTER, s, depth - 1)
                        case None => None case Some(x) => Some(m.(counterStats := m.counterStats + [x]))
  {
  }

  lemma OnPolicer(m: FirewallStats, depth: nat)
    requires depth > 0
    ensures forall s :: HandleFirewall(m, BytesField(5, s), depth)
                     == match Whole(HandlePolicer, EMPTY_POLICER, s, depth - 1)
                        case None => None case Some(x) => Some(m.(policerStats := m.policerStats + [x]))
  {
  }

  lemma OnHierarchical(m: FirewallStats, depth: nat)
    requires depth > 0
    ensures forall s :: HandleFirewall(m, BytesField(6, s), depth)
                     == match Whole(HandleHierarchical, EMPTY_HIERARCHICAL, s, depth - 1)
                        case None => None case Some(x) => Some(m.(hierarchical := m.hierarchical + [x]))
  {
  }

  /** Records with other tags are not fields of this message. */
  lemma Unrecognised(m: FirewallStats, r: Record, depth: nat)
    requires TagOf(r) !in [10, 16, 26, 34, 42, 50]
    ensures HandleFirewall(m, r, depth) == Some(m.(unknown := m.unknown + [r]))
  {
  }
}
