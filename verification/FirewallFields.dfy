/** What a parsed FirewallStats holds, field number by field number, for every list of fields and every byte string. */
module FirewallFields {
  import opened Wire
  import opened Records
  import opened PlainLoop
  import opened Proto3
  import opened LastFields
  import opened FirewallData

  /** name = 1, allocated = 2. */
  function MemoryOf(rs: seq<Record>): MemoryUsage
  {
    MemoryUsage(name := LastText(rs, 1), allocatedBytes := LastNumber(rs, 2), unknown := Others(rs, [10, 16]))
  }

  lemma MemoryStep(rs: seq<Record>, r: Record, depth: nat)
    ensures HandleMemory(MemoryOf(rs), r, depth) == Some(MemoryOf(rs + [r]))
  {
    hide LastNumber, LastText, Payloads, Others;
    Snoc(rs, r);
    TagParts(r);
    if TagOf(r) in [10, 16] {
      match r
      case VarintField(_, _) =>
      case BytesField(_, _) =>
      case _ =>
    }
  }

  /** For every list of fields. */
  lemma MemoryFields(rs: seq<Record>, depth: nat)
    ensures Fold(HandleMemory, EMPTY_MEMORY, rs, depth) == Some(MemoryOf(rs))
  {
    hide HandleMemory, MemoryOf;
    MemoryStart();
    forall init: seq<Record>, r: Record
      ensures HandleMemory(MemoryOf(init), r, depth) == Some(MemoryOf(init + [r]))
    {
      MemoryStep(init, r, depth);
    }
    FoldIs(HandleMemory, EMPTY_MEMORY, xs => Some(MemoryOf(xs)), rs, depth);
  }

  lemma MemoryStart()
    ensures MemoryOf([]) == EMPTY_MEMORY
  {
  }

  /** name = 1, packets = 2, bytes = 3. */
  function CounterOf(rs: seq<Record>): CounterStats
  {
    CounterStats(name := LastText(rs, 1), packets := LastNumber(rs, 2), octets := LastNumber(rs, 3),
                 unknown := Others(rs, [10, 16, 24]))
  }

  lemma CounterStep(rs: seq<Record>, r: Record, depth: nat)
    ensures HandleCounter(CounterOf(rs), r, depth) == Some(CounterOf(rs + [r]))
  {
    hide LastNumber, LastText, Payloads, Others;
    Snoc(rs, r);
    TagParts(r);
    if TagOf(r) in [10, 16, 24] {
      match r
      case VarintField(_, _) =>
      case BytesField(_, _) =>
      case _ =>
    }
  }

  /** For every list of fields. */
  lemma CounterFields(rs: seq<Record>, depth: nat)
    ensures Fold(HandleCounter, EMPTY_COUNTER, rs, depth) == Some(CounterOf(rs))
  {
    hide HandleCounter, CounterOf;
    CounterStart();
    forall init: seq<Record>, r: Record
      ensures HandleCounter(CounterOf(init), r, depth) == Some(CounterOf(init + [r]))
    {
      CounterStep(init, r, depth);
    }
    FoldIs(HandleCounter, EMPTY_COUNTER, xs => Some(CounterOf(xs)), rs, depth);
  }

  lemma CounterStart()
    ensures CounterOf([]) == EMPTY_COUNTER
  {
  }

  /** offered_packets = 1, offered_bytes = 2, transmitted_packets = 3, transmitted_bytes = 4. */
  function ExtendedOf(rs: seq<Record>): ExtendedPolicerStats
  {
    ExtendedPolicerStats(offeredPackets := LastNumber(rs, 1), offeredBytes := LastNumber(rs, 2),
                         sentPackets := LastNumber(rs, 3), sentBytes := LastNumber(rs, 4),
                         unknown := Others(rs, [8, 16, 24, 32]))
  }

  lemma ExtendedStep(rs: seq<Record>, r: Record, depth: nat)
    ensures HandleExtended(ExtendedOf(rs), r, depth) == Some(ExtendedOf(rs + [r]))
  {
    hide LastNumber, LastText, Payloads, Others;
    Snoc(rs, r);
    TagParts(r);
    if TagOf(r) in [8, 16, 24, 32] {
      match r
      case VarintField(_, _) =>
      case BytesField(_, _) =>
      case _ =>
    }
  }

  /** For every list of fields. */
  lemma ExtendedFields(rs: seq<Record>, depth: nat)
    ensures Fold(HandleExtended, EMPTY_EXTENDED, rs, depth) == Some(ExtendedOf(rs))
  {
    hide HandleExtended, ExtendedOf;
    ExtendedStart();
    forall init: seq<Record>, r: Record
      ensures HandleExtended(ExtendedOf(init), r, depth) == Some(ExtendedOf(init + [r]))
    {
      ExtendedStep(init, r, depth);
    }
    FoldIs(HandleExtended, EMPTY_EXTENDED, xs => Some(ExtendedOf(xs)), rs, depth);
  }

  lemma ExtendedStart()
    ensures ExtendedOf([]) == EMPTY_EXTENDED
  {
  }

  /** name = 1, premium_packets = 2, premium_bytes = 3, aggregate_packets = 4, aggregate_bytes = 5. */
  function HierarchicalOf(rs: seq<Record>): HierarchicalPolicerStats
  {
    HierarchicalPolicerStats(name := LastText(rs, 1), premiumPackets := LastNumber(rs, 2),
                             premiumBytes := LastNumber(rs, 3), aggregatePackets := LastNumber(rs, 4),
                             aggregateBytes := LastNumber(rs, 5), unknown := Others(rs, [10, 16, 24, 32, 40]))
  }

  lemma HierarchicalStep(rs: seq<Record>, r: Record, depth: nat)
    ensures HandleHierarchical(HierarchicalOf(rs), r, depth) == Some(HierarchicalOf(rs + [r]))
  {
    hide LastNumber, LastText, Payloads, Others;
    Snoc(rs, r);
    TagParts(r);
    if TagOf(r) in [10, 16, 24, 32, 40] {
      match r
      case VarintField(_, _) =>
      case BytesField(_, _) =>
      case _ =>
    }
  }

  /** For every list of fields. */
  lemma HierarchicalFields(rs: seq<Record>, depth: nat)
    ensures Fold(HandleHierarchical, EMPTY_HIERARCHICAL, rs, depth) == Some(HierarchicalOf(rs))
  {
    hide HandleHierarchical, HierarchicalOf;
    HierarchicalStart();
    forall init: seq<Record>, r: Record
      ensures HandleHierarchical(HierarchicalOf(init), r, depth) == Some(HierarchicalOf(init + [r]))
    {
      HierarchicalStep(init, r, depth);
    }
    FoldIs(HandleHierarchical, EMPTY_HIERARCHICAL, xs => Some(HierarchicalOf(xs)), rs, depth);
  }

  lemma HierarchicalStart()
    ensures HierarchicalOf([]) == EMPTY_HIERARCHICAL
  {
  }

  /** name = 1, out_of_spec_packets = 2, out_of_spec_bytes = 3, extended_policer_stats = 4: all payloads of the last one
      make up one message. */
  function PolicerOf(rs: seq<Record>, depth: nat): Option<PolicerStats>
  {
    match Serial(HandleExtended, EMPTY_EXTENDED, Payloads(rs, 4), depth)
    case None => None
    case Some(x) =>
      Some(PolicerStats(name := LastText(rs, 1), packets := LastNumber(rs, 2), octets := LastNumber(rs, 3),
                        extended := if Payloads(rs, 4) == [] then None else Some(x),
                        unknown := Others(rs, [10, 16, 24, 34])))
  }

  lemma PolicerStep(rs: seq<Record>, r: Record, depth: nat)
    ensures PolicerOf(rs + [r], depth)
         == match PolicerOf(rs, depth) case None => None case Some(m) => HandlePolicer(m, r, depth)
  {
    hide LastNumber, LastText, Payloads, Others, Serial, Nested;
    Snoc(rs, r);
    TagParts(r);
    NothingSerial(depth);
    if r.BytesField? && r.num == 4 {
      SerialSnoc(HandleExtended, EMPTY_EXTENDED, Payloads(rs, 4), r.s, depth);
    } else {
      match r
      case VarintField(_, _) =>
      case BytesField(_, _) =>
      case _ =>
    }
  }

  lemma NothingSerial(depth: nat)
    ensures Serial(HandleExtended, EMPTY_EXTENDED, [], depth) == Some(EMPTY_EXTENDED)
  {
  }

  lemma PolicerFields(rs: seq<Record>, depth: nat)
    ensures Fold(HandlePolicer, EMPTY_POLICER, rs, depth) == PolicerOf(rs, depth)
  {
    hide HandlePolicer, PolicerOf;
    PolicerStart(depth);
    forall init: seq<Record>, r: Record
      ensures PolicerOf(init + [r], depth)
           == match PolicerOf(init, depth) case None => None case Some(m) => HandlePolicer(m, r, depth)
    {
      PolicerStep(init, r, depth);
    }
    FoldIs(HandlePolicer, EMPTY_POLICER, xs => PolicerOf(xs, depth), rs, depth);
  }

  lemma PolicerStart(depth: nat)
    ensures PolicerOf([], depth) == Some(EMPTY_POLICER)
  {
  }

  /** The lists of sub-messages, each in the order of its payloads. */
  datatype Lists = Lists(memory: seq<MemoryUsage>, counters: seq<CounterStats>, policers: seq<PolicerStats>,
                         hierarchical: seq<HierarchicalPolicerStats>)

  /** memory_usage = 3, counter_stats = 4, policer_stats = 5, hierarchical_policer_stats = 6. */
  function ListsOf(rs: seq<Record>, depth: nat): Option<Lists>
  {
    var m := Each(HandleMemory, EMPTY_MEMORY, Payloads(rs, 3), depth);
    var c := Each(HandleCounter, EMPTY_COUNTER, Payloads(rs, 4), depth);
    var p := Each(HandlePolicer, EMPTY_POLICER, Payloads(rs, 5), depth);
    var h := Each(HandleHierarchical, EMPTY_HIERARCHICAL, Payloads(rs, 6), depth);
    if m.None? || c.None? || p.None? || h.None? then None else Some(Lists(m.value, c.value, p.value, h.value))
  }

  /** filter_name = 1, timestamp = 2, and the lists. */
  function FirewallOf(rs: seq<Record>, depth: nat): Option<FirewallStats>
  {
    match ListsOf(rs, depth)
    case None => None
    case Some(ls) =>
      Some(FirewallStats(filterName := LastText(rs, 1), timestamp := LastNumber(rs, 2), memoryUsage := ls.memory,
                         counterStats := ls.counters, policerStats := ls.policers, hierarchical := ls.hierarchical,
                         unknown := Others(rs, [10, 16, 26, 34, 42, 50])))
  }

  lemma FirewallStep(rs: seq<Record>, r: Record, depth: nat)
    ensures FirewallOf(rs + [r], depth)
         == match FirewallOf(rs, depth) case None => None case Some(m) => HandleFirewall(m, r, depth)
  {
    hide LastNumber, LastText, Payloads, Others, Each, Nested;
    Snoc(rs, r);
    TagParts(r);
    if r.BytesField? && 3 <= r.num <= 6 {
      EachSnoc(HandleMemory, EMPTY_MEMORY, Payloads(rs, 3), r.s, depth);
      EachSnoc(HandleCounter, EMPTY_COUNTER, Payloads(rs, 4), r.s, depth);
      EachSnoc(HandlePolicer, EMPTY_POLICER, Payloads(rs, 5), r.s, depth);
      EachSnoc(HandleHierarchical, EMPTY_HIERARCHICAL, Payloads(rs, 6), r.s, depth);
    } else {
      match r
      case VarintField(_, _) =>
      case BytesField(_, _) =>
      case _ =>
    }
  }

  lemma FirewallStart(depth: nat)
    ensures FirewallOf([], depth) == Some(EMPTY_FIREWALL)
  {
  }

  lemma FirewallFields(rs: seq<Record>, depth: nat)
    ensures Fold(HandleFirewall, EMPTY_FIREWALL, rs, depth) == FirewallOf(rs, depth)
  {
    hide HandleFirewall, FirewallOf;
    FirewallStart(depth);
    forall init: seq<Record>, r: Record
      ensures FirewallOf(init + [r], depth)
           == match FirewallOf(init, depth) case None => None case Some(m) => HandleFirewall(m, r, depth)
    {
      FirewallStep(init, r, depth);
    }
    FoldIs(HandleFirewall, EMPTY_FIREWALL, xs => FirewallOf(xs, depth), rs, depth);
  }

  /** For every byte string: it parses exactly if it consists of whole fields whose sub-messages parse, and then the
      message holds the last filter name and time stamp, the sub-messages of each kind in order and all other
      fields. */
  lemma FirewallRead(bs: bytes, depth: nat)
    ensures Whole(HandleFirewall, EMPTY_FIREWALL, bs, depth)
         == match FieldsOf(bs, depth) case None => None case Some(rs) => FirewallOf(rs, depth)
  {
    hide HandleFirewall, Whole, Fold, FirewallOf;
    WholeIsFold(HandleFirewall, EMPTY_FIREWALL, bs, depth);
    if FieldsOf(bs, depth).Some? { FirewallFields(FieldsOf(bs, depth).value, depth); }
  }

  /** And each counter in it holds the last name, packets and bytes of its own payload. */
  lemma CounterRead(rs: seq<Record>, depth: nat, i: nat)
    requires FirewallOf(rs, depth).Some? && i < |FirewallOf(rs, depth).value.counterStats|
    ensures |Payloads(rs, 4)| == |FirewallOf(rs, depth).value.counterStats| && depth > 0
    ensures var fields := FieldsOf(Payloads(rs, 4)[i], depth - 1);
            fields.Some? && FirewallOf(rs, depth).value.counterStats[i] == CounterOf(fields.value)
  {
    hide HandleCounter, Whole, Fold, CounterOf, FieldsOf, Payloads;
    var s := Payloads(rs, 4);
    EachIs(HandleCounter, EMPTY_COUNTER, s, depth);
    assert Nested(HandleCounter, EMPTY_COUNTER, s[i], depth).Some?;
    WholeIsFold(HandleCounter, EMPTY_COUNTER, s[i], depth - 1);
    CounterFields(FieldsOf(s[i], depth - 1).value, depth - 1);
  }
}
