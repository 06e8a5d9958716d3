/** FirewallStats and the messages inside it as values. These are proto2 messages: a field is
    present or not, and what a parser does not recognise is kept as unknown fields. */
module FirewallData {
  import opened Wire
  import opened Records
  import opened PlainLoop
  import opened Proto3

  datatype MemoryUsage = MemoryUsage(name: Option<bytes>, allocatedBytes: Option<uint64>, unknown: seq<Record>)
  datatype CounterStats = CounterStats(name: Option<bytes>, packets: Option<uint64>, octets: Option<uint64>,
                                       unknown: seq<Record>)
  datatype ExtendedPolicerStats = ExtendedPolicerStats(offeredPackets: Option<uint64>, offeredBytes: Option<uint64>,
                                                       sentPackets: Option<uint64>, sentBytes: Option<uint64>,
                                                       unknown: seq<Record>)
  datatype PolicerStats = PolicerStats(name: Option<bytes>, packets: Option<uint64>, octets: Option<uint64>,
                                       extended: Option<ExtendedPolicerStats>, unknown: seq<Record>)
  datatype HierarchicalPolicerStats =
    HierarchicalPolicerStats(name: Option<bytes>, premiumPackets: Option<uint64>, premiumBytes: Option<uint64>,
                             aggregatePackets: Option<uint64>, aggregateBytes: Option<uint64>, unknown: seq<Record>)
  datatype FirewallStats =
    FirewallStats(filterName: Option<bytes>, timestamp: Option<uint64>, memoryUsage: seq<MemoryUsage>,
                  counterStats: seq<CounterStats>, policerStats: seq<PolicerStats>,
                  hierarchical: seq<HierarchicalPolicerStats>, unknown: seq<Record>)

  const EMPTY_MEMORY := MemoryUsage(None, None, [])
  const EMPTY_COUNTER := CounterStats(None, None, None, [])
  const EMPTY_EXTENDED := ExtendedPolicerStats(None, None, None, None, [])
  const EMPTY_POLICER := PolicerStats(None, None, None, None, [])
  const EMPTY_HIERARCHICAL := HierarchicalPolicerStats(None, None, None, None, None, [])
  const EMPTY_FIREWALL := FirewallStats(None, None, [], [], [], [], [])

  function HandleMemory(m: MemoryUsage, r: Record, depth: nat): Option<MemoryUsage>
  {
    match r
    case BytesField(1, s) => Some(m.(name := Some(s)))
    case VarintField(2, v) => Some(m.(allocatedBytes := Some(v)))
    case _ => Some(m.(unknown := m.unknown + [r]))
  }

  function HandleCounter(m: CounterStats, r: Record, depth: nat): Option<CounterStats>
  {
    match r
    case BytesField(1, s) => Some(m.(name := Some(s)))
    case VarintField(2, v) => Some(m.(packets := Some(v)))
    case VarintField(3, v) => Some(m.(octets := Some(v)))
    case _ => Some(m.(unknown := m.unknown + [r]))
  }

  function HandleExtended(m: ExtendedPolicerStats, r: Record, depth: nat): Option<ExtendedPolicerStats>
  {
    match r
    case VarintField(1, v) => Some(m.(offeredPackets := Some(v)))
    case VarintField(2, v) => Some(m.(offeredBytes := Some(v)))
    case VarintField(3, v) => Some(m.(sentPackets := Some(v)))
    case VarintField(4, v) => Some(m.(sentBytes := Some(v)))
    case _ => Some(m.(unknown := m.unknown + [r]))
  }

  function HandlePolicer(m: PolicerStats, r: Record, depth: nat): Option<PolicerStats>
  {
    match r
    case BytesField(1, s) => Some(m.(name := Some(s)))
    case VarintField(2, v) => Some(m.(packets := Some(v)))
    case VarintField(3, v) => Some(m.(octets := Some(v)))
    case BytesField(4, s) =>
      (match Nested(HandleExtended, if m.extended.Some? then m.extended.value else EMPTY_EXTENDED, s, depth)
       case None => None
       case Some(x) => Some(m.(extended := Some(x))))
    case _ => Some(m.(unknown := m.unknown + [r]))
  }

  function HandleHierarchical(m: HierarchicalPolicerStats, r: Record, depth: nat): Option<HierarchicalPolicerStats>
  {
    match r
    case BytesField(1, s) => Some(m.(name := Some(s)))
    case VarintField(2, v) => Some(m.(premiumPackets := Some(v)))
    case VarintField(3, v) => Some(m.(premiumBytes := Some(v)))
    case VarintField(4, v) => Some(m.(aggregatePackets := Some(v)))
    case VarintField(5, v) => Some(m.(aggregateBytes := Some(v)))
    case _ => Some(m.(unknown := m.unknown + [r]))
  }

  function HandleFirewall(m: FirewallStats, r: Record, depth: nat): Option<FirewallStats>
  {
    match r
    case BytesField(1, s) => Some(m.(filterName := Some(s)))
    case VarintField(2, v) => Some(m.(timestamp := Some(v)))
    case BytesField(3, s) =>
      (match Nested(HandleMemory, EMPTY_MEMORY, s, depth)
       case None => None
       case Some(x) => Some(m.(memoryUsage := m.memoryUsage + [x])))
    case BytesField(4, s) =>
      (match Nested(HandleCounter, EMPTY_COUNTER, s, depth)
       case None => None
       case Some(x) => Some(m.(counterStats := m.counterStats + [x])))
    case BytesField(5, s) =>
      (match Nested(HandlePolicer, EMPTY_POLICER, s, depth)
       case None => None
       case Some(x) => Some(m.(policerStats := m.policerStats + [x])))
    case BytesField(6, s) =>
      (match Nested(HandleHierarchical, EMPTY_HIERARCHICAL, s, depth)
       case None => None
       case Some(x) => Some(m.(hierarchical := m.hierarchical + [x])))
    case _ => Some(m.(unknown := m.unknown + [r]))
  }
}
