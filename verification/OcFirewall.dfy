/** How firewall statistics are flattened into an OpenConfig key-value list, and how to read them back. */
module OcFirewall {
  import opened Wire
  import opened TelemetryData
  import opened OcPrefix
  import opened FirewallData
  import opened OpenConfigDataClass
  import opened KeyValueClass

  const BASE := Ascii("/oc-path/firewalls/")
  const TIMESTAMP := Ascii("timestamp")
  const MEMORY := Ascii("memory_usage/")
  const PACKETS := Ascii("counters/packets/")
  const OCTETS := Ascii("counters/bytes/")
  const POLICER_PACKETS := Ascii("policers/out-of-spec-packets/")
  const POLICER_OCTETS := Ascii("policers/out-of-spec-bytes/")

  // ---- What the list keeps of the statistics ---------------------------------------------------------------

  datatype Usage = Usage(name: bytes, allocatedBytes: uint64)
  datatype Traffic = Traffic(name: bytes, packets: uint64, octets: uint64)
  datatype Summary = Summary(name: bytes, timestamp: uint64, memory: seq<Usage>, counters: seq<Traffic>,
                             policers: seq<Traffic>)

  /** The getters of optional fields. */
  function Text(o: Option<bytes>): bytes { if o.Some? then o.value else [] }
  function Number(o: Option<uint64>): uint64 { if o.Some? then o.value else 0 }

  /** Memory regions without allocation are skipped. */
  function KeptMemory(xs: seq<MemoryUsage>): seq<Usage>
  {
    if xs == [] then []
    else
      var x := xs[|xs| - 1];
      KeptMemory(xs[..|xs| - 1]) +
      if Number(x.allocatedBytes) == 0 then [] else [Usage(Text(x.name), Number(x.allocatedBytes))]
  }

  /** Counters without packets are skipped, whatever their bytes. */
  function KeptCounters(xs: seq<CounterStats>): seq<Traffic>
  {
    if xs == [] then []
    else
      var x := xs[|xs| - 1];
      KeptCounters(xs[..|xs| - 1]) +
      if Number(x.packets) == 0 then [] else [Traffic(Text(x.name), Number(x.packets), Number(x.octets))]
  }

  function KeptPolicers(xs: seq<PolicerStats>): seq<Traffic>
  {
    if xs == [] then []
    else
      var x := xs[|xs| - 1];
      KeptPolicers(xs[..|xs| - 1]) +
      if Number(x.packets) == 0 then [] else [Traffic(Text(x.name), Number(x.packets), Number(x.octets))]
  }

  function Summarise(f: FirewallStats): Summary
  {
    Summary(Text(f.filterName), Number(f.timestamp), KeptMemory(f.memoryUsage), KeptCounters(f.counterStats),
            KeptPolicers(f.policerStats))
  }

  function Summaries(fs: seq<FirewallStats>): seq<Summary>
  {
    if fs == [] then [] else Summaries(fs[..|fs| - 1]) + [Summarise(fs[|fs| - 1])]
  }

  // ---- The list ------------------------------------------------------------------------------------------------

  /** A 64-bit count stored as a signed value. */
  function Entry(key: bytes, n: uint64): KeyValue { KeyValue(key, IntValue(ToI64(n))) }

  function RenderMemory(xs: seq<Usage>): seq<KeyValue>
  {
    if xs == [] then []
    else var x := xs[|xs| - 1]; RenderMemory(xs[..|xs| - 1]) + [Entry(MEMORY + x.name, x.allocatedBytes)]
  }

  function RenderTraffic(packets: bytes, octets: bytes, xs: seq<Traffic>): seq<KeyValue>
  {
    if xs == [] then []
    else
      var x := xs[|xs| - 1];
      RenderTraffic(packets, octets, xs[..|xs| - 1]) +
      [Entry(packets + x.name, x.packets), Entry(octets + x.name, x.octets)]
  }

  function Render(s: Summary): seq<KeyValue>
  {
    [KeyValue(PREFIX_KEY, StrValue(PrefixText(BASE, s.name))), Entry(TIMESTAMP, s.timestamp)] +
    RenderMemory(s.memory) + RenderTraffic(PACKETS, OCTETS, s.counters) +
    RenderTraffic(POLICER_PACKETS, POLICER_OCTETS, s.policers)
  }

  function RenderAll(ss: seq<Summary>): seq<KeyValue>
  {
    if ss == [] then [] else RenderAll(ss[..|ss| - 1]) + Render(ss[|ss| - 1])
  }

  // ---- Reading it back ---------------------------------------------------------------------------------------------

  datatype Meaning =
    | NewFilter
    | Time
    | MemoryOf(name: bytes)
    | PacketsOf(name: bytes)
    | OctetsOf(name: bytes)
    | PolicerPacketsOf(name: bytes)
    | PolicerOctetsOf(name: bytes)
    | Nothing

  function MeaningOf(key: bytes): Meaning
  {
    if key == PREFIX_KEY then NewFilter
    else if key == TIMESTAMP then Time
    else if MEMORY <= key then MemoryOf(key[|MEMORY|..])
    else if PACKETS <= key then PacketsOf(key[|PACKETS|..])
    else if OCTETS <= key then OctetsOf(key[|OCTETS|..])
    else if POLICER_PACKETS <= key then PolicerPacketsOf(key[|POLICER_PACKETS|..])
    else if POLICER_OCTETS <= key then PolicerOctetsOf(key[|POLICER_OCTETS|..])
    else Nothing
  }

  function Amount(kv: KeyValue): uint64 { ToU64(IntOf(kv)) }

  /** The byte count behind a packet count. */
  function WithOctets(xs: seq<Traffic>, n: uint64): seq<Traffic>
  {
    if xs == [] then [] else xs[..|xs| - 1] + [xs[|xs| - 1].(octets := n)]
  }

  /** What one entry adds to the filter being read. */
  function Extend(s: Summary, m: Meaning, n: uint64): Summary
  {
    match m
    case NewFilter => s
    case Time => s.(timestamp := n)
    case MemoryOf(name) => s.(memory := s.memory + [Usage(name, n)])
    case PacketsOf(name) => s.(counters := s.counters + [Traffic(name, n, 0)])
    case OctetsOf(_) => s.(counters := WithOctets(s.counters, n))
    case PolicerPacketsOf(name) => s.(policers := s.policers + [Traffic(name, n, 0)])
    case PolicerOctetsOf(_) => s.(policers := WithOctets(s.policers, n))
    case Nothing => s
  }

  function DecodeOne(ss: seq<Summary>, kv: KeyValue): seq<Summary>
  {
    var m := MeaningOf(kv.key);
    if m.NewFilter? then ss + [Summary(NameInPrefix(BASE, StrOf(kv)), 0, [], [], [])]
    else if ss == [] then []
    else ss[..|ss| - 1] + [Extend(ss[|ss| - 1], m, Amount(kv))]
  }

  function Decode(ss: seq<Summary>, kvs: seq<KeyValue>): seq<Summary>
  {
    if kvs == [] then ss else DecodeOne(Decode(ss, kvs[..|kvs| - 1]), kvs[|kvs| - 1])
  }

  // ---- The encoding is invertible ---------------------------------------------------------------------------

  lemma FixedKeys()
    ensures MeaningOf(PREFIX_KEY) == NewFilter && MeaningOf(TIMESTAMP) == Time
  {
    KeysApart();
  }

  /** First letters, and the letters where two keys with the same beginning differ. */
  lemma KeysApart()
    ensures PREFIX_KEY[0] == '_' as int && TIMESTAMP[0] == 't' as int && MEMORY[0] == 'm' as int
    ensures PACKETS[0] == 'c' as int && PACKETS[9] == 'p' as int && OCTETS[0] == 'c' as int && OCTETS[9] == 'b' as int
    ensures POLICER_PACKETS[0] == 'p' as int && POLICER_PACKETS[21] == 'p' as int
    ensures POLICER_OCTETS[0] == 'p' as int && POLICER_OCTETS[21] == 'b' as int
    ensures |PACKETS| > 9 && |OCTETS| > 9 && |POLICER_PACKETS| > 21 && |POLICER_OCTETS| > 21 && |MEMORY| > 0
  {
    assert "__prefix__"[0] == '_' && "timestamp"[0] == 't' && "memory_usage/"[0] == 'm';
    assert "counters/packets/"[0] == 'c' && "counters/packets/"[9] == 'p';
    assert "counters/bytes/"[0] == 'c' && "counters/bytes/"[9] == 'b';
    assert "policers/out-of-spec-packets/"[0] == 'p' && "policers/out-of-spec-packets/"[21] == 'p';
    assert "policers/out-of-spec-bytes/"[0] == 'p' && "policers/out-of-spec-bytes/"[21] == 'b';
  }

  /** A name may be anything: what stands in front of it already tells the entries apart. */
  lemma NamedKeys(name: bytes)
    ensures MeaningOf(MEMORY + name) == MemoryOf(name)
    ensures MeaningOf(PACKETS + name) == PacketsOf(name) && MeaningOf(OCTETS + name) == OctetsOf(name)
    ensures MeaningOf(POLICER_PACKETS + name) == PolicerPacketsOf(name)
    ensures MeaningOf(POLICER_OCTETS + name) == PolicerOctetsOf(name)
  {
    hide MeaningOf;
    MemoryKey(name);
    PacketsKey(name);
    OctetsKey(name);
    PolicerPacketsKey(name);
    PolicerOctetsKey(name);
  }

  lemma MemoryKey(name: bytes)
    ensures MeaningOf(MEMORY + name) == MemoryOf(name)
  {
    KeysApart();
    StartsWith(MEMORY, name);
  }

  lemma PacketsKey(name: bytes)
    ensures MeaningOf(PACKETS + name) == PacketsOf(name)
  {
    KeysApart();
    StartsWith(PACKETS, name);
  }

  lemma OctetsKey(name: bytes)
    ensures MeaningOf(OCTETS + name) == OctetsOf(name)
  {
    KeysApart();
    StartsWith(OCTETS, name);
  }

  lemma PolicerPacketsKey(name: bytes)
    ensures MeaningOf(POLICER_PACKETS + name) == PolicerPacketsOf(name)
  {
    KeysApart();
    StartsWith(POLICER_PACKETS, name);
  }

  lemma PolicerOctetsKey(name: bytes)
    ensures MeaningOf(POLICER_OCTETS + name) == PolicerOctetsOf(name)
  {
    KeysApart();
    StartsWith(POLICER_OCTETS, name);
  }

  lemma StartsWith(front: bytes, name: bytes)
    ensures front <= front + name && (front + name)[|front|..] == name
    ensures forall i :: 0 <= i < |front| ==> (front + name)[i] == front[i]
  {
  }

  lemma {:induction false} DecodeAppend(ss: seq<Summary>, a: seq<KeyValue>, b: seq<KeyValue>)
    ensures Decode(ss, a + b) == Decode(Decode(ss, a), b)
    decreases |b|
  {
    hide DecodeOne;
    if b == [] {
      assert a + b == a;
    } else {
      assert (a + b)[..|a + b| - 1] == a + b[..|b| - 1];
      DecodeAppend(ss, a, b[..|b| - 1]);
    }
  }

  lemma DecodeSnoc(ss: seq<Summary>, a: seq<KeyValue>, kv: KeyValue)
    ensures Decode(ss, a + [kv]) == DecodeOne(Decode(ss, a), kv)
  {
    hide DecodeOne;
    assert (a + [kv])[..|a + [kv]| - 1] == a;
  }

  /** An entry that belongs to the filter read last. */
  lemma DecodeEntry(ss: seq<Summary>, s: Summary, key: bytes, n: uint64)
    requires !MeaningOf(key).NewFilter?
    ensures DecodeOne(ss + [s], Entry(key, n)) == ss + [Extend(s, MeaningOf(key), n)]
  {
    hide MeaningOf, Extend, ToI64, ToU64;
    SignedRoundTrips(0, n);
    assert (ss + [s])[..|ss|] == ss;
  }

  lemma {:induction false} DecodeMemory(ss: seq<Summary>, s: Summary, xs: seq<Usage>)
    ensures Decode(ss + [s], RenderMemory(xs)) == ss + [s.(memory := s.memory + xs)]
    decreases |xs|
  {
    hide DecodeOne, MeaningOf, Entry, Decode;
    if xs == [] {
      DecodeNothing(ss + [s]);
      assert s.memory + xs == s.memory;
    } else {
      var x, init := xs[|xs| - 1], xs[..|xs| - 1];
      DecodeMemory(ss, s, init);
      NamedKeys(x.name);
      DecodeSnoc(ss + [s], RenderMemory(init), Entry(MEMORY + x.name, x.allocatedBytes));
      DecodeEntry(ss, s.(memory := s.memory + init), MEMORY + x.name, x.allocatedBytes);
      assert s.memory + init + [x] == s.memory + xs;
    }
  }

  lemma DecodeNothing(ss: seq<Summary>)
    ensures Decode(ss, []) == ss
  {
  }

  lemma DecodeTwo(ss: seq<Summary>, s: Summary, s1: Summary, a: seq<KeyValue>, k: bytes, m: nat, l: bytes, n: nat)
    requires m < TWO64 && n < TWO64 && !MeaningOf(k).NewFilter? && !MeaningOf(l).NewFilter?
    requires Decode(ss + [s], a) == ss + [s1]
    ensures Decode(ss + [s], a + [Entry(k, m), Entry(l, n)])
         == ss + [Extend(Extend(s1, MeaningOf(k), m), MeaningOf(l), n)]
  {
    hide DecodeOne, MeaningOf, Entry, Decode, Extend;
    assert a + [Entry(k, m), Entry(l, n)] == a + [Entry(k, m)] + [Entry(l, n)];
    DecodeSnoc(ss + [s], a, Entry(k, m));
    DecodeEntry(ss, s1, k, m);
    DecodeSnoc(ss + [s], a + [Entry(k, m)], Entry(l, n));
    DecodeEntry(ss, Extend(s1, MeaningOf(k), m), l, n);
  }

  lemma {:induction false} DecodeCounters(ss: seq<Summary>, s: Summary, xs: seq<Traffic>)
    ensures Decode(ss + [s], RenderTraffic(PACKETS, OCTETS, xs)) == ss + [s.(counters := s.counters + xs)]
    decreases |xs|
  {
    hide DecodeOne, MeaningOf, Entry, Decode;
    if xs == [] {
      DecodeNothing(ss + [s]);
      assert s.counters + xs == s.counters;
    } else {
      var x, init := xs[|xs| - 1], xs[..|xs| - 1];
      var s1 := s.(counters := s.counters + init);
      DecodeCounters(ss, s, init);
      NamedKeys(x.name);
      DecodeTwo(ss, s, s1, RenderTraffic(PACKETS, OCTETS, init), PACKETS + x.name, x.packets, OCTETS + x.name,
                x.octets);
      PacketsThenOctets(s1.counters, x);
      assert s.counters + init + [x] == s.counters + xs;
    }
  }

  lemma {:induction false} DecodePolicers(ss: seq<Summary>, s: Summary, xs: seq<Traffic>)
    ensures Decode(ss + [s], RenderTraffic(POLICER_PACKETS, POLICER_OCTETS, xs))
         == ss + [s.(policers := s.policers + xs)]
    decreases |xs|
  {
    hide DecodeOne, MeaningOf, Entry, Decode;
    if xs == [] {
      DecodeNothing(ss + [s]);
      assert s.policers + xs == s.policers;
    } else {
      var x, init := xs[|xs| - 1], xs[..|xs| - 1];
      var s1 := s.(policers := s.policers + init);
      DecodePolicers(ss, s, init);
      NamedKeys(x.name);
      DecodeTwo(ss, s, s1, RenderTraffic(POLICER_PACKETS, POLICER_OCTETS, init), POLICER_PACKETS + x.name, x.packets,
                POLICER_OCTETS + x.name, x.octets);
      PacketsThenOctets(s1.policers, x);
      assert s.policers + init + [x] == s.policers + xs;
    }
  }

  lemma PacketsThenOctets(xs: seq<Traffic>, x: Traffic)
    ensures WithOctets(xs + [Traffic(x.name, x.packets, 0)], x.octets) == xs + [x]
  {
  }

  lemma DecodeRendered(ss: seq<Summary>, s: Summary)
    ensures Decode(ss, Render(s)) == ss + [s]
  {
    hide MeaningOf, Entry, RenderMemory, RenderTraffic, Decode, PrefixText;
    var head := KeyValue(PREFIX_KEY, StrValue(PrefixText(BASE, s.name)));
    var time := Entry(TIMESTAMP, s.timestamp);
    var m, c, p := RenderMemory(s.memory), RenderTraffic(PACKETS, OCTETS, s.counters),
                   RenderTraffic(POLICER_PACKETS, POLICER_OCTETS, s.policers);
    var s0 := Summary(s.name, 0, [], [], []);
    FixedKeys();
    PrefixInvertible(BASE, s.name);
    DecodeNothing(ss);
    DecodeSnoc(ss, [], head);
    assert [] + [head] == [head];
    DecodeSnoc(ss, [head], time);
    assert [head] + [time] == [head, time];
    DecodeEntry(ss, s0, TIMESTAMP, s.timestamp);
    hide DecodeOne;
    var s1 := s0.(timestamp := s.timestamp);
    assert Decode(ss, [head, time]) == ss + [s1];
    DecodeAppend(ss, [head, time], m);
    DecodeMemory(ss, s1, s.memory);
    var s2 := s1.(memory := [] + s.memory);
    DecodeAppend(ss, [head, time] + m, c);
    DecodeCounters(ss, s2, s.counters);
    var s3 := s2.(counters := [] + s.counters);
    DecodeAppend(ss, [head, time] + m + c, p);
    DecodePolicers(ss, s3, s.policers);
    assert [] + s.memory == s.memory && [] + s.counters == s.counters && [] + s.policers == s.policers;
  }

  /** Reading back the list gives every filter with its name and time stamp, and every memory region, counter and
      policer whose guarding field is not zero, in order, with exact 64-bit values, for arbitrary names. */
  lemma {:induction false} Invertible(ss: seq<Summary>)
    ensures Decode([], RenderAll(ss)) == ss
    decreases |ss|
  {
    hide Render, DecodeOne;
    if ss != [] {
      var init, s := ss[..|ss| - 1], ss[|ss| - 1];
      Invertible(init);
      DecodeAppend([], RenderAll(init), Render(s));
      DecodeRendered(init, s);
    }
  }

  /** Two lists of statistics are flattened to the same entries exactly if they agree in all that is kept. */
  lemma SameListIff(a: seq<FirewallStats>, b: seq<FirewallStats>)
    ensures RenderAll(Summaries(a)) == RenderAll(Summaries(b)) <==> Summaries(a) == Summaries(b)
  {
    hide RenderAll, Summaries, Decode;
    Invertible(Summaries(a));
    Invertible(Summaries(b));
  }

  // ---- The entries, field by field ---------------------------------------------------------------------------

  /** How many of the first n elements satisfy p. */
  function CountOf<T>(p: T -> bool, xs: seq<T>, n: nat): nat
    requires n <= |xs|
  {
    if n == 0 then 0 else CountOf(p, xs, n - 1) + if p(xs[n - 1]) then 1 else 0
  }

  lemma {:induction false} CountOfInit<T>(p: T -> bool, xs: seq<T>, n: nat)
    requires n < |xs|
    ensures CountOf(p, xs[..|xs| - 1], n) == CountOf(p, xs, n)
  {
    if n > 0 { CountOfInit(p, xs, n - 1); }
  }

  predicate Allocated(x: MemoryUsage) { x.allocatedBytes.Some? && x.allocatedBytes.value != 0 }
  predicate Counted(x: CounterStats) { x.packets.Some? && x.packets.value != 0 }
  predicate Policed(x: PolicerStats) { x.packets.Some? && x.packets.value != 0 }

  /** An entry with this count under this text followed by the name, if there is one. */
  ghost predicate Says(kv: KeyValue, front: string, name: Option<bytes>, n: Option<uint64>)
    requires forall i :: 0 <= i < |front| ==> front[i] < 128 as char
  {
    kv == KeyValue(if name.Some? then Ascii(front) + name.value else Ascii(front),
                   IntValue(if n.Some? then ToI64(n.value) else 0))
  }

  /** Each allocated region gives one entry, in order, and no other region gives any. */
  ghost predicate MemorySays(xs: seq<MemoryUsage>, e: seq<KeyValue>)
  {
    |e| == CountOf(Allocated, xs, |xs|) &&
    forall j :: 0 <= j < |xs| && Allocated(xs[j]) ==>
      var k := CountOf(Allocated, xs, j);
      k < |e| && Says(e[k], "memory_usage/", xs[j].name, xs[j].allocatedBytes)
  }

  /** Each counter with packets gives two entries in a row, its packets and its bytes. */
  ghost predicate CountersSay(xs: seq<CounterStats>, e: seq<KeyValue>)
  {
    |e| == 2 * CountOf(Counted, xs, |xs|) &&
    forall j :: 0 <= j < |xs| && Counted(xs[j]) ==>
      var k := 2 * CountOf(Counted, xs, j);
      k + 1 < |e| && Says(e[k], "counters/packets/", xs[j].name, xs[j].packets) &&
      Says(e[k + 1], "counters/bytes/", xs[j].name, xs[j].octets)
  }

  ghost predicate PolicersSay(xs: seq<PolicerStats>, e: seq<KeyValue>)
  {
    |e| == 2 * CountOf(Policed, xs, |xs|) &&
    forall j :: 0 <= j < |xs| && Policed(xs[j]) ==>
      var k := 2 * CountOf(Policed, xs, j);
      k + 1 < |e| && Says(e[k], "policers/out-of-spec-packets/", xs[j].name, xs[j].packets) &&
      Says(e[k + 1], "policers/out-of-spec-bytes/", xs[j].name, xs[j].octets)
  }

  function FilterSize(f: FirewallStats): nat
  {
    2 + CountOf(Allocated, f.memoryUsage, |f.memoryUsage|) + 2 * CountOf(Counted, f.counterStats, |f.counterStats|) +
    2 * CountOf(Policed, f.policerStats, |f.policerStats|)
  }

  /** The entries of a filter: its prefix and time stamp, then its memory regions, counters and policers. */
  ghost predicate FilterSays(f: FirewallStats, e: seq<KeyValue>)
  {
    |e| == FilterSize(f) &&
    var a := 2 + CountOf(Allocated, f.memoryUsage, |f.memoryUsage|);
    var b := a + 2 * CountOf(Counted, f.counterStats, |f.counterStats|);
    e[0] == KeyValue(Ascii("__prefix__"),
                     StrValue(Ascii("/oc-path/firewalls/") + Ascii("[name='") +
                              (if f.filterName.Some? then f.filterName.value else []) + Ascii("']/"))) &&
    Says(e[1], "timestamp", None, f.timestamp) &&
    MemorySays(f.memoryUsage, e[2..a]) && CountersSay(f.counterStats, e[a..b]) && PolicersSay(f.policerStats, e[b..])
  }

  /** How many entries the first n filters give. */
  function Offset(fs: seq<FirewallStats>, n: nat): nat
    requires n <= |fs|
  {
    if n == 0 then 0 else Offset(fs, n - 1) + FilterSize(fs[n - 1])
  }

  ghost predicate PartSays(fs: seq<FirewallStats>, e: seq<KeyValue>, i: nat)
    requires i < |fs|
  {
    Offset(fs, i) <= Offset(fs, i + 1) <= |e| && FilterSays(fs[i], e[Offset(fs, i)..Offset(fs, i + 1)])
  }

  /** The filters one behind the other. */
  ghost predicate AllSay(fs: seq<FirewallStats>, e: seq<KeyValue>)
  {
    |e| == Offset(fs, |fs|) && forall i :: 0 <= i < |fs| ==> PartSays(fs, e, i)
  }

  lemma {:induction false} MemoryIsSaid(xs: seq<MemoryUsage>)
    ensures MemorySays(xs, RenderMemory(KeptMemory(xs)))
    decreases |xs|
  {
    hide Says, MemorySays, RenderMemory, KeptMemory;
    KeptNothing();
    if xs != [] {
      var n := |xs| - 1;
      var x, kept := xs[n], KeptMemory(xs[..n]);
      MemoryIsSaid(xs[..n]);
      KeptMemoryLast(xs);
      MemoryMore(xs, RenderMemory(kept));
      if Allocated(x) {
        var u := Usage(Text(x.name), Number(x.allocatedBytes));
        RenderMemorySnoc(kept, u);
        EntrySays("memory_usage/", x.name, x.allocatedBytes);
        assert Says(Entry(MEMORY + u.name, u.allocatedBytes), "memory_usage/", x.name, x.allocatedBytes);
      }
    }
  }

  lemma KeptNothing()
    ensures MemorySays([], RenderMemory(KeptMemory([])))
    ensures CountersSay([], RenderTraffic(PACKETS, OCTETS, KeptCounters([])))
    ensures PolicersSay([], RenderTraffic(POLICER_PACKETS, POLICER_OCTETS, KeptPolicers([])))
  {
  }

  // What the last element of each list adds to what is kept.

  lemma KeptMemoryLast(xs: seq<MemoryUsage>)
    requires xs != []
    ensures var x, kept := xs[|xs| - 1], KeptMemory(xs[..|xs| - 1]);
            KeptMemory(xs) == if Allocated(x) then kept + [Usage(Text(x.name), x.allocatedBytes.value)] else kept
  {
  }

  lemma KeptCountersLast(xs: seq<CounterStats>)
    requires xs != []
    ensures var x, kept := xs[|xs| - 1], KeptCounters(xs[..|xs| - 1]);
            KeptCounters(xs) == if Counted(x) then kept + [Traffic(Text(x.name), x.packets.value, Number(x.octets))]
                                else kept
  {
  }

  lemma KeptPolicersLast(xs: seq<PolicerStats>)
    requires xs != []
    ensures var x, kept := xs[|xs| - 1], KeptPolicers(xs[..|xs| - 1]);
            KeptPolicers(xs) == if Policed(x) then kept + [Traffic(Text(x.name), x.packets.value, Number(x.octets))]
                                else kept
  {
  }

  /** One more region. */
  lemma MemoryMore(xs: seq<MemoryUsage>, e: seq<KeyValue>)
    requires xs != [] && MemorySays(xs[..|xs| - 1], e)
    ensures var x := xs[|xs| - 1];
            if Allocated(x)
            then forall kv :: Says(kv, "memory_usage/", x.name, x.allocatedBytes) ==> MemorySays(xs, e + [kv])
            else MemorySays(xs, e)
  {
    hide Says;
    var n := |xs| - 1;
    var init := xs[..n];
    forall j | 0 <= j <= n ensures CountOf(Allocated, init, j) == CountOf(Allocated, xs, j) {
      CountOfInit(Allocated, xs, j);
    }
    assert forall j :: 0 <= j < n ==> init[j] == xs[j];
  }

  lemma CountersMore(xs: seq<CounterStats>, e: seq<KeyValue>)
    requires xs != [] && CountersSay(xs[..|xs| - 1], e)
    ensures var x := xs[|xs| - 1];
            if Counted(x)
            then forall kv, kw :: (Says(kv, "counters/packets/", x.name, x.packets) &&
                                   Says(kw, "counters/bytes/", x.name, x.octets)) ==> CountersSay(xs, e + [kv, kw])
            else CountersSay(xs, e)
  {
    hide Says;
    var n := |xs| - 1;
    var init := xs[..n];
    forall j | 0 <= j <= n ensures CountOf(Counted, init, j) == CountOf(Counted, xs, j) {
      CountOfInit(Counted, xs, j);
    }
    assert forall j :: 0 <= j < n ==> init[j] == xs[j];
  }

  lemma PolicersMore(xs: seq<PolicerStats>, e: seq<KeyValue>)
    requires xs != [] && PolicersSay(xs[..|xs| - 1], e)
    ensures var x := xs[|xs| - 1];
            if Policed(x)
            then forall kv, kw :: (Says(kv, "policers/out-of-spec-packets/", x.name, x.packets) &&
                                   Says(kw, "policers/out-of-spec-bytes/", x.name, x.octets)) ==>
                                   PolicersSay(xs, e + [kv, kw])
            else PolicersSay(xs, e)
  {
    hide Says;
    var n := |xs| - 1;
    var init := xs[..n];
    forall j | 0 <= j <= n ensures CountOf(Policed, init, j) == CountOf(Policed, xs, j) {
      CountOfInit(Policed, xs, j);
    }
    assert forall j :: 0 <= j < n ==> init[j] == xs[j];
  }

  lemma {:induction false} CountersAreSaid(xs: seq<CounterStats>)
    ensures CountersSay(xs, RenderTraffic(PACKETS, OCTETS, KeptCounters(xs)))
    decreases |xs|
  {
    hide Says, CountersSay, RenderTraffic, KeptCounters, Entry;
    KeptNothing();
    if xs != [] {
      var n := |xs| - 1;
      var x, kept := xs[n], KeptCounters(xs[..n]);
      CountersAreSaid(xs[..n]);
      KeptCountersLast(xs);
      CountersMore(xs, RenderTraffic(PACKETS, OCTETS, kept));
      if Counted(x) {
        RenderTrafficSnoc(PACKETS, OCTETS, kept, Traffic(Text(x.name), x.packets.value, Number(x.octets)));
        EntrySays("counters/packets/", x.name, x.packets);
        EntrySays("counters/bytes/", x.name, x.octets);
      }
    }
  }

  lemma {:induction false} PolicersAreSaid(xs: seq<PolicerStats>)
    ensures PolicersSay(xs, RenderTraffic(POLICER_PACKETS, POLICER_OCTETS, KeptPolicers(xs)))
    decreases |xs|
  {
    hide Says, PolicersSay, RenderTraffic, KeptPolicers, Entry;
    KeptNothing();
    if xs != [] {
      var n := |xs| - 1;
      var x, kept := xs[n], KeptPolicers(xs[..n]);
      PolicersAreSaid(xs[..n]);
      KeptPolicersLast(xs);
      PolicersMore(xs, RenderTraffic(POLICER_PACKETS, POLICER_OCTETS, kept));
      if Policed(x) {
        RenderTrafficSnoc(POLICER_PACKETS, POLICER_OCTETS, kept,
                          Traffic(Text(x.name), x.packets.value, Number(x.octets)));
        EntrySays("policers/out-of-spec-packets/", x.name, x.packets);
        EntrySays("policers/out-of-spec-bytes/", x.name, x.octets);
      }
    }
  }

  lemma EntrySays(front: string, name: Option<bytes>, n: Option<uint64>)
    requires forall i :: 0 <= i < |front| ==> front[i] < 128 as char
    ensures Says(Entry(Ascii(front) + Text(name), Number(n)), front, name, n)
  {
    assert Ascii(front) + [] == Ascii(front);
    assert ToI64(0) == 0;
  }

  /** A filter is flattened to exactly these entries. */
  lemma FilterIsSaid(f: FirewallStats)
    ensures FilterSays(f, Render(Summarise(f)))
  {
    hide Says, RenderMemory, RenderTraffic, KeptMemory, KeptCounters, KeptPolicers, Entry;
    MemoryIsSaid(f.memoryUsage);
    CountersAreSaid(f.counterStats);
    PolicersAreSaid(f.policerStats);
    var m := RenderMemory(KeptMemory(f.memoryUsage));
    var c := RenderTraffic(PACKETS, OCTETS, KeptCounters(f.counterStats));
    var p := RenderTraffic(POLICER_PACKETS, POLICER_OCTETS, KeptPolicers(f.policerStats));
    var e := Render(Summarise(f));
    assert e[2..2 + |m|] == m && e[2 + |m|..2 + |m| + |c|] == c && e[2 + |m| + |c|..] == p;
    EntrySays("timestamp", None, f.timestamp);
    assert TIMESTAMP + [] == TIMESTAMP;
  }

  lemma {:induction false} OffsetInit(fs: seq<FirewallStats>, n: nat)
    requires n < |fs|
    ensures Offset(fs[..|fs| - 1], n) == Offset(fs, n)
  {
    hide FilterSize;
    if n > 0 { OffsetInit(fs, n - 1); }
  }

  lemma PartKept(fs: seq<FirewallStats>, e: seq<KeyValue>, more: seq<KeyValue>, i: nat)
    requires i < |fs| - 1 && PartSays(fs[..|fs| - 1], e, i)
    ensures PartSays(fs, e + more, i)
  {
    hide FilterSays, Offset;
    OffsetInit(fs, i);
    OffsetInit(fs, i + 1);
    var a, b := Offset(fs, i), Offset(fs, i + 1);
    assert (e + more)[a..b] == e[a..b];
  }

  /** Everything that is flattened, and nothing else, in order and field by field. */
  lemma {:induction false} AllIsSaid(fs: seq<FirewallStats>)
    ensures AllSay(fs, RenderAll(Summaries(fs)))
    decreases |fs|
  {
    hide FilterSays, FilterSize, Render, Summarise, PartSays;
    if fs != [] {
      var n := |fs| - 1;
      var init, f := fs[..n], fs[n];
      AllIsSaid(init);
      var e, more := RenderAll(Summaries(init)), Render(Summarise(f));
      assert (Summaries(init) + [Summarise(f)])[..|Summaries(init)|] == Summaries(init);
      assert RenderAll(Summaries(fs)) == e + more;
      forall i | 0 <= i < n ensures PartSays(fs, e + more, i) { PartKept(fs, e, more, i); }
      OffsetInit(fs, n);
      LastPart(fs, e, more);
    }
  }

  lemma SizeSaid(f: FirewallStats, e: seq<KeyValue>)
    ensures FilterSays(f, e) ==> |e| == FilterSize(f)
  {
  }

  lemma LastPart(fs: seq<FirewallStats>, e: seq<KeyValue>, more: seq<KeyValue>)
    requires fs != [] && |e| == Offset(fs, |fs| - 1) && more == Render(Summarise(fs[|fs| - 1]))
    ensures PartSays(fs, e + more, |fs| - 1) && |e + more| == Offset(fs, |fs|)
  {
    hide Render, Summarise, FilterSays, FilterSize;
    FilterIsSaid(fs[|fs| - 1]);
    SizeSaid(fs[|fs| - 1], more);
    assert (e + more)[|e|..|e + more|] == more;
  }

  // ---- iterate ------------------------------------------------------------------------------------------------------

  /** The message with these entries behind its own. */
  function More(m: OpenConfigData, kvs: seq<KeyValue>): OpenConfigData { m.(kv := m.kv + kvs) }

  lemma MoreTwice(m: OpenConfigData, a: seq<KeyValue>, b: seq<KeyValue>)
    ensures More(More(m, a), b) == More(m, a + b) && More(m, []) == m
  {
    assert m.kv + a + b == m.kv + (a + b) && m.kv + [] == m.kv;
  }

  /** What has come behind the entries that were there. */
  lemma Appended(m: OpenConfigData, n: OpenConfigData, kvs: seq<KeyValue>)
    requires n == More(m, kvs)
    ensures |n.kv| >= |m.kv| && n.kv[|m.kv|..] == kvs
  {
  }

  /** add_kv, set_key and setting the value. */
  method AddEntry(datap: OpenConfigDataMessage, key: bytes, value: Value)
    requires !value.NotSet?
    modifies datap
    ensures datap.Value() == More(old(datap.Value()), [KeyValue(key, value)])
  {
    hide Values;
    var kv := new KeyValueClass.KeyValueMessage();
    kv.SetKey(key);
    kv.SetValue(value);
    ValuesSnoc(datap.kv, kv);
    datap.kv := datap.kv + [kv];
  }

  method AddMemory(datap: OpenConfigDataMessage, xs: seq<MemoryUsage>)
    modifies datap
    ensures datap.Value() == More(old(datap.Value()), RenderMemory(KeptMemory(xs)))
    ensures MemorySays(xs, datap.Value().kv[|old(datap.Value()).kv|..])
  {
    hide Values, More, Entry, MemorySays;
    ghost var start := datap.Value();
    assert xs[..0] == [];
    MoreTwice(start, [], []);
    for j := 0 to |xs|
      invariant datap.Value() == More(start, RenderMemory(KeptMemory(xs[..j])))
    {
      var mem := xs[j];
      assert xs[..j + 1][..j] == xs[..j];
      ghost var done := RenderMemory(KeptMemory(xs[..j]));
      if Number(mem.allocatedBytes) == 0 {
        assert KeptMemory(xs[..j]) + [] == KeptMemory(xs[..j]);
        continue;
      }
      ghost var u := Usage(Text(mem.name), Number(mem.allocatedBytes));
      RenderMemorySnoc(KeptMemory(xs[..j]), u);
      AddEntry(datap, MEMORY + Text(mem.name), IntValue(ToI64(Number(mem.allocatedBytes))));
      EntryIs(MEMORY + Text(mem.name), Number(mem.allocatedBytes));
      MoreTwice(start, done, [Entry(MEMORY + u.name, u.allocatedBytes)]);
    }
    assert xs[..|xs|] == xs;
    MemoryIsSaid(xs);
    Appended(start, datap.Value(), RenderMemory(KeptMemory(xs)));
  }

  lemma EntryIs(key: bytes, n: uint64)
    ensures Entry(key, n) == KeyValue(key, IntValue(ToI64(n)))
  {
  }

  lemma RenderMemorySnoc(xs: seq<Usage>, x: Usage)
    ensures RenderMemory(xs + [x]) == RenderMemory(xs) + [Entry(MEMORY + x.name, x.allocatedBytes)]
  {
    assert (xs + [x])[..|xs|] == xs;
  }

  lemma RenderTrafficSnoc(packets: bytes, octets: bytes, xs: seq<Traffic>, x: Traffic)
    ensures RenderTraffic(packets, octets, xs + [x])
         == RenderTraffic(packets, octets, xs) + [Entry(packets + x.name, x.packets), Entry(octets + x.name, x.octets)]
  {
    assert (xs + [x])[..|xs|] == xs;
  }

  /** The two entries of a counter or a policer. */
  method AddTraffic(datap: OpenConfigDataMessage, packets: bytes, octets: bytes, x: Traffic)
    modifies datap
    ensures datap.Value()
         == More(old(datap.Value()), [Entry(packets + x.name, x.packets), Entry(octets + x.name, x.octets)])
  {
    hide Values, More;
    ghost var start := datap.Value();
    AddEntry(datap, packets + x.name, IntValue(ToI64(x.packets)));
    AddEntry(datap, octets + x.name, IntValue(ToI64(x.octets)));
    MoreTwice(start, [Entry(packets + x.name, x.packets)], [Entry(octets + x.name, x.octets)]);
    assert [Entry(packets + x.name, x.packets)] + [Entry(octets + x.name, x.octets)]
        == [Entry(packets + x.name, x.packets), Entry(octets + x.name, x.octets)];
  }

  method AddCounters(datap: OpenConfigDataMessage, xs: seq<CounterStats>)
    modifies datap
    ensures datap.Value() == More(old(datap.Value()), RenderTraffic(PACKETS, OCTETS, KeptCounters(xs)))
    ensures CountersSay(xs, datap.Value().kv[|old(datap.Value()).kv|..])
  {
    hide Values, More, Entry, CountersSay;
    ghost var start := datap.Value();
    assert xs[..0] == [];
    MoreTwice(start, [], []);
    for j := 0 to |xs|
      invariant datap.Value() == More(start, RenderTraffic(PACKETS, OCTETS, KeptCounters(xs[..j])))
    {
      var cntr := xs[j];
      assert xs[..j + 1][..j] == xs[..j];
      ghost var kept := KeptCounters(xs[..j]);
      if Number(cntr.packets) == 0 {
        assert kept + [] == kept;
        continue;
      }
      var x := Traffic(Text(cntr.name), Number(cntr.packets), Number(cntr.octets));
      RenderTrafficSnoc(PACKETS, OCTETS, kept, x);
      AddTraffic(datap, PACKETS, OCTETS, x);
      MoreTwice(start, RenderTraffic(PACKETS, OCTETS, kept),
                [Entry(PACKETS + x.name, x.packets), Entry(OCTETS + x.name, x.octets)]);
    }
    assert xs[..|xs|] == xs;
    CountersAreSaid(xs);
    Appended(start, datap.Value(), RenderTraffic(PACKETS, OCTETS, KeptCounters(xs)));
  }

  method AddPolicers(datap: OpenConfigDataMessage, xs: seq<PolicerStats>)
    modifies datap
    ensures datap.Value()
         == More(old(datap.Value()), RenderTraffic(POLICER_PACKETS, POLICER_OCTETS, KeptPolicers(xs)))
    ensures PolicersSay(xs, datap.Value().kv[|old(datap.Value()).kv|..])
  {
    hide Values, More, Entry, PolicersSay;
    ghost var start := datap.Value();
    assert xs[..0] == [];
    MoreTwice(start, [], []);
    for j := 0 to |xs|
      invariant datap.Value() == More(start, RenderTraffic(POLICER_PACKETS, POLICER_OCTETS, KeptPolicers(xs[..j])))
    {
      var pol := xs[j];
      assert xs[..j + 1][..j] == xs[..j];
      ghost var kept := KeptPolicers(xs[..j]);
      if Number(pol.packets) == 0 {
        assert kept + [] == kept;
        continue;
      }
      var x := Traffic(Text(pol.name), Number(pol.packets), Number(pol.octets));
      RenderTrafficSnoc(POLICER_PACKETS, POLICER_OCTETS, kept, x);
      AddTraffic(datap, POLICER_PACKETS, POLICER_OCTETS, x);
      MoreTwice(start, RenderTraffic(POLICER_PACKETS, POLICER_OCTETS, kept),
                [Entry(POLICER_PACKETS + x.name, x.packets), Entry(POLICER_OCTETS + x.name, x.octets)]);
    }
    assert xs[..|xs|] == xs;
    PolicersAreSaid(xs);
    Appended(start, datap.Value(), RenderTraffic(POLICER_PACKETS, POLICER_OCTETS, KeptPolicers(xs)));
  }

  /** The entries of one filter. */
  method AddFilter(datap: OpenConfigDataMessage, filter: FirewallStats)
    modifies datap
    ensures datap.Value() == More(old(datap.Value()), Render(Summarise(filter)))
  {
    hide Values, More, Entry, RenderMemory, RenderTraffic, KeptMemory, KeptCounters, KeptPolicers, PrefixText;
    ghost var start := datap.Value();
    AddEntry(datap, PREFIX_KEY, StrValue(PrefixText(BASE, Text(filter.filterName))));
    AddEntry(datap, TIMESTAMP, IntValue(ToI64(Number(filter.timestamp))));
    EntryIs(TIMESTAMP, Number(filter.timestamp));
    ghost var head := [KeyValue(PREFIX_KEY, StrValue(PrefixText(BASE, Text(filter.filterName))))];
    ghost var time := [Entry(TIMESTAMP, Number(filter.timestamp))];
    MoreTwice(start, head, time);
    assert head + time == [head[0], time[0]];
    AddMemory(datap, filter.memoryUsage);
    ghost var m := RenderMemory(KeptMemory(filter.memoryUsage));
    MoreTwice(start, head + time, m);
    AddCounters(datap, filter.counterStats);
    ghost var c := RenderTraffic(PACKETS, OCTETS, KeptCounters(filter.counterStats));
    MoreTwice(start, head + time + m, c);
    AddPolicers(datap, filter.policerStats);
    MoreTwice(start, head + time + m + c,
              RenderTraffic(POLICER_PACKETS, POLICER_OCTETS, KeptPolicers(filter.policerStats)));
  }

  /** The message gets the entries of all filters behind its own: those that the fields of the filters call for, in
      order, and nothing else. From them everything kept can be read back. */
  method Iterate(message: seq<FirewallStats>, datap: OpenConfigDataMessage)
    modifies datap
    ensures datap.Value() == More(old(datap.Value()), RenderAll(Summaries(message)))
    ensures AllSay(message, datap.Value().kv[|old(datap.Value()).kv|..])
    ensures Decode([], datap.Value().kv[|old(datap.Value()).kv|..]) == Summaries(message)
  {
    hide Values, Render, Summarise, Decode, AllSay;
    ghost var start := datap.Value();
    assert message[..0] == [];
    MoreTwice(start, [], []);
    for i := 0 to |message|
      invariant datap.Value() == More(start, RenderAll(Summaries(message[..i])))
    {
      assert message[..i + 1][..i] == message[..i];
      AddFilter(datap, message[i]);
      ghost var ss, s := Summaries(message[..i]), Summarise(message[i]);
      assert (ss + [s])[..|ss|] == ss;
      MoreTwice(start, RenderAll(ss), Render(s));
    }
    assert message[..|message|] == message;
    Invertible(Summaries(message));
    AllIsSaid(message);
    assert datap.Value().kv[|start.kv|..] == RenderAll(Summaries(message));
  }
}
