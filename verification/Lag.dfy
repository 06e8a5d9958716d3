/** The link aggregation counters: groups and their member interfaces, and how a telemetry message is counted. */
module Lag {
  import opened Wire
  import opened OcPrefix
  import opened TelemetryData
  import Decimal

  // ---- Counting, as a function of the message -----------------------------------------------------------

  const PARENT_KEY := Ascii("parent_ae_name")
  const PACKETS_KEY := Ascii("output_packets")

  /** A counter is found under the name of its group and its own name. */
  type Key = (bytes, bytes)
  type Counters = map<Key, uint64>

  /** The text under a key nearest before position i of the message. */
  function Nearest(kvs: seq<KeyValue>, key: bytes, i: nat): bytes
    requires i <= |kvs|
  {
    if i == 0 then []
    else if kvs[i - 1].key == key then StrOf(kvs[i - 1])
    else Nearest(kvs, key, i - 1)
  }

  /** The counter that an entry is for. */
  function Target(kvs: seq<KeyValue>, i: nat): Key
    requires i <= |kvs|
  {
    (Nearest(kvs, PARENT_KEY, i), Nearest(kvs, PREFIX_KEY, i))
  }

  /** How many packets entry i reports; a negative number wraps around. */
  function Reported(kvs: seq<KeyValue>, i: nat): uint64
    requires i < |kvs|
  {
    if kvs[i].key == PACKETS_KEY then ToU64(IntOf(kvs[i])) else 0
  }

  function Bump(c: Counters, k: Key, n: uint64): Counters
  {
    if k in c then c[k := (c[k] + n) % TWO64] else c
  }

  /** The counters after the first n entries. */
  function Count(c: Counters, kvs: seq<KeyValue>, n: nat): Counters
    requires n <= |kvs|
  {
    if n == 0 then c
    else
      var d := Count(c, kvs, n - 1);
      if kvs[n - 1].key == PACKETS_KEY then Bump(d, Target(kvs, n - 1), ToU64(IntOf(kvs[n - 1]))) else d
  }

  /** All that the first n entries report for one counter. */
  function ReportedFor(kvs: seq<KeyValue>, n: nat, k: Key): nat
    requires n <= |kvs|
  {
    if n == 0 then 0
    else ReportedFor(kvs, n - 1, k) + if Target(kvs, n - 1) == k then Reported(kvs, n - 1) else 0
  }

  /** All that the first n entries report for any of these counters. */
  function ReportedAmong(kvs: seq<KeyValue>, n: nat, ks: set<Key>): nat
    requires n <= |kvs|
  {
    if n == 0 then 0
    else ReportedAmong(kvs, n - 1, ks) + if Target(kvs, n - 1) in ks then Reported(kvs, n - 1) else 0
  }

  function CountAll(c: Counters, messages: seq<OpenConfigData>): Counters
  {
    if messages == [] then c
    else
      var last := messages[|messages| - 1].kv;
      Count(CountAll(c, messages[..|messages| - 1]), last, |last|)
  }

  function ReportedForAll(messages: seq<OpenConfigData>, k: Key): nat
  {
    if messages == [] then 0
    else
      var last := messages[|messages| - 1].kv;
      ReportedForAll(messages[..|messages| - 1], k) + ReportedFor(last, |last|, k)
  }

  function ReportedAmongAll(messages: seq<OpenConfigData>, ks: set<Key>): nat
  {
    if messages == [] then 0
    else
      var last := messages[|messages| - 1].kv;
      ReportedAmongAll(messages[..|messages| - 1], ks) + ReportedAmong(last, |last|, ks)
  }

  // ---- Every counter gets exactly its own ------------------------------------------------------------------

  lemma AddMod(a: nat, b: nat, n: nat)
    ensures (a % TWO64 + n) % TWO64 == (a + n) % TWO64
    ensures a % TWO64 == b % TWO64 ==> (a + n) % TWO64 == (b + n) % TWO64
  {
    ModShift(a / TWO64, a % TWO64 + n);
    ModShift(b / TWO64, b % TWO64 + n);
  }

  lemma ModShift(q: nat, r: nat)
    ensures (q * TWO64 + r) % TWO64 == r % TWO64
  {
  }

  lemma SmallIsItself(a: uint64)
    ensures a % TWO64 == a
  {
  }

  lemma {:induction false} CountExact(c: Counters, kvs: seq<KeyValue>, n: nat)
    requires n <= |kvs|
    ensures Count(c, kvs, n).Keys == c.Keys
    ensures forall k :: k in c ==> Count(c, kvs, n)[k] == (c[k] + ReportedFor(kvs, n, k)) % TWO64
  {
    hide Target, ToU64;
    if n == 0 {
      forall k | k in c ensures c[k] % TWO64 == c[k] { SmallIsItself(c[k]); }
    } else {
      CountExact(c, kvs, n - 1);
      var d := Count(c, kvs, n - 1);
      forall k | k in c ensures Count(c, kvs, n)[k] == (c[k] + ReportedFor(kvs, n, k)) % TWO64 {
        AddMod(c[k] + ReportedFor(kvs, n - 1, k), 0, Reported(kvs, n - 1));
      }
    }
  }

  /** Over any run of messages each counter grows, modulo 2^64, by exactly what the entries report whose nearest
      preceding prefix and parent name in the same message are its own; no counter appears or disappears. */
  lemma {:induction false} EveryCounterExact(c: Counters, messages: seq<OpenConfigData>)
    ensures CountAll(c, messages).Keys == c.Keys
    ensures forall k :: k in c ==> CountAll(c, messages)[k] == (c[k] + ReportedForAll(messages, k)) % TWO64
    decreases |messages|
  {
    hide Count, ReportedFor;
    if messages == [] {
      forall k | k in c ensures c[k] % TWO64 == c[k] { SmallIsItself(c[k]); }
    } else {
      var init, last := messages[..|messages| - 1], messages[|messages| - 1].kv;
      EveryCounterExact(c, init);
      CountExact(CountAll(c, init), last, |last|);
      forall k | k in c
        ensures CountAll(c, messages)[k] == (c[k] + ReportedForAll(messages, k)) % TWO64
      {
        AddMod(c[k] + ReportedForAll(init, k), 0, ReportedFor(last, |last|, k));
      }
    }
  }

  // ---- Conservation -------------------------------------------------------------------------------------------

  ghost function Sum(c: Counters): nat
    decreases |c|
  {
    if c == map[] then 0 else var k :| k in c; c[k] + Sum(c - {k})
  }

  /** The sum does not depend on the order of summation. */
  lemma {:induction false} SumRemove(c: Counters, k: Key)
    requires k in c
    ensures Sum(c) == c[k] + Sum(c - {k})
    decreases |c|
  {
    var j :| j in c && Sum(c) == c[j] + Sum(c - {j});
    if j != k {
      SumRemove(c - {j}, k);
      SumRemove(c - {k}, j);
      assert c - {j} - {k} == c - {k} - {j};
    }
  }

  lemma SumUpdate(c: Counters, k: Key, v: uint64)
    requires k in c
    ensures Sum(c[k := v]) + c[k] == Sum(c) + v
  {
    SumRemove(c, k);
    SumRemove(c[k := v], k);
    assert c[k := v] - {k} == c - {k};
  }

  lemma BumpConserves(c: Counters, k: Key, n: uint64)
    requires k in c
    ensures Sum(Bump(c, k, n)) % TWO64 == (Sum(c) + n) % TWO64
  {
    var v := (c[k] + n) % TWO64;
    SumUpdate(c, k, v);
    if c[k] + n >= TWO64 {
      assert v == c[k] + n - TWO64;
      ModShift(1, Sum(c[k := v]));
    } else {
      assert v == c[k] + n;
    }
  }

  lemma {:induction false} CountConserves(c: Counters, kvs: seq<KeyValue>, n: nat)
    requires n <= |kvs|
    ensures Sum(Count(c, kvs, n)) % TWO64 == (Sum(c) + ReportedAmong(kvs, n, c.Keys)) % TWO64
  {
    hide Target, ToU64, Sum, Bump;
    if n > 0 {
      CountConserves(c, kvs, n - 1);
      CountExact(c, kvs, n - 1);
      var d, k := Count(c, kvs, n - 1), Target(kvs, n - 1);
      if kvs[n - 1].key == PACKETS_KEY {
        var u := ToU64(IntOf(kvs[n - 1]));
        if k in c { BumpConserves(d, k, u); } else { BumpNothing(d, k, u); }
        AddMod(Sum(d), Sum(c) + ReportedAmong(kvs, n - 1, c.Keys), Reported(kvs, n - 1));
      }
    }
  }

  lemma BumpNothing(c: Counters, k: Key, n: uint64)
    ensures k !in c ==> Bump(c, k, n) == c
  {
  }

  /** Conservation over any run of messages: the sum of all counters grows, modulo 2^64, by exactly what was
      reported for one of them. */
  lemma {:induction false} Conservation(c: Counters, messages: seq<OpenConfigData>)
    ensures Sum(CountAll(c, messages)) % TWO64 == (Sum(c) + ReportedAmongAll(messages, c.Keys)) % TWO64
    decreases |messages|
  {
    hide Count, ReportedAmong, ReportedFor, Sum;
    if messages != [] {
      var init, last := messages[..|messages| - 1], messages[|messages| - 1].kv;
      Conservation(c, init);
      EveryCounterExact(c, init);
      var d := CountAll(c, init);
      CountConserves(d, last, |last|);
      AddMod(Sum(d), Sum(c) + ReportedAmongAll(init, c.Keys), ReportedAmong(last, |last|, c.Keys));
    }
  }

  /** The counters of one group. */
  function OfGroup(c: Counters, lag: bytes): Counters
  {
    map k | k in c && k.0 == lag :: c[k]
  }

  /** A group's own counters, and so its printed total, change as if the other groups did not exist. */
  lemma {:induction false} GroupsAreIndependent(c: Counters, kvs: seq<KeyValue>, n: nat, lag: bytes)
    requires n <= |kvs|
    ensures OfGroup(Count(c, kvs, n), lag) == Count(OfGroup(c, lag), kvs, n)
  {
    hide Target, ToU64;
    if n > 0 {
      GroupsAreIndependent(c, kvs, n - 1, lag);
      BumpInGroup(Count(c, kvs, n - 1), Target(kvs, n - 1), ToU64(IntOf(kvs[n - 1])), lag);
    }
  }

  lemma BumpInGroup(c: Counters, k: Key, n: uint64, lag: bytes)
    ensures OfGroup(Bump(c, k, n), lag) == Bump(OfGroup(c, lag), k, n)
  {
  }

  // ---- Names --------------------------------------------------------------------------------------------------

  function LagName(i: nat): bytes { Ascii("ae" + Decimal.ToString(i)) }

  function MemberText(i: nat, j: nat): (s: string)
    ensures forall k :: 0 <= k < |s| ==> s[k] < 128 as char
  {
    "oc-path/interfaces/xe-" + Decimal.ToString(j) + "/0/" + Decimal.ToString(i) + "/"
  }

  function MemberName(i: nat, j: nat): bytes
  {
    Ascii(MemberText(i, j))
  }

  lemma LagNamesDistinct(i: nat, j: nat)
    ensures LagName(i) == LagName(j) <==> i == j
  {
    var s, t := "ae" + Decimal.ToString(i), "ae" + Decimal.ToString(j);
    AsciiInjective(s, t);
    if s == t {
      assert s[2..] == Decimal.ToString(i) && t[2..] == Decimal.ToString(j);
      Decimal.ToStringInjective(i, j);
    }
  }

  /** A text without slashes is delimited by the slash behind it. */
  lemma UpToSlash(a: string, x: string, b: string, y: string)
    requires '/' !in a && '/' !in b && a + "/" + x == b + "/" + y
    ensures a == b && x == y
  {
    FirstSlash(a, x);
    FirstSlash(b, y);
    var s := a + "/" + x;
    assert |a| == |b|;
    assert s[..|a|] == a && (b + "/" + y)[..|b|] == b;
    assert s[|a| + 1..] == x && (b + "/" + y)[|b| + 1..] == y;
  }

  lemma FirstSlash(a: string, x: string)
    requires '/' !in a
    ensures (a + "/" + x)[|a|] == '/' && forall i :: 0 <= i < |a| ==> (a + "/" + x)[i] != '/'
  {
    forall i | 0 <= i < |a| ensures (a + "/" + x)[i] != '/' { assert a[i] in a; }
  }

  lemma DigitsHaveNoSlash(n: nat)
    ensures '/' !in Decimal.ToString(n)
  {
    hide Decimal.ToString;
    var s := Decimal.ToString(n);
    forall i | 0 <= i < |s| ensures s[i] != '/' { assert Decimal.IsDigit(s[i]); }
  }

  /** All members of all groups that build makes have different names. */
  lemma MemberNamesDistinct(i: nat, j: nat, k: nat, l: nat)
    ensures MemberName(i, j) == MemberName(k, l) <==> i == k && j == l
  {
    hide MemberText;
    AsciiInjective(MemberText(i, j), MemberText(k, l));
    if MemberText(i, j) == MemberText(k, l) { MemberTextsDistinct(i, j, k, l); }
  }

  lemma MemberTextsDistinct(i: nat, j: nat, k: nat, l: nat)
    requires MemberText(i, j) == MemberText(k, l)
    ensures i == k && j == l
  {
    hide Decimal.ToString;
    var front := "oc-path/interfaces/xe-";
    var a, b := Decimal.ToString(j), Decimal.ToString(l);
    var c, d := Decimal.ToString(i), Decimal.ToString(k);
    DigitsHaveNoSlash(j);
    DigitsHaveNoSlash(l);
    DigitsHaveNoSlash(i);
    DigitsHaveNoSlash(k);
    MemberTextParts(i, j);
    MemberTextParts(k, l);
    UpToSlash(a, "0/" + (c + "/" + ""), b, "0/" + (d + "/" + ""));
    assert ("0/" + (c + "/" + ""))[2..] == c + "/" + "" && ("0/" + (d + "/" + ""))[2..] == d + "/" + "";
    UpToSlash(c, "", d, "");
    Decimal.ToStringInjective(j, l);
    Decimal.ToStringInjective(i, k);
  }

  lemma MemberTextParts(i: nat, j: nat)
    ensures MemberText(i, j)[|"oc-path/interfaces/xe-"|..]
         == Decimal.ToString(j) + "/" + ("0/" + (Decimal.ToString(i) + "/" + ""))
  {
    hide Decimal.ToString;
  }

  // ---- What build makes -----------------------------------------------------------------------------------------

  /** The counters of a freshly built group. */
  function BuiltGroup(i: nat, members: nat): Counters
  {
    map j | 0 <= j < members :: (LagName(i), MemberName(i, j)) := 0
  }

  function WithoutGroup(c: Counters, lag: bytes): Counters
  {
    map k | k in c && k.0 != lag :: c[k]
  }

  /** Groups 0 to n - 1, in place of groups of the same names. */
  function Built(c: Counters, n: nat, members: nat): Counters
  {
    if n == 0 then c else WithoutGroup(Built(c, n - 1, members), LagName(n - 1)) + BuiltGroup(n - 1, members)
  }

  /** The counters of a database that was empty before. */
  lemma {:induction false} BuiltKeys(n: nat, members: nat)
    ensures forall k :: k in Built(map[], n, members)
                   <==> exists i, j :: 0 <= i < n && 0 <= j < members && k == (LagName(i), MemberName(i, j))
    ensures forall k :: k in Built(map[], n, members) ==> Built(map[], n, members)[k] == 0
  {
    hide LagName, MemberName;
    if n > 0 {
      BuiltKeys(n - 1, members);
      forall i | 0 <= i < n - 1 ensures LagName(i) != LagName(n - 1) { LagNamesDistinct(i, n - 1); }
      var c := Built(map[], n - 1, members);
      var d := Built(map[], n, members);
      assert forall k :: k in d <==> k in c || k in BuiltGroup(n - 1, members);
    }
  }

  /** No two of the lag_count * lc_count counters share their names. */
  lemma {:induction false} BuiltSize(n: nat, members: nat)
    ensures |Built(map[], n, members)| == n * members
  {
    hide Built;
    if n == 0 {
      NothingBuilt(members);
    } else {
      BuiltSize(n - 1, members);
      BuiltOneMore(n, members);
      assert n * members == (n - 1) * members + members;
    }
  }

  lemma BuiltOneMore(n: nat, members: nat)
    requires n > 0
    ensures |Built(map[], n, members)| == |Built(map[], n - 1, members)| + members
  {
    hide Built, BuiltGroup;
    BuiltNext(n, members);
    GroupSize(n - 1, members);
    UnionSize(Built(map[], n - 1, members), BuiltGroup(n - 1, members));
  }

  lemma NothingBuilt(members: nat)
    ensures Built(map[], 0, members) == map[]
  {
  }

  lemma BuiltNext(n: nat, members: nat)
    requires n > 0
    ensures Built(map[], n, members) == Built(map[], n - 1, members) + BuiltGroup(n - 1, members)
    ensures Built(map[], n - 1, members).Keys !! BuiltGroup(n - 1, members).Keys
  {
    hide BuiltGroup, WithoutGroup;
    BuiltApart(n, members);
  }

  lemma BuiltApart(n: nat, members: nat)
    requires n > 0
    ensures var c, g := Built(map[], n - 1, members), BuiltGroup(n - 1, members);
            WithoutGroup(c, LagName(n - 1)) == c && c.Keys !! g.Keys
  {
    hide LagName, MemberName, Built;
    BuiltKeys(n - 1, members);
    forall i | 0 <= i < n - 1 ensures LagName(i) != LagName(n - 1) { LagNamesDistinct(i, n - 1); }
  }

  lemma UnionSize(c: Counters, d: Counters)
    requires c.Keys !! d.Keys
    ensures |c + d| == |c| + |d|
  {
    assert (c + d).Keys == c.Keys + d.Keys;
    assert |c.Keys| == |c| && |d.Keys| == |d| && |(c + d).Keys| == |c + d|;
  }

  lemma {:induction false} GroupSize(i: nat, members: nat)
    ensures |BuiltGroup(i, members)| == members
  {
    hide LagName, MemberName;
    if members > 0 {
      GroupSize(i, members - 1);
      var k := (LagName(i), MemberName(i, members - 1));
      forall j | 0 <= j < members - 1 ensures MemberName(i, j) != MemberName(i, members - 1) {
        MemberNamesDistinct(i, j, i, members - 1);
      }
      var c, d := BuiltGroup(i, members - 1), BuiltGroup(i, members);
      assert k !in c.Keys && d.Keys == c.Keys + {k};
    } else {
      assert BuiltGroup(i, 0) == map[];
    }
  }

  lemma BuiltGroupNothing(i: nat)
    ensures BuiltGroup(i, 0) == map[]
  {
  }

  lemma BuiltGroupNext(i: nat, j: nat)
    ensures BuiltGroup(i, j + 1) == BuiltGroup(i, j)[(LagName(i), MemberName(i, j)) := 0]
  {
    hide LagName, MemberName;
  }

  // ---- From build to the counts ------------------------------------------------------------------------------------

  /** Entry a is the last with its key before entry q. */
  ghost predicate LastOfKey(kvs: seq<KeyValue>, a: nat, q: nat)
    requires q < |kvs|
  {
    a < q && forall b :: a < b < q ==> kvs[b].key != kvs[a].key
  }

  lemma {:induction false} NearestIs(kvs: seq<KeyValue>, key: bytes, a: nat, q: nat)
    requires a < q <= |kvs| && kvs[a].key == key && forall b :: a < b < q ==> kvs[b].key != key
    ensures Nearest(kvs, key, q) == StrOf(kvs[a])
    decreases q
  {
    if a < q - 1 { NearestIs(kvs, key, a, q - 1); }
  }

  /** What one entry does: a packets entry adds its number to the member that the last prefix before it names, in the
      group that the last parent name before it names, if there is such a counter; any other entry counts nothing. */
  lemma EntryCounts(c: Counters, kvs: seq<KeyValue>, a: nat, b: nat, q: nat, lag: bytes, member: bytes, n: int64)
    requires q < |kvs| && LastOfKey(kvs, a, q) && LastOfKey(kvs, b, q)
    requires kvs[a] == KeyValue(Ascii("__prefix__"), StrValue(member))
    requires kvs[b] == KeyValue(Ascii("parent_ae_name"), StrValue(lag))
    requires kvs[q].value == IntValue(n) || (!kvs[q].value.IntValue? && n == 0)
    ensures var d, k := Count(c, kvs, q), (lag, member);
            Count(c, kvs, q + 1) == (if kvs[q].key == Ascii("output_packets") && k in d
                                     then d[k := (d[k] + if n < 0 then n + TWO64 else n) % TWO64]
                                     else d)
  {
    NearestIs(kvs, PREFIX_KEY, a, q);
    NearestIs(kvs, PARENT_KEY, b, q);
  }

  /** The three entries that report for one member; either of the two names may come first. */
  function EntriesFor(member: bytes, lag: bytes, n: int64, prefixFirst: bool): (kvs: seq<KeyValue>)
    ensures |kvs| == 3
  {
    var prefix := KeyValue(Ascii("__prefix__"), StrValue(member));
    var parent := KeyValue(Ascii("parent_ae_name"), StrValue(lag));
    var packets := KeyValue(Ascii("output_packets"), IntValue(n));
    if prefixFirst then [prefix, parent, packets] else [parent, prefix, packets]
  }

  lemma ThreeEntries(c: Counters, member: bytes, lag: bytes, n: int64, prefixFirst: bool)
    requires (lag, member) in c
    ensures var k := (lag, member);
            var kvs := EntriesFor(member, lag, n, prefixFirst);
            Count(c, kvs, 3) == c[k := (c[k] + if n < 0 then n + TWO64 else n) % TWO64]
  {
    hide Nearest, Bump;
    var kvs := EntriesFor(member, lag, n, prefixFirst);
    KeysDiffer();
    NoPackets(c, kvs, 2);
    EntryCounts(c, kvs, if prefixFirst then 0 else 1, if prefixFirst then 1 else 0, 2, lag, member, n);
  }

  lemma {:induction false} NoPackets(c: Counters, kvs: seq<KeyValue>, n: nat)
    requires n <= |kvs| && forall i :: 0 <= i < n ==> kvs[i].key != PACKETS_KEY
    ensures Count(c, kvs, n) == c
  {
    if n > 0 { NoPackets(c, kvs, n - 1); }
  }

  /** A message for one member of a built database, at any later time: exactly that member's counter grows, by exactly
      the number in the message. */
  lemma MemberGrows(c: Counters, groups: nat, members: nat, i: nat, j: nat, n: int64, prefixFirst: bool)
    requires c.Keys == Built(map[], groups, members).Keys && i < groups && j < members
    ensures var k := (LagName(i), MemberName(i, j));
            k in c &&
            Count(c, EntriesFor(k.1, k.0, n, prefixFirst), 3) == c[k := (c[k] + if n < 0 then n + TWO64 else n) % TWO64]
    ensures LagName(i) == Ascii("ae" + Decimal.ToString(i))
    ensures MemberText(i, j) == "oc-path/interfaces/xe-" + Decimal.ToString(j) + "/0/" + Decimal.ToString(i) + "/"
  {
    NamesAre(i, j);
    hide *;
    BuiltKeys(groups, members);
    ThreeEntries(c, MemberName(i, j), LagName(i), n, prefixFirst);
  }

  lemma NamesAre(i: nat, j: nat)
    ensures LagName(i) == Ascii("ae" + Decimal.ToString(i))
    ensures MemberText(i, j) == "oc-path/interfaces/xe-" + Decimal.ToString(j) + "/0/" + Decimal.ToString(i) + "/"
    ensures MemberName(i, j) == Ascii(MemberText(i, j))
  {
  }

  // ---- The objects --------------------------------------------------------------------------------------------

  class AgentMemberInterface {
    const name: bytes
    var packets: uint64

    constructor (name: bytes)
      ensures this.name == name && packets == 0
    {
      this.name := name;
      packets := 0;
    }

    method IncPackets(n: uint64)
      modifies this
      ensures packets == (old(packets) + n) % TWO64
    {
      packets := (packets + n) % TWO64;
    }
  }

  class AgentLag {
    const name: bytes
    var interfaces: map<bytes, AgentMemberInterface>

    constructor (name: bytes)
      ensures this.name == name && interfaces == map[] && View() == map[]
    {
      this.name := name;
      interfaces := map[];
    }

    method AddMember(child: AgentMemberInterface)
      modifies this
      ensures interfaces == old(interfaces)[child.name := child]
      ensures View() == old(View())[(name, child.name) := child.packets]
    {
      interfaces := interfaces[child.name := child];
    }

    /** The counters of this group. */
    ghost function View(): Counters
      reads this, interfaces.Values
    {
      ViewOf(name, interfaces)
    }

    /** The total that printMembers prints; the map may be walked in any order. */
    method Total() returns (count: uint64)
      ensures count == Sum(View()) % TWO64
    {
      hide Sum;
      count := 0;
      var rest := interfaces;
      while rest.Keys != {}
        invariant rest.Values <= interfaces.Values
        invariant (count + Sum(ViewOf(name, rest))) % TWO64 == Sum(View()) % TWO64
        decreases rest.Keys
      {
        var m :| m in rest.Keys;
        ghost var c, k := ViewOf(name, rest), (name, m);
        SumRemove(c, k);
        AddMod(count + c[k], count + c[k], Sum(c - {k}));
        count := (count + rest[m].packets) % TWO64;
        rest := rest - {m};
        assert ViewOf(name, rest) == c - {k};
      }
      assert ViewOf(name, rest) == map[];
      SumNothing();
    }

    function FindMember(name: bytes): AgentMemberInterface?
      reads this
    {
      if name in interfaces then interfaces[name] else null
    }
  }

  ghost function ViewOf(name: bytes, interfaces: map<bytes, AgentMemberInterface>): Counters
    reads interfaces.Values
  {
    map m | m in interfaces :: (name, m) := interfaces[m].packets
  }

  lemma SumNothing()
    ensures Sum(map[]) == 0
  {
  }

  // ---- The database ----------------------------------------------------------------------------------------------

  /** Which member object stands where. */
  type Shape = map<bytes, map<bytes, AgentMemberInterface>>

  ghost function KeysOf(s: Shape): set<Key> { set l, m | l in s && m in s[l] :: (l, m) }

  ghost function MembersOf(s: Shape): set<AgentMemberInterface> { set l, m | l in s && m in s[l] :: s[l][m] }

  /** No object stands in two places. */
  ghost predicate DistinctIn(s: Shape)
  {
    forall j, k :: j in KeysOf(s) && k in KeysOf(s) && s[j.0][j.1] == s[k.0][k.1] ==> j == k
  }

  ghost function CountersOf(s: Shape): Counters
    reads MembersOf(s)
  {
    map k | k in KeysOf(s) :: s[k.0][k.1].packets
  }

  ghost predicate DistinctMembers(interfaces: map<bytes, AgentMemberInterface>)
  {
    forall m, n :: m in interfaces && n in interfaces && interfaces[m] == interfaces[n] ==> m == n
  }

  ghost predicate ApartFrom(s: Shape, interfaces: map<bytes, AgentMemberInterface>)
  {
    forall k, m :: k in KeysOf(s) && m in interfaces ==> s[k.0][k.1] != interfaces[m]
  }

  lemma KeysAfterAdd(s: Shape, name: bytes, interfaces: map<bytes, AgentMemberInterface>)
    ensures forall k :: k in KeysOf(s[name := interfaces]) <==>
                        if k.0 == name then k.1 in interfaces else k in KeysOf(s)
  {
  }

  lemma DistinctAfterAdd(s: Shape, name: bytes, interfaces: map<bytes, AgentMemberInterface>)
    requires DistinctIn(s) && DistinctMembers(interfaces)
    requires ApartFrom(s, interfaces)
    ensures DistinctIn(s[name := interfaces])
  {
    hide KeysOf;
    var t := s[name := interfaces];
    KeysAfterAdd(s, name, interfaces);
    KnownKeys(s);
    KnownKeys(t);
    forall j, k | j in KeysOf(t) && k in KeysOf(t) && t[j.0][j.1] == t[k.0][k.1] ensures j == k {
      if j.0 != name && k.0 != name { assert j in KeysOf(s) && k in KeysOf(s); }
    }
  }

  lemma KnownKeys(s: Shape)
    ensures forall k :: k in KeysOf(s) <==> k.0 in s && k.1 in s[k.0]
    ensures forall k :: k in KeysOf(s) ==> s[k.0][k.1] in MembersOf(s)
  {
  }

  lemma CountersAfterAdd(s: Shape, name: bytes, interfaces: map<bytes, AgentMemberInterface>)
    ensures CountersOf(s[name := interfaces]) == WithoutGroup(CountersOf(s), name) + ViewOf(name, interfaces)
  {
    hide KeysOf, MembersOf, CountersOf, WithoutGroup, ViewOf;
    KeysAfterAdd(s, name, interfaces);
    KnownKeys(s);
    CountersAre(s);
    CountersAre(s[name := interfaces]);
    GroupsAre(CountersOf(s), name, interfaces);
    var c, d := CountersOf(s[name := interfaces]), WithoutGroup(CountersOf(s), name) + ViewOf(name, interfaces);
    assert forall k :: k in c <==> k in d;
  }

  lemma CountersAre(s: Shape)
    ensures forall k :: k in CountersOf(s) <==> k in KeysOf(s)
    ensures forall k :: k in KeysOf(s) ==> k.0 in s && k.1 in s[k.0] && CountersOf(s)[k] == s[k.0][k.1].packets
  {
  }

  lemma GroupsAre(c: Counters, name: bytes, interfaces: map<bytes, AgentMemberInterface>)
    ensures forall k :: k in WithoutGroup(c, name) <==> k in c && k.0 != name
    ensures forall k :: k in WithoutGroup(c, name) ==> WithoutGroup(c, name)[k] == c[k]
    ensures forall k :: k in ViewOf(name, interfaces) <==> k.0 == name && k.1 in interfaces
    ensures forall k :: k in ViewOf(name, interfaces) ==> ViewOf(name, interfaces)[k] == interfaces[k.1].packets
  {
  }

  /** The global lag_db. The layout says which member object stands where; it follows the real maps. */
  class LagDb {
    var lags: map<bytes, AgentLag>
    ghost var layout: Shape

    ghost function Groups(): set<AgentLag>
      reads this
    {
      set l | l in lags :: lags[l]
    }

    ghost predicate Valid()
      reads this, Groups()
    {
      (forall l :: l in lags <==> l in layout) &&
      (forall l :: l in lags ==> lags[l].interfaces == layout[l]) &&
      DistinctIn(layout)
    }

    ghost function View(): Counters
      reads this, MembersOf(layout)
    {
      CountersOf(layout)
    }

    constructor ()
      ensures Valid() && View() == map[]
    {
      lags, layout := map[], map[];
    }

    method Reset()
      modifies this
      ensures Valid() && View() == map[]
    {
      lags, layout := map[], map[];
    }

    /** The group takes over its name, and must not share members with the database. */
    method AddLag(lag: AgentLag)
      requires Valid() && DistinctMembers(lag.interfaces) && ApartFrom(layout, lag.interfaces)
      modifies this
      ensures Valid() && lags == old(lags)[lag.name := lag]
      ensures View() == WithoutGroup(old(View()), lag.name) + lag.View()
    {
      hide KeysOf, MembersOf, DistinctIn, CountersOf, DistinctMembers, WithoutGroup, ViewOf, ApartFrom;
      DistinctAfterAdd(layout, lag.name, lag.interfaces);
      CountersAfterAdd(layout, lag.name, lag.interfaces);
      Put(lag);
    }

    method Put(lag: AgentLag)
      modifies this
      ensures lags == old(lags)[lag.name := lag] && layout == old(layout)[lag.name := lag.interfaces]
      ensures CountersOf(layout) == old(CountersOf(layout[lag.name := lag.interfaces])) && lag.View() == old(lag.View())
    {
      lags := lags[lag.name := lag];
      layout := layout[lag.name := lag.interfaces];
    }

    /** The database gets groups 0 to lagCount - 1, each with members 0 to lcCount - 1, all counters zero. */
    method Build(lagCount: uint32, lcCount: uint32)
      requires Valid()
      modifies this
      ensures Valid() && View() == Built(old(View()), lagCount, lcCount)
    {
      hide BuiltGroup, WithoutGroup, LagName, CountersOf, Valid;
      ghost var before := View();
      for i := 0 to lagCount
        invariant Valid() && View() == Built(before, i, lcCount)
      {
        BuildOne(i, lcCount);
      }
    }

    method BuildOne(i: nat, lcCount: nat)
      requires Valid()
      modifies this
      ensures Valid() && View() == WithoutGroup(old(View()), LagName(i)) + BuiltGroup(i, lcCount)
    {
      hide BuiltGroup, WithoutGroup, LagName, DistinctIn, DistinctMembers, ViewOf;
      ghost var c := View();
      var lag := BuildLag(i, lcCount);
      assert View() == c;
      AddLag(lag);
    }

    static method BuildLag(i: nat, lcCount: nat) returns (lag: AgentLag)
      ensures fresh(lag) && lag.name == LagName(i) && lag.View() == BuiltGroup(i, lcCount)
      ensures DistinctMembers(lag.interfaces) && forall m :: m in lag.interfaces ==> fresh(lag.interfaces[m])
    {
      hide BuiltGroup, LagName, MemberName, ViewOf;
      lag := new AgentLag(LagName(i));
      BuiltGroupNothing(i);
      for j := 0 to lcCount
        invariant fresh(lag) && lag.name == LagName(i) && lag.View() == BuiltGroup(i, j)
        invariant DistinctMembers(lag.interfaces) && forall m :: m in lag.interfaces ==> fresh(lag.interfaces[m])
      {
        var member := new AgentMemberInterface(MemberName(i, j));
        lag.AddMember(member);
        BuiltGroupNext(i, j);
      }
    }

    function FindLag(name: bytes): AgentLag?
      reads this
    {
      if name in lags then lags[name] else null
    }

    /** A telemetry message is counted as the function says. */
    method UpdateStats(data: OpenConfigData)
      requires Valid()
      modifies MembersOf(layout)
      ensures Valid() && View() == Count(old(View()), data.kv, |data.kv|)
    {
      hide Nearest, ToU64, Bump, CountersOf, Valid, MembersOf;
      var kvs := data.kv;
      var memberName, lagName: bytes := [], [];
      ghost var start := View();
      NothingNearest(kvs);
      for i := 0 to |kvs|
        invariant memberName == Nearest(kvs, PREFIX_KEY, i) && lagName == Nearest(kvs, PARENT_KEY, i)
        invariant Valid() && View() == Count(start, kvs, i)
      {
        var kv := kvs[i];
        KeysDiffer();
        NearestNext(kvs, i, PREFIX_KEY);
        NearestNext(kvs, i, PARENT_KEY);
        if kv.key == PREFIX_KEY { memberName := StrOf(kv); }
        if kv.key == PARENT_KEY { lagName := StrOf(kv); }
        if kv.key == PACKETS_KEY {
          var packets := ToU64(IntOf(kv));
          AddTo(lagName, memberName, packets);
        }
      }
    }

    /** Find the group, find the member, count; if either is missing nothing happens. */
    method AddTo(lagName: bytes, memberName: bytes, packets: uint64)
      requires Valid()
      modifies MembersOf(layout)
      ensures Valid() && View() == Bump(old(View()), (lagName, memberName), packets)
    {
      hide Bump, KeysOf, MembersOf, DistinctIn, CountersOf;
      KnownKeys(layout);
      CountersAre(layout);
      BumpNothing(View(), (lagName, memberName), packets);
      var lag := FindLag(lagName);
      if lag == null { return; }
      var member := lag.FindMember(memberName);
      if member == null { return; }
      Inc((lagName, memberName), member, packets);
    }

    method Inc(ghost k: Key, member: AgentMemberInterface, packets: uint64)
      requires Valid() && k in KeysOf(layout) && layout[k.0][k.1] == member
      modifies MembersOf(layout)
      ensures Valid() && View() == Bump(old(View()), k, packets)
    {
      hide Bump, KeysOf, MembersOf;
      KnownKeys(layout);
      ghost var before := View();
      member.IncPackets(packets);
      BumpIs(before, k, packets, View());
    }
  }

  lemma BumpIs(c: Counters, k: Key, n: uint64, d: Counters)
    requires k in c && d.Keys == c.Keys && d[k] == (c[k] + n) % TWO64
    requires forall j :: j in c && j != k ==> d[j] == c[j]
    ensures d == Bump(c, k, n)
  {
  }

  lemma KeysDiffer()
    ensures PREFIX_KEY != PARENT_KEY && PARENT_KEY != PACKETS_KEY && PREFIX_KEY != PACKETS_KEY
  {
    assert "__prefix__"[0] != "parent_ae_name"[0] && "parent_ae_name"[0] != "output_packets"[0];
    assert "__prefix__"[0] != "output_packets"[0];
    AsciiInjective("__prefix__", "parent_ae_name");
    AsciiInjective("parent_ae_name", "output_packets");
    AsciiInjective("__prefix__", "output_packets");
  }

  lemma NothingNearest(kvs: seq<KeyValue>)
    ensures Nearest(kvs, PREFIX_KEY, 0) == [] && Nearest(kvs, PARENT_KEY, 0) == []
  {
  }

  lemma NearestNext(kvs: seq<KeyValue>, i: nat, key: bytes)
    requires i < |kvs|
    ensures Nearest(kvs, key, i + 1) == if kvs[i].key == key then StrOf(kvs[i]) else Nearest(kvs, key, i)
  {
  }
}
