/** Merging firewall statistics, and that it is what parsing more bytes does. A policer holds a singular
    sub-message, so here merging is recursive. */
module FirewallMerge {
  import opened Wire
  import opened Records
  import opened PlainLoop
  import opened Proto2
  import opened Proto3
  import opened FirewallData

  function MergeExtended(x: ExtendedPolicerStats, y: ExtendedPolicerStats): ExtendedPolicerStats
  {
    ExtendedPolicerStats(Or(x.offeredPackets, y.offeredPackets), Or(x.offeredBytes, y.offeredBytes),
                         Or(x.sentPackets, y.sentPackets), Or(x.sentBytes, y.sentBytes), x.unknown + y.unknown)
  }

  /** The sub-message of a policer: what is missing counts as empty on the left, as nothing on the right. */
  function MergeSub(x: Option<ExtendedPolicerStats>, y: Option<ExtendedPolicerStats>): Option<ExtendedPolicerStats>
  {
    if y.None? then x else Some(MergeExtended(if x.Some? then x.value else EMPTY_EXTENDED, y.value))
  }

  function MergePolicer(x: PolicerStats, y: PolicerStats): PolicerStats
  {
    PolicerStats(Or(x.name, y.name), Or(x.packets, y.packets), Or(x.octets, y.octets), MergeSub(x.extended, y.extended),
                 x.unknown + y.unknown)
  }

  function MergeFirewall(x: FirewallStats, y: FirewallStats): FirewallStats
  {
    FirewallStats(Or(x.filterName, y.filterName), Or(x.timestamp, y.timestamp), x.memoryUsage + y.memoryUsage,
                  x.counterStats + y.counterStats, x.policerStats + y.policerStats, x.hierarchical + y.hierarchical,
                  x.unknown + y.unknown)
  }

  lemma ExtendedCommutes()
    ensures Commutes(HandleExtended, HandleExtended, MergeExtended)
  {
    hide HandleExtended, MergeExtended;
    forall x: ExtendedPolicerStats, y: ExtendedPolicerStats, r: Record, depth: nat
      ensures HandleExtended(MergeExtended(x, y), r, depth)
           == MergedInto(MergeExtended, x, HandleExtended(y, r, depth))
    {
      ExtendedMerges(x, y, r, depth);
    }
  }

  lemma ExtendedMerges(x: ExtendedPolicerStats, y: ExtendedPolicerStats, r: Record, depth: nat)
    ensures HandleExtended(MergeExtended(x, y), r, depth) == MergedInto(MergeExtended, x, HandleExtended(y, r, depth))
  {
    if r.VarintField? && 1 <= r.num <= 4 {
      match r.num
      case 1 =>
      case 2 =>
      case 3 =>
      case _ =>
    } else {
      ConcatAssoc(x.unknown, y.unknown, [r]);
    }
  }

  lemma ExtendedNothing(x: ExtendedPolicerStats)
    ensures MergeExtended(x, EMPTY_EXTENDED) == x && MergeExtended(EMPTY_EXTENDED, x) == x
  {
  }

  /** The sub-message that a record is read into. */
  function Sub(o: Option<ExtendedPolicerStats>): ExtendedPolicerStats { if o.Some? then o.value else EMPTY_EXTENDED }

  lemma SubCommutes(x: PolicerStats, y: PolicerStats, s: bytes, depth: nat)
    ensures Nested(HandleExtended, Sub(MergePolicer(x, y).extended), s, depth)
         == MergedInto(MergeExtended, Sub(x.extended), Nested(HandleExtended, Sub(y.extended), s, depth))
  {
    hide HandleExtended, MergeExtended, Whole, Commutes;
    ExtendedCommutes();
    ExtendedNothing(Sub(x.extended));
    if depth > 0 {
      WholeMerges(HandleExtended, HandleExtended, MergeExtended, Sub(x.extended), Sub(y.extended), s, depth - 1);
    }
  }

  lemma PolicerCommutes()
    ensures Commutes(HandlePolicer, HandlePolicer, MergePolicer)
  {
    forall x: PolicerStats, y: PolicerStats, r: Record, depth: nat
      ensures HandlePolicer(MergePolicer(x, y), r, depth) == MergedInto(MergePolicer, x, HandlePolicer(y, r, depth))
    {
      if r.BytesField? && r.num == 4 { PolicerSub(x, y, r.s, depth); } else { PolicerScalar(x, y, r, depth); }
    }
  }

  lemma PolicerSub(x: PolicerStats, y: PolicerStats, s: bytes, depth: nat)
    ensures HandlePolicer(MergePolicer(x, y), BytesField(4, s), depth)
         == MergedInto(MergePolicer, x, HandlePolicer(y, BytesField(4, s), depth))
  {
    hide Nested, MergeExtended;
    SubCommutes(x, y, s, depth);
  }

  lemma PolicerScalar(x: PolicerStats, y: PolicerStats, r: Record, depth: nat)
    requires !(r.BytesField? && r.num == 4)
    ensures HandlePolicer(MergePolicer(x, y), r, depth) == MergedInto(MergePolicer, x, HandlePolicer(y, r, depth))
  {
    hide Nested, MergeExtended;
    assert x.unknown + y.unknown + [r] == x.unknown + (y.unknown + [r]);
  }

  /** For all byte strings, sub-messages merging recursively: parsing two complete policers in a row is merging
      the second into the first. */
  lemma PolicerConcatIsMerge(a: bytes, b: bytes, depth: nat)
    requires Whole(HandlePolicer, EMPTY_POLICER, a, depth).Some? && Whole(HandlePolicer, EMPTY_POLICER, b, depth).Some?
    ensures Whole(HandlePolicer, EMPTY_POLICER, a + b, depth)
         == Some(MergePolicer(Whole(HandlePolicer, EMPTY_POLICER, a, depth).value,
                              Whole(HandlePolicer, EMPTY_POLICER, b, depth).value))
  {
    hide HandlePolicer, Whole, Commutes;
    PolicerCommutes();
    var x := Whole(HandlePolicer, EMPTY_POLICER, a, depth).value;
    assert MergePolicer(x, EMPTY_POLICER) == x;
    ConcatIsMerge(HandlePolicer, MergePolicer, EMPTY_POLICER, a, b, depth);
  }

  lemma FirewallCommutes()
    ensures Commutes(HandleFirewall, HandleFirewall, MergeFirewall)
  {
    hide HandleFirewall, MergeFirewall;
    forall x: FirewallStats, y: FirewallStats, r: Record, depth: nat
      ensures HandleFirewall(MergeFirewall(x, y), r, depth) == MergedInto(MergeFirewall, x, HandleFirewall(y, r, depth))
    {
      FirewallRecord(x, y, r, depth);
    }
  }

  lemma FirewallRecord(x: FirewallStats, y: FirewallStats, r: Record, depth: nat)
    ensures HandleFirewall(MergeFirewall(x, y), r, depth) == MergedInto(MergeFirewall, x, HandleFirewall(y, r, depth))
  {
    if r.BytesField? && 3 <= r.num <= 6 { FirewallSub(x, y, r, depth); } else { FirewallScalar(x, y, r, depth); }
  }

  lemma FirewallSub(x: FirewallStats, y: FirewallStats, r: Record, depth: nat)
    requires r.BytesField? && 3 <= r.num <= 6
    ensures HandleFirewall(MergeFirewall(x, y), r, depth) == MergedInto(MergeFirewall, x, HandleFirewall(y, r, depth))
  {
    hide Nested;
    match HandleFirewall(y, r, depth)
    case None =>
    case Some(z) =>
      var w := HandleFirewall(MergeFirewall(x, y), r, depth).value;
      assert w.memoryUsage == x.memoryUsage + z.memoryUsage && w.counterStats == x.counterStats + z.counterStats;
      assert w.policerStats == x.policerStats + z.policerStats && w.hierarchical == x.hierarchical + z.hierarchical;
  }

  lemma FirewallScalar(x: FirewallStats, y: FirewallStats, r: Record, depth: nat)
    requires !(r.BytesField? && 3 <= r.num <= 6)
    ensures HandleFirewall(MergeFirewall(x, y), r, depth) == MergedInto(MergeFirewall, x, HandleFirewall(y, r, depth))
  {
    hide Nested;
    assert x.unknown + y.unknown + [r] == x.unknown + (y.unknown + [r]);
  }

  /** The same for whole statistics. */
  lemma FirewallConcatIsMerge(a: bytes, b: bytes, depth: nat)
    requires Whole(HandleFirewall, EMPTY_FIREWALL, a, depth).Some?
    requires Whole(HandleFirewall, EMPTY_FIREWALL, b, depth).Some?
    ensures Whole(HandleFirewall, EMPTY_FIREWALL, a + b, depth)
         == Some(MergeFirewall(Whole(HandleFirewall, EMPTY_FIREWALL, a, depth).value,
                               Whole(HandleFirewall, EMPTY_FIREWALL, b, depth).value))
  {
    hide HandleFirewall, Whole, Commutes;
    FirewallCommutes();
    var x := Whole(HandleFirewall, EMPTY_FIREWALL, a, depth).value;
    assert MergeFirewall(x, EMPTY_FIREWALL) == x;
    ConcatIsMerge(HandleFirewall, MergeFirewall, EMPTY_FIREWALL, a, b, depth);
  }
}
