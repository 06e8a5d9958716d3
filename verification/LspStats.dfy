/** LspStatsRecord: presence is kept in the bits of one word, beside the field values. Clear and ByteSize look at
    several bits at once; that they are right rests on the class invariant that a clear bit means a default
    value. */
module LspStats {
  import opened Wire
  import opened Records
  import opened PlainLoop
  import opened Proto2
  import opened Proto3
  import opened CodedStream
  import opened CodedOutput
  import opened PredictedLoop

  // ---- The message as a value ----------------------------------------------------------------------------

  datatype LspRecord = LspRecord(name: Option<bytes>, instanceIdentifier: Option<uint32>, counterName: Option<bytes>,
                                 packets: Option<uint64>, bytesSent: Option<uint64>, packetRate: Option<uint64>,
                                 byteRate: Option<uint64>, unknown: seq<Record>)

  const EMPTY_LSP := LspRecord(None, None, None, None, None, None, None, [])

  /** The text fields are proto2: a string that is no UTF-8 is logged, not refused. */
  function HandleLsp(m: LspRecord, r: Record, depth: nat): Option<LspRecord>
  {
    match r
    case BytesField(1, s) => Some(m.(name := Some(s)))
    case VarintField(2, v) => Some(m.(instanceIdentifier := Some(v % TWO32)))
    case BytesField(3, s) => Some(m.(counterName := Some(s)))
    case VarintField(4, v) => Some(m.(packets := Some(v)))
    case VarintField(5, v) => Some(m.(bytesSent := Some(v)))
    case VarintField(6, v) => Some(m.(packetRate := Some(v)))
    case VarintField(7, v) => Some(m.(byteRate := Some(v)))
    case _ => Some(m.(unknown := m.unknown + [r]))
  }

  function LspRecords(m: LspRecord): seq<Record>
  {
    Opt(BytesOf(1, m.name)) + (Opt(NumberOf(2, m.instanceIdentifier)) + (Opt(BytesOf(3, m.counterName)) +
    (Opt(Number64Of(4, m.packets)) + (Opt(Number64Of(5, m.bytesSent)) + (Opt(Number64Of(6, m.packetRate)) +
    (Opt(Number64Of(7, m.byteRate)) + m.unknown))))))
  }

  function SerializeLsp(m: LspRecord): bytes { EncodeAll(LspRecords(m)) }

  function MergeLsp(x: LspRecord, y: LspRecord): LspRecord
  {
    LspRecord(Or(x.name, y.name), Or(x.instanceIdentifier, y.instanceIdentifier), Or(x.counterName, y.counterName),
              Or(x.packets, y.packets), Or(x.bytesSent, y.bytesSent), Or(x.packetRate, y.packetRate),
              Or(x.byteRate, y.byteRate), x.unknown + y.unknown)
  }

  /** The size field by field, no bit looked at twice. */
  function FieldSizes(m: LspRecord): nat
  {
    OptSize(BytesOf(1, m.name)) + OptSize(NumberOf(2, m.instanceIdentifier)) + OptSize(BytesOf(3, m.counterName)) +
    OptSize(Number64Of(4, m.packets)) + OptSize(Number64Of(5, m.bytesSent)) + OptSize(Number64Of(6, m.packetRate)) +
    OptSize(Number64Of(7, m.byteRate)) + |EncodeAll(m.unknown)|
  }

  lemma LspSize(m: LspRecord)
    ensures |SerializeLsp(m)| == FieldSizes(m)
  {
    var g7 := Opt(Number64Of(7, m.byteRate)) + m.unknown;
    var g6 := Opt(Number64Of(6, m.packetRate)) + g7;
    var g5 := Opt(Number64Of(5, m.bytesSent)) + g6;
    var g4 := Opt(Number64Of(4, m.packets)) + g5;
    var g3 := Opt(BytesOf(3, m.counterName)) + g4;
    var g2 := Opt(NumberOf(2, m.instanceIdentifier)) + g3;
    hide EncodeAll, Opt, OptSize, BytesOf, NumberOf, Number64Of;
    OptFirst(BytesOf(1, m.name), g2);
    OptFirst(NumberOf(2, m.instanceIdentifier), g3);
    OptFirst(BytesOf(3, m.counterName), g4);
    OptFirst(Number64Of(4, m.packets), g5);
    OptFirst(Number64Of(5, m.bytesSent), g6);
    OptFirst(Number64Of(6, m.packetRate), g7);
    OptFirst(Number64Of(7, m.byteRate), m.unknown);
  }

  lemma OptFirst(o: Option<Record>, rest: seq<Record>)
    ensures EncodeAll(Opt(o) + rest) == EncodeAll(Opt(o)) + EncodeAll(rest)
    ensures |EncodeAll(Opt(o) + rest)| == OptSize(o) + |EncodeAll(rest)|
  {
    EncodeAppend(Opt(o), rest);
    OptSizeIs(o);
  }

  // ---- Parsing and merging ---------------------------------------------------------------------------------

  /** What a parser can have put into the unknown fields. */
  predicate LspUnknown(r: Record, depth: nat) { Fits(r, depth) && TagOf(r) !in [10, 16, 26, 32, 40, 48, 56] }

  predicate LspGenuine(m: LspRecord, depth: nat)
  {
    (m.name.Some? ==> |m.name.value| < TWO31) && (m.counterName.Some? ==> |m.counterName.value| < TWO31) &&
    forall i :: 0 <= i < |m.unknown| ==> LspUnknown(m.unknown[i], depth)
  }

  lemma {:induction false} LspUnknownFold(m: LspRecord, us: seq<Record>, depth: nat)
    requires forall i :: 0 <= i < |us| ==> LspUnknown(us[i], depth)
    ensures Fold(HandleLsp, m, us, depth) == Some(m.(unknown := m.unknown + us))
    decreases |us|
  {
    if us == [] {
      assert m.unknown + us == m.unknown;
    } else {
      var m' := m.(unknown := m.unknown + [us[0]]);
      assert LspUnknown(us[0], depth);
      Unrecognised(m, us[0], depth);
      hide HandleLsp, LspUnknown;
      LspUnknownFold(m', us[1..], depth);
      assert m'.unknown + us[1..] == m.unknown + us;
    }
  }

  lemma LspFold(m: LspRecord, y: LspRecord, depth: nat)
    requires LspGenuine(y, depth)
    ensures Fold(HandleLsp, m, LspRecords(y), depth) == Some(MergeLsp(m, y))
  {
    hide Fold;
    var h := HandleLsp;
    var t7 := Opt(Number64Of(7, y.byteRate)) + y.unknown;
    var t6 := Opt(Number64Of(6, y.packetRate)) + t7;
    var t5 := Opt(Number64Of(5, y.bytesSent)) + t6;
    var t4 := Opt(Number64Of(4, y.packets)) + t5;
    var t3 := Opt(BytesOf(3, y.counterName)) + t4;
    var t2 := Opt(NumberOf(2, y.instanceIdentifier)) + t3;
    var m1 := m.(name := Or(m.name, y.name));
    var m2 := m1.(instanceIdentifier := Or(m.instanceIdentifier, y.instanceIdentifier));
    var m3 := m2.(counterName := Or(m.counterName, y.counterName));
    var m4 := m3.(packets := Or(m.packets, y.packets));
    var m5 := m4.(bytesSent := Or(m.bytesSent, y.bytesSent));
    var m6 := m5.(packetRate := Or(m.packetRate, y.packetRate));
    var m7 := m6.(byteRate := Or(m.byteRate, y.byteRate));
    assert Fold(h, m, LspRecords(y), depth) == Fold(h, m1, t2, depth) by {
      OptStep(h, m, BytesOf(1, y.name), t2, depth);
    }
    assert Fold(h, m1, t2, depth) == Fold(h, m2, t3, depth) by {
      OptStep(h, m1, NumberOf(2, y.instanceIdentifier), t3, depth);
    }
    assert Fold(h, m2, t3, depth) == Fold(h, m3, t4, depth) by { OptStep(h, m2, BytesOf(3, y.counterName), t4, depth); }
    assert Fold(h, m3, t4, depth) == Fold(h, m4, t5, depth) by { OptStep(h, m3, Number64Of(4, y.packets), t5, depth); }
    assert Fold(h, m4, t5, depth) == Fold(h, m5, t6, depth) by {
      OptStep(h, m4, Number64Of(5, y.bytesSent), t6, depth);
    }
    assert Fold(h, m5, t6, depth) == Fold(h, m6, t7, depth) by {
      OptStep(h, m5, Number64Of(6, y.packetRate), t7, depth);
    }
    assert Fold(h, m6, t7, depth) == Fold(h, m7, y.unknown, depth) by {
      OptStep(h, m6, Number64Of(7, y.byteRate), y.unknown, depth);
    }
    hide HandleLsp;
    LspUnknownFold(m7, y.unknown, depth);
  }

  lemma LspFits(y: LspRecord, depth: nat)
    requires LspGenuine(y, depth)
    ensures AllFit(LspRecords(y), depth)
  {
    var g7 := Opt(Number64Of(7, y.byteRate)) + y.unknown;
    var g6 := Opt(Number64Of(6, y.packetRate)) + g7;
    var g5 := Opt(Number64Of(5, y.bytesSent)) + g6;
    var g4 := Opt(Number64Of(4, y.packets)) + g5;
    var g3 := Opt(BytesOf(3, y.counterName)) + g4;
    var g2 := Opt(NumberOf(2, y.instanceIdentifier)) + g3;
    UnknownFits(y.unknown, depth);
    hide AllFit, BytesOf, NumberOf, Number64Of, Fits, LspUnknown;
    NumberFits(7, y.byteRate, y.unknown, depth);
    NumberFits(6, y.packetRate, g7, depth);
    NumberFits(5, y.bytesSent, g6, depth);
    NumberFits(4, y.packets, g5, depth);
    TextFits(3, y.counterName, g4, depth);
    Number32Fits(2, y.instanceIdentifier, g3, depth);
    TextFits(1, y.name, g2, depth);
  }

  lemma UnknownFits(us: seq<Record>, depth: nat)
    requires forall i :: 0 <= i < |us| ==> LspUnknown(us[i], depth)
    ensures AllFit(us, depth)
  {
    hide Fits;
    forall i | 0 <= i < |us| ensures Fits(us[i], depth) { assert LspUnknown(us[i], depth); }
  }

  lemma NumberFits(num: nat, o: Option<uint64>, rest: seq<Record>, depth: nat)
    requires 0 < num < 16 && AllFit(rest, depth)
    ensures AllFit(Opt(Number64Of(num, o)) + rest, depth)
  {
    if o.Some? { assert Fits(VarintField(num, o.value), depth); }
    hide Fits;
  }

  lemma Number32Fits(num: nat, o: Option<uint32>, rest: seq<Record>, depth: nat)
    requires 0 < num < 16 && AllFit(rest, depth)
    ensures AllFit(Opt(NumberOf(num, o)) + rest, depth)
  {
    if o.Some? { assert Fits(VarintField(num, o.value), depth); }
    hide Fits;
  }

  lemma TextFits(num: nat, o: Option<bytes>, rest: seq<Record>, depth: nat)
    requires 0 < num < 16 && AllFit(rest, depth) && (o.Some? ==> |o.value| < TWO31)
    ensures AllFit(Opt(BytesOf(num, o)) + rest, depth)
  {
    if o.Some? { assert Fits(BytesField(num, o.value), depth); }
    hide Fits;
  }

  /** Parsing the bytes of a message into another one merges it, presence bits and unknown fields included. */
  lemma LspWhole(m: LspRecord, y: LspRecord, depth: nat)
    requires LspGenuine(y, depth)
    ensures Whole(HandleLsp, m, SerializeLsp(y), depth) == Some(MergeLsp(m, y))
  {
    hide HandleLsp, Fold, Whole, LspGenuine;
    LspFits(y, depth);
    WholeWritten(HandleLsp, m, LspRecords(y), depth);
    LspFold(m, y, depth);
  }

  lemma LspCommutes()
    ensures Commutes(HandleLsp, HandleLsp, MergeLsp)
  {
    hide HandleLsp, MergeLsp;
    forall x: LspRecord, y: LspRecord, r: Record, depth: nat
      ensures HandleLsp(MergeLsp(x, y), r, depth) == MergedInto(MergeLsp, x, HandleLsp(y, r, depth))
    {
      LspRecordMerges(x, y, r, depth);
    }
  }

  lemma LspRecordMerges(x: LspRecord, y: LspRecord, r: Record, depth: nat)
    ensures HandleLsp(MergeLsp(x, y), r, depth) == MergedInto(MergeLsp, x, HandleLsp(y, r, depth))
  {
    if TagOf(r) in [10, 16, 26, 32, 40, 48, 56] {
      LspFieldMerges(x, y, r, depth);
    } else {
      hide HandleLsp;
      Unrecognised(MergeLsp(x, y), r, depth);
      Unrecognised(y, r, depth);
      assert x.unknown + y.unknown + [r] == x.unknown + (y.unknown + [r]);
    }
  }

  lemma LspFieldMerges(x: LspRecord, y: LspRecord, r: Record, depth: nat)
    requires TagOf(r) in [10, 16, 26, 32, 40, 48, 56]
    ensures HandleLsp(MergeLsp(x, y), r, depth) == MergedInto(MergeLsp, x, HandleLsp(y, r, depth))
  {
    TagParts(r);
    match r
    case VarintField(num, v) => LspNumberMerges(x, y, num, v, depth);
    case BytesField(num, s) => LspTextMerges(x, y, num, s, depth);
    case _ =>
  }

  lemma LspNumberMerges(x: LspRecord, y: LspRecord, num: nat, v: uint64, depth: nat)
    requires num == 2 || 4 <= num <= 7
    ensures HandleLsp(MergeLsp(x, y), VarintField(num, v), depth)
         == MergedInto(MergeLsp, x, HandleLsp(y, VarintField(num, v), depth))
  {
    match num
    case 2 =>
    case 4 =>
    case 5 =>
    case 6 =>
    case _ =>
  }

  lemma LspTextMerges(x: LspRecord, y: LspRecord, num: nat, s: bytes, depth: nat)
    requires num == 1 || num == 3
    ensures HandleLsp(MergeLsp(x, y), BytesField(num, s), depth)
         == MergedInto(MergeLsp, x, HandleLsp(y, BytesField(num, s), depth))
  {
  }

  /** For all byte strings: parsing two complete messages in a row is merging the second into the first. */
  lemma LspConcatIsMerge(a: bytes, b: bytes, depth: nat)
    requires Whole(HandleLsp, EMPTY_LSP, a, depth).Some? && Whole(HandleLsp, EMPTY_LSP, b, depth).Some?
    ensures Whole(HandleLsp, EMPTY_LSP, a + b, depth)
         == Some(MergeLsp(Whole(HandleLsp, EMPTY_LSP, a, depth).value, Whole(HandleLsp, EMPTY_LSP, b, depth).value))
  {
    hide HandleLsp, Whole, Commutes;
    LspCommutes();
    var x := Whole(HandleLsp, EMPTY_LSP, a, depth).value;
    assert MergeLsp(x, EMPTY_LSP) == x;
    ConcatIsMerge(HandleLsp, MergeLsp, EMPTY_LSP, a, b, depth);
  }

  // ---- The presence bits -----------------------------------------------------------------------------------------

  /** The seven presence bits of a word. */
  datatype Presence = Presence(name: bool, instanceIdentifier: bool, counterName: bool, packets: bool, bytesSent: bool,
                               packetRate: bool, byteRate: bool)

  function Flags(bits: bv32): Presence
  {
    Presence(bits & 1 != 0, bits & 2 != 0, bits & 4 != 0, bits & 8 != 0, bits & 16 != 0, bits & 32 != 0, bits & 64 != 0)
  }

  function WithBit(b: bv32, m: bv32): bv32 { b | m }
  function WithoutBit(b: bv32, m: bv32): bv32 { b & !m }

  lemma NoFlags()
    ensures Flags(0) == Presence(false, false, false, false, false, false, false)
  {
  }

  lemma FlagName(b: bv32)
    ensures Flags(WithBit(b, 1)) == Flags(b).(name := true)
    ensures Flags(WithoutBit(b, 1)) == Flags(b).(name := false)
  {
  }

  lemma FlagInstanceIdentifier(b: bv32)
    ensures Flags(WithBit(b, 2)) == Flags(b).(instanceIdentifier := true)
    ensures Flags(WithoutBit(b, 2)) == Flags(b).(instanceIdentifier := false)
  {
  }

  lemma FlagCounterName(b: bv32)
    ensures Flags(WithBit(b, 4)) == Flags(b).(counterName := true)
    ensures Flags(WithoutBit(b, 4)) == Flags(b).(counterName := false)
  {
  }

  lemma FlagPackets(b: bv32)
    ensures Flags(WithBit(b, 8)) == Flags(b).(packets := true)
    ensures Flags(WithoutBit(b, 8)) == Flags(b).(packets := false)
  {
  }

  lemma FlagBytesSent(b: bv32)
    ensures Flags(WithBit(b, 16)) == Flags(b).(bytesSent := true)
    ensures Flags(WithoutBit(b, 16)) == Flags(b).(bytesSent := false)
  {
  }

  lemma FlagPacketRate(b: bv32)
    ensures Flags(WithBit(b, 32)) == Flags(b).(packetRate := true)
    ensures Flags(WithoutBit(b, 32)) == Flags(b).(packetRate := false)
  {
  }

  lemma FlagByteRate(b: bv32)
    ensures Flags(WithBit(b, 64)) == Flags(b).(byteRate := true)
    ensures Flags(WithoutBit(b, 64)) == Flags(b).(byteRate := false)
  {
  }

  /** What the combined masks ask: whether any field is present, whether all required ones are, and whether any
      optional one is. */
  lemma Masks(b: bv32)
    ensures var f := Flags(b);
            (b & 127 != 0 <==> f.name || f.instanceIdentifier || f.counterName || f.packets || f.bytesSent ||
                               f.packetRate || f.byteRate) &&
            ((b & 7) ^ 7 == 0 <==> f.name && f.instanceIdentifier && f.counterName) &&
            (b & 7 == 7 <==> f.name && f.instanceIdentifier && f.counterName) &&
            (b & 120 != 0 <==> f.packets || f.bytesSent || f.packetRate || f.byteRate) &&
            (f != Flags(0) ==> b & 255 != 0)
  {
  }

  datatype Label =
    | NextTag
    | ParseName
    | ParseInstanceIdentifier
    | ParseCounterName
    | ParsePackets
    | ParseBytesSent
    | ParsePacketRate
    | ParseByteRate
  {
    /** The tag that has been consumed when control is here; 0 at the top of the loop. */
    function Tag(): nat
    {
      match this
      case NextTag => 0
      case ParseName => 10
      case ParseInstanceIdentifier => 16
      case ParseCounterName => 26
      case ParsePackets => 32
      case ParseBytesSent => 40
      case ParsePacketRate => 48
      case ParseByteRate => 56
    }

    /** No label of this parser lies inside a loop over sub-messages. */
    predicate Charged() { false }
  }

  // ---- The class ---------------------------------------------------------------------------------------------------

  class LspStatsRecordMessage {
    var hasBits: bv32
    var name: bytes
    var instanceIdentifier: uint32
    var counterName: bytes
    var packets: uint64
    var bytesSent: uint64
    var packetRate: uint64
    var byteRate: uint64
    var unknown: seq<Record>
    var cachedSize: nat

    /** A clear bit means a default value. */
    ghost predicate Valid()
      reads this
    {
      var f := Flags(hasBits);
      (!f.name ==> name == []) &&
      (!f.instanceIdentifier ==> instanceIdentifier == 0) &&
      (!f.counterName ==> counterName == []) &&
      (!f.packets ==> packets == 0) &&
      (!f.bytesSent ==> bytesSent == 0) &&
      (!f.packetRate ==> packetRate == 0) &&
      (!f.byteRate ==> byteRate == 0)
    }

    function Value(): LspRecord
      reads this
    {
      var f := Flags(hasBits);
      LspRecord(if f.name then Some(name) else None,
                if f.instanceIdentifier then Some(instanceIdentifier) else None,
                if f.counterName then Some(counterName) else None,
                if f.packets then Some(packets) else None,
                if f.bytesSent then Some(bytesSent) else None,
                if f.packetRate then Some(packetRate) else None,
                if f.byteRate then Some(byteRate) else None, unknown)
    }

    /** Every field has its default value, whatever the bits say. */
    ghost predicate AllDefault()
      reads this
    {
      name == [] && instanceIdentifier == 0 && counterName == [] && packets == 0 && bytesSent == 0 &&
      packetRate == 0 && byteRate == 0 && unknown == []
    }

    constructor ()
      ensures Valid() && Value() == EMPTY_LSP && AllDefault()
    {
      hasBits := 0;
      name, instanceIdentifier, counterName := [], 0, [];
      packets, bytesSent, packetRate, byteRate := 0, 0, 0, 0;
      unknown, cachedSize := [], 0;
      new;
      NoFlags();
    }

    method SetName(v: bytes)
      requires Valid()
      modifies this`hasBits, this`name
      ensures Valid() && Value() == old(Value()).(name := Some(v))
    {
      hide Flags, WithBit, WithoutBit;
      FlagName(hasBits);
      hasBits := WithBit(hasBits, 1);
      name := v;
    }

    method ClearName()
      requires Valid()
      modifies this`hasBits, this`name
      ensures Valid() && Value() == old(Value()).(name := None)
    {
      hide Flags, WithBit, WithoutBit;
      FlagName(hasBits);
      name := [];
      hasBits := WithoutBit(hasBits, 1);
    }

    method SetInstanceIdentifier(v: uint32)
      requires Valid()
      modifies this`hasBits, this`instanceIdentifier
      ensures Valid() && Value() == old(Value()).(instanceIdentifier := Some(v))
    {
      hide Flags, WithBit, WithoutBit;
      FlagInstanceIdentifier(hasBits);
      hasBits := WithBit(hasBits, 2);
      instanceIdentifier := v;
    }

    method ClearInstanceIdentifier()
      requires Valid()
      modifies this`hasBits, this`instanceIdentifier
      ensures Valid() && Value() == old(Value()).(instanceIdentifier := None)
    {
      hide Flags, WithBit, WithoutBit;
      FlagInstanceIdentifier(hasBits);
      instanceIdentifier := 0;
      hasBits := WithoutBit(hasBits, 2);
    }

    method SetCounterName(v: bytes)
      requires Valid()
      modifies this`hasBits, this`counterName
      ensures Valid() && Value() == old(Value()).(counterName := Some(v))
    {
      hide Flags, WithBit, WithoutBit;
      FlagCounterName(hasBits);
      hasBits := WithBit(hasBits, 4);
      counterName := v;
    }

    method ClearCounterName()
      requires Valid()
      modifies this`hasBits, this`counterName
      ensures Valid() && Value() == old(Value()).(counterName := None)
    {
      hide Flags, WithBit, WithoutBit;
      FlagCounterName(hasBits);
      counterName := [];
      hasBits := WithoutBit(hasBits, 4);
    }

    method SetPackets(v: uint64)
      requires Valid()
      modifies this`hasBits, this`packets
      ensures Valid() && Value() == old(Value()).(packets := Some(v))
    {
      hide Flags, WithBit, WithoutBit;
      FlagPackets(hasBits);
      hasBits := WithBit(hasBits, 8);
      packets := v;
    }

    method ClearPackets()
      requires Valid()
      modifies this`hasBits, this`packets
      ensures Valid() && Value() == old(Value()).(packets := None)
    {
      hide Flags, WithBit, WithoutBit;
      FlagPackets(hasBits);
      packets := 0;
      hasBits := WithoutBit(hasBits, 8);
    }

    method SetBytesSent(v: uint64)
      requires Valid()
      modifies this`hasBits, this`bytesSent
      ensures Valid() && Value() == old(Value()).(bytesSent := Some(v))
    {
      hide Flags, WithBit, WithoutBit;
      FlagBytesSent(hasBits);
      hasBits := WithBit(hasBits, 16);
      bytesSent := v;
    }

    method ClearBytesSent()
      requires Valid()
      modifies this`hasBits, this`bytesSent
      ensures Valid() && Value() == old(Value()).(bytesSent := None)
    {
      hide Flags, WithBit, WithoutBit;
      FlagBytesSent(hasBits);
      bytesSent := 0;
      hasBits := WithoutBit(hasBits, 16);
    }

    method SetPacketRate(v: uint64)
      requires Valid()
      modifies this`hasBits, this`packetRate
      ensures Valid() && Value() == old(Value()).(packetRate := Some(v))
    {
      hide Flags, WithBit, WithoutBit;
      FlagPacketRate(hasBits);
      hasBits := WithBit(hasBits, 32);
      packetRate := v;
    }

    method ClearPacketRate()
      requires Valid()
      modifies this`hasBits, this`packetRate
      ensures Valid() && Value() == old(Value()).(packetRate := None)
    {
      hide Flags, WithBit, WithoutBit;
      FlagPacketRate(hasBits);
      packetRate := 0;
      hasBits := WithoutBit(hasBits, 32);
    }

    method SetByteRate(v: uint64)
      requires Valid()
      modifies this`hasBits, this`byteRate
      ensures Valid() && Value() == old(Value()).(byteRate := Some(v))
    {
      hide Flags, WithBit, WithoutBit;
      FlagByteRate(hasBits);
      hasBits := WithBit(hasBits, 64);
      byteRate := v;
    }

    method ClearByteRate()
      requires Valid()
      modifies this`hasBits, this`byteRate
      ensures Valid() && Value() == old(Value()).(byteRate := None)
    {
      hide Flags, WithBit, WithoutBit;
      FlagByteRate(hasBits);
      byteRate := 0;
      hasBits := WithoutBit(hasBits, 64);
    }

    /** If no bit is set the fields are left alone, and a string is emptied only if its bit is set; by the
        invariant that is enough to make every field its default. */
    method Clear()
      requires Valid()
      modifies this
      ensures Valid() && Value() == EMPTY_LSP && AllDefault()
    {
      hide Flags;
      Masks(hasBits);
      NoFlags();
      if hasBits & 127 != 0 {
        packets, bytesSent, packetRate, byteRate, instanceIdentifier := 0, 0, 0, 0, 0;
        if Flags(hasBits).name { name := []; }
        if Flags(hasBits).counterName { counterName := []; }
      }
      hasBits := 0;
      unknown := [];
    }

    method MergeFrom(from: LspStatsRecordMessage)
      requires from != this && Valid() && from.Valid()
      modifies this
      ensures Valid() && Value() == MergeLsp(old(Value()), from.Value())
    {
      hide Flags;
      Masks(from.hasBits);
      NoFlags();
      if from.hasBits & 255 != 0 { MergePresent(from); }
      unknown := unknown + from.unknown;
    }

    /** The fields that are present in the other message. */
    method MergePresent(from: LspStatsRecordMessage)
      requires from != this && Valid()
      modifies this
      ensures Valid() && Value() == MergeLsp(old(Value()), from.Value()).(unknown := old(unknown))
    {
      hide Flags, Valid;
      MergeRequired(from);
      var f := Flags(from.hasBits);
      if f.packets { SetPackets(from.packets); }
      if f.bytesSent { SetBytesSent(from.bytesSent); }
      if f.packetRate { SetPacketRate(from.packetRate); }
      if f.byteRate { SetByteRate(from.byteRate); }
    }

    method MergeRequired(from: LspStatsRecordMessage)
      requires from != this && Valid()
      modifies this`hasBits, this`name, this`instanceIdentifier, this`counterName
      ensures Valid()
      ensures Value() == old(Value()).(name := Or(old(Value()).name, from.Value().name),
                                       instanceIdentifier := Or(old(Value()).instanceIdentifier,
                                                                from.Value().instanceIdentifier),
                                       counterName := Or(old(Value()).counterName, from.Value().counterName))
    {
      hide Flags, Valid;
      var f := Flags(from.hasBits);
      if f.name { SetName(from.name); }
      if f.instanceIdentifier { SetInstanceIdentifier(from.instanceIdentifier); }
      if f.counterName { SetCounterName(from.counterName); }
    }

    method CopyFrom(from: LspStatsRecordMessage)
      requires Valid() && from.Valid()
      modifies this
      ensures Valid() && Value() == old(from.Value())
    {
      hide Flags;
      if from == this { return; }
      Clear();
      assert [] + from.unknown == from.unknown;
      MergeFrom(from);
    }

    function IsInitialized(): (r: bool)
      reads this
      ensures r <==> Value().name.Some? && Value().instanceIdentifier.Some? && Value().counterName.Some?
    {
      Masks(hasBits);
      hasBits & 7 == 7
    }

    // ---- Size and writer ----------------------------------------------------------------------------------------

    method RequiredFieldsByteSizeFallback() returns (total: nat)
      ensures total == OptSize(BytesOf(1, Value().name)) + OptSize(NumberOf(2, Value().instanceIdentifier)) +
                       OptSize(BytesOf(3, Value().counterName))
    {
      hide Flags, VarintSize, OptSize;
      var f := Flags(hasBits);
      total := 0;
      FieldSize(BytesField(1, name));
      FieldSize(VarintField(2, instanceIdentifier));
      FieldSize(BytesField(3, counterName));
      Absent();
      if f.name { total := total + 1 + VarintSize(|name|) + |name|; }
      if f.instanceIdentifier { total := total + 1 + VarintSize(instanceIdentifier); }
      if f.counterName { total := total + 1 + VarintSize(|counterName|) + |counterName|; }
    }

    method OptionalFieldsByteSize() returns (total: nat)
      ensures total == OptSize(Number64Of(4, Value().packets)) + OptSize(Number64Of(5, Value().bytesSent)) +
                       OptSize(Number64Of(6, Value().packetRate)) + OptSize(Number64Of(7, Value().byteRate))
    {
      hide Flags, VarintSize, OptSize;
      var f := Flags(hasBits);
      total := 0;
      FieldSize(VarintField(4, packets));
      FieldSize(VarintField(5, bytesSent));
      FieldSize(VarintField(6, packetRate));
      FieldSize(VarintField(7, byteRate));
      Absent();
      Masks(hasBits);
      if hasBits & 120 != 0 {
        if f.packets { total := total + 1 + VarintSize(packets); }
        if f.bytesSent { total := total + 1 + VarintSize(bytesSent); }
        if f.packetRate { total := total + 1 + VarintSize(packetRate); }
        if f.byteRate { total := total + 1 + VarintSize(byteRate); }
      }
    }

    /** The fast path for the required fields and the mask in front of the optional ones never change the sum:
        it is the length of the serialised message. */
    method ByteSize() returns (total: nat)
      modifies this`cachedSize
      ensures total == cachedSize == |SerializeLsp(Value())| == FieldSizes(Value())
    {
      hide Flags, VarintSize, OptSize, SerializeLsp;
      total := 0;
      Masks(hasBits);
      if (hasBits & 7) ^ 7 == 0 {
        FieldSize(BytesField(1, name));
        FieldSize(VarintField(2, instanceIdentifier));
        FieldSize(BytesField(3, counterName));
        total := total + 1 + VarintSize(|name|) + |name|;
        total := total + 1 + VarintSize(instanceIdentifier);
        total := total + 1 + VarintSize(|counterName|) + |counterName|;
      } else {
        total := RequiredFieldsByteSizeFallback();
      }
      var more := OptionalFieldsByteSize();
      total := total + more + |EncodeAll(unknown)|;
      LspSize(Value());
      cachedSize := total;
    }

    method SerializeWithCachedSizes(output: CodedOutputStream)
      modifies output
      ensures output.out == old(output.out) + SerializeLsp(Value())
    {
      hide Flags, SerializeLsp, Encode, EncodeAll, Opt, BytesOf, NumberOf, Number64Of;
      ghost var before := output.out;
      WriteRequired(output);
      WriteOptional(output);
      output.WriteRaw(EncodeAll(unknown));
      InOrder(before, Value());
    }

    method WriteRequired(output: CodedOutputStream)
      modifies output
      ensures output.out == old(output.out) + EncodeAll(Opt(BytesOf(1, Value().name))) +
                            EncodeAll(Opt(NumberOf(2, Value().instanceIdentifier))) +
                            EncodeAll(Opt(BytesOf(3, Value().counterName)))
    {
      hide Flags, Encode, EncodeAll, Opt;
      ghost var before, m := output.out, Value();
      var f := Flags(hasBits);
      if f.name { output.WriteBytes(1, name); }
      OptWritten(before, BytesOf(1, m.name), output.out);
      before := output.out;
      if f.instanceIdentifier { output.WriteNumber(2, instanceIdentifier); }
      OptWritten(before, NumberOf(2, m.instanceIdentifier), output.out);
      before := output.out;
      if f.counterName { output.WriteBytes(3, counterName); }
      OptWritten(before, BytesOf(3, m.counterName), output.out);
    }

    method WriteOptional(output: CodedOutputStream)
      modifies output
      ensures output.out == old(output.out) + EncodeAll(Opt(Number64Of(4, Value().packets))) +
                            EncodeAll(Opt(Number64Of(5, Value().bytesSent))) +
                            EncodeAll(Opt(Number64Of(6, Value().packetRate))) +
                            EncodeAll(Opt(Number64Of(7, Value().byteRate)))
    {
      hide Flags, Encode, EncodeAll, Opt;
      ghost var before, m := output.out, Value();
      var f := Flags(hasBits);
      if f.packets { output.WriteNumber(4, packets); }
      OptWritten(before, Number64Of(4, m.packets), output.out);
      before := output.out;
      if f.bytesSent { output.WriteNumber(5, bytesSent); }
      OptWritten(before, Number64Of(5, m.bytesSent), output.out);
      before := output.out;
      if f.packetRate { output.WriteNumber(6, packetRate); }
      OptWritten(before, Number64Of(6, m.packetRate), output.out);
      before := output.out;
      if f.byteRate { output.WriteNumber(7, byteRate); }
      OptWritten(before, Number64Of(7, m.byteRate), output.out);
    }

    // ---- The parser -------------------------------------------------------------------------------------------

    /** What holds after a block ended in a jump, `goal` being what the plain loop does from its start. */
    ghost predicate Jumped(j: Jump<Label>, goal: Outcome<LspRecord>, input: CodedInputStream, limit: nat, depth: nat)
      reads this, input
    {
      match j
      case Failure => goal == Failed
      case Success => Agrees(goal, true, Value(), input, limit, depth)
      case Goto(at) => AtLabel(goal, HandleLsp, at.Tag(), at.Charged(), Value(), input, limit, depth)
    }

    method ReadName(input: CodedInputStream, ghost depth: nat) returns (ok: bool)
      requires input.Valid() && input.budget == depth && Valid()
      modifies this, input
      ensures Valid()
      ensures FieldRead(AfterTag(HandleLsp, old(Value()), 10, old(input.Rest()), depth),
                        HandleLsp, ok, Value(), input, old(input.Rest()),
                        old(input.limit), old(input.budget), depth)
    {
      hide Parse, AfterTag, Flags;
      TurnBytes(HandleLsp, Value(), 10, input.Rest(), depth);
      var s;
      ok, s := input.ReadString();
      if ok { SetName(s); }
    }

    method ReadInstanceIdentifier(input: CodedInputStream, ghost depth: nat) returns (ok: bool)
      requires input.Valid() && input.budget == depth && Valid()
      modifies this, input
      ensures Valid()
      ensures FieldRead(AfterTag(HandleLsp, old(Value()), 16, old(input.Rest()), depth),
                        HandleLsp, ok, Value(), input, old(input.Rest()),
                        old(input.limit), old(input.budget), depth)
    {
      hide Parse, AfterTag, Flags;
      TurnVarint(HandleLsp, Value(), 16, input.Rest(), depth);
      var v;
      ok, v := input.ReadVarint64();
      if ok { SetInstanceIdentifier(v % TWO32); }
    }

    method ReadCounterName(input: CodedInputStream, ghost depth: nat) returns (ok: bool)
      requires input.Valid() && input.budget == depth && Valid()
      modifies this, input
      ensures Valid()
      ensures FieldRead(AfterTag(HandleLsp, old(Value()), 26, old(input.Rest()), depth),
                        HandleLsp, ok, Value(), input, old(input.Rest()),
                        old(input.limit), old(input.budget), depth)
    {
      hide Parse, AfterTag, Flags;
      TurnBytes(HandleLsp, Value(), 26, input.Rest(), depth);
      var s;
      ok, s := input.ReadString();
      if ok { SetCounterName(s); }
    }

    method ReadPackets(input: CodedInputStream, ghost depth: nat) returns (ok: bool)
      requires input.Valid() && input.budget == depth && Valid()
      modifies this, input
      ensures Valid()
      ensures FieldRead(AfterTag(HandleLsp, old(Value()), 32, old(input.Rest()), depth),
                        HandleLsp, ok, Value(), input, old(input.Rest()),
                        old(input.limit), old(input.budget), depth)
    {
      hide Parse, AfterTag, Flags;
      TurnVarint(HandleLsp, Value(), 32, input.Rest(), depth);
      var v;
      ok, v := input.ReadVarint64();
      if ok { SetPackets(v); }
    }

    method ReadBytesSent(input: CodedInputStream, ghost depth: nat) returns (ok: bool)
      requires input.Valid() && input.budget == depth && Valid()
      modifies this, input
      ensures Valid()
      ensures FieldRead(AfterTag(HandleLsp, old(Value()), 40, old(input.Rest()), depth),
                        HandleLsp, ok, Value(), input, old(input.Rest()),
                        old(input.limit), old(input.budget), depth)
    {
      hide Parse, AfterTag, Flags;
      TurnVarint(HandleLsp, Value(), 40, input.Rest(), depth);
      var v;
      ok, v := input.ReadVarint64();
      if ok { SetBytesSent(v); }
    }

    method ReadPacketRate(input: CodedInputStream, ghost depth: nat) returns (ok: bool)
      requires input.Valid() && input.budget == depth && Valid()
      modifies this, input
      ensures Valid()
      ensures FieldRead(AfterTag(HandleLsp, old(Value()), 48, old(input.Rest()), depth),
                        HandleLsp, ok, Value(), input, old(input.Rest()),
                        old(input.limit), old(input.budget), depth)
    {
      hide Parse, AfterTag, Flags;
      TurnVarint(HandleLsp, Value(), 48, input.Rest(), depth);
      var v;
      ok, v := input.ReadVarint64();
      if ok { SetPacketRate(v); }
    }

    method ReadByteRate(input: CodedInputStream, ghost depth: nat) returns (ok: bool)
      requires input.Valid() && input.budget == depth && Valid()
      modifies this, input
      ensures Valid()
      ensures FieldRead(AfterTag(HandleLsp, old(Value()), 56, old(input.Rest()), depth),
                        HandleLsp, ok, Value(), input, old(input.Rest()),
                        old(input.limit), old(input.budget), depth)
    {
      hide Parse, AfterTag, Flags;
      TurnVarint(HandleLsp, Value(), 56, input.Rest(), depth);
      var v;
      ok, v := input.ReadVarint64();
      if ok { SetByteRate(v); }
    }

    /** A tag that is not dispatched on becomes an unknown field. */
    method KeepUnknown(input: CodedInputStream, tag: uint32, ghost depth: nat) returns (ok: bool)
      requires input.Valid() && input.budget == depth && tag !in [0, 10, 16, 26, 32, 40, 48, 56]
      requires !IsEndGroup(tag)
      requires Valid()
      modifies this, input
      ensures Valid()
      ensures FieldRead(AfterTag(HandleLsp, old(Value()), tag, old(input.Rest()), depth),
                        HandleLsp, ok, Value(), input, old(input.Rest()),
                        old(input.limit), old(input.budget), depth)
    {
      hide Parse, AfterTag, HandleLsp, Flags;
      var r;
      ok, r := ReadField(input, HandleLsp, Value(), tag);
      if ok {
        Unrecognised(Value(), r, depth);
        unknown := unknown + [r];
      }
    }

    method BlockNextTag(input: CodedInputStream, ghost depth: nat) returns (j: Jump<Label>)
      requires Ready(input, NextTag.Charged(), depth)
      requires Valid()
      modifies this, input
      ensures Valid()
      ensures Jumped(j, old(Resume(HandleLsp, 0, Value(), input.Rest(), depth)), input, old(input.limit), depth)
      ensures j.Goto? ==> |input.Rest()| < |old(input.Rest())|
    {
      hide Parse, AfterTag, HandleLsp, Flags;
      var tag, small := TopOfLoop(input, HandleLsp, Value(), depth);
      if small && tag == 10 {
        j := Goto(ParseName);
      } else if small && tag == 16 {
        j := Goto(ParseInstanceIdentifier);
      } else if small && tag == 26 {
        j := Goto(ParseCounterName);
      } else if small && tag == 32 {
        j := Goto(ParsePackets);
      } else if small && tag == 40 {
        j := Goto(ParseBytesSent);
      } else if small && tag == 48 {
        j := Goto(ParsePacketRate);
      } else if small && tag == 56 {
        j := Goto(ParseByteRate);
      } else {
        if tag == 0 || IsEndGroup(tag) { return Success; }
        var ok := KeepUnknown(input, tag, depth);
        j := if ok then Goto(NextTag) else Failure;
      }
    }

    method BlockParseName(input: CodedInputStream, ghost depth: nat) returns (j: Jump<Label>)
      requires Ready(input, ParseName.Charged(), depth)
      requires Valid()
      modifies this, input
      ensures Valid()
      ensures Jumped(j, old(Resume(HandleLsp, 10, Value(), input.Rest(), depth)), input, old(input.limit), depth)
      ensures j.Goto? ==> |input.Rest()| < |old(input.Rest())|
    {
      hide Parse, AfterTag, HandleLsp, Flags;
      var ok := ReadName(input, depth);
      if !ok { return Failure; }
      var hit := Predict(input, HandleLsp, Value(), depth, 16);
      j := Goto(if hit then ParseInstanceIdentifier else NextTag);
    }

    method BlockParseInstanceIdentifier(input: CodedInputStream, ghost depth: nat) returns (j: Jump<Label>)
      requires Ready(input, ParseInstanceIdentifier.Charged(), depth)
      requires Valid()
      modifies this, input
      ensures Valid()
      ensures Jumped(j, old(Resume(HandleLsp, 16, Value(), input.Rest(), depth)), input, old(input.limit), depth)
      ensures j.Goto? ==> |input.Rest()| < |old(input.Rest())|
    {
      hide Parse, AfterTag, HandleLsp, Flags;
      var ok := ReadInstanceIdentifier(input, depth);
      if !ok { return Failure; }
      var hit := Predict(input, HandleLsp, Value(), depth, 26);
      j := Goto(if hit then ParseCounterName else NextTag);
    }

    method BlockParseCounterName(input: CodedInputStream, ghost depth: nat) returns (j: Jump<Label>)
      requires Ready(input, ParseCounterName.Charged(), depth)
      requires Valid()
      modifies this, input
      ensures Valid()
      ensures Jumped(j, old(Resume(HandleLsp, 26, Value(), input.Rest(), depth)), input, old(input.limit), depth)
      ensures j.Goto? ==> |input.Rest()| < |old(input.Rest())|
    {
      hide Parse, AfterTag, HandleLsp, Flags;
      var ok := ReadCounterName(input, depth);
      if !ok { return Failure; }
      var hit := Predict(input, HandleLsp, Value(), depth, 32);
      j := Goto(if hit then ParsePackets else NextTag);
    }

    method BlockParsePackets(input: CodedInputStream, ghost depth: nat) returns (j: Jump<Label>)
      requires Ready(input, ParsePackets.Charged(), depth)
      requires Valid()
      modifies this, input
      ensures Valid()
      ensures Jumped(j, old(Resume(HandleLsp, 32, Value(), input.Rest(), depth)), input, old(input.limit), depth)
      ensures j.Goto? ==> |input.Rest()| < |old(input.Rest())|
    {
      hide Parse, AfterTag, HandleLsp, Flags;
      var ok := ReadPackets(input, depth);
      if !ok { return Failure; }
      var hit := Predict(input, HandleLsp, Value(), depth, 40);
      j := Goto(if hit then ParseBytesSent else NextTag);
    }

    method BlockParseBytesSent(input: CodedInputStream, ghost depth: nat) returns (j: Jump<Label>)
      requires Ready(input, ParseBytesSent.Charged(), depth)
      requires Valid()
      modifies this, input
      ensures Valid()
      ensures Jumped(j, old(Resume(HandleLsp, 40, Value(), input.Rest(), depth)), input, old(input.limit), depth)
      ensures j.Goto? ==> |input.Rest()| < |old(input.Rest())|
    {
      hide Parse, AfterTag, HandleLsp, Flags;
      var ok := ReadBytesSent(input, depth);
      if !ok { return Failure; }
      var hit := Predict(input, HandleLsp, Value(), depth, 48);
      j := Goto(if hit then ParsePacketRate else NextTag);
    }

    method BlockParsePacketRate(input: CodedInputStream, ghost depth: nat) returns (j: Jump<Label>)
      requires Ready(input, ParsePacketRate.Charged(), depth)
      requires Valid()
      modifies this, input
      ensures Valid()
      ensures Jumped(j, old(Resume(HandleLsp, 48, Value(), input.Rest(), depth)), input, old(input.limit), depth)
      ensures j.Goto? ==> |input.Rest()| < |old(input.Rest())|
    {
      hide Parse, AfterTag, HandleLsp, Flags;
      var ok := ReadPacketRate(input, depth);
      if !ok { return Failure; }
      var hit := Predict(input, HandleLsp, Value(), depth, 56);
      j := Goto(if hit then ParseByteRate else NextTag);
    }

    method BlockParseByteRate(input: CodedInputStream, ghost depth: nat) returns (j: Jump<Label>)
      requires Ready(input, ParseByteRate.Charged(), depth)
      requires Valid()
      modifies this, input
      ensures Valid()
      ensures Jumped(j, old(Resume(HandleLsp, 56, Value(), input.Rest(), depth)), input, old(input.limit), depth)
      ensures j.Goto? ==> |input.Rest()| < |old(input.Rest())|
    {
      hide Parse, AfterTag, HandleLsp, Flags;
      var ok := ReadByteRate(input, depth);
      if !ok { return Failure; }
      var hit := input.ExpectAtEnd();
      if hit { TurnAtEnd(HandleLsp, Value(), input.Rest(), depth); return Success; }
      j := Goto(NextTag);
    }

    /** For every byte string and every way the predictions may answer: the verdict, the message,
        the leftover input and the recursion budget are those of the plain loop. Every turn consumes
        input, or enters a loop of sub-messages, or leaves. */
    method MergePartialFromCodedStream(input: CodedInputStream) returns (ok: bool)
      requires input.Valid() && input.budget >= 0
      requires Valid()
      modifies this, input
      ensures Valid()
      ensures Agrees(Parse(HandleLsp, old(Value()), old(input.Rest()), old(input.budget)), ok, Value(), input,
                     old(input.limit), old(input.budget))
    {
      hide Parse, AfterTag, HandleLsp, Flags;
      ghost var depth: nat := input.budget;
      ghost var goal := Parse(HandleLsp, Value(), input.Rest(), depth);
      var j := Goto(NextTag);
      while j.Goto?
        invariant Valid()
        invariant Jumped(j, goal, input, old(input.limit), depth)
        decreases if j.Goto? then 1 else 0, if j.Goto? then |input.Rest()| else 0
      {
        match j.at
        case NextTag => j := BlockNextTag(input, depth);
        case ParseName => j := BlockParseName(input, depth);
        case ParseInstanceIdentifier => j := BlockParseInstanceIdentifier(input, depth);
        case ParseCounterName => j := BlockParseCounterName(input, depth);
        case ParsePackets => j := BlockParsePackets(input, depth);
        case ParseBytesSent => j := BlockParseBytesSent(input, depth);
        case ParsePacketRate => j := BlockParsePacketRate(input, depth);
        case ParseByteRate => j := BlockParseByteRate(input, depth);
      }
      ok := j.Success?;
    }
  }

  /** Field by field in the order of the numbers is the whole message. */
  lemma InOrder(before: bytes, m: LspRecord)
    ensures before + EncodeAll(Opt(BytesOf(1, m.name))) + EncodeAll(Opt(NumberOf(2, m.instanceIdentifier))) +
            EncodeAll(Opt(BytesOf(3, m.counterName))) + EncodeAll(Opt(Number64Of(4, m.packets))) +
            EncodeAll(Opt(Number64Of(5, m.bytesSent))) + EncodeAll(Opt(Number64Of(6, m.packetRate))) +
            EncodeAll(Opt(Number64Of(7, m.byteRate))) + EncodeAll(m.unknown)
         == before + SerializeLsp(m)
  {
    var g7 := Opt(Number64Of(7, m.byteRate)) + m.unknown;
    var g6 := Opt(Number64Of(6, m.packetRate)) + g7;
    var g5 := Opt(Number64Of(5, m.bytesSent)) + g6;
    var g4 := Opt(Number64Of(4, m.packets)) + g5;
    var g3 := Opt(BytesOf(3, m.counterName)) + g4;
    var g2 := Opt(NumberOf(2, m.instanceIdentifier)) + g3;
    hide EncodeAll, Opt, OptSize, BytesOf, NumberOf, Number64Of;
    OptFirst(BytesOf(1, m.name), g2);
    OptFirst(NumberOf(2, m.instanceIdentifier), g3);
    OptFirst(BytesOf(3, m.counterName), g4);
    OptFirst(Number64Of(4, m.packets), g5);
    OptFirst(Number64Of(5, m.bytesSent), g6);
    OptFirst(Number64Of(6, m.packetRate), g7);
    OptFirst(Number64Of(7, m.byteRate), m.unknown);
    var a, b, c := EncodeAll(Opt(BytesOf(1, m.name))), EncodeAll(Opt(NumberOf(2, m.instanceIdentifier))),
                   EncodeAll(Opt(BytesOf(3, m.counterName)));
    var d, e, f := EncodeAll(Opt(Number64Of(4, m.packets))), EncodeAll(Opt(Number64Of(5, m.bytesSent))),
                   EncodeAll(Opt(Number64Of(6, m.packetRate)));
    var g, u := EncodeAll(Opt(Number64Of(7, m.byteRate))), EncodeAll(m.unknown);
    ConcatAssoc(before + a + b + c + d + e + f, g, u);
    ConcatAssoc(before + a + b + c + d + e, f, g + u);
    ConcatAssoc(before + a + b + c + d, e, f + (g + u));
    ConcatAssoc(before + a + b + c, d, e + (f + (g + u)));
    ConcatAssoc(before + a + b, c, d + (e + (f + (g + u))));
    ConcatAssoc(before + a, b, c + (d + (e + (f + (g + u)))));
    ConcatAssoc(before, a, b + (c + (d + (e + (f + (g + u))))));
  }

  /** Records with other tags are not fields of this message. */
  lemma Unrecognised(m: LspRecord, r: Record, depth: nat)
    requires TagOf(r) !in [10, 16, 26, 32, 40, 48, 56]
    ensures HandleLsp(m, r, depth) == Some(m.(unknown := m.unknown + [r]))
  {
  }
}
