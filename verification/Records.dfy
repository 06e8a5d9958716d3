/** One tagged field of a serialised message. A message's unknown-field set is a list of
    these, and so is every serialised message: parsing folds such a list into a message. */
module Records {
  import opened Wire

  datatype Record =
    | VarintField(num: nat, v: uint64)
    | Fixed64Field(num: nat, v: uint64)
    | BytesField(num: nat, s: bytes)
    | GroupField(num: nat, fields: seq<Record>)
    | Fixed32Field(num: nat, w: uint32)

  /** The wire type. */
  function KindOf(r: Record): nat
  {
    match r
    case VarintField(_, _) => 0
    case Fixed64Field(_, _) => 1
    case BytesField(_, _) => 2
    case GroupField(_, _) => 3
    case Fixed32Field(_, _) => 5
  }

  function TagOf(r: Record): nat
  {
    8 * r.num + KindOf(r)
  }

  predicate IsEndGroup(tag: nat) { tag % 8 == 4 }

  // ---- Writing -------------------------------------------------------------------------

  function Payload(r: Record): bytes
    decreases r, 0
  {
    match r
    case VarintField(_, v) => Varint(v)
    case Fixed64Field(_, v) => Fixed(v, 8)
    case BytesField(_, s) => Varint(|s|) + s
    case GroupField(num, fields) => EncodeAll(fields) + Varint(8 * num + 4)
    case Fixed32Field(_, w) => Fixed(w, 4)
  }

  function Encode(r: Record): (b: bytes)
    ensures |b| >= 1
    decreases r, 1
  {
    Varint(TagOf(r)) + Payload(r)
  }

  function EncodeAll(rs: seq<Record>): bytes
    decreases rs
  {
    if rs == [] then [] else Encode(rs[0]) + EncodeAll(rs[1..])
  }

  lemma {:induction false} EncodeAppend(a: seq<Record>, b: seq<Record>)
    ensures EncodeAll(a + b) == EncodeAll(a) + EncodeAll(b)
  {
    if a == [] {
      assert a + b == b;
    } else {
      assert (a + b)[1..] == a[1..] + b;
      EncodeAppend(a[1..], b);
    }
  }

  lemma EncodeOne(r: Record)
    ensures EncodeAll([r]) == Encode(r)
  {
    assert [r][1..] == [];
  }

  // ---- What can be written and read back ------------------------------------------------

  /** A record whose parts fit the format: a 32-bit non-zero tag,
      lengths that fit a signed 32-bit integer, groups no deeper than the recursion budget. */
  predicate Fits(r: Record, depth: nat)
    decreases r
  {
    TagOf(r) != 0 && 8 * r.num + 5 < TWO32 &&
    match r
    case BytesField(_, s) => |s| < TWO31
    case GroupField(_, fields) => depth > 0 && forall i :: 0 <= i < |fields| ==> Fits(fields[i], depth - 1)
    case _ => true
  }

  predicate AllFit(rs: seq<Record>, depth: nat)
  {
    forall i :: 0 <= i < |rs| ==> Fits(rs[i], depth)
  }

  /** The fields modelled here have numbers below 16, so their tags take one byte. */
  lemma OneByteTag(r: Record)
    requires 0 < r.num < 16
    ensures |Encode(r)| == 1 + |Payload(r)|
  {
  }

  /** The first byte of a field: its number and its wire type, 0 for a varint, 1 for eight bytes, 2 for a length and as
      many bytes, 3 for a group, 5 for four bytes; and what follows it. */
  lemma FieldBytes(r: Record)
    requires 0 < r.num < 16
    ensures r.VarintField? ==> Encode(r) == [8 * r.num] + Varint(r.v)
    ensures r.Fixed64Field? ==> Encode(r) == [8 * r.num + 1] + Fixed(r.v, 8)
    ensures r.BytesField? ==> Encode(r) == [8 * r.num + 2] + (Varint(|r.s|) + r.s)
    ensures r.GroupField? ==> Encode(r) == [8 * r.num + 3] + (EncodeAll(r.fields) + [8 * r.num + 4])
    ensures r.Fixed32Field? ==> Encode(r) == [8 * r.num + 5] + Fixed(r.w, 4)
  {
    assert Varint(TagOf(r)) == [TagOf(r)];
    assert Varint(8 * r.num + 4) == [8 * r.num + 4];
    hide Varint, Fixed;
  }

  /** A record of a message without unknown fields: no group, and a usable field number. */
  predicate IsPlain(r: Record)
  {
    !r.GroupField? && r.num > 0 && 8 * r.num + 5 < TWO32
  }

  predicate AllPlain(rs: seq<Record>)
  {
    forall i :: 0 <= i < |rs| ==> IsPlain(rs[i])
  }

  /** A plain message whose size is below 2^31 can be read back: each of its parts is smaller. */
  lemma {:induction false} PlainFits(rs: seq<Record>, depth: nat)
    requires AllPlain(rs) && |EncodeAll(rs)| < TWO31
    ensures AllFit(rs, depth)
  {
    if rs != [] {
      assert |EncodeAll(rs)| == |Varint(TagOf(rs[0]))| + |Payload(rs[0])| + |EncodeAll(rs[1..])|;
      assert Fits(rs[0], depth);
      PlainFits(rs[1..], depth);
      forall i | 0 <= i < |rs| ensures Fits(rs[i], depth) {
        if i > 0 { assert rs[i] == rs[1..][i - 1]; }
      }
    }
  }

  // ---- Reading ---------------------------------------------------------------------------

  datatype TagRead = End | Malformed | Tag(tag: uint32, rest: bytes)

  /** The next tag: none at the end of the input, the low 32 bits of a varint otherwise. */
  function ReadTag(bs: bytes): (t: TagRead)
    ensures t.Tag? ==> |t.rest| < |bs|
  {
    if bs == [] then End
    else
      match ReadVarint(bs)
      case Bad => Malformed
      case Got(v, rest) => Tag(v % TWO32, rest)
  }

  /** A length prefix and that many bytes. */
  function ReadBytes(bs: bytes): (r: Read<bytes>)
    ensures r.Got? ==> |r.rest| < |bs| && |r.value| < TWO31
  {
    match ReadVarint(bs)
    case Bad => Bad
    case Got(v, rest) =>
      var n := v % TWO32;
      if n < TWO31 && n <= |rest| then Got(rest[..n], rest[n..]) else Bad
  }

  /** What follows a tag, read by its wire type alone. Wire types 6 and 7 do not exist, and
      an end-group tag starts no record. */
  function ReadRecord(tag: nat, bs: bytes, depth: nat): (r: Read<Record>)
    ensures r.Got? ==> |r.rest| < |bs|
    decreases |bs|, 1
  {
    var num, kind := tag / 8, tag % 8;
    if kind == 0 then
      match ReadVarint(bs) case Bad => Bad case Got(v, rest) => Got(VarintField(num, v), rest)
    else if kind == 1 then
      match ReadFixed64(bs) case Bad => Bad case Got(v, rest) => Got(Fixed64Field(num, v), rest)
    else if kind == 2 then
      match ReadBytes(bs) case Bad => Bad case Got(s, rest) => Got(BytesField(num, s), rest)
    else if kind == 3 then
      if depth == 0 then Bad
      else
        match ReadGroup(num, bs, depth - 1)
        case Bad => Bad
        case Got(fields, rest) => Got(GroupField(num, fields), rest)
    else if kind == 5 then
      Pow256Values();
      match ReadFixed(bs, 4) case Bad => Bad case Got(v, rest) => Got(Fixed32Field(num, v), rest)
    else
      Bad
  }

  /** The records up to the end-group tag of the given number. */
  function ReadGroup(num: nat, bs: bytes, depth: nat): (r: Read<seq<Record>>)
    ensures r.Got? ==> |r.rest| < |bs|
    decreases |bs|, 0
  {
    match ReadTag(bs)
    case End => Bad
    case Malformed => Bad
    case Tag(tag, rest) =>
      if tag == 0 then Bad
      else if IsEndGroup(tag) then if tag == 8 * num + 4 then Got([], rest) else Bad
      else
        match ReadRecord(tag, rest, depth)
        case Bad => Bad
        case Got(r, rest') =>
          match ReadGroup(num, rest', depth)
          case Bad => Bad
          case Got(rs, rest'') => Got([r] + rs, rest'')
  }

  // ---- Round trip ------------------------------------------------------------------------

  lemma SmallMod(v: nat, m: nat)
    requires v < m
    ensures v % m == v
  {
  }

  lemma TagRoundTrip(tag: uint32, tail: bytes)
    ensures ReadTag(Varint(tag) + tail) == Tag(tag, tail)
  {
    VarintRoundTrip(tag, tail);
    SmallMod(tag, TWO32);
  }

  lemma BytesRoundTrip(s: bytes, tail: bytes)
    requires |s| < TWO31
    ensures ReadBytes(Varint(|s|) + (s + tail)) == Got(s, tail)
  {
    var n, x := |s|, s + tail;
    VarintRoundTrip(n, x);
    SmallMod(n, TWO32);
    assert x[..n] == s && x[n..] == tail;
  }

  lemma ConcatAssoc<T>(a: seq<T>, b: seq<T>, c: seq<T>)
    ensures a + b + c == a + (b + c)
  {
  }

  lemma TagParts(r: Record)
    ensures TagOf(r) / 8 == r.num && TagOf(r) % 8 == KindOf(r) && !IsEndGroup(TagOf(r))
  {
  }

  /** Every record that fits is read back as it was written, whatever follows it. */
  lemma {:induction false} RecordRoundTrip(r: Record, depth: nat, tail: bytes)
    requires Fits(r, depth)
    ensures ReadRecord(TagOf(r), Payload(r) + tail, depth) == Got(r, tail)
    decreases r, 1
  {
    Pow256Values();
    TagParts(r);
    hide Varint, Fixed, ReadVarint, ReadGroup, FixedValue, EncodeAll, AllFit, Pow256;
    match r
    case VarintField(_, v) => VarintRoundTrip(v, tail);
    case Fixed64Field(_, v) => FixedRoundTrip(v, 8, tail);
    case BytesField(_, s) =>
      BytesRoundTrip(s, tail);
      ConcatAssoc(Varint(|s|), s, tail);
    case Fixed32Field(_, w) => FixedRoundTrip(w, 4, tail);
    case GroupField(num, fields) =>
      GroupRoundTrip(num, fields, depth - 1, tail);
      ConcatAssoc(EncodeAll(fields), Varint(8 * num + 4), tail);
  }

  lemma ReadGroupCons(num: nat, r: Record, bs: bytes, body: bytes, more: bytes, depth: nat)
    requires 0 < TagOf(r) < TWO32 && ReadTag(bs) == Tag(TagOf(r), body)
    requires ReadRecord(TagOf(r), body, depth) == Got(r, more)
    requires ReadGroup(num, more, depth).Got?
    ensures ReadGroup(num, bs, depth)
         == Got([r] + ReadGroup(num, more, depth).value, ReadGroup(num, more, depth).rest)
  {
    TagParts(r);
  }

  lemma ReadGroupNil(num: nat, tail: bytes, depth: nat)
    requires 8 * num + 4 < TWO32
    ensures ReadGroup(num, Varint(8 * num + 4) + tail, depth) == Got([], tail)
  {
    TagRoundTrip(8 * num + 4, tail);
    assert IsEndGroup(8 * num + 4);
  }

  lemma EncodeCons(rs: seq<Record>, tail: bytes)
    requires rs != []
    ensures EncodeAll(rs) + tail == Varint(TagOf(rs[0])) + (Payload(rs[0]) + (EncodeAll(rs[1..]) + tail))
  {
    ConcatAssoc(Encode(rs[0]), EncodeAll(rs[1..]), tail);
    ConcatAssoc(Varint(TagOf(rs[0])), Payload(rs[0]), EncodeAll(rs[1..]) + tail);
  }

  lemma {:induction false} GroupRoundTrip(num: nat, fields: seq<Record>, depth: nat, tail: bytes)
    requires 8 * num + 5 < TWO32 && AllFit(fields, depth)
    ensures ReadGroup(num, EncodeAll(fields) + (Varint(8 * num + 4) + tail), depth) == Got(fields, tail)
    decreases fields, 0
  {
    var stop := Varint(8 * num + 4) + tail;
    if fields == [] {
      assert EncodeAll(fields) + stop == stop;
      ReadGroupNil(num, tail, depth);
    } else {
      var r, more := fields[0], EncodeAll(fields[1..]) + stop;
      EncodeCons(fields, stop);
      assert Fits(r, depth);
      TagRoundTrip(TagOf(r), Payload(r) + more);
      RecordRoundTrip(r, depth, more);
      GroupRoundTrip(num, fields[1..], depth, tail);
      ReadGroupCons(num, r, EncodeAll(fields) + stop, Payload(r) + more, more, depth);
      assert [r] + fields[1..] == fields;
    }
  }

  // ---- What was read fits, and its canonical encoding is no longer than the bytes read ------

  lemma {:induction false} ReadTagShortest(bs: bytes)
    requires ReadTag(bs).Tag?
    ensures |Varint(ReadTag(bs).tag)| <= |bs| - |ReadTag(bs).rest|
  {
    ReadVarintShortest(bs);
    VarintMonotone(ReadVarint(bs).value % TWO32, ReadVarint(bs).value);
  }

  lemma {:induction false} ReadRecordFits(tag: uint32, bs: bytes, depth: nat)
    requires tag != 0 && ReadRecord(tag, bs, depth).Got?
    ensures var r := ReadRecord(tag, bs, depth);
            Fits(r.value, depth) && TagOf(r.value) == tag && |Payload(r.value)| <= |bs| - |r.rest|
    decreases |bs|, 1
  {
    hide ReadVarint, ReadGroup, VarintTail, Varint, FixedValue, EncodeAll, AllFit;
    var num, kind := tag / 8, tag % 8;
    if kind == 0 {
      ReadVarintShortest(bs);
    } else if kind == 2 {
      var v := ReadVarint(bs);
      ReadVarintShortest(bs);
      VarintMonotone(v.value % TWO32, v.value);
    } else if kind == 3 {
      ReadGroupFits(num, bs, depth - 1);
    }
  }

  lemma {:induction false} ReadGroupFits(num: nat, bs: bytes, depth: nat)
    requires 8 * num + 5 < TWO32 && ReadGroup(num, bs, depth).Got?
    ensures var r := ReadGroup(num, bs, depth);
            AllFit(r.value, depth) && |EncodeAll(r.value)| + |Varint(8 * num + 4)| <= |bs| - |r.rest|
    decreases |bs|, 0
  {
    var t := ReadTag(bs);
    ReadTagShortest(bs);
    if !IsEndGroup(t.tag) {
      ReadRecordFits(t.tag, t.rest, depth);
      var r := ReadRecord(t.tag, t.rest, depth);
      ReadGroupFits(num, r.rest, depth);
      assert ([r.value] + ReadGroup(num, r.rest, depth).value)[1..] == ReadGroup(num, r.rest, depth).value;
    }
  }

  // ---- Reading looks at nothing behind what it consumes ---------------------------------------

  lemma ReadVarintLocal(bs: bytes, more: bytes)
    requires ReadVarint(bs).Got?
    ensures ReadVarint(bs + more) == Got(ReadVarint(bs).value, ReadVarint(bs).rest + more)
  {
    VarintTailLocal(bs, 10, more);
  }

  lemma ReadTagLocal(bs: bytes, more: bytes)
    requires ReadTag(bs).Tag?
    ensures ReadTag(bs + more) == Tag(ReadTag(bs).tag, ReadTag(bs).rest + more)
  {
    ReadVarintLocal(bs, more);
  }

  lemma {:induction false} ReadRecordLocal(tag: nat, bs: bytes, depth: nat, more: bytes)
    requires ReadRecord(tag, bs, depth).Got?
    ensures var r := ReadRecord(tag, bs, depth);
            ReadRecord(tag, bs + more, depth) == Got(r.value, r.rest + more)
    decreases |bs|, 1
  {
    hide ReadVarint, ReadGroup, VarintTail, FixedValue;
    var kind := tag % 8;
    if kind == 0 {
      ReadVarintLocal(bs, more);
    } else if kind == 1 {
      assert (bs + more)[..8] == bs[..8] && (bs + more)[8..] == bs[8..] + more;
    } else if kind == 2 {
      ReadVarintLocal(bs, more);
      var v := ReadVarint(bs);
      var n := v.value % TWO32;
      assert (v.rest + more)[..n] == v.rest[..n] && (v.rest + more)[n..] == v.rest[n..] + more;
    } else if kind == 3 {
      ReadGroupLocal(tag / 8, bs, depth - 1, more);
    } else {
      assert (bs + more)[..4] == bs[..4] && (bs + more)[4..] == bs[4..] + more;
    }
  }

  lemma {:induction false} ReadGroupLocal(num: nat, bs: bytes, depth: nat, more: bytes)
    requires ReadGroup(num, bs, depth).Got?
    ensures var r := ReadGroup(num, bs, depth);
            ReadGroup(num, bs + more, depth) == Got(r.value, r.rest + more)
    decreases |bs|, 0
  {
    hide ReadTag, ReadRecord;
    ReadTagLocal(bs, more);
    var t := ReadTag(bs);
    if !IsEndGroup(t.tag) {
      ReadRecordLocal(t.tag, t.rest, depth, more);
      ReadGroupLocal(num, ReadRecord(t.tag, t.rest, depth).rest, depth, more);
    }
  }
}
