/** telemetry.DataEncodingReply: one repeated enum field, written packed, read packed or not. The message is the
    list itself. */
module DataEncoding {
  import opened Wire
  import opened Records
  import opened PlainLoop
  import opened CodedStream
  import opened CodedOutput
  import opened PredictedLoop

  // ---- Reading -----------------------------------------------------------------------------------------

  /** A packed run: varints up to the end of the payload. */
  function ReadPacked(s: bytes): Option<seq<int32>>
    decreases |s|
  {
    if s == [] then Some([])
    else
      match ReadVarint(s)
      case Bad => None
      case Got(v, rest) => InFront(ToI32(v), ReadPacked(rest))
  }

  function InFront(x: int32, o: Option<seq<int32>>): Option<seq<int32>>
  {
    if o.None? then None else Some([x] + o.value)
  }

  function Behind(m: seq<int32>, o: Option<seq<int32>>): Option<seq<int32>>
  {
    if o.None? then None else Some(m + o.value)
  }

  function HandleReply(m: seq<int32>, r: Record, depth: nat): Option<seq<int32>>
  {
    match r
    case BytesField(1, s) => Behind(m, ReadPacked(s))
    case VarintField(1, v) => Some(m + [ToI32(v)])
    case _ => Some(m)
  }

  // ---- Writing -----------------------------------------------------------------------------------------

  function PackedBytes(xs: seq<int32>): bytes
  {
    if xs == [] then [] else Varint(ToU64(xs[0])) + PackedBytes(xs[1..])
  }

  function SerializeReply(xs: seq<int32>): bytes
  {
    if xs == [] then [] else Encode(BytesField(1, PackedBytes(xs)))
  }

  // ---- Packed and unpacked agree -----------------------------------------------------------------------------

  lemma {:induction false} PackedRoundTrip(xs: seq<int32>)
    ensures ReadPacked(PackedBytes(xs)) == Some(xs)
  {
    hide ReadVarint, ToI32, ToU64, Varint;
    if xs != [] {
      VarintRoundTrip(ToU64(xs[0]), PackedBytes(xs[1..]));
      Int32RoundTrip(xs[0], 0);
      PackedRoundTrip(xs[1..]);
      var s := PackedBytes(xs);
      assert s != [] && ReadVarint(s) == Got(ToU64(xs[0]), PackedBytes(xs[1..]));
      assert [xs[0]] + xs[1..] == xs;
    }
  }

  /** One field of a message as some writer may have put it: a packed run of any length, empty ones included, a
      single element, or a field that is none of this message's. */
  datatype Item = Packed(xs: seq<int32>) | Single(x: int32) | Other(r: Record)

  predicate Foreign(r: Record) { r.num != 1 || !(r.BytesField? || r.VarintField?) }

  predicate AllForeign(items: seq<Item>)
  {
    forall i :: 0 <= i < |items| && items[i].Other? ==> Foreign(items[i].r)
  }

  function ItemRecord(i: Item): Record
  {
    match i
    case Packed(xs) => BytesField(1, PackedBytes(xs))
    case Single(x) => VarintField(1, ToU64(x))
    case Other(r) => r
  }

  function ItemElements(i: Item): seq<int32>
  {
    match i
    case Packed(xs) => xs
    case Single(x) => [x]
    case Other(_) => []
  }

  function ItemRecords(items: seq<Item>): seq<Record>
  {
    if items == [] then [] else [ItemRecord(items[0])] + ItemRecords(items[1..])
  }

  function Flat(items: seq<Item>): seq<int32>
  {
    if items == [] then [] else ItemElements(items[0]) + Flat(items[1..])
  }

  lemma ItemHandled(m: seq<int32>, i: Item, depth: nat)
    requires i.Other? ==> Foreign(i.r)
    ensures HandleReply(m, ItemRecord(i), depth) == Some(m + ItemElements(i))
  {
    hide ReadPacked, PackedBytes, ToI32, ToU64;
    match i
    case Packed(xs) => PackedRoundTrip(xs);
    case Single(x) => Int32RoundTrip(x, 0);
    case Other(_) => assert m + [] == m;
  }

  lemma {:induction false} ItemsFold(m: seq<int32>, items: seq<Item>, depth: nat)
    requires AllForeign(items)
    ensures Fold(HandleReply, m, ItemRecords(items), depth) == Some(m + Flat(items))
    decreases |items|
  {
    hide HandleReply, ItemRecord, ItemElements;
    if items == [] {
      assert m + [] == m;
    } else {
      var m' := m + ItemElements(items[0]);
      ItemHandled(m, items[0], depth);
      ItemsFold(m', items[1..], depth);
      assert m' + Flat(items[1..]) == m + Flat(items);
      assert ItemRecords(items)[0] == ItemRecord(items[0]) && ItemRecords(items)[1..] == ItemRecords(items[1..]);
    }
  }

  /** Whatever mixture of packed runs, single elements and other fields the elements arrive in, the list read is
      their concatenation in order. */
  lemma AnyMixture(m: seq<int32>, items: seq<Item>, depth: nat)
    requires AllForeign(items) && AllFit(ItemRecords(items), depth)
    ensures Whole(HandleReply, m, EncodeAll(ItemRecords(items)), depth) == Some(m + Flat(items))
  {
    hide Fold, Whole, HandleReply, ItemRecords;
    WholeWritten(HandleReply, m, ItemRecords(items), depth);
    ItemsFold(m, items, depth);
  }

  /** The message's own writer: reading what it wrote appends exactly its list. */
  lemma ReplyRoundTrip(m: seq<int32>, xs: seq<int32>, depth: nat)
    requires |SerializeReply(xs)| < TWO31
    ensures Whole(HandleReply, m, SerializeReply(xs), depth) == Some(m + xs)
  {
    hide HandleReply;
    if xs == [] {
      assert m + [] == m;
    } else {
      var r := ItemRecord(Packed(xs));
      EncodeOne(r);
      PlainFits([r], depth);
      assert [Packed(xs)][1..] == [];
      assert ItemRecords([Packed(xs)][1..]) == [] && Flat([Packed(xs)][1..]) == [];
      assert ItemRecords([Packed(xs)]) == [r] && Flat([Packed(xs)]) == xs;
      AnyMixture(m, [Packed(xs)], depth);
    }
  }

  /** MergeFrom. */
  function Append(x: seq<int32>, y: seq<int32>): seq<int32> { x + y }

  /** What a message already holds stays in front. */
  lemma ReplyCommutes()
    ensures Commutes(HandleReply, HandleReply, Append)
  {
    hide ReadPacked, ToI32;
    forall x: seq<int32>, y: seq<int32>, r: Record, depth: nat
      ensures HandleReply(Append(x, y), r, depth) == MergedInto(Append, x, HandleReply(y, r, depth))
    {
      if HandleReply(y, r, depth).Some? { assert forall a: seq<int32> :: x + y + a == x + (y + a); }
    }
  }

  /** Concatenation is merge, for all byte strings: two complete messages read one after the other give the two
      lists one after the other. */
  lemma ReplyConcatIsMerge(a: bytes, b: bytes, depth: nat)
    requires Whole(HandleReply, [], a, depth).Some? && Whole(HandleReply, [], b, depth).Some?
    ensures Whole(HandleReply, [], a + b, depth)
         == Some(Whole(HandleReply, [], a, depth).value + Whole(HandleReply, [], b, depth).value)
  {
    hide HandleReply, Whole, Commutes;
    ReplyCommutes();
    var x := Whole(HandleReply, [], a, depth).value;
    assert x + [] == x;
    ConcatIsMerge(HandleReply, Append, [], a, b, depth);
  }

  // ---- The cached size of the run --------------------------------------------------------------------------------

  /** What the writers write, given the cached byte size of the run. */
  function WrittenReply(xs: seq<int32>, cached: nat): bytes
  {
    if xs == [] then [] else Varint(10) + (Varint(cached) + PackedBytes(xs))
  }

  /** The bytes are the serialised message exactly if the list is empty or the cached size is right. */
  lemma WrittenReplyIff(xs: seq<int32>, cached: nat)
    ensures WrittenReply(xs, cached) == SerializeReply(xs) <==> xs == [] || cached == |PackedBytes(xs)|
  {
    hide PackedBytes, Varint;
    var p := PackedBytes(xs);
    assert Encode(BytesField(1, p)) == Varint(10) + (Varint(|p|) + p);
    if xs != [] && WrittenReply(xs, cached) == SerializeReply(xs) {
      VarintPrefixFree(10, 10, Varint(cached) + p, Varint(|p|) + p);
      VarintPrefixFree(cached, |p|, p, p);
    }
  }

  lemma {:induction false} PackedSnoc(xs: seq<int32>, x: int32)
    ensures PackedBytes(xs + [x]) == PackedBytes(xs) + Varint(ToU64(x))
    decreases |xs|
  {
    hide Varint;
    if xs == [] {
      assert xs + [x] == [x] && [x][1..] == [] && PackedBytes([]) == [];
    } else {
      assert (xs + [x])[1..] == xs[1..] + [x];
      PackedSnoc(xs[1..], x);
      ConcatAssoc(Varint(ToU64(xs[0])), PackedBytes(xs[1..]), Varint(ToU64(x)));
    }
  }

  lemma PackedPrefix(xs: seq<int32>, i: nat)
    requires i < |xs|
    ensures PackedBytes(xs[..i + 1]) == PackedBytes(xs[..i]) + Varint(ToU64(xs[i]))
  {
    hide PackedBytes, Varint;
    assert xs[..i + 1] == xs[..i] + [xs[i]];
    PackedSnoc(xs[..i], xs[i]);
  }

  lemma {:induction false} PackedPrefixLength(xs: seq<int32>, i: nat)
    requires i <= |xs|
    ensures |PackedBytes(xs[..i])| <= |PackedBytes(xs)|
    decreases |xs| - i
  {
    hide PackedBytes, Varint;
    if i < |xs| {
      PackedPrefix(xs, i);
      PackedPrefixLength(xs, i + 1);
    } else {
      assert xs[..i] == xs;
    }
  }

  lemma PackedNothing()
    ensures PackedBytes([]) == []
  {
  }

  // ---- The class ----------------------------------------------------------------------------------------------------

  class DataEncodingReplyMessage {
    var list: seq<int32>
    var listCachedByteSize: nat
    var cachedSize: nat

    constructor ()
      ensures list == []
    {
      list, listCachedByteSize, cachedSize := [], 0, 0;
    }

    method Clear()
      modifies this`list
      ensures list == []
    {
      list := [];
    }

    method Add(x: int32)
      modifies this`list
      ensures list == old(list) + [x]
    {
      list := list + [x];
    }

    method MergeFrom(from: DataEncodingReplyMessage)
      requires from != this
      modifies this`list
      ensures list == old(list) + from.list
    {
      list := list + from.list;
    }

    method CopyFrom(from: DataEncodingReplyMessage)
      modifies this`list
      ensures list == old(from.list)
    {
      if from == this { return; }
      Clear();
      MergeFrom(from);
    }

    /** Computes the size, and caches the size of the run for the writers. */
    method ByteSize() returns (total: nat)
      modifies this`listCachedByteSize, this`cachedSize
      ensures total == cachedSize == |SerializeReply(list)| && listCachedByteSize == |PackedBytes(list)|
      ensures WrittenReply(list, listCachedByteSize) == SerializeReply(list)
    {
      hide PackedBytes, Varint, VarintSize, ToU64;
      var dataSize := 0;
      PackedNothing();
      assert list[..0] == [];
      for i := 0 to |list|
        invariant dataSize == |PackedBytes(list[..i])|
        invariant i > 0 ==> dataSize > 0
      {
        PackedPrefix(list, i);
        dataSize := dataSize + VarintSize(ToU64(list[i]));
      }
      assert list[..|list|] == list;
      total := 0;
      if dataSize > 0 { total := total + 1 + VarintSize(dataSize); }
      listCachedByteSize := dataSize;
      total := total + dataSize;
      cachedSize := total;
      WrittenReplyIff(list, dataSize);
      TagTen();
      assert Encode(BytesField(1, PackedBytes(list))) == Varint(10) + (Varint(dataSize) + PackedBytes(list));
    }

    method SerializeWithCachedSizes(output: CodedOutputStream)
      modifies output
      ensures output.out == old(output.out) + WrittenReply(list, listCachedByteSize)
    {
      hide PackedBytes, Varint, ToU64;
      ghost var before := output.out;
      if |list| > 0 {
        output.WriteVarint(10);
        output.WriteVarint(listCachedByteSize);
      }
      ghost var head := output.out;
      PackedNothing();
      assert list[..0] == [] && head + [] == head;
      for i := 0 to |list|
        invariant output.out == head + PackedBytes(list[..i])
      {
        output.WriteVarint(ToU64(list[i]));
        PackedPrefix(list, i);
        ConcatAssoc(head, PackedBytes(list[..i]), Varint(ToU64(list[i])));
      }
      assert list[..|list|] == list;
      if |list| > 0 {
        ConcatAssoc(before, Varint(10), Varint(listCachedByteSize));
        ConcatAssoc(before, Varint(10) + Varint(listCachedByteSize), PackedBytes(list));
        ConcatAssoc(Varint(10), Varint(listCachedByteSize), PackedBytes(list));
      } else {
        assert before + [] == before;
      }
    }

    /** The tag and the cached size, if there are elements. */
    method HeadToArray(target: array<byte>, at: nat) returns (end: nat)
      requires at + |WrittenReply(list, listCachedByteSize)| <= target.Length
      modifies target
      ensures Wrote(old(target[..]), target[..], at, end,
                    if list == [] then [] else Varint(10) + Varint(listCachedByteSize))
    {
      hide PackedBytes, Varint, Wrote;
      ghost var before := target[..];
      end := at;
      WroteNothing(before, at);
      if |list| > 0 {
        end := VarintToArray(10, target, at);
        ghost var between := target[..];
        var mid := end;
        WroteLength(before, between, at, mid, Varint(10));
        end := VarintToArray(listCachedByteSize, target, mid);
        WroteTwice(before, between, target[..], at, mid, end, Varint(10), Varint(listCachedByteSize));
      }
    }

    method SerializeWithCachedSizesToArray(target: array<byte>, at: nat) returns (end: nat)
      requires at + |WrittenReply(list, listCachedByteSize)| <= target.Length
      modifies target
      ensures Wrote(old(target[..]), target[..], at, end, WrittenReply(list, listCachedByteSize))
    {
      hide PackedBytes, Varint, ToU64, Wrote;
      ghost var before := target[..];
      ghost var head := if list == [] then [] else Varint(10) + Varint(listCachedByteSize);
      end := HeadToArray(target, at);
      PackedNothing();
      assert list[..0] == [] && head + [] == head;
      for i := 0 to |list|
        invariant Wrote(before, target[..], at, end, head + PackedBytes(list[..i]))
      {
        ghost var done := head + PackedBytes(list[..i]);
        ghost var between, mid := target[..], end;
        WroteLength(before, between, at, mid, done);
        PackedPrefix(list, i);
        PackedPrefixLength(list, i + 1);
        end := VarintToArray(ToU64(list[i]), target, end);
        WroteTwice(before, between, target[..], at, mid, end, done, Varint(ToU64(list[i])));
        ConcatAssoc(head, PackedBytes(list[..i]), Varint(ToU64(list[i])));
      }
      assert list[..|list|] == list;
      if |list| > 0 { ConcatAssoc(Varint(10), Varint(listCachedByteSize), PackedBytes(list)); }
    }

    // ---- The parser ------------------------------------------------------------------------------------------------

    /** A packed run. The limit is pushed to its end, so no element is read past it, and popped again. */
    method ReadRun(input: CodedInputStream, ghost depth: nat) returns (ok: bool)
      requires input.Valid() && input.budget == depth
      modifies this`list, input`pos, input`limit
      ensures FieldRead(AfterTag(HandleReply, old(list), 10, old(input.Rest()), depth),
                        HandleReply, ok, list, input, old(input.Rest()),
                        old(input.limit), old(input.budget), depth)
    {
      hide Parse, AfterTag, ReadPacked, ReadVarint, ReadBytes;
      TurnBytes(HandleReply, list, 10, input.Rest(), depth);
      var oldLimit;
      ok, oldLimit := input.ReadLengthAndPushLimit();
      if !ok { return; }
      ghost var whole := Behind(list, ReadPacked(input.Rest()));
      ghost var inner := input.limit;
      while input.pos < input.limit
        invariant input.Valid() && input.limit == inner
        invariant whole == Behind(list, ReadPacked(input.Rest()))
        decreases input.limit - input.pos
      {
        ReadPackedUnfold(input.Rest());
        var v;
        ok, v := input.ReadVarint64();
        if !ok { return; }
        BehindOneMore(list, ToI32(v), ReadPacked(input.Rest()));
        Add(ToI32(v));
      }
      ReadPackedUnfold(input.Rest());
      assert list + [] == list;
      input.PopLimit(oldLimit);
    }

    method ReadSingle(input: CodedInputStream, ghost depth: nat) returns (ok: bool)
      requires input.Valid() && input.budget == depth
      modifies this`list, input`pos
      ensures FieldRead(AfterTag(HandleReply, old(list), 8, old(input.Rest()), depth),
                        HandleReply, ok, list, input, old(input.Rest()),
                        old(input.limit), old(input.budget), depth)
    {
      hide Parse, AfterTag;
      TurnVarint(HandleReply, list, 8, input.Rest(), depth);
      var v;
      ok, v := input.ReadVarint64();
      if ok { Add(ToI32(v)); }
    }

    method SkipUnknown(input: CodedInputStream, tag: uint32, ghost depth: nat) returns (ok: bool)
      requires input.Valid() && input.budget == depth && tag !in [0, 8, 10] && !IsEndGroup(tag)
      modifies input`pos, input`budget, input`atEnd
      ensures FieldRead(AfterTag(HandleReply, list, tag, old(input.Rest()), depth),
                        HandleReply, ok, list, input, old(input.Rest()),
                        old(input.limit), old(input.budget), depth)
    {
      hide Parse, AfterTag, HandleReply;
      var r;
      ok, r := ReadField(input, HandleReply, list, tag);
      if ok { Unrecognised(list, r, depth); }
    }

    /** For every byte string and every way the predictions may answer, the plain loop's verdict, list, leftover
        input and recursion budget. */
    method MergePartialFromCodedStream(input: CodedInputStream) returns (ok: bool)
      requires input.Valid() && input.budget >= 0
      modifies this, input
      ensures Agrees(Parse(HandleReply, old(list), old(input.Rest()), old(input.budget)), ok, list, input,
                     old(input.limit), old(input.budget))
    {
      hide Parse, AfterTag, HandleReply;
      ghost var depth: nat := input.budget;
      ghost var goal := Parse(HandleReply, list, input.Rest(), depth);
      while true
        invariant input.Valid() && input.budget == depth && input.limit == old(input.limit)
        invariant goal == Parse(HandleReply, list, input.Rest(), depth)
        decreases |input.Rest()|
      {
        var tag, small := TopOfLoop(input, HandleReply, list, depth);
        if small && tag == 10 {
          ok := ReadRun(input, depth);
        } else if small && tag == 8 {
          ok := ReadSingle(input, depth);
        } else {
          if tag == 0 || IsEndGroup(tag) { return true; }
          ok := SkipUnknown(input, tag, depth);
          if !ok { return; }
          continue;
        }
        if !ok { return; }
        var done := input.ExpectAtEnd();
        if done {
          TurnAtEnd(HandleReply, list, input.Rest(), depth);
          return true;
        }
      }
    }
  }

  lemma TagTen()
    ensures Varint(10) == [10]
  {
  }

  lemma ReadPackedUnfold(s: bytes)
    ensures ReadPacked(s) == if s == [] then Some([]) else PackedTurn(ReadVarint(s))
  {
  }

  function PackedTurn(r: Read<uint64>): Option<seq<int32>>
  {
    match r
    case Bad => None
    case Got(v, rest) => InFront(ToI32(v), ReadPacked(rest))
  }

  lemma BehindOneMore(m: seq<int32>, x: int32, o: Option<seq<int32>>)
    ensures Behind(m, InFront(x, o)) == Behind(m + [x], o)
  {
    if o.Some? { assert m + ([x] + o.value) == m + [x] + o.value; }
  }

  /** Records with other tags are not fields of this message. */
  lemma Unrecognised(m: seq<int32>, r: Record, depth: nat)
    requires TagOf(r) !in [8, 10]
    ensures HandleReply(m, r, depth) == Some(m)
  {
  }
}
