/** Nested messages behind length prefixes that come from caches. The caches may be right or wrong; here is what is
    written in either case, and when it is the serialised list. */
module CachedSizes {
  import opened Wire
  import opened Records
  import opened CodedOutput

  /** A nested message with payload s, written with the cached size. */
  function Prefixed(tag: nat, size: nat, s: bytes): bytes { Varint(tag) + (Varint(size) + s) }

  function ListBytes(tag: nat, ss: seq<bytes>, sizes: seq<nat>): bytes
    requires |sizes| == |ss|
  {
    if ss == [] then [] else Prefixed(tag, sizes[0], ss[0]) + ListBytes(tag, ss[1..], sizes[1..])
  }

  /** The caches agree with the payloads. */
  predicate Fresh(ss: seq<bytes>, sizes: seq<nat>)
    requires |sizes| == |ss|
  {
    forall i :: 0 <= i < |ss| ==> sizes[i] == |ss[i]|
  }

  function Lengths(ss: seq<bytes>): (sizes: seq<nat>)
    ensures |sizes| == |ss| && Fresh(ss, sizes)
  {
    seq(|ss|, i requires 0 <= i < |ss| => |ss[i]|)
  }

  function NestedRecords(num: nat, ss: seq<bytes>): seq<Record>
  {
    if ss == [] then [] else [BytesField(num, ss[0])] + NestedRecords(num, ss[1..])
  }

  lemma PrefixedFresh(num: nat, s: bytes)
    ensures Prefixed(8 * num + 2, |s|, s) == Encode(BytesField(num, s))
  {
  }

  lemma {:induction false} ListFresh(num: nat, ss: seq<bytes>, sizes: seq<nat>)
    requires |sizes| == |ss| && Fresh(ss, sizes)
    ensures ListBytes(8 * num + 2, ss, sizes) == EncodeAll(NestedRecords(num, ss))
    decreases |ss|
  {
    hide Encode, Prefixed;
    if ss != [] {
      ListFresh(num, ss[1..], sizes[1..]);
      PrefixedFresh(num, ss[0]);
      assert NestedRecords(num, ss)[1..] == NestedRecords(num, ss[1..]);
    }
  }

  lemma NoList(tag: nat)
    ensures ListBytes(tag, [], []) == []
  {
  }

  /** One more message at the end. */
  lemma {:induction false} ListSnoc(tag: nat, ss: seq<bytes>, sizes: seq<nat>, s: bytes, size: nat)
    requires |sizes| == |ss|
    ensures ListBytes(tag, ss + [s], sizes + [size]) == ListBytes(tag, ss, sizes) + Prefixed(tag, size, s)
    decreases |ss|
  {
    hide Prefixed;
    if ss == [] {
      assert ss + [s] == [s] && sizes + [size] == [size] && [s][1..] == [] && [size][1..] == [];
      NoList(tag);
      assert ListBytes(tag, [s], [size]) == Prefixed(tag, size, s) + ListBytes(tag, [s][1..], [size][1..]);
    } else {
      assert (ss + [s])[1..] == ss[1..] + [s] && (sizes + [size])[1..] == sizes[1..] + [size];
      ListSnoc(tag, ss[1..], sizes[1..], s, size);
      ConcatAssoc(Prefixed(tag, sizes[0], ss[0]), ListBytes(tag, ss[1..], sizes[1..]), Prefixed(tag, size, s));
    }
  }

  lemma OneMore(tag: nat, ss: seq<bytes>, sizes: seq<nat>, i: nat)
    requires |sizes| == |ss| && i < |ss|
    ensures ListBytes(tag, ss[..i + 1], sizes[..i + 1])
         == ListBytes(tag, ss[..i], sizes[..i]) + Prefixed(tag, sizes[i], ss[i])
  {
    hide ListBytes, Prefixed;
    assert ss[..i] + [ss[i]] == ss[..i + 1] && sizes[..i] + [sizes[i]] == sizes[..i + 1];
    ListSnoc(tag, ss[..i], sizes[..i], ss[i], sizes[i]);
  }

  /** The same behind what has been written before, part by part. */
  lemma OneMoreWritten(before: bytes, tag: nat, ss: seq<bytes>, sizes: seq<nat>, i: nat)
    requires |sizes| == |ss| && i < |ss|
    ensures before + ListBytes(tag, ss[..i], sizes[..i]) + Varint(tag) + Varint(sizes[i]) + ss[i]
         == before + ListBytes(tag, ss[..i + 1], sizes[..i + 1])
  {
    hide ListBytes, Varint;
    OneMore(tag, ss, sizes, i);
    var x, done := before + ListBytes(tag, ss[..i], sizes[..i]), ListBytes(tag, ss[..i], sizes[..i]);
    ConcatAssoc(before, done, Prefixed(tag, sizes[i], ss[i]));
    PrefixedInParts(x, tag, sizes[i], ss[i]);
  }

  lemma PrefixedInParts(before: bytes, tag: nat, size: nat, s: bytes)
    ensures before + Varint(tag) + Varint(size) + s == before + Prefixed(tag, size, s)
  {
    hide Varint;
    ConcatAssoc(before, Varint(tag), Varint(size));
    ConcatAssoc(before, Varint(tag) + Varint(size), s);
    ConcatAssoc(Varint(tag), Varint(size), s);
  }

  /** Each message lies within the bytes of the whole list. */
  lemma {:induction false} OneFits(tag: nat, ss: seq<bytes>, sizes: seq<nat>, i: nat)
    requires |sizes| == |ss| && i < |ss|
    ensures |ListBytes(tag, ss[..i], sizes[..i])| + |Prefixed(tag, sizes[i], ss[i])| <= |ListBytes(tag, ss, sizes)|
    decreases |ss|
  {
    hide Prefixed, ListBytes;
    var n := |ss| - 1;
    OneMore(tag, ss, sizes, n);
    assert ss[..n + 1] == ss && sizes[..n + 1] == sizes;
    if i < n {
      assert ss[..n][..i] == ss[..i] && sizes[..n][..i] == sizes[..i];
      OneFits(tag, ss[..n], sizes[..n], i);
    }
  }

  lemma PrefixedSize(tag: nat, size: nat, s: bytes)
    requires tag < 128
    ensures |Prefixed(tag, size, s)| == 1 + VarintSize(size) + |s|
  {
  }

  // ---- The caches can be read off the bytes --------------------------------------------------------------

  /** Varints delimit themselves: two writings of the same tag agree only if their cached sizes do. */
  lemma PrefixedSameSize(tag: nat, a: nat, s: bytes, x: bytes, b: nat, t: bytes, y: bytes)
    requires Prefixed(tag, a, s) + x == Prefixed(tag, b, t) + y
    ensures a == b && s + x == t + y
  {
    hide Varint;
    ConcatAssoc(Varint(tag), Varint(a) + s, x);
    ConcatAssoc(Varint(a), s, x);
    ConcatAssoc(Varint(tag), Varint(b) + t, y);
    ConcatAssoc(Varint(b), t, y);
    VarintPrefixFree(tag, tag, Varint(a) + (s + x), Varint(b) + (t + y));
    VarintPrefixFree(a, b, s + x, t + y);
  }

  lemma PrefixedInjective(tag: nat, a: nat, b: nat, s: bytes, x: bytes, y: bytes)
    requires Prefixed(tag, a, s) + x == Prefixed(tag, b, s) + y
    ensures a == b && x == y
  {
    hide Prefixed;
    PrefixedSameSize(tag, a, s, x, b, s, y);
    assert x == (s + x)[|s|..] && y == (s + y)[|s|..];
  }

  lemma {:induction false} ListInjective(tag: nat, ss: seq<bytes>, a: seq<nat>, b: seq<nat>, x: bytes, y: bytes)
    requires |a| == |ss| == |b| && ListBytes(tag, ss, a) + x == ListBytes(tag, ss, b) + y
    ensures a == b && x == y
    decreases |ss|
  {
    hide Prefixed;
    if ss == [] {
      assert [] + x == x && [] + y == y;
    } else {
      var ra, rb := ListBytes(tag, ss[1..], a[1..]), ListBytes(tag, ss[1..], b[1..]);
      ConcatAssoc(Prefixed(tag, a[0], ss[0]), ra, x);
      ConcatAssoc(Prefixed(tag, b[0], ss[0]), rb, y);
      PrefixedInjective(tag, a[0], b[0], ss[0], ra + x, rb + y);
      ListInjective(tag, ss[1..], a[1..], b[1..], x, y);
      assert a == [a[0]] + a[1..] && b == [b[0]] + b[1..];
    }
  }

  lemma SameAsLengths(ss: seq<bytes>, sizes: seq<nat>)
    requires |sizes| == |ss|
    ensures Fresh(ss, sizes) <==> sizes == Lengths(ss)
  {
  }

  /** The tag and the cached size in front of a nested message. */
  method PrefixToArray(tag: nat, size: nat, target: array<byte>, at: nat) returns (mid: nat)
    requires at + |Varint(tag)| + |Varint(size)| <= target.Length
    modifies target
    ensures Wrote(old(target[..]), target[..], at, mid, Varint(tag) + Varint(size))
  {
    hide Varint, Wrote;
    ghost var before := target[..];
    var next := VarintToArray(tag, target, at);
    ghost var between := target[..];
    WroteLength(before, between, at, next, Varint(tag));
    mid := VarintToArray(size, target, next);
    WroteTwice(before, between, target[..], at, next, mid, Varint(tag), Varint(size));
  }
}
