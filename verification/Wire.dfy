/** The scalar encodings of the wire format: base-128 varints, little-endian fixed-width
    integers, the two's-complement and zigzag views of signed integers. */
module Wire {

  type byte = b: int | 0 <= b < 256
  type bytes = seq<byte>

  const TWO31: int := 0x8000_0000
  const TWO32: int := 0x1_0000_0000
  const TWO63: int := 0x8000_0000_0000_0000
  const TWO64: int := 0x1_0000_0000_0000_0000

  type uint32 = x: nat | x < TWO32
  type uint64 = x: nat | x < TWO64
  type int32 = x: int | -TWO31 <= x < TWO31
  type int64 = x: int | -TWO63 <= x < TWO63

  datatype Option<+T> = None | Some(value: T)

  /** The outcome of reading one item from the front of a byte string. */
  datatype Read<+T> = Bad | Got(value: T, rest: bytes)

  /** The text of an ASCII literal as bytes. */
  function Ascii(s: string): (r: bytes)
    requires forall i :: 0 <= i < |s| ==> s[i] < 128 as char
    ensures |r| == |s| && forall i :: 0 <= i < |s| ==> r[i] == s[i] as int
  {
    seq(|s|, i requires 0 <= i < |s| => s[i] as int)
  }

  lemma AsciiInjective(s: string, t: string)
    requires forall i :: 0 <= i < |s| ==> s[i] < 128 as char
    requires forall i :: 0 <= i < |t| ==> t[i] < 128 as char
    ensures Ascii(s) == Ascii(t) ==> s == t
  {
    if Ascii(s) == Ascii(t) {
      forall i | 0 <= i < |s| ensures s[i] == t[i] { assert Ascii(s)[i] == Ascii(t)[i]; }
    }
  }

  // ---- Varints -----------------------------------------------------------------------

  /** The canonical (shortest) varint of v. */
  function Varint(v: nat): (r: bytes)
    ensures |r| >= 1
  {
    if v < 128 then [v] else [v % 128 + 128] + Varint(v / 128)
  }

  /** The same length, computed without building the bytes. */
  function VarintSize(v: nat): (n: nat)
    ensures n == |Varint(v)|
  {
    if v < 128 then 1 else 1 + VarintSize(v / 128)
  }

  /** Decodes a varint that may use at most `room` bytes. */
  function VarintTail(bs: bytes, room: nat): (r: Read<nat>)
    ensures r.Got? ==> |r.rest| < |bs|
    decreases room
  {
    if bs == [] || room == 0 then Bad
    else if bs[0] < 128 then Got(bs[0], bs[1..])
    else
      match VarintTail(bs[1..], room - 1)
      case Bad => Bad
      case Got(v, rest) => Got(bs[0] - 128 + 128 * v, rest)
  }

  /** A varint of at most ten bytes, of which the low 64 bits are kept. */
  function ReadVarint(bs: bytes): (r: Read<uint64>)
    ensures r.Got? ==> |r.rest| < |bs|
  {
    match VarintTail(bs, 10)
    case Bad => Bad
    case Got(v, rest) => Got(v % TWO64, rest)
  }

  lemma {:induction false} VarintTailRoundTrip(v: nat, room: nat, tail: bytes)
    requires |Varint(v)| <= room
    ensures VarintTail(Varint(v) + tail, room) == Got(v, tail)
    decreases room
  {
    var bs := Varint(v) + tail;
    if v < 128 {
      assert bs[1..] == tail;
    } else {
      assert bs[1..] == Varint(v / 128) + tail;
      VarintTailRoundTrip(v / 128, room - 1, tail);
    }
  }

  function Pow128(k: nat): nat { if k == 0 then 1 else 128 * Pow128(k - 1) }

  lemma {:induction false} VarintFits(v: nat, k: nat)
    requires v < Pow128(k)
    ensures |Varint(v)| <= if k == 0 then 1 else k
  {
    if v >= 128 { VarintFits(v / 128, k - 1); }
  }

  lemma VarintAtMostTen(v: uint64)
    ensures |Varint(v)| <= 10
  {
    assert Pow128(5) == 0x8_0000_0000;
    assert Pow128(10) == 0x40_0000_0000_0000_0000;
    VarintFits(v, 10);
  }

  /** Every 64-bit value survives a write and a read, and the bytes after it are untouched. */
  lemma VarintRoundTrip(v: uint64, tail: bytes)
    ensures ReadVarint(Varint(v) + tail) == Got(v, tail)
  {
    VarintAtMostTen(v);
    VarintTailRoundTrip(v, 10, tail);
    assert VarintTail(Varint(v) + tail, 10) == Got(v, tail);
    assert v % TWO64 == v;
  }

  /** Reading looks at nothing behind the varint itself. */
  lemma {:induction false} VarintTailLocal(bs: bytes, room: nat, more: bytes)
    requires VarintTail(bs, room).Got?
    ensures VarintTail(bs + more, room) == Got(VarintTail(bs, room).value, VarintTail(bs, room).rest + more)
    decreases room
  {
    if bs[0] < 128 {
      assert (bs + more)[1..] == bs[1..] + more;
    } else {
      assert (bs + more)[1..] == bs[1..] + more;
      VarintTailLocal(bs[1..], room - 1, more);
    }
  }

  lemma {:induction false} VarintMonotone(a: nat, b: nat)
    requires a <= b
    ensures |Varint(a)| <= |Varint(b)|
    decreases b
  {
    if a >= 128 { VarintMonotone(a / 128, b / 128); }
  }

  /** No encoding of a value is shorter than the canonical one. */
  lemma {:induction false} VarintTailShortest(bs: bytes, room: nat)
    requires VarintTail(bs, room).Got?
    ensures |Varint(VarintTail(bs, room).value)| <= |bs| - |VarintTail(bs, room).rest|
    decreases room
  {
    if bs[0] >= 128 {
      VarintTailShortest(bs[1..], room - 1);
      var v := VarintTail(bs[1..], room - 1).value;
      var w := bs[0] - 128 + 128 * v;
      if w >= 128 { assert w / 128 == v; }
    }
  }

  lemma ReadVarintShortest(bs: bytes)
    requires ReadVarint(bs).Got?
    ensures |Varint(ReadVarint(bs).value)| <= |bs| - |ReadVarint(bs).rest|
  {
    VarintTailShortest(bs, 10);
    VarintMonotone(VarintTail(bs, 10).value % TWO64, VarintTail(bs, 10).value);
  }

  /** Two varints that start two equal byte strings are the same number: varints are
      self-delimiting. */
  lemma VarintPrefixFree(a: nat, b: nat, x: bytes, y: bytes)
    requires Varint(a) + x == Varint(b) + y
    ensures a == b && x == y
  {
    VarintTailRoundTrip(a, |Varint(a)| + |Varint(b)|, x);
    VarintTailRoundTrip(b, |Varint(a)| + |Varint(b)|, y);
  }

  /** What the low seven bits of the first n bytes amount to, the first byte being the least significant. */
  function GroupSum(bs: bytes, n: nat): nat
    requires n <= |bs|
  {
    if n == 0 then 0 else GroupSum(bs, n - 1) + bs[n - 1] % 128 * Pow128(n - 1)
  }

  /** A varint is the bytes up to the first one below 128, and its value the sum of their seven-bit groups. */
  lemma {:induction false} VarintIsSum(bs: bytes, room: nat)
    requires VarintTail(bs, room).Got?
    ensures var r := VarintTail(bs, room);
            var n := |bs| - |r.rest|;
            0 < n <= room && r.rest == bs[n..] && bs[n - 1] < 128 && (forall i :: 0 <= i < n - 1 ==> bs[i] >= 128) &&
            r.value == GroupSum(bs, n)
    decreases room
  {
    if bs[0] < 128 {
      assert GroupSum(bs, 1) == GroupSum(bs, 0) + bs[0] % 128 * Pow128(0);
    } else {
      VarintIsSum(bs[1..], room - 1);
      var n := |bs[1..]| - |VarintTail(bs[1..], room - 1).rest|;
      GroupSumCons(bs, n);
      assert forall i :: 0 < i < n ==> bs[i] == bs[1..][i - 1];
    }
  }

  lemma {:induction false} GroupSumCons(bs: bytes, n: nat)
    requires n < |bs|
    ensures GroupSum(bs, n + 1) == bs[0] % 128 + 128 * GroupSum(bs[1..], n)
  {
    if n == 0 {
      assert GroupSum(bs, 1) == GroupSum(bs, 0) + bs[0] % 128 * Pow128(0);
    } else {
      GroupSumCons(bs, n - 1);
      var g, p := bs[n] % 128, Pow128(n - 1);
      assert bs[1..][n - 1] == bs[n];
      assert g * (128 * p) == 128 * (g * p);
    }
  }

  // ---- Fixed-width integers ------------------------------------------------------------

  function Fixed(v: nat, n: nat): (r: bytes)
    ensures |r| == n
  {
    if n == 0 then [] else [v % 256] + Fixed(v / 256, n - 1)
  }

  function FixedValue(bs: bytes): nat
  {
    if bs == [] then 0 else bs[0] + 256 * FixedValue(bs[1..])
  }

  /** Little-endian: the byte at position i counts 256^i. */
  function ByteSum(bs: bytes, n: nat): nat
    requires n <= |bs|
  {
    if n == 0 then 0 else ByteSum(bs, n - 1) + bs[n - 1] * Pow256(n - 1)
  }

  lemma {:induction false} FixedIsSum(bs: bytes)
    ensures FixedValue(bs) == ByteSum(bs, |bs|)
  {
    if bs != [] {
      FixedIsSum(bs[1..]);
      ByteSumCons(bs, |bs| - 1);
    }
  }

  lemma {:induction false} ByteSumCons(bs: bytes, n: nat)
    requires n < |bs|
    ensures ByteSum(bs, n + 1) == bs[0] + 256 * ByteSum(bs[1..], n)
  {
    if n == 0 {
      assert ByteSum(bs, 1) == ByteSum(bs, 0) + bs[0] * Pow256(0);
    } else {
      ByteSumCons(bs, n - 1);
      var b, p := bs[n], Pow256(n - 1);
      assert bs[1..][n - 1] == b;
      assert b * (256 * p) == 256 * (b * p);
    }
  }

  function Pow256(n: nat): nat { if n == 0 then 1 else 256 * Pow256(n - 1) }

  lemma {:induction false} FixedInverse(v: nat, n: nat)
    requires v < Pow256(n)
    ensures FixedValue(Fixed(v, n)) == v
  {
    if n > 0 {
      assert Fixed(v, n)[1..] == Fixed(v / 256, n - 1);
      FixedInverse(v / 256, n - 1);
    }
  }

  lemma {:induction false} FixedValueBound(bs: bytes)
    ensures FixedValue(bs) < Pow256(|bs|)
  {
    if bs != [] { FixedValueBound(bs[1..]); }
  }

  /** The n-byte little-endian integer at the front. */
  function ReadFixed(bs: bytes, n: nat): (r: Read<nat>)
    ensures r.Got? ==> |r.rest| == |bs| - n && r.value < Pow256(n)
  {
    if |bs| < n then Bad
    else
      FixedValueBound(bs[..n]);
      Got(FixedValue(bs[..n]), bs[n..])
  }

  lemma Pow256Values()
    ensures Pow256(4) == TWO32 && Pow256(8) == TWO64
  {
    assert Pow256(4) == 0x1_0000_0000;
    assert Pow256(8) == 0x1_0000_0000_0000_0000;
  }

  function ReadFixed64(bs: bytes): (r: Read<uint64>)
  {
    Pow256Values();
    match ReadFixed(bs, 8) case Bad => Bad case Got(v, rest) => Got(v, rest)
  }

  lemma FixedRoundTrip(v: nat, n: nat, tail: bytes)
    requires v < Pow256(n)
    ensures ReadFixed(Fixed(v, n) + tail, n) == Got(v, tail)
  {
    assert (Fixed(v, n) + tail)[..n] == Fixed(v, n);
    assert (Fixed(v, n) + tail)[n..] == tail;
    FixedInverse(v, n);
  }

  // ---- Signed integers -----------------------------------------------------------------

  /** Two's complement: how a negative integer travels as a 64-bit varint. */
  function ToU64(i: int64): uint64 { if i < 0 then i + TWO64 else i }
  function ToI64(u: uint64): int64 { if u < TWO63 then u else u - TWO64 }

  /** What remains of a varint read into a 32-bit signed variable. */
  function ToI32(u: nat): int32 { var w := u % TWO32; if w < TWO31 then w else w - TWO32 }

  function Zigzag(i: int64): uint64 { if i < 0 then -2 * i - 1 else 2 * i }
  function Unzigzag(u: uint64): int64 { if u % 2 == 0 then u / 2 else -(u / 2) - 1 }

  lemma SignedRoundTrips(i: int64, u: uint64)
    ensures ToI64(ToU64(i)) == i && ToU64(ToI64(u)) == u
    ensures Unzigzag(Zigzag(i)) == i && Zigzag(Unzigzag(u)) == u
  {
  }

  /** Both views of one 64-bit word are the same number modulo 2^64, and the low 32 bits decide an int32. */
  lemma SignedViews(i: int64, u: uint64)
    ensures ToU64(i) % TWO64 == i % TWO64 && ToI64(u) % TWO64 == u % TWO64
    ensures ToI32(u) % TWO32 == u % TWO32
  {
  }

  /** The zigzag order: 0, -1, 1, -2, 2, and so on. */
  lemma ZigzagOrder(k: nat)
    requires 2 * k + 2 < TWO64
    ensures Unzigzag(0) == 0
    ensures Unzigzag(2 * k + 1) == -Unzigzag(2 * k) - 1
    ensures Unzigzag(2 * k + 2) == -Unzigzag(2 * k + 1)
  {
  }

  lemma Int32RoundTrip(i: int32, u: nat)
    ensures ToI32(ToU64(i)) == i
    ensures ToI32(ToU64(ToI32(u))) == ToI32(u)
  {
    if i < 0 {
      assert ToU64(i) == (i + TWO32) + (TWO32 - 1) * TWO32;
      assert ToU64(i) % TWO32 == i + TWO32;
    }
    var j := ToI32(u);
    if j < 0 {
      assert ToU64(j) == (j + TWO32) + (TWO32 - 1) * TWO32;
      assert ToU64(j) % TWO32 == j + TWO32;
    }
  }
}
