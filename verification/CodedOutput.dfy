/** Where the generated writers write to: a stream that grows, or an array that is filled from a
    position on. Both write the same records. */
module CodedOutput {
  import opened Wire
  import opened Records

  class CodedOutputStream {
    var out: bytes

    constructor ()
      ensures out == []
    {
      out := [];
    }

    method WriteVarint(v: nat)
      modifies this
      ensures out == old(out) + Varint(v)
    {
      var w := v;
      while w >= 128
        invariant old(out) + Varint(v) == out + Varint(w)
      {
        ghost var was := w;
        out := out + [w % 128 + 128];
        w := w / 128;
        assert Varint(was) == [was % 128 + 128] + Varint(w);
      }
      out := out + [w];
    }

    method WriteRaw(s: bytes)
      modifies this
      ensures out == old(out) + s
    {
      out := out + s;
    }

    method WriteNumber(num: nat, v: uint64)
      modifies this
      ensures out == old(out) + Encode(VarintField(num, v))
    {
      WriteVarint(8 * num);
      WriteVarint(v);
    }

    method WriteDouble(num: nat, bits: uint64)
      modifies this
      ensures out == old(out) + Encode(Fixed64Field(num, bits))
    {
      WriteVarint(8 * num + 1);
      var w: nat, n := bits, 0;
      while n < 8
        invariant n <= 8 && old(out) + Encode(Fixed64Field(num, bits)) == out + Fixed(w, 8 - n)
      {
        assert Fixed(w, 8 - n) == [w % 256] + Fixed(w / 256, 8 - n - 1);
        out := out + [w % 256];
        w := w / 256;
        n := n + 1;
      }
    }

    method WriteBytes(num: nat, s: bytes)
      modifies this
      ensures out == old(out) + Encode(BytesField(num, s))
    {
      WriteVarint(8 * num + 2);
      WriteVarint(|s|);
      WriteRaw(s);
    }
  }

  /** The only difference between `before` and `after` is that `after` holds s from `at` to `end`. */
  ghost predicate Wrote(before: bytes, after: bytes, at: nat, end: nat, s: bytes)
  {
    at <= end <= |before| && |after| == |before| && end == at + |s| &&
    after == before[..at] + s + before[end..]
  }

  /** Two writes in a row are one write of the concatenation. */
  lemma WroteTwice(before: bytes, between: bytes, after: bytes, at: nat, mid: nat, end: nat, a: bytes, b: bytes)
    requires Wrote(before, between, at, mid, a) && Wrote(between, after, mid, end, b)
    ensures Wrote(before, after, at, end, a + b)
  {
    assert between[..mid] == before[..at] + a;
    assert between[end..] == before[end..];
  }

  lemma WroteNothing(before: bytes, at: nat)
    requires at <= |before|
    ensures Wrote(before, before, at, at, [])
  {
    assert before[..at] + [] + before[at..] == before;
  }

  /** A write that fills the whole array. */
  lemma WroteAll(before: bytes, after: bytes, end: nat, s: bytes)
    requires Wrote(before, after, 0, end, s) && |before| == |s|
    ensures after == s
  {
    assert before[..0] == [] && before[end..] == [];
  }

  lemma WroteLength(before: bytes, after: bytes, at: nat, end: nat, s: bytes)
    requires Wrote(before, after, at, end, s)
    ensures |after| == |before| && end == at + |s| <= |before|
  {
  }

  method ByteToArray(b: byte, target: array<byte>, at: nat) returns (end: nat)
    requires at < target.Length
    modifies target
    ensures Wrote(old(target[..]), target[..], at, end, [b])
  {
    target[at] := b;
    end := at + 1;
  }

  method VarintToArray(v: nat, target: array<byte>, at: nat) returns (end: nat)
    requires at + |Varint(v)| <= target.Length
    modifies target
    ensures Wrote(old(target[..]), target[..], at, end, Varint(v))
  {
    var w := v;
    end := at;
    ghost var done: bytes := [];
    while w >= 128
      invariant Wrote(old(target[..]), target[..], at, end, done)
      invariant Varint(v) == done + Varint(w)
      decreases w
    {
      ghost var was := target[..];
      assert Varint(w) == [w % 128 + 128] + Varint(w / 128);
      var next := ByteToArray(w % 128 + 128, target, end);
      WroteTwice(old(target[..]), was, target[..], at, end, next, done, [w % 128 + 128]);
      done := done + [w % 128 + 128];
      end := next;
      w := w / 128;
    }
    ghost var was := target[..];
    var next := ByteToArray(w, target, end);
    WroteTwice(old(target[..]), was, target[..], at, end, next, done, [w]);
    end := next;
  }

  method RawToArray(s: bytes, target: array<byte>, at: nat) returns (end: nat)
    requires at + |s| <= target.Length
    modifies target
    ensures Wrote(old(target[..]), target[..], at, end, s)
  {
    end := at;
    var i := 0;
    while i < |s|
      invariant i <= |s| && end == at + i
      invariant Wrote(old(target[..]), target[..], at, end, s[..i])
    {
      ghost var was := target[..];
      var next := ByteToArray(s[i], target, end);
      WroteTwice(old(target[..]), was, target[..], at, end, next, s[..i], [s[i]]);
      assert s[..i] + [s[i]] == s[..i + 1];
      end := next;
      i := i + 1;
    }
    assert s[..i] == s;
  }

  method NumberToArray(num: nat, v: uint64, target: array<byte>, at: nat) returns (end: nat)
    requires at + |Encode(VarintField(num, v))| <= target.Length
    modifies target
    ensures Wrote(old(target[..]), target[..], at, end, Encode(VarintField(num, v)))
  {
    var mid := VarintToArray(8 * num, target, at);
    ghost var was := target[..];
    end := VarintToArray(v, target, mid);
    WroteTwice(old(target[..]), was, target[..], at, mid, end, Varint(8 * num), Varint(v));
  }

  method DoubleToArray(num: nat, bits: uint64, target: array<byte>, at: nat) returns (end: nat)
    requires at + |Encode(Fixed64Field(num, bits))| <= target.Length
    modifies target
    ensures Wrote(old(target[..]), target[..], at, end, Encode(Fixed64Field(num, bits)))
  {
    var mid := VarintToArray(8 * num + 1, target, at);
    ghost var was := target[..];
    end := RawToArray(Fixed(bits, 8), target, mid);
    WroteTwice(old(target[..]), was, target[..], at, mid, end, Varint(8 * num + 1), Fixed(bits, 8));
  }

  method BytesToArray(num: nat, s: bytes, target: array<byte>, at: nat) returns (end: nat)
    requires at + |Encode(BytesField(num, s))| <= target.Length
    modifies target
    ensures Wrote(old(target[..]), target[..], at, end, Encode(BytesField(num, s)))
  {
    var mid := VarintToArray(8 * num + 2, target, at);
    ghost var was := target[..];
    var next := VarintToArray(|s|, target, mid);
    WroteTwice(old(target[..]), was, target[..], at, mid, next, Varint(8 * num + 2), Varint(|s|));
    was := target[..];
    end := RawToArray(s, target, next);
    WroteTwice(old(target[..]), was, target[..], at, next, end, Varint(8 * num + 2) + Varint(|s|), s);
    assert Varint(8 * num + 2) + Varint(|s|) + s == Encode(BytesField(num, s));
  }
}
