/** The input stream the generated parsers read from: a position in a buffer, the current limit,
    the recursion budget, and whether the last tag read met the end of the input. The library's
    own source is not part of this model; these are the operations the parsers use, written from
    the Protocol Buffers Encoding guide. */
module CodedStream {
  import opened Wire
  import opened Records
  import opened PlainLoop

  class CodedInputStream {
    const data: bytes
    var pos: nat
    var limit: nat
    var budget: int
    var atEnd: bool

    ghost predicate Valid()
      reads this
    {
      pos <= limit <= |data|
    }

    /** The bytes left before the current limit. */
    ghost function Rest(): bytes
      requires Valid()
      reads this
    {
      data[pos..limit]
    }

    constructor (data: bytes, budget: nat)
      ensures Valid() && Rest() == data && this.budget == budget
    {
      this.data := data;
      this.pos, this.limit := 0, |data|;
      this.budget := budget;
      this.atEnd := false;
    }

    method ReadVarint64() returns (ok: bool, v: uint64)
      requires Valid()
      modifies this`pos
      ensures Valid()
      ensures match ReadVarint(old(Rest()))
              case Bad => !ok
              case Got(w, rest) => ok && v == w && Rest() == rest
    {
      hide VarintTail, Continues, Scaled;
      var sum: nat, weight: nat, n := 0, 1, 0;
      ghost var whole := VarintTail(Rest(), 10);
      ContinuesStart(whole);
      while n < 10
        invariant n <= 10 && Valid()
        invariant Continues(whole, VarintTail(Rest(), 10 - n), sum, weight)
        decreases 10 - n
      {
        VarintUnfold(Rest(), 10 - n);
        if pos == limit {
          ContinuesBad(whole, sum, weight);
          return false, 0;
        }
        var b := data[pos];
        assert Rest()[0] == b && Rest()[1..] == data[pos + 1..limit];
        pos := pos + 1;
        if b < 128 {
          ContinuesEnd(whole, b, Rest(), sum, weight);
          return true, Scaled(sum, weight, b) % TWO64;
        }
        ContinuesStep(whole, b, VarintTail(Rest(), 9 - n), sum, weight);
        sum := Scaled(sum, weight, b - 128);
        weight := weight * 128;
        n := n + 1;
      }
      VarintUnfold(Rest(), 0);
      ContinuesBad(whole, sum, weight);
      return false, 0;
    }

    /** The next tag, and whether it is one of the small ones a switch can dispatch on. */
    method ReadTagWithCutoff() returns (tag: uint32, small: bool)
      requires Valid()
      modifies this`pos, this`atEnd
      ensures Valid() && small == (1 <= tag <= 127)
      ensures match Records.ReadTag(old(Rest()))
              case End => tag == 0 && atEnd && Rest() == []
              case Malformed => tag == 0 && !atEnd && pos == old(pos)
              case Tag(t, rest) => tag == t && !atEnd && Rest() == rest
    {
      atEnd := pos == limit;
      if atEnd { return 0, false; }
      var start := pos;
      var ok, v := ReadVarint64();
      if !ok {
        pos := start;
        return 0, false;
      }
      tag := v % TWO32;
      small := 1 <= tag <= 127;
    }

    /** A prediction. It may answer false although the tag is there (the buffer ends here, say);
        if it answers true the tag was there and has been consumed. */
    method ExpectTag(expected: byte) returns (found: bool)
      requires Valid() && 0 < expected < 128
      modifies this`pos
      ensures Valid()
      ensures found ==> Records.ReadTag(old(Rest())) == Tag(expected, Rest())
      ensures !found ==> pos == old(pos)
    {
      found := *;
      found := found && pos < limit && data[pos] == expected;
      if found {
        assert Rest()[0] == expected && Rest()[1..] == data[pos + 1..limit];
        SmallTag(Rest());
        pos := pos + 1;
      }
    }

    /** Also a prediction: true only if the input is used up. */
    method ExpectAtEnd() returns (found: bool)
      requires Valid()
      modifies this`atEnd
      ensures found ==> Rest() == [] && atEnd
      ensures !found ==> atEnd == old(atEnd)
    {
      found := *;
      found := found && pos == limit;
      if found { atEnd := true; }
    }

    method IncrementRecursionDepth() returns (ok: bool)
      modifies this`budget
      ensures budget == old(budget) - 1 && ok == (budget >= 0)
    {
      budget := budget - 1;
      ok := budget >= 0;
    }

    method UnsafeDecrementRecursionDepth()
      modifies this`budget
      ensures budget == old(budget) + 1
    {
      budget := budget + 1;
    }

    /** A length prefix whose bytes are all there; the limit moves to their end. */
    method ReadLengthAndPushLimit() returns (ok: bool, oldLimit: nat)
      requires Valid()
      modifies this`pos, this`limit
      ensures Valid()
      ensures match ReadBytes(old(Rest()))
              case Bad => !ok
              case Got(s, rest) =>
                ok && oldLimit == old(limit) && limit <= oldLimit && Rest() == s && data[limit..oldLimit] == rest
    {
      oldLimit := limit;
      var v;
      ok, v := ReadVarint64();
      var n := v % TWO32;
      ok := ok && n < TWO31 && n <= limit - pos;
      if ok {
        assert Rest()[..n] == data[pos..pos + n] && Rest()[n..] == data[pos + n..limit];
        limit := pos + n;
      }
    }

    method PopLimit(oldLimit: nat)
      requires Valid() && limit <= oldLimit <= |data|
      modifies this`limit
      ensures Valid() && limit == oldLimit
    {
      limit := oldLimit;
    }

    /** What a caller of a nested parse checks: it stopped because its payload was used up. */
    method CheckEntireMessageConsumedAndPopLimit(oldLimit: nat) returns (ok: bool)
      requires Valid() && limit <= oldLimit <= |data|
      modifies this`limit
      ensures Valid() && limit == oldLimit && ok == atEnd
    {
      ok := atEnd;
      limit := oldLimit;
    }

    method ReadString() returns (ok: bool, s: bytes)
      requires Valid()
      modifies this`pos
      ensures Valid()
      ensures match ReadBytes(old(Rest()))
              case Bad => !ok
              case Got(t, rest) => ok && s == t && Rest() == rest
    {
      s := [];
      var v;
      ok, v := ReadVarint64();
      var n := v % TWO32;
      ok := ok && n < TWO31 && n <= limit - pos;
      if ok {
        s := data[pos..pos + n];
        assert Rest()[..n] == s && Rest()[n..] == data[pos + n..limit];
        pos := pos + n;
      }
    }

    /** A little-endian integer of n bytes. */
    method ReadLittleEndian(n: nat) returns (ok: bool, v: nat)
      requires Valid()
      modifies this`pos
      ensures Valid()
      ensures match ReadFixed(old(Rest()), n)
              case Bad => !ok
              case Got(w, rest) => ok && v == w && Rest() == rest
    {
      v := 0;
      ok := n <= limit - pos;
      if ok {
        assert Rest()[..n] == data[pos..pos + n] && Rest()[n..] == data[pos + n..limit];
        var i := n;
        while i > 0
          invariant i <= n && pos + n <= limit
          invariant v == FixedValue(data[pos + i..pos + n])
        {
          i := i - 1;
          assert data[pos + i..pos + n][1..] == data[pos + i + 1..pos + n];
          v := data[pos + i] + 256 * v;
        }
        pos := pos + n;
      }
    }

    method ReadDouble() returns (ok: bool, bits: uint64)
      requires Valid()
      modifies this`pos
      ensures Valid()
      ensures match ReadFixed64(old(Rest()))
              case Bad => !ok
              case Got(w, rest) => ok && bits == w && Rest() == rest
    {
      var v;
      ok, v := ReadLittleEndian(8);
      Pow256Values();
      bits := if ok then v else 0;
    }

    /** Reads the field a tag announces, whatever it is: how an unknown field is kept or dropped. */
    method SkipField(tag: nat) returns (ok: bool, r: Record)
      requires Valid() && budget >= 0
      modifies this`pos, this`budget, this`atEnd
      ensures Valid()
      ensures match ReadRecord(tag, old(Rest()), old(budget))
              case Bad => !ok
              case Got(q, rest) => ok && r == q && Rest() == rest && budget == old(budget)
      decreases limit - pos, 1
    {
      hide ReadGroup, ReadVarint, ReadFixed64, ReadFixed, ReadBytes, VarintTail;
      var num, kind := tag / 8, tag % 8;
      r := VarintField(0, 0);
      Pow256Values();
      if kind == 0 {
        var v;
        ok, v := ReadVarint64();
        if ok { r := VarintField(num, v); }
      } else if kind == 1 {
        var v;
        ok, v := ReadDouble();
        if ok { r := Fixed64Field(num, v); }
      } else if kind == 2 {
        var s;
        ok, s := ReadString();
        if ok { r := BytesField(num, s); }
      } else if kind == 3 {
        ok := IncrementRecursionDepth();
        if ok {
          var fields;
          ok, fields := SkipMessage(num);
          if ok { r := GroupField(num, fields); }
          UnsafeDecrementRecursionDepth();
        }
      } else if kind == 5 {
        var v;
        ok, v := ReadLittleEndian(4);
        if ok { r := Fixed32Field(num, v); }
      } else {
        ok := false;
      }
    }

    /** The fields of a group, up to and including its own end-group tag. */
    method SkipMessage(num: nat) returns (ok: bool, fields: seq<Record>)
      requires Valid() && budget >= 0
      modifies this`pos, this`budget, this`atEnd
      ensures Valid()
      ensures match ReadGroup(num, old(Rest()), old(budget))
              case Bad => !ok
              case Got(rs, rest) => ok && fields == rs && Rest() == rest && budget == old(budget)
      decreases limit - pos, 0
    {
      hide ReadGroup, ReadRecord;
      fields := [];
      ghost var whole := ReadGroup(num, Rest(), budget);
      assert After(fields, whole) == whole by { AfterNothing(whole); }
      while true
        invariant Valid() && pos >= old(pos) && budget == old(budget)
        invariant whole == After(fields, ReadGroup(num, Rest(), budget))
        decreases limit - pos
      {
        ReadGroupUnfold(num, Rest(), budget);
        var tag, _ := ReadTagWithCutoff();
        if tag == 0 { return false, []; }
        if IsEndGroup(tag) {
          ok := tag == 8 * num + 4;
          assert fields + [] == fields;
          return;
        }
        var r;
        ok, r := SkipField(tag);
        if !ok { return false, []; }
        AfterOneMore(fields, r, ReadGroup(num, Rest(), budget));
        fields := fields + [r];
      }
    }
  }

  /** The records read so far in front of those still to come. */
  function After(before: seq<Record>, more: Read<seq<Record>>): Read<seq<Record>>
  {
    match more
    case Bad => Bad
    case Got(rs, rest) => Got(before + rs, rest)
  }

  lemma AfterNothing(more: Read<seq<Record>>)
    ensures After([], more) == more
  {
    if more.Got? { assert [] + more.value == more.value; }
  }

  lemma AfterOneMore(before: seq<Record>, r: Record, more: Read<seq<Record>>)
    ensures After(before, After([r], more)) == After(before + [r], more)
  {
    if more.Got? { assert before + ([r] + more.value) == before + [r] + more.value; }
  }

  /** One turn of the group loop. */
  function GroupTurn(num: nat, tag: nat, bs: bytes, depth: nat): Read<seq<Record>>
  {
    if tag == 0 then Bad
    else if IsEndGroup(tag) then if tag == 8 * num + 4 then Got([], bs) else Bad
    else
      match ReadRecord(tag, bs, depth)
      case Bad => Bad
      case Got(r, rest) => After([r], ReadGroup(num, rest, depth))
  }

  lemma ReadGroupUnfold(num: nat, bs: bytes, depth: nat)
    ensures var t := Records.ReadTag(bs);
            ReadGroup(num, bs, depth) == if t.Tag? then GroupTurn(num, t.tag, t.rest, depth) else Bad
  {
  }

  /** A further digit, or all the further digits, of a varint. */
  function Scaled(sum: nat, weight: nat, v: nat): nat { sum + weight * v }

  /** A varint is being read: `whole` is what reading it in one go gives, `tail` what the bytes that
      are left give, and `sum` and `weight` account for the bytes already taken. */
  ghost predicate Continues(whole: Read<nat>, tail: Read<nat>, sum: nat, weight: nat)
  {
    match tail
    case Bad => whole == Bad
    case Got(v, rest) => whole == Got(Scaled(sum, weight, v), rest)
  }

  lemma ContinuesStart(whole: Read<nat>)
    ensures Continues(whole, whole, 0, 1)
  {
  }

  lemma ContinuesBad(whole: Read<nat>, sum: nat, weight: nat)
    ensures Continues(whole, Bad, sum, weight) ==> whole == Bad
  {
  }

  lemma ContinuesEnd(whole: Read<nat>, b: byte, rest: bytes, sum: nat, weight: nat)
    ensures Continues(whole, Got(b, rest), sum, weight) ==> whole == Got(Scaled(sum, weight, b), rest)
  {
  }

  /** The tail seen from a continuation byte. */
  function Shifted(b: byte, tail: Read<nat>): Read<nat>
    requires b >= 128
  {
    match tail
    case Bad => Bad
    case Got(v, rest) => Got(b - 128 + 128 * v, rest)
  }

  lemma VarintUnfold(bs: bytes, room: nat)
    ensures bs == [] || room == 0 ==> VarintTail(bs, room) == Bad
    ensures bs != [] && room > 0 ==>
              VarintTail(bs, room) == if bs[0] < 128 then Got(bs[0] as nat, bs[1..])
                                      else Shifted(bs[0], VarintTail(bs[1..], room - 1))
  {
  }

  lemma ContinuesStep(whole: Read<nat>, b: byte, tail: Read<nat>, sum: nat, weight: nat)
    requires b >= 128 && Continues(whole, Shifted(b, tail), sum, weight)
    ensures Continues(whole, tail, Scaled(sum, weight, b - 128), weight * 128)
  {
    if tail.Got? {
      var v := tail.value;
      assert weight * (b - 128 + 128 * v) == weight * (b - 128) + weight * 128 * v;
    }
  }

  lemma SmallTag(bs: bytes)
    requires bs != [] && 0 < bs[0] < 128
    ensures Records.ReadTag(bs) == Tag(bs[0], bs[1..])
  {
    assert VarintTail(bs, 10) == Got(bs[0], bs[1..]);
  }
}
