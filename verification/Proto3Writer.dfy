/** How the generated writers of proto3 messages write one scalar field: nothing for zero, the field otherwise; to a
    stream and to an array, and how many bytes that is. */
module Proto3Writer {
  import opened Wire
  import opened Records
  import opened Proto3
  import opened CodedOutput

  function TextBytes(num: nat, s: bytes): bytes { if s == [] then [] else Encode(BytesField(num, s)) }
  function NumberBytes(num: nat, v: uint64): bytes { if v == 0 then [] else Encode(VarintField(num, v)) }

  lemma TextWritten(num: nat, s: bytes, rest: seq<Record>)
    ensures EncodeAll(TextField(num, s) + rest) == TextBytes(num, s) + EncodeAll(rest)
  {
    hide Encode;
    EncodeAppend(TextField(num, s), rest);
    if s != [] { EncodeOne(BytesField(num, s)); }
  }

  lemma NumberWritten(num: nat, v: uint64, rest: seq<Record>)
    ensures EncodeAll(NumberField(num, v) + rest) == NumberBytes(num, v) + EncodeAll(rest)
  {
    hide Encode;
    EncodeAppend(NumberField(num, v), rest);
    if v != 0 { EncodeOne(VarintField(num, v)); }
  }

  /** A message that ends with this field. */
  lemma LastNumberWritten(num: nat, v: uint64)
    ensures EncodeAll(NumberField(num, v)) == NumberBytes(num, v)
  {
    hide Encode;
    if v != 0 { EncodeOne(VarintField(num, v)); }
  }

  // ---- Sizes -----------------------------------------------------------------------------------------

  function TextSize(s: bytes): nat { if s == [] then 0 else 1 + VarintSize(|s|) + |s| }
  function NumberSize(v: nat): nat { if v == 0 then 0 else 1 + VarintSize(v) }

  lemma TextSizeIs(num: nat, s: bytes)
    requires 0 < num < 16
    ensures |TextBytes(num, s)| == TextSize(s)
  {
    OneByteTag(BytesField(num, s));
  }

  lemma NumberSizeIs(num: nat, v: uint64)
    requires 0 < num < 16
    ensures |NumberBytes(num, v)| == NumberSize(v)
  {
    OneByteTag(VarintField(num, v));
  }

  // ---- Writers ---------------------------------------------------------------------------------------

  method WriteText(num: nat, s: bytes, output: CodedOutputStream)
    modifies output
    ensures output.out == old(output.out) + TextBytes(num, s)
  {
    if |s| > 0 { output.WriteBytes(num, s); }
  }

  method WriteCount(num: nat, v: uint64, output: CodedOutputStream)
    modifies output
    ensures output.out == old(output.out) + NumberBytes(num, v)
  {
    if v != 0 { output.WriteNumber(num, v); }
  }

  method TextToArray(num: nat, s: bytes, target: array<byte>, at: nat) returns (end: nat)
    requires at + |TextBytes(num, s)| <= target.Length
    modifies target
    ensures Wrote(old(target[..]), target[..], at, end, TextBytes(num, s)) && end == at + |TextBytes(num, s)|
  {
    hide Wrote, Encode;
    end := at;
    WroteNothing(target[..], at);
    if |s| > 0 { end := BytesToArray(num, s, target, at); }
    WroteLength(old(target[..]), target[..], at, end, TextBytes(num, s));
  }

  method CountToArray(num: nat, v: uint64, target: array<byte>, at: nat) returns (end: nat)
    requires at + |NumberBytes(num, v)| <= target.Length
    modifies target
    ensures Wrote(old(target[..]), target[..], at, end, NumberBytes(num, v)) && end == at + |NumberBytes(num, v)|
  {
    hide Wrote, Encode;
    end := at;
    WroteNothing(target[..], at);
    if v != 0 { end := NumberToArray(num, v, target, at); }
    WroteLength(old(target[..]), target[..], at, end, NumberBytes(num, v));
  }

  /** One more scalar field behind what has been written since `before`. */
  method ThenText(num: nat, s: bytes, target: array<byte>, ghost before: bytes, ghost at: nat, mid: nat,
                  ghost done: bytes)
    returns (end: nat)
    requires Wrote(before, target[..], at, mid, done) && mid + |TextBytes(num, s)| <= target.Length
    modifies target
    ensures Wrote(before, target[..], at, end, done + TextBytes(num, s)) && end == mid + |TextBytes(num, s)|
  {
    hide TextBytes;
    ghost var between := target[..];
    end := TextToArray(num, s, target, mid);
    WroteLength(between, target[..], mid, end, TextBytes(num, s));
    WroteTwice(before, between, target[..], at, mid, end, done, TextBytes(num, s));
  }

  method ThenNumber(num: nat, v: uint64, target: array<byte>, ghost before: bytes, ghost at: nat, mid: nat,
                    ghost done: bytes)
    returns (end: nat)
    requires Wrote(before, target[..], at, mid, done) && mid + |NumberBytes(num, v)| <= target.Length
    modifies target
    ensures Wrote(before, target[..], at, end, done + NumberBytes(num, v)) && end == mid + |NumberBytes(num, v)|
  {
    hide NumberBytes;
    ghost var between := target[..];
    end := CountToArray(num, v, target, mid);
    WroteLength(between, target[..], mid, end, NumberBytes(num, v));
    WroteTwice(before, between, target[..], at, mid, end, done, NumberBytes(num, v));
  }
}
