/** The optional scalar fields of proto2 messages: written when present, whatever their value. */
module Proto2 {
  import opened Wire
  import opened Records
  import opened PlainLoop
  import opened Proto3

  function Opt(o: Option<Record>): seq<Record> { if o.None? then [] else [o.value] }

  function BytesOf(num: nat, o: Option<bytes>): Option<Record>
  {
    if o.None? then None else Some(BytesField(num, o.value))
  }

  function NumberOf(num: nat, o: Option<uint32>): Option<Record>
  {
    if o.None? then None else Some(VarintField(num, o.value))
  }

  function Number64Of(num: nat, o: Option<uint64>): Option<Record>
  {
    if o.None? then None else Some(VarintField(num, o.value))
  }

  function EnumOf(num: nat, o: Option<int32>): Option<Record>
  {
    if o.None? then None else Some(VarintField(num, ToU64(o.value)))
  }

  function SignedOf(num: nat, o: Option<int64>): Option<Record>
  {
    if o.None? then None else Some(VarintField(num, ToU64(o.value)))
  }

  /** A proto2 field after a merge: presence decides, not the value. */
  function Or<T>(x: Option<T>, y: Option<T>): Option<T> { if y.Some? then y else x }

  lemma OptStep<M>(h: (M, Record, nat) -> Option<M>, m: M, o: Option<Record>, rest: seq<Record>, depth: nat)
    ensures Fold(h, m, Opt(o) + rest, depth)
         == if o.None? then Fold(h, m, rest, depth) else Step(h, m, o.value, rest, depth)
  {
    if o.None? { assert Opt(o) + rest == rest; } else { FoldCons(h, m, o.value, rest, depth); }
  }

  function OptSize(o: Option<Record>): nat { if o.None? then 0 else |Encode(o.value)| }

  lemma OptSizeIs(o: Option<Record>)
    ensures |EncodeAll(Opt(o))| == OptSize(o)
  {
    if o.Some? { EncodeOne(o.value); }
  }

  lemma Absent()
    ensures OptSize(None) == 0
  {
  }

  lemma FieldSize(r: Record)
    requires 0 < r.num < 16
    ensures r.VarintField? ==> OptSize(Some(r)) == 1 + VarintSize(r.v)
    ensures r.BytesField? ==> OptSize(Some(r)) == 1 + VarintSize(|r.s|) + |r.s|
  {
    OneByteTag(r);
  }

  lemma OptWritten(before: bytes, o: Option<Record>, after: bytes)
    requires after == if o.Some? then before + Encode(o.value) else before
    ensures after == before + EncodeAll(Opt(o))
  {
    if o.Some? { EncodeOne(o.value); }
  }
}
