/** The scalar fields of proto3 messages: absent on the wire when zero, and a zero in the
    second message does not overwrite in a merge. */
module Proto3 {
  import opened Wire
  import opened Records
  import opened PlainLoop

  function TextField(num: nat, s: bytes): seq<Record> { if s == [] then [] else [BytesField(num, s)] }
  function NumberField(num: nat, v: uint64): seq<Record> { if v == 0 then [] else [VarintField(num, v)] }

  /** A proto3 scalar after a merge. */
  function Later<T(==)>(x: T, y: T, zero: T): T { if y == zero then x else y }

  /** The fold of one more record in front of others. */
  function Step<M>(h: (M, Record, nat) -> Option<M>, m: M, r: Record, rest: seq<Record>, depth: nat): Option<M>
  {
    match h(m, r, depth)
    case None => None
    case Some(m') => Fold(h, m', rest, depth)
  }

  lemma FoldCons<M>(h: (M, Record, nat) -> Option<M>, m: M, r: Record, rest: seq<Record>, depth: nat)
    ensures Fold(h, m, [r] + rest, depth) == Step(h, m, r, rest, depth)
  {
    assert ([r] + rest)[1..] == rest;
  }

  lemma TextStep<M>(h: (M, Record, nat) -> Option<M>, m: M, num: nat, s: bytes, rest: seq<Record>, depth: nat)
    ensures Fold(h, m, TextField(num, s) + rest, depth)
         == if s == [] then Fold(h, m, rest, depth) else Step(h, m, BytesField(num, s), rest, depth)
  {
    if s == [] { assert TextField(num, s) + rest == rest; } else { FoldCons(h, m, BytesField(num, s), rest, depth); }
  }

  lemma NumberStep<M>(h: (M, Record, nat) -> Option<M>, m: M, num: nat, v: uint64, rest: seq<Record>, depth: nat)
    ensures Fold(h, m, NumberField(num, v) + rest, depth)
         == if v == 0 then Fold(h, m, rest, depth) else Step(h, m, VarintField(num, v), rest, depth)
  {
    if v == 0 { assert NumberField(num, v) + rest == rest; } else { FoldCons(h, m, VarintField(num, v), rest, depth); }
  }

  /** A nested message: one level of the recursion budget, and the whole payload must parse. */
  function Nested<M>(h: (M, Record, nat) -> Option<M>, m: M, s: bytes, depth: nat): Option<M>
  {
    if depth == 0 then None else Whole(h, m, s, depth - 1)
  }
}
