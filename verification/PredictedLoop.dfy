/** What the generated parsers have in common: how one turn of a parse loop with tag prediction
    relates to the plain loop, and the parser of a message whose fields are predicted in a row. */
module PredictedLoop {
  import opened Wire
  import opened Records
  import opened PlainLoop
  import opened CodedStream

  /** A parser came to the same verdict, message, leftover input and recursion budget as the
      plain loop. After a failure nothing is claimed about the message or the stream. */
  ghost predicate Agrees<M>(o: Outcome<M>, ok: bool, m: M, input: CodedInputStream, limit: nat, budget: int)
    reads input
  {
    match o
    case Failed => !ok
    case Stopped(q, rest, e) =>
      ok && m == q && input.Valid() && input.limit == limit && input.Rest() == rest && input.atEnd == e &&
      input.budget == budget
  }

  /** The plain loop once a record has been read. */
  function Accept<M>(h: (M, Record, nat) -> Option<M>, m: M, r: Record, rest: bytes, depth: nat): Outcome<M>
  {
    match h(m, r, depth)
    case None => Failed
    case Some(m') => Parse(h, m', rest, depth)
  }

  // ---- Parsers with gotos ----------------------------------------------------------------------

  /** How a block of a generated parser ends: with a jump to a label or to one of the two exits. */
  datatype Jump<+L> = Goto(at: L) | Success | Failure

  /** What the plain loop still has to do when control is at a label, given the tag that has been consumed
      there (0 at the top of the loop). */
  ghost function Resume<M>(h: (M, Record, nat) -> Option<M>, tag: nat, m: M, bs: bytes, depth: nat): Outcome<M>
  {
    if tag == 0 then Parse(h, m, bs, depth) else AfterTag(h, m, tag, bs, depth)
  }

  /** The stream at a label, `depth` being the recursion budget on entry to the parser. */
  ghost predicate Ready(input: CodedInputStream, charged: bool, depth: nat)
    reads input
  {
    input.Valid() && input.budget >= 0 && input.budget == if charged then depth - 1 else depth
  }

  /** Control is at a label: the plain loop would go on from here to `goal`, and the recursion depth has been
      charged if the label lies inside a loop over sub-messages. */
  ghost predicate AtLabel<M>(goal: Outcome<M>, h: (M, Record, nat) -> Option<M>, tag: nat, charged: bool, m: M,
                             input: CodedInputStream, limit: nat, depth: nat)
    reads input
  {
    Ready(input, charged, depth) && input.limit == limit && goal == Resume(h, tag, m, input.Rest(), depth)
  }

  /** One field was read where the plain loop, with bs left, had just read its tag. */
  ghost predicate FieldRead<M>(goal: Outcome<M>, h: (M, Record, nat) -> Option<M>, ok: bool, m: M,
                               input: CodedInputStream, bs: bytes, limit: nat, budget: int, depth: nat)
    reads input
  {
    if ok then
      input.Valid() && input.limit == limit && input.budget == budget && |input.Rest()| < |bs| &&
      goal == Parse(h, m, input.Rest(), depth)
    else
      goal == Failed
  }

  // ---- One turn --------------------------------------------------------------------------------

  lemma TurnAtEnd<M>(h: (M, Record, nat) -> Option<M>, m: M, bs: bytes, depth: nat)
    requires bs == []
    ensures Parse(h, m, bs, depth) == Stopped(m, [], true)
  {
  }

  lemma TurnMalformed<M>(h: (M, Record, nat) -> Option<M>, m: M, bs: bytes, depth: nat)
    requires Records.ReadTag(bs).Malformed?
    ensures Parse(h, m, bs, depth) == Stopped(m, bs, false)
  {
  }

  /** Whether the tag was read at the top of the loop or predicted, what follows is the same. */
  lemma TurnTag<M>(h: (M, Record, nat) -> Option<M>, m: M, bs: bytes, depth: nat)
    requires Records.ReadTag(bs).Tag?
    ensures Parse(h, m, bs, depth) == AfterTag(h, m, Records.ReadTag(bs).tag, Records.ReadTag(bs).rest, depth)
  {
  }

  lemma TurnStops<M>(h: (M, Record, nat) -> Option<M>, m: M, tag: nat, bs: bytes, depth: nat)
    requires tag == 0 || IsEndGroup(tag)
    ensures AfterTag(h, m, tag, bs, depth) == Stopped(m, bs, false)
  {
  }

  lemma TurnBad<M>(h: (M, Record, nat) -> Option<M>, m: M, tag: nat, bs: bytes, depth: nat)
    requires tag != 0 && !IsEndGroup(tag) && ReadRecord(tag, bs, depth).Bad?
    ensures AfterTag(h, m, tag, bs, depth) == Failed
  {
  }

  lemma TurnField<M>(h: (M, Record, nat) -> Option<M>, m: M, tag: nat, bs: bytes, depth: nat, r: Record, rest: bytes)
    requires tag != 0 && !IsEndGroup(tag) && ReadRecord(tag, bs, depth) == Got(r, rest)
    ensures AfterTag(h, m, tag, bs, depth)
         == Accept(h, m, r, rest, depth)
  {
  }

  /** ExpectTag in terms of the plain loop: if the prediction succeeds, the plain loop would have read
      this very tag at this point. */
  method Predict<M>(input: CodedInputStream, ghost h: (M, Record, nat) -> Option<M>, ghost m: M, ghost depth: nat,
                    tag: byte)
    returns (hit: bool)
    requires input.Valid() && 0 < tag < 128
    modifies input`pos
    ensures input.Valid()
    ensures hit ==> |input.Rest()| < |old(input.Rest())| &&
                    Parse(h, m, old(input.Rest()), depth) == AfterTag(h, m, tag, input.Rest(), depth)
    ensures !hit ==> input.Rest() == old(input.Rest())
  {
    hide Parse, AfterTag;
    ghost var bs := input.Rest();
    hit := input.ExpectTag(tag);
    if hit { TurnTag(h, m, bs, depth); }
  }

  /** Reading the tag at the top of the loop: a tag of zero or of the end of a group ends the parse. */
  method TopOfLoop<M>(input: CodedInputStream, ghost h: (M, Record, nat) -> Option<M>, ghost m: M, ghost depth: nat)
    returns (tag: uint32, small: bool)
    requires input.Valid()
    modifies input`pos, input`atEnd
    ensures input.Valid() && small == (1 <= tag <= 127)
    ensures if tag == 0 || IsEndGroup(tag)
            then Parse(h, m, old(input.Rest()), depth) == Stopped(m, input.Rest(), input.atEnd)
            else |input.Rest()| < |old(input.Rest())| &&
                 Parse(h, m, old(input.Rest()), depth) == AfterTag(h, m, tag, input.Rest(), depth)
  {
    hide Parse, AfterTag;
    ghost var bs := input.Rest();
    if bs == [] { TurnAtEnd(h, m, bs, depth); }
    else if Records.ReadTag(bs).Malformed? { TurnMalformed(h, m, bs, depth); }
    else { TurnTag(h, m, bs, depth); }
    tag, small := input.ReadTagWithCutoff();
    if tag == 0 || IsEndGroup(tag) { TurnStops(h, m, tag, input.Rest(), depth); }
  }

  /** A field read as what its wire type says: what SkipField does to a field the parser does not
      dispatch on, and what the typed reads amount to for the ones it does. */
  method ReadField<M>(input: CodedInputStream, ghost h: (M, Record, nat) -> Option<M>, ghost m: M, tag: uint32)
    returns (ok: bool, r: Record)
    requires input.Valid() && input.budget >= 0 && tag != 0 && !IsEndGroup(tag)
    modifies input`pos, input`budget, input`atEnd
    ensures input.Valid()
    ensures !ok ==> AfterTag(h, m, tag, old(input.Rest()), old(input.budget)) == Failed
    ensures ok ==> input.budget == old(input.budget) && |input.Rest()| < |old(input.Rest())| && TagOf(r) == tag &&
                   AfterTag(h, m, tag, old(input.Rest()), old(input.budget))
                   == Accept(h, m, r, input.Rest(), old(input.budget))
  {
    hide Parse, AfterTag, ReadRecord;
    ghost var bs, depth: nat := input.Rest(), input.budget;
    ok, r := input.SkipField(tag);
    if ok {
      ReadRecordFits(tag, bs, depth);
      TurnField(h, m, tag, bs, depth, r, input.Rest());
    } else {
      TurnBad(h, m, tag, bs, depth);
    }
  }

  /** A string, bytes or message field in the plain loop. */
  lemma TurnBytes<M>(h: (M, Record, nat) -> Option<M>, m: M, tag: nat, bs: bytes, depth: nat)
    requires tag % 8 == 2
    ensures AfterTag(h, m, tag, bs, depth)
         == match ReadBytes(bs)
            case Bad => Failed
            case Got(s, rest) => Accept(h, m, BytesField(tag / 8, s), rest, depth)
  {
    hide Parse, AfterTag, ReadRecord;
    LengthDelimited(tag, bs, depth);
    match ReadBytes(bs)
    case Bad => TurnBad(h, m, tag, bs, depth);
    case Got(s, rest) => TurnField(h, m, tag, bs, depth, BytesField(tag / 8, s), rest);
  }

  /** A varint field in the plain loop. */
  lemma TurnVarint<M>(h: (M, Record, nat) -> Option<M>, m: M, tag: nat, bs: bytes, depth: nat)
    requires tag % 8 == 0 && tag != 0
    ensures AfterTag(h, m, tag, bs, depth)
         == match ReadVarint(bs)
            case Bad => Failed
            case Got(v, rest) => Accept(h, m, VarintField(tag / 8, v), rest, depth)
  {
    hide Parse, AfterTag, ReadRecord;
    VarintOnly(tag, bs, depth);
    match ReadVarint(bs)
    case Bad => TurnBad(h, m, tag, bs, depth);
    case Got(v, rest) => TurnField(h, m, tag, bs, depth, VarintField(tag / 8, v), rest);
  }

  /** A double in the plain loop. */
  lemma TurnFixed64<M>(h: (M, Record, nat) -> Option<M>, m: M, tag: nat, bs: bytes, depth: nat)
    requires tag % 8 == 1
    ensures AfterTag(h, m, tag, bs, depth)
         == match ReadFixed64(bs)
            case Bad => Failed
            case Got(v, rest) => Accept(h, m, Fixed64Field(tag / 8, v), rest, depth)
  {
    hide Parse, AfterTag, ReadRecord;
    Fixed64Only(tag, bs, depth);
    match ReadFixed64(bs)
    case Bad => TurnBad(h, m, tag, bs, depth);
    case Got(v, rest) => TurnField(h, m, tag, bs, depth, Fixed64Field(tag / 8, v), rest);
  }

  lemma Fixed64Only(tag: nat, bs: bytes, depth: nat)
    requires tag % 8 == 1
    ensures ReadRecord(tag, bs, depth)
         == match ReadFixed64(bs) case Bad => Bad case Got(v, rest) => Got(Fixed64Field(tag / 8, v), rest)
  {
  }

  /** A length-delimited tag announces exactly a length prefix and its bytes. */
  lemma LengthDelimited(tag: nat, bs: bytes, depth: nat)
    requires tag % 8 == 2
    ensures ReadRecord(tag, bs, depth)
         == match ReadBytes(bs) case Bad => Bad case Got(s, rest) => Got(BytesField(tag / 8, s), rest)
  {
  }

  /** A varint tag announces exactly a varint. */
  lemma VarintOnly(tag: nat, bs: bytes, depth: nat)
    requires tag % 8 == 0
    ensures ReadRecord(tag, bs, depth)
         == match ReadVarint(bs) case Bad => Bad case Got(v, rest) => Got(VarintField(tag / 8, v), rest)
  {
  }

  // ---- Fields predicted in a row -----------------------------------------------------------------

  /** Tags of one byte that start a field. */
  predicate Predictable(tags: seq<byte>)
  {
    forall i :: 0 <= i < |tags| ==> 0 < tags[i] < 128 && !IsEndGroup(tags[i])
  }

  /** After field number i the parser expects the tag of field i + 1, after the last one the end of
      the input. Whatever the predictions answer, the result is the plain loop's. */
  method ParseInARow<M(0)>(input: CodedInputStream, h: (M, Record, nat) -> Option<M>, start: M, tags: seq<byte>)
    returns (ok: bool, m: M)
    requires input.Valid() && input.budget >= 0
    requires Predictable(tags)
    modifies input`pos, input`budget, input`atEnd
    ensures input.Valid()
    ensures Agrees(Parse(h, start, old(input.Rest()), old(input.budget)), ok, m, input, old(input.limit),
                   old(input.budget))
  {
    hide Parse, AfterTag, ReadRecord;
    m := start;
    var depth := input.budget;
    ghost var goal := Parse(h, m, input.Rest(), depth);
    var tag: uint32 := 0;
    var predicted := false;
    while true
      invariant input.Valid() && input.budget == depth
      invariant predicted ==> tag != 0 && !IsEndGroup(tag)
      invariant goal == if predicted then AfterTag(h, m, tag, input.Rest(), depth)
                        else Parse(h, m, input.Rest(), depth)
      decreases |input.Rest()|
    {
      if !predicted {
        var small;
        tag, small := TopOfLoop(input, h, m, depth);
        if tag == 0 || IsEndGroup(tag) { return true, m; }
      }
      var r;
      ok, r := ReadField(input, h, m, tag);
      if !ok { return; }
      var next := h(m, r, depth);
      if next.None? { return false, m; }
      m := next.value;
      var i := IndexOf(tags, tag);
      predicted := false;
      if i + 1 < |tags| {
        predicted := Predict(input, h, m, depth, tags[i + 1]);
        if predicted { tag := tags[i + 1]; }
      } else if i + 1 == |tags| {
        var done := input.ExpectAtEnd();
        if done {
          TurnAtEnd(h, m, input.Rest(), depth);
          return true, m;
        }
      }
    }
  }

  function IndexOf(tags: seq<byte>, tag: nat): (i: nat)
    ensures i <= |tags| && (i < |tags| ==> tags[i] == tag)
  {
    if tags == [] || tags[0] == tag then 0 else 1 + IndexOf(tags[1..], tag)
  }

  // ---- A nested message -------------------------------------------------------------------------

  /** Push the limit to the end of the payload, parse it, check that it was used up, pop the limit. The
      recursion budget has been charged by the caller. */
  method ReadMessage<M(0)>(input: CodedInputStream, h: (M, Record, nat) -> Option<M>, start: M, tags: seq<byte>)
    returns (ok: bool, m: M)
    requires input.Valid() && input.budget >= 0
    requires Predictable(tags)
    modifies input
    ensures match ReadBytes(old(input.Rest()))
            case Bad => !ok
            case Got(s, rest) =>
              match Whole(h, start, s, old(input.budget))
              case None => !ok
              case Some(v) => ok && m == v && input.Valid() && input.Rest() == rest && |rest| < |old(input.Rest())| &&
                              input.limit == old(input.limit) && input.budget == old(input.budget)
  {
    hide Parse, ReadBytes;
    m := start;
    var oldLimit;
    ok, oldLimit := input.ReadLengthAndPushLimit();
    if !ok { return; }
    ok, m := ParseInARow(input, h, start, tags);
    if !ok { return; }
    ok := input.CheckEntireMessageConsumedAndPopLimit(oldLimit);
  }
}
