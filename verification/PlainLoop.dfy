/** The reference parser: read a tag, read the field it announces, hand it to the message,
    repeat. It knows nothing of tag prediction, buffers or pushed limits. A message type is
    given by its handler, which takes the message so far, one record and the recursion
    budget, and answers the new message or None when the field's content is unacceptable. */
module PlainLoop {
  import opened Wire
  import opened Records

  /** `atEnd`: the loop stopped because the input ended after a whole field, the only way in
      which a complete message may end. Otherwise it met a zero tag, a tag that is no varint
      (then nothing of it is consumed), or an end-group tag. */
  datatype Outcome<+M> = Failed | Stopped(msg: M, rest: bytes, atEnd: bool)

  function Parse<M>(h: (M, Record, nat) -> Option<M>, m: M, bs: bytes, depth: nat): (o: Outcome<M>)
    ensures o.Stopped? && o.atEnd ==> o.rest == []
    ensures o.Stopped? ==> |o.rest| <= |bs|
    decreases |bs|, 1
  {
    match ReadTag(bs)
    case End => Stopped(m, [], true)
    case Malformed => Stopped(m, bs, false)
    case Tag(tag, rest) => AfterTag(h, m, tag, rest, depth)
  }

  /** The rest of the loop once a tag has been read. */
  function AfterTag<M>(h: (M, Record, nat) -> Option<M>, m: M, tag: nat, bs: bytes, depth: nat): (o: Outcome<M>)
    ensures o.Stopped? && o.atEnd ==> o.rest == []
    ensures o.Stopped? ==> |o.rest| <= |bs|
    decreases |bs|, 2
  {
    if tag == 0 || IsEndGroup(tag) then Stopped(m, bs, false)
    else
      match ReadRecord(tag, bs, depth)
      case Bad => Failed
      case Got(r, rest) =>
        match h(m, r, depth)
        case None => Failed
        case Some(m') => Parse(h, m', rest, depth)
  }

  /** What a caller that wants one complete message gets. */
  function Whole<M>(h: (M, Record, nat) -> Option<M>, m: M, bs: bytes, depth: nat): Option<M>
  {
    match Parse(h, m, bs, depth)
    case Failed => None
    case Stopped(m', _, atEnd) => if atEnd then Some(m') else None
  }

  function Fold<M>(h: (M, Record, nat) -> Option<M>, m: M, rs: seq<Record>, depth: nat): Option<M>
  {
    if rs == [] then Some(m)
    else
      match h(m, rs[0], depth)
      case None => None
      case Some(m') => Fold(h, m', rs[1..], depth)
  }

  lemma FoldOne<M>(h: (M, Record, nat) -> Option<M>, m: M, r: Record, depth: nat)
    ensures Fold(h, m, [r], depth) == h(m, r, depth)
  {
    assert [r][1..] == [];
    match h(m, r, depth)
    case None =>
    case Some(m') => assert Fold(h, m', [], depth) == Some(m');
  }

  /** Parsing written records is folding them, whatever bytes follow. */
  lemma {:induction false} ParseWritten<M>(h: (M, Record, nat) -> Option<M>, m: M, rs: seq<Record>, depth: nat,
                                           tail: bytes)
    requires AllFit(rs, depth)
    ensures Parse(h, m, EncodeAll(rs) + tail, depth)
         == match Fold(h, m, rs, depth) case None => Failed case Some(m') => Parse(h, m', tail, depth)
    decreases |rs|
  {
    if rs == [] {
      assert EncodeAll(rs) + tail == tail;
    } else {
      var r, more := rs[0], EncodeAll(rs[1..]) + tail;
      assert Fits(r, depth);
      EncodeCons(rs, tail);
      TagParts(r);
      TagRoundTrip(TagOf(r), Payload(r) + more);
      RecordRoundTrip(r, depth, more);
      match h(m, r, depth)
      case None =>
      case Some(m') => ParseWritten(h, m', rs[1..], depth, tail);
    }
  }

  lemma WholeWritten<M>(h: (M, Record, nat) -> Option<M>, m: M, rs: seq<Record>, depth: nat)
    requires AllFit(rs, depth)
    ensures Whole(h, m, EncodeAll(rs), depth) == Fold(h, m, rs, depth)
  {
    ParseWritten(h, m, rs, depth, []);
    assert EncodeAll(rs) + [] == EncodeAll(rs);
  }

  /** One turn of the loop on the way to a complete message. */
  lemma WholeStep<M>(h: (M, Record, nat) -> Option<M>, m: M, bs: bytes, depth: nat)
    requires Whole(h, m, bs, depth).Some? && bs != []
    ensures ReadTag(bs).Tag? && ReadTag(bs).tag != 0 && !IsEndGroup(ReadTag(bs).tag)
    ensures var r := ReadRecord(ReadTag(bs).tag, ReadTag(bs).rest, depth);
            r.Got? && h(m, r.value, depth).Some? &&
            Parse(h, m, bs, depth) == Parse(h, h(m, r.value, depth).value, r.rest, depth)
  {
    var t := ReadTag(bs);
    assert Parse(h, m, bs, depth) == AfterTag(h, m, t.tag, t.rest, depth);
  }

  /** Parsing two complete messages one after the other is parsing the second into the first,
      for any bytes, canonical or not. */
  lemma {:induction false} ParseConcat<M>(h: (M, Record, nat) -> Option<M>, m: M, a: bytes, b: bytes, depth: nat)
    requires Whole(h, m, a, depth).Some?
    ensures Parse(h, m, a + b, depth) == Parse(h, Whole(h, m, a, depth).value, b, depth)
    decreases |a|
  {
    hide ReadTag, ReadRecord;
    if a == [] {
      assert a + b == b;
    } else {
      WholeStep(h, m, a, depth);
      ReadTagLocal(a, b);
      var t := ReadTag(a);
      ReadRecordLocal(t.tag, t.rest, depth, b);
      var r := ReadRecord(t.tag, t.rest, depth);
      ParseConcat(h, h(m, r.value, depth).value, r.rest, b, depth);
    }
  }

  /** Every byte string that parses to its end is, for the message, a list of records that fit,
      and writing those records takes no more bytes than were read. */
  lemma {:induction false} ParseIsFold<M>(h: (M, Record, nat) -> Option<M>, m: M, bs: bytes, depth: nat)
    returns (rs: seq<Record>)
    requires Whole(h, m, bs, depth).Some?
    ensures AllFit(rs, depth) && Fold(h, m, rs, depth) == Whole(h, m, bs, depth)
    ensures |EncodeAll(rs)| <= |bs|
    decreases |bs|
  {
    if bs == [] {
      rs := [];
    } else {
      WholeStep(h, m, bs, depth);
      var t := ReadTag(bs);
      var r := ReadRecord(t.tag, t.rest, depth);
      ReadTagShortest(bs);
      ReadRecordFits(t.tag, t.rest, depth);
      var rest := ParseIsFold(h, h(m, r.value, depth).value, r.rest, depth);
      rs := [r.value] + rest;
      assert rs[1..] == rest;
    }
  }

  // ---- Parsing more is merging -------------------------------------------------------------------

  function MergedInto<M, S>(merge: (M, S) -> M, x: M, o: Option<S>): Option<M>
  {
    if o.None? then None else Some(merge(x, o.value))
  }

  function OutcomeInto<M, S>(merge: (M, S) -> M, x: M, o: Outcome<S>): Outcome<M>
  {
    if o.Failed? then Failed else Stopped(merge(x, o.msg), o.rest, o.atEnd)
  }

  /** Reading a record into the merge of x and s is reading it into s and merging then. The second message may be
      of the same type, or a record of what was seen on the wire. */
  ghost predicate Commutes<M(!new), S(!new)>(h: (M, Record, nat) -> Option<M>, g: (S, Record, nat) -> Option<S>,
                                             merge: (M, S) -> M)
  {
    forall x: M, s: S, r: Record, depth: nat :: h(merge(x, s), r, depth) == MergedInto(merge, x, g(s, r, depth))
  }

  /** The same for any bytes, whether they parse or not. */
  lemma {:induction false} ParseMerges<M(!new), S(!new)>(h: (M, Record, nat) -> Option<M>,
                                                         g: (S, Record, nat) -> Option<S>, merge: (M, S) -> M, x: M,
                                                         s: S, bs: bytes, depth: nat)
    requires Commutes(h, g, merge)
    ensures Parse(h, merge(x, s), bs, depth) == OutcomeInto(merge, x, Parse(g, s, bs, depth))
    decreases |bs|
  {
    hide ReadTag, ReadRecord;
    match ReadTag(bs)
    case End =>
    case Malformed =>
    case Tag(tag, rest) =>
      if tag != 0 && !IsEndGroup(tag) {
        match ReadRecord(tag, rest, depth)
        case Bad =>
        case Got(r, rest') =>
          assert h(merge(x, s), r, depth) == MergedInto(merge, x, g(s, r, depth));
          if g(s, r, depth).Some? { ParseMerges(h, g, merge, x, g(s, r, depth).value, rest', depth); }
      }
  }

  lemma WholeMerges<M(!new), S(!new)>(h: (M, Record, nat) -> Option<M>, g: (S, Record, nat) -> Option<S>,
                                      merge: (M, S) -> M, x: M, s: S, bs: bytes, depth: nat)
    requires Commutes(h, g, merge)
    ensures Whole(h, merge(x, s), bs, depth) == MergedInto(merge, x, Whole(g, s, bs, depth))
  {
    hide Parse, Commutes;
    ParseMerges(h, g, merge, x, s, bs, depth);
  }

  /** For every two byte strings that are complete messages, written by a serialiser or not: parsing their
      concatenation is merging the second message into the first. */
  lemma ConcatIsMerge<M(!new)>(h: (M, Record, nat) -> Option<M>, merge: (M, M) -> M, empty: M, a: bytes, b: bytes,
                               depth: nat)
    requires Commutes(h, h, merge)
    requires Whole(h, empty, a, depth).Some? && Whole(h, empty, b, depth).Some?
    requires merge(Whole(h, empty, a, depth).value, empty) == Whole(h, empty, a, depth).value
    ensures Whole(h, empty, a + b, depth)
         == Some(merge(Whole(h, empty, a, depth).value, Whole(h, empty, b, depth).value))
  {
    hide Parse, Commutes;
    ParseConcat(h, empty, a, b, depth);
    WholeMerges(h, h, merge, Whole(h, empty, a, depth).value, empty, b, depth);
  }
}
