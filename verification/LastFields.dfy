/** What a list of fields says, by field number: the last number, text or double under a number, every payload under a
    number in order, and everything else. The field laws of the messages are stated in these terms. */
module LastFields {
  import opened Wire
  import opened Records
  import opened PlainLoop
  import opened Proto3

  /** The last varint with this field number. */
  function LastNumber(rs: seq<Record>, num: nat): Option<uint64>
  {
    if rs == [] then None
    else
      var r := rs[|rs| - 1];
      if r.VarintField? && r.num == num then Some(r.v) else LastNumber(rs[..|rs| - 1], num)
  }

  /** Every payload with this field number, in order. */
  function Payloads(rs: seq<Record>, num: nat): seq<bytes>
  {
    if rs == [] then []
    else
      var r := rs[|rs| - 1];
      Payloads(rs[..|rs| - 1], num) + if r.BytesField? && r.num == num then [r.s] else []
  }

  function LastText(rs: seq<Record>, num: nat): Option<bytes>
  {
    var ss := Payloads(rs, num);
    if ss == [] then None else Some(ss[|ss| - 1])
  }

  /** Every field with another tag than these, in order. */
  function Others(rs: seq<Record>, tags: seq<nat>): seq<Record>
  {
    if rs == [] then []
    else
      var r := rs[|rs| - 1];
      Others(rs[..|rs| - 1], tags) + if TagOf(r) in tags then [] else [r]
  }

  /** A number is the last one exactly if it stands somewhere and none with its field number stands behind it. */
  lemma {:induction false} LastNumberIs(rs: seq<Record>, num: nat, v: uint64)
    ensures LastNumber(rs, num) == Some(v)
       <==> exists i :: 0 <= i < |rs| && rs[i] == VarintField(num, v) &&
                        forall j :: i < j < |rs| ==> !(rs[j].VarintField? && rs[j].num == num)
    decreases |rs|
  {
    if rs != [] {
      var n := |rs| - 1;
      var init := rs[..n];
      LastNumberIs(init, num, v);
      if rs[n].VarintField? && rs[n].num == num {
      } else if LastNumber(init, num) == Some(v) {
        var i :| 0 <= i < |init| && init[i] == VarintField(num, v) &&
                 forall j :: i < j < |init| ==> !(init[j].VarintField? && init[j].num == num);
        assert rs[i] == VarintField(num, v);
        forall j | i < j < |rs| ensures !(rs[j].VarintField? && rs[j].num == num) {
          if j < n { assert rs[j] == init[j]; }
        }
      }
    }
  }

  /** One more field. */
  lemma Snoc(rs: seq<Record>, r: Record)
    ensures forall num :: LastNumber(rs + [r], num)
                       == if r.VarintField? && r.num == num then Some(r.v) else LastNumber(rs, num)
    ensures forall num :: Payloads(rs + [r], num)
                       == if r.BytesField? && r.num == num then Payloads(rs, num) + [r.s] else Payloads(rs, num)
    ensures forall num :: LastText(rs + [r], num)
                       == if r.BytesField? && r.num == num then Some(r.s) else LastText(rs, num)
    ensures forall tags :: Others(rs + [r], tags)
                        == if TagOf(r) in tags then Others(rs, tags) else Others(rs, tags) + [r]
  {
    assert (rs + [r])[..|rs|] == rs;
    assert forall num :: Payloads(rs, num) + [] == Payloads(rs, num);
    assert forall tags :: Others(rs, tags) + [] == Others(rs, tags);
  }

  // ---- Sub-messages -------------------------------------------------------------------------------------

  /** Each payload parsed as a message of its own. */
  function Each<M>(h: (M, Record, nat) -> Option<M>, empty: M, ss: seq<bytes>, depth: nat): Option<seq<M>>
  {
    if ss == [] then Some([])
    else
      match Each(h, empty, ss[..|ss| - 1], depth)
      case None => None
      case Some(xs) =>
        match Nested(h, empty, ss[|ss| - 1], depth)
        case None => None
        case Some(x) => Some(xs + [x])
  }

  lemma EachSnoc<M>(h: (M, Record, nat) -> Option<M>, empty: M, ss: seq<bytes>, s: bytes, depth: nat)
    ensures Each(h, empty, ss + [s], depth)
         == match Each(h, empty, ss, depth)
            case None => None
            case Some(xs) => match Nested(h, empty, s, depth) case None => None case Some(x) => Some(xs + [x])
  {
    assert (ss + [s])[..|ss|] == ss;
  }

  /** The i-th message is what the i-th payload parses to, and every payload has to. */
  lemma {:induction false} EachIs<M>(h: (M, Record, nat) -> Option<M>, empty: M, ss: seq<bytes>, depth: nat)
    ensures Each(h, empty, ss, depth).Some? <==> forall i :: 0 <= i < |ss| ==> Nested(h, empty, ss[i], depth).Some?
    ensures Each(h, empty, ss, depth).Some? ==>
              |Each(h, empty, ss, depth).value| == |ss| &&
              forall i :: 0 <= i < |ss| ==> Nested(h, empty, ss[i], depth) == Some(Each(h, empty, ss, depth).value[i])
    decreases |ss|
  {
    hide Nested;
    if ss != [] {
      var init := ss[..|ss| - 1];
      EachIs(h, empty, init, depth);
      assert forall i :: 0 <= i < |init| ==> init[i] == ss[i];
      if forall i :: 0 <= i < |ss| ==> Nested(h, empty, ss[i], depth).Some? {
        forall i | 0 <= i < |init| ensures Nested(h, empty, init[i], depth).Some? { assert init[i] == ss[i]; }
      }
    }
  }

  /** A singular sub-message: each payload is parsed into what there is. */
  function Serial<M>(h: (M, Record, nat) -> Option<M>, m: M, ss: seq<bytes>, depth: nat): Option<M>
  {
    if ss == [] then Some(m)
    else
      match Serial(h, m, ss[..|ss| - 1], depth)
      case None => None
      case Some(x) => Nested(h, x, ss[|ss| - 1], depth)
  }

  lemma SerialSnoc<M>(h: (M, Record, nat) -> Option<M>, m: M, ss: seq<bytes>, s: bytes, depth: nat)
    ensures Serial(h, m, ss + [s], depth)
         == match Serial(h, m, ss, depth) case None => None case Some(x) => Nested(h, x, s, depth)
  {
    assert (ss + [s])[..|ss|] == ss;
  }

  function Joined(ss: seq<bytes>): bytes { if ss == [] then [] else Joined(ss[..|ss| - 1]) + ss[|ss| - 1] }

  /** It is the message whose bytes are all the payloads one behind the other. */
  lemma {:induction false} SerialIsJoined<M>(h: (M, Record, nat) -> Option<M>, m: M, ss: seq<bytes>, depth: nat)
    requires depth > 0 && Serial(h, m, ss, depth).Some?
    ensures Whole(h, m, Joined(ss), depth - 1) == Serial(h, m, ss, depth)
    decreases |ss|
  {
    if ss != [] {
      var init, s := ss[..|ss| - 1], ss[|ss| - 1];
      SerialIsJoined(h, m, init, depth);
      ParseConcat(h, m, Joined(init), s, depth - 1);
    }
  }

  // ---- From one field to all ------------------------------------------------------------------------------

  lemma {:induction false} FoldSnoc<M>(h: (M, Record, nat) -> Option<M>, m: M, rs: seq<Record>, r: Record, depth: nat)
    ensures Fold(h, m, rs + [r], depth)
         == match Fold(h, m, rs, depth) case None => None case Some(x) => h(x, r, depth)
    decreases |rs|
  {
    if rs == [] {
      assert rs + [r] == [r];
      FoldOne(h, m, r, depth);
    } else {
      assert (rs + [r])[1..] == rs[1..] + [r];
      if h(m, rs[0], depth).Some? { FoldSnoc(h, h(m, rs[0], depth).value, rs[1..], r, depth); }
    }
  }

  /** A description of what a list of fields amounts to is right if it starts with the empty message and follows the
      handler from one field to the next. */
  ghost predicate Follows<M(!new)>(h: (M, Record, nat) -> Option<M>, empty: M, of: seq<Record> -> Option<M>, depth: nat)
  {
    of([]) == Some(empty) &&
    forall rs: seq<Record>, r: Record ::
      of(rs + [r]) == match of(rs) case None => None case Some(m) => h(m, r, depth)
  }

  lemma {:induction false} FoldIs<M(!new)>(h: (M, Record, nat) -> Option<M>, empty: M, of: seq<Record> -> Option<M>,
                                           rs: seq<Record>, depth: nat)
    requires Follows(h, empty, of, depth)
    ensures Fold(h, empty, rs, depth) == of(rs)
    decreases |rs|
  {
    if rs != [] {
      var init, r := rs[..|rs| - 1], rs[|rs| - 1];
      assert init + [r] == rs;
      FoldIs(h, empty, of, init, depth);
      FoldSnoc(h, empty, init, r, depth);
    }
  }

  // ---- From bytes to fields ----------------------------------------------------------------------------------

  /** The fields of a byte string, if it consists of whole fields up to its end. */
  function FieldsOf(bs: bytes, depth: nat): Option<seq<Record>>
    decreases |bs|
  {
    match ReadTag(bs)
    case End => Some([])
    case Malformed => None
    case Tag(tag, rest) =>
      if tag == 0 || IsEndGroup(tag) then None
      else
        match ReadRecord(tag, rest, depth)
        case Bad => None
        case Got(r, rest') =>
          match FieldsOf(rest', depth)
          case None => None
          case Some(rs) => Some([r] + rs)
  }

  /** A byte string that starts with a whole field. */
  lemma WholeCons<M>(h: (M, Record, nat) -> Option<M>, m: M, bs: bytes, depth: nat)
    requires ReadTag(bs).Tag? && ReadTag(bs).tag != 0 && !IsEndGroup(ReadTag(bs).tag)
    requires ReadRecord(ReadTag(bs).tag, ReadTag(bs).rest, depth).Got?
    ensures var r := ReadRecord(ReadTag(bs).tag, ReadTag(bs).rest, depth);
            Whole(h, m, bs, depth) == match h(m, r.value, depth)
                                      case None => None
                                      case Some(m') => Whole(h, m', r.rest, depth)
  {
    hide ReadTag, ReadRecord;
    var t := ReadTag(bs);
    assert Parse(h, m, bs, depth) == AfterTag(h, m, t.tag, t.rest, depth);
  }

  /** Parsing bytes is taking their fields one after the other. */
  lemma {:induction false} WholeIsFold<M>(h: (M, Record, nat) -> Option<M>, m: M, bs: bytes, depth: nat)
    ensures Whole(h, m, bs, depth)
         == match FieldsOf(bs, depth) case None => None case Some(rs) => Fold(h, m, rs, depth)
    decreases |bs|
  {
    hide ReadTag, ReadRecord;
    match ReadTag(bs)
    case End =>
    case Malformed =>
    case Tag(tag, rest) =>
      assert Parse(h, m, bs, depth) == AfterTag(h, m, tag, rest, depth);
      if tag != 0 && !IsEndGroup(tag) {
        match ReadRecord(tag, rest, depth)
        case Bad =>
        case Got(r, rest') =>
          WholeCons(h, m, bs, depth);
          if FieldsOf(rest', depth).Some? { FoldCons(h, m, r, FieldsOf(rest', depth).value, depth); }
          if h(m, r, depth).Some? { WholeIsFold(h, h(m, r, depth).value, rest', depth); }
      }
  }

  /** Written fields are read as they are. */
  lemma {:induction false} FieldsWritten(rs: seq<Record>, depth: nat)
    requires AllFit(rs, depth)
    ensures FieldsOf(EncodeAll(rs), depth) == Some(rs)
    decreases |rs|
  {
    hide ReadRecord, Encode, Payload;
    if rs != [] {
      var r, more := rs[0], EncodeAll(rs[1..]);
      assert Fits(r, depth);
      EncodeCons(rs, []);
      assert EncodeAll(rs) + [] == EncodeAll(rs) && more + [] == more;
      TagParts(r);
      TagRoundTrip(TagOf(r), Payload(r) + more);
      RecordRoundTrip(r, depth, more);
      FieldsWritten(rs[1..], depth);
      assert [r] + rs[1..] == rs;
    }
  }
}
