/** What a line means when it carries an inline comment, whitespace around its parts, or something behind its section
    name; which lines are comments and which are malformed. */
module IniComments {
  import opened Ini
  import opened IniPrinter

  ghost predicate Blank(s: string) { forall c :: c in s ==> IsSpace(c) }

  /** isspace in the C locale, by character codes. */
  lemma SpaceIff(c: char)
    ensures IsSpace(c) <==> c as int == 32 || 9 <= c as int <= 13
  {
  }

  // ---- Trimming a line into its body --------------------------------------------------------------------

  /** Whitespace in front and behind is dropped; what is left decides. */
  lemma LineIs(indent: string, body: string, tail: string, first: bool, hasPrev: bool)
    requires Blank(indent) && Blank(tail) && body != "" && Trimmed(body)
    requires !(first && BOM <= indent + body + tail)
    ensures Classify(indent + body + tail, first, hasPrev) == LineEffect(body, indent != "", hasPrev)
  {
    hide RTrim, LTrim, LineEffect, IsSpace;
    var line := indent + body + tail;
    assert line[0..] == line;
    assert (indent + body)[|indent + body| - 1] == body[|body| - 1];
    RTrimIs(indent + body, tail);
    LTrimIs(indent, body);
  }

  /** A text is what is left of it on the right, and whitespace. */
  lemma RightParts(s: string) returns (w: string)
    ensures s == RTrim(s) + w && Blank(w)
  {
    RTrimEnds(s);
    TrimParts(s);
    w := s[|RTrim(s)|..];
  }

  // ---- Values ---------------------------------------------------------------------------------------------

  /** A scan for an inline comment alone. */
  lemma CommentAt(v: string, w: string, c: string)
    requires !HasComment(v) && Blank(w) && w != "" && v != "" && !IsSpace(v[|v| - 1])
    ensures Scan(v + w + ";" + c, "", false) == |v + w|
  {
    hide Scan, IsSpace;
    var u, n := v + w + ";" + c, |v + w|;
    SemicolonIsNoSpace();
    assert u[n] == ';' && u[n - 1] == w[|w| - 1];
    assert StopAt(u, "", false, n);
    forall i | 0 <= i < n ensures !StopAt(u, "", false, i) {
      if i < |v| {
        assert u[i] == v[i] && (i > 0 ==> u[i - 1] == v[i - 1]);
        assert !(i > 0 && v[i] == ';' && IsSpace(v[i - 1]));
      } else {
        assert u[i] == w[i - |v|];
      }
    }
    ScanIs(u, "", false, n);
  }

  lemma SemicolonIsNoSpace()
    ensures !IsSpace(';') && !IsSpace('#') && !IsSpace('=') && !IsSpace(':') && !IsSpace('[') && !IsSpace(']')
  {
  }

  /** A value in front of an inline comment, behind any whitespace. */
  lemma CommentedValue(after: string, v: string, w: string, c: string)
    requires Blank(after) && ValueOk(v) && v != "" && Blank(w) && w != ""
    ensures ValueOf(after + (v + w + ";" + c)) == v
  {
    hide Scan, IsSpace, RTrim, LTrim, HasComment;
    TrimmedEnds(v);
    var u := v + w + ";" + c;
    assert u[0] == v[0];
    LTrimIs(after, u);
    CommentAt(v, w, c);
    assert u[..|v + w|] == v + w;
    RTrimIs(v, w);
  }

  lemma PlainValue(after: string, v: string)
    requires Blank(after) && ValueOk(v)
    ensures ValueOf(after + v) == v
  {
    hide Scan, IsSpace, RTrim, LTrim, HasComment;
    assert v == "" || !IsSpace(v[0]) by { if v != "" { TrimmedEnds(v); } }
    LTrimIs(after, v);
    ScanThrough(v, "", "");
    assert v + "" == v && v[..|v|] == v;
    TrimBoth(v);
  }

  // ---- Pairs ----------------------------------------------------------------------------------------------------

  /** The separator found is the first one, whatever stands behind it, and whitespace in front of it is dropped. */
  lemma PairIs(name: string, before: string, sep: char, x: string)
    requires NameOk(name) && Blank(before) && (sep == '=' || sep == ':')
    ensures PairLine(name + before + [sep] + x) == Pair(name, ValueOf(x))
  {
    hide Scan, IsSpace, RTrim, ValueOf, HasComment, Trimmed;
    var front := name + before;
    NoStops(name, before);
    assert front + ([sep] + x) == front + [sep] + x;
    ScanThrough(front, [sep] + x, "=:");
    var t := front + [sep] + x;
    assert t[|front|] == sep && t[..|front|] == front && t[|front| + 1..] == x;
    TrimmedName2(name);
    RTrimIs(name, before);
  }

  lemma TrimmedName2(s: string)
    requires Trimmed(s)
    ensures s == "" || !IsSpace(s[|s| - 1])
  {
  }

  lemma NoStops(name: string, before: string)
    requires NameOk(name) && Blank(before)
    ensures !HasComment(name + before) && forall c :: c in name + before ==> c !in "=:"
  {
    hide IsSpace;
    SemicolonIsNoSpace();
    var front := name + before;
    assert forall i :: |name| <= i < |front| ==> front[i] in before;
    forall i | 0 < i < |front| && front[i] == ';' ensures !IsSpace(front[i - 1]) {
      assert name[i] == ';' && front[i - 1] == name[i - 1];
    }
  }

  /** The beginning of a pair line. */
  ghost predicate PairFront(indent: string, name: string, before: string, sep: char, first: bool, hasPrev: bool)
  {
    Blank(indent) && NameOk(name) && Blank(before) && (name == "" ==> before == "") && (sep == '=' || sep == ':') &&
    (hasPrev ==> indent == "") && !(first && BOM <= indent + name)
  }

  lemma PairBody2(indent: string, name: string, before: string, sep: char, x: string, tail: string, first: bool,
                  hasPrev: bool)
    requires PairFront(indent, name, before, sep, first, hasPrev) && Blank(tail)
    requires x == "" || !IsSpace(x[|x| - 1])
    ensures Classify(indent + (name + before + [sep] + x) + tail, first, hasPrev) == Pair(name, ValueOf(x))
  {
    hide Classify, PairLine, IsSpace, ValueOf, HasComment, LineEffect;
    SemicolonIsNoSpace();
    var body := name + before + [sep] + x;
    assert body[0] == if name == "" then sep else name[0];
    assert body[|body| - 1] == if x == "" then sep else x[|x| - 1];
    NoBomInFront(indent, name, before, sep, x, tail);
    LineIs(indent, body, tail, first, hasPrev);
    PairStarts2(body, indent != "", hasPrev);
    PairIs(name, before, sep, x);
  }

  lemma PairStarts2(t: string, indented: bool, hasPrev: bool)
    requires t != "" && t[0] != ';' && t[0] != '#' && t[0] != '[' && !(hasPrev && indented)
    ensures LineEffect(t, indented, hasPrev) == PairLine(t)
  {
    hide PairLine;
  }

  /** A mark at the start of the line lies within what is in front of the separator. */
  lemma NoBomInFront(indent: string, name: string, before: string, sep: char, x: string, tail: string)
    requires Blank(before) && (sep == '=' || sep == ':') && (name == "" ==> before == "")
    ensures BOM <= indent + (name + before + [sep] + x) + tail ==> BOM <= indent + name
  {
    var front := indent + name;
    var line := indent + (name + before + [sep] + x) + tail;
    assert line == front + (before + [sep] + x + tail);
    var rest := before + [sep] + x + tail;
    assert rest[0] == if before == "" then sep else before[0];
    if before != "" { assert before[0] in before; }
    if |front| < 3 {
      assert line[|front|] == rest[0] != BOM[|front|];
    } else {
      assert front[..3] == line[..3];
    }
  }

  /** A pair may be indented, its separator is '=' or ':' with whitespace around it, and an inline comment of any text
      may follow the value: the handler gets the name and the value alone. */
  lemma CommentedPair(indent: string, name: string, before: string, sep: char, after: string, v: string, w: string,
                      c: string, first: bool, hasPrev: bool)
    requires PairFront(indent, name, before, sep, first, hasPrev) && Blank(after)
    requires ValueOk(v) && v != "" && Blank(w) && w != ""
    ensures Classify(indent + name + before + [sep] + after + v + w + ";" + c + "\n", first, hasPrev) == Pair(name, v)
  {
    hide Classify, HasComment, IsSpace, ValueOf, NameOk, ValueOk, BOM;
    var tail := RightParts(c + "\n");
    var d := RTrim(c + "\n");
    SemicolonIsNoSpace();
    var x := after + (v + w + ";" + d);
    RTrimEnds(c + "\n");
    assert x[|x| - 1] == if d == "" then ';' else d[|d| - 1];
    PairBody2(indent, name, before, sep, x, tail, first, hasPrev);
    CommentedValue(after, v, w, d);
    assert indent + name + before + [sep] + after + v + w + ";" + c + "\n"
        == indent + (name + before + [sep] + x) + tail;
  }

  /** The same without a comment. */
  lemma SpacedPair(indent: string, name: string, before: string, sep: char, after: string, v: string, tail: string,
                   first: bool, hasPrev: bool)
    requires PairFront(indent, name, before, sep, first, hasPrev) && Blank(after) && ValueOk(v) && Blank(tail)
    ensures Classify(indent + name + before + [sep] + after + v + tail + "\n", first, hasPrev) == Pair(name, v)
  {
    hide Classify, HasComment, IsSpace, ValueOf, NameOk;
    NewlineIsSpace();
    var line := indent + name + before + [sep] + after + v + tail + "\n";
    if v == "" {
      PairBody2(indent, name, before, sep, "", after + tail + "\n", first, hasPrev);
      PlainValue("", "");
      assert "" + "" == "";
      assert line == indent + (name + before + [sep] + "") + (after + tail + "\n");
    } else {
      TrimmedEnds(v);
      PairBody2(indent, name, before, sep, after + v, tail + "\n", first, hasPrev);
      PlainValue(after, v);
      assert line == indent + (name + before + [sep] + (after + v)) + (tail + "\n");
    }
  }

  /** With nothing between separator and ';' there is no comment: the whole rest is the value. */
  lemma CommentBehindNothing(name: string, before: string, sep: char, after: string, c: string, tail: string,
                             first: bool, hasPrev: bool)
    requires PairFront("", name, before, sep, first, hasPrev) && Blank(after) && Blank(tail) && ValueOk(";" + c)
    ensures Classify(name + before + [sep] + after + ";" + c + tail + "\n", first, hasPrev) == Pair(name, ";" + c)
  {
    hide Classify, ValueOk, PairFront;
    SpacedPair("", name, before, sep, after, ";" + c, tail, first, hasPrev);
    assert "" + name + before + [sep] + after + (";" + c) + tail + "\n"
        == name + before + [sep] + after + ";" + c + tail + "\n";
  }

  // ---- Sections and comment lines -------------------------------------------------------------------------------

  /** Whatever stands behind the bracket, an inline comment for instance, does not matter; of a long name the first
      49 characters are kept. */
  lemma SectionLine(indent: string, s: string, tail: string, first: bool, hasPrev: bool)
    requires Blank(indent) && (hasPrev ==> indent == "") && ']' !in s && !HasComment(s)
    ensures var e := Classify(indent + "[" + s + "]" + tail + "\n", first, hasPrev);
            e.Header? && e.section <= s && |e.section| == if |s| < 50 then |s| else 49
  {
    hide Classify, HasComment, IsSpace, RTrim, LTrim, HeaderLine, LineEffect, Blank;
    SemicolonIsNoSpace();
    var front := "[" + s + "]";
    var d, w := LineParts(indent, front, tail);
    assert front + (d + w) == ['['] + (s + "]" + (d + w));
    NoBomBehind(indent, '[', s + "]" + (d + w));
    assert indent + "[" + s + "]" + tail + "\n" == indent + front + tail + "\n";
    LineIs(indent, front + d, w, first, hasPrev);
    HeaderEffect(front + d, indent != "", hasPrev);
    SectionName(s, d);
  }

  /** A line cut into indentation, body and the whitespace behind it, if its front does not end in whitespace. */
  lemma LineParts(indent: string, front: string, more: string) returns (d: string, w: string)
    requires front != "" && !IsSpace(front[|front| - 1])
    ensures indent + front + more + "\n" == indent + (front + d) + w
    ensures indent + (front + d) + w == indent + (front + (d + w))
    ensures Blank(w) && !IsSpace((front + d)[|front + d| - 1])
  {
    hide IsSpace, RTrim, Blank;
    var s := more + "\n";
    w := RightParts(s);
    d := RTrim(s);
    RTrimEnds(s);
    Regroup(indent, front, d, w);
    Regroup(indent, front, more, "\n");
    LastOf(front, d);
  }

  lemma Regroup(a: string, b: string, c: string, d: string)
    ensures a + b + (c + d) == a + b + c + d == a + (b + c) + d == a + (b + (c + d))
  {
  }

  lemma LastOf(a: string, b: string)
    requires a != ""
    ensures (a + b)[|a + b| - 1] == if b == "" then a[|a| - 1] else b[|b| - 1]
  {
  }

  lemma SectionName(s: string, d: string)
    requires ']' !in s && !HasComment(s)
    ensures var e := HeaderLine("[" + s + "]" + d);
            e.Header? && e.section <= s && |e.section| == if |s| < 50 then |s| else 49
  {
    hide HasComment, Scan;
    var body := "[" + s + "]" + d;
    assert body[1..] == s + ("]" + d);
    ScanThrough(s, "]" + d, "]");
    assert body[1..1 + |s|] == s && body[1 + |s|] == ']';
  }

  lemma HeaderEffect(t: string, indented: bool, hasPrev: bool)
    requires t != "" && t[0] == '[' && !(hasPrev && indented)
    ensures LineEffect(t, indented, hasPrev) == HeaderLine(t)
  {
    hide HeaderLine;
  }

  /** A line that starts, behind any whitespace, with a character that is no part of a mark. */
  lemma NoBomBehind(indent: string, x: char, rest: string)
    requires Blank(indent) && x in ";#["
    ensures !(BOM <= indent + ([x] + rest))
  {
    var line := indent + ([x] + rest);
    assert line[0] == if indent == "" then x else indent[0];
    if indent != "" { assert indent[0] in indent; }
    assert line[0] != BOM[0];
  }

  /** A line that starts with ';' or '#', behind any whitespace, gives no call and no error, whatever it says. */
  lemma CommentLine(accept: Handler, st: State, lineno: nat, indent: string, x: char, c: string)
    requires Blank(indent) && (x == ';' || x == '#')
    ensures Step(accept, st, lineno, indent + [x] + c + "\n") == st
  {
    hide Classify, IsSpace, RTrim, LTrim, LineEffect, Step, Blank;
    SemicolonIsNoSpace();
    var d, w := LineParts(indent, [x], c);
    NoBomBehind(indent, x, d + w);
    LineIs(indent, [x] + d, w, lineno == 1, st.prevName != "");
    CommentEffect([x] + d, indent != "", st.prevName != "");
    StepIs(accept, st, lineno, indent + [x] + c + "\n");
  }

  lemma StepIs(accept: Handler, st: State, lineno: nat, chunk: string)
    requires Classify(chunk, lineno == 1, st.prevName != "") == Nothing
    ensures Step(accept, st, lineno, chunk) == st
  {
    hide Classify;
  }

  lemma CommentEffect(t: string, indented: bool, hasPrev: bool)
    requires t != "" && (t[0] == ';' || t[0] == '#')
    ensures LineEffect(t, indented, hasPrev) == Nothing
  {
  }

  // ---- Which lines are malformed -----------------------------------------------------------------------------------

  /** One of `stops` stands in the text, and no inline comment begins before it. */
  ghost predicate Reachable(s: string, stops: string)
  {
    exists i :: 0 <= i < |s| && s[i] in stops && !HasComment(s[..i])
  }

  lemma ReachableIff(s: string, stops: string)
    requires ';' !in stops
    ensures var n := Scan(s, stops, false); (n < |s| && s[n] in stops) <==> Reachable(s, stops)
  {
    hide Scan, IsSpace;
    var n := Scan(s, stops, false);
    ScanIs(s, stops, false, n);
    if n < |s| && s[n] in stops {
      forall j | 0 < j < n && s[..n][j] == ';' ensures !IsSpace(s[..n][j - 1]) { assert !StopAt(s, stops, false, j); }
      assert !HasComment(s[..n]);
    } else {
      forall i | 0 <= i < |s| && s[i] in stops ensures HasComment(s[..i]) {
        assert StopAt(s, stops, false, i);
        assert n < i && StopAt(s, stops, false, n);
        assert s[..i][n] == ';' && IsSpace(s[..i][n - 1]);
      }
    }
  }

  /** Of the lines that are neither blank nor comments nor continuations, those are malformed that lack a ']' behind
      their '[', or a separator, in front of an inline comment. */
  lemma MalformedIff(indent: string, body: string, tail: string, first: bool, hasPrev: bool)
    requires Blank(indent) && Blank(tail) && body != "" && Trimmed(body) && !(first && BOM <= indent + body + tail)
    requires body[0] != ';' && body[0] != '#' && (hasPrev ==> indent == "")
    ensures Classify(indent + body + tail, first, hasPrev) == Malformed
       <==> if body[0] == '[' then !Reachable(body[1..], "]") else !Reachable(body, "=:")
  {
    hide Classify, Scan, LineEffect, Reachable, HasComment, IsSpace, RTrim, ValueOf;
    LineIs(indent, body, tail, first, hasPrev);
    if body[0] == '[' {
      HeaderEffect(body, indent != "", hasPrev);
      ReachableIff(body[1..], "]");
      var n := Scan(body[1..], "]", false);
      assert n < |body| - 1 ==> body[1..][n] == body[1 + n];
    } else {
      PairStarts2(body, indent != "", hasPrev);
      ReachableIff(body, "=:");
    }
  }

  // ---- In a whole text ---------------------------------------------------------------------------------------

  /** A line may be replaced by any other line that means the same in its place. */
  lemma SameMeaning(accept: Handler, pre: string, line: string, other: string, post: string)
    requires pre == "" || pre[|pre| - 1] == '\n'
    requires OneLine(line) && OneLine(other)
    requires var hasPrev := Parse(accept, pre).prevName != "";
             Classify(line, pre == "", hasPrev) == Classify(other, pre == "", hasPrev)
    ensures Parse(accept, pre + line + post) == Parse(accept, pre + other + post)
  {
    hide Run, LineLength, Classify, Chunks, ChunkLength;
    ChunksAtLine(pre, line, post);
    ChunksAtLine(pre, other, post);
    NoChunks(pre);
    RunThrough(accept, Chunks(pre), line, Chunks(post));
    RunThrough(accept, Chunks(pre), other, Chunks(post));
  }

  /** Comments behind values do not matter: they can be deleted from any line that fits the buffer. */
  lemma CommentsAreDropped(accept: Handler, pre: string, name: string, before: string, sep: char, after: string,
                           v: string, w: string, c: string, post: string)
    requires pre == "" || pre[|pre| - 1] == '\n'
    requires PairFront("", name, before, sep, pre == "", Parse(accept, pre).prevName != "") && Blank(after)
    requires ValueOk(v) && v != "" && Blank(w) && w != ""
    requires OneLine(name + before + [sep] + after + v + w + ";" + c + "\n") && OneLine(name + "=" + v + "\n")
    ensures Parse(accept, pre + (name + before + [sep] + after + v + w + ";" + c + "\n") + post)
         == Parse(accept, pre + (name + "=" + v + "\n") + post)
  {
    hide Parse, OneLine, Classify, PairFront, ValueOk, Blank;
    var first, hasPrev := pre == "", Parse(accept, pre).prevName != "";
    CommentedPair("", name, before, sep, after, v, w, c, first, hasPrev);
    FrontOf(name, before, sep, first, hasPrev);
    PairPrinted(name, v, first, hasPrev);
    assert "" + name + before + [sep] + after + v + w + ";" + c + "\n"
        == name + before + [sep] + after + v + w + ";" + c + "\n";
    SameMeaning(accept, pre, name + before + [sep] + after + v + w + ";" + c + "\n", name + "=" + v + "\n", post);
  }

  lemma FrontOf(name: string, before: string, sep: char, first: bool, hasPrev: bool)
    requires PairFront("", name, before, sep, first, hasPrev)
    ensures NameOk(name) && !(first && BOM <= name)
  {
    assert "" + name == name;
  }
}
