/** Writing a configuration down so that the parser reads it back: exactly which texts survive as a section
    name, as a name, as a value and as a continuation line, and the round trip of a whole file. */
module IniPrinter {
  import opened Ini

  // ---- Which texts survive ------------------------------------------------------------------------

  /** An inline comment: a ';' behind whitespace. */
  ghost predicate HasComment(s: string)
  {
    exists i :: 0 < i < |s| && s[i] == ';' && IsSpace(s[i - 1])
  }

  ghost predicate HeaderOk(s: string)
  {
    |s| < MAX_SECTION && ']' !in s && !HasComment(s)
  }

  ghost predicate NameOk(s: string)
  {
    Trimmed(s) && '=' !in s && ':' !in s && !HasComment(s) && (s == "" || (s[0] != ';' && s[0] != '#' && s[0] != '['))
  }

  ghost predicate ValueOk(s: string)
  {
    Trimmed(s) && !HasComment(s)
  }

  predicate MoreOk(s: string)
  {
    s != "" && Trimmed(s) && s[0] != ';' && s[0] != '#'
  }

  function HeaderText(s: string): string { "[" + s + "]\n" }
  function PairText(name: string, value: string): string { name + "=" + value + "\n" }
  function MoreText(indent: string, s: string): string { indent + s + "\n" }

  // ---- Section lines -----------------------------------------------------------------------------------

  /** A scan for one of `stops` runs through s exactly if s contains neither a stop nor a comment. */
  lemma ScanThrough(s: string, rest: string, stops: string)
    requires rest != "" ==> rest[0] in stops
    ensures Scan(s + rest, stops, false) == |s| <==> (forall c :: c in s ==> c !in stops) && !HasComment(s)
  {
    var u := s + rest;
    ScanIs(u, stops, false, |s|);
    forall i | 0 <= i < |s| ensures u[i] == s[i] { }
    if (forall c :: c in s ==> c !in stops) && !HasComment(s) {
      forall i | 0 <= i < |s| ensures !StopAt(u, stops, false, i) { assert s[i] in s; }
    } else if HasComment(s) {
      var i :| 0 < i < |s| && s[i] == ';' && IsSpace(s[i - 1]);
      assert StopAt(u, stops, false, i);
    } else {
      var c :| c in s && c in stops;
      var i :| 0 <= i < |s| && s[i] == c;
      assert StopAt(u, stops, false, i);
    }
  }

  /** A scan does not get past a stop. */
  lemma ScanStops(s: string, rest: string, stops: string)
    requires rest != "" && rest[0] in stops
    ensures Scan(s + rest, stops, false) <= |s|
  {
    var u := s + rest;
    var n := Scan(u, stops, false);
    ScanIs(u, stops, false, n);
    if n > |s| {
      assert StopAt(u, stops, false, |s|);
      assert false;
    }
  }

  lemma LineOf(body: string, first: bool, hasPrev: bool)
    requires body != "" && !IsSpace(body[0]) && !IsSpace(body[|body| - 1]) && !(first && BOM <= body)
    ensures Classify(body + "\n", first, hasPrev) == LineEffect(body, false, hasPrev)
  {
    hide RTrim, LTrim, LineEffect, IsSpace;
    var line := body + "\n";
    assert IsSpace('\n') by { NewlineIsSpace(); }
    NoNewBom(body);
    assert line[0..] == line;
    RTrimIs(body, "\n");
    LTrimIs("", body);
    assert "" + body == body;
  }

  lemma NewlineIsSpace()
    ensures IsSpace('\n')
  {
  }

  lemma NoNewBom(body: string)
    ensures BOM <= body + "\n" ==> BOM <= body
  {
    if BOM <= body + "\n" {
      assert (body + "\n")[2] == BOM[2];
      assert |body| >= 3;
      assert body == (body + "\n")[..|body|];
    }
  }

  /** A section name comes back exactly if it fits its buffer and holds neither ']' nor an inline comment.
      Brackets of the other kind, separators and whitespace are no problem. */
  lemma HeaderPrinted(s: string, first: bool, hasPrev: bool)
    ensures Classify(HeaderText(s), first, hasPrev) == Header(s) <==> HeaderOk(s)
  {
    hide Scan, HasComment, Classify;
    var t := "[" + s + "]";
    assert HeaderText(s) == t + "\n";
    assert t[0] == '[' != BOM[0];
    LineOf(t, first, hasPrev);
    assert t[1..] == s + "]";
    ScanThrough(s, "]", "]");
    ScanStops(s, "]", "]");
    var n := Scan(s + "]", "]", false);
    assert t[1..1 + n] == s[..n];
    assert LineEffect(t, false, hasPrev) == HeaderLine(t);
  }

  // ---- Pairs -----------------------------------------------------------------------------------------------

  lemma {:induction false} RTrimNewline(s: string)
    ensures RTrim(s + "\n") == RTrim(s)
  {
    assert (s + "\n")[..|s|] == s;
  }

  /** A value comes back exactly if it is trimmed and holds no inline comment; it may begin with ';' or be
      empty. */
  lemma ValuePrinted(v: string)
    ensures ValueOf(RTrim(v + "\n")) == v <==> ValueOk(v)
  {
    hide Scan, HasComment, Trimmed, RTrim, LTrim, ValueOf;
    RTrimNewline(v);
    var x := RTrim(v);
    TrimBoth(v);
    var y := LTrim(x);
    ScanThrough(v, "", "");
    assert v + "" == v;
    if ValueOf(x) == v {
      ValueIsShorter(x);
      TrimParts(v);
      SameLength(x, v);
      assert y == v;
    } else if ValueOk(v) {
      ValueWhole(v);
    }
  }

  lemma SameLength(a: string, b: string)
    requires a <= b && |a| == |b|
    ensures a == b
  {
  }

  lemma ValueIsShorter(x: string)
    ensures |ValueOf(x)| <= Scan(LTrim(x), "", false) <= |LTrim(x)| <= |x|
    ensures |LTrim(x)| == |x| ==> LTrim(x) == x
  {
    TrimParts(x);
  }

  lemma ValueWhole(v: string)
    requires LTrim(v) == v && RTrim(v) == v && Scan(v, "", false) == |v|
    ensures ValueOf(v) == v
  {
    assert v[..|v|] == v;
  }

  lemma {:induction false} LTrimAppend(x: string, y: string)
    ensures LTrim(x) != "" ==> LTrim(x + y) == LTrim(x) + y
    ensures LTrim(x) == "" ==> LTrim(x + y) == LTrim(y)
    decreases |x|
  {
    if x == "" {
      assert x + y == y;
    } else if IsSpace(x[0]) {
      assert (x + y)[1..] == x[1..] + y;
      LTrimAppend(x[1..], y);
    }
  }

  lemma SeparatorIsNoSpace()
    ensures !IsSpace('=')
  {
  }

  /** The line of a pair without the newline and the whitespace at its end. */
  lemma PairBody(name: string, value: string)
    ensures RTrim(PairText(name, value)) == name + ("=" + RTrim(value + "\n"))
  {
    hide RTrim, IsSpace;
    var x, y := name + "=", value + "\n";
    assert PairText(name, value) == x + y;
    assert x[|x| - 1] == '=' && !IsSpace('=') by { SeparatorIsNoSpace(); }
    RTrimKeeps(x, y);
    assert x + RTrim(y) == name + ("=" + RTrim(y));
  }

  /** If whitespace or a byte order mark was dropped in front, the name has become shorter. */
  lemma ShorterName(x: string, y: string)
    requires y != "" && y[0] == '='
    ensures var e := PairLine(x + y); e.Pair? ==> |e.name| <= |x|
  {
    hide ValueOf;
    ScanStops(x, y, "=:");
  }

  lemma PairStarts(t: string, indented: bool, hasPrev: bool)
    ensures LineEffect(t, indented, hasPrev).Pair? ==>
              t != "" && t[0] != ';' && t[0] != '#' && t[0] != '[' && LineEffect(t, indented, hasPrev) == PairLine(t)
    ensures t != "" && t[0] != ';' && t[0] != '#' && t[0] != '[' && !indented ==>
              LineEffect(t, indented, hasPrev) == PairLine(t)
  {
    hide PairLine;
  }

  /** A name that is stripped of something in front does not come back. */
  lemma StrippedName(b: nat, name: string, value: string, indented: bool, hasPrev: bool)
    requires b <= |name| && (b > 0 || (name != "" && IsSpace(name[0])))
    ensures var e := LineEffect(LTrim(RTrim(PairText(name, value)[b..])), indented, hasPrev);
            e.Pair? ==> |e.name| < |name|
  {
    hide RTrim, LTrim, LineEffect, PairLine, IsSpace;
    var r, w := name[b..], "=" + RTrim(value + "\n");
    assert PairText(name, value)[b..] == PairText(r, value);
    PairBody(r, value);
    LTrimAppend(r, w);
    LTrimOfSeparator(w);
    PairStarts(LTrim(r + w), indented, hasPrev);
    ShorterName(LTrim(r), w);
    assert LTrim(r) == "" ==> LTrim(r) + w == w;
    if b == 0 { LTrimShrinks(name); assert r == name; }
  }

  lemma LTrimOfSeparator(w: string)
    requires w != "" && w[0] == '='
    ensures LTrim(w) == w
  {
  }

  lemma LTrimShrinks(s: string)
    requires s != "" && IsSpace(s[0])
    ensures |LTrim(s)| < |s|
  {
  }

  /** A line that starts with the name itself. */
  lemma PlainName(name: string, value: string, hasPrev: bool)
    requires name == "" || !IsSpace(name[0])
    ensures LineEffect(RTrim(PairText(name, value)), false, hasPrev) == Pair(name, value)
       <==> NameOk(name) && ValueOk(value)
  {
    hide RTrim, Scan, ValueOf, HasComment, ValueOk, IsSpace, LineEffect, Trimmed;
    var w := "=" + RTrim(value + "\n");
    var t := name + w;
    PairBody(name, value);
    PairStarts(t, false, hasPrev);
    assert t[0] == if name == "" then '=' else name[0];
    ScanThrough(name, w, "=:");
    ScanStops(name, w, "=:");
    ValuePrinted(value);
    TrimmedName(name);
    var n := Scan(t, "=:", false);
    assert t[..n] == name[..n];
    assert n == |name| ==> t[n] == '=' && t[n + 1..] == RTrim(value + "\n") && name[..n] == name;
    assert forall c :: c in name ==> (c !in "=:" <==> c != '=' && c != ':');
  }

  lemma TrimmedName(s: string)
    requires s == "" || !IsSpace(s[0])
    ensures Trimmed(s) <==> RTrim(s) == s
  {
    RTrimEnds(s);
    TrimBoth(s);
  }

  /** A pair comes back exactly if its name and its value do; on the first line the name must not begin with
      a byte order mark. */
  lemma PairPrinted(name: string, value: string, first: bool, hasPrev: bool)
    ensures Classify(PairText(name, value), first, hasPrev) == Pair(name, value)
       <==> NameOk(name) && ValueOk(value) && !(first && BOM <= name)
  {
    hide RTrim, LTrim, LineEffect, IsSpace, HasComment, ValueOk;
    var line := PairText(name, value);
    BomInName(name, value);
    var b := BomLength(line, first);
    var s := RTrim(line[b..]);
    assert NameOk(name) ==> name == "" || !IsSpace(name[0]);
    if b > 0 || (name != "" && IsSpace(name[0])) {
      StrippedName(b, name, value, b > 0 || |LTrim(s)| < |s|, hasPrev);
    } else {
      assert line[0..] == line;
      PairBody(name, value);
      NotIndented(name, "=" + RTrim(value + "\n"));
      PlainName(name, value, hasPrev);
    }
  }

  lemma NotIndented(name: string, w: string)
    requires (name == "" || !IsSpace(name[0])) && w != "" && w[0] == '='
    ensures LTrim(name + w) == name + w
  {
    assert name == "" ==> name + w == w;
  }

  lemma BomInName(name: string, value: string)
    ensures BOM <= PairText(name, value) <==> BOM <= name
  {
    var line := PairText(name, value);
    assert forall i :: 0 <= i < |name| ==> line[i] == name[i];
    assert line[|name|] == '=';
    if BOM <= line {
      assert line[0] == BOM[0] && line[1] == BOM[1] && line[2] == BOM[2];
      assert |name| >= 3;
    }
  }

  // ---- Continuation lines --------------------------------------------------------------------------------------

  /** A further line of a value comes back, behind any indent, exactly if it is trimmed, not empty and does
      not look like a comment line. Brackets, separators and inline comments are kept as they are. */
  lemma MorePrinted(indent: string, s: string)
    requires indent != "" && forall c :: c in indent ==> IsSpace(c)
    ensures Classify(MoreText(indent, s), false, true) == Continuation(s) <==> MoreOk(s)
  {
    hide RTrim, LTrim, LineEffect, IsSpace, Trimmed, Classify;
    var line := MoreText(indent, s);
    var u := RTrim(line);
    ClassifyLater(line);
    TrimBoth(line);
    MoreEffect(LTrim(u), |LTrim(u)| < |u|);
    if MoreOk(s) { MoreTrims(indent, s); }
  }

  lemma ClassifyLater(line: string)
    ensures Classify(line, false, true)
         == LineEffect(LTrim(RTrim(line)), |LTrim(RTrim(line))| < |RTrim(line)|, true)
  {
    hide RTrim, LTrim, LineEffect;
    assert line[0..] == line;
  }

  lemma MoreTrims(indent: string, s: string)
    requires forall c :: c in indent ==> IsSpace(c)
    requires Trimmed(s) && s != ""
    ensures RTrim(MoreText(indent, s)) == indent + s && LTrim(indent + s) == s
  {
    hide RTrim, LTrim, IsSpace, Trimmed;
    NewlineIsSpace();
    TrimmedEnds(s);
    RTrimIs(indent + s, "\n");
    LTrimIs(indent, s);
  }

  lemma TrimmedEnds(s: string)
    requires Trimmed(s) && s != ""
    ensures !IsSpace(s[0]) && !IsSpace(s[|s| - 1])
  {
  }

  lemma MoreEffect(t: string, indented: bool)
    ensures LineEffect(t, indented, true).Continuation? <==> t != "" && t[0] != ';' && t[0] != '#' && indented
    ensures LineEffect(t, indented, true).Continuation? ==> LineEffect(t, indented, true).more == t
  {
    hide HeaderLine, PairLine;
  }

  // ---- A whole configuration -------------------------------------------------------------------------------------

  /** A name, its value, and the further lines of the value. */
  datatype Entry = Entry(name: string, value: string, more: seq<string>)
  datatype Section = Section(name: string, entries: seq<Entry>)

  /** The entries before the first section line, and the sections. */
  datatype Config = Config(top: seq<Entry>, sections: seq<Section>)

  const INDENT := "  "

  function MoreLines(more: seq<string>): seq<string>
  {
    if more == [] then [] else [MoreText(INDENT, more[0])] + MoreLines(more[1..])
  }

  function EntriesLines(es: seq<Entry>): seq<string>
  {
    if es == [] then []
    else [PairText(es[0].name, es[0].value)] + MoreLines(es[0].more) + EntriesLines(es[1..])
  }

  function SectionsLines(ss: seq<Section>): seq<string>
  {
    if ss == [] then [] else [HeaderText(ss[0].name)] + EntriesLines(ss[0].entries) + SectionsLines(ss[1..])
  }

  function ConfigLines(c: Config): seq<string> { EntriesLines(c.top) + SectionsLines(c.sections) }

  function Concat(lines: seq<string>): string { if lines == [] then "" else lines[0] + Concat(lines[1..]) }

  function Print(c: Config): string { Concat(ConfigLines(c)) }

  function MoreEvents(section: string, name: string, more: seq<string>): seq<Event>
  {
    if more == [] then [] else [Event(section, name, more[0])] + MoreEvents(section, name, more[1..])
  }

  function EntriesEvents(section: string, es: seq<Entry>): seq<Event>
  {
    if es == [] then []
    else [Event(section, es[0].name, es[0].value)] + MoreEvents(section, es[0].name, es[0].more) +
         EntriesEvents(section, es[1..])
  }

  function SectionsEvents(ss: seq<Section>): seq<Event>
  {
    if ss == [] then [] else EntriesEvents(ss[0].name, ss[0].entries) + SectionsEvents(ss[1..])
  }

  /** The handler calls a configuration stands for. */
  function ConfigEvents(c: Config): seq<Event> { EntriesEvents("", c.top) + SectionsEvents(c.sections) }

  /** Only a name with further lines has to fit the buffer for the previous name. */
  ghost predicate EntryOk(e: Entry)
  {
    NameOk(e.name) && ValueOk(e.value) && (e.more != [] ==> e.name != "" && |e.name| < MAX_NAME) &&
    forall i :: 0 <= i < |e.more| ==> MoreOk(e.more[i])
  }

  ghost predicate EntriesOk(es: seq<Entry>) { forall i :: 0 <= i < |es| ==> EntryOk(es[i]) }

  ghost predicate SectionsOk(ss: seq<Section>)
  {
    forall i :: 0 <= i < |ss| ==> HeaderOk(ss[i].name) && EntriesOk(ss[i].entries)
  }

  /** A physical line that fits the buffer. */
  predicate OneLine(s: string) { s != "" && LineLength(s) == |s| < MAX_LINE && s[|s| - 1] == '\n' }

  predicate AllLines(lines: seq<string>) { forall i :: 0 <= i < |lines| ==> OneLine(lines[i]) }

  /** What can be printed and read back: every part survives, every line is one line and fits the buffer, and
      the file does not begin with a byte order mark. */
  ghost predicate Printable(c: Config)
  {
    EntriesOk(c.top) && SectionsOk(c.sections) && AllLines(ConfigLines(c)) && !(BOM <= Print(c))
  }

  lemma {:induction false} ChunksOfLines(lines: seq<string>)
    requires AllLines(lines)
    ensures Chunks(Concat(lines)) == lines
  {
    hide LineLength, ChunkLength, Chunks;
    ChunksOf(Concat(lines));
    if lines != [] {
      var l, rest := lines[0], Concat(lines[1..]);
      assert OneLine(l);
      LineLengthPrefix(l, rest);
      ChunkLengthIs(l, l + rest);
      assert (l + rest)[..|l|] == l && (l + rest)[|l|..] == rest;
      ChunksOfLines(lines[1..]);
    }
  }

  /** What a run over good lines does to a state: it makes these calls, within this section, without error. */
  predicate Reaches(s: State, t: State, section: string, events: seq<Event>)
  {
    t.section == section && t.events == s.events + events && t.error == s.error
  }

  lemma StepMore(accept: Handler, st: State, lineno: nat, s: string)
    requires forall h, e :: accept(h, e)
    requires lineno > 1 && st.prevName != "" && MoreOk(s)
    ensures Step(accept, st, lineno, MoreText(INDENT, s))
         == st.(events := st.events + [Event(st.section, st.prevName, s)])
  {
    hide Classify, MoreOk;
    MorePrinted(INDENT, s);
  }

  lemma {:induction false} RunMore(accept: Handler, st: State, lineno: nat, more: seq<string>)
    requires forall h, e :: accept(h, e)
    requires lineno > 0 && (more != [] ==> st.prevName != "") && forall i :: 0 <= i < |more| ==> MoreOk(more[i])
    ensures var t := Run(accept, st, lineno, MoreLines(more));
            Reaches(st, t, st.section, MoreEvents(st.section, st.prevName, more)) && t.prevName == st.prevName
    decreases |more|
  {
    hide Step, Run, MoreOk, MoreText;
    if more == [] {
      RunNothing(accept, st, lineno);
    } else {
      StepMore(accept, st, lineno + 1, more[0]);
      var next := Step(accept, st, lineno + 1, MoreText(INDENT, more[0]));
      RunCons(accept, st, lineno, MoreText(INDENT, more[0]), MoreLines(more[1..]));
      RunMore(accept, next, lineno + 1, more[1..]);
    }
  }

  lemma StepPair(accept: Handler, st: State, lineno: nat, e: Entry)
    requires forall h, e :: accept(h, e)
    requires EntryOk(e) && (lineno == 1 ==> !(BOM <= e.name))
    ensures Step(accept, st, lineno, PairText(e.name, e.value))
         == st.(prevName := Clip(e.name, MAX_NAME), events := st.events + [Event(st.section, e.name, e.value)])
  {
    hide Classify, Clip;
    PairPrinted(e.name, e.value, lineno == 1, st.prevName != "");
  }

  lemma {:induction false} RunEntries(accept: Handler, st: State, lineno: nat, es: seq<Entry>)
    requires forall h, e :: accept(h, e)
    requires EntriesOk(es) && (lineno == 0 && es != [] ==> !(BOM <= es[0].name))
    ensures Reaches(st, Run(accept, st, lineno, EntriesLines(es)), st.section, EntriesEvents(st.section, es))
    decreases |es|
  {
    hide Step, Run, MoreLines, MoreEvents, PairText, NameOk, ValueOk, MoreOk;
    if es == [] {
      RunNothing(accept, st, lineno);
    } else {
      var e := es[0];
      assert EntryOk(e);
      var line, more, rest := PairText(e.name, e.value), MoreLines(e.more), EntriesLines(es[1..]);
      StepPair(accept, st, lineno + 1, e);
      var st1 := Step(accept, st, lineno + 1, line);
      RunCons(accept, st, lineno, line, more + rest);
      assert [line] + (more + rest) == [line] + more + rest;
      RunMore(accept, st1, lineno + 1, e.more);
      MoreName(e, st.section);
      var st2 := Run(accept, st1, lineno + 1, more);
      RunAppend(accept, st1, lineno + 1, more, rest);
      RunEntries(accept, st2, lineno + 1 + |more|, es[1..]);
    }
  }

  lemma MoreName(e: Entry, section: string)
    requires EntryOk(e)
    ensures MoreEvents(section, Clip(e.name, MAX_NAME), e.more) == MoreEvents(section, e.name, e.more)
  {
    hide NameOk, ValueOk;
    if e.more == [] { assert MoreEvents(section, Clip(e.name, MAX_NAME), []) == []; }
  }

  lemma RunNothing(accept: Handler, st: State, lineno: nat)
    ensures Run(accept, st, lineno, []) == st
  {
  }

  lemma StepHeader(accept: Handler, st: State, lineno: nat, s: string)
    requires HeaderOk(s)
    ensures Step(accept, st, lineno, HeaderText(s)) == st.(section := s, prevName := "")
  {
    hide Classify;
    HeaderPrinted(s, lineno == 1, st.prevName != "");
  }

  lemma {:induction false} RunSections(accept: Handler, st: State, lineno: nat, ss: seq<Section>)
    requires forall h, e :: accept(h, e)
    requires SectionsOk(ss)
    ensures var t := Run(accept, st, lineno, SectionsLines(ss));
            t.events == st.events + SectionsEvents(ss) && t.error == st.error
    decreases |ss|
  {
    hide Step, Run, EntriesLines, EntriesEvents, EntriesOk, HeaderOk, HeaderText;
    if ss == [] {
      RunNothing(accept, st, lineno);
    } else {
      var line, body, rest := HeaderText(ss[0].name), EntriesLines(ss[0].entries), SectionsLines(ss[1..]);
      StepHeader(accept, st, lineno + 1, ss[0].name);
      var st1 := Step(accept, st, lineno + 1, line);
      RunCons(accept, st, lineno, line, body + rest);
      assert [line] + (body + rest) == [line] + body + rest;
      RunEntries(accept, st1, lineno + 1, ss[0].entries);
      RunAppend(accept, st1, lineno + 1, body, rest);
      RunSections(accept, Run(accept, st1, lineno + 1, body), lineno + 1 + |body|, ss[1..]);
    }
  }

  lemma BomInTop(c: Config)
    requires c.top != []
    ensures BOM <= c.top[0].name ==> BOM <= Print(c)
  {
    var lines := ConfigLines(c);
    assert lines[0] == PairText(c.top[0].name, c.top[0].value);
    assert Print(c) == lines[0] + Concat(lines[1..]);
    BomInName(c.top[0].name, c.top[0].value);
  }

  /** The round trip: a printable configuration is parsed back into exactly its own handler calls, in order,
      with no error. */
  lemma RoundTrip(accept: Handler, c: Config)
    requires forall h, e :: accept(h, e)
    requires Printable(c)
    ensures Parse(accept, Print(c)).events == ConfigEvents(c) && Parse(accept, Print(c)).error == 0
  {
    hide Run, Chunks, EntriesLines, SectionsLines, EntriesEvents, SectionsEvents, EntriesOk, SectionsOk, AllLines;
    ChunksOfLines(ConfigLines(c));
    if c.top != [] { BomInTop(c); }
    var a, b := EntriesLines(c.top), SectionsLines(c.sections);
    RunEntries(accept, START, 0, c.top);
    RunAppend(accept, START, 0, a, b);
    RunSections(accept, Run(accept, START, 0, a), |a|, c.sections);
    assert START.events + EntriesEvents("", c.top) == EntriesEvents("", c.top);
  }
}
