/** The INI format as ini_parse_stream understands it, without the buffer: what one line means, and what a
    whole text means. Characters are bytes; isspace and tolower are those of the C locale. */
module Ini {

  const MAX_LINE := 200
  const MAX_SECTION := 50
  const MAX_NAME := 50
  const BOM := "\U{EF}\U{BB}\U{BF}"

  // ---- Text ------------------------------------------------------------------------------------

  predicate IsSpace(c: char)
  {
    c == ' ' || c == '\t' || c == '\n' || c == '\U{B}' || c == '\U{C}' || c == '\r'
  }

  function RTrim(s: string): (r: string)
    ensures |r| <= |s|
  {
    if s != "" && IsSpace(s[|s| - 1]) then RTrim(s[..|s| - 1]) else s
  }

  function LTrim(s: string): (r: string)
    ensures |r| <= |s|
  {
    if s != "" && IsSpace(s[0]) then LTrim(s[1..]) else s
  }

  /** How far find_chars_or_comment gets: to the first of `stops`, or to a ';' behind a whitespace
      character, or to the end. */
  function Scan(s: string, stops: string, wasSpace: bool): (n: nat)
    ensures n <= |s|
  {
    if s == "" || s[0] in stops || (wasSpace && s[0] == ';') then 0
    else 1 + Scan(s[1..], stops, IsSpace(s[0]))
  }

  /** What fits a name buffer. */
  function Clip(s: string, size: nat): (r: string)
    requires size > 0
    ensures |r| < size && r <= s
  {
    if |s| < size then s else s[..size - 1]
  }

  // ---- One line --------------------------------------------------------------------------------

  datatype Effect =
    | Nothing
    | Malformed
    | Header(section: string)
    | Pair(name: string, value: string)
    | Continuation(more: string)

  function BomLength(chunk: string, first: bool): (n: nat)
    ensures n <= |chunk|
  {
    if first && BOM <= chunk then |BOM| else 0
  }

  function HeaderLine(t: string): (e: Effect)
    requires t != ""
    ensures e == Malformed || e.Header?
  {
    var n := Scan(t[1..], "]", false);
    if n < |t| - 1 && t[1 + n] == ']' then Header(Clip(t[1..1 + n], MAX_SECTION)) else Malformed
  }

  function PairLine(t: string): (e: Effect)
    ensures e == Malformed || e.Pair?
  {
    var n := Scan(t, "=:", false);
    if n < |t| && (t[n] == '=' || t[n] == ':') then Pair(RTrim(t[..n]), ValueOf(t[n + 1..])) else Malformed
  }

  /** The value behind the separator: an inline comment and the whitespace around it are dropped. */
  function ValueOf(s: string): string
  {
    var v := LTrim(s);
    RTrim(v[..Scan(v, "", false)])
  }

  /** What a trimmed line means. */
  function LineEffect(t: string, indented: bool, hasPrev: bool): Effect
  {
    if t != "" && (t[0] == ';' || t[0] == '#') then Nothing
    else if hasPrev && t != "" && indented then Continuation(t)
    else if t != "" && t[0] == '[' then HeaderLine(t)
    else if t != "" then PairLine(t)
    else Nothing
  }

  /** What one chunk from the reader means. `hasPrev`: a name has been seen in this section. */
  function Classify(chunk: string, first: bool, hasPrev: bool): Effect
  {
    var b := BomLength(chunk, first);
    var s := RTrim(chunk[b..]);
    var t := LTrim(s);
    LineEffect(t, b > 0 || |t| < |s|, hasPrev)
  }

  // ---- A whole text ------------------------------------------------------------------------------

  /** One call of the handler. */
  datatype Event = Event(section: string, name: string, value: string)

  datatype State = State(section: string, prevName: string, error: nat, events: seq<Event>)

  const START := State("", "", 0, [])

  /** Whether the handler accepts a call, given the calls before it. */
  type Handler = (seq<Event>, Event) -> bool

  /** A handler that never refuses, such as the one of INIReader. */
  function Always(before: seq<Event>, e: Event): bool { true }

  function Note(error: nat, failed: bool, lineno: nat): nat { if error == 0 && failed then lineno else error }

  function Emit(accept: Handler, st: State, lineno: nat, e: Event): State
  {
    st.(events := st.events + [e], error := Note(st.error, !accept(st.events, e), lineno))
  }

  /** What a line does to a state once it is known what the line means. */
  function Apply(accept: Handler, st: State, lineno: nat, e: Effect): State
  {
    match e
    case Nothing => st
    case Malformed => st.(error := Note(st.error, true, lineno))
    case Header(section) => st.(section := section, prevName := "")
    case Pair(name, value) =>
      Emit(accept, st.(prevName := Clip(name, MAX_NAME)), lineno, Event(st.section, name, value))
    case Continuation(more) => Emit(accept, st, lineno, Event(st.section, st.prevName, more))
  }

  function Step(accept: Handler, st: State, lineno: nat, chunk: string): State
  {
    Apply(accept, st, lineno, Classify(chunk, lineno == 1, st.prevName != ""))
  }

  /** The chunks behind the first `lineno`. */
  function Run(accept: Handler, st: State, lineno: nat, chunks: seq<string>): State
    decreases |chunks|
  {
    if chunks == [] then st else Run(accept, Step(accept, st, lineno + 1, chunks[0]), lineno + 1, chunks[1..])
  }

  /** The length of the first line with its newline, or of the whole text if it has none. */
  function LineLength(text: string): (n: nat)
    ensures n <= |text| && (text != "" ==> n > 0)
    ensures '\n' !in text[..n] || (n > 0 && text[n - 1] == '\n' && '\n' !in text[..n - 1])
    ensures '\n' !in text[..n] ==> n == |text|
    decreases |text|
  {
    if text == "" then 0
    else if text[0] == '\n' then 1
    else
      var n := LineLength(text[1..]);
      assert text[..1 + n] == [text[0]] + text[1..][..n];
      assert n > 0 ==> text[..n] == [text[0]] + text[1..][..n - 1];
      1 + n
  }

  /** What fgets puts into the line buffer: a line, or as much of it as fits. */
  function ChunkLength(text: string): (n: nat)
    ensures n <= |text| && n < MAX_LINE && (text != "" ==> n > 0)
  {
    if LineLength(text) < MAX_LINE then LineLength(text) else MAX_LINE - 1
  }

  function Chunks(text: string): seq<string>
  {
    if text == "" then [] else var n := ChunkLength(text); [text[..n]] + Chunks(text[n..])
  }

  function Lines(text: string): seq<string>
  {
    if text == "" then [] else var n := LineLength(text); [text[..n]] + Lines(text[n..])
  }

  function Parse(accept: Handler, text: string): State
  {
    Run(accept, START, 0, Chunks(text))
  }

  // ---- Trimming and scanning -----------------------------------------------------------------------

  /** Where a scan stops. */
  predicate StopAt(s: string, stops: string, wasSpace: bool, i: nat)
    requires i < |s|
  {
    s[i] in stops || (s[i] == ';' && if i == 0 then wasSpace else IsSpace(s[i - 1]))
  }

  /** A scan stops at the first place where it may stop, and nowhere else. */
  lemma {:induction false} ScanIs(s: string, stops: string, wasSpace: bool, n: nat)
    requires n <= |s|
    ensures Scan(s, stops, wasSpace) == n
       <==> (forall i :: 0 <= i < n ==> !StopAt(s, stops, wasSpace, i)) && (n < |s| ==> StopAt(s, stops, wasSpace, n))
  {
    if s == "" {
    } else if StopAt(s, stops, wasSpace, 0) {
    } else if n > 0 {
      ScanIs(s[1..], stops, IsSpace(s[0]), n - 1);
      forall i | 0 <= i < |s| - 1
        ensures StopAt(s[1..], stops, IsSpace(s[0]), i) == StopAt(s, stops, wasSpace, i + 1)
      {
      }
      if forall i :: 0 <= i < n - 1 ==> !StopAt(s[1..], stops, IsSpace(s[0]), i) {
        forall i | 0 <= i < n ensures !StopAt(s, stops, wasSpace, i) {
          if i > 0 { assert !StopAt(s[1..], stops, IsSpace(s[0]), i - 1); }
        }
      } else {
        var i :| 0 <= i < n - 1 && StopAt(s[1..], stops, IsSpace(s[0]), i);
        assert StopAt(s, stops, wasSpace, i + 1);
      }
    }
  }

  /** Trimming cuts characters off one end. */
  lemma {:induction false} TrimParts(s: string)
    ensures RTrim(s) == s[..|RTrim(s)|] && LTrim(s) == s[|s| - |LTrim(s)|..]
  {
    RTrimPart(s);
    LTrimPart(s);
  }

  lemma {:induction false} RTrimPart(s: string)
    ensures RTrim(s) == s[..|RTrim(s)|]
  {
    if s != "" && IsSpace(s[|s| - 1]) { RTrimPart(s[..|s| - 1]); }
  }

  lemma {:induction false} LTrimPart(s: string)
    ensures LTrim(s) == s[|s| - |LTrim(s)|..]
  {
    if s != "" && IsSpace(s[0]) { LTrimPart(s[1..]); }
  }

  /** Neither end is whitespace. */
  predicate Trimmed(s: string)
  {
    s == "" || (!IsSpace(s[0]) && !IsSpace(s[|s| - 1]))
  }

  lemma {:induction false} RTrimIs(s: string, w: string)
    requires forall c :: c in w ==> IsSpace(c)
    requires s == "" || !IsSpace(s[|s| - 1])
    ensures RTrim(s + w) == s
    decreases |w|
  {
    if w == "" {
      assert s + w == s;
    } else {
      assert (s + w)[..|s + w| - 1] == s + w[..|w| - 1];
      RTrimIs(s, w[..|w| - 1]);
    }
  }

  lemma {:induction false} LTrimIs(w: string, s: string)
    requires forall c :: c in w ==> IsSpace(c)
    requires s == "" || !IsSpace(s[0])
    ensures LTrim(w + s) == s
    decreases |w|
  {
    if w == "" {
      assert w + s == s;
    } else {
      assert (w + s)[1..] == w[1..] + s;
      LTrimIs(w[1..], s);
    }
  }

  lemma {:induction false} RTrimEnds(s: string)
    ensures RTrim(s) == "" || !IsSpace(RTrim(s)[|RTrim(s)| - 1])
    ensures forall c :: c in s[|RTrim(s)|..] ==> IsSpace(c)
  {
    if s != "" && IsSpace(s[|s| - 1]) {
      var r := s[..|s| - 1];
      RTrimEnds(r);
      assert s[|RTrim(s)|..] == r[|RTrim(r)|..] + [s[|s| - 1]];
    }
  }

  lemma {:induction false} LTrimStarts(s: string)
    ensures LTrim(s) == "" || !IsSpace(LTrim(s)[0])
  {
    if s != "" && IsSpace(s[0]) { LTrimStarts(s[1..]); }
  }

  /** Trimming both ends yields a trimmed text, and trimmed texts are exactly those it leaves alone. */
  lemma TrimBoth(s: string)
    ensures Trimmed(LTrim(RTrim(s))) && Trimmed(RTrim(LTrim(s)))
    ensures Trimmed(s) ==> LTrim(s) == s && RTrim(s) == s
  {
    RTrimEnds(s);
    LTrimStarts(RTrim(s));
    LTrimStarts(s);
    RTrimEnds(LTrim(s));
  }

  // ---- Runs ------------------------------------------------------------------------------------------

  lemma {:induction false} RunAppend(accept: Handler, st: State, lineno: nat, a: seq<string>, b: seq<string>)
    ensures Run(accept, st, lineno, a + b) == Run(accept, Run(accept, st, lineno, a), lineno + |a|, b)
    decreases |a|
  {
    hide Step;
    if a == [] {
      assert a + b == b;
    } else {
      assert (a + b)[1..] == a[1..] + b;
      RunAppend(accept, Step(accept, st, lineno + 1, a[0]), lineno + 1, a[1..], b);
    }
  }

  lemma EmptyRun(accept: Handler, lineno: nat)
    ensures Run(accept, START, lineno, []) == START
  {
  }

  lemma RunOne(accept: Handler, st: State, lineno: nat, c: string)
    ensures Run(accept, st, lineno, [c]) == Step(accept, st, lineno + 1, c)
  {
    assert [c][1..] == [];
    assert Run(accept, Step(accept, st, lineno + 1, c), lineno + 1, []) == Step(accept, st, lineno + 1, c);
  }

  lemma RunCons(accept: Handler, st: State, lineno: nat, c: string, b: seq<string>)
    ensures Run(accept, st, lineno, [c] + b) == Run(accept, Step(accept, st, lineno + 1, c), lineno + 1, b)
  {
    assert ([c] + b)[1..] == b;
  }

  /** Whether a chunk is malformed, or makes a call that the handler refuses. */
  predicate FailsIn(accept: Handler, st: State, first: bool, chunk: string)
  {
    match Classify(chunk, first, st.prevName != "")
    case Malformed => true
    case Pair(name, value) => !accept(st.events, Event(st.section, name, value))
    case Continuation(more) => !accept(st.events, Event(st.section, st.prevName, more))
    case _ => false
  }

  /** The same about chunk number i, counted from 1, of a text. */
  predicate Fails(accept: Handler, chunks: seq<string>, i: nat)
    requires 1 <= i <= |chunks|
  {
    FailsIn(accept, Run(accept, START, 0, chunks[..i - 1]), i == 1, chunks[i - 1])
  }

  lemma StepNotes(accept: Handler, st: State, lineno: nat, chunk: string)
    ensures Step(accept, st, lineno, chunk).error == Note(st.error, FailsIn(accept, st, lineno == 1, chunk), lineno)
  {
    hide Classify;
  }

  /** e is the smallest number of a failing chunk, or 0 if there is none. */
  ghost predicate FirstFailure(accept: Handler, chunks: seq<string>, e: nat)
  {
    (e == 0 || (1 <= e <= |chunks| && Fails(accept, chunks, e))) &&
    forall i :: 1 <= i <= |chunks| && (e == 0 || i < e) ==> !Fails(accept, chunks, i)
  }

  /** The result of a parse is the smallest number of a chunk that is malformed or refused by the handler,
      and 0 exactly if there is none; later failures do not change it and do not stop the parse. */
  lemma {:induction false} FirstError(accept: Handler, chunks: seq<string>)
    ensures FirstFailure(accept, chunks, Run(accept, START, 0, chunks).error)
    decreases |chunks|
  {
    hide Run, Fails, Step, FailsIn, FirstFailure;
    if chunks == [] {
      EmptyRun(accept, 0);
      NoFailure(accept);
    } else {
      var a, c := chunks[..|chunks| - 1], chunks[|chunks| - 1];
      var st := Run(accept, START, 0, a);
      FirstError(accept, a);
      assert chunks == a + [c];
      RunAppend(accept, START, 0, a, [c]);
      RunOne(accept, st, |a|, c);
      StepNotes(accept, st, |a| + 1, c);
      FirstFailureSnoc(accept, a, c, st.error);
    }
  }

  lemma NoFailure(accept: Handler)
    ensures FirstFailure(accept, [], 0)
  {
  }

  lemma FirstFailureSnoc(accept: Handler, a: seq<string>, c: string, e: nat)
    requires FirstFailure(accept, a, e)
    ensures FirstFailure(accept, a + [c], Note(e, FailsIn(accept, Run(accept, START, 0, a), |a| + 1 == 1, c), |a| + 1))
  {
    hide Fails, FailsIn, Run;
    forall i | 1 <= i <= |a| ensures Fails(accept, a + [c], i) == Fails(accept, a, i) { FailsEarlier(accept, a, c, i); }
    FailsLast(accept, a, c);
  }

  lemma FailsEarlier(accept: Handler, a: seq<string>, c: string, i: nat)
    requires 1 <= i <= |a|
    ensures Fails(accept, a + [c], i) == Fails(accept, a, i)
  {
    hide FailsIn, Run;
    assert (a + [c])[..i - 1] == a[..i - 1] && (a + [c])[i - 1] == a[i - 1];
  }

  lemma FailsLast(accept: Handler, a: seq<string>, c: string)
    ensures Fails(accept, a + [c], |a| + 1) == FailsIn(accept, Run(accept, START, 0, a), a == [], c)
  {
    hide FailsIn, Run;
    assert (a + [c])[..|a|] == a && (a + [c])[|a|] == c;
  }

  // ---- Lines that change nothing ------------------------------------------------------------------------

  /** Two states that differ at most in the error noted. */
  predicate SameButError(s: State, t: State)
  {
    s.section == t.section && s.prevName == t.prevName && s.events == t.events
  }

  /** The error noted influences nothing else, and it is kept once it is there. */
  lemma {:induction false} ErrorIsInert(accept: Handler, s: State, t: State, lineno: nat, chunks: seq<string>)
    requires SameButError(s, t)
    ensures SameButError(Run(accept, s, lineno, chunks), Run(accept, t, lineno, chunks))
    ensures s.error != 0 ==> Run(accept, s, lineno, chunks).error == s.error
    ensures s.error == 0 ==> Run(accept, s, lineno, chunks).error == 0 || Run(accept, s, lineno, chunks).error > lineno
    decreases |chunks|
  {
    hide Classify;
    if chunks != [] {
      ErrorIsInert(accept, Step(accept, s, lineno + 1, chunks[0]), Step(accept, t, lineno + 1, chunks[0]), lineno + 1,
                   chunks[1..]);
    }
  }

  lemma BlankIsNothing(first: bool, hasPrev: bool)
    ensures Classify("\n", first, hasPrev) == Nothing
  {
    RTrimIs("", "\n");
    assert "" + "\n" == "\n" && "\n"[0..] == "\n";
  }

  /** Behind a line end the reading starts afresh. */
  lemma {:induction false} ChunksJoin(pre: string, post: string)
    requires pre == "" || pre[|pre| - 1] == '\n' || post == ""
    ensures Chunks(pre + post) == Chunks(pre) + Chunks(post)
    decreases |pre|
  {
    hide LineLength, ChunkLength, Chunks;
    var text := pre + post;
    ChunksOf(text);
    ChunksOf(pre);
    ChunksOf(post);
    if pre == "" {
      assert text == post;
    } else if post == "" {
      assert text == pre;
    } else {
      var n := ChunkLength(pre);
      assert ChunkLength(text) == n by { LineLengthPrefix(pre, post); ChunkLengthIs(pre, text); }
      assert text[..n] == pre[..n] && text[n..] == pre[n..] + post;
      ChunksJoin(pre[n..], post);
      assert [pre[..n]] + (Chunks(pre[n..]) + Chunks(post)) == [pre[..n]] + Chunks(pre[n..]) + Chunks(post);
    }
  }

  /** A line cut out of a text is a chunk of its own if it fits the buffer; the last line may lack its newline. */
  lemma ChunksAtLine(pre: string, line: string, post: string)
    requires pre == "" || pre[|pre| - 1] == '\n'
    requires line != "" && LineLength(line) == |line| < MAX_LINE && (line[|line| - 1] == '\n' || post == "")
    ensures Chunks(pre + line + post) == Chunks(pre) + [line] + Chunks(post)
  {
    hide LineLength, ChunkLength, Chunks;
    assert pre + line + post == pre + (line + post);
    ChunksJoin(pre, line + post);
    ChunksJoin(line, post);
    ChunksOf(line);
    ChunkLengthIs(line, line);
    assert line[..|line|] == line && line[|line|..] == "";
    NoChunks("");
    assert Chunks(pre) + ([line] + Chunks(post)) == Chunks(pre) + [line] + Chunks(post);
  }

  lemma ChunksOf(text: string)
    ensures Chunks(text) == if text == "" then [] else [text[..ChunkLength(text)]] + Chunks(text[ChunkLength(text)..])
  {
  }

  lemma ChunkLengthIs(a: string, b: string)
    requires LineLength(a) == LineLength(b)
    ensures ChunkLength(a) == ChunkLength(b)
    ensures LineLength(a) < MAX_LINE ==> ChunkLength(a) == LineLength(a)
  {
    hide LineLength;
  }

  lemma {:induction false} LineLengthPrefix(pre: string, post: string)
    requires pre != "" && pre[|pre| - 1] == '\n'
    ensures LineLength(pre + post) == LineLength(pre)
  {
    if pre[0] != '\n' {
      assert (pre + post)[1..] == pre[1..] + post;
      LineLengthPrefix(pre[1..], post);
    }
  }

  /** A malformed line or a comment may be replaced by a blank line: every handler call stays the same, and
      the result too unless the line was the first failure. Comments do not even affect the result. */
  lemma BlankForQuiet(accept: Handler, pre: string, line: string, post: string)
    requires pre == "" || pre[|pre| - 1] == '\n'
    requires line != "" && LineLength(line) == |line| < MAX_LINE && (line[|line| - 1] == '\n' || post == "")
    requires Classify(line, pre == "", Parse(accept, pre).prevName != "") in {Nothing, Malformed}
    ensures SameButError(Parse(accept, pre + line + post), Parse(accept, pre + "\n" + post))
    ensures var malformed := Classify(line, pre == "", Parse(accept, pre).prevName != "") == Malformed;
            Parse(accept, pre + line + post).error == Parse(accept, pre + "\n" + post).error
            <==> !(malformed && Parse(accept, pre).error == 0)
  {
    hide Run, LineLength, Classify, Chunks, ChunkLength;
    var a := Chunks(pre);
    ChunksAtLine(pre, line, post);
    NewlineIsALine();
    ChunksAtLine(pre, "\n", post);
    NoChunks(pre);
    QuietChunk(accept, a, line, Chunks(post));
  }

  lemma QuietChunk(accept: Handler, a: seq<string>, c: string, b: seq<string>)
    requires Classify(c, a == [], Run(accept, START, 0, a).prevName != "") in {Nothing, Malformed}
    ensures SameButError(Run(accept, START, 0, a + [c] + b), Run(accept, START, 0, a + ["\n"] + b))
    ensures Run(accept, START, 0, a + [c] + b).error == Run(accept, START, 0, a + ["\n"] + b).error
       <==> !(Classify(c, a == [], Run(accept, START, 0, a).prevName != "") == Malformed &&
              Run(accept, START, 0, a).error == 0)
  {
    hide Run, Classify;
    var st := Run(accept, START, 0, a);
    RunThrough(accept, a, c, b);
    RunThrough(accept, a, "\n", b);
    BlankIsNothing(a == [], st.prevName != "");
    var s := Step(accept, st, |a| + 1, c);
    ErrorIsInert(accept, s, st, |a| + 1, b);
    ErrorIsInert(accept, st, s, |a| + 1, b);
  }

  lemma RunThrough(accept: Handler, a: seq<string>, c: string, b: seq<string>)
    ensures Run(accept, START, 0, a + [c] + b)
         == Run(accept, Step(accept, Run(accept, START, 0, a), |a| + 1, c), |a| + 1, b)
  {
    hide Run, Step;
    RunAppend(accept, START, 0, a + [c], b);
    RunAppend(accept, START, 0, a, [c]);
    RunOne(accept, Run(accept, START, 0, a), |a|, c);
  }

  lemma NoChunks(text: string)
    ensures Chunks(text) == [] <==> text == ""
  {
  }

  lemma NewlineIsALine()
    ensures LineLength("\n") == 1
  {
  }

  // ---- Chunk numbers and line numbers ------------------------------------------------------------------------

  lemma {:induction false} ChunksAreShort(text: string)
    ensures forall i :: 0 <= i < |Chunks(text)| ==> |Chunks(text)[i]| < MAX_LINE
  {
    hide LineLength;
    if text != "" { ChunksAreShort(text[ChunkLength(text)..]); }
  }

  /** The numbers that errors are reported under are physical line numbers exactly if every line fits the
      buffer: a longer line is seen as several. */
  lemma {:induction false} ChunksAreLines(text: string)
    ensures Chunks(text) == Lines(text) <==> forall i :: 0 <= i < |Lines(text)| ==> |Lines(text)[i]| < MAX_LINE
  {
    hide LineLength;
    if Chunks(text) == Lines(text) { ChunksAreShort(text); }
    if forall i :: 0 <= i < |Lines(text)| ==> |Lines(text)[i]| < MAX_LINE { ShortLinesAreChunks(text); }
  }

  lemma {:induction false} ShortLinesAreChunks(text: string)
    requires forall i :: 0 <= i < |Lines(text)| ==> |Lines(text)[i]| < MAX_LINE
    ensures Chunks(text) == Lines(text)
  {
    hide LineLength;
    if text != "" {
      var n := LineLength(text);
      assert Lines(text)[0] == text[..n];
      forall i | 0 <= i < |Lines(text[n..])| ensures |Lines(text[n..])[i]| < MAX_LINE {
        assert Lines(text[n..])[i] == Lines(text)[i + 1];
      }
      ShortLinesAreChunks(text[n..]);
    }
  }

  // ---- The byte order mark ---------------------------------------------------------------------------------------

  /** With a byte order mark in front the first line still fits the buffer. */
  predicate RoomForBom(text: string) { |BOM| + LineLength(text) < MAX_LINE }

  /** How much of a text shares the line buffer with a mark in front. */
  function BomCut(text: string): (n: nat)
    ensures n <= |text| && (text != "" ==> n > 0)
  {
    if RoomForBom(text) then LineLength(text) else MAX_LINE - 1 - |BOM|
  }

  /** The chunks of a text whose first buffer is shorter by a mark. */
  function ShortFirst(text: string): seq<string>
  {
    if text == "" then [] else [text[..BomCut(text)]] + Chunks(text[BomCut(text)..])
  }

  lemma BomChunks(text: string)
    ensures Chunks(BOM + text) == [BOM + text[..BomCut(text)]] + Chunks(text[BomCut(text)..])
  {
    hide LineLength, Chunks;
    var n := BomCut(text);
    ChunksOf(BOM + text);
    BomLineLength(text);
    assert (BOM + text)[..3 + n] == BOM + text[..n] && (BOM + text)[3 + n..] == text[n..];
  }

  lemma ShortFirstWithRoom(text: string)
    requires RoomForBom(text)
    ensures ShortFirst(text) == Chunks(text) && BomCut(text) == ChunkLength(text)
  {
    hide LineLength, Chunks;
    ChunksOf(text);
  }

  lemma BomLineLength(text: string)
    ensures LineLength(BOM + text) == 3 + LineLength(text)
  {
    var a, b := BOM[1..] + text, BOM[2..] + text;
    assert (BOM + text)[1..] == a && a[1..] == b && b[1..] == text;
    assert LineLength(b) == 1 + LineLength(text);
    assert LineLength(a) == 1 + LineLength(b);
    assert LineLength(BOM + text) == 1 + LineLength(a);
  }

  /** Without a name before it, a line behind the mark means what it means without the mark. */
  lemma BomLine(chunk: string)
    requires !(BOM <= chunk)
    ensures Classify(BOM + chunk, true, false) == Classify(chunk, true, false)
  {
    hide RTrim, LTrim, LineEffect;
    assert BOM <= BOM + chunk;
    assert (BOM + chunk)[3..] == chunk && chunk[0..] == chunk;
    var s := RTrim(chunk);
    IndentIsInert(LTrim(s), true, |LTrim(s)| < |s|);
  }

  lemma IndentIsInert(t: string, i: bool, j: bool)
    ensures LineEffect(t, i, false) == LineEffect(t, j, false)
  {
  }

  lemma BomAlone()
    ensures Classify(BOM + "", true, false) == Nothing
  {
    assert (BOM + "")[3..] == "";
  }

  /** A byte order mark in front of a text that does not itself begin with one does nothing but shorten the first
      buffer: for every such text. */
  lemma BomShortens(accept: Handler, text: string)
    requires !(BOM <= text)
    ensures Parse(accept, BOM + text) == Run(accept, START, 0, ShortFirst(text))
  {
    hide Run, LineLength, Classify, Chunks, BomCut;
    var n := BomCut(text);
    BomChunks(text);
    assert !(BOM <= text[..n]);
    RunCons(accept, START, 0, BOM + text[..n], Chunks(text[n..]));
    BomLine(text[..n]);
    if text == "" {
      BomAlone();
      assert text[..n] == "" && text[n..] == "" && Chunks("") == [] by { NoChunks(""); }
      assert Step(accept, START, 1, BOM + text[..n]) == START;
      assert Run(accept, START, 1, []) == START by { EmptyRun(accept, 1); }
      EmptyRun(accept, 0);
    } else {
      RunCons(accept, START, 0, text[..n], Chunks(text[n..]));
    }
  }

  lemma {:induction false} RTrimKeeps(x: string, y: string)
    requires x != "" && !IsSpace(x[|x| - 1])
    ensures RTrim(x + y) == x + RTrim(y)
    decreases |y|
  {
    if y == "" {
      assert x + y == x && x + RTrim(y) == x;
    } else if IsSpace(y[|y| - 1]) {
      assert (x + y)[..|x + y| - 1] == x + y[..|y| - 1];
      RTrimKeeps(x, y[..|y| - 1]);
    }
  }

  lemma {:induction false} RTrimTail(x: string, y: string)
    requires RTrim(y) != ""
    ensures RTrim(x + y) == x + RTrim(y)
    decreases |y|
  {
    if IsSpace(y[|y| - 1]) {
      assert (x + y)[..|x + y| - 1] == x + y[..|y| - 1];
      RTrimTail(x, y[..|y| - 1]);
    }
  }

  /** A scan passes over a front that contains neither a stop nor a ';'. */
  lemma {:induction false} ScanSkips(x: string, y: string, stops: string, wasSpace: bool)
    requires forall c :: c in x ==> c !in stops && c != ';'
    ensures Scan(x + y, stops, wasSpace)
         == |x| + Scan(y, stops, if x == "" then wasSpace else IsSpace(x[|x| - 1]))
    decreases |x|
  {
    if x == "" {
      assert x + y == y;
    } else {
      assert (x + y)[1..] == x[1..] + y;
      ScanSkips(x[1..], y, stops, IsSpace(x[0]));
    }
  }

  lemma SecondMarkStays(r: string)
    ensures Classify(BOM + (BOM + r), true, false) == PairLine(BOM + RTrim(r))
  {
    hide RTrim, PairLine, HeaderLine;
    assert (BOM + (BOM + r))[3..] == BOM + r;
    RTrimKeeps(BOM, r);
    var s := BOM + RTrim(r);
    assert s[0] == BOM[0];
    assert LTrim(s) == s;
  }

  /** Behind one mark, a second one is text: the line is malformed or a pair whose name begins with the
      mark. */
  lemma SecondBomIsText(r: string)
    ensures var e := Classify(BOM + (BOM + r), true, false);
            e == Malformed || (e.Pair? && BOM <= e.name)
  {
    hide RTrim, Scan, Classify, ValueOf;
    SecondMarkStays(r);
    var u := RTrim(r);
    var s := BOM + u;
    ScanSkips(BOM, u, "=:", false);
    var n := Scan(u, "=:", false);
    assert s[..3 + n] == BOM + u[..n];
    RTrimKeeps(BOM, u[..n]);
  }

  /** The names differ: only one of them has kept the mark. */
  lemma NameBehindBom(r: string)
    ensures var e, f := Classify(BOM + r, true, false), Classify(BOM + (BOM + r), true, false);
            e.Pair? && f.Pair? ==> |e.name| < |f.name|
  {
    hide Scan, RTrim, LTrim, PairLine, Classify, IsSpace;
    SecondBomIsText(r);
    SecondMarkStays(r);
    var u := RTrim(r);
    var t := LTrim(u);
    var w := u[..|u| - |t|];
    BehindBom(r);
    if Classify(BOM + r, true, false).Pair? {
      TrimParts(u);
      assert u == w + t;
      assert BOM + u == (BOM + w) + t;
      LTrimDrops(u);
      SpacesAndMark(w);
      ScanSkips(BOM + w, t, "=:", false);
      ScanFirst(t, "=:");
      var m := Scan(t, "=:", false);
      assert (BOM + u)[..3 + |w| + m] == (BOM + w) + t[..m];
      PairName(t);
      PairName(BOM + u);
      if RTrim(t[..m]) != "" { RTrimTail(BOM + w, t[..m]); }
    }
  }

  lemma PairName(t: string)
    ensures PairLine(t).Pair? ==> PairLine(t).name == RTrim(t[..Scan(t, "=:", false)])
  {
  }

  lemma SpacesAndMark(w: string)
    requires forall c :: c in w ==> IsSpace(c)
    ensures forall c :: c in BOM + w ==> c !in "=:" && c != ';'
  {
  }

  /** Behind a mark only a line that starts with none of these is a pair. */
  lemma BehindBom(r: string)
    ensures var t := LTrim(RTrim(r));
            Classify(BOM + r, true, false).Pair? ==>
              t != "" && t[0] != ';' && Classify(BOM + r, true, false) == PairLine(t)
  {
    hide RTrim, LTrim, PairLine, HeaderLine;
    assert (BOM + r)[3..] == r;
  }

  lemma {:induction false} LTrimDrops(s: string)
    ensures forall c :: c in s[..|s| - |LTrim(s)|] ==> IsSpace(c)
  {
    if s != "" && IsSpace(s[0]) {
      LTrimDrops(s[1..]);
      assert s[..|s| - |LTrim(s)|] == [s[0]] + s[1..][..|s| - 1 - |LTrim(s[1..])|];
    }
  }

  lemma ScanFirst(s: string, stops: string)
    requires s != "" && s[0] != ';'
    ensures Scan(s, stops, true) == Scan(s, stops, false)
  {
  }

  /** One of two runs over the same chunks has made more calls, and has a previous name whenever the other
      has one: it stays ahead. */
  ghost predicate Ahead(s: State, t: State)
  {
    |s.events| > |t.events| && (s.prevName == "" ==> t.prevName == "")
  }

  lemma PreviousNameMatters(chunk: string)
    ensures !Classify(chunk, false, false).Continuation?
    ensures Classify(chunk, false, true).Continuation? ||
            Classify(chunk, false, true) == Classify(chunk, false, false)
  {
    hide HeaderLine, PairLine;
  }

  lemma AheadStep(accept: Handler, s: State, t: State, lineno: nat, chunk: string)
    requires Ahead(s, t) && lineno > 1
    ensures Ahead(Step(accept, s, lineno, chunk), Step(accept, t, lineno, chunk))
  {
    hide Classify;
    PreviousNameMatters(chunk);
  }

  lemma {:induction false} StaysAhead(accept: Handler, s: State, t: State, lineno: nat, chunks: seq<string>)
    requires lineno >= 1 && Ahead(s, t)
    ensures Ahead(Run(accept, s, lineno, chunks), Run(accept, t, lineno, chunks))
    decreases |chunks|
  {
    hide Step;
    if chunks != [] {
      AheadStep(accept, s, t, lineno + 1, chunks[0]);
      StaysAhead(accept, Step(accept, s, lineno + 1, chunks[0]), Step(accept, t, lineno + 1, chunks[0]), lineno + 1,
                 chunks[1..]);
    }
  }

  lemma {:induction false} EventsGrow(accept: Handler, s: State, lineno: nat, chunks: seq<string>)
    ensures s.events <= Run(accept, s, lineno, chunks).events
    decreases |chunks|
  {
    hide Classify;
    if chunks != [] { EventsGrow(accept, Step(accept, s, lineno + 1, chunks[0]), lineno + 1, chunks[1..]); }
  }

  /** Exactly when a mark in front does no more than shorten the first buffer, for every text: the text does not
      begin with a mark, or what is in the first buffer is malformed with one mark in front as well as with two. */
  lemma BomShortensIff(accept: Handler, text: string)
    ensures var line := text[..BomCut(text)];
            Parse(accept, BOM + text) == Run(accept, START, 0, ShortFirst(text))
            <==> !(BOM <= text) || (Classify(line, true, false) == Malformed == Classify(BOM + line, true, false))
  {
    hide Run, LineLength, Classify, Chunks, BomCut;
    if !(BOM <= text) {
      BomShortens(accept, text);
    } else {
      var n := BomCut(text);
      var line, rest := text[..n], Chunks(text[n..]);
      BomChunks(text);
      BomInFirstLine(text);
      RunCons(accept, START, 0, BOM + line, rest);
      RunCons(accept, START, 0, line, rest);
      var r := line[3..];
      assert line == BOM + r;
      SecondBomIsText(r);
      NameBehindBom(r);
      var s, t := Step(accept, START, 1, line), Step(accept, START, 1, BOM + line);
      assert START.prevName == "";
      EventsGrow(accept, s, 1, rest);
      EventsGrow(accept, t, 1, rest);
      ErrorIsInert(accept, s, s, 1, rest);
      ErrorIsInert(accept, t, t, 1, rest);
      if |s.events| == |t.events| == 1 { assert s.events[0] != t.events[0]; }
      if |s.events| > |t.events| { StaysAhead(accept, s, t, 1, rest); }
      if |s.events| < |t.events| { StaysAhead(accept, t, s, 1, rest); }
    }
  }

  /** Given room in the buffer: exactly when a mark in front changes nothing. */
  lemma BomTransparentIff(accept: Handler, text: string)
    requires RoomForBom(text)
    ensures var line := text[..ChunkLength(text)];
            Parse(accept, BOM + text) == Parse(accept, text)
            <==> !(BOM <= text) || (Classify(line, true, false) == Malformed == Classify(BOM + line, true, false))
  {
    hide Run, LineLength, Classify, Chunks, ShortFirst, BomCut, ChunkLength;
    BomShortensIff(accept, text);
    ShortFirstWithRoom(text);
  }

  /** Without room the first line alone decides whether the calls survive: they do for every continuation of the
      text exactly if the line cut short leaves the parser in the same state as the line itself, errors aside. */
  lemma CallsSurviveIff(accept: Handler, line: string)
    requires line != "" && LineLength(line) == |line| && line[|line| - 1] == '\n' && !(BOM <= line)
    ensures (forall rest: string :: SameButError(Parse(accept, BOM + (line + rest)), Parse(accept, line + rest)))
       <==> SameButError(Run(accept, START, 0, ShortFirst(line)), Run(accept, START, 0, Chunks(line)))
  {
    hide Run, Chunks, ShortFirst, LineLength;
    if SameButError(Run(accept, START, 0, ShortFirst(line)), Run(accept, START, 0, Chunks(line))) {
      forall rest: string
        ensures SameButError(Parse(accept, BOM + (line + rest)), Parse(accept, line + rest))
      {
        FirstLineDecides(accept, line, rest);
      }
    }
    if forall rest: string :: SameButError(Parse(accept, BOM + (line + rest)), Parse(accept, line + rest)) {
      assert SameButError(Parse(accept, BOM + (line + "")), Parse(accept, line + ""));
      assert line + "" == line;
      BomShortens(accept, line);
    }
  }

  lemma FirstLineDecides(accept: Handler, line: string, rest: string)
    requires line != "" && LineLength(line) == |line| && line[|line| - 1] == '\n' && !(BOM <= line)
    requires SameButError(Run(accept, START, 0, ShortFirst(line)), Run(accept, START, 0, Chunks(line)))
    ensures SameButError(Parse(accept, BOM + (line + rest)), Parse(accept, line + rest))
  {
    hide Run, Chunks, ShortFirst, LineLength, SameButError;
    var a, b, c := ShortFirst(line), Chunks(line), Chunks(rest);
    assert Parse(accept, BOM + (line + rest)) == Run(accept, START, 0, a + c) by {
      NoMarkAcross(line, rest);
      BomShortens(accept, line + rest);
      ShortFirstJoin(line, rest);
    }
    assert Parse(accept, line + rest) == Run(accept, START, 0, b + c) by { ChunksJoin(line, rest); }
    NoChunks(line);
    SomeShortFirst(line);
    RunJoin(accept, a, b, c);
  }

  lemma RunJoin(accept: Handler, a: seq<string>, b: seq<string>, c: seq<string>)
    requires a != [] && b != [] && SameButError(Run(accept, START, 0, a), Run(accept, START, 0, b))
    ensures SameButError(Run(accept, START, 0, a + c), Run(accept, START, 0, b + c))
  {
    hide Run, SameButError;
    RunAppend(accept, START, 0, a, c);
    RunAppend(accept, START, 0, b, c);
    RunShifted(accept, Run(accept, START, 0, a), Run(accept, START, 0, b), |a|, |b|, c);
  }

  lemma SomeShortFirst(text: string)
    requires text != ""
    ensures ShortFirst(text) != []
  {
  }

  /** A mark holds no newline. */
  lemma NoMarkAcross(line: string, rest: string)
    requires line != "" && line[|line| - 1] == '\n'
    ensures BOM <= line + rest ==> BOM <= line
  {
    if BOM <= line + rest {
      forall i | 0 <= i < |BOM| && i < |line| ensures BOM[i] == line[i] {
        assert (line + rest)[i] == line[i] && (line + rest)[..|BOM|][i] == BOM[i];
      }
      assert |line| >= |BOM|;
      assert line[..|BOM|] == BOM;
    }
  }

  lemma ShortFirstJoin(line: string, rest: string)
    requires line != "" && LineLength(line) == |line| && line[|line| - 1] == '\n'
    ensures ShortFirst(line + rest) == ShortFirst(line) + Chunks(rest)
  {
    hide LineLength, Chunks;
    var n, text := BomCut(line), line + rest;
    assert BomCut(text) == n by { LineLengthPrefix(line, rest); }
    hide BomCut;
    assert text[..n] == line[..n] && text[n..] == line[n..] + rest;
    assert line[n..] == "" || line[n..][|line[n..]| - 1] == '\n';
    ChunksJoin(line[n..], rest);
    assert [line[..n]] + (Chunks(line[n..]) + Chunks(rest)) == [line[..n]] + Chunks(line[n..]) + Chunks(rest);
  }

  /** Line numbers matter to the error only, once the first line is over. */
  lemma {:induction false} RunShifted(accept: Handler, s: State, t: State, i: nat, j: nat, chunks: seq<string>)
    requires SameButError(s, t) && i > 0 && j > 0
    ensures SameButError(Run(accept, s, i, chunks), Run(accept, t, j, chunks))
    decreases |chunks|
  {
    hide Classify;
    if chunks != [] {
      RunShifted(accept, Step(accept, s, i + 1, chunks[0]), Step(accept, t, j + 1, chunks[0]), i + 1, j + 1,
                 chunks[1..]);
    }
  }

  lemma BomInFirstLine(text: string)
    requires BOM <= text
    ensures BOM <= text[..BomCut(text)]
  {
    assert text[0] == BOM[0] && text[1] == BOM[1] && text[2] == BOM[2];
    assert LineLength(text) == 3 + LineLength(text[1..][1..][1..]);
  }

  // ---- Why the first line needs room ---------------------------------------------------------------------

  function Letters(n: nat): string { seq(n, i => 'a') }

  /** 197 characters: a name, a separator and a value of one letter. */
  function LongLine(): string { Letters(195) + "=b" }

  lemma LettersLine(n: nat, rest: string)
    requires n > 0 && (rest == "=" || rest == "=b")
    ensures Classify(Letters(n) + rest, true, false).Pair?
  {
    hide RTrim, LTrim, Scan, ValueOf, IsSpace, LineEffect;
    var s := Letters(n) + rest;
    assert s[0] == 'a' && s[|s| - 1] == rest[|rest| - 1];
    LetterIsNoSpace();
    RTrimIs(s, "");
    LTrimIs("", s);
    assert s + "" == s && "" + s == s && s[0..] == s;
    assert Classify(s, true, false) == LineEffect(s, false, false);
    LettersAreName(Letters(n), rest);
  }

  lemma LettersAreName(a: string, rest: string)
    requires a != "" && (forall c :: c in a ==> c == 'a') && (rest == "=" || rest == "=b")
    ensures LineEffect(a + rest, false, false).Pair?
  {
    hide RTrim, Scan, ValueOf, IsSpace;
    assert a[0] in a;
    assert (a + rest)[0] == 'a';
    ScanSkips(a, rest, "=:", false);
    LetterIsNoSpace();
    assert a[|a| - 1] in a;
    ScanStart(rest);
    assert (a + rest)[|a|] == '=';
  }

  lemma LettersLength(n: nat, rest: string)
    requires rest == "=" || rest == "=b"
    ensures LineLength(Letters(n) + rest) == n + |rest|
  {
    hide LineLength;
    var s := Letters(n) + rest;
    forall i | 0 <= i < |s| ensures s[i] != '\n' { }
    assert '\n' !in s[..LineLength(s)];
  }

  lemma LetterIsNoSpace()
    ensures !IsSpace('a') && !IsSpace('b') && !IsSpace('=')
  {
  }

  lemma ScanStart(rest: string)
    requires rest != "" && rest[0] == '='
    ensures Scan(rest, "=:", false) == 0
  {
  }

  /** Without that room a mark can change the result: here it pushes the last letter of the first line out of
      the buffer, and what is left over becomes a malformed second chunk. */
  lemma BomMayBreakALine()
    ensures !RoomForBom(LongLine()) && !(BOM <= LongLine())
    ensures Parse(Always, LongLine()).error == 0
    ensures Parse(Always, BOM + LongLine()).error == 2
  {
    hide Run, LineLength, Classify, Chunks, ChunkLength;
    var accept: Handler := Always;
    var text := LongLine();
    var front := Letters(195) + "=";
    LettersLine(195, "=b");
    LettersLine(195, "=");
    LettersLength(195, "=b");
    ChunksOf(text);
    ChunkLengthIs(text, text);
    assert text[..197] == text && text[197..] == "";
    NoChunks("");
    assert Chunks(text) == [text];
    RunOne(accept, START, 0, text);
    assert text[0] == 'a';
    BomLineLength(text);
    ChunksOf(BOM + text);
    LongChunk(BOM + text);
    assert (BOM + text)[..199] == BOM + front && (BOM + text)[199..] == "b";
    TwoChunks();
    assert front[0] == 'a';
    BomLine(front);
    RunCons(accept, START, 0, BOM + front, ["b"]);
    RunOne(accept, Step(accept, START, 1, BOM + front), 1, "b");
    LetterAlone();
  }

  lemma LongChunk(s: string)
    requires LineLength(s) >= MAX_LINE
    ensures ChunkLength(s) == MAX_LINE - 1
  {
  }

  lemma TwoChunks()
    ensures Chunks("b") == ["b"]
  {
    assert LineLength("b") == 1 + LineLength("b"[1..]);
    assert "b"[..1] == "b" && "b"[1..] == "";
    assert Chunks("b") == [ "b"[..1] ] + Chunks("b"[1..]);
  }

  lemma LetterAlone()
    ensures forall hasPrev :: Classify("b", false, hasPrev) == Malformed
  {
    assert "b"[0..] == "b";
    assert "b"[1..] == "";
    assert Scan("b", "=:", false) == 1 + Scan("", "=:", IsSpace('b'));
  }
}
