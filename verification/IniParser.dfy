/** ini_parse_stream as it is: a 200-byte line buffer that is cut into pieces by writing NULs into it, two name
    buffers of 50 bytes, and pointers into the line. It computes what module Ini says about the text. */
module IniParser {
  import opened Ini

  // ---- C strings in a buffer ------------------------------------------------------------------------

  /** The C string at position p is t. */
  ghost predicate Holds(s: seq<char>, p: nat, t: string)
  {
    p + |t| < |s| && s[p..p + |t|] == t && s[p + |t|] == '\0' && '\0' !in t
  }

  lemma HoldsAt(s: seq<char>, p: nat, t: string, k: nat)
    requires Holds(s, p, t) && k <= |t|
    ensures s[p + k] == if k < |t| then t[k] else '\0'
    ensures k < |t| ==> s[p + k] != '\0'
  {
    if k < |t| { assert s[p..p + |t|][k] == t[k]; }
  }

  lemma HoldsSuffix(s: seq<char>, p: nat, t: string, k: nat)
    requires Holds(s, p, t) && k <= |t|
    ensures Holds(s, p + k, t[k..])
  {
    assert s[p + k..p + |t|] == s[p..p + |t|][k..];
  }

  /** A NUL written into a string makes two of it. */
  lemma HoldsCut(s: seq<char>, s': seq<char>, p: nat, t: string, k: nat)
    requires Holds(s, p, t) && k < |t| && s' == s[p + k := '\0']
    ensures Holds(s', p, t[..k]) && Holds(s', p + k + 1, t[k + 1..])
  {
    assert s'[p..p + k] == s[p..p + |t|][..k];
    assert s'[p + k + 1..p + |t|] == s[p..p + |t|][k + 1..];
  }

  /** Writes outside a string do not change it. */
  lemma HoldsFrame(s: seq<char>, s': seq<char>, p: nat, t: string)
    requires Holds(s, p, t) && |s'| == |s|
    requires forall k :: p <= k <= p + |t| ==> s'[k] == s[k]
    ensures Holds(s', p, t)
  {
    assert s'[p..p + |t|] == s[p..p + |t|];
  }

  /** What a handler sees behind a pointer. */
  method Deref(a: array<char>, p: nat, ghost t: string) returns (r: string)
    requires Holds(a[..], p, t)
    ensures r == t
  {
    hide Holds;
    r := "";
    HoldsAt(a[..], p, t, 0);
    HoldsInBounds(a[..], p, t);
    while a[p + |r|] != '\0'
      invariant |r| <= |t| && r == t[..|r|] && p + |r| < a.Length
      decreases |t| - |r|
      invariant a[p + |r|] == if |r| < |t| then t[|r|] else '\0'
      invariant |r| < |t| ==> a[p + |r|] != '\0'
    {
      r := r + [a[p + |r|]];
      HoldsAt(a[..], p, t, |r|);
    }
  }

  lemma HoldsInBounds(s: seq<char>, p: nat, t: string)
    requires Holds(s, p, t)
    ensures p + |t| < |s|
  {
  }

  // ---- The string helpers ------------------------------------------------------------------------------

  /** rstrip: whitespace at the end is overwritten with NULs. */
  method RStrip(a: array<char>, s: nat, ghost t: string)
    requires Holds(a[..], s, t)
    modifies a
    ensures Holds(a[..], s, RTrim(t))
    ensures forall k :: 0 <= k < a.Length && !(s <= k < s + |t|) ==> a[k] == old(a[k])
  {
    hide IsSpace;
    var p := s;
    while a[p] != '\0'
      invariant s <= p <= s + |t| && a[..] == old(a[..])
      decreases s + |t| - p
    {
      HoldsAt(a[..], s, t, p - s);
      p := p + 1;
    }
    HoldsAt(a[..], s, t, p - s);
    assert t[..p - s] == t;
    while p > s
      invariant s <= p <= s + |t|
      invariant Holds(a[..], s, t[..p - s]) && RTrim(t) == RTrim(t[..p - s])
      invariant forall k :: 0 <= k < a.Length && !(s <= k < s + |t|) ==> a[k] == old(a[k])
    {
      ghost var u := t[..p - s];
      p := p - 1;
      HoldsAt(a[..], s, u, p - s);
      assert a[p] == u[|u| - 1];
      if !IsSpace(a[p]) { return; }
      ghost var before := a[..];
      a[p] := '\0';
      HoldsCut(before, a[..], s, u, p - s);
      assert u[..p - s] == t[..p - s];
    }
  }

  /** lskip: the first character that is not whitespace. */
  method LSkip(a: array<char>, s: nat, ghost t: string) returns (p: nat)
    requires Holds(a[..], s, t)
    ensures p == s + (|t| - |LTrim(t)|) && Holds(a[..], p, LTrim(t))
  {
    hide IsSpace, LTrim, Holds;
    p := s;
    assert t[0..] == t;
    HoldsInBounds(a[..], s, t);
    while true
      invariant s <= p <= s + |t|
      invariant LTrim(t[p - s..]) == LTrim(t)
      decreases s + |t| - p
    {
      ghost var u := t[p - s..];
      HoldsAt(a[..], s, t, p - s);
      LTrimUnfold(u);
      if a[p] == '\0' || !IsSpace(a[p]) {
        HoldsSuffix(a[..], s, t, p - s);
        return;
      }
      assert u[1..] == t[p + 1 - s..];
      p := p + 1;
    }
  }

  lemma LTrimUnfold(s: string)
    ensures LTrim(s) == if s != "" && IsSpace(s[0]) then LTrim(s[1..]) else s
  {
  }

  /** find_chars_or_comment, `stops` being empty for a null pointer. */
  method FindCharsOrComment(a: array<char>, s: nat, stops: string, ghost t: string) returns (p: nat)
    requires Holds(a[..], s, t)
    ensures p == s + Scan(t, stops, false) && p < a.Length
    ensures a[p] == if p < s + |t| then t[p - s] else '\0'
  {
    hide IsSpace;
    var wasSpace := false;
    p := s;
    assert t[0..] == t;
    while true
      invariant s <= p <= s + |t|
      invariant p - s + Scan(t[p - s..], stops, wasSpace) == Scan(t, stops, false)
      decreases s + |t| - p
    {
      HoldsAt(a[..], s, t, p - s);
      if a[p] == '\0' || a[p] in stops || (wasSpace && a[p] == ';') { return; }
      assert t[p - s..][1..] == t[p + 1 - s..];
      wasSpace := IsSpace(a[p]);
      p := p + 1;
    }
  }

  /** strncpy0: as much as fits, padded with NULs, always terminated. */
  method StrNCpy0(dest: array<char>, src: array<char>, at: nat, ghost t: string)
    requires dest != src && dest.Length > 0 && Holds(src[..], at, t)
    modifies dest
    ensures Holds(dest[..], 0, Clip(t, dest.Length))
  {
    hide Holds;
    var size := dest.Length;
    var i := 0;
    HoldsInBounds(src[..], at, t);
    HoldsAt(src[..], at, t, 0);
    while i < size && src[at + i] != '\0'
      invariant i <= size && i <= |t|
      invariant src[at + i] == if i < |t| then t[i] else '\0'
      invariant i < |t| ==> src[at + i] != '\0'
      invariant forall k :: 0 <= k < i ==> dest[k] == t[k]
    {
      dest[i] := src[at + i];
      i := i + 1;
      HoldsAt(src[..], at, t, i);
    }
    ghost var n := i;
    while i < size
      invariant n <= i <= size
      invariant forall k :: 0 <= k < n ==> dest[k] == t[k]
      invariant forall k :: n <= k < i ==> dest[k] == '\0'
    {
      dest[i] := '\0';
      i := i + 1;
    }
    dest[size - 1] := '\0';
    HoldsNoNul(src[..], at, t);
    IsClip(dest[..], t, n);
  }

  lemma HoldsNoNul(s: seq<char>, p: nat, t: string)
    requires Holds(s, p, t)
    ensures '\0' !in t
  {
  }

  lemma IsClip(s: seq<char>, t: string, n: nat)
    requires |s| > 0 && '\0' !in t && n <= |t| && n <= |s| && (n < |s| ==> n == |t|)
    requires forall k :: 0 <= k < n && k < |s| - 1 ==> s[k] == t[k]
    requires forall k :: n <= k < |s| ==> s[k] == '\0'
    requires s[|s| - 1] == '\0'
    ensures Holds(s, 0, Clip(t, |s|))
  {
    var c := Clip(t, |s|);
    assert s[..|c|] == c;
  }

  // ---- Reading and parsing -----------------------------------------------------------------------------------

  /** fgets: a line, or as much of it as the buffer takes. */
  method Fgets(line: array<char>, text: string, pos: nat) returns (next: nat)
    requires line.Length == MAX_LINE && pos < |text| && '\0' !in text
    modifies line
    ensures pos < next <= |text| && next == pos + ChunkLength(text[pos..])
    ensures Holds(line[..], 0, text[pos..next])
  {
    hide Holds, ChunkLength, LineLength;
    next := pos;
    while next < |text| && next - pos < MAX_LINE - 1
      invariant pos <= next <= |text| && next - pos <= MAX_LINE - 1
      invariant line[..next - pos] == text[pos..next]
      invariant '\n' !in text[pos..next]
    {
      line[next - pos] := text[next];
      next := next + 1;
      if text[next - 1] == '\n' { break; }
    }
    line[next - pos] := '\0';
    assert line[..][0..next - pos] == text[pos..next];
    FgetsHolds(line[..], text[pos..next]);
    assert text[pos..][..next - pos] == text[pos..next];
    FgetsLength(text[pos..], next - pos);
  }

  lemma FgetsHolds(s: seq<char>, t: string)
    requires |t| < |s| && s[0..|t|] == t && s[|t|] == '\0' && '\0' !in t
    ensures Holds(s, 0, t)
  {
  }

  lemma {:induction false} LineLengthAtLeast(s: string, n: nat)
    requires 0 < n <= |s| && forall i :: 0 <= i < n - 1 ==> s[i] != '\n'
    ensures LineLength(s) >= n
    ensures s[n - 1] == '\n' || n == |s| ==> LineLength(s) == n
    decreases n
  {
    if n > 1 { LineLengthAtLeast(s[1..], n - 1); }
  }

  lemma FgetsLength(s: string, n: nat)
    requires 0 < n <= |s| && n < MAX_LINE
    requires '\n' !in s[..n - 1] && (n == |s| || n == MAX_LINE - 1 || s[n - 1] == '\n')
    ensures ChunkLength(s) == n
  {
    hide LineLength;
    forall i | 0 <= i < n - 1 ensures s[i] != '\n' { assert s[i] in s[..n - 1]; }
    LineLengthAtLeast(s, n);
  }

  /** The parser's variables stand for a state. */
  ghost predicate Mirrors(st: State, section: seq<char>, prevName: seq<char>, error: nat, events: seq<Event>)
  {
    Holds(section, 0, st.section) && Holds(prevName, 0, st.prevName) && error == st.error && events == st.events
  }

  /** A "[section]" line. */
  method ParseHeader(line: array<char>, start: nat, section: array<char>, prevName: array<char>, lineno: nat,
                     error: nat, events: seq<Event>, accept: Handler, ghost t: string, ghost st: State)
    returns (error': nat)
    requires line != section && line != prevName && section != prevName
    requires section.Length == MAX_SECTION && prevName.Length == MAX_NAME
    requires Holds(line[..], start, t) && t != "" && t[0] == '['
    requires Mirrors(st, section[..], prevName[..], error, events)
    modifies line, section, prevName
    ensures Mirrors(Apply(accept, st, lineno, HeaderLine(t)), section[..], prevName[..], error', events)
  {
    hide Holds, Scan;
    error' := error;
    HoldsSuffix(line[..], start, t, 1);
    var end := FindCharsOrComment(line, start + 1, "]", t[1..]);
    if line[end] == ']' {
      ghost var before := line[..];
      line[end] := '\0';
      HoldsCut(before, line[..], start + 1, t[1..], end - start - 1);
      assert t[1..][..end - start - 1] == t[1..end - start];
      StrNCpy0(section, line, start + 1, t[1..end - start]);
      prevName[0] := '\0';
      EmptyString(prevName[..]);
    } else if error == 0 {
      error' := lineno;
    }
  }

  lemma EmptyString(s: seq<char>)
    requires s != [] && s[0] == '\0'
    ensures Holds(s, 0, "")
  {
  }

  /** The value behind the separator, cut out in place. */
  method ParseValue(line: array<char>, start: nat, ghost s: string) returns (value: nat)
    requires Holds(line[..], start, s)
    modifies line
    ensures Holds(line[..], value, ValueOf(s)) && start <= value
    ensures forall k :: 0 <= k < start && k < line.Length ==> line[k] == old(line[k])
  {
    hide Holds, Scan, RTrim, LTrim;
    value := LSkip(line, start, s);
    ghost var v := LTrim(s);
    var end := FindCharsOrComment(line, value, "", v);
    ghost var n := Scan(v, "", false);
    HoldsAt(line[..], value, v, n);
    if line[end] != '\0' {
      ghost var before := line[..];
      line[end] := '\0';
      HoldsCut(before, line[..], value, v, n);
    }
    assert n == |v| ==> v[..n] == v;
    RStrip(line, value, v[..n]);
  }

  /** A name[=:]value line. */
  method ParsePair(line: array<char>, start: nat, section: array<char>, prevName: array<char>, lineno: nat,
                   error: nat, events: seq<Event>, accept: Handler, ghost t: string, ghost st: State)
    returns (error': nat, events': seq<Event>)
    requires line != section && line != prevName && section != prevName && prevName.Length == MAX_NAME
    requires Holds(line[..], start, t)
    requires Mirrors(st, section[..], prevName[..], error, events)
    modifies line, prevName
    ensures Mirrors(Apply(accept, st, lineno, PairLine(t)), section[..], prevName[..], error', events')
  {
    hide Holds, Scan, RTrim, ValueOf, Clip;
    error', events' := error, events;
    var end := FindCharsOrComment(line, start, "=:", t);
    if line[end] == '=' || line[end] == ':' {
      ghost var n := end - start;
      ghost var before := line[..];
      line[end] := '\0';
      HoldsCut(before, line[..], start, t, n);
      ghost var cut := line[..];
      RStrip(line, start, t[..n]);
      ghost var named := line[..];
      HoldsInBounds(cut, end + 1, t[n + 1..]);
      HoldsFrame(cut, named, end + 1, t[n + 1..]);
      ghost var name, v := RTrim(t[..n]), ValueOf(t[n + 1..]);
      var value := ParseValue(line, end + 1, t[n + 1..]);
      HoldsInBounds(named, start, name);
      HoldsFrame(named, line[..], start, name);
      StrNCpy0(prevName, line, start, name);
      var call := Call(section, line, start, line, value, st.section, name, v);
      events' := events + [call];
      if !accept(events, call) && error == 0 { error' := lineno; }
    } else if error == 0 {
      error' := lineno;
    }
  }

  /** The strings a handler is called with. */
  method Call(section: array<char>, names: array<char>, name: nat, values: array<char>, value: nat, ghost s: string,
              ghost n: string, ghost v: string)
    returns (e: Event)
    requires Holds(section[..], 0, s) && Holds(names[..], name, n) && Holds(values[..], value, v)
    ensures e == Event(s, n, v)
  {
    hide Holds;
    var r := Deref(section, 0, s);
    var q := Deref(names, name, n);
    var w := Deref(values, value, v);
    e := Event(r, q, w);
  }

  lemma BomInBuffer(s: seq<char>, chunk: string)
    requires |s| == MAX_LINE && Holds(s, 0, chunk)
    ensures BOM <= chunk <==> s[0] == BOM[0] && s[1] == BOM[1] && s[2] == BOM[2]
  {
    HoldsAt(s, 0, chunk, 0);
    if |chunk| >= 1 { HoldsAt(s, 0, chunk, 1); }
    if |chunk| >= 2 { HoldsAt(s, 0, chunk, 2); }
    assert BOM <= chunk <==> |chunk| >= 3 && chunk[0] == BOM[0] && chunk[1] == BOM[1] && chunk[2] == BOM[2];
  }

  /** One turn of the loop: the state the variables stand for makes the step that the text of the line says. */
  method ParseLine(line: array<char>, section: array<char>, prevName: array<char>, lineno: nat, error: nat,
                   events: seq<Event>, accept: Handler, ghost chunk: string, ghost st: State)
    returns (error': nat, events': seq<Event>)
    requires line != section && line != prevName && section != prevName
    requires line.Length == MAX_LINE && section.Length == MAX_SECTION && prevName.Length == MAX_NAME
    requires Holds(line[..], 0, chunk)
    requires Mirrors(st, section[..], prevName[..], error, events)
    modifies line, section, prevName
    ensures Mirrors(Step(accept, st, lineno, chunk), section[..], prevName[..], error', events')
  {
    hide Holds, RTrim, LTrim, HeaderLine, PairLine, Classify;
    error', events' := error, events;
    BomInBuffer(line[..], chunk);
    var start := 0;
    if lineno == 1 && line[0] == BOM[0] && line[1] == BOM[1] && line[2] == BOM[2] { start := 3; }
    ghost var s := chunk[start..];
    HoldsSuffix(line[..], 0, chunk, start);
    RStrip(line, start, s);
    ghost var u := RTrim(s);
    start := LSkip(line, start, u);
    ghost var t := LTrim(u);
    HoldsInBounds(line[..], start, t);
    HoldsAt(line[..], start, t, 0);
    HoldsInBounds(prevName[..], 0, st.prevName);
    HoldsAt(prevName[..], 0, st.prevName, 0);
    ghost var e := LineEffect(t, start > 0, st.prevName != "");
    ClassifyIs(chunk, lineno == 1, st.prevName != "");
    if line[start] == ';' || line[start] == '#' {
    } else if prevName[0] != '\0' && line[start] != '\0' && start > 0 {
      var call := Call(section, prevName, 0, line, start, st.section, st.prevName, t);
      events' := events + [call];
      if !accept(events, call) && error == 0 { error' := lineno; }
    } else if line[start] == '[' {
      error' := ParseHeader(line, start, section, prevName, lineno, error, events, accept, t, st);
    } else if line[start] != '\0' {
      error', events' := ParsePair(line, start, section, prevName, lineno, error, events, accept, t, st);
    }
  }

  lemma ClassifyIs(chunk: string, first: bool, hasPrev: bool)
    ensures var b := BomLength(chunk, first);
            var u := RTrim(chunk[b..]);
            Classify(chunk, first, hasPrev) == LineEffect(LTrim(u), b + (|u| - |LTrim(u)|) > 0, hasPrev)
  {
    hide RTrim, LTrim, LineEffect;
  }

  /** For every text and every handler the parser returns the error, and makes the calls, of the pure parser.
      Every array access is in bounds, and both name buffers stay terminated throughout. */
  method ParseStream(text: string, accept: Handler) returns (error: nat, events: seq<Event>)
    requires '\0' !in text
    ensures error == Parse(accept, text).error && events == Parse(accept, text).events
  {
    hide Step, Holds, Chunks, ChunkLength;
    var line := new char[MAX_LINE];
    var section := new char[MAX_SECTION];
    var prevName := new char[MAX_NAME];
    section[0], prevName[0] := '\0', '\0';
    EmptyString(section[..]);
    EmptyString(prevName[..]);
    error, events := 0, [];
    var lineno, pos := 0, 0;
    ghost var st := START;
    assert text[0..] == text;
    while pos < |text|
      invariant pos <= |text|
      invariant Mirrors(st, section[..], prevName[..], error, events)
      invariant Run(accept, st, lineno, Chunks(text[pos..])) == Parse(accept, text)
    {
      ChunksOf(text[pos..]);
      ghost var rest := text[pos..];
      var next := Fgets(line, text, pos);
      ghost var chunk := text[pos..next];
      assert rest[..next - pos] == chunk && rest[next - pos..] == text[next..];
      RunCons(accept, st, lineno, chunk, Chunks(text[next..]));
      lineno, pos := lineno + 1, next;
      error, events := ParseLine(line, section, prevName, lineno, error, events, accept, chunk, st);
      st := Step(accept, st, lineno, chunk);
    }
    ChunksOf(text[pos..]);
  }
}
