/** INIReader: a case-folded map from section and name to a value, filled by the parser's handler calls. */
module IniReader {
  import opened Ini
  import opened IniParser
  import opened IniPrinter

  // ---- Keys -------------------------------------------------------------------------------------------

  /** tolower in the C locale. */
  function LowerChar(c: char): char
  {
    if 'A' <= c <= 'Z' then (c as int + 32) as char else c
  }

  function Lower(s: string): (r: string)
    ensures |r| == |s|
  {
    seq(|s|, i requires 0 <= i < |s| => LowerChar(s[i]))
  }

  function MakeKey(section: string, name: string): string
  {
    Lower(section + "=" + name)
  }

  const UPPER := "ABCDEFGHIJKLMNOPQRSTUVWXYZ"
  const LOWER := "abcdefghijklmnopqrstuvwxyz"

  /** The same character, or the two cases of one letter. */
  ghost predicate SameLetter(a: char, b: char)
  {
    a == b || exists k :: 0 <= k < 26 && ((a == UPPER[k] && b == LOWER[k]) || (a == LOWER[k] && b == UPPER[k]))
  }

  /** Two texts that are equal up to case. */
  ghost predicate SameText(s: string, t: string)
  {
    |s| == |t| && forall i :: 0 <= i < |s| ==> SameLetter(s[i], t[i])
  }

  lemma Alphabets(k: nat)
    requires k < 26
    ensures UPPER[k] == ('A' as int + k) as char && LOWER[k] == ('a' as int + k) as char
  {
  }

  lemma LettersFold(k: nat)
    requires k < 26
    ensures LowerChar(UPPER[k]) == LowerChar(LOWER[k])
  {
    Alphabets(k);
  }

  lemma FoldedLetter(a: char, b: char)
    requires 'A' <= a <= 'Z' && LowerChar(a) == b
    ensures SameLetter(a, b)
  {
    var k := a as int - 'A' as int;
    Alphabets(k);
    assert a == UPPER[k] && b == LOWER[k];
  }

  lemma LowerCharIff(a: char, b: char)
    ensures LowerChar(a) == LowerChar(b) <==> SameLetter(a, b)
  {
    if SameLetter(a, b) && a != b {
      hide LowerChar;
      var k :| 0 <= k < 26 && ((a == UPPER[k] && b == LOWER[k]) || (a == LOWER[k] && b == UPPER[k]));
      LettersFold(k);
    } else if LowerChar(a) == LowerChar(b) && a != b {
      hide SameLetter;
      if 'A' <= a <= 'Z' { FoldedLetter(a, b); } else { FoldedLetter(b, a); SameEitherWay(b, a); }
    }
  }

  lemma SameEitherWay(a: char, b: char)
    ensures SameLetter(a, b) ==> SameLetter(b, a)
  {
  }

  /** Folding case identifies exactly the texts that are equal up to case. */
  lemma LowerIff(s: string, t: string)
    ensures Lower(s) == Lower(t) <==> SameText(s, t)
  {
    hide LowerChar, SameLetter;
    if |s| == |t| {
      forall i | 0 <= i < |s| ensures Lower(s)[i] == Lower(t)[i] <==> SameLetter(s[i], t[i]) {
        LowerCharIff(s[i], t[i]);
      }
    }
  }

  /** Two pairs whose names have no '=' share a key exactly if they are the same up to case. Sections may
      contain '=': the last one in the key is the separator. */
  lemma MakeKeyInjective(s: string, n: string, t: string, m: string)
    requires '=' !in n && '=' !in m
    ensures MakeKey(s, n) == MakeKey(t, m) <==> SameText(s, t) && SameText(n, m)
  {
    hide SameText;
    LowerIff(s, t);
    LowerIff(n, m);
    LowerKeys(s, n, t, m);
  }

  lemma LowerKeys(s: string, n: string, t: string, m: string)
    requires '=' !in n && '=' !in m
    ensures MakeKey(s, n) == MakeKey(t, m) <==> Lower(s) == Lower(t) && Lower(n) == Lower(m)
  {
    KeyParts(s, n);
    KeyParts(t, m);
    if MakeKey(s, n) == MakeKey(t, m) {
      LastSeparator(s, n);
      LastSeparator(t, m);
      assert MakeKey(s, n)[|s|] == '=' && MakeKey(t, m)[|t|] == '=';
      assert Lower(s) == MakeKey(s, n)[..|s|] && Lower(n) == MakeKey(s, n)[|s| + 1..];
      assert Lower(t) == MakeKey(t, m)[..|t|] && Lower(m) == MakeKey(t, m)[|t| + 1..];
    }
  }

  lemma KeyParts(s: string, n: string)
    ensures MakeKey(s, n) == Lower(s) + "=" + Lower(n)
  {
  }

  lemma LastSeparator(t: string, m: string)
    requires '=' !in m
    ensures forall i :: |t| < i < |MakeKey(t, m)| ==> MakeKey(t, m)[i] != '='
  {
    forall i | |t| < i < |MakeKey(t, m)| ensures MakeKey(t, m)[i] != '=' {
      assert MakeKey(t, m)[i] == LowerChar(m[i - |t| - 1]);
      assert m[i - |t| - 1] in m;
    }
  }

  /** With '=' in a name two different pairs would be one entry. */
  lemma KeysCanMerge()
    ensures MakeKey("a", "b=c") == MakeKey("a=b", "c")
  {
    assert "a" + "=" + "b=c" == "a=b" + "=" + "c";
  }

  /** Where the first separator is, or the length of the text. */
  function FirstSeparator(s: string): (i: nat)
    ensures i <= |s| && '=' !in s[..i] && (i < |s| ==> s[i] == '=')
    ensures '=' in s ==> i < |s|
  {
    if s == "" || s[0] == '=' then 0
    else
      var i := FirstSeparator(s[1..]);
      assert s[..i + 1] == [s[0]] + s[1..][..i];
      i + 1
  }

  datatype Question = Question(section: string, name: string)

  /** What a look-up really asks for: the key is cut at its last separator, so all of a name before its last '='
      counts as section. */
  function Asked(section: string, name: string): (q: Question)
    ensures '=' !in q.name && ('=' !in name ==> q == Question(section, name))
    decreases |name|
  {
    if '=' !in name then Question(section, name)
    else
      var i := FirstSeparator(name);
      Asked(section + "=" + name[..i], name[i + 1..])
  }

  lemma {:induction false} AskedSameKey(section: string, name: string)
    ensures MakeKey(Asked(section, name).section, Asked(section, name).name) == MakeKey(section, name)
    decreases |name|
  {
    hide MakeKey;
    if '=' in name {
      var i := FirstSeparator(name);
      AskedSameKey(section + "=" + name[..i], name[i + 1..]);
      SameKey(section, name, i);
    }
  }

  lemma SameKey(section: string, name: string, i: nat)
    requires i < |name| && name[i] == '='
    ensures MakeKey(section + "=" + name[..i], name[i + 1..]) == MakeKey(section, name)
  {
    hide Lower;
    var p, q := name[..i], name[i + 1..];
    assert name == p + "=" + q;
    assert section + "=" + p + "=" + q == section + "=" + (p + "=" + q);
  }

  /** No name the parser can emit contains '='. */
  ghost predicate NamesAreSafe(st: State)
  {
    '=' !in st.prevName && forall i :: 0 <= i < |st.events| ==> '=' !in st.events[i].name
  }

  lemma PairNameIsSafe(t: string)
    ensures PairLine(t).Pair? ==> '=' !in PairLine(t).name
  {
    hide ValueOf;
    var n := Scan(t, "=:", false);
    ScanIs(t, "=:", false, n);
    TrimParts(t[..n]);
    var name := RTrim(t[..n]);
    forall i | 0 <= i < |name| ensures name[i] != '=' { assert !StopAt(t, "=:", false, i); }
  }

  lemma LineNameIsSafe(chunk: string, first: bool, hasPrev: bool)
    ensures Classify(chunk, first, hasPrev).Pair? ==> '=' !in Classify(chunk, first, hasPrev).name
  {
    hide RTrim, LTrim, PairLine;
    PairNameIsSafe(LTrim(RTrim(chunk[BomLength(chunk, first)..])));
  }

  lemma StepIsSafe(accept: Handler, st: State, lineno: nat, chunk: string)
    requires NamesAreSafe(st)
    ensures NamesAreSafe(Step(accept, st, lineno, chunk))
  {
    hide Classify;
    LineNameIsSafe(chunk, lineno == 1, st.prevName != "");
  }

  lemma {:induction false} RunIsSafe(accept: Handler, st: State, lineno: nat, chunks: seq<string>)
    requires NamesAreSafe(st)
    ensures NamesAreSafe(Run(accept, st, lineno, chunks))
    decreases |chunks|
  {
    hide Step, NamesAreSafe;
    if chunks != [] {
      StepIsSafe(accept, st, lineno + 1, chunks[0]);
      RunIsSafe(accept, Step(accept, st, lineno + 1, chunks[0]), lineno + 1, chunks[1..]);
    }
  }

  // ---- Values -------------------------------------------------------------------------------------------

  function DropEmpty(xs: seq<string>): seq<string>
  {
    if xs != [] && xs[0] == "" then DropEmpty(xs[1..]) else xs
  }

  function Join(xs: seq<string>): string
  {
    if xs == [] then ""
    else if |xs| == 1 then xs[0]
    else Join(xs[..|xs| - 1]) + "\n" + xs[|xs| - 1]
  }

  /** What is stored for values that arrived in this order. */
  function Stored(xs: seq<string>): string { Join(DropEmpty(xs)) }

  /** What the handler does to a stored value. */
  function Add(stored: string, value: string): string
  {
    if |stored| > 0 then stored + "\n" + value else stored + value
  }

  lemma {:induction false} DropEmptySnoc(xs: seq<string>, x: string)
    ensures DropEmpty(xs + [x]) == if DropEmpty(xs) == [] then DropEmpty([x]) else DropEmpty(xs) + [x]
    ensures DropEmpty(xs) != [] ==> DropEmpty(xs)[0] != ""
    decreases |xs|
  {
    if xs == [] {
      assert xs + [x] == [x];
    } else if xs[0] == "" {
      assert (xs + [x])[1..] == xs[1..] + [x];
      DropEmptySnoc(xs[1..], x);
    }
  }

  lemma {:induction false} JoinNonEmpty(xs: seq<string>)
    requires xs != [] && xs[0] != ""
    ensures Join(xs) != ""
    decreases |xs|
  {
    if |xs| > 1 { JoinNonEmpty(xs[..|xs| - 1]); }
  }

  lemma JoinSnoc(xs: seq<string>, x: string)
    requires xs != []
    ensures Join(xs + [x]) == Join(xs) + "\n" + x
  {
    assert (xs + [x])[..|xs|] == xs;
  }

  /** Appending value by value yields the newline-join of all values but the leading empty ones. */
  lemma StoredSnoc(xs: seq<string>, x: string)
    ensures Stored(xs + [x]) == Add(Stored(xs), x)
  {
    hide Join, DropEmpty;
    DropEmptySnoc(xs, x);
    var d := DropEmpty(xs);
    if d == [] {
      StoredOne(x);
    } else {
      JoinNonEmpty(d);
      JoinSnoc(d, x);
    }
  }

  lemma StoredOne(x: string)
    ensures Join([]) == "" && Join(DropEmpty([x])) == x
  {
    assert x == "" ==> [x][1..] == [];
  }

  /** The values of a key, in order. */
  function ValuesOf(events: seq<Event>, key: string): seq<string>
  {
    if events == [] then []
    else
      var e := events[|events| - 1];
      ValuesOf(events[..|events| - 1], key) + (if MakeKey(e.section, e.name) == key then [e.value] else [])
  }

  /** The values of a section and name up to case, in order. */
  ghost function ValuesFor(events: seq<Event>, section: string, name: string): seq<string>
  {
    if events == [] then []
    else
      var e := events[|events| - 1];
      ValuesFor(events[..|events| - 1], section, name) +
      (if SameText(e.section, section) && SameText(e.name, name) then [e.value] else [])
  }

  lemma {:induction false} KeysAreFaithful(events: seq<Event>, section: string, name: string)
    requires '=' !in name && forall i :: 0 <= i < |events| ==> '=' !in events[i].name
    ensures ValuesOf(events, MakeKey(section, name)) == ValuesFor(events, section, name)
    decreases |events|
  {
    hide MakeKey, SameText;
    if events != [] {
      var e := events[|events| - 1];
      MakeKeyInjective(e.section, e.name, section, name);
      KeysAreFaithful(events[..|events| - 1], section, name);
    }
  }

  // ---- The reader -----------------------------------------------------------------------------------------

  datatype File = Unreadable | Readable(text: string)

  class INIReader {
    var error: int
    var values: map<string, string>

    /** The map holds what the events say about every key, and nothing else. */
    ghost predicate Represents(events: seq<Event>)
      reads this
    {
      forall key: string :: (key in values <==> ValuesOf(events, key) != []) &&
                            (key in values ==> values[key] == Stored(ValuesOf(events, key)))
    }

    /** Reading a file; one that cannot be opened leaves the error -1 and nothing else. */
    constructor (file: File)
      requires file.Readable? ==> '\0' !in file.text
      ensures error == if file.Readable? then Parse(Always, file.text).error else -1
      ensures Represents(if file.Readable? then Parse(Always, file.text).events else [])
    {
      var e: int, events := -1, [];
      if file.Readable? { e, events := ParseStream(file.text, Always); }
      error := e;
      values := map[];
      new;
      hide Stored, ValuesOf;
      NoValues();
      for i := 0 to |events|
        invariant error == e
        invariant Represents(events[..i])
      {
        assert events[..i + 1] == events[..i] + [events[i]];
        ValueHandler(events[i], events[..i]);
      }
      assert events[..|events|] == events;
    }

    method ValueHandler(e: Event, ghost before: seq<Event>)
      requires Represents(before)
      modifies this`values
      ensures Represents(before + [e])
      ensures forall k :: k != MakeKey(e.section, e.name) ==>
                (k in values <==> k in old(values)) && (k in values ==> values[k] == old(values)[k])
    {
      hide MakeKey, Stored, ValuesOf;
      var key := MakeKey(e.section, e.name);
      ghost var was := values;
      if key !in values { values := values[key := ""]; }
      if |values[key]| > 0 { values := values[key := values[key] + "\n"]; }
      values := values[key := values[key] + e.value];
      StoredNothing();
      StoredSnoc(ValuesOf(before, key), e.value);
      assert values == was[key := Stored(ValuesOf(before, key) + [e.value])];
      forall k: string
        ensures ValuesOf(before + [e], k) == if k == key then ValuesOf(before, k) + [e.value] else ValuesOf(before, k)
      {
        ValuesSnoc(before, e, k);
      }
    }

    function Get(section: string, name: string, default_value: string): string
      reads this
    {
      var key := MakeKey(section, name);
      if key in values then values[key] else default_value
    }

    /** Every look-up finds the newline-join of the values for the section and name it really asks for, in order and
        without the leading empty ones, whatever the case in which they were written; the default is returned
        exactly if there was no such event. */
    lemma GetAgrees(text: string, section: string, name: string, default_value: string)
      requires Represents(Parse(Always, text).events)
      ensures var q := Asked(section, name);
              var xs := ValuesFor(Parse(Always, text).events, q.section, q.name);
              Get(section, name, default_value) == if xs == [] then default_value else Stored(xs)
    {
      hide MakeKey, Stored, Run, Chunks, Asked;
      RunIsSafe(Always, START, 0, Chunks(text));
      AskedSameKey(section, name);
      KeysAreFaithful(Parse(Always, text).events, Asked(section, name).section, Asked(section, name).name);
    }

    /** A configuration that was printed and read answers every look-up from its own entries. */
    lemma GetOfPrinted(c: Config, section: string, name: string, default_value: string)
      requires Printable(c) && Represents(Parse(Always, Print(c)).events)
      ensures var q := Asked(section, name);
              var xs := ValuesFor(ConfigEvents(c), q.section, q.name);
              Get(section, name, default_value) == if xs == [] then default_value else Stored(xs)
    {
      hide Printable, Parse, Print, ValuesFor, Stored, ConfigEvents, Asked;
      RoundTrip(Always, c);
      GetAgrees(Print(c), section, name, default_value);
    }
  }

  lemma NoValues()
    ensures forall key: string :: ValuesOf([], key) == []
  {
  }

  lemma StoredNothing()
    ensures Stored([]) == ""
  {
  }

  lemma ValuesSnoc(before: seq<Event>, e: Event, key: string)
    ensures ValuesOf(before + [e], key)
         == ValuesOf(before, key) + (if MakeKey(e.section, e.name) == key then [e.value] else [])
  {
    assert (before + [e])[..|before|] == before;
  }
}
