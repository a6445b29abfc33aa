// Printing a configuration as INI text and parsing it gives the configuration back.
module IniRoundTrip {
  import opened Ini
  import StringUtil

  /** A name with its value: the text behind the name, and the lines that continue it. */
  datatype Entry = Entry(name: string, value: string, more: seq<string>) {
    function Lines(): seq<string> { [value] + more }
  }

  datatype Section = Section(name: string, entries: seq<Entry>)

  // ----- printing -----

  function HeaderLine(name: string): string { "[" + name + "]\n" }

  function PairLine(name: string, value: string): string { name + "=" + value + "\n" }

  /** A further line of a value, indented by one blank. */
  function MoreLine(value: string): string { " " + value + "\n" }

  function MoreLines(values: seq<string>): seq<string> {
    if values == [] then [] else MoreLines(values[..|values| - 1]) + [MoreLine(values[|values| - 1])]
  }

  function PrintEntry(e: Entry): seq<string> {
    [PairLine(e.name, e.value)] + MoreLines(e.more)
  }

  function PrintEntries(es: seq<Entry>): seq<string> {
    if es == [] then [] else PrintEntries(es[..|es| - 1]) + PrintEntry(es[|es| - 1])
  }

  function PrintAll(cfg: seq<Section>): seq<string> {
    if cfg == [] then []
    else
      var s := cfg[|cfg| - 1];
      PrintAll(cfg[..|cfg| - 1]) + ([HeaderLine(s.name)] + PrintEntries(s.entries))
  }

  function Concat(lines: seq<string>): string {
    if lines == [] then "" else Concat(lines[..|lines| - 1]) + lines[|lines| - 1]
  }

  // ----- what can be printed -----

  /** No line end, no NUL, and no comment would begin inside. */
  predicate Clean(s: string) {
    && (forall i :: 0 <= i < |s| ==> s[i] != '\n' && s[i] != NUL)
    && forall i :: 0 < i < |s| && s[i] == ';' ==> !IsSpace(s[i - 1])
  }

  /** Stripping changes nothing. */
  predicate Tight(s: string) {
    s != "" ==> !IsSpace(s[0]) && !IsSpace(s[|s| - 1])
  }

  predicate NameOk(s: string) {
    && s != "" && Clean(s) && Tight(s)
    && s[0] != ';' && s[0] != '#' && s[0] != '['
    && forall i :: 0 <= i < |s| ==> s[i] != '='
  }

  /** A continuation line is never cut at a comment, so it may hold any semicolon but a leading one. */
  predicate MoreOk(s: string) {
    && s != "" && Tight(s) && s[0] != ';' && s[0] != '#' && |s| + 2 < 4096
    && forall i :: 0 <= i < |s| ==> s[i] != '\n' && s[i] != NUL
  }

  /** A value that is continued needs a name that the parser remembers whole. */
  predicate EntryOk(e: Entry) {
    Readable(e) && (e.more != [] ==> |e.name| < 50)
  }

  /** Each line of the entry is read as what it is. */
  predicate Readable(e: Entry) {
    && NameOk(e.name)
    && Clean(e.value) && Tight(e.value) && |e.name| + |e.value| + 2 < 4096
    && forall i :: 0 <= i < |e.more| ==> MoreOk(e.more[i])
  }

  predicate SectionOk(s: Section) {
    && |s.name| < 50 && Clean(s.name) && (forall i :: 0 <= i < |s.name| ==> s.name[i] != ']')
    && forall i :: 0 <= i < |s.entries| ==> EntryOk(s.entries[i])
  }

  // ----- what is handed over -----

  function MoreCalls(section: string, name: string, values: seq<string>): (r: seq<Call>)
    ensures |r| == |values| && forall i :: 0 <= i < |r| ==> r[i] == Call(section, name, values[i])
  {
    seq(|values|, i requires 0 <= i < |values| => Call(section, name, values[i]))
  }

  function EntriesCalls(section: string, es: seq<Entry>): seq<Call> {
    if es == [] then []
    else EntriesCalls(section, es[..|es| - 1]) + MoreCalls(section, es[|es| - 1].name, es[|es| - 1].Lines())
  }

  /** Every line of every value, with its section and name, in order. */
  function AllCalls(cfg: seq<Section>): seq<Call> {
    if cfg == [] then []
    else AllCalls(cfg[..|cfg| - 1]) + EntriesCalls(cfg[|cfg| - 1].name, cfg[|cfg| - 1].entries)
  }

  // ----- single lines -----

  lemma {:induction false} RstripTight(s: string)
    requires s == "" || !IsSpace(s[|s| - 1])
    ensures Rstrip(s) == s && Rstrip(s + "\n") == s
  {
    var t := s + "\n";
    assert t[..|t| - 1] == s && t[|t| - 1] == '\n';
    assert Rstrip(s) == s;
    assert t != "" && IsSpace(t[|t| - 1]);
    assert Rstrip(t) == Rstrip(t[..|t| - 1]);
  }

  /** A line whose text is tight is stripped to that text. */
  lemma StripLine(t: string)
    requires t != "" && Tight(t)
    ensures Rstrip(t + "\n") == t && Spaces(t) == 0 && Lskip(t) == t
  {
    RstripTight(t);
    assert t[0..] == t;
  }

  /** The search stops at n when c is there, or nothing is. */
  lemma {:induction false} FindStops(s: string, c: char, was: bool, n: nat)
    requires n <= |s| && (n < |s| ==> s[n] == c)
    requires forall i :: 0 <= i < n ==> s[i] != c
    requires n > 0 && was ==> s[0] != ';'
    requires forall i :: 0 < i < n && s[i] == ';' ==> !IsSpace(s[i - 1])
    ensures Find(s, c, was) == n
    decreases n
  {
    if n > 0 {
      var t := s[1..];
      assert forall i :: 0 <= i < n - 1 ==> t[i] == s[i + 1];
      forall i | 0 < i < n - 1 && t[i] == ';'
        ensures !IsSpace(t[i - 1])
      {
        assert s[i + 1] == ';';
        assert t[i - 1] == s[i];
      }
      assert n > 1 && IsSpace(s[0]) ==> s[1] != ';';
      FindStops(t, c, IsSpace(s[0]), n - 1);
    }
  }

  lemma HeaderRead(name: string, first: bool, prevName: string)
    requires Clean(name) && forall i :: 0 <= i < |name| ==> name[i] != ']'
    ensures ClassifyRaw(HeaderLine(name), first, prevName) == Header(name)
  {
    hide Rstrip, Spaces, Find, Lskip;
    var t := "[" + name + "]";
    assert HeaderLine(name) == t + "\n";
    StripLine(t);
    assert t[1..] == name + "]";
    assert forall i :: 0 <= i < |name| ==> t[1..][i] == name[i];
    FindStops(t[1..], ']', false, |name|);
    assert t[1..1 + |name|] == name;
  }

  lemma PairRead(name: string, value: string, prevName: string)
    requires NameOk(name) && Clean(value) && Tight(value)
    ensures ClassifyRaw(PairLine(name, value), false, prevName) == Pair(name, value)
  {
    hide Rstrip, Spaces, Find, Lskip, Ini.ValueOf;
    var t := name + "=" + value;
    assert PairLine(name, value) == t + "\n";
    assert t[|t| - 1] == if value == "" then '=' else value[|value| - 1];
    assert t[0] == name[0];
    StripLine(t);
    NameEnds(name, value);
    assert t[..|name|] == name && t[|name| + 1..] == value;
    RstripTight(name);
    ValueRead(value);
  }

  lemma NameEnds(name: string, value: string)
    requires NameOk(name)
    ensures Separator(name + "=" + value) == |name|
  {
    hide Find;
    var t := name + "=" + value;
    assert forall i :: 0 <= i < |name| ==> t[i] == name[i];
    FindStops(t, '=', false, |name|);
  }

  lemma ValueRead(value: string)
    requires Clean(value) && Tight(value)
    ensures Ini.ValueOf(value) == value
  {
    assert value[0..] == value && value[..|value|] == value;
    FindStops(value, NUL, false, |value|);
    RstripTight(value);
  }

  lemma MoreRead(value: string, prevName: string)
    requires MoreOk(value) && prevName != ""
    ensures ClassifyRaw(MoreLine(value), false, prevName) == More(value)
  {
    var t := " " + value;
    assert MoreLine(value) == t + "\n";
    assert t[|t| - 1] == value[|value| - 1];
    RstripTight(t);
    assert t[1..] == value;
    assert Spaces(value) == 0;
    assert Spaces(t) == 1;
  }

  // ----- lists of lines -----

  function HandleFrom(values: map<string, string>, calls: seq<Call>): map<string, string> {
    if calls == [] then values else Handle(HandleFrom(values, calls[..|calls| - 1]), calls[|calls| - 1])
  }

  lemma {:induction false} HandleJoins(values: map<string, string>, a: seq<Call>, b: seq<Call>)
    ensures HandleFrom(values, a + b) == HandleFrom(HandleFrom(values, a), b)
    decreases |b|
  {
    hide Handle;
    if b == [] {
      assert a + b == a;
    } else {
      var last := |b| - 1;
      HandleJoins(values, a, b[..last]);
      assert (a + b)[..|a| + last] == a + b[..last];
    }
  }

  lemma {:induction false} HandleFromNothing(calls: seq<Call>)
    ensures HandleFrom(map[], calls) == HandleAll(calls)
  {
    hide Handle;
    if calls != [] {
      HandleFromNothing(calls[..|calls| - 1]);
    }
  }

  lemma {:induction false} LinesJoin(st: State, a: seq<string>, b: seq<string>)
    ensures Lines(st, a + b) == Lines(Lines(st, a), b)
    decreases |b|
  {
    hide OneLine;
    if b == [] {
      assert a + b == a;
    } else {
      var last := |b| - 1;
      LinesJoin(st, a, b[..last]);
      assert (a + b)[..|a| + last] == a + b[..last];
    }
  }

  lemma {:induction false} MoreLinesParsed(st: State, values: seq<string>)
    requires st.lineno > 0 && st.prevName != "" && forall i :: 0 <= i < |values| ==> MoreOk(values[i])
    ensures Lines(st, MoreLines(values))
         == st.(lineno := st.lineno + |values|,
                values := HandleFrom(st.values, MoreCalls(st.section, st.prevName, values)))
    decreases |values|
  {
    hide MoreOk, MoreLine, Handle, ClassifyRaw;
    if values != [] {
      var last := |values| - 1;
      MoreLinesParsed(st, values[..last]);
      var lines := MoreLines(values);
      assert lines[..|lines| - 1] == MoreLines(values[..last]);
      MoreRead(values[last], st.prevName);
      var calls := MoreCalls(st.section, st.prevName, values);
      assert calls[..last] == MoreCalls(st.section, st.prevName, values[..last]);
    }
  }

  lemma OneCall(values: map<string, string>, c: Call)
    ensures HandleFrom(values, [c]) == Handle(values, c)
  {
    hide Handle;
    assert [c][..0] == [];
  }

  lemma OneLineList(st: State, raw: string)
    ensures Lines(st, [raw]) == OneLine(st, raw)
  {
    hide OneLine;
    assert [raw][..0] == [];
  }

  /**
   * What an entry is parsed to, however long its name: the first line is filed under the name,
   * the others under its first 49 characters.
   */
  lemma EntryRead(st: State, e: Entry)
    requires st.lineno > 0 && Readable(e)
    ensures var first := HandleFrom(st.values, [Call(st.section, e.name, e.value)]);
      var cut := if |e.name| < 50 then e.name else e.name[..49];
      Lines(st, PrintEntry(e))
      == st.(lineno := st.lineno + |e.Lines()|, prevName := cut,
             values := HandleFrom(first, MoreCalls(st.section, cut, e.more)))
  {
    hide MoreOk, Handle, ClassifyRaw, Lines, HandleFrom, MoreLines, PairLine;
    var raw, rest := PairLine(e.name, e.value), e.more;
    PairRead(e.name, e.value, st.prevName);
    OneLineList(st, raw);
    LinesJoin(st, [raw], MoreLines(rest));
    MoreLinesParsed(OneLine(st, raw), rest);
    OneCall(st.values, Call(st.section, e.name, e.value));
  }

  /** The first call and the others. */
  lemma SplitCalls(values: map<string, string>, section: string, e: Entry)
    ensures HandleFrom(values, MoreCalls(section, e.name, e.Lines()))
         == HandleFrom(HandleFrom(values, [Call(section, e.name, e.value)]), MoreCalls(section, e.name, e.more))
  {
    hide HandleFrom;
    var c := Call(section, e.name, e.value);
    assert MoreCalls(section, e.name, e.Lines()) == [c] + MoreCalls(section, e.name, e.more);
    HandleJoins(values, [c], MoreCalls(section, e.name, e.more));
  }

  lemma EntryParsed(st: State, e: Entry)
    requires st.lineno > 0 && EntryOk(e)
    ensures Lines(st, PrintEntry(e))
         == st.(lineno := st.lineno + |e.Lines()|, prevName := Truncated(e.name, MAX_NAME),
                values := HandleFrom(st.values, MoreCalls(st.section, e.name, e.Lines())))
  {
    hide Readable, Handle, Lines, PrintEntry;
    EntryRead(st, e);
    SplitCalls(st.values, st.section, e);
    if e.more == [] {
      assert MoreCalls(st.section, e.name, e.more) == MoreCalls(st.section, Truncated(e.name, MAX_NAME), e.more);
    }
  }

  /** Calls for other keys leave a value alone. */
  lemma {:induction false} HandleElsewhere(values: map<string, string>, calls: seq<Call>, key: string)
    requires !Mentions(calls, key)
    ensures key in HandleFrom(values, calls) <==> key in values
    ensures key in values ==> HandleFrom(values, calls)[key] == values[key]
    decreases |calls|
  {
    if calls != [] {
      hide MakeKey, Extend;
      var last := |calls| - 1;
      assert MakeKey(calls[last].section, calls[last].name) != key;
      assert forall i :: 0 <= i < last ==> calls[..last][i] == calls[i];
      assert !Mentions(calls[..last], key);
      HandleElsewhere(values, calls[..last], key);
    }
  }

  /** Further lines make a value longer. */
  lemma {:induction false} HandleGrows(values: map<string, string>, section: string, name: string, more: seq<string>)
    requires MakeKey(section, name) in values && forall i :: 0 <= i < |more| ==> more[i] != ""
    ensures var key := MakeKey(section, name); var after := HandleFrom(values, MoreCalls(section, name, more));
      && key in after && |after[key]| >= |values[key]| + |more|
    decreases |more|
  {
    if more != [] {
      hide MakeKey;
      var last := |more| - 1;
      HandleGrows(values, section, name, more[..last]);
      var calls := MoreCalls(section, name, more);
      assert calls[..last] == MoreCalls(section, name, more[..last]);
    }
  }

  lemma CutNameHasOtherKey(section: string, name: string)
    requires |name| >= MAX_NAME
    ensures MakeKey(section, Truncated(name, MAX_NAME)) != MakeKey(section, name)
  {
    assert |MakeKey(section, name)| == |section| + 1 + |name|;
  }

  /**
   * A continued value is parsed to what was printed if and only if its name has fewer than 50
   * characters; otherwise the continuation lines go to the key of the shortened name.
   */
  lemma ContinuedUnderOwnKey(st: State, e: Entry)
    requires st.lineno > 0 && Readable(e) && e.more != []
    ensures Lines(st, PrintEntry(e)).values == HandleFrom(st.values, MoreCalls(st.section, e.name, e.Lines()))
       <==> |e.name| < 50
  {
    hide MakeKey, Lines, PrintEntry, HandleFrom;
    EntryRead(st, e);
    SplitCalls(st.values, st.section, e);
    if |e.name| >= MAX_NAME {
      var key, cut := MakeKey(st.section, e.name), Truncated(e.name, MAX_NAME);
      var first := HandleFrom(st.values, [Call(st.section, e.name, e.value)]);
      CutNameHasOtherKey(st.section, e.name);
      OneCall(st.values, Call(st.section, e.name, e.value));
      HandleElsewhere(first, MoreCalls(st.section, cut, e.more), key);
      HandleGrows(first, st.section, e.name, e.more);
    }
  }

  lemma {:induction false} EntriesParsed(st: State, es: seq<Entry>)
    requires st.lineno > 0 && forall i :: 0 <= i < |es| ==> EntryOk(es[i])
    ensures var st' := Lines(st, PrintEntries(es));
      && st'.lineno > 0 && st'.section == st.section && st'.error == st.error
      && st'.values == HandleFrom(st.values, EntriesCalls(st.section, es))
    decreases |es|
  {
    hide Handle, OneLine, PrintEntry;
    if es != [] {
      var last := |es| - 1;
      EntriesParsed(st, es[..last]);
      var mid := Lines(st, PrintEntries(es[..last]));
      LinesJoin(st, PrintEntries(es[..last]), PrintEntry(es[last]));
      EntryParsed(mid, es[last]);
      HandleJoins(st.values, EntriesCalls(st.section, es[..last]),
        MoreCalls(st.section, es[last].name, es[last].Lines()));
    }
  }

  lemma SectionParsed(st: State, s: Section)
    requires SectionOk(s)
    ensures var st' := Lines(st, [HeaderLine(s.name)] + PrintEntries(s.entries));
      && st'.error == st.error
      && st'.values == HandleFrom(st.values, EntriesCalls(s.name, s.entries))
  {
    hide Handle, ClassifyRaw, Lines, PrintEntries, HeaderLine, EntryOk;
    HeaderRead(s.name, st.lineno == 0, st.prevName);
    var mid := OneLine(st, HeaderLine(s.name));
    OneLineList(st, HeaderLine(s.name));
    LinesJoin(st, [HeaderLine(s.name)], PrintEntries(s.entries));
    EntriesParsed(mid, s.entries);
  }

  lemma {:induction false} AllParsed(cfg: seq<Section>)
    requires forall i :: 0 <= i < |cfg| ==> SectionOk(cfg[i])
    ensures Lines(START, PrintAll(cfg)).error == 0
    ensures Lines(START, PrintAll(cfg)).values == HandleFrom(map[], AllCalls(cfg))
    decreases |cfg|
  {
    hide Lines, HandleFrom, SectionOk;
    if cfg == [] {
      NothingParsed();
    } else {
      var last := |cfg| - 1;
      AllParsed(cfg[..last]);
      var s := cfg[last];
      var lines := [HeaderLine(s.name)] + PrintEntries(s.entries);
      LinesJoin(START, PrintAll(cfg[..last]), lines);
      SectionParsed(Lines(START, PrintAll(cfg[..last])), s);
      HandleJoins(map[], AllCalls(cfg[..last]), EntriesCalls(s.name, s.entries));
    }
  }

  lemma NothingParsed()
    ensures Lines(START, []) == START && HandleFrom(map[], []) == map[]
  {
  }

  // ----- the text -----

  /** One line of text as fgets delivers it. */
  predicate IsLine(s: string) {
    && 0 < |s| < 4096 && s[|s| - 1] == '\n'
    && forall i :: 0 <= i < |s| - 1 ==> s[i] != '\n'
  }

  lemma {:induction false} ChunkIsLine(s: string, from: nat, n: nat, room: nat)
    requires from < n <= |s| && n - from <= room && s[n - 1] == '\n'
    requires forall i :: from <= i < n - 1 ==> s[i] != '\n'
    ensures ChunkEnd(s, from, room) == n
    decreases n - from
  {
    if from < n - 1 {
      ChunkIsLine(s, from + 1, n, room - 1);
    }
  }

  lemma ConcatStep(lines: seq<string>, n: nat)
    requires n < |lines|
    ensures Concat(lines[..n + 1]) == Concat(lines[..n]) + lines[n]
  {
    assert lines[..n + 1][..n] == lines[..n];
  }

  lemma {:induction false} ConcatGrows(lines: seq<string>, n: nat)
    requires n <= |lines|
    ensures Concat(lines[..n]) <= Concat(lines)
    decreases |lines| - n
  {
    if n == |lines| {
      assert lines[..n] == lines;
    } else {
      ConcatStep(lines, n);
      ConcatGrows(lines, n + 1);
    }
  }

  /** fgets cuts the text into the lines it was put together from. */
  lemma {:induction false} ChunksAreLines(lines: seq<string>, n: nat)
    requires n <= |lines| && forall i :: 0 <= i < |lines| ==> IsLine(lines[i])
    ensures |Concat(lines[..n])| <= |Concat(lines)|
    ensures Chunks(Concat(lines), |Concat(lines[..n])|) == lines[n..]
    decreases |lines| - n
  {
    hide Concat, Chunks;
    ConcatGrows(lines, n);
    if n == |lines| {
      assert lines[..n] == lines;
      NoChunks(Concat(lines));
    } else {
      ChunksAreLines(lines, n + 1);
      ConcatStep(lines, n);
      ConcatGrows(lines, n + 1);
      OneChunk(Concat(lines), Concat(lines[..n]), lines[n]);
      assert lines[n..] == [lines[n]] + lines[n + 1..];
    }
  }

  lemma NoChunks(s: string)
    ensures Chunks(s, |s|) == []
  {
  }

  lemma OneChunk(s: string, before: string, line: string)
    requires IsLine(line) && before + line <= s
    ensures |before| + |line| <= |s|
    ensures Chunks(s, |before|) == [line] + Chunks(s, |before| + |line|)
  {
    var n := |before| + |line|;
    assert s[..n] == before + line;
    forall i | |before| <= i < n
      ensures s[i] == line[i - |before|]
    {
      assert s[i] == s[..n][i];
    }
    ChunkIsLine(s, |before|, n, INI_MAX_LINE - 1);
    assert s[|before|..n] == line;
  }

  lemma LinesAreLines(cfg: seq<Section>)
    requires forall i :: 0 <= i < |cfg| ==> SectionOk(cfg[i])
    ensures forall i :: 0 <= i < |PrintAll(cfg)| ==> IsLine(PrintAll(cfg)[i])
  {
    if cfg != [] {
      hide IsLine, PrintEntries, EntryOk;
      LinesAreLines(cfg[..|cfg| - 1]);
      var s := cfg[|cfg| - 1];
      HeaderIsLine(s.name);
      EntriesAreLines(s.entries);
    }
  }

  lemma HeaderIsLine(name: string)
    requires |name| < MAX_SECTION && Clean(name)
    ensures IsLine(HeaderLine(name))
  {
  }

  lemma {:induction false} EntriesAreLines(es: seq<Entry>)
    requires forall i :: 0 <= i < |es| ==> EntryOk(es[i])
    ensures forall i :: 0 <= i < |PrintEntries(es)| ==> IsLine(PrintEntries(es)[i])
  {
    if es != [] {
      hide IsLine, MoreLines, MoreOk, NameOk, Clean, Tight, PairLine;
      EntriesAreLines(es[..|es| - 1]);
      var e := es[|es| - 1];
      PairIsLine(e.name, e.value);
      MoreAreLines(e.more);
    }
  }

  lemma PairIsLine(name: string, value: string)
    requires Clean(name) && Clean(value) && |name| + |value| + 2 < INI_MAX_LINE
    ensures IsLine(PairLine(name, value))
  {
  }

  lemma {:induction false} MoreAreLines(values: seq<string>)
    requires forall i :: 0 <= i < |values| ==> MoreOk(values[i])
    ensures forall i :: 0 <= i < |MoreLines(values)| ==> IsLine(MoreLines(values)[i])
  {
    if values != [] {
      MoreAreLines(values[..|values| - 1]);
      MoreIsLine(values[|values| - 1]);
    }
  }

  lemma MoreIsLine(value: string)
    requires MoreOk(value)
    ensures IsLine(MoreLine(value))
  {
  }

  // ----- the round trip -----

  function Print(cfg: seq<Section>): string { Concat(PrintAll(cfg)) }

  /**
   * Parsing a printed configuration succeeds, and for every case-folded key the result holds
   * exactly the lines that the configuration gives it, put together in order.
   */
  lemma PrintThenParse(cfg: seq<Section>, key: string)
    requires forall i :: 0 <= i < |cfg| ==> SectionOk(cfg[i])
    ensures var st := Parse(Print(cfg));
      && st.error == 0
      && (key in st.values <==> Mentions(AllCalls(cfg), key))
      && (key in st.values ==> st.values[key] == Combined(AllCalls(cfg), key))
  {
    hide Concat, Chunks, Lines, PrintAll, SectionOk, HandleAll, HandleFrom, IsLine, Mentions;
    var lines := PrintAll(cfg);
    LinesAreLines(cfg);
    ChunksAreLines(lines, 0);
    NothingWritten(lines);
    assert lines[0..] == lines;
    AllParsed(cfg);
    HandleFromNothing(AllCalls(cfg));
    HandledValues(AllCalls(cfg), key);
  }

  lemma NothingWritten(lines: seq<string>)
    ensures Concat(lines[..0]) == ""
  {
  }

  // ----- one entry per key -----

  /** Entry i of section s is the only one with its case-folded key. */
  predicate Unique(cfg: seq<Section>, s: nat, i: nat)
    requires s < |cfg| && i < |cfg[s].entries|
  {
    forall s', i' :: 0 <= s' < |cfg| && 0 <= i' < |cfg[s'].entries| && (s' != s || i' != i) ==>
      MakeKey(cfg[s'].name, cfg[s'].entries[i'].name) != MakeKey(cfg[s].name, cfg[s].entries[i].name)
  }

  /** Values handed over for other keys make no difference. */
  lemma {:induction false} CombinedJoins(a: seq<Call>, b: seq<Call>, key: string)
    requires !Mentions(b, key)
    ensures Combined(a + b, key) == Combined(a, key)
    decreases |b|
  {
    hide MakeKey, Extend;
    if b == [] {
      assert a + b == a;
    } else {
      var last := |b| - 1;
      assert MakeKey(b[last].section, b[last].name) != key;
      assert forall i :: 0 <= i < last ==> b[..last][i] == b[i];
      assert !Mentions(b[..last], key);
      CombinedJoins(a, b[..last], key);
      assert (a + b)[..|a| + last] == a + b[..last];
    }
  }

  lemma {:induction false} CombinedMore(a: seq<Call>, section: string, name: string, values: seq<string>)
    requires Combined(a, MakeKey(section, name)) == "" && values != [] && values[0] != ""
    ensures Combined(a + MoreCalls(section, name, values), MakeKey(section, name)) == StringUtil.Join(values, '\n')
    decreases |values|
  {
    hide MakeKey;
    var last := |values| - 1;
    var key := MakeKey(section, name);
    var b := MoreCalls(section, name, values);
    assert (a + b)[..|a| + last] == a + MoreCalls(section, name, values[..last]);
    if last == 0 {
      assert a + MoreCalls(section, name, values[..0]) == a;
    } else {
      CombinedMore(a, section, name, values[..last]);
      JoinSnoc(values[..last], values[last]);
      assert values == values[..last] + [values[last]];
      JoinNotEmpty(values[..last]);
    }
  }

  lemma {:induction false} JoinSnoc(a: seq<string>, x: string)
    requires a != []
    ensures StringUtil.Join(a + [x], '\n') == StringUtil.Join(a, '\n') + "\n" + x
  {
    if |a| > 1 {
      assert (a + [x])[1..] == a[1..] + [x];
      JoinSnoc(a[1..], x);
    } else {
      assert (a + [x])[1..] == [x];
    }
  }

  lemma JoinNotEmpty(a: seq<string>)
    requires a != [] && a[0] != ""
    ensures StringUtil.Join(a, '\n') != ""
  {
  }

  /** The value of an entry: its lines joined by line ends; an empty first line leaves no trace. */
  function ValueText(e: Entry): string {
    if e.value == "" && e.more != [] then StringUtil.Join(e.more, '\n') else StringUtil.Join(e.Lines(), '\n')
  }

  lemma EntryCombined(a: seq<Call>, section: string, e: Entry)
    requires EntryOk(e) && Combined(a, MakeKey(section, e.name)) == ""
    ensures Combined(a + MoreCalls(section, e.name, e.Lines()), MakeKey(section, e.name)) == ValueText(e)
  {
    hide MakeKey;
    if e.value != "" {
      CombinedMore(a, section, e.name, e.Lines());
    } else {
      var c := Call(section, e.name, e.value);
      assert (a + [c])[..|a|] == a;
      assert Combined(a + [c], MakeKey(section, e.name)) == "";
      assert MoreCalls(section, e.name, e.Lines()) == [c] + MoreCalls(section, e.name, e.more);
      assert a + ([c] + MoreCalls(section, e.name, e.more)) == (a + [c]) + MoreCalls(section, e.name, e.more);
      if e.more != [] {
        CombinedMore(a + [c], section, e.name, e.more);
      } else {
        assert (a + [c]) + [] == a + [c];
      }
    }
  }

  lemma MentionsJoin(a: seq<Call>, b: seq<Call>, key: string)
    ensures Mentions(a + b, key) <==> Mentions(a, key) || Mentions(b, key)
  {
    hide MakeKey;
    if Mentions(b, key) {
      var i :| 0 <= i < |b| && MakeKey(b[i].section, b[i].name) == key;
      assert (a + b)[|a| + i] == b[i];
    }
    if Mentions(a, key) {
      var i :| 0 <= i < |a| && MakeKey(a[i].section, a[i].name) == key;
      assert (a + b)[i] == a[i];
    }
  }

  lemma {:induction false} EntriesElsewhere(section: string, es: seq<Entry>, key: string)
    requires forall i :: 0 <= i < |es| ==> MakeKey(section, es[i].name) != key
    ensures !Mentions(EntriesCalls(section, es), key)
  {
    if es != [] {
      hide MakeKey;
      var last := |es| - 1;
      EntriesElsewhere(section, es[..last], key);
      MentionsJoin(EntriesCalls(section, es[..last]), MoreCalls(section, es[last].name, es[last].Lines()), key);
    }
  }

  /** The calls of a section around those of entry i. */
  lemma {:induction false} EntriesAround(section: string, es: seq<Entry>, i: nat,
          key: string) returns (a: seq<Call>, b: seq<Call>)
    requires i < |es| && forall j :: 0 <= j < |es| && j != i ==> MakeKey(section, es[j].name) != key
    ensures EntriesCalls(section, es) == a + MoreCalls(section, es[i].name, es[i].Lines()) + b
    ensures !Mentions(a, key) && !Mentions(b, key)
    decreases |es|
  {
    hide MakeKey;
    var last := |es| - 1;
    if i == last {
      EntriesElsewhere(section, es[..last], key);
      a, b := EntriesCalls(section, es[..last]), [];
    } else {
      var b';
      a, b' := EntriesAround(section, es[..last], i, key);
      var tail := MoreCalls(section, es[last].name, es[last].Lines());
      MentionsJoin(b', tail, key);
      b := b' + tail;
      Around(a, MoreCalls(section, es[i].name, es[i].Lines()), b', tail);
    }
  }

  lemma Around(a: seq<Call>, m: seq<Call>, b: seq<Call>, c: seq<Call>)
    ensures ((a + m) + b) + c == (a + m) + (b + c)
  {
  }

  lemma AroundLeft(x: seq<Call>, a: seq<Call>, m: seq<Call>, b: seq<Call>)
    ensures x + ((a + m) + b) == ((x + a) + m) + b
  {
  }

  lemma {:induction false} SectionsElsewhere(cfg: seq<Section>, key: string)
    requires forall s, i :: 0 <= s < |cfg| && 0 <= i < |cfg[s].entries| ==>
      MakeKey(cfg[s].name, cfg[s].entries[i].name) != key
    ensures !Mentions(AllCalls(cfg), key)
  {
    if cfg != [] {
      hide MakeKey;
      var last := |cfg| - 1;
      SectionsElsewhere(cfg[..last], key);
      EntriesElsewhere(cfg[last].name, cfg[last].entries, key);
      MentionsJoin(AllCalls(cfg[..last]), EntriesCalls(cfg[last].name, cfg[last].entries), key);
    }
  }

  lemma {:induction false} AllAround(cfg: seq<Section>, s: nat, i: nat) returns (a: seq<Call>, b: seq<Call>)
    requires s < |cfg| && i < |cfg[s].entries| && Unique(cfg, s, i)
    ensures var e := cfg[s].entries[i]; var key := MakeKey(cfg[s].name, e.name);
      && AllCalls(cfg) == a + MoreCalls(cfg[s].name, e.name, e.Lines()) + b
      && !Mentions(a, key) && !Mentions(b, key)
    decreases |cfg|
  {
    hide MakeKey, EntriesCalls;
    var last := |cfg| - 1;
    var e := cfg[s].entries[i];
    var key := MakeKey(cfg[s].name, e.name);
    if s == last {
      SectionsElsewhere(cfg[..last], key);
      var a';
      a', b := EntriesAround(cfg[last].name, cfg[last].entries, i, key);
      MentionsJoin(AllCalls(cfg[..last]), a', key);
      a := AllCalls(cfg[..last]) + a';
      AroundLeft(AllCalls(cfg[..last]), a', MoreCalls(cfg[s].name, e.name, e.Lines()), b);
    } else {
      var b';
      a, b' := AllAround(cfg[..last], s, i);
      var tail := EntriesCalls(cfg[last].name, cfg[last].entries);
      EntriesElsewhere(cfg[last].name, cfg[last].entries, key);
      MentionsJoin(b', tail, key);
      b := b' + tail;
      Around(a, MoreCalls(cfg[s].name, e.name, e.Lines()), b', tail);
    }
  }

  /** Looking up an entry with a unique key gives back its value, whatever the case of the names. */
  lemma PrintThenGet(cfg: seq<Section>, s: nat, i: nat, section: string, name: string)
    requires forall j :: 0 <= j < |cfg| ==> SectionOk(cfg[j])
    requires s < |cfg| && i < |cfg[s].entries| && Unique(cfg, s, i)
    requires MakeKey(section, name) == MakeKey(cfg[s].name, cfg[s].entries[i].name)
    ensures var st := Parse(Print(cfg));
      && st.error == 0
      && MakeKey(section, name) in st.values
      && st.values[MakeKey(section, name)] == ValueText(cfg[s].entries[i])
  {
    hide MakeKey, Parse, Print, EntryOk, AllCalls, Unique, ValueText, Mentions, Combined;
    var e := cfg[s].entries[i];
    var key := MakeKey(section, name);
    PrintThenParse(cfg, key);
    var a, b := AllAround(cfg, s, i);
    var mine := MoreCalls(cfg[s].name, e.name, e.Lines());
    Nothing(key);
    CombinedJoins([], a, key);
    assert [] + a == a;
    EntryCombined(a, cfg[s].name, e);
    CombinedJoins(a + mine, b, key);
    MentionsFirst(mine, key);
    MentionsJoin(a, mine, key);
    MentionsJoin(a + mine, b, key);
  }

  lemma Nothing(key: string)
    ensures Combined([], key) == ""
  {
  }

  lemma MentionsFirst(calls: seq<Call>, key: string)
    requires calls != [] && MakeKey(calls[0].section, calls[0].name) == key
    ensures Mentions(calls, key)
  {
  }
}
