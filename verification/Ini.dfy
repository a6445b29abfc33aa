// The INI parser (src/utils/ini.cc) with INIReader's handler (src/utils/INIReader.cpp), line by
// line on strings. Bytes are chars; a file holds no NUL.
module Ini {

  const MAX_SECTION := 50
  const MAX_NAME := 50
  const INI_MAX_LINE := 4096

  predicate IsSpace(c: char) {
    c == ' ' || c == '\t' || c == '\n' || c == '\r' || c == '\U{00000b}' || c == '\U{00000c}'
  }

  /** rstrip */
  function Rstrip(s: string): (r: string)
    ensures r <= s && (r != "" ==> !IsSpace(r[|r| - 1]))
    ensures forall j :: |r| <= j < |s| ==> IsSpace(s[j])
  {
    if s != "" && IsSpace(s[|s| - 1]) then Rstrip(s[..|s| - 1]) else s
  }

  /** How many characters lskip skips. */
  function Spaces(s: string): (n: nat)
    ensures n <= |s| && (n < |s| ==> !IsSpace(s[n])) && forall j :: 0 <= j < n ==> IsSpace(s[j])
  {
    if s != "" && IsSpace(s[0]) then 1 + Spaces(s[1..]) else 0
  }

  function Lskip(s: string): string { s[Spaces(s)..] }

  /**
   * find_char_or_comment: where c or a comment begins, |s| if nowhere. was says whether the
   * character before s was white space. An absent c stands for the search for NUL.
   */
  function Find(s: string, c: char, was: bool): (i: nat)
    ensures i <= |s|
  {
    if s == "" || s[0] == c || (was && s[0] == ';') then 0 else 1 + Find(s[1..], c, IsSpace(s[0]))
  }

  const NUL: char := '\0'

  /** strncpy0 into a buffer of the given size. */
  function Truncated(s: string, size: nat): string
    requires size > 0
  {
    if |s| < size then s else s[..size - 1]
  }

  function Lower(c: char): char {
    if 'A' <= c <= 'Z' then (c as int + 32) as char else c
  }

  function LowerAll(s: string): (r: string)
    ensures |r| == |s| && forall i :: 0 <= i < |r| ==> r[i] == Lower(s[i])
  {
    seq(|s|, i requires 0 <= i < |s| => Lower(s[i]))
  }

  /** INIReader::MakeKey */
  function MakeKey(section: string, name: string): string {
    LowerAll(section + "." + name)
  }

  /** What ValueHandler makes of an earlier value. */
  function Extend(before: string, value: string): string {
    (if before != "" then before + "\n" else "") + value
  }

  // ----- one line -----

  datatype Line =
    | Blank                                  // empty, or a comment
    | More(value: string)                    // continues the previous name
    | Header(section: string)
    | Pair(name: string, value: string)
    | Malformed

  predicate HasBom(s: string) {
    |s| >= 3 && s[0] == '\U{0000ef}' && s[1] == '\U{0000bb}' && s[2] == '\U{0000bf}'
  }

  /** The value part: cut at a comment, stripped. */
  function ValueOf(rest: string): string {
    var value := Lskip(rest);
    Rstrip(value[..Find(value, NUL, false)])
  }

  /** Where the name ends: at '=', otherwise at ':'; |t| if there is neither. */
  function Separator(t: string): (i: nat)
    ensures i <= |t| && (i < |t| ==> t[i] == '=' || t[i] == ':')
  {
    var e := Find(t, '=', false);
    if e < |t| && t[e] == '=' then e
    else
      var e' := Find(t, ':', false);
      if e' < |t| && (t[e'] == '=' || t[e'] == ':') then e' else |t|
  }

  /** A line that begins with a bracket. */
  function HeaderOf(t: string): Line
    requires t != ""
  {
    var end := Find(t[1..], ']', false);
    if end < |t| - 1 && t[1 + end] == ']' then Header(t[1..1 + end]) else Malformed
  }

  /** A line that should have a name and a value. */
  function PairOf(t: string): Line {
    var end := Separator(t);
    if end < |t| then Pair(Rstrip(t[..end]), ValueOf(t[end + 1..])) else Malformed
  }

  /** What a stripped line is; indented: something was skipped in front of it. */
  function Classify(t: string, indented: bool, prevName: string): Line {
    if t != "" && (t[0] == ';' || t[0] == '#') then Blank
    else if prevName != "" && t != "" && indented then More(t)
    else if t != "" && t[0] == '[' then HeaderOf(t)
    else if t != "" then PairOf(t)
    else Blank
  }

  function ClassifyRaw(raw: string, first: bool, prevName: string): Line {
    var s := if first && HasBom(raw) then raw[3..] else raw;
    var r := Rstrip(s);
    Classify(Lskip(r), (first && HasBom(raw)) || Spaces(r) > 0, prevName)
  }

  // ----- the loop -----

  /** A call of the handler. */
  datatype Call = Call(section: string, name: string, value: string)

  datatype State = State(section: string, prevName: string, lineno: nat, error: nat, values: map<string, string>)

  const START := State("", "", 0, 0, map[])

  function Handle(values: map<string, string>, c: Call): map<string, string> {
    var key := MakeKey(c.section, c.name);
    values[key := Extend(if key in values then values[key] else "", c.value)]
  }

  /** What is done with a line once it is counted. */
  function Take(st: State, l: Line): State {
    match l
    case Blank => st
    case More(value) => st.(values := Handle(st.values, Call(st.section, st.prevName, value)))
    case Header(section) => st.(section := Truncated(section, MAX_SECTION), prevName := "")
    case Pair(name, value) =>
      st.(prevName := Truncated(name, MAX_NAME), values := Handle(st.values, Call(st.section, name, value)))
    case Malformed => st.(error := if st.error == 0 then st.lineno else st.error)
  }

  function OneLine(st: State, raw: string): State {
    var counted := st.(lineno := st.lineno + 1);
    Take(counted, ClassifyRaw(raw, counted.lineno == 1, st.prevName))
  }

  function Lines(st: State, raws: seq<string>): State {
    if raws == [] then st else OneLine(Lines(st, raws[..|raws| - 1]), raws[|raws| - 1])
  }

  /** fgets: up to 4095 characters, ending with the first line end. */
  function ChunkEnd(s: string, from: nat, room: nat): (i: nat)
    requires from <= |s|
    ensures from <= i <= |s| && i - from <= room && (room > 0 && from < |s| ==> i > from)
    decreases room
  {
    if room == 0 || from == |s| then from
    else if s[from] == '\n' then from + 1
    else ChunkEnd(s, from + 1, room - 1)
  }

  function Chunks(s: string, from: nat): seq<string>
    requires from <= |s|
    decreases |s| - from
  {
    if from == |s| then []
    else
      var i := ChunkEnd(s, from, INI_MAX_LINE - 1);
      [s[from..i]] + Chunks(s, i)
  }

  /** ini_parse_file with ValueHandler. */
  function Parse(text: string): State {
    Lines(START, Chunks(text, 0))
  }

  // ----- values -----

  /** The handler called on a list of calls. */
  function HandleAll(calls: seq<Call>): map<string, string> {
    if calls == [] then map[] else Handle(HandleAll(calls[..|calls| - 1]), calls[|calls| - 1])
  }

  predicate Mentions(calls: seq<Call>, key: string) {
    exists i :: 0 <= i < |calls| && MakeKey(calls[i].section, calls[i].name) == key
  }

  /** All values handed over for a key, put together. */
  function Combined(calls: seq<Call>, key: string): string {
    if calls == [] then ""
    else
      var c := calls[|calls| - 1];
      var before := Combined(calls[..|calls| - 1], key);
      if MakeKey(c.section, c.name) == key then Extend(before, c.value) else before
  }

  /** The map holds, for each case-folded key, what was handed over for it in order. */
  lemma {:induction false} HandledValues(calls: seq<Call>, key: string)
    ensures key in HandleAll(calls) <==> Mentions(calls, key)
    ensures key in HandleAll(calls) ==> HandleAll(calls)[key] == Combined(calls, key)
    ensures key !in HandleAll(calls) ==> Combined(calls, key) == ""
  {
    hide MakeKey, Extend;
    if calls != [] {
      var last := |calls| - 1;
      HandledValues(calls[..last], key);
      assert forall i :: 0 <= i < last ==> calls[..last][i] == calls[i];
      assert Mentions(calls, key) <==>
        Mentions(calls[..last], key) || MakeKey(calls[last].section, calls[last].name) == key;
    }
  }
}
