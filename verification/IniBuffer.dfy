// ini_parse_file as it runs (src/utils/ini.cc): one line buffer, edited in place by writing
// NULs into it, with INIReader's handler (src/utils/INIReader.cpp).
module IniBuffer {
  import opened Ini

  /** The C string that starts at p. */
  function CStr(mem: seq<char>, p: nat): (s: string)
    requires p <= |mem|
    ensures p + |s| <= |mem| && (p + |s| < |mem| ==> mem[p + |s|] == NUL)
    ensures forall i :: 0 <= i < |s| ==> s[i] == mem[p + i] && s[i] != NUL
    decreases |mem| - p
  {
    if p == |mem| || mem[p] == NUL then "" else [mem[p]] + CStr(mem, p + 1)
  }

  /** There is a NUL at or behind p. */
  predicate Terminated(mem: seq<char>, p: nat) {
    p <= |mem| && p + |CStr(mem, p)| < |mem|
  }

  /** Characters up to a NUL are the string. */
  lemma {:induction false} CStrIs(mem: seq<char>, p: nat, s: string)
    requires p + |s| < |mem| && mem[p + |s|] == NUL
    requires forall i :: 0 <= i < |s| ==> s[i] == mem[p + i] && s[i] != NUL
    ensures CStr(mem, p) == s
    decreases |s|
  {
    if s != "" {
      assert s[0] == mem[p];
      forall i | 0 <= i < |s| - 1
        ensures s[1..][i] == mem[p + 1 + i] && s[1..][i] != NUL
      {
        assert s[i + 1] == mem[p + (i + 1)];
      }
      CStrIs(mem, p + 1, s[1..]);
    }
  }

  /** A suffix of the string starts further on. */
  lemma CStrSuffix(mem: seq<char>, p: nat, k: nat)
    requires Terminated(mem, p) && k <= |CStr(mem, p)|
    ensures Terminated(mem, p + k) && CStr(mem, p + k) == CStr(mem, p)[k..]
  {
    var s := CStr(mem, p);
    forall i | 0 <= i < |s| - k
      ensures s[k..][i] == mem[p + k + i] && s[k..][i] != NUL
    {
      assert s[k..][i] == s[k + i];
      assert s[k + i] == mem[p + (k + i)];
    }
    CStrIs(mem, p + k, s[k..]);
  }

  /** Writing a NUL cuts the string. */
  lemma CStrCut(mem: seq<char>, mem': seq<char>, p: nat, k: nat)
    requires Terminated(mem, p) && k <= |CStr(mem, p)| && |mem'| == |mem| && mem'[p + k] == NUL
    requires forall i :: p <= i < p + k ==> mem'[i] == mem[i]
    ensures Terminated(mem', p) && CStr(mem', p) == CStr(mem, p)[..k]
  {
    var s := CStr(mem, p);
    forall i | 0 <= i < k
      ensures s[..k][i] == mem'[p + i] && s[..k][i] != NUL
    {
      assert s[i] == mem[p + i];
    }
    CStrIs(mem', p, s[..k]);
  }

  /** Changes elsewhere do not change it. */
  lemma CStrKept(mem: seq<char>, mem': seq<char>, p: nat)
    requires Terminated(mem, p) && |mem'| == |mem|
    requires forall i :: p <= i <= p + |CStr(mem, p)| ==> mem'[i] == mem[i]
    ensures Terminated(mem', p) && CStr(mem', p) == CStr(mem, p)
  {
    var k := |CStr(mem, p)|;
    CStrCut(mem, mem', p, k);
  }

  // ----- the helpers -----

  /** The buffer holds the string's characters and then a NUL. */
  lemma InBuffer(line: array<char>, s: nat)
    requires Terminated(line[..], s)
    ensures var str := CStr(line[..], s);
      && s + |str| < line.Length && line[s + |str|] == NUL
      && forall i :: s <= i < s + |str| ==> line[i] == str[i - s] && line[i] != NUL
  {
    var mem, str := line[..], CStr(line[..], s);
    assert mem[s + |str|] == NUL;
    forall i | s <= i < s + |str|
      ensures line[i] == str[i - s] && line[i] != NUL
    {
      assert str[i - s] == mem[s + (i - s)];
    }
  }

  method Strlen(line: array<char>, s: nat) returns (n: nat)
    requires Terminated(line[..], s)
    ensures n == |CStr(line[..], s)|
  {
    hide CStr;
    InBuffer(line, s);
    n := 0;
    while line[s + n] != NUL
      invariant n <= |CStr(line[..], s)|
      decreases |CStr(line[..], s)| - n
    {
      n := n + 1;
    }
  }

  method RstripAt(line: array<char>, s: nat)
    requires Terminated(line[..], s)
    modifies line
    ensures Terminated(line[..], s) && CStr(line[..], s) == Rstrip(old(CStr(line[..], s)))
    ensures forall i :: 0 <= i < line.Length && (i < s || i >= s + |old(CStr(line[..], s))|) ==> line[i] == old(line[i])
  {
    hide CStr, Rstrip;
    ghost var mem, str := line[..], CStr(line[..], s);
    InBuffer(line, s);
    var n := Strlen(line, s);
    var p := s + n;
    assert str[..n] == str;
    while p > s && IsSpace(line[p - 1])
      invariant s <= p <= s + n
      invariant forall i :: 0 <= i < p || s + n <= i < line.Length ==> line[i] == mem[i]
      invariant line[p] == NUL
      invariant Rstrip(str[..p - s]) == Rstrip(str)
    {
      assert line[p - 1] == str[p - 1 - s];
      RstripStep(str, p - s);
      p := p - 1;
      line[p] := NUL;
    }
    RstripStep(str, p - s);
    CStrCut(mem, line[..], s, p - s);
  }

  lemma RstripStep(str: string, k: nat)
    requires k <= |str|
    ensures k > 0 && IsSpace(str[k - 1]) ==> Rstrip(str[..k]) == Rstrip(str[..k - 1])
    ensures !(k > 0 && IsSpace(str[k - 1])) ==> Rstrip(str[..k]) == str[..k]
  {
    if k > 0 {
      assert str[..k][..k - 1] == str[..k - 1];
    }
  }

  method LskipAt(line: array<char>, s: nat) returns (p: nat)
    requires Terminated(line[..], s)
    ensures p == s + Spaces(CStr(line[..], s))
    ensures Terminated(line[..], p) && CStr(line[..], p) == Lskip(CStr(line[..], s))
  {
    hide CStr, Spaces;
    InBuffer(line, s);
    p := s;
    while line[p] != NUL && IsSpace(line[p])
      invariant s <= p <= s + Spaces(CStr(line[..], s))
      decreases s + |CStr(line[..], s)| - p
    {
      p := p + 1;
    }
    CStrSuffix(line[..], s, p - s);
  }

  method FindAt(line: array<char>, s: nat, c: char) returns (e: nat)
    requires Terminated(line[..], s)
    ensures e == s + Find(CStr(line[..], s), c, false)
  {
    hide CStr, Find;
    ghost var str := CStr(line[..], s);
    InBuffer(line, s);
    var was := false;
    e := s;
    assert str[0..] == str;
    while line[e] != NUL && line[e] != c && !(was && line[e] == ';')
      invariant s <= e <= s + |str|
      invariant Find(str, c, false) == (e - s) + Find(str[e - s..], c, was)
      decreases s + |str| - e
    {
      FindStep(str, e - s, c, was);
      was := IsSpace(line[e]);
      e := e + 1;
    }
    FindStep(str, e - s, c, was);
  }

  lemma FindStep(str: string, k: nat, c: char, was: bool)
    requires k <= |str|
    ensures k < |str| && str[k] != c && !(was && str[k] == ';') ==>
      Find(str[k..], c, was) == 1 + Find(str[k + 1..], c, IsSpace(str[k]))
    ensures k == |str| || str[k] == c || (was && str[k] == ';') ==> Find(str[k..], c, was) == 0
  {
    if k < |str| {
      assert str[k..][1..] == str[k + 1..];
    }
  }

  /** Read a C string out of the buffer. */
  method Text(line: array<char>, s: nat) returns (r: string)
    requires Terminated(line[..], s)
    ensures r == CStr(line[..], s)
  {
    hide CStr;
    InBuffer(line, s);
    var n := Strlen(line, s);
    r := line[s..s + n];
  }

  predicate NulFree(s: string) {
    forall i :: 0 <= i < |s| ==> s[i] != NUL
  }

  // ----- the parser -----

  class IniFile {
    const line: array<char>
    var section: string
    var prevName: string
    var lineno: nat
    var error: nat
    var values: map<string, string>

    ghost predicate Valid()
      reads this
    {
      line.Length == INI_MAX_LINE
    }

    ghost function View(): State
      reads this
    {
      State(section, prevName, lineno, error, values)
    }

    constructor ()
      ensures Valid() && View() == START && fresh(line)
    {
      line := new char[INI_MAX_LINE];
      section, prevName, lineno, error, values := "", "", 0, 0, map[];
    }

    /** INIReader::ValueHandler */
    method ValueHandler(section: string, name: string, value: string)
      modifies this`values
      ensures values == Handle(old(values), Call(section, name, value))
    {
      var key := MakeKey(section, name);
      var v := if key in values then values[key] else "";
      if |v| > 0 {
        v := v + "\n";
      }
      values := values[key := v + value];
    }

    /** What fgets leaves in the buffer. */
    method Put(raw: string)
      requires Valid() && |raw| < INI_MAX_LINE && NulFree(raw)
      modifies line
      ensures Terminated(line[..], 0) && CStr(line[..], 0) == raw
    {
      forall i | 0 <= i < |raw| {
        line[i] := raw[i];
      }
      line[|raw|] := NUL;
      CStrIs(line[..], 0, raw);
    }

    /** Behind the byte order mark of the first line, if it has one. */
    method SkipBom(raw: string) returns (start: nat)
      requires Valid() && Terminated(line[..], 0) && CStr(line[..], 0) == raw
      ensures start == if lineno == 1 && HasBom(raw) then 3 else 0
      ensures Terminated(line[..], start)
      ensures CStr(line[..], start) == if lineno == 1 && HasBom(raw) then raw[3..] else raw
    {
      hide CStr;
      InBuffer(line, 0);
      start := 0;
      if lineno == 1 && line[0] == '\U{0000ef}' && line[1] == '\U{0000bb}' && line[2] == '\U{0000bf}' {
        NotNul(raw, 0);
        NotNul(raw, 1);
        NotNul(raw, 2);
        CStrSuffix(line[..], 0, 3);
        start := 3;
      }
    }

    /** A buffer character that is not NUL, behind characters of the string, belongs to it. */
    lemma NotNul(raw: string, k: nat)
      requires Valid() && Terminated(line[..], 0) && CStr(line[..], 0) == raw
      requires k <= |raw| && k < line.Length && line[k] != NUL
      ensures k < |raw|
    {
      hide CStr;
      InBuffer(line, 0);
    }

    /** The "[section]" branch. */
    method TakeHeader(start: nat)
      requires Valid() && Terminated(line[..], start) && CStr(line[..], start) != ""
      modifies this`section, this`prevName, this`error, line
      ensures View() == Take(old(View()), HeaderOf(old(CStr(line[..], start))))
    {
      hide CStr, Find;
      ghost var mem, t := line[..], CStr(line[..], start);
      CStrSuffix(mem, start, 1);
      InBuffer(line, start);
      var end := FindAt(line, start + 1, ']');
      if line[end] == ']' {
        line[end] := NUL;
        CStrCut(mem, line[..], start + 1, end - start - 1);
        var name := Text(line, start + 1);
        section := Truncated(name, MAX_SECTION);
        prevName := "";
        assert t[1..][..end - start - 1] == t[1..end - start];
      } else if error == 0 {
        error := lineno;
      }
    }

    /** Where the name ends, or the end of the string. */
    method FindSeparator(start: nat) returns (end: nat)
      requires Valid() && Terminated(line[..], start)
      ensures var t := CStr(line[..], start);
        start <= end <= start + |t| && ((line[end] == '=' || line[end] == ':') <==> Separator(t) < |t|)
        && (Separator(t) < |t| ==> end == start + Separator(t))
    {
      hide CStr, Find;
      InBuffer(line, start);
      end := FindAt(line, start, '=');
      if line[end] != '=' {
        end := FindAt(line, start, ':');
      }
    }

    /** The name=value branch. */
    method TakePair(start: nat)
      requires Valid() && Terminated(line[..], start)
      modifies this`prevName, this`values, this`error, line
      ensures View() == Take(old(View()), PairOf(old(CStr(line[..], start))))
    {
      hide CStr, Find, Separator, Handle, Rstrip, Ini.ValueOf;
      ghost var mem, t := line[..], CStr(line[..], start);
      var end := FindSeparator(start);
      if line[end] == '=' || line[end] == ':' {
        CStrSuffix(mem, start, end - start + 1);
        var name := TakeName(start, end);
        var value := TakeValue(end + 1);
        prevName := Truncated(name, MAX_NAME);
        ValueHandler(section, name, value);
      } else if error == 0 {
        error := lineno;
      }
    }

    /** Cut at the separator and strip the name; what follows stays. */
    method TakeName(start: nat, end: nat) returns (name: string)
      requires Valid() && Terminated(line[..], start) && start <= end < start + |CStr(line[..], start)|
      modifies line
      ensures name == Rstrip(old(CStr(line[..], start))[..end - start])
      ensures Terminated(line[..], end + 1)
      ensures CStr(line[..], end + 1) == old(CStr(line[..], start))[end - start + 1..]
    {
      hide CStr, Rstrip;
      ghost var mem := line[..];
      CStrSuffix(mem, start, end - start + 1);
      line[end] := NUL;
      ghost var cut := line[..];
      CStrCut(mem, cut, start, end - start);
      CStrKept(mem, cut, end + 1);
      RstripAt(line, start);
      name := Text(line, start);
      CStrKept(cut, line[..], end + 1);
    }

    /** Skip, cut at a comment, strip. */
    method TakeValue(at: nat) returns (value: string)
      requires Valid() && Terminated(line[..], at)
      modifies line
      ensures value == Ini.ValueOf(old(CStr(line[..], at)))
    {
      hide CStr, Rstrip, Find, Lskip;
      var start := LskipAt(line, at);
      ghost var mem, s := line[..], CStr(line[..], start);
      InBuffer(line, start);
      var end := FindAt(line, start, NUL);
      if line[end] == ';' {
        line[end] := NUL;
      }
      StopsAtComment(s);
      CStrCut(mem, line[..], start, end - start);
      RstripAt(line, start);
      value := Text(line, start);
    }

    /** lskip(rstrip(start)) on a fresh line; the result is 0 if nothing was in front. */
    method Strip(raw: string) returns (start: nat)
      requires Valid() && |raw| < INI_MAX_LINE && NulFree(raw)
      modifies line
      ensures Terminated(line[..], start)
      ensures var bom := lineno == 1 && HasBom(raw); var r := Rstrip(if bom then raw[3..] else raw);
        CStr(line[..], start) == Lskip(r) && (start > 0 <==> bom || Spaces(r) > 0)
    {
      hide CStr, Rstrip, Spaces, Lskip;
      Put(raw);
      start := SkipBom(raw);
      RstripAt(line, start);
      start := LskipAt(line, start);
    }

    /** The chain of branches. */
    method Dispatch(start: nat)
      requires Valid() && Terminated(line[..], start)
      modifies this`section, this`prevName, this`error, this`values, line
      ensures View() == Take(old(View()), Classify(old(CStr(line[..], start)), start > 0, old(prevName)))
    {
      hide CStr, HeaderOf, PairOf, Handle;
      InBuffer(line, start);
      if line[start] == ';' || line[start] == '#' {
      } else if prevName != "" && line[start] != NUL && start > 0 {
        var value := Text(line, start);
        ValueHandler(section, prevName, value);
      } else if line[start] == '[' {
        TakeHeader(start);
      } else if line[start] != NUL && line[start] != ';' {
        TakePair(start);
      }
    }

    /** The body of the loop for one line. */
    method TakeLine(raw: string)
      requires Valid() && |raw| < INI_MAX_LINE && NulFree(raw)
      modifies this, line
      ensures View() == OneLine(old(View()), raw)
    {
      hide CStr, Rstrip, Spaces, Classify, Lskip, Take;
      lineno := lineno + 1;
      var start := Strip(raw);
      Dispatch(start);
    }

    /** ini_parse_file: fgets line by line. */
    method ParseFile(text: string)
      requires Valid() && View() == START && NulFree(text)
      modifies this, line
      ensures View() == Parse(text)
    {
      hide OneLine, Lines, Chunks;
      var at := 0;
      ghost var read: seq<string> := [];
      NothingRead();
      while at < |text|
        invariant at <= |text| && Chunks(text, 0) == read + Chunks(text, at)
        invariant View() == Lines(START, read)
        decreases |text| - at
      {
        var i := ChunkEnd(text, at, INI_MAX_LINE - 1);
        ChunkStep(text, at);
        LinesSnoc(read, text[at..i]);
        TakeLine(text[at..i]);
        assert (read + [text[at..i]]) + Chunks(text, i) == read + ([text[at..i]] + Chunks(text, i));
        read := read + [text[at..i]];
        at := i;
      }
      NoChunksLeft(text);
      assert read + [] == read;
    }
  }

  /** Looking for NUL stops only at a comment or at the end. */
  lemma StopsAtComment(s: string)
    requires NulFree(s)
    ensures Find(s, NUL, false) < |s| ==> s[Find(s, NUL, false)] == ';'
  {
    StopsAtCommentFrom(s, false);
  }

  lemma {:induction false} StopsAtCommentFrom(s: string, was: bool)
    requires NulFree(s)
    ensures Find(s, NUL, was) < |s| ==> s[Find(s, NUL, was)] == ';'
  {
    if s != "" {
      assert s[0] != NUL;
      StopsAtCommentFrom(s[1..], IsSpace(s[0]));
    }
  }

  lemma NothingRead()
    ensures Lines(START, []) == START
  {
  }

  lemma ChunkStep(text: string, at: nat)
    requires at < |text|
    ensures var i := ChunkEnd(text, at, INI_MAX_LINE - 1);
      at < i <= |text| && i - at < INI_MAX_LINE && Chunks(text, at) == [text[at..i]] + Chunks(text, i)
  {
  }

  lemma NoChunksLeft(text: string)
    ensures Chunks(text, |text|) == []
  {
  }

  lemma LinesSnoc(read: seq<string>, raw: string)
    ensures Lines(START, read + [raw]) == OneLine(Lines(START, read), raw)
  {
    hide OneLine;
    assert (read + [raw])[..|read|] == read;
  }
}
