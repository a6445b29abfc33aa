// What single lines of an INI file mean (src/utils/ini.cc), with everything around them that the
// parser skips: indentation, blanks at separators, either separator, comments, a byte order mark.
module IniLines {
  import opened Ini
  import opened IniRoundTrip

  /** isspace in the C locale: blank, tab, line feed, vertical tab, form feed, carriage return. */
  predicate White(s: string) {
    forall i :: 0 <= i < |s| ==> s[i] as int == 32 || 9 <= s[i] as int <= 13
  }

  lemma WhiteIsSpace(s: string)
    ensures White(s) <==> forall i :: 0 <= i < |s| ==> IsSpace(s[i])
  {
  }

  // ----- stripping -----

  lemma {:induction false} RstripWhite(s: string, b: string)
    requires White(b) && (s != "" ==> !IsSpace(s[|s| - 1]))
    ensures Rstrip(s + b) == s
    decreases |b|
  {
    if b == "" {
      assert s + b == s;
    } else {
      var front := b[..|b| - 1];
      RstripWhite(s, front);
      assert (s + b)[..|s + b| - 1] == s + front;
      assert IsSpace((s + b)[|s + b| - 1]);
    }
  }

  lemma {:induction false} LskipWhite(a: string, s: string)
    requires White(a) && (s != "" ==> !IsSpace(s[0]))
    ensures Spaces(a + s) == |a| && Lskip(a + s) == s
    decreases |a|
  {
    if a == "" {
      assert a + s == s;
    } else {
      LskipWhite(a[1..], s);
      assert (a + s)[1..] == a[1..] + s;
    }
  }

  /** A line is classified by what is left of it, and by whether something stood in front. */
  lemma LineIs(a: string, t: string, b: string, prevName: string)
    requires White(a) && White(b) && Tight(t)
    ensures ClassifyRaw(a + t + b, false, prevName) == Classify(t, t != "" && a != "", prevName)
  {
    hide Classify, Rstrip, Spaces, Lskip;
    var raw := a + t + b;
    if t == "" {
      assert raw == "" + (a + b) && White(a + b);
      RstripWhite("", a + b);
      LskipWhite("", "");
      assert "" + "" == "";
    } else {
      RstripWhite(a + t, b);
      LskipWhite(a, t);
    }
  }

  /**
   * Empty lines and lines that begin with a semicolon or a number sign are skipped; an indented
   * line behind a name continues its value as a whole; the others are sections or pairs.
   */
  lemma LineKinds(a: string, t: string, b: string, prevName: string)
    requires White(a) && White(b) && Tight(t)
    ensures t == "" || t[0] == ';' || t[0] == '#' ==> ClassifyRaw(a + t + b, false, prevName) == Blank
    ensures t != "" && t[0] != ';' && t[0] != '#' && a != "" && prevName != "" ==>
      ClassifyRaw(a + t + b, false, prevName) == More(t)
    ensures t != "" && t[0] != ';' && t[0] != '#' && (a == "" || prevName == "") ==>
      ClassifyRaw(a + t + b, false, prevName) == if t[0] == '[' then HeaderOf(t) else PairOf(t)
  {
    hide ClassifyRaw;
    LineIs(a, t, b, prevName);
  }

  /** A byte order mark in front of the first line makes no difference. */
  lemma MarkSkipped(raw: string)
    ensures ClassifyRaw(['\U{0000ef}', '\U{0000bb}', '\U{0000bf}'] + raw, true, "") == ClassifyRaw(raw, false, "")
  {
    hide Rstrip, Spaces, Lskip, HeaderOf, PairOf;
    var mark := ['\U{0000ef}', '\U{0000bb}', '\U{0000bf}'];
    assert (mark + raw)[3..] == raw;
  }

  // ----- where a search ends -----

  /** A comment begins at i: a semicolon behind white space. */
  predicate CommentAt(s: string, i: nat)
    requires i < |s|
  {
    i > 0 && s[i] == ';' && IsSpace(s[i - 1])
  }

  /** find_char_or_comment ends at the first place that is the character or begins a comment. */
  lemma {:induction false} FindFirst(s: string, c: char, was: bool)
    ensures var i := Find(s, c, was);
      && (i < |s| ==> s[i] == c || CommentAt(s, i) || (i == 0 && was && s[0] == ';'))
      && (forall j :: 0 <= j < i ==> s[j] != c && !CommentAt(s, j))
      && (i > 0 && was ==> s[0] != ';')
  {
    var i := Find(s, c, was);
    if i > 0 {
      FindFirst(s[1..], c, IsSpace(s[0]));
      assert forall j :: 0 < j < i ==> s[j] == s[1..][j - 1];
      forall j | 1 < j < |s|
        ensures CommentAt(s, j) <==> CommentAt(s[1..], j - 1)
      {
      }
    }
  }

  /** Place i counts: no comment begins before it. */
  predicate Counts(s: string, i: nat)
    requires i < |s|
  {
    forall j :: 0 < j < i ==> !CommentAt(s, j)
  }

  /** A section line is malformed exactly if it has no closing bracket outside a comment. */
  lemma HeaderMeans(t: string)
    requires t != "" && t[0] == '['
    ensures HeaderOf(t) == Malformed <==> forall i :: 0 < i < |t| && t[i] == ']' ==> !Counts(t[1..], i - 1)
    ensures forall i :: 0 < i < |t| && t[i] == ']' && Counts(t[1..], i - 1) && ']' !in t[1..i] ==>
      HeaderOf(t) == Header(t[1..i])
  {
    hide Find;
    var s := t[1..];
    var e := Find(s, ']', false);
    FindFirst(s, ']', false);
    assert forall i :: 0 < i < |t| ==> t[i] == s[i - 1];
    if e < |s| && s[e] == ']' {
      assert t[e + 1] == ']' && Counts(s, e);
      forall i | 0 < i < |t| && t[i] == ']' && Counts(s, i - 1) && ']' !in t[1..i]
        ensures i == e + 1
      {
        if e + 1 < i {
          NotBefore(t[1..i], ']', e);
        }
      }
    }
  }

  /**
   * Any other line is malformed exactly if it has no separator outside a comment; the first equals
   * sign outside a comment separates, or if there is none the first colon.
   */
  lemma PairMeans(t: string)
    ensures PairOf(t) == Malformed <==>
      forall i :: 0 <= i < |t| && (t[i] == '=' || t[i] == ':') ==> !Counts(t, i)
    ensures forall i :: 0 <= i < |t| && t[i] == '=' && Counts(t, i) && '=' !in t[..i] ==> Separator(t) == i
    ensures (forall j :: 0 <= j < |t| && t[j] == '=' ==> !Counts(t, j)) ==>
      forall i :: 0 <= i < |t| && t[i] == ':' && Counts(t, i) && ':' !in t[..i] ==> Separator(t) == i
  {
    hide Find, Ini.ValueOf, Rstrip;
    FirstOutside(t, '=');
    FirstOutside(t, ':');
  }

  lemma NotBefore(s: string, c: char, i: nat)
    requires c !in s && i < |s|
    ensures s[i] != c
  {
  }

  /** The search for c, seen from outside. */
  lemma FirstOutside(t: string, c: char)
    requires c != ';'
    ensures var e := Find(t, c, false);
      && (e < |t| && t[e] == c ==> Counts(t, e) && c !in t[..e])
      && (e < |t| && t[e] != c ==> t[e] == ';')
      && (e == |t| || t[e] != c ==> forall i :: 0 <= i < |t| && t[i] == c ==> !Counts(t, i))
      && forall i :: 0 <= i < |t| && t[i] == c && Counts(t, i) && c !in t[..i] ==> e == i
  {
    hide Find;
    FindFirst(t, c, false);
    var e := Find(t, c, false);
    assert forall i :: e < i <= |t| ==> t[..i][e] == t[e];
  }

  // ----- a pair with everything around it -----

  /** Nothing, or white space, a semicolon and any text. */
  datatype Comment = Nothing | Comment(gap: string, text: string) {
    predicate Ok() { this != Nothing ==> gap != "" && White(gap) }
    function Text(): string { if this == Nothing then "" else gap + ";" + text }
  }

  /** A name, white space, a separator, white space, a value, and perhaps a comment. */
  function PairText(name: string, gap: string, sep: char, gap': string, value: string, c: Comment): string {
    name + gap + [sep] + gap' + value + c.Text()
  }

  /** The separator is an equals sign, or a colon that no equals sign outside comments competes with. */
  predicate Separates(sep: char, name: string, value: string) {
    sep == '=' || (sep == ':' && ':' !in name && '=' !in value)
  }

  lemma NameEnds(name: string, gap: string, sep: char, gap': string, value: string, c: Comment)
    requires NameOk(name) && White(gap) && White(gap') && Clean(value) && Tight(value) && c.Ok()
    requires Separates(sep, name, value)
    ensures Separator(PairText(name, gap, sep, gap', value, c)) == |name| + |gap|
  {
    hide Find;
    var t, i := PairText(name, gap, sep, gap', value, c), |name| + |gap|;
    var front := name + gap;
    assert t[..i] == front && t[i] == sep;
    FrontIsClean(name, gap);
    FirstOutside(t, '=');
    FirstOutside(t, ':');
    assert forall j :: 0 <= j < i ==> t[j] == front[j];
    assert Counts(t, i);
    if sep == ':' {
      NoEquals(name, gap, gap', value, c);
    }
  }

  lemma FrontIsClean(name: string, gap: string)
    requires NameOk(name) && White(gap)
    ensures var front := name + gap;
      && '=' !in front && (':' !in name ==> ':' !in front)
      && forall j :: 0 <= j < |front| ==> !CommentAt(front, j)
  {
  }

  /** With a colon, every equals sign stands in the comment. */
  lemma NoEquals(name: string, gap: string, gap': string, value: string, c: Comment)
    requires NameOk(name) && White(gap) && White(gap') && '=' !in value && c.Ok()
    ensures var t := PairText(name, gap, ':', gap', value, c);
      forall j :: 0 <= j < |t| && t[j] == '=' ==> !Counts(t, j)
  {
    var t := PairText(name, gap, ':', gap', value, c);
    var body := name + gap + [':'] + gap' + value;
    assert t == body + c.Text() && '=' !in body;
    if c != Nothing {
      var n := |body| + |c.gap|;
      assert t[n] == c.Text()[|c.gap|] == ';' && t[n - 1] == c.Text()[|c.gap| - 1] == c.gap[|c.gap| - 1];
      assert CommentAt(t, n);
      assert forall j :: |body| <= j < n ==> t[j] == c.gap[j - |body|];
      assert forall j :: 0 <= j < n ==> t[j] != '=';
    } else {
      assert t == body;
    }
  }

  /** The value comes back, unless it is empty and a comment follows: then the comment is the value. */
  lemma ValueMeans(gap': string, value: string, c: Comment)
    requires White(gap') && Clean(value) && Tight(value) && c.Ok()
    ensures value != "" || c == Nothing ==> Ini.ValueOf(gap' + value + c.Text()) == value
    ensures value == "" && c != Nothing ==>
      Ini.ValueOf(gap' + value + c.Text()) != "" && Ini.ValueOf(gap' + value + c.Text())[0] == ';'
  {
    hide Find, Rstrip, Spaces, Lskip;
    if value == "" && c != Nothing {
      CommentAsValue(gap', c);
    } else {
      var rest := value + c.Text();
      assert gap' + value + c.Text() == gap' + rest;
      LskipWhite(gap', rest);
      if c == Nothing {
        assert rest == value;
        FindStops(rest, NUL, false, |value|);
        assert rest[..|value|] == value;
        RstripWhite(value, "");
      } else {
        ValueStops(value, c);
        assert rest[..|value| + |c.gap|] == value + c.gap;
        RstripWhite(value, c.gap);
      }
    }
  }

  lemma ValueStops(value: string, c: Comment)
    requires value != "" && Clean(value) && c != Nothing && c.Ok()
    ensures Find(value + c.Text(), NUL, false) == |value| + |c.gap|
  {
    hide Find, White, Clean, IsSpace;
    var front, tail := value + c.gap, ";" + c.text;
    var rest := front + tail;
    assert rest == value + c.Text();
    BehindValue(value, c.gap);
    JoinedComment(front, tail);
    FindFirst(rest, NUL, false);
  }

  lemma JoinedComment(front: string, tail: string)
    requires front != "" && IsSpace(front[|front| - 1]) && tail != "" && tail[0] == ';'
    ensures CommentAt(front + tail, |front|)
    ensures forall j :: 0 <= j < |front| ==>
      (front + tail)[j] == front[j] && (CommentAt(front + tail, j) <==> CommentAt(front, j))
  {
    hide IsSpace;
    assert forall j :: 0 <= j < |front| ==> (front + tail)[j] == front[j];
    assert (front + tail)[|front|] == tail[0];
  }

  lemma BehindValue(value: string, gap: string)
    requires value != "" && Clean(value) && gap != "" && White(gap)
    ensures var front := value + gap;
      && IsSpace(front[|front| - 1])
      && forall j :: 0 <= j < |front| ==> front[j] != NUL && !CommentAt(front, j)
  {
  }

  lemma CommentAsValue(gap': string, c: Comment)
    requires White(gap') && c != Nothing && c.Ok()
    ensures var v := Ini.ValueOf(gap' + "" + c.Text()); v != "" && v[0] == ';'
  {
    hide Find, Rstrip, Spaces, Lskip;
    var rest := ";" + c.text;
    assert gap' + "" + c.Text() == (gap' + c.gap) + rest;
    LskipWhite(gap' + c.gap, rest);
    FindFirst(rest, NUL, false);
    var cut := rest[..Find(rest, NUL, false)];
    assert cut != "" && cut[0] == ';';
    assert Rstrip(cut) <= cut;
  }

  /**
   * However a pair is laid out, the parser finds its name, and its value if and only if the value
   * is not empty or no comment follows.
   */
  lemma PairLaidOut(a: string, name: string, gap: string, sep: char, gap': string, value: string, c: Comment,
                    b: string, prevName: string)
    requires White(a) && White(b) && NameOk(name) && White(gap) && White(gap') && Clean(value) && Tight(value)
    requires c.Ok() && Separates(sep, name, value) && (a == "" || prevName == "")
    requires Tight(PairText(name, gap, sep, gap', value, c))
    ensures var line := ClassifyRaw(a + PairText(name, gap, sep, gap', value, c) + b, false, prevName);
      line.Pair? && line.name == name && (line.value == value <==> value != "" || c == Nothing)
  {
    hide ClassifyRaw, Find, Rstrip, Ini.ValueOf, Separator, PairText, White, Clean, Tight, Separates, Lskip, Spaces;
    var t := PairText(name, gap, sep, gap', value, c);
    NameInFront(name, gap, sep, gap', value, c);
    LineIs(a, t, b, prevName);
    NameEnds(name, gap, sep, gap', value, c);
    RstripWhite(name, gap);
    ValueMeans(gap', value, c);
  }

  lemma NameInFront(name: string, gap: string, sep: char, gap': string, value: string, c: Comment)
    requires NameOk(name)
    ensures var t, n := PairText(name, gap, sep, gap', value, c), |name| + |gap|;
      && n < |t| && t[0] == name[0] && t[..n] == name + gap && t[n + 1..] == gap' + value + c.Text()
      && !IsSpace(name[|name| - 1])
  {
    hide IsSpace;
  }

  // ----- what a line does -----

  /** A section line sets the section to the first 49 characters of its name, and forgets the name. */
  lemma HeaderTaken(st: State, name: string, raw: string)
    requires ClassifyRaw(raw, st.lineno == 0, st.prevName) == Header(name)
    ensures OneLine(st, raw)
         == st.(lineno := st.lineno + 1, prevName := "", section := if |name| < 50 then name else name[..49])
  {
    hide ClassifyRaw;
  }

  /** Keys are section, dot and name in lower case. */
  lemma KeyIs(section: string, name: string)
    ensures MakeKey(section, name) == LowerAll(section) + "." + LowerAll(name)
    ensures MakeKey("Server_A", "PortZ9") == "server_a.portz9"
  {
    assert LowerAll("Server_A" + "." + "PortZ9") == "server_a.portz9";
  }
}
