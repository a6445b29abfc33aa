// parse_sample_0 and parse_sample_1 (src/io/parser.cpp): how a log message is taken apart, and
// which of its sections and fields are read without a check that they are there. atoi is a
// parameter; statistics and time stamps are not modelled.
module MessageText {
  import opened StringUtil

  /** Separates the sections of a line. */
  const SECTION: char := '\U{0001}'

  const WANTED := "sfst_rank_ocpx_v2"

  /** A message is rejected, or an element that does not exist is read, or its fields are found. */
  datatype Read<+T> = Rejected | OutOfBounds | Found(fields: T)

  predicate StandsAt(msg: string, part: string, i: nat) {
    i + |part| <= |msg| && msg[i..i + |part|] == part
  }

  predicate Contains(msg: string, part: string) {
    exists i: nat :: i <= |msg| && StandsAt(msg, part, i)
  }

  function Many(s: string, delim: char): nat { Occurrences(s, delim, 0) }

  /** Piece i of a string with at least i delimiters. */
  function Piece(s: string, delim: char, i: nat): string
    requires i <= Many(s, delim)
  {
    PieceCount(s, delim);
    Split(s, delim)[i]
  }

  /** What a sample needs of an advertisement section: the bid type and the features' text. */
  datatype Ad = Ad(bidType: string, features: string)

  /** The checks on an advertisement section: ten fields, and seventeen parts in the sixth. */
  predicate AdOk(section: string) {
    Many(section, '\t') >= 9 && Many(FieldOf(section, 5), ';') >= 16
  }

  function FieldOf(section: string, i: nat): string
    requires i <= Many(section, '\t')
  {
    Piece(section, '\t', i)
  }

  function SectionOf(line: string, i: nat): string
    requires i <= Many(line, SECTION)
  {
    Piece(line, SECTION, i)
  }

  function LineOf(msg: string, i: nat): string
    requires i <= Many(msg, '\n')
  {
    Piece(msg, '\n', i)
  }

  function AdOf(section: string): Ad
    requires AdOk(section)
  {
    Ad(FieldOf(section, 9), Piece(FieldOf(section, 5), ';', 16))
  }

  method ReadAd(section: string) returns (r: Read<Ad>)
    ensures r == if AdOk(section) then Found(AdOf(section)) else Rejected
  {
    hide Split;
    var ad := SplitLoop(section, '\t');
    PieceCount(section, '\t');
    if |ad| < 10 {
      return Rejected;
    }
    var rankMatch := SplitLoop(ad[5], ';');
    PieceCount(ad[5], ';');
    if |rankMatch| < 17 {
      return Rejected;
    }
    r := Found(Ad(ad[9], rankMatch[16]));
  }

  // ----- parse_sample_0 -----

  /** The checks before the mark of an impression is read. */
  predicate ImpressionOk(atoi: string -> int, msg: string) {
    Contains(msg, WANTED) && LineOk(atoi, LineOf(msg, 0))
  }

  predicate LineOk(atoi: string -> int, line: string) {
    && Many(line, SECTION) >= 4
    && atoi(AfterLastTab(line)) == 0
    && Many(SectionOf(line, 0), '\t') >= 1
  }

  /**
   * Up to the duplicate filter. The mark is the fifth field of the second section, and nothing
   * checks that there are five: it is read out of bounds exactly if the checked message has
   * fewer than four tabs there.
   */
  method ImpressionMark(atoi: string -> int, msg: string) returns (r: Read<string>)
    ensures r.Rejected? <==> !ImpressionOk(atoi, msg)
    ensures r.OutOfBounds? <==> ImpressionOk(atoi, msg) && Many(SectionOf(LineOf(msg, 0), 1), '\t') < 4
    ensures r.Found? ==> r.fields == FieldOf(SectionOf(LineOf(msg, 0), 1), 4)
  {
    hide Split, Contains;
    if !Contains(msg, WANTED) {
      return Rejected;
    }
    var c1 := Count(msg, '\n');
    if c1 < 1 {
      return Rejected;
    }
    var lines := SplitLoop(msg, '\n');
    PieceCount(msg, '\n');
    r := LineMark(atoi, lines[0]);
  }

  method LineMark(atoi: string -> int, imp: string) returns (r: Read<string>)
    ensures r.Rejected? <==> !LineOk(atoi, imp)
    ensures r.OutOfBounds? <==> LineOk(atoi, imp) && Many(SectionOf(imp, 1), '\t') < 4
    ensures r.Found? ==> r.fields == FieldOf(SectionOf(imp, 1), 4)
  {
    hide Split, Occurrences, AfterLastTab;
    var c3 := Count(imp, SECTION);
    PieceCount(imp, SECTION);
    if c3 < 5 {
      return Rejected;
    }
    var state := LastState(imp);
    if atoi(state) != 0 {
      return Rejected;
    }
    var sec := SplitLoop(imp, SECTION);
    var common := SplitLoop(sec[0], '\t');
    PieceCount(sec[0], '\t');
    if |common| < 2 {
      return Rejected;
    }
    var psid := SplitLoop(sec[1], '\t');
    PieceCount(sec[1], '\t');
    r := if 4 < |psid| then Found(psid[4]) else OutOfBounds;
  }

  /** Behind the duplicate filter every read is checked. */
  method ImpressionAd(atoi: string -> int, msg: string) returns (r: Read<Ad>)
    requires ImpressionOk(atoi, msg)
    ensures var line := LineOf(msg, 0);
      && !r.OutOfBounds?
      && (r.Rejected? <==> Many(SectionOf(line, 4), '\t') < 1 || !AdOk(SectionOf(line, 3)))
      && (r.Found? ==> r.fields == AdOf(SectionOf(line, 3)))
  {
    hide Split, Contains;
    var lines := SplitLoop(msg, '\n');
    var sec := SplitLoop(lines[0], SECTION);
    PieceCount(msg, '\n');
    PieceCount(lines[0], SECTION);
    r := ReadAd(sec[3]);
    var fraud := SplitLoop(sec[4], '\t');
    PieceCount(sec[4], '\t');
    if |fraud| < 2 {
      r := Rejected;
    }
  }

  // ----- parse_sample_1 -----

  datatype Behaviour = Behaviour(markid: string, code: string, filter: string, ad: Ad)

  /** The checks on the third line, which is the behaviour. */
  predicate BehaviourOk(msg: string) {
    && Contains(msg, WANTED)
    && Many(msg, '\n') >= 2
    && BehaviourLineOk(LineOf(msg, 2))
  }

  predicate BehaviourLineOk(line: string) {
    && Many(line, SECTION) >= 3
    && Many(SectionOf(line, 0), '\t') >= 7
    && Many(SectionOf(line, 2), '\t') >= 1
  }

  /** The second line, which is the impression: four sections, and five fields in the second. */
  predicate ImpressionThere(msg: string)
    requires Many(msg, '\n') >= 2
  {
    var line := LineOf(msg, 1);
    Many(line, SECTION) >= 3 && Many(SectionOf(line, 1), '\t') >= 4
  }

  /**
   * The behaviour's own line is checked, but not the impression it belongs to: exactly a checked
   * message whose second line lacks a section or the mark is read out of bounds.
   */
  method ReadBehaviour(msg: string) returns (r: Read<Behaviour>)
    ensures r.OutOfBounds? <==> BehaviourOk(msg) && !ImpressionThere(msg)
    ensures r.Rejected? <==>
      !BehaviourOk(msg) || (ImpressionThere(msg) && !AdOk(SectionOf(LineOf(msg, 1), 3)))
    ensures r.Found? ==>
      var b, imp := LineOf(msg, 2), LineOf(msg, 1);
      && r.fields.code == FieldOf(SectionOf(b, 0), 7)
      && r.fields.filter == FieldOf(SectionOf(b, 3), 0)
      && r.fields.markid == FieldOf(SectionOf(imp, 1), 4) + "-" + r.fields.code + "-" + r.fields.filter
      && r.fields.ad == AdOf(SectionOf(imp, 3))
  {
    hide Split, Contains;
    if !Contains(msg, WANTED) {
      return Rejected;
    }
    var c1 := Count(msg, '\n');
    PieceCount(msg, '\n');
    if c1 < 3 {
      return Rejected;
    }
    var lines := SplitLoop(msg, '\n');
    var own := BehaviourFields(lines[2]);
    if own.Rejected? {
      return Rejected;
    }
    var (code, filter) := own.fields;
    var found := ImpressionFields(lines[1]);
    if !found.Found? {
      return if found.OutOfBounds? then OutOfBounds else Rejected;
    }
    var (mark, ad) := found.fields;
    r := Found(Behaviour(mark + "-" + code + "-" + filter, code, filter, ad));
  }

  /** code and filter of the behaviour's line. */
  method BehaviourFields(line: string) returns (r: Read<(string, string)>)
    ensures !r.OutOfBounds?
    ensures r.Found? <==> BehaviourLineOk(line)
    ensures r.Found? ==> r.fields == (FieldOf(SectionOf(line, 0), 7), FieldOf(SectionOf(line, 3), 0))
  {
    hide Split;
    var bhvs := SplitLoop(line, SECTION);
    PieceCount(line, SECTION);
    if |bhvs| < 4 {
      return Rejected;
    }
    var common := SplitLoop(bhvs[0], '\t');
    PieceCount(bhvs[0], '\t');
    if |common| < 8 {
      return Rejected;
    }
    var addt := SplitLoop(bhvs[3], '\t');
    PieceCount(bhvs[3], '\t');
    var extend := SplitLoop(bhvs[2], '\t');
    PieceCount(bhvs[2], '\t');
    if |extend| < 2 {
      return Rejected;
    }
    r := Found((common[7], addt[0]));
  }

  /** Mark and advertisement of the impression's line, read in the source's order. */
  method ImpressionFields(line: string) returns (r: Read<(string, Ad)>)
    ensures r.OutOfBounds? <==> Many(line, SECTION) < 3 || Many(SectionOf(line, 1), '\t') < 4
    ensures r.Rejected? <==> !r.OutOfBounds? && !AdOk(SectionOf(line, 3))
    ensures r.Found? ==> r.fields == (FieldOf(SectionOf(line, 1), 4), AdOf(SectionOf(line, 3)))
  {
    hide Split, AdOk;
    var imp := SplitLoop(line, SECTION);
    PieceCount(line, SECTION);
    if |imp| <= 1 {
      return OutOfBounds;
    }
    var mk := SplitLoop(imp[1], '\t');
    PieceCount(imp[1], '\t');
    if |mk| <= 4 || |imp| <= 3 {
      return OutOfBounds;
    }
    var ad := ReadAd(imp[3]);
    r := if ad.Found? then Found((mk[4], ad.fields)) else Rejected;
  }

  // ----- a checked message without a mark -----

  /** Sections without separators and outer blanks make a line of exactly these sections. */
  lemma AssembledLine(sections: seq<string>)
    requires sections != [] && NoneHas(sections, SECTION) && NoneHasBlanks(sections)
    ensures Many(Join(sections, SECTION), SECTION) == |sections| - 1
    ensures forall i :: 0 <= i < |sections| ==> SectionOf(Join(sections, SECTION), i) == sections[i]
  {
    SplitJoin(sections, SECTION);
    PieceCount(Join(sections, SECTION), SECTION);
  }

  /** A line without outer blanks is a message of its own. */
  lemma OneLine(line: string)
    requires '\n' !in line && NoBlanksAround(line)
    ensures LineOf(line, 0) == line
  {
    assert Join([line], '\n') == line;
    SplitJoin([line], '\n');
    PieceCount(line, '\n');
  }

  /** Five sections, the second of them empty: every check passes and the mark is not there. */
  lemma MarkMissing(atoi: string -> int)
    requires atoi("0") == 0
    ensures var msg := Join(["\tt", "", "", "", WANTED + "\t0"], SECTION);
      ImpressionOk(atoi, msg) && Many(SectionOf(LineOf(msg, 0), 1), '\t') < 4
  {
    hide Join, Split, AfterLastTab, Contains;
    var sections := ["\tt", "", "", "", WANTED + "\t0"];
    var msg := Join(sections, SECTION);
    TheText(msg);
    AssembledLine(sections);
    OneLine(msg);
    LastIs(msg, |msg| - 1);
    assert sections[0] == "\tt" && sections[1] == "";
    TabsIn();
  }

  lemma TheText(msg: string)
    requires msg == Join(["\tt", "", "", "", WANTED + "\t0"], SECTION)
    ensures Contains(msg, WANTED) && '\n' !in msg && NoBlanksAround(msg)
    ensures |msg| >= 2 && msg[|msg| - 2] == '\t' && msg[|msg| - 1..] == "0"
  {
    var last := WANTED + "\t0";
    JoinFive("\tt", "", "", "", last, SECTION);
    hide Join;
    var s := [SECTION];
    var front := "\tt" + s + s + s + s;
    assert msg == front + last;
    assert '\n' !in front && '\n' !in last;
    assert msg[6..6 + |WANTED|] == WANTED;
    assert StandsAt(msg, WANTED, 6);
    assert last[|last| - 2..] == "\t0" && msg[|msg| - 2..] == last[|last| - 2..];
  }

  lemma TabsIn()
    ensures Many("\tt", '\t') == 1 && Many("", '\t') == 0
  {
    assert Occurrences("\tt", '\t', 1) == Occurrences("\tt", '\t', 2) == 0;
  }

  /**
   * Three lines, the second without sections: the behaviour passes every check, the impression it
   * belongs to is not there.
   */
  lemma ImpressionMissing()
    ensures var msg := Join([WANTED, "x", Join(["a\tb\tc\td\te\tf\tg\th", "", "e\tf", "g"], SECTION)], '\n');
      BehaviourOk(msg) && !ImpressionThere(msg)
  {
    hide Join, Split, Contains, BehaviourLineOk;
    var own := Join(["a\tb\tc\td\te\tf\tg\th", "", "e\tf", "g"], SECTION);
    var lines := [WANTED, "x", own];
    var msg := Join(lines, '\n');
    OwnLine(own);
    OwnLineOk(own);
    SplitJoin(lines, '\n');
    PieceCount(msg, '\n');
    assert LineOf(msg, 1) == lines[1] && LineOf(msg, 2) == lines[2];
    FirstLineWanted(msg, own);
    NoSection();
  }

  lemma OwnLineOk(own: string)
    requires own == Join(["a\tb\tc\td\te\tf\tg\th", "", "e\tf", "g"], SECTION)
    ensures BehaviourLineOk(own)
  {
    hide Join, Split, Contains, Occurrences;
    var sections := ["a\tb\tc\td\te\tf\tg\th", "", "e\tf", "g"];
    AssembledLine(sections);
    assert SectionOf(own, 0) == sections[0] && SectionOf(own, 2) == sections[2];
    TabsInOwn();
  }

  lemma OwnLine(own: string)
    requires own == Join(["a\tb\tc\td\te\tf\tg\th", "", "e\tf", "g"], SECTION)
    ensures '\n' !in own && NoBlanksAround(own)
  {
    var s := [SECTION];
    assert Join(["e\tf", "g"], SECTION) == "e\tf" + s + "g";
    assert Join(["", "e\tf", "g"], SECTION) == "" + s + ("e\tf" + s + "g");
    assert own == "a\tb\tc\td\te\tf\tg\th" + s + ("" + s + ("e\tf" + s + "g"));
  }

  lemma FirstLineWanted(msg: string, own: string)
    requires msg == Join([WANTED, "x", own], '\n')
    ensures Contains(msg, WANTED)
  {
    assert msg == WANTED + ['\n'] + Join(["x", own], '\n');
    assert StandsAt(msg, WANTED, 0);
  }

  lemma TabsInOwn()
    ensures Many("a\tb\tc\td\te\tf\tg\th", '\t') >= 7 && Many("e\tf", '\t') == 1
  {
    hide Occurrences;
    var s := "a\tb\tc\td\te\tf\tg\th";
    LetterTab(s, 12);
    LetterTab(s, 10);
    LetterTab(s, 8);
    LetterTab(s, 6);
    LetterTab(s, 4);
    LetterTab(s, 2);
    LetterTab(s, 0);
    LetterTab("e\tf", 0);
    LastLetter("e\tf");
  }

  lemma LetterTab(s: string, i: nat)
    requires i + 1 < |s| && s[i] != '\t' && s[i + 1] == '\t'
    ensures Occurrences(s, '\t', i) == 1 + Occurrences(s, '\t', i + 2)
  {
  }

  lemma LastLetter(s: string)
    requires s != "" && s[|s| - 1] != '\t'
    ensures Occurrences(s, '\t', |s| - 1) == 0
  {
  }

  lemma NoSection()
    ensures Many("x", SECTION) == 0
  {
  }

  lemma JoinFive(a: string, b: string, c: string, d: string, e: string, delim: char)
    ensures Join([a, b, c, d, e], delim) == a + [delim] + b + [delim] + c + [delim] + d + [delim] + e
  {
    assert Join([d, e], delim) == d + [delim] + e;
    assert Join([c, d, e], delim) == c + [delim] + Join([d, e], delim);
    assert Join([b, c, d, e], delim) == b + [delim] + Join([c, d, e], delim);
  }

  lemma LastIs(s: string, n: nat)
    requires 0 < n <= |s| && s[n - 1] == '\t' && forall j :: n <= j < |s| ==> s[j] != '\t'
    ensures AfterLastTab(s) == s[n..]
  {
  }
}
