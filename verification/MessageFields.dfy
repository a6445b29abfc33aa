// What a log message says, field by field (parse_sample_0 and parse_sample_1 of
// src/io/parser.cpp): messages assembled from lines, sections and fields, and the message that
// parsing makes of them.
module MessageFields {
  import opened Wrappers
  import opened StringUtil
  import opened MessageText
  import opened FeatureText
  import opened Batching
  import opened MessageParse
  import Crc64
  import Crc64Check
  import Crc64Poly
  import Slicing

  /** The fields of a section, the sections of a line, the lines of a message. */
  type Fields = fs: seq<string> | fs != [] witness [""]
  type Sections = ss: seq<Fields> | ss != [] witness [[""]]
  type Lines = ls: seq<Sections> | ls != [] witness [[[""]]]

  function SectionText(fields: Fields): string { Join(fields, '\t') }

  function SectionTexts(sections: Sections): (r: seq<string>)
    ensures |r| == |sections| && forall i :: 0 <= i < |r| ==> r[i] == SectionText(sections[i])
  {
    seq(|sections|, i requires 0 <= i < |sections| => SectionText(sections[i]))
  }

  function LineText(sections: Sections): string { Join(SectionTexts(sections), '\U{0001}') }

  function LineTexts(lines: Lines): (r: seq<string>)
    ensures |r| == |lines| && forall i :: 0 <= i < |r| ==> r[i] == LineText(lines[i])
  {
    seq(|lines|, i requires 0 <= i < |lines| => LineText(lines[i]))
  }

  function Text(lines: Lines): string { Join(LineTexts(lines), '\n') }

  /** A field holds no separator and has no blanks around it. */
  predicate FieldOk(f: string) {
    '\t' !in f && '\n' !in f && '\U{0001}' !in f && NoBlanksAround(f)
  }

  predicate FieldsOk(fields: Fields) {
    forall i :: 0 <= i < |fields| ==> FieldOk(fields[i])
  }

  predicate SectionsOk(sections: Sections) {
    forall i :: 0 <= i < |sections| ==> FieldsOk(sections[i])
  }

  predicate LinesOk(lines: Lines) {
    forall i :: 0 <= i < |lines| ==> SectionsOk(lines[i])
  }

  // ----- taking the text apart -----

  lemma {:induction false} JoinFree(pieces: seq<string>, delim: char, c: char)
    requires pieces != [] && c != delim && NoneHas(pieces, c)
    ensures c !in Join(pieces, delim)
    decreases |pieces|
  {
    if |pieces| > 1 {
      JoinFree(pieces[1..], delim, c);
    }
  }

  lemma {:induction false} JoinTight(pieces: seq<string>, delim: char)
    requires pieces != [] && delim != ' ' && NoneHasBlanks(pieces)
    ensures NoBlanksAround(Join(pieces, delim))
    decreases |pieces|
  {
    if |pieces| > 1 {
      JoinTight(pieces[1..], delim);
      assert NoBlanksAround(pieces[0]);
    }
  }

  lemma FieldsApart(fields: Fields)
    requires FieldsOk(fields)
    ensures Many(SectionText(fields), '\t') == |fields| - 1
    ensures forall i :: 0 <= i < |fields| ==> FieldOf(SectionText(fields), i) == fields[i]
    ensures '\n' !in SectionText(fields) && '\U{0001}' !in SectionText(fields) && NoBlanksAround(SectionText(fields))
  {
    hide Join, Split, NoBlanksAround;
    SplitJoin(fields, '\t');
    PieceCount(SectionText(fields), '\t');
    JoinFree(fields, '\t', '\n');
    JoinFree(fields, '\t', '\U{0001}');
    JoinTight(fields, '\t');
  }

  lemma SectionsApart(sections: Sections)
    requires SectionsOk(sections)
    ensures Many(LineText(sections), SECTION) == |sections| - 1
    ensures forall i :: 0 <= i < |sections| ==> SectionOf(LineText(sections), i) == SectionText(sections[i])
    ensures '\n' !in LineText(sections) && NoBlanksAround(LineText(sections))
  {
    hide Join, Split, NoBlanksAround, FieldsOk, SectionText;
    var texts := SectionTexts(sections);
    forall i | 0 <= i < |sections|
      ensures '\n' !in texts[i] && SECTION !in texts[i] && NoBlanksAround(texts[i])
    {
      FieldsApart(sections[i]);
    }
    SplitJoin(texts, SECTION);
    PieceCount(LineText(sections), SECTION);
    JoinFree(texts, SECTION, '\n');
    JoinTight(texts, SECTION);
  }

  lemma LinesApart(lines: Lines)
    requires LinesOk(lines)
    ensures Many(Text(lines), '\n') == |lines| - 1
    ensures forall i :: 0 <= i < |lines| ==> LineOf(Text(lines), i) == LineText(lines[i])
  {
    hide Join, Split, NoBlanksAround, SectionsOk, LineText;
    var texts := LineTexts(lines);
    forall i | 0 <= i < |lines|
      ensures '\n' !in texts[i] && NoBlanksAround(texts[i])
    {
      SectionsApart(lines[i]);
    }
    SplitJoin(texts, '\n');
    PieceCount(Text(lines), '\n');
  }

  // ----- advertisement and features -----

  /** The sixth field of an advertisement is made of these parts. */
  predicate HasParts(ad: Fields, rank: seq<string>) {
    |ad| >= 6 ==> rank != [] && ad[5] == Join(rank, ';') && NoneHas(rank, ';') && NoneHasBlanks(rank)
  }

  /** Ten fields and seventeen parts are asked for; the tenth field and the seventeenth part are used. */
  lemma AdIs(ad: Fields, rank: seq<string>)
    requires FieldsOk(ad) && HasParts(ad, rank)
    ensures AdOk(SectionText(ad)) <==> |ad| >= 10 && |rank| >= 17
    ensures AdOk(SectionText(ad)) ==> AdOf(SectionText(ad)) == Ad(ad[9], rank[16])
  {
    hide Join, Split, NoBlanksAround;
    FieldsApart(ad);
    if |ad| >= 6 {
      SplitJoin(rank, ';');
      PieceCount(ad[5], ';');
    }
  }

  /** Behind the first colon: the rate, then numbers, of which those below 1 are dropped. */
  lemma FeaturesAre(env: Env, name: string, numbers: seq<string>)
    requires env.Ok() && ':' !in name
    requires numbers != [] && NoneHas(numbers, ',') && NoneHasBlanks(numbers)
    ensures Extracted(env, name + ":" + Join(numbers, ','))
         == (env.atof(numbers[0]), Positive(env.atoi, numbers[1..]))
  {
    hide Join, Split, NoBlanksAround, Positive, Crc64.TablesOk, IsAtoi;
    var rest := Join(numbers, ',');
    var s := name + ":" + rest;
    FindIs(s, ':', 0, |name|);
    assert s[|name| + 1..] == rest;
    SplitJoin(numbers, ',');
  }

  lemma NoFeatures(env: Env, text: string)
    requires env.Ok() && ':' !in text
    ensures Extracted(env, text) == (-1.0, [])
  {
    hide Positive, Crc64.TablesOk, IsAtoi;
    FindIs(text, ':', 0, |text|);
  }

  /** Each number that is at least 1 becomes a feature, where it stands. */
  lemma {:induction false} PositiveIs(atoi: string -> int, a: seq<string>, p: string, b: seq<string>)
    requires IsAtoi(atoi)
    ensures Positive(atoi, []) == []
    ensures Positive(atoi, a + [p] + b)
         == Positive(atoi, a) + (if atoi(p) >= 1 then [atoi(p)] else []) + Positive(atoi, b)
    decreases |b|
  {
    var all := a + [p] + b;
    if b == [] {
      assert all[..|all| - 1] == a;
    } else {
      var front := b[..|b| - 1];
      PositiveIs(atoi, a, p, front);
      assert all[..|all| - 1] == a + [p] + front;
    }
  }

  // ----- impressions -----

  /** The model's name is somewhere in the text. */
  predicate MentionsModel(text: string) {
    exists i: nat :: i <= |text| && StandsAt(text, "sfst_rank_ocpx_v2", i)
  }

  /** The state is the last field of the line. */
  lemma StateIs(sections: Sections)
    requires SectionsOk(sections) && |sections[|sections| - 1]| >= 2
    ensures var last := sections[|sections| - 1]; AfterLastTab(LineText(sections)) == last[|last| - 1]
  {
    hide Join;
    var last := sections[|sections| - 1];
    var line, section, state := LineText(sections), SectionText(last), last[|last| - 1];
    JoinEnd(SectionTexts(sections), SECTION);
    JoinEnd(last, '\t');
    assert FieldOk(state);
    var n := |line| - |state|;
    assert line[n..] == state && line[n - 1] == '\t';
    assert forall j :: n <= j < |line| ==> line[j] == state[j - n];
    LastIs(line, n);
  }

  lemma {:induction false} JoinEnd(pieces: seq<string>, delim: char)
    requires pieces != []
    ensures var last, text := pieces[|pieces| - 1], Join(pieces, delim);
      && |last| <= |text| && text[|text| - |last|..] == last
      && (|pieces| > 1 ==> |last| < |text| && text[|text| - |last| - 1] == delim)
    decreases |pieces|
  {
    if |pieces| > 1 {
      JoinEnd(pieces[1..], delim);
      var last, rest := pieces[|pieces| - 1], Join(pieces[1..], delim);
      var text := Join(pieces, delim);
      assert text == (pieces[0] + [delim]) + rest;
      assert text[|text| - |last|..] == rest[|rest| - |last|..];
    }
  }

  /** What an impression needs before its mark is read. */
  predicate ImpressionFits(atoi: string -> int, lines: Lines) {
    && MentionsModel(Text(lines))
    && |lines[0]| >= 5 && atoi(AfterLastTab(LineText(lines[0]))) == 0 && |lines[0][0]| >= 2
  }

  /**
   * An impression, whatever its fields: its mark is the fifth field of the second section, its
   * features are those of the seventeenth part of the sixth field of the fourth section.
   */
  lemma ImpressionMessage(env: Env, lines: Lines, rank: seq<string>, labels: seq<int>)
    requires env.Ok() && LinesOk(lines) && (|lines[0]| >= 5 ==> HasParts(lines[0][3], rank))
    ensures var imp, fits := lines[0], ImpressionFits(env.atoi, lines);
      && (InBounds(env, Impression, Text(lines)) <==> (fits ==> |imp[1]| >= 5))
      && (InBounds(env, Impression, Text(lines)) ==>
        Parse(env, Impression, Text(lines), labels) ==
          if !fits then Message(Impression, false, 0, false, -1.0, [], labels)
          else if |imp[4]| < 2 || |imp[3]| < 10 || |rank| < 17 then
            Message(Impression, true, HashOf(env, imp[1][4]), false, -1.0, [], labels)
          else
            var (ctr, features) := Extracted(env, rank[16]);
            Message(Impression, true, HashOf(env, imp[1][4]), true, ctr, features, labels))
  {
    hide Join, Split, AdOk, AdOf, HashOf, Extracted, Env.Ok, Text, LineText, SectionText, FieldsOk, HasParts;
    hide Occurrences, AfterLastTab, LinesOk;
    LinesApart(lines);
    FirstLineOk(lines);
    var imp := lines[0];
    SectionsApart(imp);
    WantedIs(Text(lines));
    FieldsApart(imp[0]);
    if |imp| >= 5 {
      FieldsApart(imp[1]);
      FieldsApart(imp[4]);
      AdIs(imp[3], rank);
    }
  }

  lemma FirstLineOk(lines: Lines)
    requires LinesOk(lines)
    ensures SectionsOk(lines[0])
  {
  }

  lemma WantedIs(text: string)
    ensures Contains(text, WANTED) <==> MentionsModel(text)
  {
  }

  // ----- behaviours -----

  /** What a behaviour needs before the impression it belongs to is read. */
  predicate BehaviourFits(lines: Lines) {
    && MentionsModel(Text(lines)) && |lines| >= 3
    && |lines[2]| >= 4 && |lines[2][0]| >= 8 && |lines[2][2]| >= 2
  }

  /**
   * A behaviour, whatever its fields: its mark is that of the impression in the second line, the
   * code and the filter of its own line, joined by dashes; its features are the impression's.
   */
  lemma BehaviourMessage(env: Env, lines: Lines, rank: seq<string>, labels: seq<int>)
    requires env.Ok() && LinesOk(lines) && (|lines| >= 2 && |lines[1]| >= 4 ==> HasParts(lines[1][3], rank))
    ensures var fits := BehaviourFits(lines);
      && (InBounds(env, Kind.Behaviour, Text(lines)) <==> (fits ==> |lines[1]| >= 4 && |lines[1][1]| >= 5))
      && (InBounds(env, Kind.Behaviour, Text(lines)) ==>
        Parse(env, Kind.Behaviour, Text(lines), labels) ==
          if !fits || |lines[1][3]| < 10 || |rank| < 17 then
            Message(Kind.Behaviour, false, 0, false, -1.0, [], labels)
          else
            var mark := lines[1][1][4] + "-" + lines[2][0][7] + "-" + lines[2][3][0];
            var (ctr, features) := Extracted(env, rank[16]);
            Message(Kind.Behaviour, true, HashOf(env, mark), true, ctr, features, labels))
  {
    hide Join, Split, AdOk, AdOf, HashOf, Extracted, Env.Ok, Text, LineText, SectionText, FieldsOk, HasParts;
    hide Occurrences, SectionsOk;
    LinesApart(lines);
    WantedIs(Text(lines));
    if |lines| >= 3 {
      OwnFields(lines[2]);
      ImpressionFields(lines[1], rank);
    }
  }

  lemma OwnFields(b: Sections)
    requires SectionsOk(b)
    ensures BehaviourLineOk(LineText(b)) <==> |b| >= 4 && |b[0]| >= 8 && |b[2]| >= 2
    ensures BehaviourLineOk(LineText(b)) ==>
      && FieldOf(SectionOf(LineText(b), 0), 7) == b[0][7]
      && Many(SectionOf(LineText(b), 3), '\t') >= 0
      && FieldOf(SectionOf(LineText(b), 3), 0) == b[3][0]
  {
    hide Join, Split, LineText, SectionText, FieldsOk, Occurrences;
    SectionsApart(b);
    if |b| >= 4 {
      FieldsApart(b[0]);
      FieldsApart(b[2]);
      FieldsApart(b[3]);
    }
  }

  lemma ImpressionFields(imp: Sections, rank: seq<string>)
    requires SectionsOk(imp) && (|imp| >= 4 ==> HasParts(imp[3], rank))
    ensures Many(LineText(imp), SECTION) == |imp| - 1
    ensures |imp| >= 4 ==>
      && Many(SectionOf(LineText(imp), 1), '\t') == |imp[1]| - 1
      && (|imp[1]| >= 5 ==> FieldOf(SectionOf(LineText(imp), 1), 4) == imp[1][4])
      && (AdOk(SectionOf(LineText(imp), 3)) <==> |imp[3]| >= 10 && |rank| >= 17)
      && (AdOk(SectionOf(LineText(imp), 3)) ==> AdOf(SectionOf(LineText(imp), 3)) == Ad(imp[3][9], rank[16]))
  {
    hide Join, Split, LineText, SectionText, FieldsOk, Occurrences, AdOk, AdOf, HasParts;
    SectionsApart(imp);
    if |imp| >= 4 {
      FieldsApart(imp[1]);
      AdIs(imp[3], rank);
    }
  }

  // ----- hashes -----

  /** With the program's polynomial the hash of a mark is its CRC-64. */
  lemma HashIs(env: Env)
    requires env.Ok() && Crc64Poly.Generated(Crc64Check.POLY64, env.tables)
    ensures HashOf(env, "123456789") == 0xe9c6d914c4b8d9ca
  {
    hide Slicing.Run, Crc64Poly.Division, Crc64Poly.Generated;
    hide Bytes, AsKey, Crc64.RowTable;
    var data := Bytes("123456789");
    NineCharacters();
    Crc64Check.NineBytes();
    Crc64Poly.RunIsDivision(Crc64Check.POLY64, env.tables, 0, data);
    WordIs(Slicing.Run(Crc64.RowTable(env.tables, 0), 0, data));
  }

  lemma NineCharacters()
    ensures Bytes("123456789") == [0x31, 0x32, 0x33, 0x34, 0x35, 0x36, 0x37, 0x38, 0x39]
  {
    hide ByteOf;
    LowDigits();
    HighDigits();
  }

  lemma LowDigits()
    ensures ByteOf('1') == 0x31
    ensures ByteOf('2') == 0x32
    ensures ByteOf('3') == 0x33
    ensures ByteOf('4') == 0x34
  {
    assert '1' as int == 49 && '2' as int == 50 && '3' as int == 51 && '4' as int == 52;
    assert 49 as bv8 == 0x31 && 50 as bv8 == 0x32 && 51 as bv8 == 0x33 && 52 as bv8 == 0x34;
  }

  lemma HighDigits()
    ensures ByteOf('5') == 0x35
    ensures ByteOf('6') == 0x36
    ensures ByteOf('7') == 0x37
    ensures ByteOf('8') == 0x38
    ensures ByteOf('9') == 0x39
  {
    assert '5' as int == 53 && '6' as int == 54 && '7' as int == 55 && '8' as int == 56 && '9' as int == 57;
    assert 53 as bv8 == 0x35 && 54 as bv8 == 0x36 && 55 as bv8 == 0x37 && 56 as bv8 == 0x38 && 57 as bv8 == 0x39;
  }

  lemma WordIs(x: bv64)
    requires x == 0xe9c6d914c4b8d9ca
    ensures AsKey(x) == 0xe9c6d914c4b8d9ca
  {
  }
}
