// What the error number of ini_parse_file means (src/utils/ini.cc).
module IniErrors {
  import opened Ini

  /** Line k is malformed where it stands. */
  predicate BadLine(raws: seq<string>, k: nat)
    requires k < |raws|
  {
    ClassifyRaw(raws[k], k == 0, Lines(START, raws[..k]).prevName) == Malformed
  }

  lemma {:induction false} CountsLines(raws: seq<string>)
    ensures Lines(START, raws).lineno == |raws|
  {
    hide ClassifyRaw, Truncated, Handle;
    if raws != [] {
      CountsLines(raws[..|raws| - 1]);
    }
  }

  /** None of the first n lines is malformed. */
  predicate NoneBad(raws: seq<string>, n: nat)
    requires n <= |raws|
  {
    forall k :: 0 <= k < n ==> !BadLine(raws, k)
  }

  /** e is the number of the first malformed line among the first n, 0 if there is none. */
  predicate IsFirstBad(raws: seq<string>, n: nat, e: nat)
    requires n <= |raws|
  {
    && e <= n
    && (e == 0 <==> NoneBad(raws, n))
    && (e > 0 ==> BadLine(raws, e - 1) && NoneBad(raws, e - 1))
  }

  lemma ErrorStep(raws: seq<string>, n: nat)
    requires n < |raws|
    ensures var before := Lines(START, raws[..n]).error;
      Lines(START, raws[..n + 1]).error == if before == 0 && BadLine(raws, n) then n + 1 else before
  {
    hide ClassifyRaw, Truncated, Handle;
    assert raws[..n + 1][..n] == raws[..n];
    CountsLines(raws[..n]);
  }

  lemma FirstBadStep(raws: seq<string>, n: nat, e: nat)
    requires n < |raws| && IsFirstBad(raws, n, e)
    ensures IsFirstBad(raws, n + 1, if e == 0 && BadLine(raws, n) then n + 1 else e)
  {
    hide BadLine;
  }

  lemma {:induction false} FirstBadUpTo(raws: seq<string>, n: nat)
    requires n <= |raws|
    ensures IsFirstBad(raws, n, Lines(START, raws[..n]).error)
  {
    hide BadLine, Lines, IsFirstBad;
    if n == 0 {
      NoLines(raws);
    } else {
      FirstBadUpTo(raws, n - 1);
      ErrorStep(raws, n - 1);
      FirstBadStep(raws, n - 1, Lines(START, raws[..n - 1]).error);
    }
  }

  lemma NoLines(raws: seq<string>)
    ensures IsFirstBad(raws, 0, Lines(START, raws[..0]).error)
  {
  }

  // ----- lines of a file -----

  /** Where the line that starts at from ends, its line end included. */
  function LineEnd(s: string, from: nat): (i: nat)
    requires from <= |s|
    ensures from <= i <= |s| && (from < |s| ==> i > from)
    decreases |s| - from
  {
    if from == |s| then from
    else if s[from] == '\n' then from + 1
    else LineEnd(s, from + 1)
  }

  /** The lines of a file, each with its line end. */
  function FileLines(s: string, from: nat): seq<string>
    requires from <= |s|
    decreases |s| - from
  {
    if from == |s| then [] else [s[from..LineEnd(s, from)]] + FileLines(s, LineEnd(s, from))
  }

  /** Every line, with its line end, fits the line buffer. */
  predicate ShortLines(lines: seq<string>) {
    forall i :: 0 <= i < |lines| ==> |lines[i]| < 4096
  }

  /** fgets stops at the end of the line or when its room is used up. */
  lemma {:induction false} ChunkEndIs(s: string, from: nat, room: nat)
    requires from <= |s|
    ensures ChunkEnd(s, from, room) == if LineEnd(s, from) - from <= room then LineEnd(s, from) else from + room
    decreases |s| - from
  {
    if from < |s| && s[from] != '\n' && room > 0 {
      ChunkEndIs(s, from + 1, room - 1);
    }
  }

  /** fgets delivers the lines of the file if and only if every line is shorter than its buffer. */
  lemma {:induction false} ChunksAreFileLines(s: string, from: nat)
    requires from <= |s|
    ensures Chunks(s, from) == FileLines(s, from) <==> ShortLines(FileLines(s, from))
    decreases |s| - from
  {
    hide ShortLines;
    if from == |s| {
      NoLinesAreShort();
    } else {
      var end := LineEnd(s, from);
      var rest := FileLines(s, end);
      ChunkEndIs(s, from, INI_MAX_LINE - 1);
      ChunksAreFileLines(s, end);
      ShortCons(s[from..end], rest);
      var i := ChunkEnd(s, from, INI_MAX_LINE - 1);
      if i == end {
        assert FileLines(s, from)[1..] == rest && Chunks(s, from)[1..] == Chunks(s, end);
      } else {
        assert |Chunks(s, from)[0]| != |FileLines(s, from)[0]|;
      }
    }
  }

  lemma NoLinesAreShort()
    ensures ShortLines([])
  {
  }

  lemma ShortCons(line: string, rest: seq<string>)
    ensures ShortLines([line] + rest) <==> |line| < INI_MAX_LINE && ShortLines(rest)
  {
    var all := [line] + rest;
    if ShortLines(all) {
      assert all[0] == line;
      assert forall i :: 0 <= i < |rest| ==> rest[i] == all[i + 1];
    }
  }

  /**
   * If every line is shorter than the buffer, the result is 0 if no line of the file is
   * malformed, otherwise the number of the first one.
   */
  lemma ErrorIsFirstBadLine(text: string)
    requires ShortLines(FileLines(text, 0))
    ensures IsFirstBad(FileLines(text, 0), |FileLines(text, 0)|, Parse(text).error)
  {
    hide BadLine, Lines, IsFirstBad, Chunks, FileLines, ShortLines;
    var raws := FileLines(text, 0);
    ChunksAreFileLines(text, 0);
    FirstBadUpTo(raws, |raws|);
    assert raws[..|raws|] == raws;
  }

  /** For any text the result is the number of the first malformed piece that fgets delivers. */
  lemma ErrorIsFirstBadPiece(text: string)
    ensures IsFirstBad(Chunks(text, 0), |Chunks(text, 0)|, Parse(text).error)
  {
    hide BadLine, Lines, IsFirstBad, Chunks;
    var raws := Chunks(text, 0);
    FirstBadUpTo(raws, |raws|);
    assert raws[..|raws|] == raws;
  }

  // ----- when the number is a line number -----

  /** How many lines end in a text. */
  function LineEnds(s: string): nat {
    if s == "" then 0 else LineEnds(s[..|s| - 1]) + if s[|s| - 1] == '\n' then 1 else 0
  }

  function Joined(raws: seq<string>): string {
    if raws == [] then "" else raws[0] + Joined(raws[1..])
  }

  predicate EndsLine(raw: string) {
    raw != "" && raw[|raw| - 1] == '\n'
  }

  /** Each of the first n pieces ends a line. */
  predicate AllEndLines(raws: seq<string>, n: nat)
    requires n <= |raws|
  {
    forall k :: 0 <= k < n ==> EndsLine(raws[k])
  }

  /** A line end can only be the last character of a piece. */
  predicate OneLineEach(raws: seq<string>) {
    forall k :: 0 <= k < |raws| ==> LineEnds(raws[k]) == if EndsLine(raws[k]) then 1 else 0
  }

  lemma {:induction false} LineEndsJoin(a: string, b: string)
    ensures LineEnds(a + b) == LineEnds(a) + LineEnds(b)
    decreases |b|
  {
    if b == "" {
      assert a + b == a;
    } else {
      assert (a + b)[..|a + b| - 1] == a + b[..|b| - 1];
      LineEndsJoin(a, b[..|b| - 1]);
    }
  }

  lemma {:induction false} NoLineEnds(s: string)
    requires '\n' !in s
    ensures LineEnds(s) == 0
  {
    if s != "" {
      NoLineEnds(s[..|s| - 1]);
    }
  }

  lemma {:induction false} JoinedSnoc(raws: seq<string>)
    requires raws != []
    ensures Joined(raws) == Joined(raws[..|raws| - 1]) + raws[|raws| - 1]
  {
    if |raws| > 1 {
      JoinedSnoc(raws[1..]);
      assert raws[..|raws| - 1][1..] == raws[1..][..|raws| - 2];
    } else {
      assert raws[1..] == [] && raws[..0] == [];
    }
  }

  lemma OneMoreEnded(raws: seq<string>, n: nat)
    requires 0 < n <= |raws| && OneLineEach(raws)
    ensures AllEndLines(raws, n) <==> AllEndLines(raws, n - 1) && EndsLine(raws[n - 1])
    ensures LineEnds(raws[n - 1]) == if EndsLine(raws[n - 1]) then 1 else 0
    ensures Joined(raws[..n]) == Joined(raws[..n - 1]) + raws[n - 1]
  {
    hide EndsLine, Joined, LineEnds;
    assert raws[..n][..n - 1] == raws[..n - 1] && raws[..n][n - 1] == raws[n - 1];
    JoinedSnoc(raws[..n]);
  }

  /** The first n pieces end n lines exactly if each of them ends one. */
  lemma {:induction false} LinesEnded(raws: seq<string>, n: nat)
    requires n <= |raws| && OneLineEach(raws)
    ensures LineEnds(Joined(raws[..n])) <= n
    ensures LineEnds(Joined(raws[..n])) == n <==> AllEndLines(raws, n)
  {
    if n == 0 {
      assert raws[..0] == [];
    } else {
      hide EndsLine, Joined, LineEnds, AllEndLines, OneLineEach;
      LinesEnded(raws, n - 1);
      OneMoreEnded(raws, n);
      LineEndsJoin(Joined(raws[..n - 1]), raws[n - 1]);
    }
  }

  lemma {:induction false} NoEndInside(s: string, from: nat, room: nat)
    requires from <= |s| && 0 < room
    ensures var i := ChunkEnd(s, from, room); forall j :: from <= j < i - 1 ==> s[j] != '\n'
    decreases room
  {
    if from < |s| && s[from] != '\n' && room > 1 {
      NoEndInside(s, from + 1, room - 1);
    }
  }

  lemma {:induction false} PiecesAre(s: string, from: nat)
    requires from <= |s|
    ensures OneLineEach(Chunks(s, from))
    ensures forall k :: 0 <= k < |Chunks(s, from)| ==> Chunks(s, from)[k] != ""
    ensures Joined(Chunks(s, from)) == s[from..]
    decreases |s| - from
  {
    hide OneLineEach, ChunkEnd;
    if from == |s| {
      NoPieces();
    } else {
      var i := ChunkEnd(s, from, INI_MAX_LINE - 1);
      PiecesAre(s, i);
      NoEndInside(s, from, INI_MAX_LINE - 1);
      OnePiece(s[from..i], Chunks(s, i));
      assert ([s[from..i]] + Chunks(s, i))[1..] == Chunks(s, i);
      assert s[from..] == s[from..i] + s[i..];
    }
  }

  lemma NoPieces()
    ensures OneLineEach([])
  {
  }

  lemma OnePiece(raw: string, rest: seq<string>)
    requires raw != "" && OneLineEach(rest) && forall j :: 0 <= j < |raw| - 1 ==> raw[j] != '\n'
    ensures OneLineEach([raw] + rest)
  {
    NoLineEnds(raw[..|raw| - 1]);
    assert forall k :: 0 < k < |rest| + 1 ==> ([raw] + rest)[k] == rest[k - 1];
  }

  lemma {:induction false} LineEndIs(s: string, from: nat)
    requires from < |s|
    ensures var e := LineEnd(s, from);
      (e == |s| || s[e - 1] == '\n') && forall j :: from <= j < e - 1 ==> s[j] != '\n'
    decreases |s| - from
  {
    if s[from] != '\n' && from + 1 < |s| {
      LineEndIs(s, from + 1);
    }
  }

  lemma AllEndCons(raw: string, rest: seq<string>, n: nat)
    requires 0 < n <= |rest| + 1
    ensures AllEndLines([raw] + rest, n) <==> EndsLine(raw) && AllEndLines(rest, n - 1)
  {
    hide EndsLine;
    var all := [raw] + rest;
    if AllEndLines(all, n) {
      assert EndsLine(all[0]);
      assert forall k :: 0 <= k < n - 1 ==> rest[k] == all[k + 1];
    }
  }

  lemma ShortFirst(line: string, rest: seq<string>, n: nat)
    requires 0 < n <= |rest| + 1
    ensures ShortLines(([line] + rest)[..n]) <==> |line| < INI_MAX_LINE && ShortLines(rest[..n - 1])
  {
    assert ([line] + rest)[..n] == [line] + rest[..n - 1];
    ShortCons(line, rest[..n - 1]);
  }

  /** A piece that is not the last ends a line exactly if it is a whole line, which then is short. */
  lemma PieceEndsLine(s: string, from: nat)
    requires from < |s| && ChunkEnd(s, from, INI_MAX_LINE - 1) < |s|
    ensures var i, e := ChunkEnd(s, from, INI_MAX_LINE - 1), LineEnd(s, from);
      && (EndsLine(s[from..i]) <==> e - from < INI_MAX_LINE)
      && (e - from < INI_MAX_LINE ==> i == e)
  {
    ChunkEndIs(s, from, INI_MAX_LINE - 1);
    LineEndIs(s, from);
  }

  /** The first n of more pieces end lines exactly if they are the first n lines, all short. */
  lemma {:induction false} PiecesAreLines(s: string, from: nat, n: nat)
    requires from <= |s| && n < |Chunks(s, from)|
    ensures AllEndLines(Chunks(s, from), n)
       <==> n < |FileLines(s, from)| && ShortLines(FileLines(s, from)[..n])
    decreases |s| - from
  {
    if n == 0 {
      assert FileLines(s, from)[..0] == [];
    } else {
      hide ShortLines, AllEndLines, EndsLine, LineEnd, ChunkEnd;
      var i, e := ChunkEnd(s, from, INI_MAX_LINE - 1), LineEnd(s, from);
      assert Chunks(s, from) == [s[from..i]] + Chunks(s, i);
      assert FileLines(s, from) == [s[from..e]] + FileLines(s, e);
      PieceEndsLine(s, from);
      AllEndCons(s[from..i], Chunks(s, i), n);
      if n <= |FileLines(s, e)| + 1 {
        ShortFirst(s[from..e], FileLines(s, e), n);
      }
      if e - from < INI_MAX_LINE {
        PiecesAreLines(s, i, n - 1);
      }
    }
  }

  /**
   * If the result is not 0, the first malformed piece is number `error`. That is the number of
   * the line the piece is in (one more than there are line ends in front of it, and the piece
   * begins that line) if and only if every line in front of it is shorter than the buffer.
   */
  lemma ErrorIsLineNumberIff(text: string)
    requires Parse(text).error > 0
    ensures var raws, lines, e := Chunks(text, 0), FileLines(text, 0), Parse(text).error;
      && e <= |raws| && BadLine(raws, e - 1) && NoneBad(raws, e - 1) && Joined(raws) == text
      && e >= 1 + LineEnds(Joined(raws[..e - 1]))
      && (e == 1 + LineEnds(Joined(raws[..e - 1])) <==> e <= |lines| && ShortLines(lines[..e - 1]))
  {
    hide BadLine, Lines, Chunks, FileLines, ShortLines, NoneBad, OneLineEach, AllEndLines, Joined, LineEnds;
    var raws, e := Chunks(text, 0), Parse(text).error;
    ErrorIsFirstBadPiece(text);
    PiecesAre(text, 0);
    assert text[0..] == text;
    LinesEnded(raws, e - 1);
    PiecesAreLines(text, 0, e - 1);
  }

  // ----- a long line -----

  /** A comment line of 4096 characters and its line end. */
  function LongComment(): string {
    ";" + seq(4095, _ => 'a') + "\n"
  }

  lemma {:induction false} LineEndAt(s: string, from: nat, n: nat)
    requires from <= n < |s| && s[n] == '\n' && forall i :: from <= i < n ==> s[i] != '\n'
    ensures LineEnd(s, from) == n + 1
    decreases n - from
  {
    if from < n {
      LineEndAt(s, from + 1, n);
    }
  }

  /**
   * A file that is one comment line of two characters more than the buffer holds, its line end
   * included, is reported as malformed in a line 2 that it does not have.
   */
  lemma LongCommentIsAnError()
    ensures var s := LongComment();
      && FileLines(s, 0) == [s] && NoneBad([s], 1)
      && Parse(s).error == 2
  {
    hide LongComment, FileLines, Chunks, NoneBad, Lines;
    var s := LongComment();
    LongCommentIsOneLine();
    var first, second := LongCommentPieces();
    TwoLines(first, second);
  }

  lemma LongCommentIsOneLine()
    ensures FileLines(LongComment(), 0) == [LongComment()] && NoneBad([LongComment()], 1)
  {
    hide ClassifyRaw;
    var s := LongComment();
    LineEndAt(s, 0, |s| - 1);
    assert s[0..|s|] == s;
    assert FileLines(s, |s|) == [];
    var none: seq<string> := [];
    assert [s][..0] == none;
    NothingBefore();
    CommentIsBlank(s, true, "");
  }

  lemma LongCommentPieces() returns (first: string, second: string)
    ensures Chunks(LongComment(), 0) == [first, second]
    ensures first != "" && first[0] == ';' && second == "a\n"
  {
    var s := LongComment();
    var room := INI_MAX_LINE - 1;
    LineEndAt(s, 0, |s| - 1);
    LineEndAt(s, room, |s| - 1);
    ChunkEndIs(s, 0, room);
    ChunkEndIs(s, room, room);
    first, second := s[0..room], s[room..|s|];
    hide ChunkEnd, LineEnd, Chunks, LongComment;
    LastPieces(s, room, first, second);
  }

  lemma LastPieces(s: string, at: nat, first: string, second: string)
    requires 0 < at < |s| && ChunkEnd(s, 0, INI_MAX_LINE - 1) == at && ChunkEnd(s, at, INI_MAX_LINE - 1) == |s|
    requires first == s[0..at] && second == s[at..|s|]
    ensures Chunks(s, 0) == [first, second]
  {
    hide ChunkEnd;
    assert Chunks(s, |s|) == [];
    assert Chunks(s, at) == [second];
  }

  lemma NothingBefore()
    ensures Lines(START, []) == START
  {
  }

  /** A line that begins with a semicolon is a comment wherever it stands. */
  lemma CommentIsBlank(s: string, first: bool, prevName: string)
    requires s != "" && s[0] == ';'
    ensures ClassifyRaw(s, first, prevName) == Blank
  {
    var r := Rstrip(s);
    assert !IsSpace(s[0]);
    assert |r| > 0;
    assert r[0] == ';' && Spaces(r) == 0;
  }

  lemma TwoLines(first: string, second: string)
    requires first != "" && first[0] == ';' && second == "a\n"
    ensures Lines(START, [first, second]).error == 2
  {
    hide Rstrip, ClassifyRaw;
    assert [first, second][..1] == [first] && [first][..0] == [];
    NothingBefore();
    CommentIsBlank(first, true, "");
    LoneLetter();
  }

  lemma LoneLetter()
    ensures ClassifyRaw("a\n", false, "") == Malformed
  {
    var raw, t := "a\n", "a";
    assert raw[..1] == t;
    assert Rstrip(t) == t && Rstrip(raw) == t;
    assert Spaces(t) == 0 && t[0..] == t;
    assert Find(t[1..], '=', false) == 0 && Find(t[1..], ':', false) == 0;
    assert Find(t, '=', false) == 1 && Find(t, ':', false) == 1;
  }

  // ----- what a malformed line does -----

  /** The same lines with every malformed one emptied. */
  function Blanked(raws: seq<string>): (r: seq<string>)
    ensures |r| == |raws|
  {
    if raws == [] then []
    else Blanked(raws[..|raws| - 1]) + [if BadLine(raws, |raws| - 1) then "" else raws[|raws| - 1]]
  }

  /** Nothing but the error number depends on the error number. */
  lemma {:induction false} ErrorsDoNotStop(st: State, raws: seq<string>)
    ensures Lines(st, raws).(error := 0) == Lines(st.(error := 0), raws).(error := 0)
  {
    hide ClassifyRaw, Truncated, Handle;
    if raws != [] {
      ErrorsDoNotStop(st, raws[..|raws| - 1]);
    }
  }

  /**
   * Malformed lines have no effect but the error number: with all of them emptied the file
   * parses to the same sections, names, values and line count, without an error. So every
   * later line is handled as if there had been none.
   */
  lemma {:induction false} MalformedLinesAreEmpty(raws: seq<string>)
    ensures Lines(START, Blanked(raws)) == Lines(START, raws).(error := 0)
  {
    if raws != [] {
      hide ClassifyRaw, Truncated, Handle, BadLine, Lines, OneLine;
      var last := |raws| - 1;
      MalformedLinesAreEmpty(raws[..last]);
      assert Blanked(raws)[..last] == Blanked(raws[..last]);
      LastLine(raws);
      LastLine(Blanked(raws));
      CountsLines(raws[..last]);
      OneLineBlanked(Lines(START, raws[..last]), raws, last);
    } else {
      NothingBefore();
    }
  }

  lemma LastLine(raws: seq<string>)
    requires raws != []
    ensures Lines(START, raws) == OneLine(Lines(START, raws[..|raws| - 1]), raws[|raws| - 1])
  {
    hide OneLine;
  }

  lemma OneLineBlanked(st: State, raws: seq<string>, k: nat)
    requires k < |raws| && st == Lines(START, raws[..k]) && st.lineno == k
    ensures OneLine(st.(error := 0), if BadLine(raws, k) then "" else raws[k]) == OneLine(st, raws[k]).(error := 0)
  {
    hide Truncated, Handle, Lines;
    EmptyIsBlank(k == 0, st.prevName);
  }

  lemma EmptyIsBlank(first: bool, prevName: string)
    ensures ClassifyRaw("", first, prevName) == Blank
  {
  }
}
