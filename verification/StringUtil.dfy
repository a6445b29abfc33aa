// split, count, trim and last_state (src/utils/string_util.h).
module StringUtil {

  /** str.find_first_of(delim, from); |s| stands for npos. */
  function FindFrom(s: string, delim: char, from: nat): (i: nat)
    requires from <= |s|
    ensures from <= i <= |s|
    ensures i < |s| ==> s[i] == delim
    ensures forall j :: from <= j < i ==> s[j] != delim
    decreases |s| - from
  {
    if from == |s| || s[from] == delim then from else FindFrom(s, delim, from + 1)
  }

  /** The pieces between delimiters, untouched. */
  function PiecesFrom(s: string, delim: char, from: nat): (r: seq<string>)
    requires from <= |s|
    ensures |r| >= 1
    decreases |s| - from
  {
    var i := FindFrom(s, delim, from);
    if i == |s| then [s[from..]] else [s[from..i]] + PiecesFrom(s, delim, i + 1)
  }

  function Pieces(s: string, delim: char): (r: seq<string>)
    ensures |r| >= 1
  {
    PiecesFrom(s, delim, 0)
  }

  function Join(pieces: seq<string>, delim: char): string
    requires pieces != []
  {
    if |pieces| == 1 then pieces[0] else pieces[0] + [delim] + Join(pieces[1..], delim)
  }

  /** How often delim occurs at or behind position from. */
  function Occurrences(s: string, delim: char, from: nat): nat
    requires from <= |s|
    decreases |s| - from
  {
    if from == |s| then 0 else (if s[from] == delim then 1 else 0) + Occurrences(s, delim, from + 1)
  }

  // ----- trim -----

  function LeadingBlanks(s: string): (n: nat)
    ensures n <= |s| && (forall j :: 0 <= j < n ==> s[j] == ' ') && (n < |s| ==> s[n] != ' ')
  {
    if s == "" || s[0] != ' ' then 0 else 1 + LeadingBlanks(s[1..])
  }

  function WithoutTrailing(s: string): (r: string)
    ensures r <= s && (r != "" ==> r[|r| - 1] != ' ') && forall j :: |r| <= j < |s| ==> s[j] == ' '
  {
    if s == "" || s[|s| - 1] != ' ' then s else WithoutTrailing(s[..|s| - 1])
  }

  function Trimmed(s: string): string {
    WithoutTrailing(s[LeadingBlanks(s)..])
  }

  predicate NoBlanksAround(s: string) {
    s == "" || (s[0] != ' ' && s[|s| - 1] != ' ')
  }

  /** Trimming leaves a string without blanks around it, and only such strings are left alone. */
  lemma TrimmedIs(s: string)
    ensures NoBlanksAround(Trimmed(s))
    ensures Trimmed(s) == s <==> NoBlanksAround(s)
    ensures |Trimmed(s)| <= |s|
    ensures Trimmed(s) != s ==> |Trimmed(s)| < |s|
    ensures exists a: nat, b: nat ::
      a <= b <= |s| && Trimmed(s) == s[a..b] && forall j :: (0 <= j < a || b <= j < |s|) ==> s[j] == ' '
  {
    var n := LeadingBlanks(s);
    var rest := s[n..];
    var r := WithoutTrailing(rest);
    assert r == s[n..n + |r|];
    forall j | 0 <= j < n || n + |r| <= j < |s|
      ensures s[j] == ' '
    {
      if j >= n + |r| {
        assert s[j] == rest[j - n];
      }
    }
    if r != "" {
      assert r[0] == s[n];
    }
  }

  predicate NoneHasBlanks(pieces: seq<string>) {
    forall i :: 0 <= i < |pieces| ==> NoBlanksAround(pieces[i])
  }

  // ----- what split promises -----

  function AllTrimmed(pieces: seq<string>): (r: seq<string>)
    ensures |r| == |pieces| && forall i :: 0 <= i < |r| ==> r[i] == Trimmed(pieces[i])
  {
    seq(|pieces|, i requires 0 <= i < |pieces| => Trimmed(pieces[i]))
  }

  function Split(s: string, delim: char): (r: seq<string>)
    ensures |r| == |Pieces(s, delim)|
  {
    AllTrimmed(Pieces(s, delim))
  }

  lemma {:induction false} NoOccurrence(s: string, delim: char, from: nat, n: nat)
    requires from <= n <= |s| && forall j :: from <= j < n ==> s[j] != delim
    ensures Occurrences(s, delim, from) == Occurrences(s, delim, n)
    decreases n - from
  {
    if from < n {
      NoOccurrence(s, delim, from + 1, n);
    }
  }

  lemma {:induction false} PieceCountFrom(s: string, delim: char, from: nat)
    requires from <= |s|
    ensures |PiecesFrom(s, delim, from)| == Occurrences(s, delim, from) + 1
    decreases |s| - from
  {
    var i := FindFrom(s, delim, from);
    NoOccurrence(s, delim, from, i);
    if i < |s| {
      PieceCountFrom(s, delim, i + 1);
    }
  }

  /** One piece more than there are delimiters, also for the empty string. */
  lemma PieceCount(s: string, delim: char)
    ensures |Split(s, delim)| == Occurrences(s, delim, 0) + 1
  {
    PieceCountFrom(s, delim, 0);
  }

  lemma {:induction false} JoinPiecesFrom(s: string, delim: char, from: nat)
    requires from <= |s|
    ensures Join(PiecesFrom(s, delim, from), delim) == s[from..]
    decreases |s| - from
  {
    hide PiecesFrom, Join;
    var i := FindFrom(s, delim, from);
    NextPiece(s, delim, from);
    if i < |s| {
      JoinPiecesFrom(s, delim, i + 1);
      JoinCons(s[from..i], PiecesFrom(s, delim, i + 1), delim);
      Around(s, from, i);
    } else {
      JoinOne(s[from..], delim);
    }
  }

  lemma JoinOne(p: string, delim: char)
    ensures Join([p], delim) == p
  {
  }

  lemma Around(s: string, from: nat, i: nat)
    requires from <= i < |s|
    ensures s[from..] == s[from..i] + [s[i]] + s[i + 1..]
  {
  }

  lemma JoinCons(p: string, rest: seq<string>, delim: char)
    requires rest != []
    ensures Join([p] + rest, delim) == p + [delim] + Join(rest, delim)
  {
    assert ([p] + rest)[1..] == rest;
  }

  lemma {:induction false} JoinTrimmed(pieces: seq<string>, delim: char)
    requires pieces != []
    ensures |Join(AllTrimmed(pieces), delim)| <= |Join(pieces, delim)|
    ensures |Join(AllTrimmed(pieces), delim)| == |Join(pieces, delim)|
       <==> NoneHasBlanks(pieces)
    ensures NoneHasBlanks(pieces) ==> AllTrimmed(pieces) == pieces
  {
    hide Trimmed, NoBlanksAround;
    TrimmedIs(pieces[0]);
    if |pieces| > 1 {
      JoinTrimmed(pieces[1..], delim);
      assert AllTrimmed(pieces)[1..] == AllTrimmed(pieces[1..]);
      assert NoneHasBlanks(pieces) <==> NoBlanksAround(pieces[0]) && NoneHasBlanks(pieces[1..]);
    }
  }

  /**
   * Joining the pieces with the delimiter gives the string back if and only if no piece has
   * blanks around it.
   */
  lemma JoinSplit(s: string, delim: char)
    ensures Join(Split(s, delim), delim) == s
       <==> NoneHasBlanks(Pieces(s, delim))
  {
    hide PiecesFrom, Join, AllTrimmed, NoneHasBlanks;
    var pieces := Pieces(s, delim);
    JoinPiecesFrom(s, delim, 0);
    assert s[0..] == s;
    JoinTrimmed(pieces, delim);
  }

  predicate NoneHas(pieces: seq<string>, delim: char) {
    forall i :: 0 <= i < |pieces| ==> delim !in pieces[i]
  }

  lemma FirstPiece(s: string, delim: char, from: nat, p: string, rest: string)
    requires from <= |s| && delim !in p && s[from..] == p + [delim] + rest
    ensures var end := from + |p|;
      end < |s| && FindFrom(s, delim, from) == end && s[from..end] == p && s[end + 1..] == rest
  {
    var u, end := s[from..], from + |p|;
    assert |u| == |p| + 1 + |rest| && u[|p|] == delim == s[end];
    assert forall j :: from <= j < end ==> s[j] == u[j - from] == p[j - from];
    FindIs(s, delim, from, end);
    assert s[end + 1..] == u[|p| + 1..];
  }

  lemma LastPiece(s: string, delim: char, from: nat)
    requires from <= |s| && delim !in s[from..]
    ensures FindFrom(s, delim, from) == |s|
  {
    assert forall j :: from <= j < |s| ==> s[j] == s[from..][j - from];
    FindIs(s, delim, from, |s|);
  }

  /** Joined pieces without delimiters inside come apart again. */
  lemma {:induction false} JoinedComeApart(s: string, delim: char, from: nat, pieces: seq<string>)
    requires pieces != [] && NoneHas(pieces, delim) && from <= |s| && s[from..] == Join(pieces, delim)
    ensures PiecesFrom(s, delim, from) == pieces
    decreases |pieces|
  {
    if |pieces| == 1 {
      LastPiece(s, delim, from);
    } else {
      hide FindFrom, PiecesFrom;
      var p, rest := pieces[0], pieces[1..];
      FirstPiece(s, delim, from, p, Join(rest, delim));
      hide Join;
      JoinedComeApart(s, delim, from + |p| + 1, rest);
      NextPiece(s, delim, from);
      assert pieces == [p] + rest;
    }
  }

  lemma SplitTwo(a: string, b: string, delim: char)
    requires delim !in a && delim !in b
    ensures Pieces(a + [delim] + b, delim) == [a, b]
  {
    var s := a + [delim] + b;
    assert s[0..] == s && Join([a, b], delim) == s;
    JoinedComeApart(s, delim, 0, [a, b]);
  }

  lemma {:induction false} PiecesHaveNone(s: string, delim: char, from: nat)
    requires from <= |s|
    ensures NoneHas(PiecesFrom(s, delim, from), delim)
    decreases |s| - from
  {
    var i := FindFrom(s, delim, from);
    assert delim !in s[from..i];
    if i < |s| {
      PiecesHaveNone(s, delim, i + 1);
    } else {
      assert s[from..] == s[from..i];
    }
  }

  /** Pieces survive joining and splitting if and only if none holds a delimiter or outer blanks. */
  lemma SplitJoin(pieces: seq<string>, delim: char)
    requires pieces != []
    ensures Split(Join(pieces, delim), delim) == pieces <==> NoneHas(pieces, delim) && NoneHasBlanks(pieces)
  {
    hide Trimmed, NoBlanksAround, Join, PiecesFrom;
    var s := Join(pieces, delim);
    var raw := Pieces(s, delim);
    assert s[0..] == s;
    PiecesHaveNone(s, delim, 0);
    forall i | 0 <= i < |raw|
      ensures NoBlanksAround(Trimmed(raw[i])) && delim !in Trimmed(raw[i])
      ensures Trimmed(raw[i]) == raw[i] <==> NoBlanksAround(raw[i])
    {
      TrimmedIs(raw[i]);
    }
    if NoneHas(pieces, delim) {
      JoinedComeApart(s, delim, 0, pieces);
    }
  }

  lemma {:induction false} FindIs(s: string, delim: char, from: nat, n: nat)
    requires from <= n <= |s| && (n < |s| ==> s[n] == delim)
    requires forall j :: from <= j < n ==> s[j] != delim
    ensures FindFrom(s, delim, from) == n
    decreases n - from
  {
    if from < n {
      FindIs(s, delim, from + 1, n);
    }
  }

  // ----- the loops -----

  method Trim(s0: string) returns (s: string)
    ensures s == Trimmed(s0)
  {
    s := s0;
    if |s| == 0 {
      return;
    }
    var i := 0;
    while i < |s| && s[i] == ' '
      invariant i <= LeadingBlanks(s0)
    {
      i := i + 1;
    }
    s := s[i..];
    var n := TrailingStart(s);
    s := s[..n];
  }

  /** The second loop: where the trailing blanks begin. */
  method TrailingStart(s: string) returns (i: nat)
    ensures i <= |s| && s[..i] == WithoutTrailing(s)
  {
    i := |s|;
    assert s[..|s|] == s;
    while i > 0 && s[i - 1] == ' '
      invariant i <= |s| && WithoutTrailing(s[..i]) == WithoutTrailing(s)
    {
      assert s[..i][..i - 1] == s[..i - 1];
      i := i - 1;
    }
  }

  method Count(s: string, delim: char) returns (cnt: nat)
    ensures cnt == |Split(s, delim)|
  {
    cnt := 0;
    var last := 0;
    var index := FindFrom(s, delim, last);
    while index != |s|
      invariant last <= |s| && index == FindFrom(s, delim, last)
      invariant cnt + |PiecesFrom(s, delim, last)| == |Pieces(s, delim)|
      decreases |s| - last
    {
      last := index + 1;
      cnt := cnt + 1;
      index := FindFrom(s, delim, last);
    }
    // npos - last is never zero
    cnt := cnt + 1;
  }

  method SplitLoop(s: string, delim: char) returns (ret: seq<string>)
    ensures ret == Split(s, delim)
  {
    hide FindFrom, PiecesFrom, Trimmed, AllTrimmed;
    ret := [];
    var last := 0;
    var index := FindFrom(s, delim, last);
    while index != |s|
      invariant last <= |s| && index == FindFrom(s, delim, last)
      invariant ret + AllTrimmed(PiecesFrom(s, delim, last)) == Split(s, delim)
      decreases |s| - last
    {
      var tmp := Trim(s[last..index]);
      OnePieceMore(ret, s, delim, last);
      ret := ret + [tmp];
      last := index + 1;
      index := FindFrom(s, delim, last);
    }
    var tmp := Trim(s[last..]);
    NextPiece(s, delim, last);
    OneTrimmed(s[last..]);
    ret := ret + [tmp];
  }

  /** The loop's step: the piece up to the next delimiter moves to the result. */
  lemma OnePieceMore(ret: seq<string>, s: string, delim: char, last: nat)
    requires last <= |s| && FindFrom(s, delim, last) < |s|
    ensures var index := FindFrom(s, delim, last);
      ret + AllTrimmed(PiecesFrom(s, delim, last))
      == (ret + [Trimmed(s[last..index])]) + AllTrimmed(PiecesFrom(s, delim, index + 1))
  {
    hide FindFrom, PiecesFrom, Trimmed, AllTrimmed;
    var index := FindFrom(s, delim, last);
    NextPiece(s, delim, last);
    TrimmedCons(s[last..index], PiecesFrom(s, delim, index + 1));
    Regroup(ret, Trimmed(s[last..index]), AllTrimmed(PiecesFrom(s, delim, index + 1)));
  }

  lemma Regroup(a: seq<string>, p: string, b: seq<string>)
    ensures (a + [p]) + b == a + ([p] + b)
  {
  }

  lemma NextPiece(s: string, delim: char, last: nat)
    requires last <= |s|
    ensures var index := FindFrom(s, delim, last);
      PiecesFrom(s, delim, last)
      == if index == |s| then [s[last..]] else [s[last..index]] + PiecesFrom(s, delim, index + 1)
  {
  }

  lemma OneTrimmed(p: string)
    ensures AllTrimmed([p]) == [Trimmed(p)]
  {
  }

  lemma TrimmedCons(p: string, rest: seq<string>)
    ensures AllTrimmed([p] + rest) == [Trimmed(p)] + AllTrimmed(rest)
  {
  }

  /** Where the part behind the last tab begins. */
  function LastField(s: string): (n: nat)
    ensures n <= |s| && (n > 0 ==> s[n - 1] == '\t') && forall j :: n <= j < |s| ==> s[j] != '\t'
  {
    if s == "" || s[|s| - 1] == '\t' then |s| else LastField(s[..|s| - 1])
  }

  function AfterLastTab(s: string): string {
    s[LastField(s)..]
  }

  method LastState(s: string) returns (r: string)
    ensures r == AfterLastTab(s)
    ensures exists i :: 0 <= i <= |s| && r == s[i..] && (i > 0 ==> s[i - 1] == '\t') && '\t' !in r
  {
    var idx := |s|;
    while idx > 0 && s[idx - 1] != '\t'
      invariant 0 <= idx <= |s| && forall j :: idx <= j < |s| ==> s[j] != '\t'
    {
      idx := idx - 1;
    }
    assert idx == LastField(s);
    r := s[idx..];
  }
}
