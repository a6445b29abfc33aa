// The model file: written by SyncToRedis (src/core/ps_server.cpp), read by LoadModel
// (src/core/learner.cpp). The writer appends to its file; here the file starts empty.
module Checkpoint {
  import opened Wrappers
  import opened KvData
  import opened StringUtil
  import opened Decimal

  /** Rows are counted from 1 and the loop ends after row 10000001. */
  const ROW_LIMIT := 10000001

  /** What printf rounds a magnitude to, in units of the eighth decimal. */
  ghost predicate IsRounding(round: real -> nat) {
    forall x: real {:trigger round(x)} :: x >= 0.0 ==>
      -0.5 <= round(x) as real - x * 100000000.0 <= 0.5
  }

  function Magnitude(w: real): real { if w < 0.0 then -w else w }

  /** The weight that is read back for w. */
  function Rounded(round: real -> nat, w: real): real {
    ScaledReal(w < 0.0, round(Magnitude(w)))
  }

  lemma RoundedIsNear(round: real -> nat, w: real)
    requires IsRounding(round)
    ensures -0.000000005 <= Rounded(round, w) - w <= 0.000000005
  {
    var m := round(Magnitude(w)) as real;
    assert m / SCALE as real * SCALE as real == m;
  }

  function Row(round: real -> nat, k: Key, w: real): string {
    Digits(k) + "," + Fixed(w < 0.0, round(Magnitude(w)))
  }

  function RowsOf(round: real -> nat, keys: seq<Key>, data: map<Key, real>): (r: seq<string>)
    requires forall k :: k in keys ==> k in data
    ensures |r| == |keys| && forall i :: 0 <= i < |r| ==> r[i] == Row(round, keys[i], data[keys[i]])
  {
    seq(|keys|, i requires 0 <= i < |keys| => Row(round, keys[i], data[keys[i]]))
  }

  function Text(rows: seq<string>): string {
    if rows == [] then "" else Text(rows[..|rows| - 1]) + rows[|rows| - 1] + "\n"
  }

  function Capped(keys: seq<Key>): seq<Key> {
    if |keys| <= ROW_LIMIT then keys else keys[..ROW_LIMIT]
  }

  /** keys lists the map's keys as std::map orders them. */
  ghost predicate Ordered(keys: seq<Key>, data: map<Key, real>) {
    Increasing(keys) && forall k :: k in keys <==> k in data
  }

  /** The dump loop. */
  method Dump(round: real -> nat, keys: seq<Key>, data: map<Key, real>) returns (file: string)
    requires Ordered(keys, data)
    ensures file == Text(RowsOf(round, Capped(keys), data))
  {
    hide Row;
    file := "";
    var i := 1;
    for n := 0 to |keys|
      invariant i == n + 1 <= ROW_LIMIT + 1 && n < ROW_LIMIT + 1
      invariant i <= ROW_LIMIT
      invariant file == Text(RowsOf(round, keys[..n], data))
    {
      var keyid := keys[n];
      TextSnoc(round, keys, data, n);
      file := file + Row(round, keyid, data[keyid]) + "\n";
      if i > 10000000 {
        assert keys[..n + 1] == Capped(keys);
        return;
      }
      i := i + 1;
    }
    assert keys[..|keys|] == keys;
  }

  lemma TextSnoc(round: real -> nat, keys: seq<Key>, data: map<Key, real>, n: nat)
    requires n < |keys| && forall k :: k in keys ==> k in data
    ensures Text(RowsOf(round, keys[..n + 1], data))
         == Text(RowsOf(round, keys[..n], data)) + Row(round, keys[n], data[keys[n]]) + "\n"
  {
    hide Row;
    var rows := RowsOf(round, keys[..n + 1], data);
    assert rows[..n] == RowsOf(round, keys[..n], data);
  }

  // ----- reading -----

  /** isUInt64 and isFloat: boost::trim, then boost::lexical_cast; None where they return false. */
  datatype Readers = Readers(key: string -> Option<Key>, weight: string -> Option<real>)

  /** They read back what was printed, whatever else they accept. */
  ghost predicate ReadsPrinted(read: Readers) {
    && (forall k: Key {:trigger Digits(k)} :: read.key(Digits(k)) == Some(k))
    && forall negative: bool, mag: nat {:trigger Fixed(negative, mag)} ::
      read.weight(Fixed(negative, mag)) == Some(ScaledReal(negative, mag))
  }

  function DecimalReaders(): Readers {
    Readers(s => ReadNat(s, KEY_LIMIT), s => ReadFixed(s))
  }

  /** Plain decimal reading does. */
  lemma DecimalReadsPrinted()
    ensures ReadsPrinted(DecimalReaders())
  {
    hide Digits, Fixed, ReadFixed, ScaledReal;
    forall k: Key
      ensures DecimalReaders().key(Digits(k)) == Some(k)
    {
      ValueOfDigits(k);
    }
    forall negative: bool, mag: nat
      ensures DecimalReaders().weight(Fixed(negative, mag)) == Some(ScaledReal(negative, mag))
    {
      ReadsWhatIsPrinted(negative, mag);
    }
  }

  /** getline until the end of the file. */
  function LinesFrom(s: string, from: nat): seq<string>
    requires from <= |s|
    decreases |s| - from
  {
    if from == |s| then []
    else
      var i := FindFrom(s, '\n', from);
      if i == |s| then [s[from..]] else [s[from..i]] + LinesFrom(s, i + 1)
  }

  /** One pass of the loop: the first line is always the bias, whatever its key says. */
  function LoadLine(read: Readers, W: map<Key, real>, cntt: nat, line: string): map<Key, real> {
    var tmp := Split(line, ',');
    if |tmp| < 2 then W
    else if cntt == 1 then W[0 := ReadOr(read, tmp[1], 0.0)]
    else if |tmp| == 2 && read.key(tmp[0]).Some? && read.weight(tmp[1]).Some? then
      W[read.key(tmp[0]).value := read.weight(tmp[1]).value]
    else W
  }

  function ReadOr(read: Readers, s: string, default: real): real {
    match read.weight(s) case Some(w) => w case None => default
  }

  function Load(read: Readers, lines: seq<string>): map<Key, real> {
    if lines == [] then map[] else LoadLine(read, Load(read, lines[..|lines| - 1]), |lines|, lines[|lines| - 1])
  }

  method LoadModel(read: Readers, file: string) returns (W: map<Key, real>)
    ensures W == Load(read, LinesFrom(file, 0))
  {
    hide LoadLine, Load, LinesFrom;
    W := map[];
    var cntt, at := 0, 0;
    ghost var done: seq<string> := [];
    LoadNothing(read);
    while at < |file|
      invariant at <= |file| && cntt == |done|
      invariant LinesFrom(file, 0) == done + LinesFrom(file, at)
      invariant W == Load(read, done)
      decreases |file| - at
    {
      var i := FindFrom(file, '\n', at);
      var line := file[at..i];
      LineStep(file, at);
      LoadSnoc(read, done, line);
      Regroup(done, line, LinesFrom(file, if i == |file| then i else i + 1));
      cntt := cntt + 1;
      W := LoadLine(read, W, cntt, line);
      done := done + [line];
      at := if i == |file| then i else i + 1;
    }
    NoLinesLeft(file);
    assert done + [] == done;
  }

  lemma LineStep(s: string, at: nat)
    requires at < |s|
    ensures var i := FindFrom(s, '\n', at);
      LinesFrom(s, at) == [s[at..i]] + LinesFrom(s, if i == |s| then i else i + 1)
  {
    NoLinesLeft(s);
    assert s[at..|s|] == s[at..];
    assert [s[at..]] + [] == [s[at..]];
  }

  lemma NoLinesLeft(s: string)
    ensures LinesFrom(s, |s|) == []
  {
  }

  lemma LoadNothing(read: Readers)
    ensures Load(read, []) == map[]
  {
  }

  lemma LoadSnoc(read: Readers, lines: seq<string>, line: string)
    ensures Load(read, lines + [line]) == LoadLine(read, Load(read, lines), |lines| + 1, line)
  {
    hide LoadLine;
    assert (lines + [line])[..|lines|] == lines;
  }

  /**
   * What a line does, by its fields: fewer than two are skipped; of the first line the second field
   * is the bias, 0 if it is no number; any other line counts if it has two fields, both numbers.
   */
  lemma LineLoads(read: Readers, W: map<Key, real>, cntt: nat, fields: seq<string>)
    requires fields != [] && NoneHas(fields, ',') && NoneHasBlanks(fields)
    ensures LoadLine(read, W, cntt, Join(fields, ','))
      == if |fields| == 1 then W
         else
           var weight := read.weight(fields[1]);
           if cntt == 1 then W[0 := if weight.Some? then weight.value else 0.0]
           else if |fields| == 2 && read.key(fields[0]).Some? && weight.Some? then
             W[read.key(fields[0]).value := weight.value]
           else W
  {
    hide Split, Join;
    SplitJoin(fields, ',');
  }

  /** A number in decimal, without leading zeros. */
  predicate IsDecimal(s: string, n: nat) {
    s != "" && AllDigits(s) && ValueOf(s) == n && (s[0] == '0' ==> |s| == 1)
  }

  /**
   * What a row looks like: the key in decimal, a comma, a minus sign if the weight is negative, the
   * whole part in decimal, a point, and eight digits, which together are the rounded magnitude.
   */
  lemma RowText(round: real -> nat, k: Key, w: real) returns (key: string, whole: string, part: string)
    ensures Row(round, k, w) == key + "," + (if w < 0.0 then "-" else "") + whole + "." + part
    ensures IsDecimal(key, k) && |part| == 8 && AllDigits(part)
    ensures AllDigits(whole) && IsDecimal(whole, ValueOf(whole))
    ensures ValueOf(whole) * 100000000 + ValueOf(part) == round(if w < 0.0 then -w else w)
  {
    hide Digits, Padded, ValueOf, AllDigits;
    var mag := round(Magnitude(w));
    key, whole, part := Digits(k), Digits(mag / SCALE), Padded(mag % SCALE, 8);
    DigitsAre(k);
    DigitsAre(mag / SCALE);
    EightDigits();
    PaddedAre(mag % SCALE);
    var sign := if w < 0.0 then "-" else "";
    assert key + "," + (sign + (whole + "." + part)) == key + "," + sign + whole + "." + part;
  }

  lemma {:induction false} DigitsAre(n: nat)
    ensures IsDecimal(Digits(n), n)
    ensures n > 0 ==> Digits(n)[0] != '0'
  {
    ValueOfDigits(n);
    if n >= 10 {
      DigitsAre(n / 10);
      assert Digits(n)[0] == Digits(n / 10)[0];
    }
  }

  lemma PaddedAre(n: nat)
    requires n < 100000000 == Power10(8)
    ensures AllDigits(Padded(n, 8)) && ValueOf(Padded(n, 8)) == n
  {
    ValueOfPadded(n, 8);
  }

  /** Digits count in tens from the right. */
  lemma ValueIs()
    ensures ValueOf("") == 0 && ValueOf("7") == 7 && ValueOf("907") == 907
  {
    assert "907"[..2] == "90" && "90"[..1] == "9" && "9"[..0] == "";
    assert ValueOf("9") == 9 && ValueOf("90") == 90;
  }

  // ----- the round trip -----

  /** A row comes apart into its key and its weight. */
  lemma RowSplits(read: Readers, round: real -> nat, k: Key, w: real)
    requires ReadsPrinted(read)
    ensures var tmp := Split(Row(round, k, w), ',');
      && tmp == [Digits(k), Fixed(w < 0.0, round(Magnitude(w)))]
      && read.key(tmp[0]) == Some(k)
      && read.weight(tmp[1]) == Some(Rounded(round, w))
  {
    hide Digits, Fixed, ScaledReal, Trimmed, Pieces;
    var a, b := Digits(k), Fixed(w < 0.0, round(Magnitude(w)));
    PrintedIsPlain(k, w < 0.0, round(Magnitude(w)));
    SplitTwo(a, b, ',');
    TrimmedIs(a);
    TrimmedIs(b);
  }

  predicate LineFree(s: string) {
    forall i :: 0 <= i < |s| ==> s[i] != '\n'
  }

  lemma RowIsLineFree(round: real -> nat, k: Key, w: real)
    ensures LineFree(Row(round, k, w))
  {
    hide Digits, Fixed;
    PrintedIsPlain(k, w < 0.0, round(Magnitude(w)));
  }

  /** Reading from the start of a line: that line, then what follows. */
  lemma NextLine(s: string, from: nat, line: string)
    requires LineFree(line) && from + |line| < |s| && s[from..from + |line|] == line && s[from + |line|] == '\n'
    ensures LinesFrom(s, from) == [line] + LinesFrom(s, from + |line| + 1)
  {
    forall j | from <= j < from + |line|
      ensures s[j] != '\n'
    {
      assert s[j] == line[j - from];
    }
    FindIs(s, '\n', from, from + |line|);
  }

  /** The file's lines are the rows that were written. */
  lemma {:induction false} LinesOfText(rows: seq<string>, n: nat)
    requires n <= |rows| && forall i :: 0 <= i < |rows| ==> LineFree(rows[i])
    ensures |Text(rows[..n])| <= |Text(rows)|
    ensures LinesFrom(Text(rows), |Text(rows[..n])|) == rows[n..]
    decreases |rows| - n
  {
    hide Text, LinesFrom, LineFree;
    if n == |rows| {
      assert rows[..n] == rows;
      NoLinesLeft(Text(rows));
    } else {
      LinesOfText(rows, n + 1);
      TextPrefix(rows, n);
      NextLine(Text(rows), |Text(rows[..n])|, rows[n]);
      assert rows[n..] == [rows[n]] + rows[n + 1..];
    }
  }

  lemma {:induction false} TextGrows(rows: seq<string>, n: nat)
    requires n <= |rows|
    ensures Text(rows[..n]) <= Text(rows)
    decreases |rows| - n
  {
    if n == |rows| {
      assert rows[..n] == rows;
    } else {
      TextGrows(rows, n + 1);
      assert rows[..n + 1][..n] == rows[..n];
    }
  }

  lemma TextPrefix(rows: seq<string>, n: nat)
    requires n < |rows|
    ensures var at := |Text(rows[..n])|;
      && at + |rows[n]| < |Text(rows)|
      && Text(rows)[at..at + |rows[n]|] == rows[n] && Text(rows)[at + |rows[n]|] == '\n'
      && |Text(rows[..n + 1])| == at + |rows[n]| + 1
  {
    assert rows[..n + 1][..n] == rows[..n];
    TextGrows(rows, n + 1);
    var at, part := |Text(rows[..n])|, Text(rows[..n + 1]);
    assert part == Text(rows)[..|part|];
    assert part[at..at + |rows[n]|] == rows[n];
  }

  /** What is read from the rows of an ordered key list. */
  lemma {:induction false} LoadRows(read: Readers, round: real -> nat, keys: seq<Key>, data: map<Key, real>, n: nat)
    requires ReadsPrinted(read)
    requires Increasing(keys) && (forall k :: k in keys ==> k in data) && 0 < n <= |keys|
    ensures var W := Load(read, RowsOf(round, keys, data)[..n]);
      && (forall k :: k in W <==> k == 0 || k in keys[1..n])
      && W[0] == Rounded(round, data[keys[0]])
      && forall k :: k in keys[1..n] ==> W[k] == Rounded(round, data[k])
    decreases n
  {
    hide Row, LoadLine, Rounded, RowsOf, Load, ReadsPrinted;
    OneMoreRow(read, round, keys, data, n);
    if n > 1 {
      LoadRows(read, round, keys, data, n - 1);
      assert keys[1..n] == keys[1..n - 1] + [keys[n - 1]];
      assert keys[n - 1] > keys[0];
    }
  }

  lemma OneMoreRow(read: Readers, round: real -> nat, keys: seq<Key>, data: map<Key, real>, n: nat)
    requires ReadsPrinted(read)
    requires (forall k :: k in keys ==> k in data) && 0 < n <= |keys|
    ensures var rows := RowsOf(round, keys, data); var last := keys[n - 1];
      && (n == 1 ==> Load(read, rows[..n]) == map[0 := Rounded(round, data[last])])
      && (n > 1 ==> Load(read, rows[..n]) == Load(read, rows[..n - 1])[last := Rounded(round, data[last])])
  {
    hide Row, LoadLine, Rounded, ReadsPrinted;
    var rows := RowsOf(round, keys, data);
    assert rows[..n][..n - 1] == rows[..n - 1];
    RowLoads(read, round, Load(read, rows[..n - 1]), n, keys[n - 1], data[keys[n - 1]]);
  }

  lemma RowLoads(read: Readers, round: real -> nat, W: map<Key, real>, n: nat, k: Key, w: real)
    requires ReadsPrinted(read)
    ensures LoadLine(read, W, n, Row(round, k, w)) == W[if n == 1 then 0 else k := Rounded(round, w)]
  {
    hide Row, Split, Rounded;
    RowSplits(read, round, k, w);
  }

  /** What should come back: the dumped keys with their rounded weights. */
  function Expected(round: real -> nat, keys: seq<Key>, data: map<Key, real>): map<Key, real>
    requires forall k :: k in keys ==> k in data
  {
    map k | k in keys :: Rounded(round, data[k])
  }

  /**
   * Reading a dump gives back the dumped keys with their weights rounded to eight decimals if
   * and only if the map is empty or has the bias key 0.
   */
  lemma DumpThenLoad(read: Readers, round: real -> nat, keys: seq<Key>, data: map<Key, real>)
    requires ReadsPrinted(read)
    requires Ordered(keys, data)
    ensures Capped(keys) == if |keys| <= 10000001 then keys else keys[..10000001]
    ensures forall k :: k in Capped(keys) ==> k in data
    ensures Load(read, LinesFrom(Text(RowsOf(round, Capped(keys), data)), 0)) == Expected(round, Capped(keys), data)
       <==> data == map[] || 0 in data
  {
    hide Row, Text, LoadLine, Rounded, Load, Expected, LinesFrom;
    var capped := Capped(keys);
    CappedKeys(keys);
    var rows := RowsOf(round, capped, data);
    forall i | 0 <= i < |rows|
      ensures LineFree(rows[i])
    {
      RowIsLineFree(round, capped[i], data[capped[i]]);
    }
    LinesFromStart(rows);
    if keys == [] {
      EmptyDump(read, round, data);
      assert data.Keys == {};
    } else {
      assert keys[0] in data;
      ZeroFirst(keys, data);
      LoadsIff(read, round, capped, data);
    }
  }

  lemma LoadsIff(read: Readers, round: real -> nat, keys: seq<Key>, data: map<Key, real>)
    requires ReadsPrinted(read)
    requires Increasing(keys) && (forall k :: k in keys ==> k in data) && keys != []
    ensures Load(read, RowsOf(round, keys, data)) == Expected(round, keys, data) <==> keys[0] == 0
  {
    hide Row, LoadLine, Rounded, Load, RowsOf, Increasing, ReadsPrinted;
    var rows := RowsOf(round, keys, data);
    var W, E := Load(read, rows), Expected(round, keys, data);
    LoadRows(read, round, keys, data, |keys|);
    assert rows[..|rows|] == rows;
    FirstAndRest(keys);
    if keys[0] == 0 {
      assert W.Keys == E.Keys;
      assert forall k :: k in W ==> W[k] == E[k];
    } else {
      assert 0 in W && 0 !in E;
    }
  }

  lemma FirstAndRest(keys: seq<Key>)
    requires Increasing(keys) && keys != []
    ensures forall k :: k in keys <==> k == keys[0] || k in keys[1..|keys|]
    ensures keys[0] != 0 ==> 0 !in keys
  {
    assert keys == [keys[0]] + keys[1..|keys|];
  }

  lemma CappedKeys(keys: seq<Key>)
    requires Increasing(keys)
    ensures Increasing(Capped(keys)) && (keys != [] ==> Capped(keys) != [] && Capped(keys)[0] == keys[0])
    ensures forall k :: k in Capped(keys) ==> k in keys
  {
  }

  lemma ZeroFirst(keys: seq<Key>, data: map<Key, real>)
    requires Ordered(keys, data) && keys != []
    ensures 0 in data <==> keys[0] == 0
  {
    if 0 in data {
      var i :| 0 <= i < |keys| && keys[i] == 0;
    }
  }

  lemma LinesFromStart(rows: seq<string>)
    requires forall i :: 0 <= i < |rows| ==> LineFree(rows[i])
    ensures LinesFrom(Text(rows), 0) == rows
  {
    LinesOfText(rows, 0);
    assert rows[..0] == [] && rows[0..] == rows;
  }

  lemma EmptyDump(read: Readers, round: real -> nat, data: map<Key, real>)
    ensures Load(read, []) == Expected(round, [], data)
  {
  }

  /**
   * Appending a second dump to a file that has rows: its rows are all read by their keys, the
   * bias too, and replace what the first dump said.
   */
  lemma {:induction false} AppendedDump(read: Readers, round: real -> nat, first: seq<string>, keys: seq<Key>,
          data: map<Key, real>)
    requires ReadsPrinted(read)
    requires first != [] && forall k :: k in keys ==> k in data
    ensures Load(read, first + RowsOf(round, keys, data)) == Load(read, first) + Expected(round, keys, data)
    decreases |keys|
  {
    hide Row, LoadLine, Rounded, Load, Expected;
    if keys == [] {
      NothingExpected(round, data);
      assert first + RowsOf(round, keys, data) == first;
      assert Load(read, first) + Expected(round, keys, data) == Load(read, first);
    } else {
      var last := |keys| - 1;
      var k := keys[last];
      var rows := RowsOf(round, keys[..last], data);
      AppendedDump(read, round, first, keys[..last], data);
      assert first + RowsOf(round, keys, data) == (first + rows) + [Row(round, k, data[k])];
      LoadSnoc(read, first + rows, Row(round, k, data[k]));
      RowLoads(read, round, Load(read, first + rows), |first + rows| + 1, k, data[k]);
      ExpectedStep(round, keys, data);
    }
  }

  lemma NothingExpected(round: real -> nat, data: map<Key, real>)
    ensures Expected(round, [], data) == map[]
  {
  }

  lemma ExpectedStep(round: real -> nat, keys: seq<Key>, data: map<Key, real>)
    requires keys != [] && forall k :: k in keys ==> k in data
    ensures var last := |keys| - 1;
      Expected(round, keys, data) == Expected(round, keys[..last], data)[keys[last] := Rounded(round, data[keys[last]])]
  {
    hide Rounded;
    assert keys == keys[..|keys| - 1] + [keys[|keys| - 1]];
  }

  lemma {:induction false} TextJoins(a: seq<string>, b: seq<string>)
    ensures Text(a + b) == Text(a) + Text(b)
    decreases |b|
  {
    if b == [] {
      assert a + b == a;
    } else {
      hide Text;
      var front, r := b[..|b| - 1], b[|b| - 1];
      TextJoins(a, front);
      assert b == front + [r] && a + b == (a + front) + [r];
      TextStep(front, r);
      TextStep(a + front, r);
      assert (Text(a) + Text(front)) + (r + "\n") == Text(a) + (Text(front) + (r + "\n"));
    }
  }

  lemma TextStep(rows: seq<string>, r: string)
    ensures Text(rows + [r]) == Text(rows) + (r + "\n")
  {
    assert (rows + [r])[..|rows|] == rows;
  }

  /** So reading a model file with a second dump behind it gives the first model overridden by the second. */
  lemma AppendedFile(read: Readers, round: real -> nat, first: seq<string>, keys: seq<Key>, data: map<Key, real>)
    requires ReadsPrinted(read)
    requires first != [] && (forall k :: k in keys ==> k in data) && forall i :: 0 <= i < |first| ==> LineFree(first[i])
    ensures Load(read, LinesFrom(Text(first) + Text(RowsOf(round, keys, data)), 0))
         == Load(read, LinesFrom(Text(first), 0)) + Expected(round, keys, data)
  {
    hide Text, LinesFrom, Load, Expected, LineFree, Row;
    var rows := RowsOf(round, keys, data);
    forall i | 0 <= i < |first + rows|
      ensures LineFree((first + rows)[i])
    {
      if i >= |first| {
        RowIsLineFree(round, keys[i - |first|], data[keys[i - |first|]]);
      }
    }
    TextJoins(first, rows);
    LinesFromStart(first);
    LinesFromStart(first + rows);
    AppendedDump(read, round, first, keys, data);
  }
}
