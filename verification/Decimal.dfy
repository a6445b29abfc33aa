// Decimal text: printing a key with operator<< and a weight with "%.8f", and plain decimal
// reading of what was printed.
module Decimal {
  import opened Wrappers

  function DigitChar(d: nat): (c: char)
    requires d < 10
    ensures '0' <= c <= '9'
  {
    '0' + d as char
  }

  predicate IsDigit(c: char) { '0' <= c <= '9' }

  function DigitValue(c: char): (d: nat)
    requires IsDigit(c)
    ensures d < 10
  {
    c as int - '0' as int
  }

  /** Decimal digits without leading zeros. */
  function Digits(n: nat): (s: string)
    ensures s != "" && forall i :: 0 <= i < |s| ==> IsDigit(s[i])
  {
    if n < 10 then [DigitChar(n)] else Digits(n / 10) + [DigitChar(n % 10)]
  }

  /** Exactly width digits. */
  function Padded(n: nat, width: nat): (s: string)
    ensures |s| == width && forall i :: 0 <= i < |s| ==> IsDigit(s[i])
  {
    if width == 0 then "" else Padded(n / 10, width - 1) + [DigitChar(n % 10)]
  }

  predicate AllDigits(s: string) {
    forall i :: 0 <= i < |s| ==> IsDigit(s[i])
  }

  function ValueOf(s: string): nat
    requires AllDigits(s)
  {
    if s == "" then 0 else 10 * ValueOf(s[..|s| - 1]) + DigitValue(s[|s| - 1])
  }

  /** An unsigned number, if it is one and below limit. */
  function ReadNat(s: string, limit: nat): Option<nat> {
    if s != "" && AllDigits(s) && ValueOf(s) < limit then Some(ValueOf(s)) else None
  }

  lemma {:induction false} ValueOfDigits(n: nat)
    ensures ValueOf(Digits(n)) == n
  {
    if n >= 10 {
      ValueOfDigits(n / 10);
      assert Digits(n)[..|Digits(n)| - 1] == Digits(n / 10);
    }
  }

  function Power10(width: nat): (p: nat)
    ensures p > 0
  {
    if width == 0 then 1 else 10 * Power10(width - 1)
  }

  lemma {:induction false} ValueOfPadded(n: nat, width: nat)
    requires n < Power10(width)
    ensures ValueOf(Padded(n, width)) == n
  {
    if width > 0 {
      ValueOfPadded(n / 10, width - 1);
      assert Padded(n, width)[..width - 1] == Padded(n / 10, width - 1);
    }
  }

  // ----- eight decimals -----

  const SCALE: nat := 100000000

  /** "%.8f" of a number with magnitude mag / 10^8. */
  function Fixed(negative: bool, mag: nat): string {
    (if negative then "-" else "") + Unsigned(mag)
  }

  function Unsigned(mag: nat): string {
    Digits(mag / SCALE) + "." + Padded(mag % SCALE, 8)
  }

  function ScaledReal(negative: bool, mag: nat): real {
    if negative then -(mag as real / SCALE as real) else mag as real / SCALE as real
  }

  /** A number with eight decimals. */
  function ReadFixed(s: string): Option<real> {
    var negative := s != "" && s[0] == '-';
    match ReadUnsigned(if negative then s[1..] else s)
    case Some(mag) => Some(ScaledReal(negative, mag))
    case None => None
  }

  function ReadUnsigned(t: string): Option<nat> {
    if |t| >= 10 && t[|t| - 9] == '.' && AllDigits(t[..|t| - 9]) && AllDigits(t[|t| - 8..]) then
      Some(ValueOf(t[..|t| - 9]) * SCALE + ValueOf(t[|t| - 8..]))
    else None
  }

  lemma ReadsMagnitude(mag: nat)
    ensures ReadUnsigned(Unsigned(mag)) == Some(mag)
  {
    hide Digits, Padded, ValueOf;
    var whole, part := Digits(mag / SCALE), Padded(mag % SCALE, 8);
    var t := Unsigned(mag);
    assert t[..|t| - 9] == whole && t[|t| - 8..] == part;
    ValueOfDigits(mag / SCALE);
    EightDigits();
    ValueOfPadded(mag % SCALE, 8);
  }

  lemma EightDigits()
    ensures Power10(8) == SCALE
  {
    assert Power10(4) == 10000;
  }

  lemma ReadsWhatIsPrinted(negative: bool, mag: nat)
    ensures ReadFixed(Fixed(negative, mag)) == Some(ScaledReal(negative, mag))
  {
    hide ReadUnsigned, Digits, Padded, ScaledReal;
    ReadsMagnitude(mag);
    var s := Fixed(negative, mag);
    if negative {
      assert s[1..] == Unsigned(mag);
    } else {
      assert s == Unsigned(mag);
      assert IsDigit(Digits(mag / SCALE)[0]);
    }
  }

  /** No character of a printed number is a comma, a blank or a line end. */
  predicate Plain(s: string) {
    s != "" && forall i :: 0 <= i < |s| ==> s[i] != ',' && s[i] != ' ' && s[i] != '\n'
  }

  lemma PrintedIsPlain(n: nat, negative: bool, mag: nat)
    ensures Plain(Digits(n)) && Plain(Fixed(negative, mag))
  {
  }
}
