/**
 * System.Guid as the store and the endpoints use it: a 128-bit identifier, its canonical
 * text form (the "D" format of Guid.ToString: 32 lower-case hex digits in groups 8-4-4-4-12)
 * and Guid.Parse for that form.
 *
 * A Guid is modelled as the natural number that its 32 hex digits spell when read in text order,
 * so that formatting and parsing are the two directions of one hex conversion.
 */
module Guids {
  import opened Wrappers

  /** 16^32 = 2^128: one more than the largest Guid. */
  const Bound: nat := 0x1_0000_0000_0000_0000_0000_0000_0000_0000

  type Guid = n: nat | n < Bound

  /** Guid.Empty, the all-zero identifier. */
  const Empty: Guid := 0

  function Pow16(k: nat): (p: nat)
    ensures p > 0
  {
    if k == 0 then 1 else 16 * Pow16(k - 1)
  }

  lemma {:induction false} Pow16Add(a: nat, b: nat)
    ensures Pow16(a + b) == Pow16(a) * Pow16(b)
  {
    if a > 0 {
      Pow16Add(a - 1, b);
    }
  }

  lemma Pow16Of32()
    ensures Pow16(32) == Bound
  {
    assert Pow16(4) == 0x1_0000;
    Pow16Add(4, 4);
    Pow16Add(8, 8);
    Pow16Add(16, 16);
  }

  predicate IsHexDigit(ch: char) {
    '0' <= ch <= '9' || 'a' <= ch <= 'f' || 'A' <= ch <= 'F'
  }

  predicate IsLowerHexDigit(ch: char) {
    '0' <= ch <= '9' || 'a' <= ch <= 'f'
  }

  predicate AllHex(s: string) {
    forall i :: 0 <= i < |s| ==> IsHexDigit(s[i])
  }

  predicate AllLowerHex(s: string) {
    forall i :: 0 <= i < |s| ==> IsLowerHexDigit(s[i])
  }

  /** The value of one hex digit; upper and lower case are accepted alike. */
  function DigitValue(ch: char): (d: nat)
    requires IsHexDigit(ch)
    ensures d < 16
  {
    if '0' <= ch <= '9' then ch as int - '0' as int
    else if 'a' <= ch <= 'f' then ch as int - 'a' as int + 10
    else ch as int - 'A' as int + 10
  }

  /** The lower-case digit that Guid.ToString writes for a value below 16. */
  function HexChar(d: nat): (ch: char)
    requires d < 16
    ensures IsLowerHexDigit(ch) && DigitValue(ch) == d
  {
    if d < 10 then ('0' as int + d) as char else ('a' as int + d - 10) as char
  }

  lemma HexCharOfValue(ch: char)
    requires IsLowerHexDigit(ch)
    ensures HexChar(DigitValue(ch)) == ch
  {
  }

  /** The k lower-case hex digits of n, most significant first, padded with zeros. */
  function ToHex(n: nat, k: nat): (s: string)
    requires n < Pow16(k)
    ensures |s| == k && AllLowerHex(s)
  {
    if k == 0 then []
    else
      assert n / 16 < Pow16(k - 1);
      ToHex(n / 16, k - 1) + [HexChar(n % 16)]
  }

  /** The number that a string of hex digits spells, most significant first. */
  function FromHex(s: string): (n: nat)
    requires AllHex(s)
    ensures n < Pow16(|s|)
  {
    if s == [] then 0
    else
      var n0 := FromHex(s[..|s| - 1]);
      var d := DigitValue(s[|s| - 1]);
      assert n0 * 16 + d < 16 * Pow16(|s| - 1) by {
        assert n0 + 1 <= Pow16(|s| - 1);
        assert (n0 + 1) * 16 <= Pow16(|s| - 1) * 16;
      }
      n0 * 16 + d
  }

  lemma {:induction false} FromHexToHex(n: nat, k: nat)
    requires n < Pow16(k)
    ensures FromHex(ToHex(n, k)) == n
  {
    if k > 0 {
      var s := ToHex(n, k);
      assert s[..k - 1] == ToHex(n / 16, k - 1);
      FromHexToHex(n / 16, k - 1);
    }
  }

  lemma {:induction false} ToHexFromHex(s: string)
    requires AllLowerHex(s)
    ensures ToHex(FromHex(s), |s|) == s
  {
    if s != [] {
      var p := s[..|s| - 1];
      var n := FromHex(s);
      assert n / 16 == FromHex(p) && n % 16 == DigitValue(s[|s| - 1]);
      ToHexFromHex(p);
      HexCharOfValue(s[|s| - 1]);
      assert s == p + [s[|s| - 1]];
    }
  }

  /** Inserts the four hyphens of the "D" format into 32 digits. */
  function Hyphenate(d: string): (s: string)
    requires |d| == 32
    ensures |s| == 36
  {
    d[..8] + "-" + d[8..12] + "-" + d[12..16] + "-" + d[16..20] + "-" + d[20..]
  }

  /** Drops the four hyphen positions of a 36-character "D" form. */
  function Digits(s: string): (d: string)
    requires |s| == 36
    ensures |d| == 32
  {
    s[..8] + s[9..13] + s[14..18] + s[19..23] + s[24..]
  }

  predicate IsHyphenPosition(i: int) {
    i == 8 || i == 13 || i == 18 || i == 23
  }

  /** The shape Guid.Parse accepts here: 36 characters, hyphens at 8, 13, 18 and 23, hex digits elsewhere. */
  predicate IsDForm(s: string) {
    && |s| == 36
    && (forall i :: 0 <= i < 36 && IsHyphenPosition(i) ==> s[i] == '-')
    && (forall i :: 0 <= i < 36 && !IsHyphenPosition(i) ==> IsHexDigit(s[i]))
  }

  lemma {:induction false} DigitsAt(s: string, j: int)
    requires |s| == 36 && 0 <= j < 32
    ensures Digits(s)[j] == s[if j < 8 then j else if j < 12 then j + 1 else if j < 16 then j + 2 else if j < 20 then j + 3 else j + 4]
  {
    var a, b, c, e := s[..8], s[9..13], s[14..18], s[19..23];
    assert Digits(s) == (((a + b) + c) + e) + s[24..];
  }

  lemma {:induction false} HyphenateAt(d: string, i: int)
    requires |d| == 32 && 0 <= i < 36
    ensures IsHyphenPosition(i) ==> Hyphenate(d)[i] == '-'
    ensures !IsHyphenPosition(i) ==>
      Hyphenate(d)[i] == d[if i < 8 then i else if i < 13 then i - 1 else if i < 18 then i - 2 else if i < 23 then i - 3 else i - 4]
  {
  }

  lemma {:induction false} DigitsOfHyphenate(d: string)
    requires |d| == 32
    ensures Digits(Hyphenate(d)) == d
  {
    var s := Hyphenate(d);
    forall j | 0 <= j < 32 ensures Digits(s)[j] == d[j] {
      DigitsAt(s, j);
      var i := if j < 8 then j else if j < 12 then j + 1 else if j < 16 then j + 2 else if j < 20 then j + 3 else j + 4;
      HyphenateAt(d, i);
    }
  }

  lemma {:induction false} HyphenateOfDigits(s: string)
    requires IsDForm(s)
    ensures Hyphenate(Digits(s)) == s
  {
    var d := Digits(s);
    forall i | 0 <= i < 36 ensures Hyphenate(d)[i] == s[i] {
      HyphenateAt(d, i);
      if !IsHyphenPosition(i) {
        var j := if i < 8 then i else if i < 13 then i - 1 else if i < 18 then i - 2 else if i < 23 then i - 3 else i - 4;
        DigitsAt(s, j);
      }
    }
  }

  lemma {:induction false} DigitsAllHex(s: string)
    requires IsDForm(s)
    ensures AllHex(Digits(s))
  {
    forall j | 0 <= j < 32 ensures IsHexDigit(Digits(s)[j]) {
      DigitsAt(s, j);
    }
  }

  /** Guid.ToString(): the "D" form, in lower case. */
  function Format(g: Guid): (s: string)
    ensures IsDForm(s)
    ensures forall i :: 0 <= i < 36 && !IsHyphenPosition(i) ==> IsLowerHexDigit(s[i])
  {
    Pow16Of32();
    var d := ToHex(g, 32);
    var s := Hyphenate(d);
    assert forall i :: 0 <= i < 36 ==> (IsHyphenPosition(i) ==> s[i] == '-') && (!IsHyphenPosition(i) ==> IsLowerHexDigit(s[i])) by {
      forall i | 0 <= i < 36 ensures (IsHyphenPosition(i) ==> s[i] == '-') && (!IsHyphenPosition(i) ==> IsLowerHexDigit(s[i])) {
        HyphenateAt(d, i);
      }
    }
    s
  }

  /**
   * Guid.Parse on the "D" form. None: a text outside the D form; there this model does not
   * follow .NET, which also accepts other forms.
   */
  function Parse(s: string): (r: Option<Guid>)
    ensures r.Some? <==> IsDForm(s)
  {
    if IsDForm(s) then
      DigitsAllHex(s);
      Pow16Of32();
      Some(FromHex(Digits(s)))
    else None
  }

  /** Reading back the text of a Guid gives the same Guid. */
  lemma ParseFormat(g: Guid)
    ensures Parse(Format(g)) == Some(g)
  {
    Pow16Of32();
    DigitsOfHyphenate(ToHex(g, 32));
    FromHexToHex(g, 32);
  }

  /** Formatting a parsed Guid gives back the text, when the text was in lower case. */
  lemma FormatParse(s: string)
    requires IsDForm(s)
    requires forall i :: 0 <= i < 36 && !IsHyphenPosition(i) ==> IsLowerHexDigit(s[i])
    ensures Parse(s).Some? && Format(Parse(s).value) == s
  {
    var d := Digits(s);
    DigitsAllHex(s);
    forall j | 0 <= j < 32 ensures IsLowerHexDigit(d[j]) {
      DigitsAt(s, j);
    }
    Pow16Of32();
    ToHexFromHex(d);
    HyphenateOfDigits(s);
  }

  /** Two Guids are equal exactly when their texts are. */
  lemma FormatInjective(g: Guid, h: Guid)
    ensures Format(g) == Format(h) <==> g == h
  {
    ParseFormat(g);
    ParseFormat(h);
  }
}
