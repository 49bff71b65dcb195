/** Decimal text as Python writes it with str() and reads it with int(), for ASCII text. */
module Numerals {
  import opened Common

  predicate IsDigit(c: char) {
    '0' <= c <= '9'
  }

  function DigitChar(d: nat): (c: char)
    requires d < 10
    ensures IsDigit(c) && c as int - '0' as int == d
  {
    ('0' as int + d) as char
  }

  function Decimal(n: nat): string {
    if n < 10 then [DigitChar(n)] else Decimal(n / 10) + [DigitChar(n % 10)]
  }

  function Text(n: int): string {
    if n < 0 then "-" + Decimal(-n) else Decimal(n)
  }

  /** Digits, with single underscores allowed between them. */
  function ParseDigits(s: string): Option<nat> {
    if s == "" || !IsDigit(s[|s| - 1]) then None
    else
      var d := s[|s| - 1] as int - '0' as int;
      if |s| == 1 then Some(d)
      else
        var init := s[..|s| - 1];
        var head := ParseDigits(if init[|init| - 1] == '_' then init[..|init| - 1] else init);
        if head.None? then None else Some(10 * head.value + d)
  }

  /** What str.strip() and int() trim: the code points Python's str.isspace() accepts. */
  predicate IsSpace(c: char) {
    var n := c as int;
    || 9 <= n <= 13 || 28 <= n <= 32 || n == 0x85 || n == 0xA0
    || n == 0x1680 || 0x2000 <= n <= 0x200A || n == 0x2028 || n == 0x2029 || n == 0x202F || n == 0x205F || n == 0x3000
  }

  function StripLeft(s: string, drop: char -> bool): string {
    if s != "" && drop(s[0]) then StripLeft(s[1..], drop) else s
  }

  function StripRight(s: string, drop: char -> bool): string {
    if s != "" && drop(s[|s| - 1]) then StripRight(s[..|s| - 1], drop) else s
  }

  function Strip(s: string, drop: char -> bool): string {
    StripRight(StripLeft(s, drop), drop)
  }

  /** int(s): surrounding space, one sign, digits. */
  function ParseInt(s: string): Option<int> {
    var t := Strip(s, IsSpace);
    if t == "" then None
    else
      var signed := t[0] == '-' || t[0] == '+';
      var n := ParseDigits(if signed then t[1..] else t);
      if n.None? then None
      else
        var magnitude: int := n.value;
        Some(if t[0] == '-' then -magnitude else magnitude)
  }

  lemma {:induction false} DecimalIsDigits(n: nat)
    ensures Decimal(n) != "" && forall c :: c in Decimal(n) ==> IsDigit(c)
  {
    if n >= 10 {
      DecimalIsDigits(n / 10);
    }
  }

  lemma {:induction false} ParseDecimal(n: nat)
    ensures ParseDigits(Decimal(n)) == Some(n)
  {
    if n >= 10 {
      ParseDecimal(n / 10);
      DecimalIsDigits(n / 10);
      var s := Decimal(n);
      assert s[..|s| - 1] == Decimal(n / 10);
    }
  }

  lemma StripNothing(s: string, drop: char -> bool)
    requires s != "" && !drop(s[0]) && !drop(s[|s| - 1])
    ensures Strip(s, drop) == s
  {
  }

  /** Reading back what was written gives the same integer, for every integer. */
  lemma TextRoundTrip(n: int)
    ensures ParseInt(Text(n)) == Some(n)
  {
    var magnitude := if n < 0 then -n else n;
    var s := Text(n);
    DecimalIsDigits(magnitude);
    ParseDecimal(magnitude);
    assert s[|s| - 1] == Decimal(magnitude)[|Decimal(magnitude)| - 1];
    assert s[|s| - 1] in Decimal(magnitude);
    assert n >= 0 ==> s[0] in Decimal(n);
    StripNothing(s, IsSpace);
    if n < 0 {
      assert s[1..] == Decimal(magnitude);
    }
  }

  function Pow10(k: nat): nat {
    if k == 0 then 1 else 10 * Pow10(k - 1)
  }

  lemma {:induction false} DecimalLength(n: nat, k: nat)
    requires 1 <= k && n < Pow10(k)
    ensures |Decimal(n)| <= k
  {
    if n >= 10 {
      assert Pow10(k) == 10 * Pow10(k - 1);
      assert Pow10(1) == 10;
      DecimalLength(n / 10, k - 1);
    }
  }

  /** n in exactly w digits, zero-padded. */
  function Padded(n: nat, w: nat): (s: string)
    ensures |s| == w
  {
    if w == 0 then "" else Padded(n / 10, w - 1) + [DigitChar(n % 10)]
  }

  function ParsePadded(s: string): Option<nat> {
    if s == "" then Some(0)
    else if !IsDigit(s[|s| - 1]) then None
    else
      var head := ParsePadded(s[..|s| - 1]);
      if head.None? then None else Some(10 * head.value + (s[|s| - 1] as int - '0' as int))
  }

  lemma {:induction false} PaddedRoundTrip(n: nat, w: nat)
    requires n < Pow10(w)
    ensures ParsePadded(Padded(n, w)) == Some(n)
  {
    if w > 0 {
      assert Padded(n, w)[..w - 1] == Padded(n / 10, w - 1);
      PaddedRoundTrip(n / 10, w - 1);
    }
  }

  /** Which characters are trimmed, one by one. */
  lemma TrimmedCharacters(c: char)
    ensures IsSpace(c) <==> c as int in {
      0x09, 0x0A, 0x0B, 0x0C, 0x0D, 0x1C, 0x1D, 0x1E, 0x1F, 0x20, 0x85, 0xA0, 0x1680, 0x2000, 0x2001, 0x2002, 0x2003,
      0x2004, 0x2005, 0x2006, 0x2007, 0x2008, 0x2009, 0x200A, 0x2028, 0x2029, 0x202F, 0x205F, 0x3000}
  {
  }

  /** One underscore between digits is allowed, and nothing else is. */
  lemma Underscores(a: nat, b: nat)
    requires a < 10 && b < 10
    ensures ParseDigits([DigitChar(a), '_', DigitChar(b)]) == Some(10 * a + b)
    ensures ParseDigits([DigitChar(a), '_', '_', DigitChar(b)]) == None
    ensures ParseDigits([DigitChar(a), '_']) == None && ParseDigits(['_', DigitChar(b)]) == None
  {
    var one := [DigitChar(a), '_', DigitChar(b)];
    assert one[..2] == [DigitChar(a), '_'] && one[..2][..1] == [DigitChar(a)];
    var two := [DigitChar(a), '_', '_', DigitChar(b)];
    assert two[..3] == [DigitChar(a), '_', '_'] && two[..3][..2] == [DigitChar(a), '_'];
    var lone := ['_', DigitChar(b)];
    assert lone[..1] == ['_'] && lone[..1][..0] == "";
  }
}
