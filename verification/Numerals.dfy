/**
 Numbers written as text: base 10 for the sequencer's saved index and Telegram user ids,
 base 16 for extension ids, addresses, revert data and JSON `\u` escapes.
 */
module Numerals {
  type Base = b: nat | b == 10 || b == 16 witness 10

  /** The lower-case digit for d. */
  function Digit(d: nat): (c: char)
    requires d < 16
    ensures IsHexDigit(c) && HexValue(c) == d
    ensures d < 10 ==> '0' <= c <= '9'
  {
    if d < 10 then ('0' as int + d) as char else ('a' as int + (d - 10)) as char
  }

  predicate IsHexDigit(c: char) {
    '0' <= c <= '9' || 'a' <= c <= 'f' || 'A' <= c <= 'F'
  }

  function HexValue(c: char): (v: nat)
    requires IsHexDigit(c)
    ensures v < 16
    ensures '0' <= c <= '9' <==> v < 10
  {
    if '0' <= c <= '9' then c as int - '0' as int
    else if 'a' <= c <= 'f' then c as int - 'a' as int + 10
    else c as int - 'A' as int + 10
  }

  /** Upper-case hexadecimal digits are read as their lower-case forms. */
  function Lower(c: char): char {
    if 'A' <= c <= 'F' then (c as int + 32) as char else c
  }

  predicate IsDigitIn(c: char, base: Base) {
    IsHexDigit(c) && HexValue(c) < base
  }

  predicate IsNumeral(s: string, base: Base) {
    forall i :: 0 <= i < |s| ==> IsDigitIn(s[i], base)
  }

  function Print(n: nat, base: Base): (s: string)
    ensures s != "" && IsNumeral(s, base)
    ensures n != 0 ==> s[0] != '0'
    decreases n
  {
    if n < base then [Digit(n)]
    else
      SmallerQuotient(n, base);
      Print(n / base, base) + [Digit(n % base)]
  }

  function Parse(s: string, base: Base): nat
    requires IsNumeral(s, base)
  {
    if s == "" then 0 else Parse(s[..|s| - 1], base) * base + HexValue(s[|s| - 1])
  }

  function Power(base: Base, k: nat): (p: nat)
    ensures p > 0
  {
    if k == 0 then 1 else base * Power(base, k - 1)
  }

  /** Zero padding on the left up to a minimum width, as `%064x` does. */
  function ZeroPad(s: string, width: nat): (r: string)
    ensures |r| == if |s| < width then width else |s|
    decreases width - |s|
  {
    if |s| >= width then s else ZeroPad("0" + s, width)
  }

  lemma SmallerQuotient(n: nat, base: Base)
    requires n >= base
    ensures 0 < n / base < n
  {
    if base == 10 { assert n / 10 < n; } else { assert n / 16 < n; }
  }

  lemma DivMod(n: nat, base: Base)
    ensures n / base * base + n % base == n && n % base < base
  {
    if base == 10 { assert n / 10 * 10 + n % 10 == n; } else { assert n / 16 * 16 + n % 16 == n; }
  }

  /** Printing is undone by parsing. */
  lemma {:induction false} PrintThenParse(n: nat, base: Base)
    ensures Parse(Print(n, base), base) == n
    decreases n
  {
    if n >= base {
      SmallerQuotient(n, base);
      PrintThenParse(n / base, base);
      DivMod(n, base);
      var s := Print(n, base);
      assert s[..|s| - 1] == Print(n / base, base);
    } else {
      assert Print(n, base)[..0] == "";
    }
  }

  lemma PrintInjective(m: nat, n: nat, base: Base)
    requires Print(m, base) == Print(n, base)
    ensures m == n
  {
    PrintThenParse(m, base);
    PrintThenParse(n, base);
  }

  /** A printed number has at most k digits exactly when it is below base^k. */
  lemma {:induction false} PrintLength(n: nat, base: Base, k: nat)
    requires k > 0
    ensures |Print(n, base)| <= k <==> n < Power(base, k)
    decreases k
  {
    if k == 1 {
      assert Power(base, 1) == base * Power(base, 0) == base;
      if n >= base { SmallerQuotient(n, base); }
    } else if n >= base {
      SmallerQuotient(n, base);
      PrintLength(n / base, base, k - 1);
      DivMod(n, base);
      var p := Power(base, k - 1);
      if base == 10 {
        assert n / 10 < p <==> n < 10 * p;
      } else {
        assert n / 16 < p <==> n < 16 * p;
      }
    } else {
      PowerAtLeastBase(base, k);
    }
  }

  lemma {:induction false} PowerAtLeastBase(base: Base, k: nat)
    requires k > 0
    ensures Power(base, k) >= base
  {
    if k > 1 {
      PowerAtLeastBase(base, k - 1);
      if base == 10 {} else {}
    }
  }

  lemma {:induction false} LeadingZero(s: string, base: Base)
    requires IsNumeral(s, base)
    ensures IsNumeral("0" + s, base)
    ensures Parse("0" + s, base) == Parse(s, base)
  {
    var z := "0" + s;
    assert z[0] == '0' && forall i :: 0 < i < |z| ==> z[i] == s[i - 1];
    if s == "" {
      assert z[..0] == "" && Parse(z[..0], base) == 0;
    } else {
      LeadingZero(s[..|s| - 1], base);
      assert z[..|z| - 1] == "0" + s[..|s| - 1];
    }
  }

  /** Zero padding changes neither the alphabet nor the value. */
  lemma {:induction false} ZeroPadKeepsValue(s: string, width: nat, base: Base)
    requires IsNumeral(s, base)
    ensures IsNumeral(ZeroPad(s, width), base)
    ensures Parse(ZeroPad(s, width), base) == Parse(s, base)
    decreases width - |s|
  {
    if |s| < width {
      LeadingZero(s, base);
      ZeroPadKeepsValue("0" + s, width, base);
    }
  }

  /** k digits denote a number below base^k. */
  lemma {:induction false} ParseBound(s: string, base: Base)
    requires IsNumeral(s, base)
    ensures Parse(s, base) < Power(base, |s|)
  {
    if s != "" {
      var t := s[..|s| - 1];
      ParseBound(t, base);
      var p := Power(base, |t|);
      if base == 10 {
        assert Parse(t, base) * 10 + 9 < 10 * p;
      } else {
        assert Parse(t, base) * 16 + 15 < 16 * p;
      }
    }
  }

  function LowerAll(s: string): (r: string)
    ensures |r| == |s| && forall i :: 0 <= i < |s| ==> r[i] == Lower(s[i])
  {
    seq(|s|, i requires 0 <= i < |s| => Lower(s[i]))
  }

  /** Every k-digit numeral is the zero-padded print of its value, up to letter case. */
  lemma {:induction false} PadThenPrint(s: string, base: Base)
    requires IsNumeral(s, base) && s != ""
    ensures ZeroPad(Print(Parse(s, base), base), |s|) == LowerAll(s)
  {
    var t := s[..|s| - 1];
    var d := HexValue(s[|s| - 1]);
    assert IsDigitIn(s[|s| - 1], base) && Lower(s[|s| - 1]) == Digit(d);
    assert LowerAll(s) == LowerAll(t) + [Digit(d)];
    if t == "" {
      assert Parse(t, base) == 0 && LowerAll(t) == "";
      OneDigit(d, base);
    } else {
      PadThenPrint(t, base);
      PrintSnoc(Parse(t, base), d, |t|, base);
    }
  }

  lemma OneDigit(d: nat, base: Base)
    requires d < base
    ensures ZeroPad(Print(d, base), 1) == "" + [Digit(d)]
  {
  }

  /** One more digit, printed and padded. */
  lemma PrintSnoc(m: nat, d: nat, width: nat, base: Base)
    requires d < base && width > 0
    ensures ZeroPad(Print(m * base + d, base), width + 1) == ZeroPad(Print(m, base), width) + [Digit(d)]
  {
    var n := m * base + d;
    QuotientAndDigit(m, d, base);
    if m == 0 {
      assert Print(n, base) == "" + [Digit(d)];
      PadSnoc("", Digit(d), width);
      PadZeroIsPadEmpty(width, base);
    } else {
      SmallerQuotientOf(n, m, base);
      assert Print(n, base) == Print(m, base) + [Digit(d)];
      PadSnoc(Print(m, base), Digit(d), width);
    }
  }

  lemma QuotientAndDigit(m: nat, d: nat, base: Base)
    requires d < base
    ensures (m * base + d) / base == m && (m * base + d) % base == d
  {
    if base == 10 {
      assert (m * 10 + d) / 10 == m;
    } else {
      assert (m * 16 + d) / 16 == m;
    }
  }

  lemma SmallerQuotientOf(n: nat, m: nat, base: Base)
    requires n / base == m && m > 0
    ensures n >= base
  {
    if base == 10 {} else {}
  }

  lemma {:induction false} PadSnoc(s: string, c: char, width: nat)
    ensures ZeroPad(s + [c], width + 1) == ZeroPad(s, width) + [c]
    decreases width - |s|
  {
    if |s| < width {
      assert "0" + (s + [c]) == ("0" + s) + [c];
      PadSnoc("0" + s, c, width);
    }
  }

  lemma PadZeroIsPadEmpty(width: nat, base: Base)
    requires width > 0
    ensures ZeroPad(Print(0, base), width) == ZeroPad("", width)
  {
    assert "0" + "" == "0";
    assert Digit(0) == '0';
  }
}
