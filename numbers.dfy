/** Decimal text of integers: Rust's `to_string`, JavaScript's `String(n)`, and JavaScript's
    `parseInt` without a radix, which also reads a `0x` hexadecimal prefix. */
module Numbers {
  import opened Common
  import opened Text

  predicate IsDigit(c: char) {
    '0' <= c <= '9'
  }

  predicate AllDigits(s: string) {
    forall i :: 0 <= i < |s| ==> IsDigit(s[i])
  }

  function DigitChar(d: nat): (c: char)
    requires d < 10
    ensures IsDigit(c)
  {
    ('0' as int + d) as char
  }

  function DigitValue(c: char): (d: nat)
    requires IsDigit(c)
    ensures d < 10 && DigitChar(d) == c
  {
    c as int - '0' as int
  }

  /** The decimal text of a natural number, without leading zeros. */
  function NatToDecimal(n: nat): (r: string)
    ensures r != [] && AllDigits(r)
    ensures |r| > 1 ==> r[0] != '0'
    ensures n < 10 <==> |r| == 1
  {
    if n < 10 then [DigitChar(n)] else NatToDecimal(n / 10) + [DigitChar(n % 10)]
  }

  /** The value of a string of decimal digits (most significant first). */
  function DecimalValue(s: string): nat
    requires AllDigits(s)
  {
    if s == [] then 0 else DecimalValue(s[..|s| - 1]) * 10 + DigitValue(s[|s| - 1])
  }

  /** Reading back the decimal text of `n` gives `n`. */
  lemma {:induction false} DecimalRoundTrip(n: nat)
    ensures DecimalValue(NatToDecimal(n)) == n
  {
    if n >= 10 {
      var s := NatToDecimal(n);
      DecimalRoundTrip(n / 10);
      assert s[..|s| - 1] == NatToDecimal(n / 10);
    }
  }

  /** Decimal text of an integer, with a leading minus sign when negative. */
  function IntToDecimal(i: int): string
  {
    if i < 0 then "-" + NatToDecimal(-i) else NatToDecimal(i)
  }

  /** The longest prefix of `s` made of digits. */
  function LeadingDigits(s: string): (r: string)
    ensures AllDigits(r) && StartsWith(s, r)
    ensures |r| < |s| ==> !IsDigit(s[|r|])
  {
    if s != [] && IsDigit(s[0]) then [s[0]] + LeadingDigits(s[1..]) else []
  }

  predicate IsHexDigit(c: char) {
    IsDigit(c) || 'a' <= c <= 'f' || 'A' <= c <= 'F'
  }

  predicate AllHexDigits(s: string) {
    forall i :: 0 <= i < |s| ==> IsHexDigit(s[i])
  }

  /** The value of a hexadecimal digit, either case; a decimal digit keeps its value. */
  function HexDigitValue(c: char): (d: nat)
    requires IsHexDigit(c)
    ensures d < 16
    ensures IsDigit(c) ==> d == DigitValue(c)
  {
    if IsDigit(c) then DigitValue(c)
    else if 'a' <= c <= 'f' then c as int - 'a' as int + 10
    else c as int - 'A' as int + 10
  }

  /** The value of a string of hexadecimal digits (most significant first). */
  function HexValue(s: string): nat
    requires AllHexDigits(s)
  {
    if s == [] then 0 else HexValue(s[..|s| - 1]) * 16 + HexDigitValue(s[|s| - 1])
  }

  /** The longest prefix of `s` made of hexadecimal digits. */
  function LeadingHexDigits(s: string): (r: string)
    ensures AllHexDigits(r) && StartsWith(s, r)
    ensures |r| < |s| ==> !IsHexDigit(s[|r|])
  {
    if s != [] && IsHexDigit(s[0]) then [s[0]] + LeadingHexDigits(s[1..]) else []
  }

  /** The text after the sign starts with `0x` or `0X`. */
  predicate HasHexPrefix(u: string) {
    |u| >= 2 && u[0] == '0' && (u[1] == 'x' || u[1] == 'X')
  }

  /** The number the text after the sign starts with: `0x` or `0X` and at least one
      hexadecimal digit, or at least one decimal digit; reading stops at the first other
      character. */
  function UnsignedValue(u: string): Option<nat> {
    if HasHexPrefix(u) then
      var hs := LeadingHexDigits(u[2..]);
      if hs == [] then None else Some(HexValue(hs))
    else
      var ds := LeadingDigits(u);
      if ds == [] then None else Some(DecimalValue(ds))
  }

  /** `parseInt(s)` with no radix: leading whitespace, an optional sign, then the number;
      `None` stands for `NaN`. */
  function ParseInt(s: string): Option<int>
  {
    var t := TrimStart(s);
    var negative := t != [] && t[0] == '-';
    var u := if t != [] && (t[0] == '-' || t[0] == '+') then t[1..] else t;
    match UnsignedValue(u)
    case None => None
    case Some(v) => Some(if negative then -(v as int) else v)
  }

  /** A `0x` prefix switches to hexadecimal: `0x` followed by hexadecimal digits reads as their
      hexadecimal value, and `0x` alone is `NaN`. */
  lemma ParseIntHex(hs: string)
    requires AllHexDigits(hs)
    ensures hs != [] ==> ParseInt("0x" + hs) == Some(HexValue(hs))
    ensures ParseInt("0x") == None
  {
    var s := "0x" + hs;
    assert TrimStart(s) == s;
    assert s[2..] == hs;
    LeadingAllHexDigits(hs);
    assert TrimStart("0x") == "0x";
    assert "0x"[2..] == [];
  }

  /** Hence `"0x1A"` reads as 26, where a decimal reading would stop at the `x` and give 0. */
  lemma ParseIntHexExample()
    ensures ParseInt("0x1A") == Some(26)
  {
    ParseIntHex("1A");
    assert "0x1A" == "0x" + "1A";
    assert HexValue("1A") == 26 by {
      assert "1A"[..1] == "1";
      assert HexValue("1") == 1 by {
        assert "1"[..0] == [];
      }
    }
  }

  lemma {:induction false} LeadingAllHexDigits(s: string)
    requires AllHexDigits(s)
    ensures LeadingHexDigits(s) == s
  {
    if s != [] {
      LeadingAllHexDigits(s[1..]);
    }
  }

  /** `parseInt` reads back every integer's decimal text. */
  lemma ParseIntRoundTrip(i: int)
    ensures ParseInt(IntToDecimal(i)) == Some(i)
  {
    var n: nat := if i < 0 then -i else i;
    var d := NatToDecimal(n);
    DecimalRead(n);
    var s := IntToDecimal(i);
    assert TrimStart(s) == s by {
      assert s[0] == '-' || IsDigit(s[0]);
    }
    if i < 0 {
      assert s[0] == '-' && s[1..] == d;
    } else {
      assert s == d && IsDigit(s[0]);
    }
  }

  /** The decimal text of a natural number reads back as that number: it has no `0x` prefix,
      since a leading `0` is the whole text. */
  lemma DecimalRead(n: nat)
    ensures UnsignedValue(NatToDecimal(n)) == Some(n)
  {
    var d := NatToDecimal(n);
    DecimalRoundTrip(n);
    LeadingAllDigits(d);
    assert !HasHexPrefix(d) by {
      assert d[0] == '0' ==> |d| == 1;
    }
  }

  lemma {:induction false} LeadingAllDigits(s: string)
    requires AllDigits(s)
    ensures LeadingDigits(s) == s
  {
    if s != [] {
      LeadingAllDigits(s[1..]);
    }
  }
}
