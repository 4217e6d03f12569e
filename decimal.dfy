/** The Option type used for the results of parsing. */
module Options {
  datatype Option<+T> = None | Some(value: T)
}

/**
  Decimal text of integers as the program produces and consumes it:
  `strconv.Itoa` and `fmt.Sprintf("%d", ...)` for rendering,
  `fmt.Sprintf("%0Nd", ...)` for zero-padded rendering, and `strconv.Atoi`
  (base 10, 64-bit `int`) for parsing.
*/
module Decimal {
  import opened Options

  /** The range of Go's `int` on a 64-bit platform; `strconv.Atoi` rejects values outside it. */
  const Int64Min: int := -0x8000_0000_0000_0000
  const Int64Max: int := 0x7FFF_FFFF_FFFF_FFFF

  predicate IsDigit(c: char) { '0' <= c <= '9' }

  predicate AllDigits(s: string) { forall i :: 0 <= i < |s| ==> IsDigit(s[i]) }

  function DigitValue(c: char): (d: nat)
    requires IsDigit(c)
    ensures d < 10
  {
    (c as int) - ('0' as int)
  }

  function DigitChar(d: nat): (c: char)
    requires d < 10
    ensures IsDigit(c) && DigitValue(c) == d
  {
    (('0' as int) + d) as char
  }

  /** The number a string of decimal digits denotes, most significant digit first. */
  function DigitsValue(s: string): nat
    requires AllDigits(s)
  {
    if s == [] then 0 else DigitsValue(s[..|s| - 1]) * 10 + DigitValue(s[|s| - 1])
  }

  function Pow10(k: nat): (p: nat)
    ensures p >= 1
  {
    if k == 0 then 1 else 10 * Pow10(k - 1)
  }

  /** The shortest decimal digits of `n`: no leading zero except for `n == 0` itself. */
  function NatToString(n: nat): (s: string)
    ensures |s| >= 1 && AllDigits(s)
    ensures s[0] == '0' ==> n == 0 && s == "0"
  {
    if n < 10 then [DigitChar(n)] else NatToString(n / 10) + [DigitChar(n % 10)]
  }

  /**
    `strconv.Itoa(n)`, which is also what `fmt.Sprintf("%d", n)` produces: a
    minus sign exactly for negative `n`, then the shortest digits denoting `|n|`.
  */
  function Itoa(n: int): (s: string)
    ensures |s| >= 1 && (s[0] == '-' <==> n < 0)
    ensures var d := if n < 0 then s[1..] else s;
      && |d| >= 1 && AllDigits(d) && DigitsValue(d) == (if n < 0 then -n else n)
      && (d[0] == '0' ==> d == "0" && n == 0)
  {
    if n < 0 then
      NatToStringValue(-n);
      assert ("-" + NatToString(-n))[1..] == NatToString(-n);
      "-" + NatToString(-n)
    else
      NatToStringValue(n);
      NatToString(n)
  }

  /** The value of an unsigned digit string with its sign applied, if it is non-empty, all digits and fits in 64 bits. */
  function ParseDigits(digits: string, negative: bool): (r: Option<int>)
    ensures r.Some? ==> |digits| >= 1 && AllDigits(digits) && Int64Min <= r.value <= Int64Max
    ensures r.Some? ==> r.value == (if negative then -(DigitsValue(digits) as int) else DigitsValue(digits))
  {
    if digits == [] || !AllDigits(digits) then None
    else
      var v := if negative then -(DigitsValue(digits) as int) else DigitsValue(digits);
      if Int64Min <= v <= Int64Max then Some(v) else None
  }

  /** The digits of a numeral: the text after a leading `+` or `-`, if there is one. */
  function Magnitude(s: string): string
  {
    if |s| > 0 && (s[0] == '+' || s[0] == '-') then s[1..] else s
  }

  /** The value a numeral denotes: its digits' value, negated after a leading `-`. */
  function NumeralValue(s: string): int
    requires AllDigits(Magnitude(s))
  {
    if |s| > 0 && s[0] == '-' then -(DigitsValue(Magnitude(s)) as int) else DigitsValue(Magnitude(s))
  }

  /**
    `strconv.Atoi(s)`: an optional `+` or `-` followed by one or more decimal
    digits and nothing else (no spaces, no trailing newline, no underscores),
    whose value fits in a 64-bit `int`. Everything else is an error (`None`).
  */
  function Atoi(s: string): (r: Option<int>)
    ensures r.Some? <==>
      |Magnitude(s)| >= 1 && AllDigits(Magnitude(s)) && Int64Min <= NumeralValue(s) <= Int64Max
    ensures r.Some? ==> r.value == NumeralValue(s)
    ensures r.Some? ==> |s| >= 1 && (IsDigit(s[0]) || s[0] == '+' || s[0] == '-')
    ensures r.Some? ==> forall i :: 1 <= i < |s| ==> IsDigit(s[i])
  {
    if |s| > 0 && (s[0] == '+' || s[0] == '-') then ParseDigits(s[1..], s[0] == '-')
    else ParseDigits(s, false)
  }

  /**
    `fmt.Sprintf("%0<width>d", n)`: the decimal text of `n` widened to `width`
    characters with zeros between the sign and the digits (the sign counts
    towards the width); a wider number is never cut.
  */
  function ZeroPad(n: int, width: nat): (r: string)
    ensures |r| == (if |Itoa(n)| >= width then |Itoa(n)| else width)
    ensures |r| >= 1 && (r[0] == '-' <==> n < 0)
    ensures var d := if n < 0 then r[1..] else r;
      AllDigits(d) && DigitsValue(d) == (if n < 0 then -n else n)
  {
    if n < 0 then
      var p := PadLeft(NatToString(-n), if width > 0 then width - 1 else 0);
      NatToStringValue(-n);
      assert ("-" + p)[1..] == p;
      "-" + p
    else
      NatToStringValue(n);
      PadLeft(NatToString(n), width)
  }

  function Zeros(k: nat): (z: string)
    ensures |z| == k && AllDigits(z)
  {
    seq(k, _ => '0')
  }

  /** Zeros in front of a digit string up to `width` characters: same value, never shorter than before. */
  function PadLeft(s: string, width: nat): (r: string)
    requires AllDigits(s)
    ensures |r| == (if |s| >= width then |s| else width)
    ensures AllDigits(r) && DigitsValue(r) == DigitsValue(s)
  {
    if |s| >= width then s else LeadingZerosValue(width - |s|, s); Zeros(width - |s|) + s
  }

  // ---------------------------------------------------------------------------
  // Properties

  lemma {:induction false} DigitsValueSnoc(s: string, c: char)
    requires AllDigits(s) && IsDigit(c)
    ensures AllDigits(s + [c]) && DigitsValue(s + [c]) == DigitsValue(s) * 10 + DigitValue(c)
  {
    assert (s + [c])[..|s|] == s;
  }

  /** The digits `NatToString` produces denote `n`. */
  lemma {:induction false} NatToStringValue(n: nat)
    ensures DigitsValue(NatToString(n)) == n
  {
    if n >= 10 {
      NatToStringValue(n / 10);
      DigitsValueSnoc(NatToString(n / 10), DigitChar(n % 10));
    }
  }

  /** A number below 10^k takes at most k digits. */
  lemma {:induction false} NatToStringLength(n: nat, k: nat)
    requires k >= 1 && n < Pow10(k)
    ensures |NatToString(n)| <= k
  {
    if n >= 10 {
      assert n / 10 < Pow10(k - 1);
      NatToStringLength(n / 10, k - 1);
    }
  }

  lemma {:induction false} ZerosValue(k: nat)
    ensures DigitsValue(Zeros(k)) == 0
  {
    if k > 0 {
      assert Zeros(k)[..k - 1] == Zeros(k - 1);
      ZerosValue(k - 1);
    }
  }

  /** Leading zeros do not change the value of a digit string. */
  lemma {:induction false} LeadingZerosValue(k: nat, s: string)
    requires AllDigits(s)
    ensures AllDigits(Zeros(k) + s) && DigitsValue(Zeros(k) + s) == DigitsValue(s)
  {
    var t := Zeros(k) + s;
    if s == [] {
      assert t == Zeros(k);
      ZerosValue(k);
    } else {
      var init := s[..|s| - 1];
      assert t[..|t| - 1] == Zeros(k) + init;
      LeadingZerosValue(k, init);
    }
  }

  /**
    Zero-padding a non-negative number below 10^width gives exactly `width`
    digits that denote the number.
  */
  lemma ZeroPadValue(n: int, width: nat)
    requires width >= 1 && 0 <= n < Pow10(width)
    ensures |ZeroPad(n, width)| == width
    ensures AllDigits(ZeroPad(n, width)) && DigitsValue(ZeroPad(n, width)) == n
  {
    NatToStringLength(n, width);
  }

  /** `strconv.Atoi` reads back what `strconv.Itoa` wrote, for every 64-bit value. */
  lemma AtoiItoa(n: int)
    requires Int64Min <= n <= Int64Max
    ensures Atoi(Itoa(n)) == Some(n)
  {
    var s := Itoa(n);
    if n < 0 {
      assert s[1..] == NatToString(-n);
      NatToStringValue(-n);
    } else {
      NatToStringValue(n);
    }
  }

  /** Distinct integers have distinct decimal renderings. */
  lemma ItoaInjective(a: int, b: int)
    requires Itoa(a) == Itoa(b)
    ensures a == b
  {
    if a < 0 && b < 0 {
      assert NatToString(-a) == Itoa(a)[1..] == NatToString(-b);
      NatToStringValue(-a);
      NatToStringValue(-b);
    } else if a >= 0 && b >= 0 {
      NatToStringValue(a);
      NatToStringValue(b);
    }
  }

  /** A trailing newline, as a file read from disk usually ends with, makes `strconv.Atoi` fail. */
  lemma AtoiRejectsTrailingNewline(s: string)
    ensures Atoi(s + "\n") == None
  {
    var t := s + "\n";
    assert t[|t| - 1] == '\n';
  }
}
