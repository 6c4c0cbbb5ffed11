/**
 * Decimal rendering of integers as Go's `strconv.Itoa` and Python's `str(int)`
 * produce it, its inverse, and the width-8 right justification of Go's `%8d`
 * and Python's `"{:8}".format`.
 */
module Decimal {
  import opened Basics

  predicate IsDigit(c: char)
  {
    '0' <= c <= '9'
  }

  predicate AllDigits(s: string)
  {
    forall i :: 0 <= i < |s| ==> IsDigit(s[i])
  }

  function DigitChar(d: nat): (c: char)
    requires d < 10
    ensures IsDigit(c)
    ensures c as int - '0' as int == d
  {
    ('0' as int + d) as char
  }

  /** The shortest decimal spelling of a natural number: no sign, no leading zero. */
  function Digits(n: nat): (s: string)
    ensures |s| >= 1
    ensures AllDigits(s)
    ensures s[0] == '0' ==> n == 0
  {
    if n < 10 then [DigitChar(n)] else Digits(n / 10) + [DigitChar(n % 10)]
  }

  /** `strconv.Itoa(n)` / `str(n)`: a minus sign for negatives, then the digits of |n|. */
  function Itoa(n: int): (s: string)
    ensures |s| >= 1
    ensures s[0] == '-' <==> n < 0
    ensures AllDigits(if n < 0 then s[1..] else s)
    ensures n < 0 ==> |s| >= 2 && s[1] != '0'
  {
    if n < 0 then assert ("-" + Digits(-n))[1..] == Digits(-n); "-" + Digits(-n) else Digits(n)
  }

  /** The number a run of digits spells; the empty run spells 0. */
  function DigitsValue(s: string): nat
    requires AllDigits(s)
  {
    if |s| == 0 then 0
    else DigitsValue(s[..|s| - 1]) * 10 + (s[|s| - 1] as int - '0' as int)
  }

  /** A run of digits in shortest form: not empty, and no leading zero unless it is "0". */
  predicate Canonical(s: string)
  {
    |s| >= 1 && AllDigits(s) && (s[0] == '0' ==> |s| == 1)
  }

  /**
   * Reads an integer in the spelling `strconv.Itoa` and `str(int)` produce:
   * an optional minus sign before the digits of a non-zero magnitude, no
   * leading zeros. Anything else, "007" and "-0" included, is `None`.
   */
  function ParseInt(s: string): Option<int>
  {
    if |s| >= 2 && s[0] == '-' && Canonical(s[1..]) && s[1] != '0' then Some(-(DigitsValue(s[1..]) as int))
    else if Canonical(s) then Some(DigitsValue(s))
    else None
  }

  lemma {:induction false} DigitsRoundTrip(n: nat)
    ensures DigitsValue(Digits(n)) == n
  {
    if n >= 10 {
      var p := Digits(n / 10);
      DigitsRoundTrip(n / 10);
      assert (p + [DigitChar(n % 10)])[..|p|] == p;
    }
  }

  /** Reading back what `Itoa` wrote gives the number again. */
  lemma ItoaRoundTrip(n: int)
    ensures ParseInt(Itoa(n)) == Some(n)
  {
    if n < 0 {
      var d := Digits(-n);
      assert Itoa(n) == "-" + d;
      DigitsRoundTrip(-n);
      DigitsCanonical(-n);
      ParseNegative(d);
    } else {
      var d := Digits(n);
      assert Itoa(n) == d;
      DigitsRoundTrip(n);
      DigitsCanonical(n);
      ParseNonNegative(d);
    }
  }

  lemma DigitsCanonical(n: nat)
    ensures Canonical(Digits(n))
  {
  }

  lemma ParseNegative(d: string)
    requires Canonical(d) && d[0] != '0'
    ensures ParseInt("-" + d) == Some(-(DigitsValue(d) as int))
  {
    assert ("-" + d)[1..] == d;
  }

  lemma ParseNonNegative(d: string)
    requires Canonical(d)
    ensures ParseInt(d) == Some(DigitsValue(d))
  {
  }

  /** A digit run that does not start with '0' spells a positive number. */
  lemma {:induction false} DigitsValuePositive(s: string)
    requires AllDigits(s) && |s| >= 1 && s[0] != '0'
    ensures DigitsValue(s) >= 1
    decreases |s|
  {
    if |s| > 1 {
      DigitsValuePositive(s[..|s| - 1]);
    }
  }

  /** A shortest-form digit run is the spelling of the number it reads as. */
  lemma {:induction false} DigitsOfValue(s: string)
    requires Canonical(s)
    ensures Digits(DigitsValue(s)) == s
    decreases |s|
  {
    var last := s[|s| - 1] as int - '0' as int;
    if |s| > 1 {
      var p := s[..|s| - 1];
      DigitsValuePositive(p);
      DigitsOfValue(p);
      var n := DigitsValue(s);
      assert n == DigitsValue(p) * 10 + last;
      assert n / 10 == DigitsValue(p) && n % 10 == last;
      assert s == p + [s[|s| - 1]];
    }
  }

  /** `ParseInt` accepts only the canonical spelling: whatever reads as n is `Itoa(n)`. */
  lemma ParseIntCanonical(s: string, n: int)
    requires ParseInt(s) == Some(n)
    ensures s == Itoa(n)
  {
    if |s| >= 2 && s[0] == '-' && Canonical(s[1..]) && s[1] != '0' {
      DigitsOfValue(s[1..]);
      DigitsValuePositive(s[1..]);
      assert s == "-" + s[1..];
    } else {
      DigitsOfValue(s);
    }
  }

  /** Distinct numbers are spelled differently. */
  lemma ItoaInjective(a: int, b: int)
    ensures Itoa(a) == Itoa(b) <==> a == b
  {
    ItoaRoundTrip(a);
    ItoaRoundTrip(b);
  }

  function Pow10(k: nat): (p: nat)
    ensures p >= 1
  {
    if k == 0 then 1 else 10 * Pow10(k - 1)
  }

  /** A number below 10^k needs at most k digits. */
  lemma {:induction false} DigitsLength(n: nat, k: nat)
    requires 1 <= k
    requires n < Pow10(k)
    ensures |Digits(n)| <= k
  {
    if n >= 10 {
      DigitsLength(n / 10, k - 1);
    }
  }

  /** Right-justifies `s` in a field of `width` spaces; longer text is kept whole. */
  function PadLeft(s: string, width: nat): (r: string)
    ensures |r| == if |s| >= width then |s| else width
    ensures r[|r| - |s|..] == s
    ensures forall i :: 0 <= i < |r| - |s| ==> r[i] == ' '
  {
    if |s| >= width then s else seq(width - |s|, _ => ' ') + s
  }

  /** Go's `printf "%8d"` and Python's `"{:8}".format(n)` for an integer. */
  function Pad8(n: int): (r: string)
    ensures |r| == if |Itoa(n)| >= 8 then |Itoa(n)| else 8
    ensures r[|r| - |Itoa(n)|..] == Itoa(n)
    ensures forall i :: 0 <= i < |r| - |Itoa(n)| ==> r[i] == ' '
  {
    PadLeft(Itoa(n), 8)
  }

  /** Drops leading spaces. */
  function TrimLeft(s: string): (r: string)
    ensures |r| <= |s|
  {
    if |s| > 0 && s[0] == ' ' then TrimLeft(s[1..]) else s
  }

  lemma {:induction false} TrimLeftPadding(k: nat, s: string)
    requires |s| == 0 || s[0] != ' '
    ensures TrimLeft(seq(k, _ => ' ') + s) == s
  {
    if k > 0 {
      assert (seq(k, _ => ' ') + s)[1..] == seq(k - 1, _ => ' ') + s;
      TrimLeftPadding(k - 1, s);
    } else {
      assert seq(k, _ => ' ') + s == s;
    }
  }

  /** The padded size field is one line of spaces, an optional minus sign and digits. */
  lemma Pad8Printable(n: int)
    ensures forall i :: 0 <= i < |Pad8(n)| ==> Pad8(n)[i] == ' ' || Pad8(n)[i] == '-' || IsDigit(Pad8(n)[i])
  {
    var s := Itoa(n);
    var r := Pad8(n);
    forall i | 0 <= i < |r|
      ensures r[i] == ' ' || r[i] == '-' || IsDigit(r[i])
    {
      if i >= |r| - |s| {
        assert r[i] == r[|r| - |s|..][i - (|r| - |s|)];
        if n < 0 {
          assert s[1..] == Digits(-n);
          if i - (|r| - |s|) > 0 {
            assert s[i - (|r| - |s|)] == Digits(-n)[i - (|r| - |s|) - 1];
          }
        }
      }
    }
  }

  /** The padded size field never breaks a line. */
  lemma Pad8SingleLine(n: int)
    ensures '\n' !in Pad8(n)
  {
    Pad8Printable(n);
    assert forall i :: 0 <= i < |Pad8(n)| ==> Pad8(n)[i] != '\n';
  }

  /** The padded size field keeps exactly eight columns for sizes below 10^8. */
  lemma Pad8Width(n: int)
    requires 0 <= n < 100000000
    ensures |Pad8(n)| == 8
  {
    assert Pow10(8) == 100000000;
    DigitsLength(n, 8);
  }

  /** The padded size field reads back as the size: padding is only leading spaces. */
  lemma Pad8RoundTrip(n: int)
    ensures ParseInt(TrimLeft(Pad8(n))) == Some(n)
  {
    var s := Itoa(n);
    assert s[0] != ' ';
    ItoaRoundTrip(n);
    if |s| < 8 {
      TrimLeftPadding(8 - |s|, s);
    } else {
      TrimLeftPadding(0, s);
      assert seq(0, _ => ' ') + s == s;
    }
  }
}
