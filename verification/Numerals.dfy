/** Which strings strtol reads as numbers, and as which: descriptors in redirects, indices of
    jobs and choices of users. */
module Numerals {
  import opened CStrings
  import opened Options

  const INT_MAX := 0x7FFF_FFFF

  function Digit(d: nat): char
    requires d < 10
  {
    '0' + d as char
  }

  /** n written in decimal. */
  function Numeral(n: nat): (s: string)
    ensures s != "" && AllDigits(s)
  {
    if n < 10 then [Digit(n)] else Numeral(n / 10) + [Digit(n % 10)]
  }

  predicate AllDigits(s: string) {
    forall i :: 0 <= i < |s| ==> IsDigit(s[i])
  }

  /** Spaces, perhaps a sign, and at least one digit, from position i and j on. */
  predicate Shape(s: string, i: nat, j: nat) {
    && i <= j < |s| && (forall k :: 0 <= k < i ==> IsSpace(s[k]))
    && (j == i || (j == i + 1 && (s[i] == '-' || s[i] == '+')))
    && AllDigits(s[j..])
  }

  lemma {:induction false} DigitsSplit(a: string, b: string, v: int)
    requires AllDigits(a)
    ensures Digits(a + b, v) == Digits(b, Digits(a, v).0) && Digits(a, v).1 == ""
  {
    if a == "" {
      assert a + b == b;
    } else {
      assert (a + b)[1..] == a[1..] + b;
      DigitsSplit(a[1..], b, 10 * v + a[0] as int - '0' as int);
    }
  }

  lemma {:induction false} DigitsOfNumeral(n: nat)
    ensures Digits(Numeral(n), 0) == (n, "")
  {
    if n >= 10 {
      DigitsOfNumeral(n / 10);
      DigitsSplit(Numeral(n / 10), [Digit(n % 10)], 0);
      assert Digits([Digit(n % 10)], n / 10) == (n, "");
    } else {
      assert Digits([Digit(n)], 0) == (n, "");
    }
  }

  lemma {:induction false} Skipped(pre: string, s: string)
    requires (forall k :: 0 <= k < |pre| ==> IsSpace(pre[k])) && s != "" && !IsSpace(s[0])
    ensures SkipSpaces(pre + s) == s
  {
    if pre == "" {
      assert pre + s == s;
    } else {
      assert (pre + s)[1..] == pre[1..] + s;
      Skipped(pre[1..], s);
    }
  }

  /** v is the int in the low 32 bits of n. */
  predicate Truncates(v: int, n: int) {
    -INT_MAX - 1 <= v <= INT_MAX && (n - v) % 0x1_0000_0000 == 0
  }

  /** Blanks are the six characters of isspace. */
  lemma BlanksExactly(c: char)
    ensures IsSpace(c) <==> c in [' ', '\t', '\n', '\U{0B}', '\U{0C}', '\r']
  {
  }

  /** A numeral with or without spaces before it is its own value, if an int holds it; up to the
      largest long only the low 32 bits count; and larger ones read as -1. */
  lemma NumeralRead(pre: string, n: nat)
    requires forall k :: 0 <= k < |pre| ==> IsSpace(pre[k])
    ensures var r := WholeNumber(pre + Numeral(n));
            && r.Some?
            && (n <= INT_MAX ==> r.value == n)
            && (n <= 0x7FFF_FFFF_FFFF_FFFF ==> Truncates(r.value, n))
            && (n > 0x7FFF_FFFF_FFFF_FFFF ==> r.value == -1)
  {
    Skipped(pre, Numeral(n));
    DigitsOfNumeral(n);
  }

  /** With a minus sign the same holds of the opposite, and what is below the smallest long reads
      as 0. */
  lemma NegativeRead(n: nat)
    ensures var r := WholeNumber("-" + Numeral(n));
            && r.Some?
            && (n <= INT_MAX + 1 ==> r.value == 0 - n)
            && (n <= 0x8000_0000_0000_0000 ==> Truncates(r.value, 0 - n))
            && (n > 0x8000_0000_0000_0000 ==> r.value == 0)
  {
    NegativeWhole(n);
    NegativeInt(0 - n);
  }

  lemma NegativeWhole(n: nat)
    ensures var r := WholeNumber("-" + Numeral(n)); r.Some? && r.value == ToInt(Clamp(0 - n))
  {
    SignSkipped('-', n);
    DigitsOfNumeral(n);
  }

  lemma NegativeInt(v: int)
    requires v <= 0
    ensures var r := ToInt(Clamp(v));
            && (v >= -INT_MAX - 1 ==> r == v)
            && (v >= -0x8000_0000_0000_0000 ==> Truncates(r, v))
            && (v < -0x8000_0000_0000_0000 ==> r == 0)
  {
  }

  lemma SignSkipped(sign: char, n: nat)
    requires sign == '-' || sign == '+'
    ensures SkipSpaces([sign] + Numeral(n)) == [sign] + Numeral(n) && ([sign] + Numeral(n))[1..] == Numeral(n)
  {
    Skipped("", [sign] + Numeral(n));
    assert "" + ([sign] + Numeral(n)) == [sign] + Numeral(n);
  }

  /** A plus sign changes nothing. */
  lemma PlusRead(n: nat)
    ensures WholeNumber("+" + Numeral(n)) == WholeNumber(Numeral(n))
  {
    SignSkipped('+', n);
    Skipped("", Numeral(n));
    assert "" + Numeral(n) == Numeral(n);
  }

  lemma NumeralValue(n: nat)
    requires n <= INT_MAX
    ensures WholeNumber(Numeral(n)) == Some(n)
  {
    NumeralRead("", n);
    assert "" + Numeral(n) == Numeral(n);
  }

  lemma {:induction false} DigitsAll(s: string, v: int)
    ensures Digits(s, v).1 == "" <==> AllDigits(s)
  {
    if s != "" && IsDigit(s[0]) {
      DigitsAll(s[1..], 10 * v + s[0] as int - '0' as int);
    }
  }

  lemma {:induction false} SpacesBefore(s: string) returns (i: nat)
    ensures i <= |s| && SkipSpaces(s) == s[i..] && (forall k :: 0 <= k < i ==> IsSpace(s[k]))
    ensures i < |s| ==> !IsSpace(s[i])
  {
    if s != "" && IsSpace(s[0]) {
      var j := SpacesBefore(s[1..]);
      assert s[1..][j..] == s[j + 1..];
      i := j + 1;
    } else {
      i := 0;
    }
  }

  /** The whole string is read as a number exactly if it consists of spaces, perhaps a sign, and
      at least one digit: nothing may follow. */
  lemma NumbersExactly(s: string)
    ensures WholeNumber(s).Some? <==> exists i: nat, j: nat :: Shape(s, i, j)
  {
    var i := SpacesBefore(s);
    var t := s[i..];
    var j := if t != "" && (t[0] == '-' || t[0] == '+') then i + 1 else i;
    assert j > i ==> t[1..] == s[j..];
    DigitsAll(s[j..], 0);
    if WholeNumber(s).Some? {
      assert Shape(s, i, j);
    }
    if exists a: nat, b: nat :: Shape(s, a, b) {
      var a: nat, b: nat :| Shape(s, a, b);
      OnlyShape(s, i, a, b);
      assert AllDigits(s[j..]) && j < |s|;
    }
  }

  lemma OnlyShape(s: string, i: nat, i': nat, j': nat)
    requires Shape(s, i', j') && i <= |s| && (forall k :: 0 <= k < i ==> IsSpace(s[k])) && (i < |s| ==> !IsSpace(s[i]))
    ensures i == i'
  {
    assert !IsSpace(s[i']) by {
      if j' == i' {
        assert IsDigit(s[j'..][0]);
      }
    }
  }
}
