/** Which texts mean which redirects. */
module RedirectTexts {
  import opened CStrings
  import opened Options
  import opened TokenSpec
  import opened Tokenizer
  import opened TokenRoundTrip
  import opened ProcessParser
  import opened Numerals

  /** No character of s means anything to the parser of redirects. */
  predicate Plain(s: string) { '>' !in s && '<' !in s && BACKSLASH !in s }

  lemma {:induction false} EscapePlain(s: string, isOut: bool)
    requires Plain(s)
    ensures Escape(s, Arrow(isOut)) == s
  {
    if s != "" {
      assert s[0] in s && forall c :: c in s[1..] ==> c in s;
      EscapePlain(s[1..], isOut);
      assert [s[0]] + s[1..] == s;
    }
  }

  lemma PlainSides(left: string, right: string, isOut: bool)
    requires Plain(left) && Plain(right)
    ensures Sides(left + Arrow(isOut) + right, isOut) == [left, right]
  {
    var a := Arrow(isOut);
    EscapePlain(left, isOut);
    EscapePlain(right, isOut);
    assert [left, right][1..] == [right];
    assert Line([left, right], a, a[0]) == left + [a[0]] + right;
    assert [a[0]] == a;
    RoundTrip([left, right], a, a[0], true);
  }

  lemma PlainArrow(left: string, right: string, isOut: bool)
    requires Plain(left) && Plain(right)
    ensures var t := left + Arrow(isOut) + right; HasArrow(t) && IsOut(t) == isOut
  {
    var t := left + Arrow(isOut) + right;
    assert t[|left|] == Arrow(isOut)[0];
    assert forall c :: c in t ==> c in left || c in Arrow(isOut) || c in right;
  }

  /** A plain text on each side of one arrow: the check of the two sides decides. */
  lemma PlainMeaning(left: string, right: string, isOut: bool)
    requires Plain(left) && Plain(right)
    ensures Meaning(left + Arrow(isOut) + right) == CheckRedirect(isOut, left, right)
  {
    PlainArrow(left, right, isOut);
    PlainSides(left, right, isOut);
  }

  lemma DigitsPlain(s: string)
    requires AllDigits(s)
    ensures Plain(s) && '&' !in s && NUL !in s
  {
    forall c | c in s ensures IsDigit(c) {
    }
  }

  /** `>file` sends descriptor 1 to the file, `<file` takes descriptor 0 from it. */
  lemma DefaultDescriptors(file: string)
    requires Plain(file) && file != "" && file[0] != '&'
    ensures Meaning(">" + file) == Some(Redirect(true, "", 1, file, -1))
    ensures Meaning("<" + file) == Some(Redirect(false, "", 0, file, -1))
  {
    PlainMeaning("", file, true);
    PlainMeaning("", file, false);
    assert "" + ">" + file == ">" + file && "" + "<" + file == "<" + file;
  }

  /** `n>file` and `n<file` name the descriptor on the left. */
  lemma NumberedDescriptor(n: nat, file: string, isOut: bool)
    requires n <= INT_MAX && Plain(file) && file != "" && file[0] != '&'
    ensures Meaning(Numeral(n) + Arrow(isOut) + file) == Some(Redirect(isOut, Numeral(n), n, file, -1))
  {
    DigitsPlain(Numeral(n));
    NumeralValue(n);
    PlainMeaning(Numeral(n), file, isOut);
  }

  /** `n>&m` and `n<&m` name both, like the 2>&1 of the shell. */
  lemma CopiedDescriptor(n: nat, m: nat, isOut: bool)
    requires n <= INT_MAX && m <= INT_MAX
    ensures Meaning(Numeral(n) + Arrow(isOut) + ("&" + Numeral(m)))
              == Some(Redirect(isOut, Numeral(n), n, "&" + Numeral(m), m))
  {
    DigitsPlain(Numeral(n));
    DigitsPlain(Numeral(m));
    NumeralValue(n);
    NumeralValue(m);
    var right := "&" + Numeral(m);
    assert forall c :: c in right ==> c == '&' || c in Numeral(m);
    assert right[1..] == Numeral(m);
    PlainMeaning(Numeral(n), right, isOut);
  }

  /** Exactly these texts mean nothing: no target, a descriptor on the left that is no number, or
      a target starting with '&' that is none. */
  lemma MeaninglessExactly(left: string, right: string, isOut: bool)
    requires Plain(left) && Plain(right)
    ensures Meaning(left + Arrow(isOut) + right).None? <==>
              || right == ""
              || (left != "" && !exists i: nat, j: nat :: Shape(left, i, j))
              || (right[0] == '&' && !exists i: nat, j: nat :: Shape(right[1..], i, j))
  {
    PlainMeaning(left, right, isOut);
    NumbersExactly(left);
    if right != "" {
      NumbersExactly(right[1..]);
    }
  }

  lemma ThreeSides(a: string, b: string, c: string, isOut: bool)
    requires Plain(a) && Plain(b) && Plain(c)
    ensures Sides(a + Arrow(isOut) + (b + Arrow(isOut) + c), isOut) == [a, b, c]
  {
    var w := Arrow(isOut);
    EscapePlain(a, isOut);
    EscapePlain(b, isOut);
    EscapePlain(c, isOut);
    assert [a, b, c][1..] == [b, c] && [b, c][1..] == [c] && [w[0]] == w;
    assert Line([b, c], w, w[0]) == b + w + c;
    assert Line([a, b, c], w, w[0]) == a + w + (b + w + c);
    RoundTrip([a, b, c], w, w[0], true);
  }

  /** More than one arrow of the kind that decides means nothing either. */
  lemma TwoArrows(a: string, b: string, c: string, isOut: bool)
    requires Plain(a) && Plain(b) && Plain(c)
    ensures Meaning(a + Arrow(isOut) + (b + Arrow(isOut) + c)) == None
  {
    ThreeSides(a, b, c, isOut);
    var t := a + Arrow(isOut) + (b + Arrow(isOut) + c);
    assert t[|a|] == Arrow(isOut)[0];
    assert forall x :: x in t ==> x in a || x in b || x in c || x in Arrow(isOut);
  }
}
