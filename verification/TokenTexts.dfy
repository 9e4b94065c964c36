/** How texts are split, told by what stands in them. */
module TokenTexts {
  import opened TokenSpec
  import opened TokenRoundTrip

  /** No delimiter and no backslash in s. */
  predicate Ordinary(s: string, delims: string) {
    BACKSLASH !in s && forall c :: c in s ==> c !in delims
  }

  /** Ordinary text stays as it is, whatever follows. */
  lemma {:induction false} LexOrdinary(s: string, delims: string, rest: string)
    requires Ordinary(s, delims)
    ensures Lex(s + rest, delims) == Lits(s) + Lex(rest, delims)
  {
    if s == "" {
      assert s + rest == rest;
    } else {
      assert s[0] in s && forall c :: c in s[1..] ==> c in s;
      assert (s + rest)[1..] == s[1..] + rest;
      LexOrdinary(s[1..], delims, rest);
      LitsFirst(s, Lex(rest, delims));
    }
  }

  lemma {:induction false} LitsConcat(a: string, b: string)
    ensures Lits(a + b) == Lits(a) + Lits(b)
  {
    if a == "" {
      assert a + b == b;
    } else {
      assert (a + b)[1..] == a[1..] + b;
      LitsConcat(a[1..], b);
    }
  }

  /** A text that comes out as literal characters is one token. */
  lemma OneToken(s: string, t: string, delims: string)
    requires Lex(s, delims) == Lits(t)
    ensures Tokens(s, delims, true) == [t] && Tokens(s, delims, false) == if t == "" then [] else [t]
  {
    FieldsLits(t);
    SelectOne(t, false);
  }

  /** A backslash before a delimiter or a backslash is taken away and protects it. */
  lemma EscapeTaken(a: string, c: char, b: string, delims: string)
    requires Ordinary(a, delims) && Ordinary(b, delims) && (c == BACKSLASH || c in delims)
    ensures Tokens(a + ([BACKSLASH, c] + b), delims, false) == [a + ([c] + b)]
    ensures Tokens(a + ([BACKSLASH, c] + b), delims, true) == [a + ([c] + b)]
  {
    LexOrdinary(a, delims, [BACKSLASH, c] + b);
    assert ([BACKSLASH, c] + b)[2..] == b && b + "" == b;
    LexOrdinary(b, delims, "");
    LitsConcat([c], b);
    LitsConcat(a, [c] + b);
    OneToken(a + ([BACKSLASH, c] + b), a + ([c] + b), delims);
  }

  /** Before any other character it stays. */
  lemma EscapeKept(a: string, c: char, b: string, delims: string)
    requires Ordinary(a, delims) && Ordinary([c] + b, delims) && BACKSLASH !in delims
    ensures Tokens(a + ([BACKSLASH, c] + b), delims, false) == [a + ([BACKSLASH, c] + b)]
    ensures Tokens(a + ([BACKSLASH, c] + b), delims, true) == [a + ([BACKSLASH, c] + b)]
  {
    assert ([c] + b)[0] == c && forall x :: x in b ==> x in [c] + b;
    LexOrdinary(a, delims, [BACKSLASH, c] + b);
    assert ([BACKSLASH, c] + b)[2..] == b && b + "" == b;
    LexOrdinary(b, delims, "");
    LitsConcat([BACKSLASH, c], b);
    LitsConcat([BACKSLASH], [c]);
    LitsConcat(a, [BACKSLASH, c] + b);
    OneToken(a + ([BACKSLASH, c] + b), a + ([BACKSLASH, c] + b), delims);
  }

  /** And so does one at the end. */
  lemma EscapeLast(a: string, delims: string)
    requires Ordinary(a, delims)
    ensures Tokens(a + [BACKSLASH], delims, false) == [a + [BACKSLASH]]
    ensures Tokens(a + [BACKSLASH], delims, true) == [a + [BACKSLASH]]
  {
    LexOrdinary(a, delims, [BACKSLASH]);
    LitsConcat(a, [BACKSLASH]);
    OneToken(a + [BACKSLASH], a + [BACKSLASH], delims);
  }

  /** An unescaped delimiter ends the token before it. */
  lemma DelimiterCuts(a: string, d: char, rest: string, delims: string)
    requires Ordinary(a, delims) && d in delims && d != BACKSLASH
    ensures Tokens(a + ([d] + rest), delims, true) == [a] + Tokens(rest, delims, true)
    ensures Tokens(a + ([d] + rest), delims, false) == (if a == "" then [] else [a]) + Tokens(rest, delims, false)
  {
    LexOrdinary(a, delims, [d] + rest);
    LexDelimiter(d, rest, delims);
    SepBetween(Lits(a), Lex(rest, delims));
    FieldsLine(a, Lex(rest, delims));
    SelectConcat([a], Fields(Lex(rest, delims)), false);
    SelectOne(a, false);
  }

  /** Splitting without empty tokens is splitting with them and dropping them: the others stay,
      each as often and in the same order. */
  lemma {:induction false} DropsEmpty(fs: seq<string>, t: string)
    ensures multiset(NonEmpty(fs))[t] == if t == "" then 0 else multiset(fs)[t]
  {
    if fs != [] {
      DropsEmpty(fs[1..], t);
      assert fs == [fs[0]] + fs[1..];
    }
  }

  lemma {:induction false} DropsInOrder(fs: seq<string>, i: nat, k: nat)
    requires i < k < |NonEmpty(fs)|
    ensures exists a, b :: 0 <= a < b < |fs| && fs[a] == NonEmpty(fs)[i] && fs[b] == NonEmpty(fs)[k]
  {
    var rest, e := fs[1..], if fs[0] == "" then 0 else 1;
    if i >= e {
      DropsInOrder(rest, i - e, k - e);
      var a, b :| 0 <= a < b < |rest| && rest[a] == NonEmpty(rest)[i - e] && rest[b] == NonEmpty(rest)[k - e];
      assert fs[a + 1] == NonEmpty(fs)[i] && fs[b + 1] == NonEmpty(fs)[k];
    } else {
      NonEmptyMembers(rest);
      assert NonEmpty(rest)[k - 1] in NonEmpty(rest);
      var b :| 0 <= b < |rest| && rest[b] == NonEmpty(rest)[k - 1];
      assert fs[0] == NonEmpty(fs)[i] && fs[b + 1] == NonEmpty(fs)[k];
    }
  }
}
