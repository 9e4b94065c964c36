/** What splitting a command line into tokens means: first escapes are resolved into literal
    characters and separators, then the characters between separators are collected. */
module TokenSpec {
  import opened CStrings

  /** A character of the text, or an unescaped delimiter. */
  datatype Sym = Lit(c: char) | Sep

  const BACKSLASH := '\\'

  const PIPE := "|"
  const WHITESPACE := " \t\n\r"

  /** Resolve escapes: a backslash protects a delimiter or a backslash and is kept before any
      other character and at the end. */
  function Lex(s: string, delims: string): seq<Sym> {
    if s == "" then []
    else if s[0] == BACKSLASH then
      if |s| == 1 then [Lit(BACKSLASH)]
      else if s[1] == BACKSLASH || s[1] in delims then [Lit(s[1])] + Lex(s[2..], delims)
      else [Lit(BACKSLASH), Lit(s[1])] + Lex(s[2..], delims)
    else if s[0] in delims then [Sep] + Lex(s[1..], delims)
    else [Lit(s[0])] + Lex(s[1..], delims)
  }

  /** The texts between separators; there is always one more than there are separators. */
  function Fields(syms: seq<Sym>): (fs: seq<string>)
    ensures |fs| >= 1
  {
    if syms == [] then [""]
    else match syms[0]
      case Sep => [""] + Fields(syms[1..])
      case Lit(c) => var fs := Fields(syms[1..]); [[c] + fs[0]] + fs[1..]
  }

  function NonEmpty(fs: seq<string>): seq<string> {
    if fs == [] then [] else (if fs[0] == "" then [] else [fs[0]]) + NonEmpty(fs[1..])
  }

  function Select(fs: seq<string>, allowEmpty: bool): seq<string> {
    if allowEmpty then fs else NonEmpty(fs)
  }

  /** The tokens of a string. */
  function Tokens(s: string, delims: string, allowEmpty: bool): seq<string> {
    Select(Fields(Lex(s, delims)), allowEmpty)
  }

  // ----- splitting a sequence of symbols in two -----

  /** Two lists of fields joined: the last of one and the first of the other become one field. */
  function Join(f: seq<string>, g: seq<string>): seq<string>
    requires |f| >= 1 && |g| >= 1
  {
    f[..|f| - 1] + [f[|f| - 1] + g[0]] + g[1..]
  }

  function PutFirst(c: char, f: seq<string>): (r: seq<string>)
    requires |f| >= 1
    ensures |r| == |f|
  {
    [[c] + f[0]] + f[1..]
  }

  lemma JoinSep(f: seq<string>, g: seq<string>)
    requires |f| >= 1 && |g| >= 1
    ensures [""] + Join(f, g) == Join([""] + f, g)
  {
    var e := [""] + f;
    assert e[..|e| - 1] == [""] + f[..|f| - 1];
  }

  lemma JoinLit(c: char, f: seq<string>, g: seq<string>)
    requires |f| >= 1 && |g| >= 1
    ensures PutFirst(c, Join(f, g)) == Join(PutFirst(c, f), g)
  {
    if |f| == 1 {
      assert [c] + (f[0] + g[0]) == ([c] + f[0]) + g[0];
    } else {
      var e := PutFirst(c, f);
      assert e[..|e| - 1] == [[c] + f[0]] + f[1..|f| - 1];
      assert Join(f, g)[1..] == f[1..|f| - 1] + [f[|f| - 1] + g[0]] + g[1..];
    }
  }

  lemma {:induction false} FieldsConcat(a: seq<Sym>, b: seq<Sym>)
    ensures Fields(a + b) == Join(Fields(a), Fields(b))
  {
    if a == [] {
      assert a + b == b;
      assert "" + Fields(b)[0] == Fields(b)[0];
    } else {
      FieldsConcat(a[1..], b);
      assert (a + b)[1..] == a[1..] + b && (a + b)[0] == a[0];
      JoinSep(Fields(a[1..]), Fields(b));
      if a[0].Lit? {
        JoinLit(a[0].c, Fields(a[1..]), Fields(b));
      }
    }
  }

  lemma FieldsAddLit(a: seq<Sym>, c: char)
    ensures var f := Fields(a); var n := |f| - 1; Fields(a + [Lit(c)]) == f[..n] + [f[n] + [c]]
  {
    FieldsConcat(a, [Lit(c)]);
    assert Fields([Lit(c)]) == [[c] + ""] + [];
    assert [c] + "" == [c];
  }

  lemma FieldsAddSep(a: seq<Sym>)
    ensures Fields(a + [Sep]) == Fields(a) + [""]
  {
    FieldsConcat(a, [Sep]);
    assert Fields([Sep]) == ["", ""];
    var f := Fields(a);
    assert f[|f| - 1] + "" == f[|f| - 1];
  }

  lemma {:induction false} NonEmptyConcat(f: seq<string>, g: seq<string>)
    ensures NonEmpty(f + g) == NonEmpty(f) + NonEmpty(g)
  {
    if f == [] {
      assert f + g == g;
    } else {
      var e := if f[0] == "" then [] else [f[0]];
      NonEmptyConcat(f[1..], g);
      assert (f + g)[1..] == f[1..] + g && (f + g)[0] == f[0];
      var h, t := NonEmpty(f[1..]), NonEmpty(g);
      assert NonEmpty(f) == e + h;
      assert NonEmpty(f + g) == e + NonEmpty(f[1..] + g);
      assert e + (h + t) == (e + h) + t;
    }
  }

  lemma SelectConcat(f: seq<string>, g: seq<string>, allowEmpty: bool)
    ensures Select(f + g, allowEmpty) == Select(f, allowEmpty) + Select(g, allowEmpty)
  {
    NonEmptyConcat(f, g);
  }

  lemma SelectOne(t: string, allowEmpty: bool)
    ensures Select([t], allowEmpty) == if allowEmpty || t != "" then [t] else []
  {
    assert NonEmpty([t][1..]) == [];
  }

  // ----- general facts -----

  lemma {:induction false} FieldsCount(syms: seq<Sym>)
    ensures |Fields(syms)| == multiset(syms)[Sep] + 1
  {
    if syms != [] {
      FieldsCount(syms[1..]);
      assert syms == [syms[0]] + syms[1..];
    }
  }

  /** A text without NUL has tokens without NUL, so a terminated token reads back exactly. */
  lemma {:induction false} LexNoNul(s: string, delims: string)
    requires NUL !in s
    ensures Lit(NUL) !in Lex(s, delims)
  {
    if s == "" {
    } else if s[0] == BACKSLASH && |s| >= 2 {
      LexNoNul(s[2..], delims);
    } else {
      LexNoNul(s[1..], delims);
    }
  }

  lemma {:induction false} FieldsNoNul(syms: seq<Sym>)
    requires Lit(NUL) !in syms
    ensures forall t :: t in Fields(syms) ==> NUL !in t
  {
    if syms != [] {
      FieldsNoNul(syms[1..]);
      assert forall x :: x in syms[1..] ==> x in syms;
      var fs := Fields(syms[1..]);
      assert fs[0] in fs;
    }
  }

  lemma {:induction false} NonEmptyMembers(fs: seq<string>)
    ensures forall t :: t in NonEmpty(fs) <==> t in fs && t != ""
  {
    if fs != [] {
      NonEmptyMembers(fs[1..]);
      assert fs == [fs[0]] + fs[1..];
    }
  }

  lemma NonEmptyAt(fs: seq<string>, j: nat)
    requires j < |NonEmpty(fs)|
    ensures NonEmpty(fs)[j] != ""
  {
    NonEmptyMembers(fs);
    assert NonEmpty(fs)[j] in NonEmpty(fs);
  }

  lemma TokensNoNul(s: string, delims: string, allowEmpty: bool)
    requires NUL !in s
    ensures forall t :: t in Tokens(s, delims, allowEmpty) ==> NUL !in t
  {
    LexNoNul(s, delims);
    FieldsNoNul(Lex(s, delims));
    NonEmptyMembers(Fields(Lex(s, delims)));
  }
}
