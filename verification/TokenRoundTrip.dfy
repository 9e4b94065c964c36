/** Quoting tokens and splitting them again gives the tokens back, at one level of splitting
    and at the two nested levels of a command line. */
module TokenRoundTrip {
  import opened TokenSpec
  import opened Tokenizer

  /** Put a backslash before every backslash and delimiter. */
  function Escape(t: string, delims: string): string {
    if t == "" then "" else EscapeChar(t[0], delims) + Escape(t[1..], delims)
  }

  function EscapeChar(c: char, delims: string): string {
    if c == BACKSLASH || c in delims then [BACKSLASH, c] else [c]
  }

  /** The escaped tokens with the delimiter d between them. */
  function Line(ts: seq<string>, delims: string, d: char): string {
    if ts == [] then ""
    else if |ts| == 1 then Escape(ts[0], delims)
    else Escape(ts[0], delims) + [d] + Line(ts[1..], delims, d)
  }

  function Lits(t: string): seq<Sym> {
    if t == "" then [] else [Lit(t[0])] + Lits(t[1..])
  }

  lemma {:induction false} LexEscape(t: string, delims: string, rest: string)
    requires BACKSLASH !in delims
    ensures Lex(Escape(t, delims) + rest, delims) == Lits(t) + Lex(rest, delims)
  {
    if t == "" {
      assert Escape(t, delims) + rest == rest;
    } else {
      LexEscape(t[1..], delims, rest);
      var tail := Escape(t[1..], delims) + rest;
      LexFirst(t[0], delims, tail);
      EscapeFirst(t, delims, rest);
      LitsFirst(t, Lex(rest, delims));
    }
  }

  lemma LitsFirst(t: string, more: seq<Sym>)
    requires t != ""
    ensures Lits(t) + more == [Lit(t[0])] + (Lits(t[1..]) + more)
  {
  }

  lemma EscapeFirst(t: string, delims: string, rest: string)
    requires t != ""
    ensures Escape(t, delims) + rest == EscapeChar(t[0], delims) + (Escape(t[1..], delims) + rest)
  {
  }

  lemma LexFirst(c: char, delims: string, tail: string)
    requires BACKSLASH !in delims
    ensures Lex(EscapeChar(c, delims) + tail, delims) == [Lit(c)] + Lex(tail, delims)
  {
    var s := EscapeChar(c, delims) + tail;
    assert s[|EscapeChar(c, delims)|..] == tail;
  }

  lemma {:induction false} FieldsLits(t: string)
    ensures Fields(Lits(t)) == [t]
  {
    if t != "" {
      FieldsLits(t[1..]);
      assert [t[0]] + t[1..] == t;
    }
  }

  lemma FieldsLine(t: string, more: seq<Sym>)
    ensures Fields(Lits(t) + [Sep] + more) == [t] + Fields(more)
  {
    FieldsLits(t);
    FieldsAddSep(Lits(t));
    FieldsConcat(Lits(t) + [Sep], more);
    LastEmptyJoins(t, Fields(more));
  }

  lemma LastEmptyJoins(t: string, fs: seq<string>)
    requires |fs| > 0
    ensures [t] + ["" + fs[0]] + fs[1..] == [t] + fs
  {
    assert "" + fs[0] == fs[0];
  }

  lemma {:induction false} FieldsOfLine(ts: seq<string>, delims: string, d: char)
    requires |ts| >= 1 && d in delims && BACKSLASH !in delims
    ensures Fields(Lex(Line(ts, delims, d), delims)) == ts
  {
    if |ts| == 1 {
      LexEscape(ts[0], delims, "");
      assert Escape(ts[0], delims) + "" == Escape(ts[0], delims);
      assert Lits(ts[0]) + [] == Lits(ts[0]);
      FieldsLits(ts[0]);
    } else {
      var rest := Line(ts[1..], delims, d);
      FieldsOfLine(ts[1..], delims, d);
      LineFirst(ts, delims, d);
      LexEscape(ts[0], delims, [d] + rest);
      LexDelimiter(d, rest, delims);
      SepBetween(Lits(ts[0]), Lex(rest, delims));
      FieldsLine(ts[0], Lex(rest, delims));
      assert ts == [ts[0]] + ts[1..];
    }
  }

  lemma LineFirst(ts: seq<string>, delims: string, d: char)
    requires |ts| >= 2
    ensures Line(ts, delims, d) == Escape(ts[0], delims) + ([d] + Line(ts[1..], delims, d))
  {
  }

  lemma LexDelimiter(d: char, rest: string, delims: string)
    requires d in delims && d != BACKSLASH
    ensures Lex([d] + rest, delims) == [Sep] + Lex(rest, delims)
  {
    assert ([d] + rest)[1..] == rest;
  }

  lemma SepBetween(a: seq<Sym>, b: seq<Sym>)
    ensures a + ([Sep] + b) == a + [Sep] + b
  {
  }

  predicate NoneEmpty(ts: seq<string>) {
    forall k :: 0 <= k < |ts| ==> ts[k] != ""
  }

  lemma {:induction false} NonEmptyIdentity(ts: seq<string>)
    requires NoneEmpty(ts)
    ensures NonEmpty(ts) == ts
  {
    if ts != [] {
      NonEmptyIdentity(ts[1..]);
    }
  }

  /** One level: any non-empty list when empty tokens are kept, any list of non-empty tokens
      when they are dropped. */
  lemma RoundTrip(ts: seq<string>, delims: string, d: char, allowEmpty: bool)
    requires d in delims && BACKSLASH !in delims
    requires if allowEmpty then |ts| >= 1 else NoneEmpty(ts)
    ensures Tokens(Line(ts, delims, d), delims, allowEmpty) == ts
  {
    if ts == [] {
      assert Lex("", delims) == [];
      assert NonEmpty([""][1..]) == [];
    } else {
      FieldsOfLine(ts, delims, d);
      if !allowEmpty {
        NonEmptyIdentity(ts);
      }
    }
  }

  /** Up to 19 tokens `parse_tokens` returns them all; with more it returns NULL, if it stays in
      its block. */
  lemma ParserRoundTrip(ts: seq<string>, delims: string, d: char, allowEmpty: bool,
                        status: Status, argc: nat, args: seq<int>, buf: string)
    requires d in delims && BACKSLASH !in delims
    requires if allowEmpty then |ts| >= 1 else NoneEmpty(ts)
    requires Result(Line(ts, delims, d), delims, allowEmpty, status, argc, args, buf)
    ensures |ts| <= 19 ==> status == Parsed && argc == |ts| && Stored(buf, args[..argc], ts)
    ensures |ts| >= 20 ==> status == if LeavesBlock(ts, |Line(ts, delims, d)|) then Overrun else TooMany
    ensures |ts| >= 20 && NoneEmpty(ts) ==> status == TooMany
  {
    RoundTrip(ts, delims, d, allowEmpty);
    if |ts| >= MAX_ARGS && NoneEmpty(ts) {
      ChecksStop(ts);
    }
  }

  // ----- a whole command line: '|' outside, whitespace inside -----

  /** The argument lists of each process of a line. */
  function Commands(processes: seq<string>): seq<seq<string>> {
    if processes == [] then []
    else [Tokens(processes[0], WHITESPACE, false)] + Commands(processes[1..])
  }

  function Quote(lists: seq<seq<string>>): (r: seq<string>)
    ensures |r| == |lists|
  {
    if lists == [] then [] else [Line(lists[0], WHITESPACE, ' ')] + Quote(lists[1..])
  }

  lemma {:induction false} CommandsOfQuote(lists: seq<seq<string>>)
    requires forall k :: 0 <= k < |lists| ==> NoneEmpty(lists[k])
    ensures Commands(Quote(lists)) == lists
  {
    if lists != [] {
      RoundTrip(lists[0], WHITESPACE, ' ', false);
      CommandsOfQuote(lists[1..]);
      assert Quote(lists)[1..] == Quote(lists[1..]);
    }
  }

  /** Quoting every argument for whitespace, then every process for '|', and splitting at both
      levels recovers the whole pipeline. */
  lemma PipelineRoundTrip(lists: seq<seq<string>>)
    requires |lists| >= 1 && forall k :: 0 <= k < |lists| ==> NoneEmpty(lists[k])
    ensures Commands(Tokens(Line(Quote(lists), PIPE, '|'), PIPE, true)) == lists
  {
    CommandsOfQuote(lists);
    RoundTrip(Quote(lists), PIPE, '|', true);
  }

  lemma ParserRoundTripAt(ts: seq<string>, k: nat, delims: string, d: char,
                          status: Status, argc: nat, args: seq<int>, buf: string)
    requires d in delims && BACKSLASH !in delims && k < |ts|
    requires Result(Line(ts, delims, d), delims, true, status, argc, args, buf)
    ensures |ts| <= 19 ==> status == Parsed && argc == |ts| < |args| && StringAt(buf, args[k], ts[k])
    ensures |ts| >= 20 ==> status != Parsed
  {
    ParserRoundTrip(ts, delims, d, true, status, argc, args, buf);
    if |ts| < MAX_ARGS {
      assert StringAt(buf, args[..argc][k], ts[k]);
    }
  }

  lemma WordsRoundTrip(ws: seq<string>, status: Status, argc: nat, args: seq<int>, buf: string)
    requires NoneEmpty(ws) && Result(Line(ws, WHITESPACE, ' '), WHITESPACE, false, status, argc, args, buf)
    ensures |ws| <= 19 ==> status == Parsed && argc == |ws| && Stored(buf, args[..argc], ws)
    ensures |ws| >= 20 ==> status == TooMany
  {
    ParserRoundTrip(ws, WHITESPACE, ' ', false, status, argc, args, buf);
  }

  /** The code at both levels: `parse_tokens` on the line and on process k of it. With at most 19
      processes of at most 19 words each, that is the whole pipeline; with more processes the line
      gives NULL, and a process with more words gives NULL. */
  lemma ParserPipelineRoundTrip(lists: seq<seq<string>>, k: nat,
                                outer: Status, count: nat, table: seq<int>, buf: string,
                                inner: Status, argc: nat, args: seq<int>, words: string)
    requires k < |lists| && NoneEmpty(lists[k])
    requires Result(Line(Quote(lists), PIPE, '|'), PIPE, true, outer, count, table, buf)
    requires Result(Quote(lists)[k], WHITESPACE, false, inner, argc, args, words)
    ensures |lists| <= 19 ==>
              outer == Parsed && count == |lists| < |table| && StringAt(buf, table[k], Quote(lists)[k])
    ensures |lists| >= 20 ==> outer != Parsed
    ensures |lists[k]| <= 19 ==> inner == Parsed && argc == |lists[k]| && Stored(words, args[..argc], lists[k])
    ensures |lists[k]| >= 20 ==> inner == TooMany
  {
    ParserRoundTripAt(Quote(lists), k, PIPE, '|', outer, count, table, buf);
    QuoteAt(lists, k);
    WordsRoundTrip(lists[k], inner, argc, args, words);
  }

  lemma {:induction false} QuoteAt(lists: seq<seq<string>>, k: nat)
    requires k < |lists|
    ensures Quote(lists)[k] == Line(lists[k], WHITESPACE, ' ')
  {
    if k > 0 {
      QuoteAt(lists[1..], k - 1);
    } else if |lists| > 1 {
      QuoteAt(lists[1..], 0);
    }
  }
}
