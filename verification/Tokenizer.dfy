/** `parse_tokens` of lsh: one pass over the command that unescapes it into a buffer of exactly
    len + 1 characters and records where each token starts. One block of memory holds the table
    of pointers and, behind it, the buffer. */
module Tokenizer {
  import opened CStrings
  import opened TokenSpec

  const MAX_ARGS := 20

  /** A null entry of the pointer table. */
  const NULL := -1

  const POINTER_SIZE := 8

  /** TooMany: the code returns NULL. Overrun: it is about to store a pointer outside the block. */
  datatype Status = Parsed | TooMany | Overrun

  /** The string t is stored at offset p and terminated. */
  predicate StringAt(buf: string, p: int, t: string) {
    0 <= p && p + |t| < |buf| && buf[p..p + |t|] == t && buf[p + |t|] == NUL
  }

  /** The pointers designate the tokens ts, one after the other. */
  ghost predicate Stored(buf: string, ptrs: seq<int>, ts: seq<string>) {
    |ptrs| >= |ts| && forall k :: 0 <= k < |ts| ==> StringAt(buf, ptrs[k], ts[k])
  }

  /** The pointers that fit into the block behind a command of len characters: the table's
      entries, and those that a store behind the table still puts into the buffer. */
  function Room(len: nat): nat { MAX_ARGS + 1 + (len + 1) / POINTER_SIZE }

  /** The first push of a non-empty token from index j on is the last one. */
  function StopAt(ts: seq<string>, j: nat): (r: nat)
    requires j <= |ts|
    ensures j <= r <= |ts|
    decreases |ts| - j
  {
    if j == |ts| then j else if ts[j] != "" then j + 1 else StopAt(ts, j + 1)
  }

  /** The pointers stored: only the push of a non-empty token checks their number. */
  function Pushed(ts: seq<string>): nat {
    if |ts| < MAX_ARGS then |ts| else StopAt(ts, MAX_ARGS - 1)
  }

  predicate LeavesBlock(ts: seq<string>, len: nat) { Pushed(ts) > Room(len) }

  lemma {:induction false} StopsBehind(ts: seq<string>, j: nat, n: nat)
    requires j <= n < |ts| && forall i :: j <= i < n ==> ts[i] == ""
    ensures StopAt(ts, j) >= n + 1 && (ts[n] != "" || |ts| == n + 1 ==> StopAt(ts, j) == n + 1)
    decreases n - j
  {
    if j < n {
      StopsBehind(ts, j + 1, n);
    }
  }

  /** Behind closed tokens that were pushed without a check, another token is pushed. */
  lemma PushedBehind(ts: seq<string>, done: seq<string>)
    requires done <= ts && |done| < |ts| && LateEmpty(done)
    ensures |done| >= MAX_ARGS - 1 ==>
              Pushed(ts) >= |done| + 1 && (ts[|done|] != "" || |ts| == |done| + 1 ==> Pushed(ts) == |done| + 1)
  {
    if |done| >= MAX_ARGS - 1 {
      forall i | MAX_ARGS - 1 <= i < |done| ensures ts[i] == "" {
        assert done[i] == ts[i];
      }
      StopsBehind(ts, MAX_ARGS - 1, |done|);
    }
  }

  lemma StoredGrows(buf: string, more: string, ptrs: seq<int>, ts: seq<string>)
    requires Stored(buf, ptrs, ts)
    ensures Stored(buf + more, ptrs, ts)
  {
    forall k | 0 <= k < |ts| ensures StringAt(buf + more, ptrs[k], ts[k]) {
      var p, n := ptrs[k], |ts[k]|;
      assert StringAt(buf, p, ts[k]);
      assert (buf + more)[p..p + n] == buf[p..p + n];
    }
  }

  lemma StoredAdd(buf: string, ptrs: seq<int>, ts: seq<string>, t: string)
    requires Stored(buf, ptrs, ts) && |ptrs| > |ts| && StringAt(buf, ptrs[|ts|], t)
    ensures Stored(buf, ptrs, ts + [t])
  {
  }

  /** What the loop has produced: `done` are the closed tokens, `cur` the text of the open one.
      `out` is the buffer written so far and `ptrs` the table filled so far; `addArg` says that
      no pointer has been pushed for the open token yet. */
  ghost predicate Progress(syms: seq<Sym>, allowEmpty: bool, addArg: bool,
                           done: seq<string>, cur: string, out: string, ptrs: seq<int>) {
    var fs := Fields(syms); var n := |fs| - 1;
    && done == Select(fs[..n], allowEmpty) && cur == fs[n]
    && |ptrs| == |done| + (if addArg then 0 else 1)
    && Stored(out, ptrs, done)
    && (addArg ==> cur == "")
    && (!addArg ==> 0 <= ptrs[|done|] && ptrs[|done|] + |cur| == |out| && out[ptrs[|done|]..] == cur)
  }

  lemma AddLit(syms: seq<Sym>, allowEmpty: bool, done: seq<string>, cur: string, out: string, ptrs: seq<int>, c: char)
    requires Progress(syms, allowEmpty, false, done, cur, out, ptrs)
    ensures Progress(syms + [Lit(c)], allowEmpty, false, done, cur + [c], out + [c], ptrs)
  {
    FieldsAddLit(syms, c);
    StoredGrows(out, [c], ptrs, done);
    var fs := Fields(syms);
    var n := |fs| - 1;
    assert (fs[..n] + [fs[n] + [c]])[..n] == fs[..n];
    assert (out + [c])[ptrs[|done|]..] == out[ptrs[|done|]..] + [c];
  }

  lemma OpenToken(syms: seq<Sym>, allowEmpty: bool, done: seq<string>, cur: string, out: string, ptrs: seq<int>)
    requires Progress(syms, allowEmpty, true, done, cur, out, ptrs)
    ensures Progress(syms, allowEmpty, false, done, cur, out, ptrs + [|out|])
  {
  }

  /** A separator closes the open token, or stands behind an empty one that is kept. */
  lemma CloseToken(syms: seq<Sym>, allowEmpty: bool, done: seq<string>, cur: string, out: string, ptrs: seq<int>)
    requires Progress(syms, allowEmpty, false, done, cur, out, ptrs)
    requires allowEmpty || cur != ""
    ensures Progress(syms + [Sep], allowEmpty, true, done + [cur], "", out + [NUL], ptrs)
  {
    FieldsAddSep(syms);
    StoredGrows(out, [NUL], ptrs, done);
    var fs := Fields(syms);
    var n := |fs| - 1;
    assert fs == fs[..n] + [fs[n]];
    assert (fs + [""])[..n + 1] == fs;
    SelectConcat(fs[..n], [cur], allowEmpty);
    SelectOne(cur, allowEmpty);
    var p := ptrs[|done|];
    assert (out + [NUL])[p..p + |cur|] == out[p..];
    StoredAdd(out + [NUL], ptrs, done, cur);
  }

  lemma SkipSeparator(syms: seq<Sym>, done: seq<string>, cur: string, out: string, ptrs: seq<int>)
    requires Progress(syms, false, true, done, cur, out, ptrs)
    ensures Progress(syms + [Sep], false, true, done, "", out, ptrs)
  {
    FieldsAddSep(syms);
    var fs := Fields(syms);
    var n := |fs| - 1;
    assert fs == fs[..n] + [fs[n]];
    assert (fs + [""])[..n + 1] == fs;
    SelectConcat(fs[..n], [cur], false);
    SelectOne(cur, false);
  }

  /** The whole text's tokens: the closed ones, the open one if it counts, and the others. */
  lemma ClosedThenOpen(syms: seq<Sym>, more: seq<Sym>, allowEmpty: bool)
    ensures var fs, gs := Fields(syms), Fields(more); var n := |fs| - 1; var t := fs[n] + gs[0];
            Select(Fields(syms + more), allowEmpty)
              == Select(fs[..n], allowEmpty)
                   + ((if allowEmpty || t != "" then [t] else []) + Select(gs[1..], allowEmpty))
  {
    var fs, gs := Fields(syms), Fields(more);
    var n := |fs| - 1;
    var t := fs[n] + gs[0];
    FieldsConcat(syms, more);
    assert Fields(syms + more) == fs[..n] + ([t] + gs[1..]);
    SelectConcat(fs[..n], [t] + gs[1..], allowEmpty);
    SelectConcat([t], gs[1..], allowEmpty);
    SelectOne(t, allowEmpty);
  }

  lemma NextField(cur: string, more: seq<Sym>)
    ensures more == [] || more[0] == Sep ==> cur + Fields(more)[0] == cur
    ensures more != [] && more[0].Lit? ==> cur + Fields(more)[0] != ""
    ensures cur != "" ==> cur + Fields(more)[0] != ""
  {
    if more == [] || more[0] == Sep {
      assert Fields(more)[0] == "";
    }
  }

  lemma PrefixAt(done: seq<string>, part: seq<string>, tail: seq<string>)
    ensures done <= done + (part + tail)
    ensures |part| == 1 ==> |done + (part + tail)| > |done| && (done + (part + tail))[|done|] == part[0]
  {
  }

  /** The closed tokens are the first tokens of the whole text; a literal coming next makes the
      open one non-empty, and if empty tokens are kept there is always one more. */
  lemma ClosedFirst(syms: seq<Sym>, more: seq<Sym>, allowEmpty: bool)
    ensures var fs := Fields(syms); var n := |fs| - 1;
            var done := Select(fs[..n], allowEmpty); var all := Select(Fields(syms + more), allowEmpty);
            && done <= all
            && (allowEmpty || (more != [] && more[0].Lit?) || fs[n] != "" ==> |all| > |done|)
            && (allowEmpty && (more == [] || more[0] == Sep) ==> all[|done|] == fs[n])
            && (more != [] && more[0].Lit? ==> all[|done|] != "")
  {
    var fs, gs := Fields(syms), Fields(more);
    var n := |fs| - 1;
    var t := fs[n] + gs[0];
    ClosedThenOpen(syms, more, allowEmpty);
    NextField(fs[n], more);
    PrefixAt(Select(fs[..n], allowEmpty), if allowEmpty || t != "" then [t] else [], Select(gs[1..], allowEmpty));
  }

  /** Position 19 and later hold only tokens pushed without a bound check, which are empty. */
  ghost predicate LateEmpty(done: seq<string>) {
    forall j :: MAX_ARGS - 1 <= j < |done| ==> done[j] == ""
  }

  /** The symbols still to be read when `escaped` records a pending backslash. */
  function Pending(command: string, i: nat, escaped: bool): string
    requires i <= |command|
  {
    if escaped then [BACKSLASH] + command[i..] else command[i..]
  }

  lemma PendingStep(command: string, i: nat, escaped: bool, delims: string)
    requires i < |command| && BACKSLASH !in delims
    ensures var c := command[i];
            && (escaped && (c in delims || c == BACKSLASH) ==>
                 Lex(Pending(command, i, true), delims) == [Lit(c)] + Lex(Pending(command, i + 1, false), delims))
            && (escaped && c !in delims && c != BACKSLASH ==>
                 Lex(Pending(command, i, true), delims)
                   == [Lit(BACKSLASH), Lit(c)] + Lex(Pending(command, i + 1, false), delims))
            && (!escaped && c == BACKSLASH ==> Pending(command, i, false) == Pending(command, i + 1, true))
            && (!escaped && c != BACKSLASH && c !in delims ==>
                 Lex(Pending(command, i, false), delims) == [Lit(c)] + Lex(Pending(command, i + 1, false), delims))
            && (!escaped && c in delims ==>
                 Lex(Pending(command, i, false), delims) == [Sep] + Lex(Pending(command, i + 1, false), delims))
  {
    var c := command[i];
    assert command[i..] == [c] + command[i + 1..];
    if escaped {
      var p := Pending(command, i, true);
      assert p[0] == BACKSLASH && p[1] == c && p[2..] == command[i + 1..];
    }
  }

  /** After the loop: a pending backslash is kept, and an empty last token is pushed if empty
      tokens are wanted. */
  lemma AtEnd(command: string, delims: string, allowEmpty: bool, syms: seq<Sym>, escaped: bool, done: seq<string>)
    requires Lex(command, delims) == syms + Lex(Pending(command, |command|, escaped), delims)
    requires done == Select(Fields(syms)[..|Fields(syms)| - 1], allowEmpty)
    ensures escaped ==> Lex(command, delims) == syms + [Lit(BACKSLASH)]
    ensures !escaped ==>
      var cur := Fields(syms)[|Fields(syms)| - 1];
      Tokens(command, delims, allowEmpty) == if allowEmpty || cur != "" then done + [cur] else done
  {
    assert Pending(command, |command|, true) == [BACKSLASH];
    assert Lex("", delims) == [];
    var fs := Fields(syms);
    var n := |fs| - 1;
    assert fs == fs[..n] + [fs[n]];
    SelectConcat(fs[..n], [fs[n]], allowEmpty);
    SelectOne(fs[n], allowEmpty);
    assert syms + [] == syms;
  }

  /** The same with an open token whose text is complete. */
  lemma Complete(syms: seq<Sym>, allowEmpty: bool, done: seq<string>, cur: string, out: string, ptrs: seq<int>)
    requires Progress(syms, allowEmpty, false, done, cur, out, ptrs) && (allowEmpty || cur != "")
    ensures Select(Fields(syms), allowEmpty) == done + [cur]
    ensures Stored(out + [NUL], ptrs, done + [cur]) && |ptrs| == |done| + 1
  {
    var fs := Fields(syms);
    var n := |fs| - 1;
    assert fs == fs[..n] + [fs[n]];
    SelectConcat(fs[..n], [fs[n]], allowEmpty);
    SelectOne(fs[n], allowEmpty);
    CloseToken(syms, allowEmpty, done, cur, out, ptrs);
  }

  /** The ghost side of the scan: symbols read, tokens closed, text of the open token, output. */
  datatype Trace = Trace(syms: seq<Sym>, done: seq<string>, cur: string, out: string)

  function Char(g: Trace, c: char): Trace {
    Trace(g.syms + [Lit(c)], g.done, g.cur + [c], g.out + [c])
  }

  function Close(g: Trace): Trace {
    Trace(g.syms + [Sep], g.done + [g.cur], "", g.out + [NUL])
  }

  function Skip(g: Trace): Trace {
    Trace(g.syms + [Sep], g.done, "", g.out)
  }

  /** The loop invariant of the scan, before character i. */
  ghost predicate Scan(command: string, delims: string, allowEmpty: bool, i: nat,
                       escaped: bool, addArg: bool, g: Trace, ptrs: seq<int>) {
    && i <= |command| && |g.out| + (if escaped then 1 else 0) <= i
    && (!addArg ==> |ptrs| < MAX_ARGS)
    && (escaped ==> !addArg) && (!addArg && !escaped ==> g.cur != "")
    && Progress(g.syms, allowEmpty, addArg, g.done, g.cur, g.out, ptrs)
    && LateEmpty(g.done)
    && Lex(command, delims) == g.syms + Lex(Pending(command, i, escaped), delims)
  }

  /** The symbols read extended by the ones the next character contributes. */
  lemma Consume(command: string, delims: string, i: nat, escaped: bool, syms: seq<Sym>, read: seq<Sym>, escaped': bool)
    requires i < |command|
    requires Lex(command, delims) == syms + Lex(Pending(command, i, escaped), delims)
    requires Lex(Pending(command, i, escaped), delims) == read + Lex(Pending(command, i + 1, escaped'), delims)
    ensures Lex(command, delims) == (syms + read) + Lex(Pending(command, i + 1, escaped'), delims)
  {
  }

  lemma OnSeparator(command: string, delims: string, allowEmpty: bool, i: nat, addArg: bool, g: Trace, ptrs: seq<int>)
    requires BACKSLASH !in delims && i < |command| && command[i] in delims
    requires Scan(command, delims, allowEmpty, i, false, addArg, g, ptrs)
    ensures !addArg ==> Scan(command, delims, allowEmpty, i + 1, false, true, Close(g), ptrs)
    ensures addArg && !allowEmpty ==> Scan(command, delims, allowEmpty, i + 1, false, true, Skip(g), ptrs)
  {
    PendingStep(command, i, false, delims);
    Consume(command, delims, i, false, g.syms, [Sep], false);
    if !addArg {
      CloseToken(g.syms, allowEmpty, g.done, g.cur, g.out, ptrs);
    } else if !allowEmpty {
      SkipSeparator(g.syms, g.done, g.cur, g.out, ptrs);
    }
  }

  /** An empty token that is kept: pushed and closed at once, or over the end of the table. */
  lemma OnEmptyToken(command: string, delims: string, i: nat, g: Trace, ptrs: seq<int>)
    requires BACKSLASH !in delims && i < |command| && command[i] in delims
    requires Scan(command, delims, true, i, false, true, g, ptrs)
    ensures Scan(command, delims, true, i + 1, false, true, Close(g), ptrs + [|g.out|])
    ensures |ptrs| >= MAX_ARGS ==> Pushed(Tokens(command, delims, true)) > |ptrs|
  {
    PendingStep(command, i, false, delims);
    Consume(command, delims, i, false, g.syms, [Sep], false);
    ClosedFirst(g.syms, Lex(Pending(command, i, false), delims), true);
    PushedBehind(Tokens(command, delims, true), g.done);
    OpenToken(g.syms, true, g.done, g.cur, g.out, ptrs);
    CloseToken(g.syms, true, g.done, g.cur, g.out, ptrs + [|g.out|]);
  }

  /** A token that gets a character: room for its pointer, or one of the two failures. */
  lemma OnFirstChar(command: string, delims: string, allowEmpty: bool, i: nat, g: Trace, ptrs: seq<int>)
    requires BACKSLASH !in delims && i < |command| && command[i] !in delims
    requires Scan(command, delims, allowEmpty, i, false, true, g, ptrs)
    ensures var ts := Tokens(command, delims, allowEmpty);
            |ptrs| >= MAX_ARGS - 1 ==> |ts| >= MAX_ARGS && Pushed(ts) == |ptrs| + 1
    ensures Progress(g.syms, allowEmpty, false, g.done, g.cur, g.out, ptrs + [|g.out|])
  {
    var more := Lex(Pending(command, i, false), delims);
    FirstLit(command, i, delims);
    ClosedFirst(g.syms, more, allowEmpty);
    PushedBehind(Tokens(command, delims, allowEmpty), g.done);
    OpenToken(g.syms, allowEmpty, g.done, g.cur, g.out, ptrs);
  }

  lemma FirstLit(command: string, i: nat, delims: string)
    requires i < |command| && command[i] !in delims
    ensures var more := Lex(Pending(command, i, false), delims); more != [] && more[0].Lit?
  {
  }

  /** The open token's pointer has been pushed and there was room for it. */
  ghost predicate Open(command: string, delims: string, allowEmpty: bool, i: nat,
                       escaped: bool, g: Trace, ptrs: seq<int>) {
    && i < |command| && |g.out| + (if escaped then 1 else 0) <= i
    && |ptrs| < MAX_ARGS
    && Progress(g.syms, allowEmpty, false, g.done, g.cur, g.out, ptrs)
    && LateEmpty(g.done)
    && Lex(command, delims) == g.syms + Lex(Pending(command, i, escaped), delims)
  }

  lemma OnBackslash(command: string, delims: string, allowEmpty: bool, i: nat, g: Trace, ptrs: seq<int>)
    requires BACKSLASH !in delims && i < |command| && command[i] == BACKSLASH
    requires Open(command, delims, allowEmpty, i, false, g, ptrs)
    ensures Scan(command, delims, allowEmpty, i + 1, true, false, g, ptrs)
  {
    PendingStep(command, i, false, delims);
  }

  lemma OnChar(command: string, delims: string, allowEmpty: bool, i: nat, escaped: bool, g: Trace, ptrs: seq<int>)
    requires BACKSLASH !in delims && i < |command|
    requires escaped <==> command[i] in delims || command[i] == BACKSLASH
    requires Open(command, delims, allowEmpty, i, escaped, g, ptrs)
    ensures Scan(command, delims, allowEmpty, i + 1, false, false, Char(g, command[i]), ptrs)
  {
    PendingStep(command, i, escaped, delims);
    Consume(command, delims, i, escaped, g.syms, [Lit(command[i])], false);
    AddLit(g.syms, allowEmpty, g.done, g.cur, g.out, ptrs, command[i]);
  }

  /** A backslash before an ordinary character stays. */
  lemma OnKeptBackslash(command: string, delims: string, allowEmpty: bool, i: nat, g: Trace, ptrs: seq<int>)
    requires BACKSLASH !in delims && i < |command| && command[i] !in delims && command[i] != BACKSLASH
    requires Open(command, delims, allowEmpty, i, true, g, ptrs)
    ensures Scan(command, delims, allowEmpty, i + 1, false, false, Char(Char(g, BACKSLASH), command[i]), ptrs)
  {
    PendingStep(command, i, true, delims);
    Consume(command, delims, i, true, g.syms, [Lit(BACKSLASH), Lit(command[i])], false);
    AddLit(g.syms, allowEmpty, g.done, g.cur, g.out, ptrs, BACKSLASH);
    var h := Char(g, BACKSLASH);
    AddLit(h.syms, allowEmpty, h.done, h.cur, h.out, ptrs, command[i]);
    assert (g.syms + [Lit(BACKSLASH)]) + [Lit(command[i])] == g.syms + [Lit(BACKSLASH), Lit(command[i])];
  }

  /** What the caller gets. */
  ghost predicate Result(command: string, delims: string, allowEmpty: bool, status: Status,
                         argc: nat, args: seq<int>, buf: string) {
    var ts := Tokens(command, delims, allowEmpty);
    && (status == Overrun <==> LeavesBlock(ts, |command|))
    && (status == TooMany <==> !LeavesBlock(ts, |command|) && |ts| >= MAX_ARGS)
    && (status == Parsed ==> argc == |ts| < |args| && args[argc] == NULL && Stored(buf, args[..argc], ts))
    && (status != Parsed ==> argc == 0)
  }

  lemma FewNonEmpty(fs: seq<string>)
    requires LateEmpty(NonEmpty(fs))
    ensures |NonEmpty(fs)| < MAX_ARGS
  {
    if |NonEmpty(fs)| >= MAX_ARGS {
      NonEmptyAt(fs, MAX_ARGS - 1);
    }
  }

  lemma Finished(command: string, delims: string, allowEmpty: bool, escaped: bool, addArg: bool,
                 g: Trace, ptrs: seq<int>)
    requires Scan(command, delims, allowEmpty, |command|, escaped, addArg, g, ptrs)
    ensures !addArg && !escaped ==>
              Tokens(command, delims, allowEmpty) == g.done + [g.cur] && Stored(g.out + [NUL], ptrs, g.done + [g.cur])
    ensures escaped ==>
              var h := Char(g, BACKSLASH);
              Tokens(command, delims, allowEmpty) == h.done + [h.cur] && Stored(h.out + [NUL], ptrs, h.done + [h.cur])
    ensures addArg && !allowEmpty ==>
              && Tokens(command, delims, allowEmpty) == g.done
              && Stored(g.out + [NUL], ptrs, g.done) && |g.done| < MAX_ARGS
    ensures addArg && allowEmpty ==>
              && Tokens(command, delims, allowEmpty) == g.done + [""]
              && Stored(g.out + [NUL], ptrs + [|g.out|], g.done + [""])
    ensures addArg && allowEmpty && |ptrs| >= MAX_ARGS - 1 ==>
              Pushed(Tokens(command, delims, allowEmpty)) == |ptrs| + 1
  {
    AtEnd(command, delims, allowEmpty, g.syms, escaped, g.done);
    if escaped {
      AddLit(g.syms, allowEmpty, g.done, g.cur, g.out, ptrs, BACKSLASH);
      var h := Char(g, BACKSLASH);
      Complete(h.syms, allowEmpty, h.done, h.cur, h.out, ptrs);
    } else if !addArg {
      Complete(g.syms, allowEmpty, g.done, g.cur, g.out, ptrs);
    } else if allowEmpty {
      OpenToken(g.syms, allowEmpty, g.done, g.cur, g.out, ptrs);
      Complete(g.syms, allowEmpty, g.done, g.cur, g.out, ptrs + [|g.out|]);
      PushedBehind(g.done + [""], g.done);
    } else {
      StoredGrows(g.out, [NUL], ptrs, g.done);
      FewNonEmpty(Fields(g.syms)[..|Fields(g.syms)| - 1]);
    }
  }

  /** Table and buffer hold what the trace says, until a pointer stored behind the table has
      overwritten part of the buffer. */
  ghost predicate Synced(args: array<int>, buffer: array<char>, argc: nat, bp: nat, g: Trace, ptrs: seq<int>)
    reads args, buffer
  {
    && args.Length == MAX_ARGS + 1 && argc == |ptrs| && bp == |g.out| <= buffer.Length
    && (argc <= MAX_ARGS + 1 ==> args[..argc] == ptrs && buffer[..bp] == g.out)
  }

  /** arguments[k] = p; behind the table this overwrites buffer characters with the pointer's
      bytes, whatever they are. */
  method StorePointer(args: array<int>, buffer: array<char>, k: nat, p: nat)
    requires args.Length == MAX_ARGS + 1 && buffer.Length > 0 && k < Room(buffer.Length - 1)
    modifies args, buffer
    ensures k <= MAX_ARGS ==> args[..] == old(args[..])[k := p] && buffer[..] == old(buffer[..])
  {
    if k <= MAX_ARGS {
      args[k] := p;
    } else {
      var j, end := POINTER_SIZE * (k - MAX_ARGS - 1), POINTER_SIZE * (k - MAX_ARGS);
      while j < end
        invariant j <= end <= buffer.Length
      {
        buffer[j] := *;
        j := j + 1;
      }
    }
  }

  lemma Extended(args: seq<int>, ptrs: seq<int>, k: nat, p: int)
    requires k < |args| && args[..k] == ptrs
    ensures args[k := p][..k + 1] == ptrs + [p]
  {
  }

  /** The branch for an unescaped delimiter when empty tokens are kept and none is open. */
  method EmptyToken(command: string, delims: string, i: nat,
                    args: array<int>, buffer: array<char>, argc: nat, bp: nat, ghost g: Trace, ghost ptrs: seq<int>)
    returns (status: Status, argc': nat, bp': nat, ghost g': Trace, ghost ptrs': seq<int>)
    requires BACKSLASH !in delims && i < |command| && command[i] in delims && buffer.Length == |command| + 1
    requires Synced(args, buffer, argc, bp, g, ptrs)
    requires Scan(command, delims, true, i, false, true, g, ptrs)
    modifies args, buffer
    ensures status == Parsed || (status == Overrun && LeavesBlock(Tokens(command, delims, true), |command|))
    ensures status == Parsed ==>
              && Synced(args, buffer, argc', bp', g', ptrs')
              && Scan(command, delims, true, i + 1, false, true, g', ptrs')
  {
    OnEmptyToken(command, delims, i, g, ptrs);
    status, argc', bp', g', ptrs' := Parsed, argc, bp, g, ptrs;
    if argc >= Room(|command|) {
      status := Overrun;
      return;
    }
    ghost var was := args[..];
    StorePointer(args, buffer, argc, bp);
    argc', ptrs' := argc + 1, ptrs + [bp];
    if argc <= MAX_ARGS {
      Extended(was, ptrs, argc, bp);
      assert buffer[..bp] == g.out;
    }
    buffer[bp] := NUL;
    bp', g' := bp + 1, Close(g);
  }

  /** The branch for an unescaped delimiter. */
  method Separator(command: string, delims: string, allowEmpty: bool, i: nat, addArg: bool,
                   args: array<int>, buffer: array<char>, argc: nat, bp: nat, ghost g: Trace, ghost ptrs: seq<int>)
    returns (status: Status, argc': nat, bp': nat, ghost g': Trace, ghost ptrs': seq<int>)
    requires BACKSLASH !in delims && i < |command| && command[i] in delims && buffer.Length == |command| + 1
    requires Synced(args, buffer, argc, bp, g, ptrs)
    requires Scan(command, delims, allowEmpty, i, false, addArg, g, ptrs)
    modifies args, buffer
    ensures status == Parsed || (status == Overrun && LeavesBlock(Tokens(command, delims, allowEmpty), |command|))
    ensures status == Parsed ==>
              && Synced(args, buffer, argc', bp', g', ptrs')
              && Scan(command, delims, allowEmpty, i + 1, false, true, g', ptrs')
  {
    if allowEmpty && addArg {
      status, argc', bp', g', ptrs' := EmptyToken(command, delims, i, args, buffer, argc, bp, g, ptrs);
    } else {
      OnSeparator(command, delims, allowEmpty, i, addArg, g, ptrs);
      status, argc', bp', g', ptrs' := Parsed, argc, bp, g, ptrs;
      if !addArg {
        Put(buffer, bp, NUL, g.out);
        bp', g' := bp + 1, Close(g);
      } else {
        g' := Skip(g);
      }
    }
  }

  /** Push the pointer of a token that gets its first character. */
  method OpenArgument(command: string, delims: string, allowEmpty: bool, i: nat,
                      args: array<int>, buffer: array<char>, argc: nat, bp: nat, ghost g: Trace, ghost ptrs: seq<int>)
    returns (status: Status, argc': nat, ghost ptrs': seq<int>)
    requires BACKSLASH !in delims && i < |command| && command[i] !in delims && buffer.Length == |command| + 1
    requires Synced(args, buffer, argc, bp, g, ptrs)
    requires Scan(command, delims, allowEmpty, i, false, true, g, ptrs)
    modifies args, buffer
    ensures var ts := Tokens(command, delims, allowEmpty);
            && (status == Overrun ==> LeavesBlock(ts, |command|))
            && (status == TooMany ==> !LeavesBlock(ts, |command|) && |ts| >= MAX_ARGS)
    ensures status == Parsed ==>
              Synced(args, buffer, argc', bp, g, ptrs') && Open(command, delims, allowEmpty, i, false, g, ptrs')
  {
    OnFirstChar(command, delims, allowEmpty, i, g, ptrs);
    if argc >= Room(|command|) {
      return Overrun, argc, ptrs;
    }
    ghost var was := args[..];
    StorePointer(args, buffer, argc, bp);
    argc', ptrs' := argc + 1, ptrs + [bp];
    if argc <= MAX_ARGS {
      Extended(was, ptrs, argc, bp);
      assert buffer[..bp] == g.out;
    }
    status := if argc' >= MAX_ARGS then TooMany else Parsed;
  }

  /** Store a character, or note a backslash that may protect the next one. */
  method Character(command: string, delims: string, allowEmpty: bool, i: nat, escaped: bool,
                   buffer: array<char>, bp: nat, ghost g: Trace, ghost ptrs: seq<int>)
    returns (escaped': bool, bp': nat, ghost g': Trace)
    requires BACKSLASH !in delims && i < |command| && (escaped || command[i] !in delims)
    requires buffer.Length == |command| + 1 && bp <= buffer.Length && buffer[..bp] == g.out
    requires Open(command, delims, allowEmpty, i, escaped, g, ptrs)
    modifies buffer
    ensures bp' <= buffer.Length && buffer[..bp'] == g'.out
    ensures Scan(command, delims, allowEmpty, i + 1, escaped', false, g', ptrs)
  {
    var c := command[i];
    if c == BACKSLASH && !escaped {
      OnBackslash(command, delims, allowEmpty, i, g, ptrs);
      escaped', bp', g' := true, bp, g;
    } else if escaped && c !in delims && c != BACKSLASH {
      OnKeptBackslash(command, delims, allowEmpty, i, g, ptrs);
      Put(buffer, bp, BACKSLASH, g.out);
      Put(buffer, bp + 1, c, g.out + [BACKSLASH]);
      escaped', bp', g' := false, bp + 2, Char(Char(g, BACKSLASH), c);
    } else {
      OnChar(command, delims, allowEmpty, i, escaped, g, ptrs);
      Put(buffer, bp, c, g.out);
      escaped', bp', g' := false, bp + 1, Char(g, c);
    }
  }

  /** *buffer++ = c */
  method Put(buffer: array<char>, bp: nat, c: char, ghost out: string)
    requires bp < buffer.Length && buffer[..bp] == out
    modifies buffer
    ensures buffer[..bp + 1] == out + [c]
  {
    buffer[bp] := c;
  }

  /** One character of the command. */
  method ScanOne(command: string, delims: string, allowEmpty: bool, i: nat, escaped: bool, addArg: bool,
                 args: array<int>, buffer: array<char>, argc: nat, bp: nat, ghost g: Trace, ghost ptrs: seq<int>)
    returns (status: Status, argc': nat, bp': nat, escaped': bool, addArg': bool,
             ghost g': Trace, ghost ptrs': seq<int>)
    requires BACKSLASH !in delims && i < |command| && buffer.Length == |command| + 1
    requires Synced(args, buffer, argc, bp, g, ptrs)
    requires Scan(command, delims, allowEmpty, i, escaped, addArg, g, ptrs)
    modifies args, buffer
    ensures var ts := Tokens(command, delims, allowEmpty);
            && (status == Overrun ==> LeavesBlock(ts, |command|))
            && (status == TooMany ==> !LeavesBlock(ts, |command|) && |ts| >= MAX_ARGS)
    ensures status == Parsed ==>
              && Synced(args, buffer, argc', bp', g', ptrs')
              && Scan(command, delims, allowEmpty, i + 1, escaped', addArg', g', ptrs')
  {
    if command[i] in delims && !escaped {
      status, argc', bp', g', ptrs' :=
        Separator(command, delims, allowEmpty, i, addArg, args, buffer, argc, bp, g, ptrs);
      escaped', addArg' := false, true;
    } else {
      status, argc', bp', g', ptrs' := Parsed, argc, bp, g, ptrs;
      escaped', addArg' := escaped, false;
      if addArg {
        status, argc', ptrs' := OpenArgument(command, delims, allowEmpty, i, args, buffer, argc, bp, g, ptrs);
      }
      if status == Parsed {
        escaped', bp', g' := Character(command, delims, allowEmpty, i, escaped, buffer, bp, g, ptrs');
      }
    }
  }

  lemma ScanStart(command: string, delims: string, allowEmpty: bool)
    ensures Scan(command, delims, allowEmpty, 0, false, true, Trace([], [], "", ""), [])
  {
    assert Select([], allowEmpty) == [];
    assert [] + Lex(command, delims) == Lex(command, delims);
  }

  /** The loop of `parse_tokens`. */
  method ScanAll(command: string, delims: string, allowEmpty: bool, args: array<int>, buffer: array<char>)
    returns (status: Status, argc: nat, bp: nat, escaped: bool, addArg: bool, ghost g: Trace, ghost ptrs: seq<int>)
    requires BACKSLASH !in delims && args.Length == MAX_ARGS + 1 && buffer.Length == |command| + 1
    modifies args, buffer
    ensures var ts := Tokens(command, delims, allowEmpty);
            && (status == Overrun ==> LeavesBlock(ts, |command|))
            && (status == TooMany ==> !LeavesBlock(ts, |command|) && |ts| >= MAX_ARGS)
    ensures status == Parsed ==>
              && Synced(args, buffer, argc, bp, g, ptrs)
              && Scan(command, delims, allowEmpty, |command|, escaped, addArg, g, ptrs)
  {
    var i := 0;
    status, argc, bp, escaped, addArg := Parsed, 0, 0, false, true;
    g, ptrs := Trace([], [], "", ""), [];
    ScanStart(command, delims, allowEmpty);
    assert args[..0] == [] && buffer[..0] == [];
    while i < |command|
      invariant 0 <= i <= |command| && status == Parsed
      invariant Synced(args, buffer, argc, bp, g, ptrs)
      invariant Scan(command, delims, allowEmpty, i, escaped, addArg, g, ptrs)
    {
      status, argc, bp, escaped, addArg, g, ptrs :=
        ScanOne(command, delims, allowEmpty, i, escaped, addArg, args, buffer, argc, bp, g, ptrs);
      if status != Parsed {
        return;
      }
      i := i + 1;
    }
  }

  /** `parse_tokens`: the buffer and table, with argc zero where the code returns NULL. */
  method ParseTokens(command: string, delims: string, allowEmpty: bool)
    returns (status: Status, argc: nat, args: array<int>, buffer: array<char>)
    requires NUL !in command && BACKSLASH !in delims
    ensures args.Length == MAX_ARGS + 1 && buffer.Length == |command| + 1 && fresh(args) && fresh(buffer)
    ensures Result(command, delims, allowEmpty, status, argc, args[..], buffer[..])
  {
    args := new int[MAX_ARGS + 1];
    buffer := new char[|command| + 1];
    var bp, escaped, addArg;
    ghost var g, ptrs;
    status, argc, bp, escaped, addArg, g, ptrs := ScanAll(command, delims, allowEmpty, args, buffer);
    if status != Parsed {
      return status, 0, args, buffer;
    }
    status, argc := Finish(command, delims, allowEmpty, args, buffer, argc, bp, escaped, addArg, g, ptrs);
  }

  /** What follows the loop: the pending backslash or the last empty token, and the terminators. */
  method Finish(command: string, delims: string, allowEmpty: bool, args: array<int>, buffer: array<char>,
                argc: nat, bp: nat, escaped: bool, addArg: bool, ghost g: Trace, ghost ptrs: seq<int>)
    returns (status: Status, argc': nat)
    requires Synced(args, buffer, argc, bp, g, ptrs) && buffer.Length == |command| + 1
    requires Scan(command, delims, allowEmpty, |command|, escaped, addArg, g, ptrs)
    modifies args, buffer
    ensures Result(command, delims, allowEmpty, status, argc', args[..], buffer[..])
  {
    Finished(command, delims, allowEmpty, escaped, addArg, g, ptrs);
    status := Parsed;
    if escaped {
      Put(buffer, bp, BACKSLASH, g.out);
      argc' := argc;
      SealBlock(command, delims, allowEmpty, args, buffer, argc, bp + 1, ptrs, g.out + [BACKSLASH]);
    } else if addArg && allowEmpty {
      status, argc' := LastEmpty(command, delims, args, buffer, argc, bp, g, ptrs);
    } else {
      argc' := argc;
      SealBlock(command, delims, allowEmpty, args, buffer, argc, bp, ptrs, g.out);
    }
  }

  /** The empty token behind the last delimiter. */
  method LastEmpty(command: string, delims: string, args: array<int>, buffer: array<char>,
                   argc: nat, bp: nat, ghost g: Trace, ghost ptrs: seq<int>)
    returns (status: Status, argc': nat)
    requires Synced(args, buffer, argc, bp, g, ptrs) && buffer.Length == |command| + 1 && bp < buffer.Length
    requires var ts := Tokens(command, delims, true);
             && |ts| == |ptrs| + 1 && (|ptrs| >= MAX_ARGS - 1 ==> Pushed(ts) == |ptrs| + 1)
             && Stored(g.out + [NUL], ptrs + [bp], ts)
    modifies args, buffer
    ensures Result(command, delims, true, status, argc', args[..], buffer[..])
  {
    if argc >= Room(|command|) {
      return Overrun, 0;
    }
    ghost var was := args[..];
    StorePointer(args, buffer, argc, bp);
    if argc + 1 >= MAX_ARGS {
      buffer[bp] := NUL;
      return TooMany, 0;
    }
    Extended(was, ptrs, argc, bp);
    assert buffer[..bp] == g.out;
    SealBlock(command, delims, true, args, buffer, argc + 1, bp, ptrs + [bp], g.out);
    return Parsed, argc + 1;
  }

  /** The last two stores: the terminator of the last token and the NULL behind the pointers. */
  method SealBlock(command: string, delims: string, allowEmpty: bool, args: array<int>, buffer: array<char>,
                   argc: nat, end: nat, ghost ptrs: seq<int>, ghost out: string)
    requires argc < MAX_ARGS < args.Length && args[..argc] == ptrs
    requires end < buffer.Length && buffer[..end] == out
    requires var ts := Tokens(command, delims, allowEmpty); |ts| == argc && Stored(out + [NUL], ptrs, ts)
    modifies args, buffer
    ensures Result(command, delims, allowEmpty, Parsed, argc, args[..], buffer[..])
  {
    buffer[end] := NUL;
    args[argc] := NULL;
    assert buffer[..end + 1] == out + [NUL];
    assert args[..][..argc] == ptrs;
    TrailingSpace(buffer[..], out + [NUL], ptrs, Tokens(command, delims, allowEmpty));
  }

  lemma TrailingSpace(buf: string, used: string, ptrs: seq<int>, ts: seq<string>)
    requires used <= buf && Stored(used, ptrs, ts)
    ensures Stored(buf, ptrs, ts)
  {
    StoredGrows(used, buf[|used|..], ptrs, ts);
    assert used + buf[|used|..] == buf;
  }

  // ----- when the pointer table and the block are safe -----

  /** The table's last entry is passed exactly when two empty tokens at positions 19 and 20 are
      followed by a third token. */
  lemma PassesTable(ts: seq<string>)
    ensures Pushed(ts) > 21 <==> |ts| >= 22 && ts[19] == "" && ts[20] == ""
  {
    if |ts| >= MAX_ARGS + 2 && ts[MAX_ARGS - 1] == "" && ts[MAX_ARGS] == "" {
      StopsBehind(ts, MAX_ARGS - 1, MAX_ARGS + 1);
    } else if |ts| >= MAX_ARGS + 2 && ts[MAX_ARGS - 1] == "" {
      StopsBehind(ts, MAX_ARGS - 1, MAX_ARGS);
    } else if |ts| >= MAX_ARGS {
      StopsBehind(ts, MAX_ARGS - 1, MAX_ARGS - 1);
    }
  }

  /** The pushes from j on go beyond n if and only if there is a token n and nothing but empty
      ones before it. */
  lemma {:induction false} StopsBeyond(ts: seq<string>, j: nat, n: nat)
    requires j <= |ts| && j <= n
    ensures StopAt(ts, j) > n <==> |ts| > n && forall i :: j <= i < n ==> ts[i] == ""
    decreases n - j
  {
    if j < n && j < |ts| && ts[j] == "" {
      StopsBeyond(ts, j + 1, n);
    }
  }

  /** A store leaves the block exactly when there are more tokens than fit into it as pointers
      and those from position 19 on that fit are all empty. */
  lemma LeavesBlockExactly(ts: seq<string>, len: nat)
    ensures LeavesBlock(ts, len) <==>
              var room := 21 + (len + 1) / 8; |ts| > room && forall i :: 19 <= i < room ==> ts[i] == ""
  {
    if |ts| >= MAX_ARGS {
      StopsBeyond(ts, MAX_ARGS - 1, Room(len));
    }
  }

  lemma ChecksStop(ts: seq<string>)
    requires |ts| >= MAX_ARGS && ts[MAX_ARGS - 1] != ""
    ensures Pushed(ts) == MAX_ARGS
  {
  }

  /** Dropping empty tokens, no input passes the table. */
  lemma NeverOverrunsNonEmpty(command: string, delims: string)
    ensures Pushed(Tokens(command, delims, false)) <= 20
    ensures !LeavesBlock(Tokens(command, delims, false), |command|)
  {
    var ts := Tokens(command, delims, false);
    if |ts| >= MAX_ARGS {
      NonEmptyAt(Fields(Lex(command, delims)), MAX_ARGS - 1);
      ChecksStop(ts);
    }
  }

  /** No more symbols than characters. */
  lemma {:induction false} LexShorter(s: string, delims: string)
    ensures |Lex(s, delims)| <= |s|
  {
    if s == "" {
    } else if s[0] == BACKSLASH && |s| >= 2 {
      LexShorter(s[2..], delims);
    } else {
      LexShorter(s[1..], delims);
    }
  }

  /** Keeping them, at most 20 unescaped delimiters stay in the table and at most 23 in the
      block. */
  lemma FewDelimitersSafe(command: string, delims: string)
    ensures var count, ts := multiset(Lex(command, delims))[Sep], Tokens(command, delims, true);
            && (count <= 20 ==> Pushed(ts) <= 21)
            && (count <= 23 ==> !LeavesBlock(ts, |command|))
  {
    var syms := Lex(command, delims);
    FieldsCount(syms);
    LexShorter(command, delims);
    assert multiset(syms)[Sep] <= |multiset(syms)| == |syms|;
  }

  lemma {:induction false} AllDelimiters(n: nat, d: char)
    requires d != BACKSLASH
    ensures Tokens(seq(n, _ => d), [d], true) == seq(n + 1, _ => "")
  {
    var s := seq(n, _ => d);
    if n == 0 {
      assert Lex(s, [d]) == [];
    } else {
      AllDelimiters(n - 1, d);
      assert s[1..] == seq(n - 1, _ => d);
      assert [""] + seq(n, _ => "") == seq(n + 1, _ => "");
    }
  }

  /** A line of n delimiters passes the table from 21 on and leaves the block from 24 on. */
  lemma DelimitersOverrun(n: nat, d: char)
    requires d != BACKSLASH
    ensures var ts := Tokens(seq(n, _ => d), [d], true);
            (Pushed(ts) > 21 <==> n >= 21) && (LeavesBlock(ts, n) <==> n >= 24)
  {
    AllDelimiters(n, d);
    var ts := Tokens(seq(n, _ => d), [d], true);
    if n + 1 >= MAX_ARGS {
      StopsBehind(ts, MAX_ARGS - 1, n);
    }
  }
}
