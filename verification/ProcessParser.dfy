/** `parse_redirect` and `parse_process` of lsh: one process of a pipeline from its text. */
module ProcessParser {
  import opened CStrings
  import opened Options
  import opened TokenSpec
  import opened Tokenizer

  // ----- redirects -----

  datatype Redirect = Redirect(isOut: bool, left: string, leftFd: int, right: string, rightFd: int)

  /** `check_redirect`: the descriptor on the left defaults to 0 or 1; on the right either a
      file name, recorded as -1, or '&' and a descriptor. */
  function CheckRedirect(isOut: bool, left: string, right: string): Option<Redirect> {
    var leftFd := if left == "" then Some(if isOut then 1 else 0) else WholeNumber(left);
    if leftFd.None? || right == "" then None
    else if right[0] != '&' then Some(Redirect(isOut, left, leftFd.value, right, -1))
    else if |right| == 1 then None
    else
      var rightFd := WholeNumber(right[1..]);
      if rightFd.None? then None else Some(Redirect(isOut, left, leftFd.value, right, rightFd.value))
  }

  function Arrow(isOut: bool): string { if isOut then ">" else "<" }

  function Sides(s: string, isOut: bool): seq<string> { Tokens(s, Arrow(isOut), true) }

  /** The redirect a token means: exactly two sides that check. */
  function RedirectOf(s: string, isOut: bool): Option<Redirect> {
    var sides := Sides(s, isOut);
    if |sides| != 2 then None else CheckRedirect(isOut, sides[0], sides[1])
  }

  /** `strdup`: read the terminated string at p. */
  method CopyString(buffer: array<char>, p: int, ghost t: string) returns (s: string)
    requires StringAt(buffer[..], p, t) && NUL !in t
    ensures s == t
  {
    TextBeforeNul(buffer[..], p, t);
    s := "";
    var q := p;
    while buffer[q] != NUL
      invariant p <= q <= p + |t| < buffer.Length && s == t[..q - p]
      invariant forall m :: p <= m < p + |t| ==> buffer[m] == t[m - p] && buffer[m] != NUL
      decreases p + |t| - q
    {
      s := s + [buffer[q]];
      q := q + 1;
    }
  }

  lemma TextBeforeNul(buf: string, p: int, t: string)
    requires StringAt(buf, p, t) && NUL !in t
    ensures forall m :: p <= m < p + |t| ==> buf[m] == t[m - p] && buf[m] != NUL
  {
    forall m | p <= m < p + |t| ensures buf[m] == t[m - p] && buf[m] != NUL {
      assert buf[p..p + |t|][m - p] == buf[m];
      assert t[m - p] in t;
    }
  }

  /** None with overrun false is the NULL the code returns. */
  method ParseRedirect(s: string, isOut: bool) returns (overrun: bool, r: Option<Redirect>)
    requires NUL !in s
    ensures overrun <==> LeavesBlock(Sides(s, isOut), |s|)
    ensures !overrun ==> r == RedirectOf(s, isOut)
  {
    var status, argc, args, buffer := ParseTokens(s, Arrow(isOut), true);
    ghost var sides := Sides(s, isOut);
    if status == Overrun {
      return true, None;
    }
    if argc != 2 {
      return false, None;
    }
    TokensNoNul(s, Arrow(isOut), true);
    assert sides[0] in sides && sides[1] in sides;
    assert args[..][..argc][0] == args[0] && args[..][..argc][1] == args[1];
    var left := CopyString(buffer, args[0], sides[0]);
    var right := CopyString(buffer, args[1], sides[1]);
    return false, CheckRedirect(isOut, left, right);
  }

  // ----- processes -----

  /** EMPTY_PROCESS, ERROR_PROCESS, a process, or a pointer table overrun. */
  datatype Outcome = Empty | Error | OverrunIn | Accepted(argc: nat, redirects: seq<Redirect>)

  predicate HasArrow(t: string) { '>' in t || '<' in t }

  /** '>' wins when a token contains both arrows. */
  predicate IsOut(t: string) { '>' in t }

  function FirstArrow(ts: seq<string>): (f: nat)
    ensures f <= |ts|
    ensures forall i :: 0 <= i < f ==> !HasArrow(ts[i])
    ensures f < |ts| ==> HasArrow(ts[f])
  {
    if ts == [] || HasArrow(ts[0]) then 0 else 1 + FirstArrow(ts[1..])
  }

  /** What the tokens from the first redirect on mean; `Accepted` carries the redirects. */
  function Redirects(ts: seq<string>): Outcome {
    if ts == [] then Accepted(0, [])
    else
      var t := ts[|ts| - 1];
      var before := Redirects(ts[..|ts| - 1]);
      if !before.Accepted? then before
      else if !HasArrow(t) then Error
      else if LeavesBlock(Sides(t, IsOut(t)), |t|) then OverrunIn
      else
        var r := RedirectOf(t, IsOut(t));
        if r.None? then Error else Accepted(0, before.redirects + [r.value])
  }

  /** The meaning of a process's tokens. Twenty or more tokens count as none. */
  function ProcessOf(ts: seq<string>): Outcome {
    if ts == [] || |ts| >= MAX_ARGS then Empty
    else
      var f := FirstArrow(ts);
      if f == 0 then Error
      else
        var rest := Redirects(ts[f..]);
        if rest.Accepted? then Accepted(f, rest.redirects) else rest
  }

  lemma {:induction false} FailureSticks(ts: seq<string>, i: nat)
    requires i <= |ts| && !Redirects(ts[..i]).Accepted?
    ensures Redirects(ts) == Redirects(ts[..i])
  {
    if i == |ts| {
      assert ts[..i] == ts;
    } else {
      var init := ts[..|ts| - 1];
      assert init[..i] == ts[..i];
      FailureSticks(init, i);
    }
  }

  lemma ArrowsSplit(ts: seq<string>, f: nat)
    requires f <= |ts| && (forall i :: 0 <= i < f ==> !HasArrow(ts[i])) && (f < |ts| ==> HasArrow(ts[f]))
    ensures FirstArrow(ts) == f
  {
  }

  /** The loop's knowledge before token i: words so far, or the words before argc and the
      redirects since. */
  ghost predicate Read(ts: seq<string>, i: nat, found: bool, argc: nat, redirects: seq<Redirect>) {
    && i <= |ts| && argc <= |ts|
    && (!found ==> argc == |ts| && redirects == [] && forall k :: 0 <= k < i ==> !HasArrow(ts[k]))
    && (found ==> 1 <= argc < i && WordsThenArrow(ts, argc) && Means(ts[argc..i], redirects))
  }

  /** The tokens mean these redirects, one by one. */
  ghost predicate Means(ts: seq<string>, redirects: seq<Redirect>) {
    |ts| == |redirects| && forall k :: 0 <= k < |ts| ==> Meaning(ts[k]) == Some(redirects[k])
  }

  /** The redirect a token with an arrow means. */
  function Meaning(t: string): Option<Redirect> {
    if HasArrow(t) then RedirectOf(t, IsOut(t)) else None
  }

  /** A redirect that means something has two sides, so its pointers fit. */
  lemma TwoSidesFit(t: string)
    requires Meaning(t).Some?
    ensures !LeavesBlock(Sides(t, IsOut(t)), |t|)
  {
  }

  lemma {:induction false} RedirectsMean(ts: seq<string>, rs: seq<Redirect>)
    ensures Redirects(ts) == Accepted(0, rs) <==> Means(ts, rs)
  {
    if ts != [] && rs != [] {
      var init, last, most := ts[..|ts| - 1], ts[|ts| - 1], rs[..|rs| - 1];
      RedirectsMean(init, most);
      assert rs == most + [rs[|rs| - 1]];
      if Meaning(last).Some? {
        TwoSidesFit(last);
      }
      LastMeans(ts, rs);
      if Redirects(ts) == Accepted(0, rs) {
        AcceptedMost(ts, rs);
      }
    }
  }

  lemma LastMeans(ts: seq<string>, rs: seq<Redirect>)
    requires ts != [] && rs != []
    ensures Means(ts, rs) <==>
              Means(ts[..|ts| - 1], rs[..|rs| - 1]) && Meaning(ts[|ts| - 1]) == Some(rs[|rs| - 1])
  {
    if Means(ts[..|ts| - 1], rs[..|rs| - 1]) && Meaning(ts[|ts| - 1]) == Some(rs[|rs| - 1]) {
      forall k | 0 <= k < |ts| ensures Meaning(ts[k]) == Some(rs[k]) {
        if k < |ts| - 1 {
          assert ts[..|ts| - 1][k] == ts[k];
        }
      }
    }
  }

  lemma AcceptedMost(ts: seq<string>, rs: seq<Redirect>)
    requires ts != [] && rs != [] && Redirects(ts) == Accepted(0, rs)
    ensures Redirects(ts[..|ts| - 1]).redirects == rs[..|rs| - 1] && Meaning(ts[|ts| - 1]) == Some(rs[|rs| - 1])
  {
  }

  lemma {:induction false} AcceptedNone(ts: seq<string>)
    ensures Redirects(ts).Accepted? ==> Redirects(ts).argc == 0
  {
    if ts != [] {
      AcceptedNone(ts[..|ts| - 1]);
    }
  }

  ghost predicate WordsThenArrow(ts: seq<string>, f: nat) {
    f < |ts| && (forall k :: 0 <= k < f ==> !HasArrow(ts[k])) && HasArrow(ts[f])
  }

  lemma LastOf(ts: seq<string>, a: nat, i: nat)
    requires a <= i < |ts|
    ensures var s := ts[a..i + 1]; s[|s| - 1] == ts[i] && s[..|s| - 1] == ts[a..i]
    ensures ts[a..][..i + 1 - a] == ts[a..i + 1]
  {
  }

  /** A redirect token at i decides the outcome or extends the list. */
  lemma OnRedirect(ts: seq<string>, i: nat, found: bool, argc: nat, redirects: seq<Redirect>)
    requires Read(ts, i, found, argc, redirects) && 1 <= i < |ts| < MAX_ARGS && HasArrow(ts[i])
    ensures var t := ts[i]; var r := RedirectOf(t, IsOut(t));
            if LeavesBlock(Sides(t, IsOut(t)), |t|) then ProcessOf(ts) == OverrunIn
            else if r.None? then ProcessOf(ts) == Error
            else Read(ts, i + 1, true, if found then argc else i, redirects + [r.value])
  {
    var a := if found then argc else i;
    if !found {
      ArrowsSplit(ts, i);
      assert ts[i..i] == [];
    } else {
      ArrowsSplit(ts, a);
    }
    RedirectsMean(ts[a..i], redirects);
    LastOf(ts, a, i);
    if !Redirects(ts[a..i + 1]).Accepted? {
      FailureSticks(ts[a..], i + 1 - a);
    } else {
      RedirectsMean(ts[a..i + 1], redirects + [RedirectOf(ts[i], IsOut(ts[i])).value]);
    }
  }

  /** A word behind a redirect is an error. */
  lemma OnLateWord(ts: seq<string>, i: nat, argc: nat, redirects: seq<Redirect>)
    requires Read(ts, i, true, argc, redirects) && i < |ts| < MAX_ARGS && !HasArrow(ts[i])
    ensures ProcessOf(ts) == Error
  {
    ArrowsSplit(ts, argc);
    RedirectsMean(ts[argc..i], redirects);
    LastOf(ts, argc, i);
    FailureSticks(ts[argc..], i + 1 - argc);
  }

  lemma OnEnd(ts: seq<string>, found: bool, argc: nat, redirects: seq<Redirect>)
    requires Read(ts, |ts|, found, argc, redirects) && 1 <= |ts| < MAX_ARGS
    ensures ProcessOf(ts) == Accepted(argc, redirects) && argc >= 1
  {
    if !found {
      ArrowsSplit(ts, |ts|);
      assert ts[|ts|..] == [];
    } else {
      ArrowsSplit(ts, argc);
      assert ts[argc..|ts|] == ts[argc..];
      RedirectsMean(ts[argc..], redirects);
    }
  }

  /** The pointers before argc and from i on still designate their words, those between are NULL. */
  ghost predicate Pointers(buf: string, ptrs: seq<int>, ts: seq<string>, argc: nat, i: nat) {
    && |ptrs| == MAX_ARGS + 1 && i <= |ts| < MAX_ARGS
    && (forall k :: 0 <= k < |ts| && (k < argc || i <= k) ==> StringAt(buf, ptrs[k], ts[k]))
    && (forall k :: argc <= k < i ==> ptrs[k] == NULL)
    && ptrs[|ts|] == NULL
  }

  lemma PointersStart(buf: string, ptrs: seq<int>, ts: seq<string>)
    requires |ptrs| == MAX_ARGS + 1 && |ts| < MAX_ARGS && Stored(buf, ptrs[..|ts|], ts) && ptrs[|ts|] == NULL
    ensures Pointers(buf, ptrs, ts, |ts|, 0)
  {
    forall k | 0 <= k < |ts| ensures StringAt(buf, ptrs[k], ts[k]) {
      assert ptrs[k] == ptrs[..|ts|][k];
    }
  }

  /** `parse_process`. On acceptance the pointers before argc designate the words and every
      pointer from argc on to the end of the tokens is NULL. */
  method ParseProcess(command: string)
    returns (outcome: Outcome, arguments: array<int>, buffer: array<char>)
    requires NUL !in command
    ensures var ts := Tokens(command, WHITESPACE, false);
            && outcome == ProcessOf(ts)
            && (outcome.Accepted? ==> Pointers(buffer[..], arguments[..], ts, outcome.argc, |ts|))
  {
    var status, n;
    status, n, arguments, buffer := ParseTokens(command, WHITESPACE, false);
    ghost var ts := Tokens(command, WHITESPACE, false);
    NeverOverrunsNonEmpty(command, WHITESPACE);
    if n == 0 {
      return Empty, arguments, buffer;
    }
    TokensNoNul(command, WHITESPACE, false);
    PointersStart(buffer[..], arguments[..], ts);
    outcome := ReadTokens(ts, n, arguments, buffer);
  }

  predicate NoneHoldsNul(ts: seq<string>) {
    forall k :: 0 <= k < |ts| ==> NUL !in ts[k]
  }

  /** tokens[i], which is still in place. */
  method TokenAt(ghost ts: seq<string>, i: nat, ghost argc: nat, arguments: array<int>, buffer: array<char>)
    returns (token: string)
    requires Pointers(buffer[..], arguments[..], ts, argc, i) && i < |ts| && NUL !in ts[i]
    ensures token == ts[i]
  {
    assert StringAt(buffer[..], arguments[..][i], ts[i]);
    token := CopyString(buffer, arguments[i], ts[i]);
  }

  /** The loop of `parse_process` over its n tokens. */
  method ReadTokens(ghost ts: seq<string>, n: nat, arguments: array<int>, buffer: array<char>)
    returns (outcome: Outcome)
    requires 1 <= n == |ts| && Pointers(buffer[..], arguments[..], ts, n, 0)
    requires NoneHoldsNul(ts)
    modifies arguments
    ensures outcome == ProcessOf(ts)
    ensures outcome.Accepted? ==> Pointers(buffer[..], arguments[..], ts, outcome.argc, n)
  {
    var failed, argc, redirects;
    ghost var found;
    failed, found, argc, redirects := ReadAll(ts, n, arguments, buffer);
    if failed.Some? {
      return failed.value;
    }
    OnEnd(ts, found, argc, redirects);
    outcome := Accepted(argc, redirects);
  }

  /** The loop itself: a failure, or what is known behind the last token. */
  method ReadAll(ghost ts: seq<string>, n: nat, arguments: array<int>, buffer: array<char>)
    returns (failed: Option<Outcome>, ghost found: bool, argc: nat, redirects: seq<Redirect>)
    requires n == |ts| && Pointers(buffer[..], arguments[..], ts, n, 0)
    requires NoneHoldsNul(ts)
    modifies arguments
    ensures failed.Some? ==> ProcessOf(ts) == failed.value && !failed.value.Accepted?
    ensures failed.None? ==> Read(ts, n, found, argc, redirects) && Pointers(buffer[..], arguments[..], ts, argc, n)
  {
    var seen, i := false, 0;
    failed, found, argc, redirects := None, false, n, [];
    ghost var buf := buffer[..];
    ReadStart(ts);
    while i < n
      invariant 0 <= i <= n && failed.None? && found == seen && Read(ts, i, seen, argc, redirects)
      invariant buffer[..] == buf && Pointers(buf, arguments[..], ts, argc, i)
    {
      failed, seen, argc, redirects := ReadOne(ts, i, seen, argc, redirects, arguments, buffer);
      found := seen;
      if failed.Some? {
        return;
      }
      i := i + 1;
    }
  }

  lemma ReadStart(ts: seq<string>)
    ensures Read(ts, 0, false, |ts|, [])
  {
  }

  lemma OnFirstToken(ts: seq<string>)
    requires 1 <= |ts| < MAX_ARGS && HasArrow(ts[0])
    ensures ProcessOf(ts) == Error
  {
    ArrowsSplit(ts, 0);
  }

  /** One turn of that loop: the outcome the token forces, or what is known behind it. */
  method ReadOne(ghost ts: seq<string>, i: nat, found: bool, argc: nat, redirects: seq<Redirect>,
                 arguments: array<int>, buffer: array<char>)
    returns (failed: Option<Outcome>, found': bool, argc': nat, redirects': seq<Redirect>)
    requires i < |ts| && Read(ts, i, found, argc, redirects) && NoneHoldsNul(ts)
    requires Pointers(buffer[..], arguments[..], ts, argc, i)
    modifies arguments
    ensures buffer[..] == old(buffer[..])
    ensures failed.Some? ==> ProcessOf(ts) == failed.value && !failed.value.Accepted?
    ensures failed.None? ==>
              Read(ts, i + 1, found', argc', redirects') && Pointers(buffer[..], arguments[..], ts, argc', i + 1)
  {
    failed, found', argc', redirects' := None, found, argc, redirects;
    var token := TokenAt(ts, i, argc, arguments, buffer);
    if HasArrow(token) {
      if i == 0 {
        OnFirstToken(ts);
        failed := Some(Error);
      } else {
        failed, argc', redirects' := OnRedirectToken(ts, i, token, found, argc, redirects, arguments, buffer);
        found' := true;
      }
    } else if found {
      OnLateWord(ts, i, argc, redirects);
      failed := Some(Error);
    }
  }

  /** A token with an arrow behind the first one: the outcome it forces, or the longer list. */
  method OnRedirectToken(ghost ts: seq<string>, i: nat, token: string, found: bool, argc: nat, redirects: seq<Redirect>,
                         arguments: array<int>, buffer: array<char>)
    returns (failed: Option<Outcome>, argc': nat, redirects': seq<Redirect>)
    requires Read(ts, i, found, argc, redirects) && 1 <= i < |ts| && token == ts[i] && HasArrow(token) && NUL !in token
    requires Pointers(buffer[..], arguments[..], ts, argc, i)
    modifies arguments
    ensures failed.Some? ==> ProcessOf(ts) == failed.value && !failed.value.Accepted?
    ensures failed.None? ==> Read(ts, i + 1, true, argc', redirects')
    ensures failed.None? ==> Pointers(buffer[..], arguments[..], ts, argc', i + 1)
  {
    OnRedirect(ts, i, found, argc, redirects);
    var overrun, r := ParseRedirect(token, IsOut(token));
    ghost var before := arguments[..];
    arguments[i] := NULL;
    argc', redirects' := if found then argc else i, redirects;
    if overrun {
      return Some(OverrunIn), argc', redirects';
    }
    if r.None? {
      return Some(Error), argc', redirects';
    }
    redirects' := redirects + [r.value];
    failed := None;
    assert arguments[..] == before[i := NULL];
    Nulled(buffer[..], before, ts, argc, i, argc');
  }

  lemma Nulled(buf: string, ptrs: seq<int>, ts: seq<string>, argc: nat, i: nat, argc': nat)
    requires Pointers(buf, ptrs, ts, argc, i) && i < |ts|
    requires if argc < i then argc' == argc else argc == |ts| && argc' == i
    ensures Pointers(buf, ptrs[i := NULL], ts, argc', i + 1)
  {
  }

  // ----- which token lists are accepted -----

  /** 1 to 19 tokens: argc words without an arrow, at least one, and behind them only tokens
      with an arrow that mean the redirects rs, in order. */
  ghost predicate Accepts(ts: seq<string>, argc: nat, rs: seq<Redirect>) {
    && 1 <= argc <= |ts| <= 19
    && (forall i :: 0 <= i < argc ==> !HasArrow(ts[i]))
    && Means(ts[argc..], rs)
  }

  lemma ShapeAccepted(ts: seq<string>, argc: nat, rs: seq<Redirect>)
    requires Accepts(ts, argc, rs)
    ensures ProcessOf(ts) == Accepted(argc, rs)
  {
    if argc < |ts| {
      assert Meaning(ts[argc..][0]).Some?;
    }
    ArrowsSplit(ts, argc);
    RedirectsMean(ts[argc..], rs);
  }

  /** `parse_process` accepts a token list, with argc words and redirects rs, exactly when it has
      that shape. */
  lemma AcceptedExactly(ts: seq<string>, argc: nat, rs: seq<Redirect>)
    ensures ProcessOf(ts) == Accepted(argc, rs) <==> Accepts(ts, argc, rs)
  {
    if ProcessOf(ts) == Accepted(argc, rs) {
      AcceptedNone(ts[argc..]);
      RedirectsMean(ts[argc..], rs);
    }
    if Accepts(ts, argc, rs) {
      ShapeAccepted(ts, argc, rs);
    }
  }

  // ----- and how the others are rejected -----

  /** Token i is the first that means no redirect, and it has an arrow too many for the table. */
  ghost predicate OverrunsAt(ts: seq<string>, i: nat) {
    && i < |ts| && (forall k :: 0 <= k < i ==> Meaning(ts[k]).Some?)
    && HasArrow(ts[i]) && LeavesBlock(Sides(ts[i], IsOut(ts[i])), |ts[i]|)
  }

  lemma MeansSome(ts: seq<string>)
    ensures Redirects(ts).Accepted? <==> forall k :: 0 <= k < |ts| ==> Meaning(ts[k]).Some?
  {
    if Redirects(ts).Accepted? {
      AcceptedNone(ts);
      RedirectsMean(ts, Redirects(ts).redirects);
    }
    if forall k :: 0 <= k < |ts| ==> Meaning(ts[k]).Some? {
      RedirectsMean(ts, seq(|ts|, k requires 0 <= k < |ts| => Meaning(ts[k]).value));
    }
  }

  lemma {:induction false} RedirectsOverrun(ts: seq<string>)
    ensures Redirects(ts) == OverrunIn <==> exists i: nat :: OverrunsAt(ts, i)
    ensures !Redirects(ts).Empty?
  {
    if ts != [] {
      var init, n := ts[..|ts| - 1], |ts| - 1;
      RedirectsOverrun(init);
      MeansSome(init);
      forall i: nat | i < n ensures OverrunsAt(ts, i) <==> OverrunsAt(init, i) {
        assert forall k :: 0 <= k < i ==> init[k] == ts[k];
      }
      if Redirects(init).Accepted? && Redirects(ts) == OverrunIn {
        assert OverrunsAt(ts, n);
      }
      if i: nat :| OverrunsAt(ts, i) && i < n {
        assert OverrunsAt(init, i) && !Meaning(init[i]).Some? by {
          if Meaning(init[i]).Some? {
            TwoSidesFit(init[i]);
          }
        }
      }
      if exists i: nat :: OverrunsAt(init, i) {
        var i: nat :| OverrunsAt(init, i);
        assert OverrunsAt(ts, i);
      }
    }
  }

  /** The tokens behind the first redirect as positions of the whole list. */
  lemma AnyBehind(ts: seq<string>, f: nat)
    requires f <= |ts|
    ensures Redirects(ts[f..]).Accepted? <==> !exists k :: f <= k < |ts| && Meaning(ts[k]).None?
  {
    MeansSome(ts[f..]);
    assert forall k :: 0 <= k < |ts| - f ==> ts[f..][k] == ts[f + k];
    if Redirects(ts[f..]).Accepted? {
      forall k | f <= k < |ts| ensures Meaning(ts[k]).Some? {
        assert ts[f..][k - f] == ts[k];
      }
    } else {
      var k :| 0 <= k < |ts| - f && Meaning(ts[f..][k]).None?;
      assert Meaning(ts[f + k]).None?;
    }
  }

  /** Nothing, or 20 tokens and more, count as no process; a first token with an arrow and a token
      behind the first redirect that is none are errors; a redirect that leaves its block comes
      before the error behind it. */
  lemma RejectedExactly(ts: seq<string>)
    ensures ProcessOf(ts) == Empty <==> |ts| == 0 || |ts| >= 20
    ensures ProcessOf(ts) == OverrunIn <==>
              1 <= |ts| <= 19 && FirstArrow(ts) >= 1 && exists i: nat :: OverrunsAt(ts[FirstArrow(ts)..], i)
    ensures ProcessOf(ts) == Error <==>
              && 1 <= |ts| <= 19
              && (FirstArrow(ts) == 0 || !(exists i: nat :: OverrunsAt(ts[FirstArrow(ts)..], i)))
              && (FirstArrow(ts) == 0 || exists k :: FirstArrow(ts) <= k < |ts| && Meaning(ts[k]).None?)
  {
    RedirectsOverrun(ts[FirstArrow(ts)..]);
    AnyBehind(ts, FirstArrow(ts));
  }
}
