/** What the error exit of the launch closes, and what it leaves open in the shell. */
module LaunchCleanup {
  import opened Launch
  import opened LaunchInv
  import opened LaunchProofs

  /** On the error exit: whether an end may still be open as descriptor f. */
  predicate MayRemain(p: Parent, f: int, e: End) {
    match e
    case CtlR => Order(p.pc) <= 19 && f == p.ctl0
    case CtlW => Order(p.pc) <= 19 && f == p.ctl1
    case DataR(j) => (p.i == j + 1 && f == p.prevfd) || (Order(p.pc) <= 20 && f == p.pipe0)
    case DataW(_) => Order(p.pc) <= 20 && f == p.pipe1
    case ErrR(j) => (j == 0 && f == p.first) || (Order(p.pc) <= 21 && f == p.err0)
    case ErrW(_) => Order(p.pc) <= 21 && f == p.err1
    case _ => false
  }

  ghost predicate Leftovers(c: Config, p: Parent) {
    forall f | f in p.tab && f !in c.base :: f > 2 && MayRemain(p, f, p.tab[f].end)
  }

  /** The first error pipe is not among what the error exit closes. */
  ghost predicate FirstLeaks(p: Parent, n: nat) {
    n > 1 ==>
      At(p.tab, p.first, ErrR(0)) && p.first !in {p.ctl0, p.ctl1, p.pipe0, p.pipe1, p.err0, p.err1}
  }

  lemma LeftoversAtKill(c: Config, p: Parent, n: nat)
    requires ParentInv(c, p, n) && !Failing(p.pc)
    ensures Leftovers(c, p.(pc := Kill))
  {
    forall f | f in p.tab && f !in c.base ensures f > 2 && MayRemain(p.(pc := Kill), f, p.tab[f].end) {
      assert ParentOwns(c, p, f, p.tab[f].end);
    }
  }

  /** The statements that can go to the error exit. */
  predicate CanFail(pc: ParentPc) { pc in {MakePipe, MakeErr, Fork, ReadErr, ReadErrText, ReadFirst, ReadFirstText} }

  lemma FirstAtKill(c: Config, p: Parent, n: nat)
    requires ParentInv(c, p, n) && CanFail(p.pc)
    ensures FirstLeaks(p, n)
  {
  }

  lemma LeftoversCtl(c: Config, p: Parent, n: nat)
    requires p.pc == FailCtl && Leftovers(c, p) && FirstLeaks(p, n)
    ensures var t := CloseCtl(p).(pc := FailPipe); Leftovers(c, t) && FirstLeaks(t, n)
  {
  }

  lemma LeftoversPipe(c: Config, p: Parent, n: nat)
    requires p.pc == FailPipe && Leftovers(c, p) && FirstLeaks(p, n)
    ensures var t := ClosePipe(p).(pc := FailErr); Leftovers(c, t) && FirstLeaks(t, n)
  {
  }

  lemma LeftoversErr(c: Config, p: Parent, n: nat)
    requires p.pc == FailErr && Leftovers(c, p) && FirstLeaks(p, n)
    ensures var t := CloseErr(p).(pc := Failed); Leftovers(c, t) && FirstLeaks(t, n)
  {
  }

  lemma LeftoversExit(c: Config, p: Parent, n: nat)
    requires Failing(p.pc) && Leftovers(c, p) && FirstLeaks(p, n)
    ensures var t := ParentMove(c, p, Eof, true, 0, 0); Leftovers(c, t) && FirstLeaks(t, n)
  {
    match p.pc
    case FailCtl => LeftoversCtl(c, p, n);
    case FailPipe => LeftoversPipe(c, p, n);
    case FailErr => LeftoversErr(c, p, n);
    case _ =>
  }

  /** A parent step into or along the error exit. */
  lemma LeftoversMove(c: Config, p: Parent, n: nat, res: ReadResult, ok: bool, r: int, w: int)
    requires ParentInv(c, p, n) && (Failing(p.pc) ==> Leftovers(c, p) && FirstLeaks(p, n))
    ensures var t := ParentMove(c, p, res, ok, r, w);
            Failing(t.pc) ==> Leftovers(c, t) && FirstLeaks(t, n) && ForkCount(p, ok, n) == n
  {
    if Failing(p.pc) {
      LeftoversExit(c, p, n);
      assert ParentMove(c, p, res, ok, r, w) == ParentMove(c, p, Eof, true, 0, 0);
    } else if Failing(ParentMove(c, p, res, ok, r, w).pc) {
      FailsFrom(c, p, res, ok, r, w);
      if p.pc != Start {
        LeftoversAtKill(c, p, n);
        FirstAtKill(c, p, n);
      }
    }
  }

  lemma FailsFrom(c: Config, p: Parent, res: ReadResult, ok: bool, r: int, w: int)
    requires !Failing(p.pc) && Failing(ParentMove(c, p, res, ok, r, w).pc)
    ensures if p.pc == Start then ParentMove(c, p, res, ok, r, w) == p.(pc := Failed)
            else CanFail(p.pc) && ParentMove(c, p, res, ok, r, w) == p.(pc := Kill)
  {
  }

  lemma LeftoversNext(c: Config, tr: seq<State>, steps: seq<Step>, i: nat)
    requires c.Valid() && IsRun(c, tr, steps) && i < |steps|
    requires Failing(tr[i].p.pc) ==> Leftovers(c, tr[i].p) && FirstLeaks(tr[i].p, |tr[i].cs|)
    ensures Failing(tr[i + 1].p.pc) ==> Leftovers(c, tr[i + 1].p) && FirstLeaks(tr[i + 1].p, |tr[i + 1].cs|)
  {
    RunInv(c, tr, steps, i);
    LeftoversStep(c, tr[i], steps[i]);
  }

  lemma LeftoversStep(c: Config, s: State, st: Step)
    requires ParentInv(c, s.p, |s.cs|) && Enabled(c, s, st)
    requires Failing(s.p.pc) ==> Leftovers(c, s.p) && FirstLeaks(s.p, |s.cs|)
    ensures var t := Next(c, s, st); Failing(t.p.pc) ==> Leftovers(c, t.p) && FirstLeaks(t.p, |t.cs|)
  {
    if st.ParentStep? {
      EffectCount(s, st.ok);
      LeftoversMove(c, s.p, |s.cs|, ParentRead(s), st.ok, st.r, st.w);
    }
  }

  lemma {:induction false} LeftoversInRun(c: Config, tr: seq<State>, steps: seq<Step>, j: nat)
    requires c.Valid() && IsRun(c, tr, steps) && j < |tr|
    ensures Failing(tr[j].p.pc) ==> Leftovers(c, tr[j].p) && FirstLeaks(tr[j].p, |tr[j].cs|)
  {
    if j > 0 {
      LeftoversInRun(c, tr, steps, j - 1);
      LeftoversNext(c, tr, steps, j - 1);
    }
  }

  /** After a failed launch the shell holds, besides what it held before, at most the reading ends
      of the first error pipe and of the last data pipe it was to pass on. */
  lemma FailedLaunchCloses(c: Config, tr: seq<State>, steps: seq<Step>, j: nat, e: End)
    requires c.Valid() && IsRun(c, tr, steps) && j < |tr| && tr[j].p.pc == Failed
    requires !e.Base? && Holds(tr[j].p.tab, e)
    ensures e == ErrR(0) || (tr[j].p.i > 0 && e == DataR(tr[j].p.i - 1))
  {
    LeftoversInRun(c, tr, steps, j);
    BaseEnds(c, tr, steps, j, e);
  }

  lemma BaseEnds(c: Config, tr: seq<State>, steps: seq<Step>, j: nat, e: End)
    requires c.Valid() && IsRun(c, tr, steps) && j < |tr| && !e.Base? && Holds(tr[j].p.tab, e)
    ensures exists f :: f in tr[j].p.tab && f !in c.base && tr[j].p.tab[f].end == e
  {
    RunInv(c, tr, steps, j);
    var p := tr[j].p;
    var f :| f in p.tab && p.tab[f].end == e;
    if f in c.base {
      assert false;
    }
  }

  /** The first error pipe does stay open whenever a second process was forked. */
  lemma FailedLaunchLeaks(c: Config, tr: seq<State>, steps: seq<Step>, j: nat)
    requires c.Valid() && IsRun(c, tr, steps) && j < |tr| && tr[j].p.pc == Failed && |tr[j].cs| > 1
    ensures Holds(tr[j].p.tab, ErrR(0))
  {
    LeftoversInRun(c, tr, steps, j);
  }
}
