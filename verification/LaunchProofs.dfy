/** Every reachable state of the launch protocol satisfies the invariant. */
module LaunchProofs {
  import opened Launch
  import opened LaunchInv

  lemma InitInv(c: Config)
    requires c.Valid()
    ensures Inv(c, Init(c))
  {
  }

  // ----- one step of a child -----

  ghost predicate ChildReady(c: Config, k: nat, ch: Child, files: map<int, nat>) {
    && c.Valid() && k < c.Size()
    && ChildTab(c, k, ch.pc, ch.v, ch.tab)
    && (forall f | f in files :: 0 <= f <= 2)
    && (c.redirects[k] || files == map[])
  }

  ghost predicate TabAfter(c: Config, k: nat, ch: Child)
    requires c.Valid() && k < c.Size()
  {
    ChildTab(c, k, ch.pc, ch.v, ch.tab)
  }

  ghost predicate OnlyStdChanged(c: Config, k: nat, tab: Table, t: Table)
    requires k < c.Size()
  {
    && (forall f | !(0 <= f <= 2) :: (f in t <==> f in tab) && (f in tab ==> t[f] == tab[f]))
    && (forall f | 0 <= f <= 2 && f in tab ::
         f in t && (t[f] == tab[f] || (c.redirects[k] && t[f].end.File? && !t[f].cloexec)))
    && (forall f | 0 <= f <= 2 && f in t :: f in tab || t[f].end.File?)
  }

  lemma RedirectTab(c: Config, k: nat, tab: Table, files: map<int, nat>)
    requires k < c.Size() && (forall f | f in files :: 0 <= f <= 2) && (c.redirects[k] || files == map[])
    ensures OnlyStdChanged(c, k, tab, tab + FileTab(files))
  {
  }

  lemma RedirectKeeps(c: Config, k: nat, v: Vars, tab: Table, t: Table)
    requires c.Valid() && k < c.Size() && LiveChild(c, k, Redirect, v, tab)
    requires OnlyStdChanged(c, k, tab, t)
    ensures LiveChild(c, k, ClosePrev, v, t)
  {
  }

  lemma ChildLink(c: Config, k: nat, ch: Child, ok: bool, files: map<int, nat>)
    requires ChildReady(c, k, ch, files) && ch.pc == Link
    ensures TabAfter(c, k, ChildNext(c, k, ch, ok, files))
  {
  }

  lemma ChildRedirect(c: Config, k: nat, ch: Child, ok: bool, files: map<int, nat>)
    requires ChildReady(c, k, ch, files) && ch.pc == Redirect
    ensures TabAfter(c, k, ChildNext(c, k, ch, ok, files))
  {
    RedirectTab(c, k, ch.tab, files);
    RedirectKeeps(c, k, ch.v, ch.tab, ch.tab + FileTab(files));
  }

  lemma ChildClosePrev(c: Config, k: nat, ch: Child, ok: bool, files: map<int, nat>)
    requires ChildReady(c, k, ch, files) && ch.pc == ClosePrev
    ensures TabAfter(c, k, ChildNext(c, k, ch, ok, files))
  {
  }

  lemma ChildCloseOut(c: Config, k: nat, ch: Child, ok: bool, files: map<int, nat>)
    requires ChildReady(c, k, ch, files) && ch.pc == CloseOut
    ensures TabAfter(c, k, ChildNext(c, k, ch, ok, files))
  {
  }

  lemma ChildJoinGroup(c: Config, k: nat, ch: Child, ok: bool, files: map<int, nat>)
    requires ChildReady(c, k, ch, files) && ch.pc == JoinGroup
    ensures TabAfter(c, k, ChildNext(c, k, ch, ok, files))
  {
  }

  lemma ChildTerminal(c: Config, k: nat, ch: Child, ok: bool, files: map<int, nat>)
    requires ChildReady(c, k, ch, files) && ch.pc == Terminal
    ensures TabAfter(c, k, ChildNext(c, k, ch, ok, files))
  {
  }

  lemma ChildCloseCtlW(c: Config, k: nat, ch: Child, ok: bool, files: map<int, nat>)
    requires ChildReady(c, k, ch, files) && ch.pc == CloseCtlW
    ensures TabAfter(c, k, ChildNext(c, k, ch, ok, files))
  {
  }

  lemma ChildReadCtl(c: Config, k: nat, ch: Child, ok: bool, files: map<int, nat>)
    requires ChildReady(c, k, ch, files) && ch.pc == ReadCtl
    ensures TabAfter(c, k, ChildNext(c, k, ch, ok, files))
  {
  }

  lemma ChildCloseCtlR(c: Config, k: nat, ch: Child, ok: bool, files: map<int, nat>)
    requires ChildReady(c, k, ch, files) && ch.pc == CloseCtlR
    ensures TabAfter(c, k, ChildNext(c, k, ch, ok, files))
  {
  }

  lemma ChildExec(c: Config, k: nat, ch: Child, ok: bool, files: map<int, nat>)
    requires ChildReady(c, k, ch, files) && ch.pc == Exec
    ensures TabAfter(c, k, ChildNext(c, k, ch, ok, files))
  {
  }

  lemma ChildWriteErrno(c: Config, k: nat, ch: Child, ok: bool, files: map<int, nat>)
    requires ChildReady(c, k, ch, files) && ch.pc == WriteErrno
    ensures TabAfter(c, k, ChildNext(c, k, ch, ok, files))
  {
  }

  lemma ChildWriteMessage(c: Config, k: nat, ch: Child, ok: bool, files: map<int, nat>)
    requires ChildReady(c, k, ch, files) && ch.pc == WriteMessage
    ensures TabAfter(c, k, ChildNext(c, k, ch, ok, files))
  {
  }

  lemma ChildQuit(c: Config, k: nat, ch: Child, ok: bool, files: map<int, nat>)
    requires ChildReady(c, k, ch, files) && ch.pc == Quit
    ensures TabAfter(c, k, ChildNext(c, k, ch, ok, files))
  {
  }

  lemma ChildTabStep(c: Config, k: nat, ch: Child, ok: bool, files: map<int, nat>)
    requires ChildReady(c, k, ch, files)
    ensures TabAfter(c, k, ChildNext(c, k, ch, ok, files))
  {
    match ch.pc
    case Link => ChildLink(c, k, ch, ok, files);
    case Redirect => ChildRedirect(c, k, ch, ok, files);
    case ClosePrev => ChildClosePrev(c, k, ch, ok, files);
    case CloseOut => ChildCloseOut(c, k, ch, ok, files);
    case JoinGroup => ChildJoinGroup(c, k, ch, ok, files);
    case Terminal => ChildTerminal(c, k, ch, ok, files);
    case CloseCtlW => ChildCloseCtlW(c, k, ch, ok, files);
    case ReadCtl => ChildReadCtl(c, k, ch, ok, files);
    case CloseCtlR => ChildCloseCtlR(c, k, ch, ok, files);
    case Exec => ChildExec(c, k, ch, ok, files);
    case WriteErrno => ChildWriteErrno(c, k, ch, ok, files);
    case WriteMessage => ChildWriteMessage(c, k, ch, ok, files);
    case Quit => ChildQuit(c, k, ch, ok, files);
    case _ =>
  }

  lemma ChildFlags(c: Config, k: nat, ch: Child, ok: bool, files: map<int, nat>)
    requires Flags(ch)
    ensures var r := ChildNext(c, k, ch, ok, files);
            && Flags(r) && Flags(Killed(ch))
            && r.signalled == ch.signalled && r.reaped == ch.reaped && r.wrote >= ch.wrote
            && (ch.inGroup ==> r.inGroup)
            && (Released(r) ==> Released(ch) || ch.pc == ReadCtl || (ch.pc == JoinGroup && k != 0))
  {
  }

  lemma ForkInv(c: Config, p: Parent, n: nat)
    requires ParentInv(c, p, n) && p.pc == Fork
    ensures ChildInv(c, p.i, ForkedChild(p))
  {
  }

  // ----- one step of the parent -----

  function ForkCount(p: Parent, ok: bool, n: nat): nat {
    if p.pc == Fork && ok then n + 1 else n
  }

  predicate CanMove(p: Parent, ok: bool, r: int, w: int) {
    (p.pc == Start || p.pc == MakePipe || p.pc == MakeErr) && ok ==> FreshPair(p.tab, r, w)
  }

  lemma StartTab(c: Config, p: Parent, r: int, w: int)
    requires ParentInv(c, p, 0) && p.pc == Start && FreshPair(p.tab, r, w)
    ensures ParentTab(c, ParentMove(c, p, Eof, true, r, w))
  {
  }

  lemma MoveStart(c: Config, p: Parent, n: nat, res: ReadResult, ok: bool, r: int, w: int)
    requires ParentInv(c, p, n) && CanMove(p, ok, r, w) && p.pc == Start
    ensures ParentInv(c, ParentMove(c, p, res, ok, r, w), ForkCount(p, ok, n))
  {
    if ok {
      StartTab(c, p, r, w);
    }
  }

  lemma OpenDataTab(c: Config, p: Parent, n: nat, r: int, w: int)
    requires ParentInv(c, p, n) && p.pc == MakePipe && !c.IsLast(p.i) && FreshPair(p.tab, r, w)
    ensures ParentTab(c, OpenData(p, r, w))
  {
    var t := OpenData(p, r, w);
    forall f | f in t.tab && f !in c.base
      ensures f > 2 && t.tab[f].cloexec && ParentOwns(c, t, f, t.tab[f].end)
    {
      if f in p.tab {
        assert ParentOwns(c, p, f, p.tab[f].end);
      }
    }
  }

  lemma OpenDataInv(c: Config, p: Parent, n: nat, r: int, w: int)
    requires ParentInv(c, p, n) && p.pc == MakePipe && !c.IsLast(p.i) && FreshPair(p.tab, r, w)
    ensures ParentInv(c, OpenData(p, r, w), n)
  {
    OpenDataTab(c, p, n, r, w);
  }

  lemma NoPipeInv(c: Config, p: Parent, n: nat)
    requires ParentInv(c, p, n) && p.pc == MakePipe
    ensures c.IsLast(p.i) ==> ParentInv(c, p.(pc := MakeErr), n)
    ensures ParentInv(c, p.(pc := Kill), n)
  {
  }

  lemma MoveMakePipe(c: Config, p: Parent, n: nat, res: ReadResult, ok: bool, r: int, w: int)
    requires ParentInv(c, p, n) && CanMove(p, ok, r, w) && p.pc == MakePipe
    ensures ParentInv(c, ParentMove(c, p, res, ok, r, w), ForkCount(p, ok, n))
  {
    if ok && !c.IsLast(p.i) {
      OpenDataInv(c, p, n, r, w);
    } else {
      NoPipeInv(c, p, n);
    }
  }

  lemma OpenErrTab(c: Config, p: Parent, n: nat, r: int, w: int)
    requires ParentInv(c, p, n) && p.pc == MakeErr && FreshPair(p.tab, r, w)
    ensures ParentTab(c, OpenErr(p, r, w))
  {
    var t := OpenErr(p, r, w);
    forall f | f in t.tab && f !in c.base
      ensures f > 2 && t.tab[f].cloexec && ParentOwns(c, t, f, t.tab[f].end)
    {
      if f in p.tab {
        assert ParentOwns(c, p, f, p.tab[f].end);
      }
    }
  }

  lemma MoveMakeErr(c: Config, p: Parent, n: nat, res: ReadResult, ok: bool, r: int, w: int)
    requires ParentInv(c, p, n) && CanMove(p, ok, r, w) && p.pc == MakeErr
    ensures ParentInv(c, ParentMove(c, p, res, ok, r, w), ForkCount(p, ok, n))
  {
    if ok {
      OpenErrTab(c, p, n, r, w);
    }
  }

  lemma MoveFork(c: Config, p: Parent, n: nat, res: ReadResult, ok: bool, r: int, w: int)
    requires ParentInv(c, p, n) && CanMove(p, ok, r, w) && p.pc == Fork
    ensures ParentInv(c, ParentMove(c, p, res, ok, r, w), ForkCount(p, ok, n))
  {
  }

  lemma MoveDropPrev(c: Config, p: Parent, n: nat, res: ReadResult, ok: bool, r: int, w: int)
    requires ParentInv(c, p, n) && CanMove(p, ok, r, w) && p.pc == DropPrev
    ensures ParentInv(c, ParentMove(c, p, res, ok, r, w), ForkCount(p, ok, n))
  {
  }

  lemma DropOutLast(c: Config, p: Parent, n: nat)
    requires ParentInv(c, p, n) && p.pc == DropOut && c.IsLast(p.i)
    ensures ParentInv(c, p.(pc := SetGroup), n)
  {
  }

  lemma DropOutPipe(c: Config, p: Parent, n: nat)
    requires ParentInv(c, p, n) && p.pc == DropOut && !c.IsLast(p.i)
    ensures var t := p.(pc := SetGroup, tab := CloseTab(p.pipe1, p.tab), pipe1 := CloseVar(p.pipe1, p.tab));
            ParentInv(c, t.(prevfd := p.pipe0), n)
  {
  }

  lemma MoveDropOut(c: Config, p: Parent, n: nat, res: ReadResult, ok: bool, r: int, w: int)
    requires ParentInv(c, p, n) && CanMove(p, ok, r, w) && p.pc == DropOut
    ensures ParentInv(c, ParentMove(c, p, res, ok, r, w), ForkCount(p, ok, n))
  {
    if c.IsLast(p.i) {
      DropOutLast(c, p, n);
    } else {
      DropOutPipe(c, p, n);
    }
  }

  lemma MoveSetGroup(c: Config, p: Parent, n: nat, res: ReadResult, ok: bool, r: int, w: int)
    requires ParentInv(c, p, n) && CanMove(p, ok, r, w) && p.pc == SetGroup
    ensures ParentInv(c, ParentMove(c, p, res, ok, r, w), ForkCount(p, ok, n))
  {
  }

  lemma DropErrWFirst(c: Config, p: Parent, n: nat)
    requires ParentInv(c, p, n) && p.pc == DropErrW && p.i == 0
    ensures ParentTab(c, ParentMove(c, p, Eof, true, 0, 0))
  {
  }

  lemma DropErrWLater(c: Config, p: Parent, n: nat)
    requires ParentInv(c, p, n) && p.pc == DropErrW && p.i > 0
    ensures ParentTab(c, ParentMove(c, p, Eof, true, 0, 0))
  {
  }

  lemma DropErrWTab(c: Config, p: Parent, n: nat)
    requires ParentInv(c, p, n) && p.pc == DropErrW
    ensures ParentTab(c, ParentMove(c, p, Eof, true, 0, 0))
  {
    if p.i == 0 {
      DropErrWFirst(c, p, n);
    } else {
      DropErrWLater(c, p, n);
    }
  }

  lemma MoveDropErrW(c: Config, p: Parent, n: nat, res: ReadResult, ok: bool, r: int, w: int)
    requires ParentInv(c, p, n) && CanMove(p, ok, r, w) && p.pc == DropErrW
    ensures ParentInv(c, ParentMove(c, p, res, ok, r, w), ForkCount(p, ok, n))
  {
    DropErrWTab(c, p, n);
  }

  lemma MoveReadErr(c: Config, p: Parent, n: nat, res: ReadResult, ok: bool, r: int, w: int)
    requires ParentInv(c, p, n) && CanMove(p, ok, r, w) && p.pc == ReadErr
    ensures ParentInv(c, ParentMove(c, p, res, ok, r, w), ForkCount(p, ok, n))
  {
  }

  lemma MoveReadErrText(c: Config, p: Parent, n: nat, res: ReadResult, ok: bool, r: int, w: int)
    requires ParentInv(c, p, n) && CanMove(p, ok, r, w) && p.pc == ReadErrText
    ensures ParentInv(c, ParentMove(c, p, res, ok, r, w), ForkCount(p, ok, n))
  {
  }

  lemma MoveDropErrR(c: Config, p: Parent, n: nat, res: ReadResult, ok: bool, r: int, w: int)
    requires ParentInv(c, p, n) && CanMove(p, ok, r, w) && p.pc == DropErrR
    ensures ParentInv(c, ParentMove(c, p, res, ok, r, w), ForkCount(p, ok, n))
  {
  }

  lemma MoveDropCtl(c: Config, p: Parent, n: nat, res: ReadResult, ok: bool, r: int, w: int)
    requires ParentInv(c, p, n) && CanMove(p, ok, r, w) && p.pc == DropCtl
    ensures ParentInv(c, ParentMove(c, p, res, ok, r, w), ForkCount(p, ok, n))
  {
  }

  lemma MoveDropPipe(c: Config, p: Parent, n: nat, res: ReadResult, ok: bool, r: int, w: int)
    requires ParentInv(c, p, n) && CanMove(p, ok, r, w) && p.pc == DropPipe
    ensures ParentInv(c, ParentMove(c, p, res, ok, r, w), ForkCount(p, ok, n))
  {
  }

  lemma MoveReadFirst(c: Config, p: Parent, n: nat, res: ReadResult, ok: bool, r: int, w: int)
    requires ParentInv(c, p, n) && CanMove(p, ok, r, w) && p.pc == ReadFirst
    ensures ParentInv(c, ParentMove(c, p, res, ok, r, w), ForkCount(p, ok, n))
  {
  }

  lemma MoveReadFirstText(c: Config, p: Parent, n: nat, res: ReadResult, ok: bool, r: int, w: int)
    requires ParentInv(c, p, n) && CanMove(p, ok, r, w) && p.pc == ReadFirstText
    ensures ParentInv(c, ParentMove(c, p, res, ok, r, w), ForkCount(p, ok, n))
  {
  }

  lemma MoveDropFirst(c: Config, p: Parent, n: nat, res: ReadResult, ok: bool, r: int, w: int)
    requires ParentInv(c, p, n) && CanMove(p, ok, r, w) && p.pc == DropFirst
    ensures ParentInv(c, ParentMove(c, p, res, ok, r, w), ForkCount(p, ok, n))
  {
  }

  lemma MoveDropErr(c: Config, p: Parent, n: nat, res: ReadResult, ok: bool, r: int, w: int)
    requires ParentInv(c, p, n) && CanMove(p, ok, r, w) && p.pc == DropErr
    ensures ParentInv(c, ParentMove(c, p, res, ok, r, w), ForkCount(p, ok, n))
  {
  }

  lemma MoveFailing(c: Config, p: Parent, n: nat, res: ReadResult, ok: bool, r: int, w: int)
    requires ParentInv(c, p, n) && CanMove(p, ok, r, w) && Failing(p.pc)
    ensures ParentInv(c, ParentMove(c, p, res, ok, r, w), ForkCount(p, ok, n))
  {
    var t := ParentMove(c, p, res, ok, r, w);
    assert Failing(t.pc) && t.i == p.i;
    assert BaseKept(c, t.tab);
  }

  lemma MoveInv(c: Config, p: Parent, n: nat, res: ReadResult, ok: bool, r: int, w: int)
    requires ParentInv(c, p, n) && CanMove(p, ok, r, w)
    ensures ParentInv(c, ParentMove(c, p, res, ok, r, w), ForkCount(p, ok, n))
  {
    match p.pc
    case Start => MoveStart(c, p, n, res, ok, r, w);
    case MakePipe => MoveMakePipe(c, p, n, res, ok, r, w);
    case MakeErr => MoveMakeErr(c, p, n, res, ok, r, w);
    case Fork => MoveFork(c, p, n, res, ok, r, w);
    case DropPrev => MoveDropPrev(c, p, n, res, ok, r, w);
    case DropOut => MoveDropOut(c, p, n, res, ok, r, w);
    case SetGroup => MoveSetGroup(c, p, n, res, ok, r, w);
    case DropErrW => MoveDropErrW(c, p, n, res, ok, r, w);
    case ReadErr => MoveReadErr(c, p, n, res, ok, r, w);
    case ReadErrText => MoveReadErrText(c, p, n, res, ok, r, w);
    case DropErrR => MoveDropErrR(c, p, n, res, ok, r, w);
    case DropCtl => MoveDropCtl(c, p, n, res, ok, r, w);
    case DropPipe => MoveDropPipe(c, p, n, res, ok, r, w);
    case ReadFirst => MoveReadFirst(c, p, n, res, ok, r, w);
    case ReadFirstText => MoveReadFirstText(c, p, n, res, ok, r, w);
    case DropFirst => MoveDropFirst(c, p, n, res, ok, r, w);
    case DropErr => MoveDropErr(c, p, n, res, ok, r, w);
    case Done =>
    case _ => MoveFailing(c, p, n, res, ok, r, w);
  }

  // ----- the conditions between parent and children -----

  /** A child that is still running its start-up code holds the writing end of its error pipe. */
  lemma LiveHoldsErrW(c: Config, s: State, k: nat)
    requires c.Valid() && k < |s.cs| <= c.Size() && TabAfter(c, k, s.cs[k])
    ensures s.cs[k].Final() || Held(s, ErrW(k))
  {
    if !s.cs[k].Final() {
      assert Holds(s.cs[k].tab, ErrW(k)) by {
        assert s.cs[k].v.err in s.cs[k].tab;
      }
    }
  }

  lemma ParentHoldsCtlW(c: Config, s: State)
    requires ParentInv(c, s.p, |s.cs|) && HasCtl(s.p)
    ensures Holds(s.p.tab, CtlW) && Held(s, CtlW)
  {
    assert s.p.ctl1 in s.p.tab;
  }

  /** What a read of the parent tells it about the child at the other end. */
  ghost predicate ReadFacts(res: ReadResult, cs: seq<Child>, k: nat) {
    && k < |cs|
    && res != Bad
    && (res == Eof ==> cs[k].Final() && cs[k].wrote == 0)
    && (res == Data ==> cs[k].wrote > 0)
  }

  lemma ReadTells(c: Config, s: State, fd: int, k: nat)
    requires c.Valid() && k < |s.cs| <= c.Size() && TabAfter(c, k, s.cs[k])
    requires At(s.p.tab, fd, ErrR(k))
    ensures ReadFacts(ReadOn(s, fd, 0), s.cs, k)
  {
    LiveHoldsErrW(c, s, k);
  }

  /** The part of the invariant that relates parent and children. */
  ghost predicate LinkInv(c: Config, p: Parent, cs: seq<Child>) {
    && c.Valid() && Counts(c, p, |cs|) && Global(c, p, cs)
    && (HasCtl(p) ==> Holds(p.tab, CtlW))
    && (forall k :: 0 <= k < |cs| ==> Flags(cs[k]))
  }

  ghost predicate GlobalAfter(c: Config, s: State, res: ReadResult, ok: bool, r: int, w: int)
    requires c.Valid()
  {
    var t, cs := ParentMove(c, s.p, res, ok, r, w), ParentEffect(s, ok);
    Counts(c, t, |cs|) ==> Global(c, t, cs)
  }

  lemma GlobalOpening(c: Config, s: State, res: ReadResult, ok: bool, r: int, w: int)
    requires LinkInv(c, s.p, s.cs) && Order(s.p.pc) <= 3
    ensures GlobalAfter(c, s, res, ok, r, w)
  {
  }

  lemma GlobalDropping(c: Config, s: State, res: ReadResult, ok: bool, r: int, w: int)
    requires LinkInv(c, s.p, s.cs) && 4 <= Order(s.p.pc) <= 7
    ensures GlobalAfter(c, s, res, ok, r, w)
  {
  }

  lemma GlobalReading(c: Config, s: State, res: ReadResult, ok: bool, r: int, w: int)
    requires LinkInv(c, s.p, s.cs) && 8 <= Order(s.p.pc) <= 10 && s.p.i > 0
    requires s.p.pc == ReadErr ==> ReadFacts(res, s.cs, s.p.i)
    ensures GlobalAfter(c, s, res, ok, r, w)
  {
  }

  lemma GlobalAfterLoop(c: Config, s: State, res: ReadResult, ok: bool, r: int, w: int)
    requires LinkInv(c, s.p, s.cs) && AfterLoop(s.p.pc)
    requires s.p.pc == ReadFirst ==> ReadFacts(res, s.cs, 0) && res != Blocked
    ensures GlobalAfter(c, s, res, ok, r, w)
  {
    assert Flags(s.cs[0]);
  }

  lemma GlobalFailing(c: Config, s: State, res: ReadResult, ok: bool, r: int, w: int)
    requires LinkInv(c, s.p, s.cs) && Failing(s.p.pc)
    ensures GlobalAfter(c, s, res, ok, r, w)
  {
  }

  lemma ParentGlobal(c: Config, s: State, st: Step)
    requires Inv(c, s) && st.ParentStep? && ParentEnabled(c, s, st)
    ensures GlobalAfter(c, s, ParentRead(s), st.ok, st.r, st.w)
  {
    var res := ParentRead(s);
    if HasCtl(s.p) {
      ParentHoldsCtlW(c, s);
    }
    if s.p.pc == ReadErr {
      ReadTells(c, s, s.p.err0, s.p.i);
    } else if s.p.pc == ReadFirst {
      ReadTells(c, s, s.p.first, 0);
    }
    if Order(s.p.pc) <= 3 {
      GlobalOpening(c, s, res, st.ok, st.r, st.w);
    } else if Order(s.p.pc) <= 7 {
      GlobalDropping(c, s, res, st.ok, st.r, st.w);
    } else if Order(s.p.pc) <= 10 {
      GlobalReading(c, s, res, st.ok, st.r, st.w);
    } else if AfterLoop(s.p.pc) {
      GlobalAfterLoop(c, s, res, st.ok, st.r, st.w);
    } else {
      GlobalFailing(c, s, res, st.ok, st.r, st.w);
    }
  }

  /** The children keep their invariants over a parent step, and only a fork adds one. */
  lemma ParentKeepsChildren(c: Config, s: State, ok: bool, k: nat)
    requires ParentInv(c, s.p, |s.cs|) && k < |ParentEffect(s, ok)|
    requires k < |s.cs| ==> ChildInv(c, k, s.cs[k])
    ensures k < c.Size() && ChildInv(c, k, ParentEffect(s, ok)[k])
  {
    if k == |s.cs| {
      ForkInv(c, s.p, |s.cs|);
    }
  }

  lemma EffectCount(s: State, ok: bool)
    ensures |ParentEffect(s, ok)| == ForkCount(s.p, ok, |s.cs|)
  {
  }

  lemma ParentKeepsAll(c: Config, s: State, ok: bool)
    requires ParentInv(c, s.p, |s.cs|) && forall k :: 0 <= k < |s.cs| ==> ChildInv(c, k, s.cs[k])
    ensures |ParentEffect(s, ok)| <= c.Size()
    ensures forall k :: 0 <= k < |ParentEffect(s, ok)| ==> ChildInv(c, k, ParentEffect(s, ok)[k])
  {
    var cs := ParentEffect(s, ok);
    if |cs| > 0 {
      ParentKeepsChildren(c, s, ok, |cs| - 1);
    }
    forall k: nat | k < |cs| ensures ChildInv(c, k, cs[k]) {
      ParentKeepsChildren(c, s, ok, k);
    }
  }

  lemma ParentStepInv(c: Config, s: State, st: Step)
    requires Inv(c, s) && st.ParentStep? && ParentEnabled(c, s, st)
    ensures Inv(c, Next(c, s, st))
  {
    MoveInv(c, s.p, |s.cs|, ParentRead(s), st.ok, st.r, st.w);
    EffectCount(s, st.ok);
    ParentKeepsAll(c, s, st.ok);
    ParentGlobal(c, s, st);
  }

  /** The leader cannot pass its read of the control pipe while the parent may still fail. */
  lemma ControlPipeBlocks(c: Config, s: State)
    requires LinkInv(c, s.p, s.cs) && |s.cs| > 0 && s.cs[0].pc == ReadCtl && !s.cs[0].signalled
    requires !Held(s, CtlW)
    ensures AfterLoop(s.p.pc) && s.p.pc != DropCtl
  {
  }

  lemma ChildGlobal(c: Config, p: Parent, cs: seq<Child>, k: nat, r: Child)
    requires LinkInv(c, p, cs) && k < |cs|
    requires cs[k].Final() ==> r.Final() && r.wrote == cs[k].wrote
    requires r.signalled == cs[k].signalled && r.wrote >= cs[k].wrote
    requires (cs[k].inGroup ==> r.inGroup) && (cs[k].reaped ==> r.reaped)
    requires k == 0 && Released(r) ==> Released(cs[0]) || (AfterLoop(p.pc) && p.pc != DropCtl)
    requires cs[k].signalled ==> r.Final()
    ensures Global(c, p, cs[k := r])
  {
  }

  lemma Linked(c: Config, s: State)
    requires Inv(c, s)
    ensures LinkInv(c, s.p, s.cs)
  {
    if HasCtl(s.p) {
      ParentHoldsCtlW(c, s);
    }
  }

  lemma ReplaceChild(c: Config, s: State, k: nat, r: Child)
    requires Inv(c, s) && k < |s.cs| && ChildInv(c, k, r) && Global(c, s.p, s.cs[k := r])
    ensures Inv(c, s.(cs := s.cs[k := r]))
  {
  }

  lemma ChildStepKeeps(c: Config, s: State, k: nat, ok: bool, files: map<int, nat>)
    requires Inv(c, s) && ChildEnabled(c, s, k, files)
    ensures Inv(c, s.(cs := s.cs[k := ChildNext(c, k, s.cs[k], ok, files)]))
  {
    Linked(c, s);
    if k == 0 && s.cs[0].pc == ReadCtl {
      ControlPipeBlocks(c, s);
    }
    assert ChildInv(c, k, s.cs[k]);
    var r := ChildNext(c, k, s.cs[k], ok, files);
    ChildTabStep(c, k, s.cs[k], ok, files);
    ChildFlags(c, k, s.cs[k], ok, files);
    ChildGlobal(c, s.p, s.cs, k, r);
    ReplaceChild(c, s, k, r);
  }

  lemma DeathKeeps(c: Config, s: State, k: nat)
    requires Inv(c, s) && k < |s.cs| && !s.cs[k].Over()
    ensures Inv(c, s.(cs := s.cs[k := Killed(s.cs[k])]))
  {
    Linked(c, s);
    var r := Killed(s.cs[k]);
    assert ChildInv(c, k, s.cs[k]) && ChildInv(c, k, r);
    ChildGlobal(c, s.p, s.cs, k, r);
    ReplaceChild(c, s, k, r);
  }

  lemma ReapKeeps(c: Config, s: State, k: nat)
    requires Inv(c, s) && k < |s.cs| && s.cs[k].Over()
    ensures Inv(c, s.(cs := s.cs[k := s.cs[k].(reaped := true)]))
  {
    Linked(c, s);
    var r := s.cs[k].(reaped := true);
    assert ChildInv(c, k, s.cs[k]) && ChildInv(c, k, r);
    ChildGlobal(c, s.p, s.cs, k, r);
    ReplaceChild(c, s, k, r);
  }

  /** Every step keeps the invariant. */
  lemma StepInv(c: Config, s: State, st: Step)
    requires Inv(c, s) && Enabled(c, s, st)
    ensures Inv(c, Next(c, s, st))
  {
    match st
    case ParentStep(_, _, _) => ParentStepInv(c, s, st);
    case ChildStep(k, ok, files) => ChildStepKeeps(c, s, k, Answer(s, k, ok), files);
    case Die(k) => DeathKeeps(c, s, k);
    case Reap(k) => ReapKeeps(c, s, k);
    case Vanish =>
  }

  lemma FirstInv(c: Config, tr: seq<State>, steps: seq<Step>)
    requires c.Valid() && IsRun(c, tr, steps)
    ensures Inv(c, tr[0])
  {
    InitInv(c);
  }

  lemma NextInv(c: Config, tr: seq<State>, steps: seq<Step>, j: nat)
    requires IsRun(c, tr, steps) && 0 < j < |tr| && Inv(c, tr[j - 1])
    ensures Inv(c, tr[j])
  {
    StepInv(c, tr[j - 1], steps[j - 1]);
  }

  lemma {:induction false} RunInv(c: Config, tr: seq<State>, steps: seq<Step>, j: nat)
    requires c.Valid() && IsRun(c, tr, steps) && j < |tr|
    ensures Inv(c, tr[j])
  {
    FirstInv(c, tr, steps);
    for i := 0 to j
      invariant Inv(c, tr[i])
    {
      NextInv(c, tr, steps, i + 1);
    }
  }
}
