/** The inductive invariant of the launch protocol. */
module LaunchInv {
  import opened Launch

  // ----- which ends the parent holds at each point of its program -----

  /** The program points of the parent in program order. */
  function Order(pc: ParentPc): nat {
    match pc
    case Start => 0
    case MakePipe => 1 case MakeErr => 2 case Fork => 3 case DropPrev => 4 case DropOut => 5 case SetGroup => 6
    case DropErrW => 7 case ReadErr => 8 case ReadErrText => 9 case DropErrR => 10
    case DropCtl => 11 case DropPipe => 12 case ReadFirst => 13 case ReadFirstText => 14 case DropFirst => 15
    case DropErr => 16 case Done => 17
    case Kill => 18 case FailCtl => 19 case FailPipe => 20 case FailErr => 21 case Failed => 22
  }

  predicate Failing(pc: ParentPc) { Order(pc) >= 18 }

  predicate InLoop(pc: ParentPc) { 1 <= Order(pc) <= 10 }

  predicate BeforeFork(pc: ParentPc) { 1 <= Order(pc) <= 3 }

  predicate AfterLoop(pc: ParentPc) { 11 <= Order(pc) <= 17 }

  predicate HasCtl(p: Parent) { 1 <= Order(p.pc) <= 11 }

  predicate HasPrev(p: Parent) { p.i > 0 && 1 <= Order(p.pc) <= 4 }

  predicate HasPipeR(c: Config, p: Parent) { p.i < c.Size() - 1 && 2 <= Order(p.pc) <= 10 }

  predicate HasPipeW(c: Config, p: Parent) { p.i < c.Size() - 1 && 2 <= Order(p.pc) <= 5 }

  predicate HasErrR(p: Parent) { 3 <= Order(p.pc) <= 10 }

  predicate HasErrW(p: Parent) { 3 <= Order(p.pc) <= 7 }

  predicate HasFirst(p: Parent) { (InLoop(p.pc) && p.i > 0) || 11 <= Order(p.pc) <= 15 }

  ghost predicate At(tab: Table, fd: int, e: End) {
    fd > 2 && fd in tab && tab[fd] == Desc(e, true)
  }

  /** Descriptor f of the parent designates pipe end e, and the protocol says it should. */
  predicate ParentOwns(c: Config, p: Parent, f: int, e: End) {
    match e
    case CtlR => HasCtl(p) && f == p.ctl0
    case CtlW => HasCtl(p) && f == p.ctl1
    case ErrR(j) => (HasFirst(p) && j == 0 && f == p.first) || (HasErrR(p) && j == p.i && f == p.err0)
    case ErrW(j) => HasErrW(p) && j == p.i && f == p.err1
    case DataR(j) => (HasPrev(p) && j == p.i - 1 && f == p.prevfd) || (HasPipeR(c, p) && j == p.i && f == p.pipe0)
    case DataW(j) => HasPipeW(c, p) && j == p.i && f == p.pipe1
    case _ => false
  }

  ghost predicate BaseKept(c: Config, tab: Table) {
    forall f | f in c.base :: f in tab && tab[f] == c.base[f]
  }

  ghost predicate NotBase(c: Config, p: Parent) {
    && p.ctl0 !in c.base && p.ctl1 !in c.base && p.pipe0 !in c.base && p.pipe1 !in c.base
    && p.err0 !in c.base && p.err1 !in c.base && p.prevfd !in c.base && p.first !in c.base
  }

  /** The parent's table is the initial one plus exactly the ends of its current phase. */
  ghost predicate ParentTab(c: Config, p: Parent) {
    && (forall f | f in p.tab && f !in c.base :: f > 2 && p.tab[f].cloexec && ParentOwns(c, p, f, p.tab[f].end))
    && (HasCtl(p) ==> At(p.tab, p.ctl0, CtlR) && At(p.tab, p.ctl1, CtlW))
    && (HasPrev(p) ==> At(p.tab, p.prevfd, DataR(p.i - 1)))
    && (HasPipeR(c, p) ==> At(p.tab, p.pipe0, DataR(p.i)))
    && (HasPipeW(c, p) ==> At(p.tab, p.pipe1, DataW(p.i)))
    && (HasErrR(p) ==> At(p.tab, p.err0, ErrR(p.i)))
    && (HasErrW(p) ==> At(p.tab, p.err1, ErrW(p.i)))
    && (HasFirst(p) ==> At(p.tab, p.first, ErrR(0)))
  }

  /** The values of the descriptor variables that name no open descriptor. */
  ghost predicate ParentVars(c: Config, p: Parent) {
    && (p.i == 0 && Order(p.pc) <= 5 ==> p.prevfd == -2)
    && (p.i > 0 && p.pc == DropOut ==> p.prevfd == -1)
    && (p.i > 0 && p.pc == MakePipe ==> p.pipe0 == p.prevfd && p.pipe1 == -1)
    && (6 <= Order(p.pc) <= 10 && !c.IsLast(p.i) ==> p.prevfd == p.pipe0 && p.pipe1 == -1)
    && (Order(p.pc) <= 10 && c.IsLast(p.i) ==> p.pipe1 == -1)
    && (p.i == 0 && Order(p.pc) <= 10 && c.IsLast(p.i) ==> p.pipe0 == -1)
    && (p.i > 0 && c.IsLast(p.i) && 2 <= Order(p.pc) <= 4 ==> p.pipe0 == p.prevfd)
    && (5 <= Order(p.pc) <= 10 && c.IsLast(p.i) ==> p.pipe0 !in p.tab)
    && (8 <= Order(p.pc) <= 10 ==> p.i > 0 && p.err1 == -1)
    && (p.i > 0 && 1 <= Order(p.pc) <= 2 ==> p.err1 == -1)
    && (AfterLoop(p.pc) ==> p.pipe0 !in p.tab && p.pipe1 == -1 && p.err1 == -1)
    && ((AfterLoop(p.pc) && c.Size() > 1) || (p.i > 1 && 1 <= Order(p.pc) <= 2) ==> p.err0 == -1)
    && (11 <= Order(p.pc) <= 15 && c.Size() == 1 ==> p.err0 == p.first)
    && (12 <= Order(p.pc) <= 17 ==> p.ctl0 == -1 && p.ctl1 == -1)
    && (16 <= Order(p.pc) <= 17 ==> p.err0 !in p.tab)
  }

  // ----- which ends a child holds -----

  function Rank(pc: ChildPc): nat {
    match pc
    case Link => 14 case Redirect => 13 case ClosePrev => 12 case CloseOut => 11 case JoinGroup => 10
    case Terminal => 9 case CloseCtlW => 8 case ReadCtl => 7 case CloseCtlR => 6 case Exec => 5
    case WriteErrno => 3 case WriteMessage => 2 case Quit => 1
    case Execed => 1 case Ended => 0 case Exited => 0
  }

  /** The standard descriptors the protocol gives process k: the neighbouring pipe ends. */
  function Wired(c: Config, k: nat, f: int): Desc
    requires f in c.base
  {
    if f == 0 && k > 0 then Desc(DataR(k - 1), false)
    else if f == 1 && k < c.Size() - 1 then Desc(DataW(k), false)
    else c.base[f]
  }

  ghost predicate StdOk(c: Config, k: nat, tab: Table)
    requires c.Valid() && k < c.Size()
  {
    forall f | 0 <= f <= 2 :: f in tab &&
      (tab[f] == Wired(c, k, f) || (c.redirects[k] && tab[f].end.File? && !tab[f].cloexec))
  }

  /** The standard descriptors at each point of the child's program. */
  ghost predicate StdAt(c: Config, k: nat, pc: ChildPc, tab: Table)
    requires c.Valid() && k < c.Size()
  {
    && (pc == Link ==> forall f | 0 <= f <= 2 :: f in tab && tab[f] == c.base[f])
    && (pc == Redirect ==> forall f | 0 <= f <= 2 :: f in tab && tab[f] == Wired(c, k, f))
    && (5 <= Rank(pc) <= 12 ==> StdOk(c, k, tab))
    && (forall f | 0 <= f <= 2 && f in tab :: tab[f] == c.base[f] || tab[f] == Wired(c, k, f) || tab[f].end.File?)
  }

  ghost predicate ChildOwns(k: nat, pc: ChildPc, v: Vars, f: int, e: End) {
    match e
    case CtlR => f == v.ctl0
    case CtlW => f == v.ctl1 && (k == 0 ==> !(5 <= Rank(pc) <= 7))
    case ErrR(_) => true
    case ErrW(j) => f == v.err && j == k
    case DataR(j) => (f == v.prevfd && j == k - 1) || j == k
    case DataW(j) => f == v.out && j == k
    case _ => false
  }

  ghost predicate LiveChild(c: Config, k: nat, pc: ChildPc, v: Vars, tab: Table)
    requires c.Valid() && k < c.Size()
  {
    && (forall f | f in c.base && f > 2 :: f in tab && tab[f] == c.base[f])
    && (forall f | f in tab && f !in c.base :: f > 2 && tab[f].cloexec && ChildOwns(k, pc, v, f, tab[f].end))
    && (if k == 0 then v.prevfd == -2 else Rank(pc) >= 12 ==> At(tab, v.prevfd, DataR(k - 1)))
    && (k < c.Size() - 1 && Rank(pc) >= 11 ==> At(tab, v.out, DataW(k)))
    && At(tab, v.err, ErrW(k))
    && (Rank(pc) >= 6 ==> At(tab, v.ctl0, CtlR))
    && (k > 0 || Rank(pc) >= 8 ==> At(tab, v.ctl1, CtlW))
    && v.ctl0 !in c.base && v.ctl1 !in c.base && v.prevfd !in c.base && v.out !in c.base
    && StdAt(c, k, pc, tab)
    && (7 <= Rank(pc) <= 9 ==> k == 0)
  }

  /** The table of process k once it runs its program: no protocol pipe is left in it. */
  ghost predicate ExecedTab(c: Config, k: nat, tab: Table)
    requires c.Valid() && k < c.Size()
  {
    && (forall f | f in tab :: f in c.base && !tab[f].cloexec &&
         (tab[f] == Wired(c, k, f) || (c.redirects[k] && f <= 2 && tab[f].end.File?)))
    && (forall f | f in c.base && !Wired(c, k, f).cloexec :: f in tab)
  }

  /** What the error writes and the signal say about a child's program point. */
  predicate Flags(ch: Child) {
    && ch.wrote <= 2
    && (ch.wrote > 0 ==> ch.pc in {WriteMessage, Quit, Exited})
    && (ch.pc == WriteMessage ==> ch.wrote == 1)
    && (ch.pc == Quit ==> ch.wrote == 2)
    && (ch.signalled ==> ch.inGroup)
    && (ch.reaped ==> ch.Over())
  }

  ghost predicate ChildTab(c: Config, k: nat, pc: ChildPc, v: Vars, tab: Table)
    requires c.Valid() && k < c.Size()
  {
    match pc
    case Execed => ExecedTab(c, k, tab)
    case Exited => tab == map[]
    case Ended => tab == map[]
    case _ => LiveChild(c, k, pc, v, tab)
  }

  ghost predicate ChildInv(c: Config, k: nat, ch: Child)
    requires c.Valid() && k < c.Size()
  {
    ChildTab(c, k, ch.pc, ch.v, ch.tab) && Flags(ch)
  }

  // ----- how parent and children constrain each other -----

  /** The leader has seen end-of-file on the control pipe and may exec. */
  predicate Released(ch: Child) { ch.pc in {CloseCtlR, Exec, Execed, Ended} }

  /** Children whose error pipe the parent has read to its end without an error. */
  function Checked(p: Parent, n: nat): nat {
    if InLoop(p.pc) && p.pc != DropErrR then p.i else if p.pc == DropErrR then p.i + 1 else n
  }

  /** n children have been forked. */
  ghost predicate Counts(c: Config, p: Parent, n: nat) {
    && n <= c.Size()
    && p.i <= c.Size()
    && (p.pc == Start ==> p.i == 0 && n == 0)
    && (InLoop(p.pc) ==> p.i < c.Size() && n == if BeforeFork(p.pc) then p.i else p.i + 1)
    && (AfterLoop(p.pc) ==> p.i == n == c.Size())
  }

  /** The parent's own part: its table and variables. */
  ghost predicate ParentInv(c: Config, p: Parent, n: nat) {
    && c.Valid()
    && Counts(c, p, n)
    && BaseKept(c, p.tab)
    && NotBase(c, p)
    && (!Failing(p.pc) ==> ParentTab(c, p) && ParentVars(c, p))
  }

  ghost predicate Global(c: Config, p: Parent, cs: seq<Child>)
    requires c.Valid() && Counts(c, p, |cs|)
  {
    // the children checked so far have exec'd or died, and never reported an error
    && (!Failing(p.pc) ==> forall k :: 1 <= k < Checked(p, |cs|) ==> cs[k].Final() && cs[k].wrote == 0)
    && (15 <= Order(p.pc) <= 17 ==> cs[0].Final() && cs[0].wrote == 0)
    && (p.pc == ReadErrText ==> cs[p.i].wrote >= 1)
    && (p.pc == ReadFirstText ==> cs[0].wrote >= 1)
    // the leader is released only once the parent has let go of the control pipe
    && (|cs| > 0 && Released(cs[0]) ==> AfterLoop(p.pc) && p.pc != DropCtl)
    // from the moment the parent knows its pid, the leader receives the group's signals or has been reaped
    && (|cs| > 0 ==> p.pgidSet == (p.i > 0 || !(4 <= Order(p.pc) <= 6)))
    && (p.pgidSet ==> |cs| > 0 && (cs[0].inGroup || cs[0].reaped))
    && (p.pc == Kill && |cs| > 0 ==> p.pgidSet && (Holds(p.tab, CtlW) || cs[0].wrote > 0))
    && (Order(p.pc) >= 19 && |cs| > 0 ==> cs[0].Final() || cs[0].signalled)
    && (Order(p.pc) <= 18 ==> forall k :: 0 <= k < |cs| ==> !cs[k].signalled)
  }

  ghost predicate Inv(c: Config, s: State) {
    && ParentInv(c, s.p, |s.cs|)
    && (forall k :: 0 <= k < |s.cs| ==> ChildInv(c, k, s.cs[k]))
    && Global(c, s.p, s.cs)
  }
}
