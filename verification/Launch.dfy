/** The pipeline launch protocol of lsh: `start_job_internal` and the code its children run
    up to exec, as a transition system of one parent and n children.

    Every process owns a file-descriptor table. A pipe end is held by a process when some
    descriptor of its table designates it, so a reader sees end-of-file exactly when no
    process holds the writing end any more. Exec drops the close-on-exec descriptors and
    exit drops all of them. One step is one system call (or one `close_pipe`).

    The job's process group exists from the moment the leader is in it until its last member
    has been reaped, which the shell's SIGCHLD handler may do in the middle of the launch. */
module Launch {

  /** What a descriptor designates. Pipe ends carry the index of the process they belong to:
      `DataR(i)`/`DataW(i)` are the ends of the pipe between process i and i+1. */
  datatype End =
    | Base(id: nat)     // open before the call
    | File(id: nat)     // opened by a redirect
    | CtlR | CtlW
    | ErrR(i: nat) | ErrW(i: nat)
    | DataR(i: nat) | DataW(i: nat)

  datatype Desc = Desc(end: End, cloexec: bool)

  type Table = map<int, Desc>

  /** The job: one flag per process (does it carry redirects?), whether it runs in the
      foreground, and the shell's descriptors when the call starts. */
  datatype Config = Config(redirects: seq<bool>, fg: bool, base: Table) {
    function Size(): nat { |redirects| }

    predicate IsLast(i: int) { i == Size() - 1 }

    ghost predicate Valid() {
      && |redirects| >= 1
      && 0 in base && 1 in base && 2 in base
      && forall f | f in base :: f >= 0 && base[f].end.Base?
    }
  }

  datatype ChildPc =
    | Link | Redirect | ClosePrev | CloseOut | JoinGroup
    | Terminal | CloseCtlW | ReadCtl        // leader only
    | CloseCtlR | Exec
    | WriteErrno | WriteMessage | Quit      // write_error
    | Execed | Ended                        // its program is running, or has ended
    | Exited                                // it ended before it ran its program

  /** A child's private copies of the parent's descriptor variables. */
  datatype Vars = Vars(prevfd: int, out: int, err: int, ctl0: int, ctl1: int)

  /** `wrote` counts the two writes of `write_error` to the child's own error pipe, `inGroup`
      says that a setpgid has put the child into the job's group, `reaped` that the shell has
      waited for it. */
  datatype Child =
    Child(pc: ChildPc, v: Vars, tab: Table, inGroup: bool, signalled: bool, wrote: nat, reaped: bool)
  {
    predicate Ran() { pc == Execed || pc == Ended }

    predicate Over() { pc == Ended || pc == Exited }

    predicate Final() { Ran() || Over() }
  }

  datatype ParentPc =
    | Start
    | MakePipe | MakeErr | Fork | DropPrev | DropOut | SetGroup | DropErrW | ReadErr | ReadErrText | DropErrR
    | DropCtl | DropPipe | ReadFirst | ReadFirstText | DropFirst | DropErr | Done
    | Kill | FailCtl | FailPipe | FailErr | Failed

  /** The parent's local variables; `i` is the index of `current_process` in the fork loop. */
  datatype Parent = Parent(
    pc: ParentPc, i: nat, tab: Table,
    prevfd: int, pipe0: int, pipe1: int, err0: int, err1: int, ctl0: int, ctl1: int,
    first: int, pgidSet: bool)

  /** `gone` says that the job's group existed and has lost its last member. */
  datatype State = State(p: Parent, cs: seq<Child>, gone: bool)

  /** A scheduling choice. `ok` says whether the system call of the step succeeds, `r` and `w`
      are the numbers `pipe` hands out, `files` are the standard descriptors that a child's
      redirects replace. `Die(k)` is the end of child k, by a signal or because its program
      is over, `Reap(k)` the shell's wait for it, and `Vanish` the end of the group. */
  datatype Step =
    | ParentStep(ok: bool, r: int, w: int)
    | ChildStep(k: nat, ok: bool, files: map<int, nat>)
    | Die(k: nat)
    | Reap(k: nat)
    | Vanish

  // ----- system calls -----

  ghost predicate Holds(tab: Table, e: End) {
    exists f :: f in tab && tab[f].end == e
  }

  ghost predicate Held(s: State, e: End) {
    Holds(s.p.tab, e) || exists k :: 0 <= k < |s.cs| && Holds(s.cs[k].tab, e)
  }

  /** `pipe` returns two unused numbers. */
  predicate FreshPair(tab: Table, r: int, w: int) {
    r >= 0 && w >= 0 && r != w && r !in tab && w !in tab
  }

  function WithPipe(tab: Table, r: int, er: End, w: int, ew: End): Table {
    tab[r := Desc(er, true)][w := Desc(ew, true)]
  }

  /** One half of `close_pipe`: the variable becomes -1 only when the close succeeds. */
  function CloseVar(fd: int, tab: Table): int {
    if fd > 0 && fd in tab then -1 else fd
  }

  function CloseTab(fd: int, tab: Table): Table {
    if fd > 0 then tab - {fd} else tab
  }

  datatype ReadResult = Blocked | Eof | Data | Bad

  /** What reading the parent's descriptor fd returns when `seen` writes were consumed before. */
  ghost function ReadOn(s: State, fd: int, seen: nat): ReadResult {
    if fd !in s.p.tab then Bad
    else match s.p.tab[fd].end
      case ErrR(j) =>
        if j < |s.cs| && s.cs[j].wrote > seen then Data
        else if Held(s, ErrW(j)) then Blocked else Eof
      case _ => Bad
  }

  // ----- the children -----

  function ForkedChild(p: Parent): Child {
    Child(Link, Vars(p.prevfd, p.pipe1, p.err1, p.ctl0, p.ctl1), p.tab, false, false, 0, false)
  }

  /** `link_pipes(prevfd, last ? STDOUT_FILENO : pipefds[1])`; dup2 clears close-on-exec. */
  function LinkTab(c: Config, k: nat, ch: Child): Table {
    var t :=
      if ch.v.prevfd != -2 && ch.v.prevfd in ch.tab then ch.tab[0 := Desc(ch.tab[ch.v.prevfd].end, false)] else ch.tab;
    if !c.IsLast(k) && ch.v.out in t then t[1 := Desc(t[ch.v.out].end, false)] else t
  }

  predicate CanLink(c: Config, k: nat, ch: Child) {
    (ch.v.prevfd == -2 || ch.v.prevfd in ch.tab) && (c.IsLast(k) || ch.v.out in ch.tab)
  }

  function FileTab(files: map<int, nat>): Table {
    map f | f in files :: Desc(File(files[f]), false)
  }

  function ExecTab(tab: Table): Table {
    map f | f in tab && !tab[f].cloexec :: tab[f]
  }

  ghost predicate ChildEnabled(c: Config, s: State, k: nat, files: map<int, nat>) {
    && k < |s.cs|
    && !s.cs[k].Final() && !s.cs[k].signalled
    && (s.cs[k].pc == ReadCtl ==> !Held(s, CtlW))
    && (forall f | f in files :: 0 <= f <= 2)
    && ((k < |c.redirects| && c.redirects[k]) || files == map[])
  }

  /** One step of child k, in the order of lsh/execute.c:224-268. */
  function ChildNext(c: Config, k: nat, ch: Child, ok: bool, files: map<int, nat>): Child {
    match ch.pc
    case Link =>
      if ok && CanLink(c, k, ch) then ch.(pc := Redirect, tab := LinkTab(c, k, ch)) else ch.(pc := WriteErrno)
    case Redirect =>
      if ok || !(k < |c.redirects| && c.redirects[k])
      then ch.(pc := ClosePrev, tab := ch.tab + FileTab(files))
      else ch.(pc := WriteErrno)
    case ClosePrev => ch.(pc := CloseOut, tab := CloseTab(ch.v.prevfd, ch.tab))
    case CloseOut => ch.(pc := JoinGroup, tab := if c.IsLast(k) then ch.tab else CloseTab(ch.v.out, ch.tab))
    case JoinGroup =>
      ch.(pc := if k != 0 then CloseCtlR else if c.fg then Terminal else CloseCtlW, inGroup := ch.inGroup || ok)
    case Terminal => if ok then ch.(pc := CloseCtlW) else ch.(pc := WriteErrno)
    case CloseCtlW => ch.(pc := ReadCtl, tab := CloseTab(ch.v.ctl1, ch.tab))
    case ReadCtl => ch.(pc := CloseCtlR)
    case CloseCtlR => ch.(pc := Exec, tab := CloseTab(ch.v.ctl0, ch.tab))
    case Exec => if ok then ch.(pc := Execed, tab := ExecTab(ch.tab)) else ch.(pc := WriteErrno)
    case WriteErrno => ch.(pc := WriteMessage, wrote := 1)
    case WriteMessage => ch.(pc := Quit, wrote := 2)
    case Quit => Killed(ch)
    case _ => ch
  }

  function Killed(ch: Child): Child {
    ch.(pc := if ch.Ran() then Ended else Exited, tab := map[])
  }

  // ----- the process group -----

  /** The job's process group exists: the leader has created it and somebody is left in it. */
  predicate GroupExists(s: State) {
    !s.gone && exists k :: 0 <= k < |s.cs| && s.cs[k].inGroup
  }

  /** What child k's own setpgid returns: the leader creates the group, the others join it. */
  predicate JoinsItself(s: State, k: nat) {
    k == 0 || GroupExists(s)
  }

  /** What the parent's setpgid on child k returns. It fails on a process that has been reaped,
      on one that has exec'd, and when there is no such group. */
  predicate IsPutIn(s: State, k: nat) {
    k < |s.cs| && !s.cs[k].reaped && !s.cs[k].Ran() && (k == 0 || GroupExists(s))
  }

  /** What the system call at child k's program point returns. */
  predicate Answer(s: State, k: nat, ok: bool)
    requires k < |s.cs|
  {
    if s.cs[k].pc == JoinGroup then JoinsItself(s, k) else ok
  }

  /** `killpg` reaches the members that have not been reaped. */
  function Signal(cs: seq<Child>): (r: seq<Child>)
    ensures |r| == |cs|
    ensures forall k :: 0 <= k < |cs| ==>
              r[k] == cs[k].(signalled := cs[k].signalled || (cs[k].inGroup && !cs[k].reaped))
  {
    seq(|cs|, k requires 0 <= k < |cs| =>
      cs[k].(signalled := cs[k].signalled || (cs[k].inGroup && !cs[k].reaped)))
  }

  // ----- the parent -----

  /** What the parent reads at its current program point. */
  ghost function ParentRead(s: State): ReadResult {
    match s.p.pc
    case ReadErr => ReadOn(s, s.p.err0, 0)
    case ReadErrText => ReadOn(s, s.p.err0, 1)
    case ReadFirst => ReadOn(s, s.p.first, 0)
    case ReadFirstText => ReadOn(s, s.p.first, 1)
    case _ => Eof
  }

  ghost predicate ParentEnabled(c: Config, s: State, st: Step)
    requires st.ParentStep?
  {
    && s.p.pc != Done && s.p.pc != Failed
    && (s.p.pc in {Start, MakePipe, MakeErr} && st.ok ==> FreshPair(s.p.tab, st.r, st.w))
    && ParentRead(s) != Blocked
  }

  /** End of one loop iteration: `current_process = current_process->next`. */
  function Advance(c: Config, p: Parent): Parent {
    p.(i := p.i + 1, pc := if p.i + 1 < c.Size() then MakePipe else DropCtl)
  }

  /** One step of the parent, in the order of lsh/execute.c:191-327; `res` is what it read. */
  function ParentMove(c: Config, p: Parent, res: ReadResult, ok: bool, r: int, w: int): Parent {
    match p.pc
    case Start =>
      if ok then p.(pc := MakePipe, tab := WithPipe(p.tab, r, CtlR, w, CtlW), ctl0 := r, ctl1 := w)
      else p.(pc := Failed)
    case MakePipe =>
      if c.IsLast(p.i) then p.(pc := MakeErr) else if ok then OpenData(p, r, w) else p.(pc := Kill)
    case MakeErr => if ok then OpenErr(p, r, w) else p.(pc := Kill)
    case Fork => p.(pc := if ok then DropPrev else Kill)
    case DropPrev => p.(pc := DropOut, tab := CloseTab(p.prevfd, p.tab), prevfd := CloseVar(p.prevfd, p.tab))
    case DropOut =>
      if c.IsLast(p.i) then p.(pc := SetGroup)
      else p.(pc := SetGroup, tab := CloseTab(p.pipe1, p.tab), pipe1 := CloseVar(p.pipe1, p.tab), prevfd := p.pipe0)
    case SetGroup => p.(pc := DropErrW, pgidSet := true)
    case DropErrW =>
      var t := p.(tab := CloseTab(p.err1, p.tab), err1 := CloseVar(p.err1, p.tab));
      if p.i == 0 then Advance(c, t.(first := p.err0)) else t.(pc := ReadErr)
    case ReadErr => p.(pc := if res == Eof then DropErrR else if res == Data then ReadErrText else Kill)
    case ReadErrText => p.(pc := Kill)
    case DropErrR => Advance(c, p.(tab := CloseTab(p.err0, p.tab), err0 := CloseVar(p.err0, p.tab)))
    case DropCtl => CloseCtl(p).(pc := DropPipe)
    case DropPipe => ClosePipe(p).(pc := ReadFirst)
    case ReadFirst => p.(pc := if res == Eof then DropFirst else if res == Data then ReadFirstText else Kill)
    case ReadFirstText => p.(pc := Kill)
    case DropFirst => p.(pc := DropErr, tab := CloseTab(p.first, p.tab), first := CloseVar(p.first, p.tab))
    case DropErr => CloseErr(p).(pc := Done)
    case Done => p
    case Kill => p.(pc := FailCtl)
    case FailCtl => CloseCtl(p).(pc := FailPipe)
    case FailPipe => ClosePipe(p).(pc := FailErr)
    case FailErr => CloseErr(p).(pc := Failed)
    case Failed => p
  }

  /** What a parent step does to the children: fork, setpgid and killpg. */
  function ParentEffect(s: State, ok: bool): seq<Child> {
    match s.p.pc
    case Fork => if ok then s.cs + [ForkedChild(s.p)] else s.cs
    case SetGroup => if IsPutIn(s, s.p.i) then s.cs[s.p.i := s.cs[s.p.i].(inGroup := true)] else s.cs
    case Kill => if s.p.pgidSet then Signal(s.cs) else s.cs
    case _ => s.cs
  }

  function OpenData(p: Parent, r: int, w: int): Parent {
    p.(pc := MakeErr, tab := WithPipe(p.tab, r, DataR(p.i), w, DataW(p.i)), pipe0 := r, pipe1 := w)
  }

  function OpenErr(p: Parent, r: int, w: int): Parent {
    p.(pc := Fork, tab := WithPipe(p.tab, r, ErrR(p.i), w, ErrW(p.i)), err0 := r, err1 := w)
  }

  function CloseCtl(p: Parent): Parent {
    var t := CloseTab(p.ctl0, p.tab);
    p.(tab := CloseTab(p.ctl1, t), ctl0 := CloseVar(p.ctl0, p.tab), ctl1 := CloseVar(p.ctl1, t))
  }

  function ClosePipe(p: Parent): Parent {
    var t := CloseTab(p.pipe0, p.tab);
    p.(tab := CloseTab(p.pipe1, t), pipe0 := CloseVar(p.pipe0, p.tab), pipe1 := CloseVar(p.pipe1, t))
  }

  function CloseErr(p: Parent): Parent {
    var t := CloseTab(p.err0, p.tab);
    p.(tab := CloseTab(p.err1, t), err0 := CloseVar(p.err0, p.tab), err1 := CloseVar(p.err1, t))
  }

  // ----- runs -----

  function Init(c: Config): State {
    State(Parent(Start, 0, c.base, -2, -1, -1, -1, -1, -1, -1, -1, false), [], false)
  }

  ghost predicate Enabled(c: Config, s: State, st: Step) {
    match st
    case ParentStep(_, _, _) => ParentEnabled(c, s, st)
    case ChildStep(k, _, files) => ChildEnabled(c, s, k, files)
    case Die(k) => k < |s.cs| && !s.cs[k].Over()
    case Reap(k) => k < |s.cs| && s.cs[k].Over() && !s.cs[k].reaped
    case Vanish => GroupExists(s) && forall k :: 0 <= k < |s.cs| && s.cs[k].inGroup ==> s.cs[k].reaped
  }

  ghost function Next(c: Config, s: State, st: Step): State
    requires Enabled(c, s, st)
  {
    match st
    case ParentStep(ok, r, w) => s.(p := ParentMove(c, s.p, ParentRead(s), ok, r, w), cs := ParentEffect(s, ok))
    case ChildStep(k, ok, files) => s.(cs := s.cs[k := ChildNext(c, k, s.cs[k], Answer(s, k, ok), files)])
    case Die(k) => s.(cs := s.cs[k := Killed(s.cs[k])])
    case Reap(k) => s.(cs := s.cs[k := s.cs[k].(reaped := true)])
    case Vanish => s.(gone := true)
  }

  /** A step of the launch itself: deaths count only when the shell has sent the signal to a
      process that is still starting. */
  ghost predicate Internal(s: State, st: Step) {
    match st
    case Die(k) => k < |s.cs| && s.cs[k].signalled && !s.cs[k].Final()
    case Reap(_) => false
    case Vanish => false
    case _ => true
  }

  /** tr is the sequence of states visited by the steps. */
  ghost predicate IsRun(c: Config, tr: seq<State>, steps: seq<Step>) {
    && |tr| == |steps| + 1
    && tr[0] == Init(c)
    && forall j {:trigger steps[j]} :: 0 <= j < |steps| ==>
         Enabled(c, tr[j], steps[j]) && tr[j + 1] == Next(c, tr[j], steps[j])
  }
}
