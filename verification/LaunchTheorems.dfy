/** What the launch protocol guarantees, for every pipeline and every interleaving. */
module LaunchTheorems {
  import opened Launch
  import opened LaunchInv
  import opened LaunchProofs

  // ----- safety: the leader starts last or not at all -----

  /** In every state of every run in which the leader runs its program, the parent has left
      the fork loop, every process has been forked and every later one has exec'd or exited,
      none of them having reported an error. */
  lemma LeaderExecsLast(c: Config, tr: seq<State>, steps: seq<Step>, j: nat)
    requires c.Valid() && IsRun(c, tr, steps) && j < |tr|
    requires |tr[j].cs| > 0 && tr[j].cs[0].Ran()
    ensures AfterLoop(tr[j].p.pc) && |tr[j].cs| == c.Size()
    ensures forall k :: 1 <= k < c.Size() ==> tr[j].cs[k].Final() && tr[j].cs[k].wrote == 0
  {
    RunInv(c, tr, steps, j);
  }

  /** The launch is lost: the parent took its error exit or a process reported a start error. */
  predicate Lost(s: State) {
    Failing(s.p.pc) || exists k :: 0 <= k < |s.cs| && s.cs[k].wrote > 0
  }

  lemma WritesStay(c: Config, s: State, st: Step, k: nat)
    requires Enabled(c, s, st) && k < |s.cs| && s.cs[k].wrote > 0 && Flags(s.cs[k])
    ensures k < |Next(c, s, st).cs| && Next(c, s, st).cs[k].wrote > 0
  {
    match st
    case ParentStep(_, _, _) =>
    case ChildStep(j, ok, files) =>
      if j == k {
        ChildFlags(c, k, s.cs[k], Answer(s, k, ok), files);
      }
    case _ =>
  }

  lemma LostStays(c: Config, s: State, st: Step)
    requires Enabled(c, s, st) && Lost(s)
    requires forall k :: 0 <= k < |s.cs| ==> Flags(s.cs[k])
    ensures Lost(Next(c, s, st))
  {
    if !Failing(s.p.pc) {
      var k :| 0 <= k < |s.cs| && s.cs[k].wrote > 0;
      WritesStay(c, s, st, k);
    }
  }

  lemma LostLeaderIdle(c: Config, s: State)
    requires Inv(c, s) && Lost(s) && |s.cs| > 0
    ensures !s.cs[0].Ran()
  {
    if !Failing(s.p.pc) {
      var k :| 0 <= k < |s.cs| && s.cs[k].wrote > 0;
      assert ChildInv(c, k, s.cs[k]) && ChildInv(c, 0, s.cs[0]);
    }
  }

  lemma RunFlags(c: Config, tr: seq<State>, steps: seq<Step>, j: nat)
    requires c.Valid() && IsRun(c, tr, steps) && j < |tr|
    ensures forall k :: 0 <= k < |tr[j].cs| ==> Flags(tr[j].cs[k])
  {
    RunInv(c, tr, steps, j);
  }

  lemma LostNext(c: Config, tr: seq<State>, steps: seq<Step>, j: nat)
    requires c.Valid() && IsRun(c, tr, steps) && 0 < j < |tr| && Lost(tr[j - 1])
    ensures Lost(tr[j])
  {
    RunFlags(c, tr, steps, j - 1);
    LostStays(c, tr[j - 1], steps[j - 1]);
  }

  lemma {:induction false} LostStaysInRun(c: Config, tr: seq<State>, steps: seq<Step>, i: nat, j: nat)
    requires c.Valid() && IsRun(c, tr, steps) && i <= j < |tr| && Lost(tr[i])
    ensures Lost(tr[j])
  {
    if i < j {
      LostStaysInRun(c, tr, steps, i, j - 1);
      LostNext(c, tr, steps, j);
    }
  }

  /** Once a process has reported a start error, or a pipe or fork has failed, the leader is
      never running its program, now or at any later point of the run. */
  lemma LostLeaderNeverExecs(c: Config, tr: seq<State>, steps: seq<Step>, i: nat, j: nat)
    requires c.Valid() && IsRun(c, tr, steps) && i <= j < |tr|
    requires Lost(tr[i])
    ensures |tr[j].cs| > 0 ==> !tr[j].cs[0].Ran()
  {
    LostStaysInRun(c, tr, steps, i, j);
    RunInv(c, tr, steps, j);
    if |tr[j].cs| > 0 {
      LostLeaderIdle(c, tr[j]);
    }
  }

  // ----- no deadlock -----

  /** Nothing is left to do: the parent has returned and no child is still starting. */
  predicate Quiet(s: State) {
    (s.p.pc == Done || s.p.pc == Failed) && forall k :: 0 <= k < |s.cs| ==> s.cs[k].Final()
  }

  function ChildAct(k: nat): Step { ChildStep(k, true, map[]) }

  /** Every system call of the step succeeds. */
  predicate Succeeds(st: Step) {
    match st
    case ParentStep(ok, _, _) => ok
    case ChildStep(_, ok, _) => ok
    case _ => true
  }

  /** Some process can take a successful step by itself. */
  ghost predicate CanMoveOn(c: Config, s: State) {
    exists st :: Enabled(c, s, st) && Internal(s, st) && Succeeds(st)
  }

  lemma {:induction false} AboveAll(fds: set<int>) returns (b: nat)
    ensures forall f | f in fds :: f < b
  {
    b := 0;
    if f :| f in fds {
      b := AboveAll(fds - {f});
      b := if b <= f then f + 1 else b;
      assert forall g | g in fds :: g == f || g in fds - {f};
    }
  }

  /** A child still starting can take its next step unless it waits on the control pipe. */
  lemma ChildCanStep(c: Config, s: State, k: nat)
    requires Inv(c, s) && k < |s.cs| && !s.cs[k].Final()
    requires s.cs[k].pc == ReadCtl ==> s.cs[k].signalled || !Held(s, CtlW)
    ensures CanMoveOn(c, s)
  {
    if s.cs[k].signalled {
      assert Enabled(c, s, Die(k)) && Internal(s, Die(k)) && Succeeds(Die(k));
    } else {
      assert Enabled(c, s, ChildAct(k)) && Internal(s, ChildAct(k)) && Succeeds(ChildAct(k));
    }
  }

  lemma ChildHolding(c: Config, k: nat, ch: Child, e: End)
    requires c.Valid() && k < c.Size() && TabAfter(c, k, ch) && Holds(ch.tab, e) && (e == CtlW || e.ErrW?)
    ensures !ch.Final() && (e.ErrW? ==> e.i == k) && (e == CtlW && k == 0 ==> ch.pc != ReadCtl)
  {
    var f :| f in ch.tab && ch.tab[f].end == e;
  }

  lemma ParentHolding(c: Config, p: Parent, n: nat, e: End)
    requires ParentInv(c, p, n) && !Failing(p.pc) && Holds(p.tab, e) && (e == CtlW || e.ErrW?)
    ensures if e == CtlW then HasCtl(p) else HasErrW(p) && e.i == p.i
  {
    var f :| f in p.tab && p.tab[f].end == e;
    assert f in c.base || ParentOwns(c, p, f, e);
  }

  /** While the parent waits for child k's error pipe, only child k can keep it open. */
  lemma ErrPipeHolder(c: Config, s: State, k: nat)
    requires Inv(c, s) && !Failing(s.p.pc) && !HasErrW(s.p)
    requires Held(s, ErrW(k))
    ensures k < |s.cs| && !s.cs[k].Final()
  {
    if Holds(s.p.tab, ErrW(k)) {
      ParentHolding(c, s.p, |s.cs|, ErrW(k));
    } else {
      var j :| 0 <= j < |s.cs| && Holds(s.cs[j].tab, ErrW(k));
      assert ChildInv(c, j, s.cs[j]);
      ChildHolding(c, j, s.cs[j], ErrW(k));
    }
  }

  /** Past the fork loop, a waiting leader sees the control pipe closed by everybody. */
  lemma ControlPipeClosed(c: Config, s: State)
    requires Inv(c, s) && AfterLoop(s.p.pc) && s.p.pc != DropCtl && s.cs[0].pc == ReadCtl
    ensures !Held(s, CtlW)
  {
    if Held(s, CtlW) {
      if Holds(s.p.tab, CtlW) {
        ParentHolding(c, s.p, |s.cs|, CtlW);
      } else {
        var j :| 0 <= j < |s.cs| && Holds(s.cs[j].tab, CtlW);
        assert ChildInv(c, j, s.cs[j]);
        ChildHolding(c, j, s.cs[j], CtlW);
      }
    }
  }

  lemma ParentCanStep(c: Config, s: State)
    requires s.p.pc != Done && s.p.pc != Failed && ParentRead(s) != Blocked
    ensures CanMoveOn(c, s)
  {
    var b := AboveAll(s.p.tab.Keys);
    var st := ParentStep(true, b, b + 1);
    assert FreshPair(s.p.tab, b, b + 1);
    assert Enabled(c, s, st) && Internal(s, st) && Succeeds(st);
  }

  /** When the call has returned, the leader is settled or on its way out. */
  lemma ReturnedLeader(c: Config, s: State)
    requires Inv(c, s) && (s.p.pc == Done || s.p.pc == Failed) && |s.cs| > 0
    ensures s.cs[0].Final() || s.cs[0].signalled
  {
  }

  lemma OnlyLeaderWaits(c: Config, k: nat, ch: Child)
    requires c.Valid() && k < c.Size() && ChildInv(c, k, ch) && ch.pc == ReadCtl
    ensures k == 0
  {
  }

  /** Whose error pipe the parent reads. */
  function Awaited(p: Parent): nat { if AfterLoop(p.pc) then 0 else p.i }

  lemma BlockedOn(c: Config, s: State)
    requires Inv(c, s) && ParentRead(s) == Blocked
    ensures !Failing(s.p.pc) && !HasErrW(s.p) && Held(s, ErrW(Awaited(s.p)))
    ensures Awaited(s.p) == 0 ==> AfterLoop(s.p.pc) && s.p.pc != DropCtl
  {
  }

  /** A parent blocked on an error pipe waits for a child that can move. */
  lemma BlockedParent(c: Config, s: State)
    requires Inv(c, s) && ParentRead(s) == Blocked
    ensures CanMoveOn(c, s)
  {
    var k := Awaited(s.p);
    BlockedOn(c, s);
    ErrPipeHolder(c, s, k);
    if s.cs[k].pc == ReadCtl {
      OnlyLeaderWaits(c, k, s.cs[k]);
      ControlPipeClosed(c, s);
    }
    ChildCanStep(c, s, k);
  }

  lemma LeftoverChild(c: Config, s: State, k: nat)
    requires Inv(c, s) && (s.p.pc == Done || s.p.pc == Failed) && k < |s.cs| && !s.cs[k].Final()
    ensures CanMoveOn(c, s)
  {
    if s.cs[k].pc == ReadCtl {
      OnlyLeaderWaits(c, k, s.cs[k]);
      ReturnedLeader(c, s);
    }
    ChildCanStep(c, s, k);
  }

  /** In each reachable state some process can move by itself, until the parent has returned
      and every child has exec'd or exited. */
  lemma NoDeadlock(c: Config, s: State)
    requires Inv(c, s) && !Quiet(s)
    ensures CanMoveOn(c, s)
  {
    if s.p.pc == Done || s.p.pc == Failed {
      var k :| 0 <= k < |s.cs| && !s.cs[k].Final();
      LeftoverChild(c, s, k);
    } else if ParentRead(s) == Blocked {
      BlockedParent(c, s);
    } else {
      ParentCanStep(c, s);
    }
  }

  // ----- termination -----

  function ParentRank(c: Config, p: Parent): int {
    if Failing(p.pc) then 22 - Order(p.pc) else (c.Size() - p.i) * 20 + 20 - Order(p.pc)
  }

  function ChildRanks(cs: seq<Child>): nat {
    if cs == [] then 0 else ChildRanks(cs[..|cs| - 1]) + Left(cs[|cs| - 1])
  }

  /** Bounds the steps a child can still take, until it has been reaped. */
  function Left(ch: Child): nat { Rank(ch.pc) + if ch.reaped then 0 else 1 }

  /** Bounds the number of steps the whole system can still take. */
  function Measure(c: Config, s: State): int {
    ParentRank(c, s.p) + ChildRanks(s.cs) + 15 * (c.Size() - |s.cs|) + if s.gone then 0 else 1
  }

  lemma {:induction false} ReplaceRank(cs: seq<Child>, k: nat, r: Child)
    requires k < |cs|
    ensures ChildRanks(cs[k := r]) == ChildRanks(cs) - Left(cs[k]) + Left(r)
  {
    var n := |cs| - 1;
    if k < n {
      ReplaceRank(cs[..n], k, r);
      assert cs[k := r][..n] == cs[..n][k := r];
    } else {
      assert cs[k := r][..n] == cs[..n];
    }
  }

  lemma {:induction false} SameRanks(cs: seq<Child>, ds: seq<Child>)
    requires |cs| == |ds| && forall k :: 0 <= k < |cs| ==> cs[k].pc == ds[k].pc && cs[k].reaped == ds[k].reaped
    ensures ChildRanks(cs) == ChildRanks(ds)
  {
    if |cs| > 0 {
      SameRanks(cs[..|cs| - 1], ds[..|ds| - 1]);
    }
  }

  lemma MoveDecreases(c: Config, p: Parent, n: nat, res: ReadResult, ok: bool, r: int, w: int)
    requires c.Valid() && Counts(c, p, n) && p.pc != Done && p.pc != Failed
    ensures ParentRank(c, ParentMove(c, p, res, ok, r, w)) < ParentRank(c, p)
  {
  }

  lemma EffectRanks(s: State, ok: bool)
    ensures ChildRanks(ParentEffect(s, ok)) == ChildRanks(s.cs) + 15 * (|ParentEffect(s, ok)| - |s.cs|)
  {
    var ds := ParentEffect(s, ok);
    if |ds| > |s.cs| {
      assert ds[..|ds| - 1] == s.cs;
    } else {
      SameRanks(s.cs, ds);
    }
  }

  lemma ChildDescends(c: Config, k: nat, ch: Child, ok: bool, files: map<int, nat>)
    requires !ch.Final()
    ensures Left(ChildNext(c, k, ch, ok, files)) < Left(ch)
  {
  }

  lemma DeathDescends(ch: Child)
    requires !ch.Over()
    ensures Left(Killed(ch)) < Left(ch)
  {
  }

  /** Every step, successful or not, lowers the measure. */
  lemma StepDecreases(c: Config, s: State, st: Step)
    requires c.Valid() && Counts(c, s.p, |s.cs|) && Enabled(c, s, st)
    ensures Measure(c, Next(c, s, st)) < Measure(c, s)
  {
    match st
    case ParentStep(ok, r, w) =>
      MoveDecreases(c, s.p, |s.cs|, ParentRead(s), ok, r, w);
      EffectRanks(s, ok);
    case ChildStep(k, ok, files) =>
      ChildDescends(c, k, s.cs[k], Answer(s, k, ok), files);
      ReplaceRank(s.cs, k, ChildNext(c, k, s.cs[k], Answer(s, k, ok), files));
    case Die(k) =>
      DeathDescends(s.cs[k]);
      ReplaceRank(s.cs, k, Killed(s.cs[k]));
    case Reap(k) =>
      ReplaceRank(s.cs, k, s.cs[k].(reaped := true));
    case Vanish =>
  }

  lemma MeasureBounds(c: Config, s: State)
    requires c.Valid() && Counts(c, s.p, |s.cs|)
    ensures Measure(c, s) >= 0
  {
  }

  lemma RunCounts(c: Config, tr: seq<State>, steps: seq<Step>, j: nat)
    requires c.Valid() && IsRun(c, tr, steps) && j < |tr|
    ensures Counts(c, tr[j].p, |tr[j].cs|)
  {
    RunInv(c, tr, steps, j);
  }

  lemma {:induction false} MeasureFalls(c: Config, tr: seq<State>, steps: seq<Step>, j: nat)
    requires c.Valid() && IsRun(c, tr, steps) && j < |tr|
    ensures Measure(c, tr[j]) <= 35 * c.Size() + 21 - j
  {
    if j > 0 {
      MeasureFalls(c, tr, steps, j - 1);
      RunCounts(c, tr, steps, j - 1);
      StepDecreases(c, tr[j - 1], steps[j - 1]);
    }
  }

  /** No run is longer than 35 n + 21 steps, whatever fails and however it is scheduled. */
  lemma RunsTerminate(c: Config, tr: seq<State>, steps: seq<Step>)
    requires c.Valid() && IsRun(c, tr, steps)
    ensures |steps| <= 35 * c.Size() + 21
  {
    MeasureFalls(c, tr, steps, |steps|);
    RunCounts(c, tr, steps, |steps|);
    MeasureBounds(c, tr[|steps|]);
  }

  /** A run that cannot go on has ended: the call has returned and every child is settled. */
  lemma StuckRunHasReturned(c: Config, tr: seq<State>, steps: seq<Step>)
    requires c.Valid() && IsRun(c, tr, steps)
    requires !CanMoveOn(c, tr[|steps|])
    ensures Quiet(tr[|steps|])
  {
    RunInv(c, tr, steps, |steps|);
    if !Quiet(tr[|steps|]) {
      NoDeadlock(c, tr[|steps|]);
    }
  }

  // ----- the outcome of a successful launch -----

  /** The table process k starts its program with: the descriptors that survive exec, the
      standard ones replaced by the neighbouring pipe ends. */
  function ExpectedTab(c: Config, k: nat): Table {
    map f | f in c.base && !Wired(c, k, f).cloexec :: Wired(c, k, f)
  }

  ghost predicate SameTable(a: Table, b: Table) {
    && (forall f: int | f in a :: f in b && b[f] == a[f])
    && (forall f: int | f in b :: f in a)
  }

  lemma ExecedIsExpected(c: Config, k: nat, tab: Table)
    requires c.Valid() && k < c.Size() && ExecedTab(c, k, tab) && !c.redirects[k]
    ensures SameTable(tab, ExpectedTab(c, k))
  {
  }

  /** When the call has succeeded, every child is running or dead, and a running one without
      redirects has exactly the expected table. */
  lemma SuccessWiring(c: Config, tr: seq<State>, steps: seq<Step>, j: nat, k: nat)
    requires c.Valid() && IsRun(c, tr, steps) && j < |tr| && tr[j].p.pc == Done && k < c.Size()
    ensures |tr[j].cs| == c.Size() && tr[j].cs[k].Final()
    ensures tr[j].cs[k].pc == Execed && !c.redirects[k] ==> SameTable(tr[j].cs[k].tab, ExpectedTab(c, k))
  {
    RunInv(c, tr, steps, j);
    var ch := tr[j].cs[k];
    assert ChildInv(c, k, ch);
    if ch.pc == Execed && !c.redirects[k] {
      ExecedIsExpected(c, k, ch.tab);
    }
  }

  /** The processes entitled to a pipe end once the launch is over. */
  predicate Entitled(e: End, k: nat) {
    match e
    case DataR(i) => k == i + 1
    case DataW(i) => k == i
    case _ => false
  }

  lemma DoneTable(c: Config, p: Parent, n: nat)
    requires ParentInv(c, p, n) && p.pc == Done
    ensures SameTable(p.tab, c.base)
  {
  }

  lemma ExecedHolding(c: Config, k: nat, tab: Table, e: End)
    requires c.Valid() && k < c.Size() && ExecedTab(c, k, tab) && Holds(tab, e) && !e.Base? && !e.File?
    ensures Entitled(e, k)
  {
    var f :| f in tab && tab[f].end == e;
  }

  lemma DoneChild(c: Config, s: State, k: nat)
    requires Inv(c, s) && s.p.pc == Done && k < |s.cs|
    ensures k < c.Size() && (ExecedTab(c, k, s.cs[k].tab) || s.cs[k].tab == map[])
  {
    assert ChildInv(c, k, s.cs[k]);
  }

  /** When the call has succeeded no process, the shell included, holds an end of a data pipe
      that belongs to another one, and the control and error pipes are gone altogether. */
  lemma SuccessExclusive(c: Config, tr: seq<State>, steps: seq<Step>, j: nat, e: End)
    requires c.Valid() && IsRun(c, tr, steps) && j < |tr| && tr[j].p.pc == Done
    requires !e.Base? && !e.File?
    ensures !Holds(tr[j].p.tab, e)
    ensures forall k :: 0 <= k < |tr[j].cs| && Holds(tr[j].cs[k].tab, e) ==> Entitled(e, k)
  {
    RunInv(c, tr, steps, j);
    var s := tr[j];
    DoneTable(c, s.p, |s.cs|);
    forall k: nat | k < |s.cs| && Holds(s.cs[k].tab, e) ensures Entitled(e, k) {
      DoneChild(c, s, k);
      ExecedHolding(c, k, s.cs[k].tab, e);
    }
  }

  /** A successful call leaves the shell's descriptor table as it found it. */
  lemma TableConserved(c: Config, tr: seq<State>, steps: seq<Step>, j: nat)
    requires c.Valid() && IsRun(c, tr, steps) && j < |tr| && tr[j].p.pc == Done
    ensures SameTable(tr[j].p.tab, c.base)
  {
    RunInv(c, tr, steps, j);
    DoneTable(c, tr[j].p, |tr[j].cs|);
  }

  /** The descriptors the parent closes at its current program point, with what it means to close. */
  function Closing(c: Config, p: Parent): seq<(int, End)> {
    match p.pc
    case DropPrev => [(p.prevfd, DataR(if p.i > 0 then p.i - 1 else 0))]
    case DropOut => if c.IsLast(p.i) then [] else [(p.pipe1, DataW(p.i))]
    case DropErrW => [(p.err1, ErrW(p.i))]
    case DropErrR => [(p.err0, ErrR(p.i))]
    case DropCtl => [(p.ctl0, CtlR), (p.ctl1, CtlW)]
    case DropPipe => [(p.pipe0, DataR(p.i)), (p.pipe1, DataW(p.i))]
    case DropFirst => [(p.first, ErrR(0))]
    case DropErr => [(p.err0, ErrR(p.i)), (p.err1, ErrW(p.i))]
    case _ => []
  }

  lemma ClosingExact(c: Config, p: Parent, n: nat, m: nat)
    requires ParentInv(c, p, n) && m < |Closing(c, p)|
    ensures var (fd, e) := Closing(c, p)[m]; fd in p.tab ==> fd > 2 && p.tab[fd].end == e
  {
  }

  lemma StaleClose(c: Config, p: Parent, n: nat, m: nat)
    requires ParentInv(c, p, n) && m < |Closing(c, p)| && (p.pc == DropPipe || p.pc == DropErr)
    ensures Closing(c, p)[m].0 !in p.tab
  {
  }

  /** On the way to success each close either closes the end it is meant for or, when the
      variable is stale, names no open descriptor: it never hits a live one by accident. */
  lemma ClosesAreExact(c: Config, tr: seq<State>, steps: seq<Step>, j: nat, m: nat)
    requires c.Valid() && IsRun(c, tr, steps) && j < |tr| && m < |Closing(c, tr[j].p)|
    ensures var (fd, e) := Closing(c, tr[j].p)[m];
            fd in tr[j].p.tab ==> fd > 2 && tr[j].p.tab[fd].end == e
    ensures tr[j].p.pc == DropPipe || tr[j].p.pc == DropErr ==> Closing(c, tr[j].p)[m].0 !in tr[j].p.tab
  {
    RunInv(c, tr, steps, j);
    var p, n := tr[j].p, |tr[j].cs|;
    ClosingExact(c, p, n, m);
    if p.pc == DropPipe || p.pc == DropErr {
      StaleClose(c, p, n, m);
    }
  }

  /** Even when the launch fails, the shell keeps every descriptor it had. */
  lemma BaseSurvives(c: Config, tr: seq<State>, steps: seq<Step>, j: nat, f: int)
    requires c.Valid() && IsRun(c, tr, steps) && j < |tr| && f in c.base
    ensures f in tr[j].p.tab && tr[j].p.tab[f] == c.base[f]
  {
    RunInv(c, tr, steps, j);
  }

  // ----- an undisturbed launch succeeds -----

  /** No system call fails, and no process ends before it has run its program. */
  predicate Undisturbed(s: State, st: Step) {
    Succeeds(st) && (st.Die? ==> st.k < |s.cs| && s.cs[st.k].pc == Execed)
  }

  predicate Unharmed(ch: Child) { Rank(ch.pc) >= 5 || ch.Ran() }

  /** Nothing has failed so far. */
  predicate Smooth(s: State) {
    !Failing(s.p.pc) && forall k :: 0 <= k < |s.cs| ==> Unharmed(s.cs[k])
  }

  lemma UnharmedChild(c: Config, k: nat, ch: Child, ok: bool, files: map<int, nat>)
    requires c.Valid() && k < c.Size() && TabAfter(c, k, ch) && Unharmed(ch) && (ok || ch.pc == JoinGroup)
    ensures Unharmed(ChildNext(c, k, ch, ok, files))
  {
  }

  /** An unharmed child has written no error. */
  lemma UnharmedRead(c: Config, s: State, fd: int, k: nat)
    requires Inv(c, s) && k < |s.cs| && Unharmed(s.cs[k]) && At(s.p.tab, fd, ErrR(k))
    ensures s.cs[k].wrote == 0 && (ReadOn(s, fd, 0) == Eof || ReadOn(s, fd, 0) == Blocked)
  {
    assert ChildInv(c, k, s.cs[k]);
    ReadTells(c, s, fd, k);
  }

  lemma SmoothRead(c: Config, s: State)
    requires Inv(c, s) && Smooth(s)
    ensures s.p.pc != ReadErrText && s.p.pc != ReadFirstText
    ensures s.p.pc == ReadErr || s.p.pc == ReadFirst ==> ParentRead(s) == Eof || ParentRead(s) == Blocked
  {
    if s.p.pc == ReadErr || s.p.pc == ReadErrText {
      UnharmedRead(c, s, s.p.err0, s.p.i);
    } else if s.p.pc == ReadFirst || s.p.pc == ReadFirstText {
      UnharmedRead(c, s, s.p.first, 0);
    }
  }

  lemma SmoothParent(s: State, c: Config, st: Step)
    requires st.ParentStep? && st.ok && !Failing(s.p.pc) && Enabled(c, s, st)
    requires s.p.pc != ReadErrText && s.p.pc != ReadFirstText
    requires s.p.pc == ReadErr || s.p.pc == ReadFirst ==> ParentRead(s) == Eof
    ensures !Failing(Next(c, s, st).p.pc)
    ensures forall k :: 0 <= k < |s.cs| ==> Next(c, s, st).cs[k].pc == s.cs[k].pc
    ensures forall k :: |s.cs| <= k < |Next(c, s, st).cs| ==> Next(c, s, st).cs[k].pc == Link
  {
  }

  lemma SmoothChild(c: Config, s: State, k: nat, r: Child)
    requires Smooth(s) && k < |s.cs| && Unharmed(r)
    ensures Smooth(s.(cs := s.cs[k := r]))
  {
  }

  lemma SmoothParentStep(c: Config, s: State, st: Step)
    requires Inv(c, s) && Smooth(s) && Enabled(c, s, st) && st.ParentStep? && st.ok
    ensures Smooth(Next(c, s, st))
  {
    SmoothRead(c, s);
    SmoothParent(s, c, st);
  }

  lemma SmoothStays(c: Config, s: State, st: Step)
    requires Inv(c, s) && Smooth(s) && Enabled(c, s, st) && Undisturbed(s, st)
    ensures Smooth(Next(c, s, st))
  {
    match st
    case ParentStep(_, _, _) =>
      SmoothParentStep(c, s, st);
    case ChildStep(k, ok, files) =>
      assert ChildInv(c, k, s.cs[k]);
      UnharmedChild(c, k, s.cs[k], Answer(s, k, ok), files);
      SmoothChild(c, s, k, ChildNext(c, k, s.cs[k], Answer(s, k, ok), files));
    case Die(k) =>
      SmoothChild(c, s, k, Killed(s.cs[k]));
    case Reap(k) =>
      SmoothChild(c, s, k, s.cs[k].(reaped := true));
    case Vanish =>
  }

  ghost predicate AllUndisturbed(tr: seq<State>, steps: seq<Step>)
    requires |tr| == |steps| + 1
  {
    forall i :: 0 <= i < |steps| ==> Undisturbed(tr[i], steps[i])
  }

  lemma {:induction false} SmoothRun(c: Config, tr: seq<State>, steps: seq<Step>, j: nat)
    requires c.Valid() && IsRun(c, tr, steps) && j < |tr|
    requires AllUndisturbed(tr, steps)
    ensures Smooth(tr[j])
  {
    if j > 0 {
      SmoothRun(c, tr, steps, j - 1);
      RunInv(c, tr, steps, j - 1);
      SmoothStays(c, tr[j - 1], steps[j - 1]);
    }
  }

  lemma QuietAndSmooth(c: Config, s: State)
    requires Quiet(s) && Smooth(s) && Counts(c, s.p, |s.cs|)
    ensures s.p.pc == Done && |s.cs| == c.Size() && forall k :: 0 <= k < |s.cs| ==> s.cs[k].Ran()
  {
  }

  /** A maximal run in which no system call fails and no process dies early ends with the call
      returning success, and every process is running its program or has finished it. */
  lemma UndisturbedLaunchSucceeds(c: Config, tr: seq<State>, steps: seq<Step>)
    requires c.Valid() && IsRun(c, tr, steps) && AllUndisturbed(tr, steps)
    requires !CanMoveOn(c, tr[|steps|])
    ensures var s := tr[|steps|];
            s.p.pc == Done && |s.cs| == c.Size() && forall k :: 0 <= k < |s.cs| ==> s.cs[k].Ran()
  {
    SmoothRun(c, tr, steps, |steps|);
    StuckRunHasReturned(c, tr, steps);
    RunCounts(c, tr, steps, |steps|);
    QuietAndSmooth(c, tr[|steps|]);
  }

  /** An undisturbed step exists wherever nothing has failed and something is left to do. */
  lemma SmoothStep(c: Config, s: State) returns (st: Step)
    requires Inv(c, s) && Smooth(s) && CanMoveOn(c, s)
    ensures Enabled(c, s, st) && Undisturbed(s, st) && !st.Die?
  {
    st :| Enabled(c, s, st) && Internal(s, st) && Succeeds(st);
    NobodySignalled(c, s);
  }

  lemma NobodySignalled(c: Config, s: State)
    requires Inv(c, s) && Smooth(s)
    ensures forall k :: 0 <= k < |s.cs| ==> !s.cs[k].signalled
  {
  }

  lemma RunLonger(c: Config, tr: seq<State>, steps: seq<Step>, st: Step)
    requires IsRun(c, tr, steps) && Enabled(c, tr[|steps|], st)
    ensures IsRun(c, tr + [Next(c, tr[|steps|], st)], steps + [st])
  {
  }

  predicate NobodyDies(steps: seq<Step>) {
    forall i :: 0 <= i < |steps| ==> !steps[i].Die?
  }

  lemma StaysRunning(c: Config, s: State, st: Step, k: nat)
    requires Enabled(c, s, st) && !st.Die? && k < |Next(c, s, st).cs|
    requires k < |s.cs| ==> s.cs[k].pc != Ended
    ensures Next(c, s, st).cs[k].pc != Ended
  {
  }

  lemma {:induction false} StillRunning(c: Config, tr: seq<State>, steps: seq<Step>, j: nat)
    requires IsRun(c, tr, steps) && j < |tr| && NobodyDies(steps)
    ensures forall k :: 0 <= k < |tr[j].cs| ==> tr[j].cs[k].pc != Ended
  {
    if j > 0 {
      StillRunning(c, tr, steps, j - 1);
      forall k: nat | k < |tr[j].cs| ensures tr[j].cs[k].pc != Ended {
        StaysRunning(c, tr[j - 1], steps[j - 1], k);
      }
    }
  }

  lemma {:induction false} CompleteRun(c: Config, tr: seq<State>, steps: seq<Step>)
    returns (tr': seq<State>, steps': seq<Step>)
    requires c.Valid() && IsRun(c, tr, steps) && AllUndisturbed(tr, steps) && NobodyDies(steps)
    ensures IsRun(c, tr', steps') && AllUndisturbed(tr', steps') && NobodyDies(steps')
    ensures !CanMoveOn(c, tr'[|steps'|])
    decreases 35 * c.Size() + 21 - |steps|
  {
    var s := tr[|steps|];
    if !CanMoveOn(c, s) {
      return tr, steps;
    }
    RunInv(c, tr, steps, |steps|);
    SmoothRun(c, tr, steps, |steps|);
    var st := SmoothStep(c, s);
    RunLonger(c, tr, steps, st);
    RunsTerminate(c, tr + [Next(c, s, st)], steps + [st]);
    tr', steps' := CompleteRun(c, tr + [Next(c, s, st)], steps + [st]);
  }

  /** Every job has a run in which its launch succeeds with all processes running. */
  lemma LaunchCanSucceed(c: Config) returns (tr: seq<State>, steps: seq<Step>)
    requires c.Valid()
    ensures IsRun(c, tr, steps)
    ensures var s := tr[|steps|];
            s.p.pc == Done && |s.cs| == c.Size() && forall k :: 0 <= k < |s.cs| ==> s.cs[k].pc == Execed
  {
    tr, steps := CompleteRun(c, [Init(c)], []);
    UndisturbedLaunchSucceeds(c, tr, steps);
    StillRunning(c, tr, steps, |steps|);
  }
}
