/** What a child's failing or succeeding start-up calls lead to: a failed start is reported, and
    success means that every process has made all its calls. */
module LaunchReports {
  import opened Launch
  import opened LaunchInv
  import opened LaunchProofs
  import opened LaunchTheorems

  // ----- a failed start is reported -----

  /** Nothing kills process k before state j. */
  predicate NotKilled(steps: seq<Step>, j: nat, k: nat) {
    forall i :: 0 <= i < j <= |steps| ==> steps[i] != Die(k)
  }

  /** The child ended only behind both writes to its error pipe. */
  predicate Reported(ch: Child) { ch.pc == Exited ==> ch.wrote == 2 }

  lemma ReportedStep(c: Config, s: State, st: Step, k: nat)
    requires Enabled(c, s, st) && st != Die(k) && k < |Next(c, s, st).cs|
    requires k < |s.cs| ==> Flags(s.cs[k]) && Reported(s.cs[k])
    ensures Reported(Next(c, s, st).cs[k])
  {
  }

  /** A process that nobody has killed and that has ended before running its program has written
      its error and the message. */
  lemma {:induction false} FailedStartReports(c: Config, tr: seq<State>, steps: seq<Step>, j: nat, k: nat)
    requires c.Valid() && IsRun(c, tr, steps) && j < |tr| && k < |tr[j].cs| && NotKilled(steps, j, k)
    ensures tr[j].cs[k].pc == Exited ==> tr[j].cs[k].wrote == 2
  {
    if j > 0 {
      if k < |tr[j - 1].cs| {
        FailedStartReports(c, tr, steps, j - 1, k);
        RunFlags(c, tr, steps, j - 1);
      }
      ReportedNext(c, tr, steps, j - 1, k);
    }
  }

  lemma ReportedNext(c: Config, tr: seq<State>, steps: seq<Step>, i: nat, k: nat)
    requires IsRun(c, tr, steps) && i < |steps| && steps[i] != Die(k) && k < |tr[i + 1].cs|
    requires k < |tr[i].cs| ==> Flags(tr[i].cs[k]) && Reported(tr[i].cs[k])
    ensures Reported(tr[i + 1].cs[k])
  {
    ReportedStep(c, tr[i], steps[i], k);
  }

  /** When the call has succeeded, every process that nobody has killed runs its program or has
      finished it. */
  lemma SuccessMeansRunning(c: Config, tr: seq<State>, steps: seq<Step>, j: nat, k: nat)
    requires c.Valid() && IsRun(c, tr, steps) && j < |tr| && tr[j].p.pc == Done
    requires k < c.Size() && NotKilled(steps, j, k)
    ensures k < |tr[j].cs| && tr[j].cs[k].Ran()
  {
    RunInv(c, tr, steps, j);
    DoneChecked(c, tr[j], k);
    FailedStartReports(c, tr, steps, j, k);
  }

  lemma DoneChecked(c: Config, s: State, k: nat)
    requires Inv(c, s) && s.p.pc == Done && k < c.Size()
    ensures k < |s.cs| && s.cs[k].Final() && s.cs[k].wrote == 0
  {
  }

  /** A start-up call that can fail. */
  predicate Fallible(c: Config, ch: Child, k: nat) {
    ch.pc == Link || ch.pc == Terminal || ch.pc == Exec || (ch.pc == Redirect && k < c.Size() && c.redirects[k])
  }

  /** In this step a start-up call of process k fails. */
  predicate FailsAt(c: Config, s: State, st: Step, k: nat) {
    k < |s.cs| && st.ChildStep? && st.k == k && !st.ok && Fallible(c, s.cs[k], k)
  }

  /** The process is on its way out, or out. */
  predicate Leaving(ch: Child) { ch.pc in {WriteErrno, WriteMessage, Quit, Exited} }

  lemma FailLeaves(c: Config, s: State, st: Step, k: nat)
    requires Enabled(c, s, st) && FailsAt(c, s, st, k)
    ensures k < |Next(c, s, st).cs| && Leaving(Next(c, s, st).cs[k])
  {
  }

  lemma LeavingStays(c: Config, s: State, st: Step, k: nat)
    requires Enabled(c, s, st) && k < |s.cs| && Leaving(s.cs[k])
    ensures k < |Next(c, s, st).cs| && Leaving(Next(c, s, st).cs[k])
  {
  }

  lemma {:induction false} LeavingFrom(c: Config, tr: seq<State>, steps: seq<Step>, i: nat, j: nat, k: nat)
    requires IsRun(c, tr, steps) && i < j < |tr| && FailsAt(c, tr[i], steps[i], k)
    ensures k < |tr[j].cs| && Leaving(tr[j].cs[k])
  {
    if j == i + 1 {
      FailLeaves(c, tr[i], steps[i], k);
    } else {
      LeavingFrom(c, tr, steps, i, j - 1, k);
      LeavingStays(c, tr[j - 1], steps[j - 1], k);
    }
  }

  /** When a start-up call of a process fails, that process never runs its program, and unless it
      is killed before it has reported the error, the launch does not succeed. */
  lemma FailedCallFailsLaunch(c: Config, tr: seq<State>, steps: seq<Step>, i: nat, j: nat, k: nat)
    requires c.Valid() && IsRun(c, tr, steps) && i < j < |tr| && FailsAt(c, tr[i], steps[i], k)
    ensures k < |tr[j].cs| && !tr[j].cs[k].Ran()
    ensures NotKilled(steps, j, k) ==> tr[j].p.pc != Done
  {
    LeavingFrom(c, tr, steps, i, j, k);
    if tr[j].p.pc == Done && NotKilled(steps, j, k) {
      RunCounts(c, tr, steps, j);
      SuccessMeansRunning(c, tr, steps, j, k);
    }
  }

  /** `ls | nosuchcmd`: once the last process has exited over its failing exec, the leader never
      runs, however the run goes on. */
  lemma FailedStartStopsLeader(c: Config, tr: seq<State>, steps: seq<Step>, i: nat, j: nat, k: nat)
    requires c.Valid() && IsRun(c, tr, steps) && i <= j < |tr|
    requires k < |tr[i].cs| && tr[i].cs[k].pc == Exited && NotKilled(steps, i, k)
    ensures |tr[j].cs| > 0 ==> !tr[j].cs[0].Ran()
    ensures tr[j].p.pc != Done
  {
    FailedStartReports(c, tr, steps, i, k);
    assert Lost(tr[i]);
    LostStaysInRun(c, tr, steps, i, j);
    LostLeaderNeverExecs(c, tr, steps, i, j);
    RunInv(c, tr, steps, j);
    LostNotDone(c, tr[j]);
  }

  lemma LostNotDone(c: Config, s: State)
    requires Inv(c, s) && Lost(s)
    ensures s.p.pc != Done
  {
    if s.p.pc == Done {
      var k :| 0 <= k < |s.cs| && s.cs[k].wrote > 0;
      DoneChecked(c, s, k);
    }
  }

  // ----- the terminal -----

  /** The leader's call that takes the terminal succeeds in this step. */
  predicate TakesTerminal(s: State, st: Step) {
    |s.cs| > 0 && st.ChildStep? && st.k == 0 && st.ok && s.cs[0].pc == Terminal
  }

  /** Behind the point where the leader of a foreground job takes the terminal. */
  predicate BehindTerminal(ch: Child) { ch.Ran() || ch.pc in {CloseCtlW, ReadCtl, CloseCtlR, Exec} }

  lemma TerminalStep(c: Config, s: State, st: Step)
    requires Enabled(c, s, st) && c.fg && |Next(c, s, st).cs| > 0 && BehindTerminal(Next(c, s, st).cs[0])
    ensures |s.cs| > 0 && (BehindTerminal(s.cs[0]) || TakesTerminal(s, st))
  {
  }

  /** The leader of a foreground job runs its program only after it has taken the terminal. */
  lemma {:induction false} LeaderTookTerminal(c: Config, tr: seq<State>, steps: seq<Step>, j: nat) returns (i: nat)
    requires c.fg && IsRun(c, tr, steps) && j < |tr| && |tr[j].cs| > 0 && BehindTerminal(tr[j].cs[0])
    ensures i < j && TakesTerminal(tr[i], steps[i])
  {
    TerminalStep(c, tr[j - 1], steps[j - 1]);
    i := j - 1;
    if !TakesTerminal(tr[j - 1], steps[j - 1]) {
      i := LeaderTookTerminal(c, tr, steps, j - 1);
    }
  }

  lemma NoTerminalStep(c: Config, s: State, st: Step, k: nat)
    requires Enabled(c, s, st) && k < |Next(c, s, st).cs| && (k > 0 || !c.fg)
    requires k < |s.cs| ==> s.cs[k].pc != Terminal
    ensures Next(c, s, st).cs[k].pc != Terminal
  {
  }

  /** Nobody else ever takes it. */
  lemma {:induction false} OthersLeaveTerminal(c: Config, tr: seq<State>, steps: seq<Step>, j: nat, k: nat)
    requires IsRun(c, tr, steps) && j < |tr| && k < |tr[j].cs| && (k > 0 || !c.fg)
    ensures tr[j].cs[k].pc != Terminal
  {
    if j > 0 {
      if k < |tr[j - 1].cs| {
        OthersLeaveTerminal(c, tr, steps, j - 1, k);
      }
      NoTerminalStep(c, tr[j - 1], steps[j - 1], k);
    }
  }

  // ----- redirects -----

  /** In this step the redirects of process k put these files in place. */
  predicate Redirects(s: State, st: Step, k: nat, files: map<int, nat>) {
    k < |s.cs| && st.ChildStep? && st.k == k && st.files == files && s.cs[k].pc == Redirect
  }

  /** Behind its redirects and not yet in its program. */
  predicate Between(ch: Child) { 5 <= Rank(ch.pc) <= 12 }

  /** The standard descriptors are the wiring with the redirects over it. */
  ghost predicate StdIs(c: Config, k: nat, files: map<int, nat>, tab: Table)
    requires c.Valid() && k < c.Size()
  {
    forall f | 0 <= f <= 2 :: f in tab && tab[f] == if f in files then Desc(File(files[f]), false) else Wired(c, k, f)
  }

  ghost predicate Redirected(c: Config, k: nat, files: map<int, nat>, ch: Child)
    requires c.Valid() && k < c.Size()
  {
    && (forall f | f in files :: 0 <= f <= 2)
    && (Between(ch) ==> StdIs(c, k, files, ch.tab))
    && (ch.pc == Execed ==> SameTable(ch.tab, ExpectedTab(c, k) + FileTab(files)))
  }

  lemma RedirectStep(c: Config, k: nat, ch: Child, ok: bool, files: map<int, nat>)
    requires ChildReady(c, k, ch, files) && ch.pc == Redirect
    ensures Redirected(c, k, files, ChildNext(c, k, ch, ok, files))
  {
  }

  lemma CloseKeepsStd(c: Config, k: nat, files: map<int, nat>, tab: Table, fd: int)
    requires c.Valid() && k < c.Size() && StdIs(c, k, files, tab) && fd !in c.base
    ensures StdIs(c, k, files, CloseTab(fd, tab))
  {
  }

  lemma ExecIsExpected(c: Config, k: nat, files: map<int, nat>, pc: ChildPc, v: Vars, tab: Table)
    requires c.Valid() && k < c.Size() && LiveChild(c, k, pc, v, tab) && pc == Exec
    requires (forall f | f in files :: 0 <= f <= 2) && StdIs(c, k, files, tab)
    ensures SameTable(ExecTab(tab), ExpectedTab(c, k) + FileTab(files))
  {
  }

  predicate Closing(pc: ChildPc) { pc in {ClosePrev, CloseOut, CloseCtlW, CloseCtlR} }

  lemma OwnVars(c: Config, k: nat, ch: Child)
    requires c.Valid() && k < c.Size() && LiveChild(c, k, ch.pc, ch.v, ch.tab)
    ensures ch.v.prevfd !in c.base && ch.v.out !in c.base && ch.v.ctl0 !in c.base && ch.v.ctl1 !in c.base
  {
  }

  lemma CloseKeepsRedirects(c: Config, k: nat, files: map<int, nat>, ch: Child, ok: bool, others: map<int, nat>)
    requires c.Valid() && k < c.Size() && Closing(ch.pc) && StdIs(c, k, files, ch.tab)
    requires ch.v.prevfd !in c.base && ch.v.out !in c.base && ch.v.ctl0 !in c.base && ch.v.ctl1 !in c.base
    ensures StdIs(c, k, files, ChildNext(c, k, ch, ok, others).tab)
  {
    CloseKeepsStd(c, k, files, ch.tab, ch.v.prevfd);
    CloseKeepsStd(c, k, files, ch.tab, ch.v.out);
    CloseKeepsStd(c, k, files, ch.tab, ch.v.ctl1);
    CloseKeepsStd(c, k, files, ch.tab, ch.v.ctl0);
  }

  lemma RedirectedClose(c: Config, k: nat, files: map<int, nat>, ch: Child, ok: bool, others: map<int, nat>)
    requires ChildReady(c, k, ch, others) && Redirected(c, k, files, ch) && Closing(ch.pc)
    ensures Redirected(c, k, files, ChildNext(c, k, ch, ok, others))
  {
    OwnVars(c, k, ch);
    CloseKeepsRedirects(c, k, files, ch, ok, others);
  }

  lemma RedirectedExec(c: Config, k: nat, files: map<int, nat>, ch: Child, ok: bool, others: map<int, nat>)
    requires ChildReady(c, k, ch, others) && Redirected(c, k, files, ch) && ch.pc == Exec
    ensures Redirected(c, k, files, ChildNext(c, k, ch, ok, others))
  {
    ExecIsExpected(c, k, files, ch.pc, ch.v, ch.tab);
  }

  lemma RedirectedIdle(c: Config, k: nat, files: map<int, nat>, ch: Child, ok: bool, others: map<int, nat>)
    requires c.Valid() && k < c.Size() && Redirected(c, k, files, ch)
    requires ch.pc in {JoinGroup, Terminal, ReadCtl, Execed}
    ensures Redirected(c, k, files, ChildNext(c, k, ch, ok, others))
  {
    var r := ChildNext(c, k, ch, ok, others);
    assert r.tab == ch.tab && (r.pc == Execed ==> ch.pc == Execed);
  }

  lemma RedirectedStep(c: Config, k: nat, files: map<int, nat>, ch: Child, ok: bool, others: map<int, nat>)
    requires ChildReady(c, k, ch, others) && Redirected(c, k, files, ch) && (Between(ch) || ch.pc == Execed)
    ensures Redirected(c, k, files, ChildNext(c, k, ch, ok, others))
  {
    if Closing(ch.pc) {
      RedirectedClose(c, k, files, ch, ok, others);
    } else if ch.pc == Exec {
      RedirectedExec(c, k, files, ch, ok, others);
    } else {
      RedirectedIdle(c, k, files, ch, ok, others);
    }
  }

  /** Process k has been through its redirects and has not failed since. */
  predicate Wiredup(ch: Child) { Between(ch) || ch.pc == Execed }

  /** A process that is there and stays keeps its redirects. */
  lemma RedirectedNext(c: Config, s: State, st: Step, k: nat, files: map<int, nat>)
    requires Inv(c, s) && Enabled(c, s, st) && k < |s.cs| && Wiredup(s.cs[k]) && Redirected(c, k, files, s.cs[k])
    ensures k < |Next(c, s, st).cs| && Redirected(c, k, files, Next(c, s, st).cs[k])
  {
    if st.ChildStep? && st.k == k {
      RedirectedOwn(c, s, k, files, st.ok, st.files);
    } else {
      OthersKeep(c, s, st, k);
      SameRedirects(c, k, files, s.cs[k], Next(c, s, st).cs[k]);
    }
  }

  lemma SameRedirects(c: Config, k: nat, files: map<int, nat>, ch: Child, r: Child)
    requires c.Valid() && k < c.Size() && Redirected(c, k, files, ch)
    requires (r.pc == ch.pc && r.tab == ch.tab) || r.Over()
    ensures Redirected(c, k, files, r)
  {
  }

  lemma RedirectedOwn(c: Config, s: State, k: nat, files: map<int, nat>, ok: bool, others: map<int, nat>)
    requires Inv(c, s) && ChildEnabled(c, s, k, others)
    requires Wiredup(s.cs[k]) && Redirected(c, k, files, s.cs[k])
    ensures Redirected(c, k, files, Next(c, s, ChildStep(k, ok, others)).cs[k])
  {
    assert ChildInv(c, k, s.cs[k]);
    RedirectedStep(c, k, files, s.cs[k], Answer(s, k, ok), others);
  }

  lemma WiredupBefore(c: Config, s: State, st: Step, k: nat)
    requires Enabled(c, s, st) && k < |Next(c, s, st).cs| && Wiredup(Next(c, s, st).cs[k])
    ensures k < |s.cs|
    ensures Wiredup(s.cs[k]) || (st.ChildStep? && Redirects(s, st, k, st.files))
  {
  }

  lemma OthersKeep(c: Config, s: State, st: Step, k: nat)
    requires Enabled(c, s, st) && k < |s.cs| && !(st.ChildStep? && st.k == k)
    ensures k < |Next(c, s, st).cs|
    ensures var r := Next(c, s, st).cs[k]; (r.pc == s.cs[k].pc && r.tab == s.cs[k].tab) || r.Over()
  {
  }

  lemma RedirectNow(c: Config, s: State, st: Step, k: nat)
    requires Inv(c, s) && Enabled(c, s, st) && st.ChildStep? && Redirects(s, st, k, st.files) && k < c.Size()
    requires Wiredup(Next(c, s, st).cs[k])
    ensures Redirected(c, k, st.files, Next(c, s, st).cs[k])
  {
    assert ChildInv(c, k, s.cs[k]);
    RedirectStep(c, k, s.cs[k], st.ok, st.files);
  }

  /** A process that runs its program has the files of its redirects in place, over the pipes:
      redirects come after the linking of the pipes. */
  lemma {:induction false} RedirectedWiring(c: Config, tr: seq<State>, steps: seq<Step>, j: nat, k: nat)
    returns (i: nat, files: map<int, nat>)
    requires c.Valid() && IsRun(c, tr, steps) && j < |tr| && k < |tr[j].cs| && Wiredup(tr[j].cs[k])
    ensures i < j && Redirects(tr[i], steps[i], k, files) && k < c.Size()
    ensures tr[j].cs[k].pc == Execed ==> SameTable(tr[j].cs[k].tab, ExpectedTab(c, k) + FileTab(files))
    ensures Redirected(c, k, files, tr[j].cs[k])
  {
    i, files := j - 1, map[];
    RedirectedBefore(c, tr, steps, i, k);
    if Wiredup(tr[i].cs[k]) {
      i, files := RedirectedWiring(c, tr, steps, j - 1, k);
      RedirectedLater(c, tr, steps, j - 1, k, files);
    } else {
      files := steps[i].files;
      RedirectHere(c, tr, steps, i, k);
    }
  }

  lemma RedirectedBefore(c: Config, tr: seq<State>, steps: seq<Step>, i: nat, k: nat)
    requires c.Valid() && IsRun(c, tr, steps) && i < |steps| && k < |tr[i + 1].cs| && Wiredup(tr[i + 1].cs[k])
    ensures k < |tr[i].cs| && k < c.Size()
    ensures Wiredup(tr[i].cs[k]) || (steps[i].ChildStep? && Redirects(tr[i], steps[i], k, steps[i].files))
  {
    RunCounts(c, tr, steps, i);
    WiredupBefore(c, tr[i], steps[i], k);
  }

  lemma RedirectedLater(c: Config, tr: seq<State>, steps: seq<Step>, i: nat, k: nat, files: map<int, nat>)
    requires c.Valid() && IsRun(c, tr, steps) && i < |steps| && k < |tr[i].cs| && k < c.Size()
    requires Wiredup(tr[i].cs[k]) && Redirected(c, k, files, tr[i].cs[k])
    ensures k < |tr[i + 1].cs| && Redirected(c, k, files, tr[i + 1].cs[k])
  {
    RunInv(c, tr, steps, i);
    RedirectedNext(c, tr[i], steps[i], k, files);
  }

  lemma RedirectHere(c: Config, tr: seq<State>, steps: seq<Step>, i: nat, k: nat)
    requires c.Valid() && IsRun(c, tr, steps) && i < |steps| && k < |tr[i + 1].cs| && Wiredup(tr[i + 1].cs[k])
    requires k < c.Size() && steps[i].ChildStep? && Redirects(tr[i], steps[i], k, steps[i].files)
    ensures Redirected(c, k, steps[i].files, tr[i + 1].cs[k])
  {
    RunInv(c, tr, steps, i);
    RedirectNow(c, tr[i], steps[i], k);
  }

  // ----- what a child has closed before it runs its program -----

  /** The copies of the pipe ends that the child's own closes are for are gone. */
  predicate HasClosed(c: Config, k: nat, ch: Child) {
    && (k > 0 && 5 <= Rank(ch.pc) <= 11 ==> ch.v.prevfd !in ch.tab)
    && (!c.IsLast(k) && 5 <= Rank(ch.pc) <= 10 ==> ch.v.out !in ch.tab)
    && (k == 0 && 5 <= Rank(ch.pc) <= 7 ==> ch.v.ctl1 !in ch.tab)
    && (Rank(ch.pc) == 5 ==> ch.v.ctl0 !in ch.tab)
  }

  lemma ClosesChild(c: Config, k: nat, ch: Child, ok: bool, files: map<int, nat>)
    requires ChildReady(c, k, ch, files) && HasClosed(c, k, ch)
    ensures HasClosed(c, k, ChildNext(c, k, ch, ok, files))
  {
    if Closing(ch.pc) {
      ClosesOne(c, k, ch, ok, files);
    } else {
      ClosesNone(c, k, ch, ok, files);
    }
  }

  lemma ClosesIdle(c: Config, k: nat, ch: Child, ok: bool, files: map<int, nat>)
    requires ch.pc in {JoinGroup, Terminal, ReadCtl} && HasClosed(c, k, ch)
    ensures HasClosed(c, k, ChildNext(c, k, ch, ok, files))
  {
    var r := ChildNext(c, k, ch, ok, files);
    assert r.tab == ch.tab && r.v == ch.v;
    assert r.pc in {CloseCtlR, Terminal, CloseCtlW, ReadCtl, WriteErrno};
  }

  lemma ClosesNone(c: Config, k: nat, ch: Child, ok: bool, files: map<int, nat>)
    requires !Closing(ch.pc) && HasClosed(c, k, ch)
    ensures HasClosed(c, k, ChildNext(c, k, ch, ok, files))
  {
    if ch.pc in {JoinGroup, Terminal, ReadCtl} {
      ClosesIdle(c, k, ch, ok, files);
    } else {
      assert !(5 <= Rank(ChildNext(c, k, ch, ok, files).pc) <= 11);
    }
  }

  lemma ClosesOne(c: Config, k: nat, ch: Child, ok: bool, files: map<int, nat>)
    requires ChildReady(c, k, ch, files) && HasClosed(c, k, ch) && Closing(ch.pc)
    ensures HasClosed(c, k, ChildNext(c, k, ch, ok, files))
  {
  }

  lemma ClosesOwn(c: Config, s: State, k: nat, ok: bool, files: map<int, nat>)
    requires Inv(c, s) && ChildEnabled(c, s, k, files) && HasClosed(c, k, s.cs[k])
    ensures HasClosed(c, k, ChildNext(c, k, s.cs[k], ok, files))
  {
    assert ChildInv(c, k, s.cs[k]);
    ClosesChild(c, k, s.cs[k], ok, files);
  }

  lemma SameClosed(c: Config, k: nat, ch: Child, r: Child)
    requires HasClosed(c, k, ch) && ((r.pc == ch.pc && r.tab == ch.tab && r.v == ch.v) || r.Over())
    ensures HasClosed(c, k, r)
  {
  }

  lemma ForkedIsNew(c: Config, s: State, st: Step)
    requires Enabled(c, s, st) && |Next(c, s, st).cs| > |s.cs|
    ensures |Next(c, s, st).cs| == |s.cs| + 1 && Next(c, s, st).cs[|s.cs|].pc == Link
  {
  }

  lemma ClosesStep(c: Config, s: State, st: Step, k: nat)
    requires Inv(c, s) && Enabled(c, s, st) && k < |Next(c, s, st).cs|
    requires k < |s.cs| ==> HasClosed(c, k, s.cs[k])
    ensures HasClosed(c, k, Next(c, s, st).cs[k])
  {
    if k >= |s.cs| {
      ForkedIsNew(c, s, st);
    } else if st.ChildStep? && st.k == k {
      ClosesOwn(c, s, k, Answer(s, k, st.ok), st.files);
    } else {
      OthersKeepVars(c, s, st, k);
      SameClosed(c, k, s.cs[k], Next(c, s, st).cs[k]);
    }
  }

  lemma OthersKeepVars(c: Config, s: State, st: Step, k: nat)
    requires Enabled(c, s, st) && k < |s.cs| && !(st.ChildStep? && st.k == k)
    ensures k < |Next(c, s, st).cs|
    ensures var r := Next(c, s, st).cs[k];
            (r.pc == s.cs[k].pc && r.tab == s.cs[k].tab && r.v == s.cs[k].v) || r.Over()
  {
  }

  lemma ClosesNext(c: Config, tr: seq<State>, steps: seq<Step>, i: nat, k: nat)
    requires c.Valid() && IsRun(c, tr, steps) && i < |steps| && k < |tr[i + 1].cs|
    requires k < |tr[i].cs| ==> HasClosed(c, k, tr[i].cs[k])
    ensures HasClosed(c, k, tr[i + 1].cs[k])
  {
    RunInv(c, tr, steps, i);
    ClosesStep(c, tr[i], steps[i], k);
  }

  /** Already before its exec, which would drop them too, a child has closed its copies of the pipe
      ends that it has linked and of those that control the start. */
  lemma {:induction false} ChildCloses(c: Config, tr: seq<State>, steps: seq<Step>, j: nat, k: nat)
    requires c.Valid() && IsRun(c, tr, steps) && j < |tr| && k < |tr[j].cs|
    ensures HasClosed(c, k, tr[j].cs[k])
  {
    if j > 0 {
      if k < |tr[j - 1].cs| {
        ChildCloses(c, tr, steps, j - 1, k);
      }
      ClosesNext(c, tr, steps, j - 1, k);
    }
  }

  // ----- the two reads of an error -----

  /** When the parent has read an error number, its second read gets the message if the child has
      written it, and waits for it while the child lives. */
  lemma MessageRead(c: Config, s: State)
    requires Inv(c, s) && (s.p.pc == ReadErrText || s.p.pc == ReadFirstText)
    ensures var k := if s.p.pc == ReadErrText then s.p.i else 0;
            && k < |s.cs| && s.cs[k].wrote >= 1
            && ParentRead(s) == if s.cs[k].wrote == 2 then Data else if Held(s, ErrW(k)) then Blocked else Eof
  {
    var k := if s.p.pc == ReadErrText then s.p.i else 0;
    assert ChildInv(c, k, s.cs[k]);
  }

  // ----- what can happen -----

  /** Any redirects, any failure, any death, any fork: the steps leave nothing out. */
  lemma AnythingCanHappen(c: Config, s: State, k: nat, ok: bool, files: map<int, nat>)
    requires k < |s.cs|
    ensures !s.cs[k].Over() ==> Enabled(c, s, Die(k))
    ensures s.cs[k].Over() && !s.cs[k].reaped ==> Enabled(c, s, Reap(k))
    ensures !s.cs[k].Final() && !s.cs[k].signalled && s.cs[k].pc != ReadCtl ==> Enabled(c, s, ChildStep(k, ok, map[]))
    ensures ((forall f | f in files :: f in {0, 1, 2}) && k < c.Size() && c.redirects[k]
             && s.cs[k].pc == Redirect && !s.cs[k].signalled) ==> Enabled(c, s, ChildStep(k, ok, files))
    ensures s.p.pc in {Start, MakePipe, MakeErr, Fork, SetGroup} ==> Enabled(c, s, ParentStep(false, 0, 0))
    ensures s.p.pc in {Start, MakePipe, MakeErr} ==>
              forall r: nat, w: nat :: r != w && r !in s.p.tab && w !in s.p.tab ==>
                Enabled(c, s, ParentStep(true, r, w))
  {
  }

  /** Every pipeline can be launched from a shell with its three standard descriptors. */
  lemma AnyJobValid(redirects: seq<bool>, fg: bool)
    requires |redirects| >= 1
    ensures var std := map[0 := Desc(Base(0), false), 1 := Desc(Base(1), false), 2 := Desc(Base(2), false)];
            Config(redirects, fg, std).Valid()
  {
  }
}
