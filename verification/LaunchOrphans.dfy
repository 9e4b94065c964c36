/** A failed launch that signals nobody: the leader has been reaped before the others are
    put into its group. */
module LaunchOrphans {
  import opened Launch
  import opened LaunchInv
  import opened LaunchProofs
  import opened LaunchTheorems

  /** The leader has failed to start and has been reaped before it was in its group, and
      nothing else has gone wrong. */
  ghost predicate Orphaned(c: Config, s: State) {
    && |s.cs| > 0 && s.cs[0].reaped && s.cs[0].wrote > 0
    && (forall k :: 0 <= k < |s.cs| ==> !s.cs[k].inGroup && !s.cs[k].signalled)
    && (forall k :: 1 <= k < |s.cs| ==> Unharmed(s.cs[k]) && s.cs[k].pc != Ended && !s.cs[k].reaped)
    && (Failing(s.p.pc) ==> |s.cs| == c.Size())
  }

  lemma OrphanedRead(c: Config, s: State)
    requires Inv(c, s) && Orphaned(c, s)
    ensures s.p.pc != ReadErrText
    ensures s.p.pc == ReadErr ==> ParentRead(s) == Eof || ParentRead(s) == Blocked
  {
    if s.p.pc == ReadErr || s.p.pc == ReadErrText {
      UnharmedRead(c, s, s.p.err0, s.p.i);
    }
  }

  lemma OrphanedMove(c: Config, p: Parent, n: nat, res: ReadResult, r: int, w: int)
    requires c.Valid() && Counts(c, p, n) && !Failing(p.pc)
    requires p.pc != ReadErrText && (p.pc == ReadErr ==> res == Eof)
    ensures Failing(ParentMove(c, p, res, true, r, w).pc) ==> n == c.Size() && p.pc != Fork
  {
  }

  /** Nobody is put into the group or signalled. */
  lemma OrphanedEffect(c: Config, s: State, ok: bool)
    requires Orphaned(c, s)
    ensures ParentEffect(s, ok) == if s.p.pc == Fork && ok then s.cs + [ForkedChild(s.p)] else s.cs
  {
    assert !GroupExists(s);
    assert s.p.pc == Kill ==> Signal(s.cs) == s.cs;
  }

  lemma OrphanedParent(c: Config, s: State, st: Step)
    requires Inv(c, s) && Orphaned(c, s) && Enabled(c, s, st) && st.ParentStep? && st.ok
    ensures Orphaned(c, Next(c, s, st))
  {
    OrphanedRead(c, s);
    OrphanedEffect(c, s, true);
    if !Failing(s.p.pc) {
      OrphanedMove(c, s.p, |s.cs|, ParentRead(s), st.r, st.w);
    }
  }

  lemma OrphanedChild(c: Config, s: State, k: nat, files: map<int, nat>)
    requires Inv(c, s) && Orphaned(c, s) && ChildEnabled(c, s, k, files)
    ensures Orphaned(c, Next(c, s, ChildStep(k, true, files)))
  {
    assert ChildInv(c, k, s.cs[k]) && ChildInv(c, 0, s.cs[0]);
    UnharmedChild(c, k, s.cs[k], Answer(s, k, true), files);
  }

  lemma OrphanedStep(c: Config, s: State, st: Step)
    requires Inv(c, s) && Orphaned(c, s) && Enabled(c, s, st) && Internal(s, st) && Succeeds(st)
    ensures Orphaned(c, Next(c, s, st))
  {
    match st
    case ParentStep(_, _, _) => OrphanedParent(c, s, st);
    case ChildStep(k, _, files) => OrphanedChild(c, s, k, files);
    case _ =>
  }

  lemma {:induction false} OrphanedToTheEnd(c: Config, tr: seq<State>, steps: seq<Step>)
    returns (tr': seq<State>, steps': seq<Step>)
    requires c.Valid() && IsRun(c, tr, steps) && Orphaned(c, tr[|steps|])
    ensures IsRun(c, tr', steps') && Orphaned(c, tr'[|steps'|]) && !CanMoveOn(c, tr'[|steps'|])
    decreases 35 * c.Size() + 21 - |steps|
  {
    var s := tr[|steps|];
    if !CanMoveOn(c, s) {
      return tr, steps;
    }
    var st :| Enabled(c, s, st) && Internal(s, st) && Succeeds(st);
    RunInv(c, tr, steps, |steps|);
    OrphanedStep(c, s, st);
    RunLonger(c, tr, steps, st);
    RunsTerminate(c, tr + [Next(c, s, st)], steps + [st]);
    tr', steps' := OrphanedToTheEnd(c, tr + [Next(c, s, st)], steps + [st]);
  }

  // ----- how it begins -----

  function Following(pc: ParentPc): ParentPc {
    match pc
    case Start => MakePipe
    case MakePipe => MakeErr
    case MakeErr => Fork
    case _ => DropPrev
  }

  /** The parent gets as far as forking the leader. */
  lemma OpeningStep(c: Config, tr: seq<State>, steps: seq<Step>) returns (tr': seq<State>, steps': seq<Step>)
    requires IsRun(c, tr, steps) && tr[|steps|].p.pc in {Start, MakePipe, MakeErr, Fork}
    ensures IsRun(c, tr', steps')
    ensures var s, t := tr[|steps|], tr'[|steps'|];
            && t.p.pc == Following(s.p.pc)
            && t.cs == (if s.p.pc == Fork then s.cs + [ForkedChild(s.p)] else s.cs)
            && t.gone == s.gone
  {
    var s := tr[|steps|];
    var b := AboveAll(s.p.tab.Keys);
    var st := ParentStep(true, b, b + 1);
    assert FreshPair(s.p.tab, b, b + 1);
    RunLonger(c, tr, steps, st);
    tr', steps' := tr + [Next(c, s, st)], steps + [st];
  }

  lemma LeaderForked(c: Config) returns (tr: seq<State>, steps: seq<Step>)
    ensures IsRun(c, tr, steps)
    ensures var s := tr[|steps|];
            s.p.pc == DropPrev && |s.cs| == 1 && !s.gone && exists p :: s.cs[0] == ForkedChild(p)
  {
    tr, steps := OpeningStep(c, [Init(c)], []);
    tr, steps := OpeningStep(c, tr, steps);
    tr, steps := OpeningStep(c, tr, steps);
    tr, steps := OpeningStep(c, tr, steps);
  }

  /** The leader makes a step that fails if it can. */
  lemma LeaderFails(c: Config, tr: seq<State>, steps: seq<Step>) returns (tr': seq<State>, steps': seq<Step>)
    requires IsRun(c, tr, steps) && |tr[|steps|].cs| == 1 && !tr[|steps|].cs[0].signalled
    requires tr[|steps|].cs[0].pc in {Link, WriteErrno, WriteMessage, Quit}
    ensures IsRun(c, tr', steps')
    ensures var s := tr[|steps|]; tr'[|steps'|] == s.(cs := [ChildNext(c, 0, s.cs[0], false, map[])])
  {
    var s := tr[|steps|];
    var st := ChildStep(0, false, map[]);
    RunLonger(c, tr, steps, st);
    tr', steps' := tr + [Next(c, s, st)], steps + [st];
    assert Next(c, s, st).cs == [ChildNext(c, 0, s.cs[0], false, map[])];
  }

  /** The leader cannot link its pipes, reports that, exits, and is reaped. */
  lemma LeaderReaped(c: Config) returns (tr: seq<State>, steps: seq<Step>)
    ensures IsRun(c, tr, steps) && Orphaned(c, tr[|steps|])
  {
    tr, steps := LeaderForked(c);
    tr, steps := LeaderFails(c, tr, steps);
    tr, steps := LeaderFails(c, tr, steps);
    tr, steps := LeaderFails(c, tr, steps);
    tr, steps := LeaderFails(c, tr, steps);
    RunLonger(c, tr, steps, Reap(0));
    tr, steps := tr + [Next(c, tr[|steps|], Reap(0))], steps + [Reap(0)];
  }

  lemma OrphanedEnd(c: Config, s: State)
    requires Inv(c, s) && Orphaned(c, s) && Quiet(s)
    ensures s.p.pc == Failed && |s.cs| == c.Size()
    ensures forall k :: 1 <= k < c.Size() ==> s.cs[k].pc == Execed && !s.cs[k].signalled && !s.cs[k].reaped
  {
  }

  /** Every pipeline has a run in which the launch fails, every process but the leader runs its
      program, and none of them has been sent a signal. */
  lemma FailedLaunchMissesAll(c: Config) returns (tr: seq<State>, steps: seq<Step>)
    requires c.Valid()
    ensures IsRun(c, tr, steps)
    ensures var s := tr[|steps|];
            && s.p.pc == Failed && |s.cs| == c.Size()
            && forall k :: 1 <= k < c.Size() ==> s.cs[k].pc == Execed && !s.cs[k].signalled && !s.cs[k].reaped
  {
    tr, steps := LeaderReaped(c);
    tr, steps := OrphanedToTheEnd(c, tr, steps);
    StuckRunHasReturned(c, tr, steps);
    RunInv(c, tr, steps, |steps|);
    OrphanedEnd(c, tr[|steps|]);
  }
}
