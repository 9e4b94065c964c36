/** Who receives the signals of a failed launch: the life of the job's process group. */
module LaunchGroup {
  import opened Launch
  import opened LaunchInv
  import opened LaunchProofs

  // ----- who is in the group -----

  /** One of the two setpgid calls for process k, the parent's or its own, succeeds in this step. */
  predicate Joins(s: State, st: Step, k: nat) {
    && k < |s.cs|
    && match st
       case ParentStep(_, _, _) => s.p.pc == SetGroup && s.p.i == k && IsPutIn(s, k)
       case ChildStep(j, _, _) => j == k && s.cs[k].pc == JoinGroup && JoinsItself(s, k)
       case _ => false
  }

  lemma JoinStep(c: Config, s: State, st: Step, k: nat)
    requires Enabled(c, s, st) && k < |Next(c, s, st).cs|
    ensures Next(c, s, st).cs[k].inGroup <==> (k < |s.cs| && s.cs[k].inGroup) || Joins(s, st, k)
  {
  }

  /** A process is in the job's group exactly when one of the two setpgid calls for it has
      succeeded. */
  lemma {:induction false} InGroupIffJoined(c: Config, tr: seq<State>, steps: seq<Step>, j: nat, k: nat)
    requires c.Valid() && IsRun(c, tr, steps) && j < |tr| && k < |tr[j].cs|
    ensures tr[j].cs[k].inGroup <==> exists i :: 0 <= i < j && Joins(tr[i], steps[i], k)
  {
    if j > 0 {
      JoinStep(c, tr[j - 1], steps[j - 1], k);
      if k < |tr[j - 1].cs| {
        InGroupIffJoined(c, tr, steps, j - 1, k);
      } else {
        forall i | 0 <= i < j ensures !Joins(tr[i], steps[i], k) {
          ForkedLater(c, tr, steps, i, j - 1);
        }
      }
    }
  }

  lemma OnlyForksAdd(c: Config, s: State, st: Step)
    requires Enabled(c, s, st)
    ensures |s.cs| <= |Next(c, s, st).cs|
  {
  }

  lemma {:induction false} ForkedLater(c: Config, tr: seq<State>, steps: seq<Step>, i: nat, j: nat)
    requires IsRun(c, tr, steps) && i <= j < |tr|
    ensures |tr[i].cs| <= |tr[j].cs|
  {
    if i < j {
      ForkedLater(c, tr, steps, i, j - 1);
      OnlyForksAdd(c, tr[j - 1], steps[j - 1]);
    }
  }

  // ----- the life of the group -----

  /** The parent's setpgid for process k is behind it. */
  predicate PutIn(p: Parent, k: nat) {
    k < p.i || !(4 <= Order(p.pc) <= 6)
  }

  /** The child's own setpgid is behind it and it has not failed to start since. */
  predicate HasJoined(ch: Child) {
    ch.Ran() || 5 <= Rank(ch.pc) <= 9
  }

  /** A process past one of its calls is in the group, has been reaped, or has come too late. */
  predicate Placed(s: State, k: nat)
    requires k < |s.cs|
  {
    s.cs[k].inGroup || s.cs[k].reaped || (k > 0 && !GroupExists(s))
  }

  ghost predicate Grouped(s: State) {
    && (s.gone ==> |s.cs| > 0 && s.cs[0].reaped && forall k :: 0 <= k < |s.cs| && s.cs[k].inGroup ==> s.cs[k].reaped)
    && (forall k: nat :: k < |s.cs| && (PutIn(s.p, k) || HasJoined(s.cs[k])) ==> Placed(s, k))
    && (Order(s.p.pc) >= 19 ==> forall k: nat :: k < |s.cs| ==> Reached(s.cs[k]))
  }

  /** The error exit has signalled this process if it still is in the group. */
  predicate Reached(ch: Child) { ch.inGroup && !ch.reaped ==> ch.signalled }

  /** The parent is done with the leader: if the group ever exists it has been created. */
  predicate LeaderPlaced(s: State) {
    |s.cs| > 0 && PutIn(s.p, 0)
  }

  lemma LaterPlaced(c: Config, s: State)
    requires Inv(c, s) && (|s.cs| > 1 || (|s.cs| > 0 && BeforeFork(s.p.pc)))
    ensures LeaderPlaced(s)
  {
  }

  lemma ReapedStays(c: Config, s: State, st: Step, k: nat)
    requires Inv(c, s) && Enabled(c, s, st) && k < |s.cs|
    ensures k < |Next(c, s, st).cs|
    ensures s.cs[k].reaped ==> Next(c, s, st).cs[k].reaped && !Joins(s, st, k)
  {
    assert ChildInv(c, k, s.cs[k]);
  }

  /** A group that does not exist behind the leader's setpgid never will. */
  lemma GroupStaysAway(c: Config, s: State, st: Step)
    requires Inv(c, s) && Grouped(s) && Enabled(c, s, st) && LeaderPlaced(s) && !GroupExists(s)
    ensures !GroupExists(Next(c, s, st))
  {
    var t := Next(c, s, st);
    assert Placed(s, 0);
    if !s.gone {
      ReapedStays(c, s, st, 0);
      forall k: nat | k < |t.cs| ensures !t.cs[k].inGroup {
        JoinStep(c, s, st, k);
      }
    }
  }

  lemma GoneStep(c: Config, s: State, st: Step, k: nat)
    requires Inv(c, s) && Grouped(s) && Enabled(c, s, st)
    requires Next(c, s, st).gone && k < |Next(c, s, st).cs| && Next(c, s, st).cs[k].inGroup
    ensures k < |s.cs| && Next(c, s, st).cs[k].reaped && s.cs[0].reaped
  {
    JoinStep(c, s, st, k);
    ReapedStays(c, s, st, k);
    if !s.gone && |s.cs| > 1 {
      LaterPlaced(c, s);
      assert Placed(s, 0);
    }
  }

  lemma HasJoinedStep(c: Config, s: State, st: Step, k: nat)
    requires Enabled(c, s, st) && k < |Next(c, s, st).cs| && HasJoined(Next(c, s, st).cs[k])
    ensures k < |s.cs|
    ensures HasJoined(s.cs[k]) || (st.ChildStep? && st.k == k && s.cs[k].pc == JoinGroup)
  {
  }

  lemma PutInMove(c: Config, p: Parent, n: nat, res: ReadResult, ok: bool, r: int, w: int, k: nat)
    requires c.Valid() && Counts(c, p, n) && k < ForkCount(p, ok, n)
    requires PutIn(ParentMove(c, p, res, ok, r, w), k)
    ensures k < n && (PutIn(p, k) || (p.pc == SetGroup && p.i == k))
  {
  }

  lemma PutInStep(c: Config, s: State, st: Step, k: nat)
    requires Inv(c, s) && Enabled(c, s, st) && k < |Next(c, s, st).cs| && PutIn(Next(c, s, st).p, k)
    ensures k < |s.cs|
    ensures PutIn(s.p, k) || (st.ParentStep? && s.p.pc == SetGroup && s.p.i == k)
  {
    if st.ParentStep? {
      EffectCount(s, st.ok);
      PutInMove(c, s.p, |s.cs|, ParentRead(s), st.ok, st.r, st.w, k);
    }
  }

  lemma StaysPlaced(c: Config, s: State, st: Step, k: nat)
    requires Inv(c, s) && Grouped(s) && Enabled(c, s, st) && k < |s.cs| && Placed(s, k)
    ensures Placed(Next(c, s, st), k)
  {
    JoinStep(c, s, st, k);
    ReapedStays(c, s, st, k);
    if k > 0 && !GroupExists(s) {
      LaterPlaced(c, s);
      GroupStaysAway(c, s, st);
    }
  }

  lemma PlacedStep(c: Config, s: State, st: Step, k: nat)
    requires Inv(c, s) && Grouped(s) && Enabled(c, s, st) && k < |Next(c, s, st).cs|
    requires PutIn(Next(c, s, st).p, k) || HasJoined(Next(c, s, st).cs[k])
    ensures Placed(Next(c, s, st), k)
  {
    if PutIn(Next(c, s, st).p, k) {
      PutInStep(c, s, st, k);
    } else {
      HasJoinedStep(c, s, st, k);
    }
    if Placed(s, k) {
      StaysPlaced(c, s, st, k);
    } else {
      JoinStep(c, s, st, k);
    }
  }

  lemma SignalStep(c: Config, s: State, st: Step, k: nat)
    requires Enabled(c, s, st) && k < |s.cs| && Flags(s.cs[k])
    ensures k < |Next(c, s, st).cs|
    ensures var r := Next(c, s, st).cs[k];
            r.signalled <==> s.cs[k].signalled || (st.ParentStep? && s.p.pc == Kill && s.p.pgidSet
                                                   && s.cs[k].inGroup && !s.cs[k].reaped)
  {
  }

  lemma KillMove(c: Config, p: Parent, res: ReadResult, ok: bool, r: int, w: int)
    requires Order(ParentMove(c, p, res, ok, r, w).pc) >= 19
    ensures Order(p.pc) >= 18 || p.pc == Start
  {
  }

  lemma FailingStep(c: Config, s: State, st: Step)
    requires Inv(c, s) && Enabled(c, s, st) && Order(Next(c, s, st).p.pc) >= 19
    ensures |Next(c, s, st).cs| == |s.cs|
    ensures Order(s.p.pc) >= 19 || (st.ParentStep? && s.p.pc == Kill) || |s.cs| == 0
    ensures s.p.pc == Kill && |s.cs| > 0 ==> s.p.pgidSet
  {
    if st.ParentStep? {
      EffectCount(s, st.ok);
      KillMove(c, s.p, ParentRead(s), st.ok, st.r, st.w);
    }
  }

  /** Nobody joins once the parent is done with setpgid: those outside have come too late. */
  lemma NobodyJoinsLate(c: Config, s: State, st: Step, k: nat)
    requires Inv(c, s) && Grouped(s) && Failing(s.p.pc) && k < |s.cs| && Joins(s, st, k)
    ensures s.cs[k].inGroup
  {
    assert ChildInv(c, k, s.cs[k]) && Placed(s, k);
  }

  lemma ReachedStep(c: Config, s: State, st: Step, k: nat)
    requires Inv(c, s) && Grouped(s) && Enabled(c, s, st) && k < |s.cs|
    requires Order(s.p.pc) >= 19 || (st.ParentStep? && s.p.pc == Kill && s.p.pgidSet)
    ensures k < |Next(c, s, st).cs| && Reached(Next(c, s, st).cs[k])
  {
    assert Flags(s.cs[k]) by { assert ChildInv(c, k, s.cs[k]); }
    OnlyForksAdd(c, s, st);
    JoinStep(c, s, st, k);
    if Joins(s, st, k) {
      NobodyJoinsLate(c, s, st, k);
    }
    ReapedStays(c, s, st, k);
    SignalStep(c, s, st, k);
  }

  lemma GroupedStep(c: Config, s: State, st: Step)
    requires Inv(c, s) && Grouped(s) && Enabled(c, s, st)
    ensures Grouped(Next(c, s, st))
  {
    var t := Next(c, s, st);
    forall k: nat | t.gone && k < |t.cs| && t.cs[k].inGroup ensures t.cs[k].reaped {
      GoneStep(c, s, st, k);
    }
    if t.gone {
      if !s.gone {
        var k :| 0 <= k < |s.cs| && s.cs[k].inGroup;
        GoneStep(c, s, st, k);
      }
      ReapedStays(c, s, st, 0);
    }
    forall k: nat | k < |t.cs| && (PutIn(t.p, k) || HasJoined(t.cs[k])) ensures Placed(t, k) {
      PlacedStep(c, s, st, k);
    }
    forall k: nat | Order(t.p.pc) >= 19 && k < |t.cs| ensures Reached(t.cs[k]) {
      FailingStep(c, s, st);
      ReachedStep(c, s, st, k);
    }
  }

  lemma {:induction false} GroupedRun(c: Config, tr: seq<State>, steps: seq<Step>, j: nat)
    requires c.Valid() && IsRun(c, tr, steps) && j < |tr|
    ensures Grouped(tr[j])
  {
    if j > 0 {
      GroupedRun(c, tr, steps, j - 1);
      RunInv(c, tr, steps, j - 1);
      GroupedStep(c, tr[j - 1], steps[j - 1]);
    }
  }

  lemma GroupExistedJustBefore(c: Config, tr: seq<State>, steps: seq<Step>, i: nat)
    requires c.Valid() && IsRun(c, tr, steps) && i < |steps| && LeaderPlaced(tr[i])
    ensures LeaderPlaced(tr[i + 1]) && (GroupExists(tr[i + 1]) ==> GroupExists(tr[i]))
  {
    RunInv(c, tr, steps, i);
    GroupedRun(c, tr, steps, i);
    LeaderStaysPlaced(c, tr[i], steps[i]);
    if !GroupExists(tr[i]) {
      GroupStaysAway(c, tr[i], steps[i]);
    }
  }

  /** A group that exists behind the leader's setpgid has existed ever since. */
  lemma {:induction false} GroupExistedBefore(c: Config, tr: seq<State>, steps: seq<Step>, i: nat, j: nat)
    requires c.Valid() && IsRun(c, tr, steps) && i <= j < |tr| && LeaderPlaced(tr[i]) && GroupExists(tr[j])
    ensures GroupExists(tr[i])
    decreases j - i
  {
    if i < j {
      GroupExistedJustBefore(c, tr, steps, i);
      GroupExistedBefore(c, tr, steps, i + 1, j);
    }
  }

  lemma PutInStays(c: Config, p: Parent, n: nat, res: ReadResult, ok: bool, r: int, w: int)
    requires c.Valid() && Counts(c, p, n) && n > 0 && PutIn(p, 0)
    ensures PutIn(ParentMove(c, p, res, ok, r, w), 0)
  {
  }

  lemma LeaderStaysPlaced(c: Config, s: State, st: Step)
    requires c.Valid() && Counts(c, s.p, |s.cs|) && Enabled(c, s, st) && LeaderPlaced(s)
    ensures LeaderPlaced(Next(c, s, st))
  {
    OnlyForksAdd(c, s, st);
    if st.ParentStep? {
      PutInStays(c, s.p, |s.cs|, ParentRead(s), st.ok, st.r, st.w);
    }
  }

  predicate InOrReaped(ch: Child) { ch.inGroup || ch.reaped }

  lemma StaysInStep(c: Config, s: State, st: Step, k: nat)
    requires Inv(c, s) && Enabled(c, s, st) && k < |s.cs| && InOrReaped(s.cs[k])
    ensures k < |Next(c, s, st).cs| && InOrReaped(Next(c, s, st).cs[k])
  {
    OnlyForksAdd(c, s, st);
    JoinStep(c, s, st, k);
    ReapedStays(c, s, st, k);
  }

  lemma StaysInNext(c: Config, tr: seq<State>, steps: seq<Step>, i: nat, k: nat)
    requires c.Valid() && IsRun(c, tr, steps) && i < |steps| && k < |tr[i].cs| && InOrReaped(tr[i].cs[k])
    ensures k < |tr[i + 1].cs| && InOrReaped(tr[i + 1].cs[k])
  {
    RunInv(c, tr, steps, i);
    StaysInStep(c, tr[i], steps[i], k);
  }

  lemma {:induction false} StaysIn(c: Config, tr: seq<State>, steps: seq<Step>, i: nat, j: nat, k: nat)
    requires c.Valid() && IsRun(c, tr, steps) && i <= j < |tr| && k < |tr[i].cs| && InOrReaped(tr[i].cs[k])
    ensures k < |tr[j].cs| && InOrReaped(tr[j].cs[k])
  {
    if i < j {
      StaysIn(c, tr, steps, i, j - 1, k);
      StaysInNext(c, tr, steps, j - 1, k);
    }
  }

  // ----- the signals of the error exit -----

  /** On the error exit the processes not yet reaped are all in the group, or there is none. */
  lemma GroupComplete(s: State, k: nat)
    requires Grouped(s) && Failing(s.p.pc) && k < |s.cs| && !s.cs[k].reaped
    ensures s.cs[k].inGroup <==> GroupExists(s) || k == 0
  {
    assert Placed(s, k);
  }

  lemma AtKill(c: Config, s: State, k: nat)
    requires Inv(c, s) && s.p.pc == Kill && k < |s.cs|
    ensures s.p.pgidSet && !s.cs[k].signalled && Flags(s.cs[k])
  {
    assert ChildInv(c, k, s.cs[k]);
  }

  lemma KillStep(c: Config, s: State, st: Step, k: nat)
    requires Inv(c, s) && Grouped(s) && Enabled(c, s, st) && s.p.pc == Kill && st.ParentStep? && k < |s.cs|
    ensures k < |Next(c, s, st).cs|
    ensures Next(c, s, st).cs[k].signalled <==> GroupExists(s) && !s.cs[k].reaped
  {
    if !s.cs[k].reaped {
      GroupComplete(s, k);
    }
    AtKill(c, s, k);
    SignalStep(c, s, st, k);
  }

  /** The error exit's SIGTERM is sent to a process exactly if the group still exists and the
      process has not been reaped. */
  lemma KillSignals(c: Config, tr: seq<State>, steps: seq<Step>, i: nat, k: nat)
    requires c.Valid() && IsRun(c, tr, steps) && i < |steps|
    requires tr[i].p.pc == Kill && steps[i].ParentStep? && k < |tr[i].cs|
    ensures k < |tr[i + 1].cs|
    ensures tr[i + 1].cs[k].signalled <==> GroupExists(tr[i]) && !tr[i].cs[k].reaped
  {
    RunInv(c, tr, steps, i);
    GroupedRun(c, tr, steps, i);
    KillStep(c, tr[i], steps[i], k);
  }

  /** After the error exit a process that has not been reaped has been sent the SIGTERM if and
      only if the job's group still exists: all of them have, or none. */
  lemma FailedLaunchSignals(c: Config, tr: seq<State>, steps: seq<Step>, j: nat, k: nat)
    requires c.Valid() && IsRun(c, tr, steps) && j < |tr| && tr[j].p.pc == Failed
    requires k < |tr[j].cs| && !tr[j].cs[k].reaped
    ensures tr[j].cs[k].signalled <==> GroupExists(tr[j])
  {
    RunInv(c, tr, steps, j);
    GroupedRun(c, tr, steps, j);
    GroupComplete(tr[j], k);
    assert ChildInv(c, k, tr[j].cs[k]) && Reached(tr[j].cs[k]);
  }

  /** As long as the leader has not been reaped nobody is missed. */
  lemma FailedLaunchSignalsAll(c: Config, tr: seq<State>, steps: seq<Step>, j: nat, k: nat)
    requires c.Valid() && IsRun(c, tr, steps) && j < |tr| && tr[j].p.pc == Failed && k < |tr[j].cs|
    requires !tr[j].cs[0].reaped
    ensures tr[j].cs[k].signalled || tr[j].cs[k].reaped
  {
    GroupedRun(c, tr, steps, j);
    assert Placed(tr[j], 0);
    if !tr[j].cs[k].reaped {
      FailedLaunchSignals(c, tr, steps, j, k);
    }
  }

  /** The parent's setpgid comes in time, or is not needed, as long as the group exists. */
  lemma PutInTime(c: Config, s: State, st: Step, k: nat)
    requires Inv(c, s) && Grouped(s) && Enabled(c, s, st) && GroupExists(s)
    requires st.ParentStep? && s.p.pc == SetGroup && s.p.i == k < |s.cs|
    ensures k < |Next(c, s, st).cs| && InOrReaped(Next(c, s, st).cs[k])
  {
    if s.cs[k].Ran() {
      assert Placed(s, k);
    }
  }

  lemma PutInTimeNext(c: Config, tr: seq<State>, steps: seq<Step>, i: nat, k: nat)
    requires c.Valid() && IsRun(c, tr, steps) && i < |steps| && GroupExists(tr[i])
    requires tr[i].p.pc == SetGroup && tr[i].p.i == k < |tr[i].cs| && steps[i].ParentStep?
    ensures k < |tr[i + 1].cs| && InOrReaped(tr[i + 1].cs[k])
  {
    RunInv(c, tr, steps, i);
    GroupedRun(c, tr, steps, i);
    PutInTime(c, tr[i], steps[i], k);
  }

  lemma PutInTimeInRun(c: Config, tr: seq<State>, steps: seq<Step>, i: nat, j: nat, k: nat)
    requires c.Valid() && IsRun(c, tr, steps) && i < j < |tr| && GroupExists(tr[i])
    requires tr[i].p.pc == SetGroup && tr[i].p.i == k < |tr[i].cs| && steps[i].ParentStep?
    ensures k < |tr[j].cs| && InOrReaped(tr[j].cs[k])
  {
    PutInTimeNext(c, tr, steps, i, k);
    StaysIn(c, tr, steps, i + 1, j, k);
  }

  lemma AtSetGroup(c: Config, tr: seq<State>, steps: seq<Step>, i: nat)
    requires c.Valid() && IsRun(c, tr, steps) && i < |tr| && tr[i].p.pc == SetGroup
    ensures tr[i].p.i < |tr[i].cs| && (tr[i].p.i > 0 ==> LeaderPlaced(tr[i]))
  {
    RunInv(c, tr, steps, i);
  }

  /** Whether a process is missed can be told at the parent's setpgid for it: if the group
      exists at that moment a failing launch will signal the process, otherwise it will not. */
  lemma SignalledIffInTime(c: Config, tr: seq<State>, steps: seq<Step>, i: nat, j: nat, k: nat)
    requires c.Valid() && IsRun(c, tr, steps) && i < j < |tr| && tr[j].p.pc == Failed
    requires tr[i].p.pc == SetGroup && tr[i].p.i == k && steps[i].ParentStep?
    requires 0 < k < |tr[j].cs| && !tr[j].cs[k].reaped
    ensures tr[j].cs[k].signalled <==> GroupExists(tr[i])
  {
    AtSetGroup(c, tr, steps, i);
    FailedLaunchSignals(c, tr, steps, j, k);
    if GroupExists(tr[i]) {
      PutInTimeInRun(c, tr, steps, i, j, k);
      GroupedRun(c, tr, steps, j);
      GroupComplete(tr[j], k);
    } else if GroupExists(tr[j]) {
      GroupExistedBefore(c, tr, steps, i, j);
    }
  }
}
