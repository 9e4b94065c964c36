/** What holds of the job lists over every run of atomic steps. */
module JobTableTheorems {
  import opened Options
  import opened JobTable

  // ----- the invariant -----

  /** A listed job: the shell's count is the kernel's, and it has processes. */
  predicate Running(j: Job) { j.size == j.unreaped >= 1 && j.pgid >= 1 && !j.fg }

  predicate Gone(j: Job) { j.size == 0 && j.unreaped == 0 }

  predicate DistinctPgids(js: seq<Job>) {
    forall i, k :: 0 <= i < k < |js| ==> js[i].pgid != js[k].pgid
  }

  /** Where the jobs launched so far are. */
  function Places(t: Table): multiset<nat> {
    multiset(Ids(t.current)) + multiset(Ids(t.removed)) + multiset(Ids(t.waited)) + multiset(t.reported)
  }

  /** Jobs that are not destroyed. */
  function Existing(t: Table): multiset<nat> {
    multiset(Ids(t.current)) + multiset(Ids(t.removed)) + multiset(Ids(t.waited))
  }

  /** Each launched job is in exactly one place, once. */
  ghost predicate OnePlaceEach(t: Table) {
    forall id: nat :: Places(t)[id] == if id < t.next then 1 else 0
  }

  predicate PendingExist(t: Table) {
    forall i :: 0 <= i < |t.pending| ==> t.pending[i] in Existing(t)
  }

  predicate Counts(t: Table) {
    && (forall i :: 0 <= i < |t.current| ==> Running(t.current[i]))
    && (forall i :: 0 <= i < |t.removed| ==> Gone(t.removed[i]))
    && (forall i :: 0 <= i < |t.waited| ==> t.waited[i].unreaped == 0)
  }

  /** What the code relies on before each step. */
  predicate Sound(t: Table) { Counts(t) && DistinctPgids(t.current) }

  ghost predicate Inv(t: Table) { Sound(t) && OnePlaceEach(t) && PendingExist(t) }

  /** The table is sound and j, which has processes, is none of its jobs. */
  predicate Foreign(t: Table, j: Job) {
    && Sound(t) && j.unreaped >= 1
    && forall i :: 0 <= i < |t.current| ==> t.current[i].pgid != j.pgid
  }

  // ----- facts about the parts -----

  lemma IdsConcat(a: seq<Job>, b: seq<Job>)
    ensures Ids(a + b) == Ids(a) + Ids(b)
    ensures multiset(Ids(a + b)) == multiset(Ids(a)) + multiset(Ids(b))
  {
    assert Ids(a + b) == Ids(a) + Ids(b);
  }

  lemma IdsOne(j: Job)
    ensures Ids([j]) == [j.id]
  {
  }

  lemma IdsWithout(js: seq<Job>, k: nat)
    requires k < |js|
    ensures multiset(Ids(js)) == multiset(Ids(Without(js, k))) + multiset{js[k].id}
  {
    IdsConcat(js[..k], js[k + 1..]);
    IdsConcat([js[k]], js[k + 1..]);
    IdsConcat(js[..k], [js[k]] + js[k + 1..]);
    IdsOne(js[k]);
    assert js == js[..k] + ([js[k]] + js[k + 1..]);
  }

  /** The handler's counting: every event that ends a process lowers both counts by one. */
  lemma {:induction false} TakeAllCounts(j: Job, script: seq<Event>)
    ensures var r := TakeAll(j, script);
            && r.id == j.id && r.pgid == j.pgid && r.fg == j.fg
            && r.size == j.size - Reaped(script) && r.unreaped == j.unreaped - Reaped(script)
  {
    if script != [] {
      TakeAllCounts(j, script[..|script| - 1]);
    }
  }

  lemma {:induction false} LiveMembers(js: seq<Job>)
    ensures forall i :: 0 <= i < |Live(js)| ==> Live(js)[i] in js && Live(js)[i].size != 0
  {
    if js != [] {
      LiveMembers(js[..|js| - 1]);
    }
  }

  lemma {:induction false} FinishedMembers(js: seq<Job>)
    ensures forall i :: 0 <= i < |Finished(js)| ==> Finished(js)[i] in js && Finished(js)[i].size == 0
  {
    if js != [] {
      FinishedMembers(js[..|js| - 1]);
    }
  }

  /** No job is lost or doubled by the handler's filter. */
  lemma {:induction false} SplitIds(js: seq<Job>)
    ensures multiset(Ids(js)) == multiset(Ids(Live(js))) + multiset(Ids(Finished(js)))
  {
    if js != [] {
      var init, last := js[..|js| - 1], js[|js| - 1];
      SplitIds(init);
      assert js == init + [last];
      IdsConcat(init, [last]);
      if last.size != 0 {
        IdsConcat(Live(init), [last]);
        assert Finished(js) == Finished(init);
      } else {
        IdsConcat(Finished(init), [last]);
        assert Live(js) == Live(init);
      }
    }
  }

  lemma {:induction false} LiveDistinct(js: seq<Job>)
    requires DistinctPgids(js)
    ensures DistinctPgids(Live(js))
  {
    if js != [] {
      var init := js[..|js| - 1];
      LiveDistinct(init);
      LiveMembers(init);
      forall i | 0 <= i < |Live(init)| ensures Live(init)[i].pgid != js[|js| - 1].pgid {
        var k :| 0 <= k < |init| && init[k] == Live(init)[i];
      }
    }
  }

  // ----- one step -----

  /** All is well but for job j, which is in no list. */
  ghost predicate Lacks(t: Table, j: Job) {
    && Sound(t)
    && (forall i :: 0 <= i < |t.current| ==> t.current[i].pgid != j.pgid)
    && (forall id: nat :: Places(t)[id] + (if id == j.id then 1 else 0) == if id < t.next then 1 else 0)
    && (forall i :: 0 <= i < |t.pending| ==> t.pending[i] in Existing(t) || t.pending[i] == j.id)
  }

  lemma RelistInv(t: Table, j: Job)
    requires Lacks(t, j) && Running(j)
    ensures Inv(Relist(t, j))
  {
    IdsConcat([j], t.current);
    IdsOne(j);
    var t' := Relist(t, j);
    assert Existing(t') == Existing(t) + multiset{j.id};
    assert Places(t') == Places(t) + multiset{j.id};
  }

  lemma WaitedInv(t: Table, j: Job)
    requires Lacks(t, j) && j.unreaped == 0
    ensures Inv(t.(waited := t.waited + [j]))
  {
    IdsConcat(t.waited, [j]);
    IdsOne(j);
    var t' := t.(waited := t.waited + [j]);
    assert Existing(t') == Existing(t) + multiset{j.id};
    assert Places(t') == Places(t) + multiset{j.id};
  }

  /** A wait relists a job only if none of its processes ended, so its count is still right. */
  lemma WaitInv(t: Table, j: Job, script: seq<Event>)
    requires Lacks(t, j) && j.size == j.unreaped >= 1 && j.pgid >= 1
    ensures Inv(Wait(t, j, script))
  {
    if StopsFirst(script, j.size) {
      RelistInv(t, j.(fg := false, stopped := true));
    } else {
      WaitedInv(t, j.(unreaped := 0));
    }
  }

  lemma LaunchLacks(t: Table, pgid: int, size: int, fg: bool, script: seq<Event>)
    requires Inv(t) && Possible(t, StepLaunch(pgid, size, fg, script))
    ensures Lacks(t.(next := t.next + 1), NewJob(t, pgid, size, fg))
  {
    var t' := t.(next := t.next + 1);
    assert Places(t') == Places(t) && Existing(t') == Existing(t);
  }

  lemma TakeForeign(t: Table, k: nat)
    requires Sound(t) && k < |t.current|
    ensures Foreign(Removing(t, k), t.current[k])
  {
    WithoutRunning(t.current, k);
  }

  lemma LaunchInv(t: Table, pgid: int, size: int, fg: bool, script: seq<Event>)
    requires Inv(t) && Possible(t, StepLaunch(pgid, size, fg, script))
    ensures Inv(Launch(t, pgid, size, fg, script))
  {
    LaunchLacks(t, pgid, size, fg, script);
    if fg {
      WaitInv(t.(next := t.next + 1), NewJob(t, pgid, size, fg), script);
    } else {
      RelistInv(t.(next := t.next + 1), NewJob(t, pgid, size, fg));
    }
  }

  lemma WithoutRunning(js: seq<Job>, k: nat)
    requires k < |js| && DistinctPgids(js) && forall i :: 0 <= i < |js| ==> Running(js[i])
    ensures var r := Without(js, k);
            && DistinctPgids(r)
            && forall i :: 0 <= i < |r| ==> Running(r[i]) && r[i].pgid != js[k].pgid
  {
  }

  lemma MinusOne(all: multiset<nat>, rest: multiset<nat>, x: nat, p: nat)
    requires all == rest + multiset{x}
    ensures all[p] == rest[p] + (if p == x then 1 else 0)
  {
  }

  /** Taking a listed job out leaves a table that lacks just this job. */
  lemma TakeOut(t: Table, k: nat)
    requires Inv(t) && k < |t.current|
    ensures Lacks(Removing(t, k), t.current[k])
  {
    WithoutRunning(t.current, k);
    IdsWithout(t.current, k);
    var t' := Removing(t, k);
    var id := t.current[k].id;
    assert Places(t) == Places(t') + multiset{id};
    assert Existing(t) == Existing(t') + multiset{id};
    forall p: nat ensures Places(t')[p] + (if p == id then 1 else 0) == if p < t.next then 1 else 0 {
      MinusOne(Places(t), Places(t'), id, p);
    }
    forall i | 0 <= i < |t.pending| ensures t.pending[i] in Existing(t') || t.pending[i] == id {
      MinusOne(Existing(t), Existing(t'), id, t.pending[i]);
    }
  }

  lemma AppendInv(t: Table, j: Job)
    requires Lacks(t, j) && Running(j)
    requires forall i :: 0 <= i < |t.pending| ==> t.pending[i] in Existing(t) || t.pending[i] == j.id
    ensures Inv(t.(current := t.current + [j]))
  {
    IdsConcat(t.current, [j]);
    IdsOne(j);
    var t' := t.(current := t.current + [j]);
    assert Existing(t') == Existing(t) + multiset{j.id};
    assert Places(t') == Places(t) + multiset{j.id};
  }

  lemma BgInv(t: Table, index: Option<int>)
    requires Inv(t)
    ensures Inv(Bg(t, index))
  {
    var s := Select(index, |t.current|);
    if s.At? {
      var j := t.current[s.k];
      TakeOut(t, s.k);
      var t' := Removing(t, s.k).(pending := t.pending + [j.id]);
      assert Lacks(t', j.(stopped := false)) by {
        assert Places(t') == Places(Removing(t, s.k));
        assert Existing(t') == Existing(Removing(t, s.k));
      }
      AppendInv(t', j.(stopped := false));
    }
  }

  lemma FgInv(t: Table, index: Option<int>, terminal: bool, script: seq<Event>)
    requires Inv(t)
    requires var s := Select(index, |t.current|);
             s.At? && terminal ==> WaitPossible(script, t.current[s.k].size, t.current[s.k].unreaped)
    ensures Inv(Fg(t, index, terminal, script))
  {
    var s := Select(index, |t.current|);
    if s.At? {
      var j := t.current[s.k];
      TakeOut(t, s.k);
      if terminal {
        WaitInv(Removing(t, s.k), j.(stopped := false, fg := true), script);
      } else {
        AppendInv(Removing(t, s.k), j);
      }
    }
  }

  lemma TakeEachFacts(js: seq<Job>, scripts: seq<seq<Event>>)
    requires |scripts| == |js| && DistinctPgids(js)
    requires forall i :: 0 <= i < |js| ==> Running(js[i]) && Reaped(scripts[i]) <= js[i].unreaped
    ensures var r := TakeEach(js, scripts);
            && Ids(r) == Ids(js) && DistinctPgids(r)
            && forall i :: 0 <= i < |r| ==> r[i].size == r[i].unreaped >= 0 && r[i].pgid >= 1 && !r[i].fg
  {
    var r := TakeEach(js, scripts);
    forall i | 0 <= i < |js|
      ensures r[i].id == js[i].id && r[i].pgid == js[i].pgid && r[i].size == r[i].unreaped >= 0 && !r[i].fg
    {
      TakeAllCounts(js[i], scripts[i]);
    }
    assert Ids(r) == Ids(js);
  }

  lemma ChldInv(t: Table, scripts: seq<seq<Event>>)
    requires Inv(t) && Possible(t, StepChld(scripts))
    ensures Inv(Chld(t, scripts))
  {
    TakeEachFacts(t.current, scripts);
    var js := TakeEach(t.current, scripts);
    SplitIds(js);
    LiveDistinct(js);
    IdsConcat(t.removed, Finished(js));
    var t' := Chld(t, scripts);
    assert Existing(t') == Existing(t);
    assert Places(t') == Places(t);
    SplitCounts(js);
  }

  lemma SplitCounts(js: seq<Job>)
    requires forall i :: 0 <= i < |js| ==> js[i].size == js[i].unreaped >= 0 && js[i].pgid >= 1 && !js[i].fg
    ensures forall i :: 0 <= i < |Live(js)| ==> Running(Live(js)[i])
    ensures forall i :: 0 <= i < |Finished(js)| ==> Gone(Finished(js)[i])
  {
    LiveMembers(js);
    FinishedMembers(js);
    forall i | 0 <= i < |Live(js)| ensures Running(Live(js)[i]) {
      var k :| 0 <= k < |js| && js[k] == Live(js)[i];
    }
    forall i | 0 <= i < |Finished(js)| ensures Gone(Finished(js)[i]) {
      var k :| 0 <= k < |js| && js[k] == Finished(js)[i];
    }
  }

  lemma PromptInv(t: Table)
    requires Inv(t)
    ensures Inv(Prompt(t))
  {
    var t' := Prompt(t);
    assert multiset(t'.reported) == multiset(t.reported) + multiset(Ids(t.removed));
    assert Ids(t'.removed) == [];
    assert Places(t') == Places(t);
  }

  lemma StepInv(t: Table, step: Step)
    requires Inv(t) && Possible(t, step)
    ensures Inv(Apply(t, step))
  {
    match step
    case StepLaunch(pgid, size, fg, script) => LaunchInv(t, pgid, size, fg, script);
    case StepFg(args, terminal, script) => FgInv(t, JobIndex(args), terminal, script);
    case StepBg(args) => BgInv(t, JobIndex(args));
    case StepChld(scripts) => ChldInv(t, scripts);
    case StepPrompt => PromptInv(t);
  }

  /** Over every run: the shell's process counts are right, groups are distinct, each launched
      job is in exactly one place and no list refers to a destroyed job. */
  lemma {:induction false} RunInv(run: seq<Table>)
    requires IsRun(run)
    ensures Inv(run[|run| - 1])
    decreases |run|
  {
    if |run| == 1 {
      assert Ids(START.current) == [];
    } else {
      var init := run[..|run| - 1];
      RunInv(init);
      var i := |run| - 2;
      assert Next(run[i], run[i + 1]);
      var step :| Possible(run[i], step) && run[i + 1] == Apply(run[i], step);
      StepInv(run[i], step);
    }
  }

  // ----- what the invariant means for a user -----

  lemma CountsDisjoint(a: multiset<nat>, b: multiset<nat>, c: multiset<nat>, d: multiset<nat>, id: nat)
    requires (a + b + c + d)[id] <= 1
    ensures id in d ==> id !in a + b + c
    ensures id in a ==> id !in b
  {
  }

  /** A job is reported ended at most once, and then nothing refers to it any more. */
  lemma ReportedOnce(run: seq<Table>, id: nat)
    requires IsRun(run)
    ensures var t := run[|run| - 1];
            && multiset(t.reported)[id] <= 1
            && (id in t.reported ==> id !in Existing(t) && id !in t.pending)
  {
    RunInv(run);
    var t := run[|run| - 1];
    assert Places(t)[id] <= 1;
    CountsDisjoint(multiset(Ids(t.current)), multiset(Ids(t.removed)), multiset(Ids(t.waited)),
                   multiset(t.reported), id);
  }

  /** A job with a process left is in the list of fg, bg and jobs. */
  lemma LiveJobListed(run: seq<Table>, id: nat)
    requires IsRun(run) && id < run[|run| - 1].next
    ensures var t := run[|run| - 1];
            || (exists i :: 0 <= i < |t.current| && t.current[i].id == id && t.current[i].unreaped >= 1)
            || (exists i :: 0 <= i < |t.removed| && t.removed[i].id == id && t.removed[i].unreaped == 0)
            || (exists i :: 0 <= i < |t.waited| && t.waited[i].id == id && t.waited[i].unreaped == 0)
            || id in t.reported
  {
    RunInv(run);
    var t := run[|run| - 1];
    assert Places(t)[id] == 1;
    if id in Ids(t.current) {
      var i :| 0 <= i < |t.current| && Ids(t.current)[i] == id;
      assert Running(t.current[i]);
    } else if id in Ids(t.removed) {
      var i :| 0 <= i < |t.removed| && Ids(t.removed)[i] == id;
      assert Gone(t.removed[i]);
    } else if id in Ids(t.waited) {
      var i :| 0 <= i < |t.waited| && Ids(t.waited)[i] == id;
      assert t.waited[i].unreaped == 0;
    }
  }

  lemma IdMember(js: seq<Job>, i: nat)
    requires i < |js|
    ensures js[i].id in Ids(js)
  {
    assert Ids(js)[i] == js[i].id;
  }

  lemma {:induction false} SplitAt(js: seq<Job>, i: nat)
    requires i < |js|
    ensures if js[i].size == 0 then js[i] in Finished(js) else js[i] in Live(js)
  {
    if i < |js| - 1 {
      SplitAt(js[..|js| - 1], i);
    }
  }

  lemma InOnePlace(t: Table, id: nat)
    requires Inv(t)
    ensures id in Ids(t.current) ==> id !in Ids(t.removed) && id !in t.reported
    ensures id in Ids(t.removed) ==> id !in t.reported
  {
    assert Places(t)[id] <= 1;
    CountsDisjoint(multiset(Ids(t.current)), multiset(Ids(t.removed)), multiset(Ids(t.waited)),
                   multiset(t.reported), id);
  }

  lemma ChldMoves(t: Table, scripts: seq<seq<Event>>, i: nat)
    requires Inv(t) && Possible(t, StepChld(scripts)) && i < |t.current|
    ensures if Reaped(scripts[i]) == t.current[i].unreaped then t.current[i].id in Ids(Chld(t, scripts).removed)
            else t.current[i].id in Ids(Chld(t, scripts).current)
  {
    TakeAllCounts(t.current[i], scripts[i]);
    var js := TakeEach(t.current, scripts);
    SplitAt(js, i);
    var t' := Chld(t, scripts);
    if js[i].size == 0 {
      var k :| 0 <= k < |Finished(js)| && Finished(js)[k] == js[i];
      IdMember(t'.removed, |t.removed| + k);
    } else {
      var k :| 0 <= k < |t'.current| && t'.current[k] == js[i];
      IdMember(t'.current, k);
    }
  }

  /** The handler takes a job off the list exactly when its last process ended, and the next
      prompt reports it. */
  lemma ChldMovesExactly(t: Table, scripts: seq<seq<Event>>, i: nat)
    requires Inv(t) && Possible(t, StepChld(scripts)) && i < |t.current|
    ensures var id := t.current[i].id; var ended := Reaped(scripts[i]) == t.current[i].unreaped;
            && (ended <==> id in Ids(Chld(t, scripts).removed))
            && (!ended <==> id in Ids(Chld(t, scripts).current))
            && (ended <==> id in Prompt(Chld(t, scripts)).reported)
  {
    var id := t.current[i].id;
    ChldInv(t, scripts);
    ChldMoves(t, scripts, i);
    IdMember(t.current, i);
    InOnePlace(t, id);
    InOnePlace(Chld(t, scripts), id);
  }

  /** The handler keeps the order of the jobs that stay. */
  lemma {:induction false} LiveOrder(js: seq<Job>, i: nat, k: nat)
    requires i < k < |Live(js)|
    ensures exists a, b :: 0 <= a < b < |js| && js[a] == Live(js)[i] && js[b] == Live(js)[k]
  {
    var init, n := js[..|js| - 1], |js| - 1;
    if k < |Live(init)| {
      LiveOrder(init, i, k);
      var a, b :| 0 <= a < b < |init| && init[a] == Live(init)[i] && init[b] == Live(init)[k];
      assert js[a] == Live(js)[i] && js[b] == Live(js)[k];
    } else {
      LiveMembers(init);
      var a :| 0 <= a < |init| && init[a] == Live(init)[i];
      assert js[a] == Live(js)[i] && js[n] == Live(js)[k];
    }
  }

  // ----- fg and bg by index -----

  /** fg and bg take the job that the listing numbers with the index they are given, and
      nothing when there is no such number. */
  lemma SelectsListed(t: Table, index: Option<int>, k: nat)
    ensures Select(index, |t.current|) == At(k) <==> k < |t.current| && index == Some(Listing(t)[k].index)
  {
  }

  /** bg moves that job to the end of the listing, running; the others keep their order. */
  lemma BgMovesLast(t: Table, index: Option<int>, k: nat)
    requires Select(index, |t.current|) == At(k)
    ensures var was, now := Listing(t), Listing(Bg(t, index)); var n := |was| - 1;
            && |now| == |was| && now[n] == Line(n + 1, was[k].pgid, TextRunning)
            && (forall i :: 0 <= i < k ==> now[i] == was[i])
            && (forall i :: k < i < |was| ==> now[i - 1] == was[i].(index := i))
            && Bg(t, index).pending == t.pending + [t.current[k].id]
  {
  }

  // ----- what the report says -----

  lemma {:induction false} StoppedSticks(j: Job, script: seq<Event>)
    ensures TakeAll(j, script).stopped <==> j.stopped || Stopped in script
  {
    if script != [] {
      var init := script[..|script| - 1];
      StoppedSticks(j, init);
      assert script == init + [script[|script| - 1]];
    }
  }

  /** A job the handler finishes is reported Done exactly if it was not marked stopped before and
      none of its processes stopped meanwhile; otherwise it is reported Stopped. */
  lemma ReportText(j: Job, script: seq<Event>)
    ensures TextOf(TakeAll(j, script), true) == if j.stopped || Stopped in script then TextStopped else TextDone
  {
    StoppedSticks(j, script);
  }

  /** So a background job that stops and is then killed is reported as stopped. */
  lemma KilledWhileStopped()
    ensures var t := Launch(START, 7, 1, false, []);
            var t' := Chld(t, [[Stopped, Ended]]);
            && Possible(START, StepLaunch(7, 1, false, [])) && Possible(t, StepChld([[Stopped, Ended]]))
            && |t'.removed| == 1 && t'.removed[0].unreaped == 0 && TextOf(t'.removed[0], true) == TextStopped
  {
    var t := Launch(START, 7, 1, false, []);
    var script := [Stopped, Ended];
    assert script[..1] == [Stopped] && [Stopped][..0] == [];
    assert Reaped([Stopped]) == 0 && Reaped(script) == 1;
    var j := t.current[0];
    TakeAllCounts(j, script);
    ReportText(j, script);
    var js := TakeEach(t.current, [script]);
    assert js == [TakeAll(j, script)];
    assert Finished(js) == [js[0]];
  }
}
