/** What a user sees of the job commands: which job of the listing fg and bg act on for which
    arguments, where jobs appear and what is printed about them. */
module JobCommands {
  import opened CStrings
  import opened Options
  import opened Numerals
  import opened JobTable
  import opened JobTableTheorems

  // ----- arguments -----

  /** The arguments ask for the job numbered n: no number means 1. */
  predicate AsksFor(args: seq<string>, n: nat) {
    || (|args| == 1 && n == 1)
    || (|args| == 2 && n <= INT_MAX && args[1] == Numeral(n))
  }

  /** The arguments are no request at all. */
  ghost predicate Malformed(args: seq<string>) {
    |args| > 2 || (|args| == 2 && !exists i: nat, j: nat :: Shape(args[1], i, j))
  }

  /** fg and bg select the job whose line of the listing carries the number asked for. */
  lemma ArgumentsSelect(t: Table, args: seq<string>, n: nat)
    requires AsksFor(args, n)
    ensures var s := Select(JobIndex(args), |t.current|);
            && (1 <= n <= |t.current| ==> s == At(n - 1) && Listing(t)[n - 1].index == n)
            && (n > |t.current| ==> s == NoSuchJob)
            && (n == 0 ==> s == if t.current == [] then NullHandle else NoSuchJob)
  {
    if |args| == 2 {
      NumeralValue(n);
    }
  }

  lemma MalformedSelects(t: Table, args: seq<string>)
    requires |args| >= 1
    ensures Select(JobIndex(args), |t.current|) == BadSyntax <==> Malformed(args)
  {
    if |args| == 2 {
      NumbersExactly(args[1]);
    }
  }

  // ----- bg -----

  /** bg with the number n moves line n of the listing to the end, running, and announces the job;
      the others close up. */
  lemma BgByNumber(t: Table, args: seq<string>, n: nat)
    requires AsksFor(args, n) && 1 <= n <= |t.current|
    ensures var was, t' := Listing(t), Apply(t, StepBg(args)); var now, last := Listing(t'), |was| - 1;
            && |now| == |was| && now[last] == Line(last + 1, was[n - 1].pgid, TextRunning)
            && (forall i :: 0 <= i < n - 1 ==> now[i] == was[i])
            && (forall i :: n <= i < |was| ==> now[i - 1] == was[i].(index := i))
            && t'.pending == t.pending + [t.current[n - 1].id]
            && t'.current[last] == t.current[n - 1].(stopped := false)
            && t' == t.(current := t'.current, pending := t'.pending)
  {
    ArgumentsSelect(t, args, n);
    BgMovesLast(t, JobIndex(args), n - 1);
  }

  /** Without such a line neither fg nor bg does anything. */
  lemma NothingSelected(t: Table, args: seq<string>, n: nat, terminal: bool, script: seq<Event>)
    requires |args| >= 1 && (Malformed(args) || (AsksFor(args, n) && !(1 <= n <= |t.current|)))
    ensures Apply(t, StepBg(args)) == t
    ensures Possible(t, StepFg(args, terminal, script)) && Apply(t, StepFg(args, terminal, script)) == t
  {
    MalformedSelects(t, args);
    if AsksFor(args, n) && !Malformed(args) {
      ArgumentsSelect(t, args, n);
    }
  }

  // ----- fg -----

  /** Among the first `size` events are as many stops: nobody has ended before that many. */
  predicate AllStop(script: seq<Event>, size: nat) {
    |script| >= size && multiset(script[..size])[Stopped] == size
  }

  lemma {:induction false} CountAll(script: seq<Event>)
    ensures multiset(script)[Stopped] <= |script|
    ensures multiset(script)[Stopped] == |script| <==> forall i :: 0 <= i < |script| ==> script[i] == Stopped
  {
    if script != [] {
      var init := script[..|script| - 1];
      CountAll(init);
      assert script == init + [script[|script| - 1]];
      assert forall i :: 0 <= i < |init| ==> init[i] == script[i];
    }
  }

  /** The wait ends with the job relisted exactly when the first reports, as many as it has
      processes, are all stops. */
  lemma WaitsForAllStops(script: seq<Event>, size: nat)
    ensures StopsFirst(script, size) <==> AllStop(script, size)
  {
    if |script| >= size {
      CountAll(script[..size]);
      assert forall i :: 0 <= i < size ==> script[..size][i] == script[i];
    }
  }

  /** fg with the number n takes line n off the listing; the others close up. If the job is then
      stopped it comes back as line 1, Stopped and announced; otherwise it has ended. */
  lemma FgByNumber(t: Table, args: seq<string>, n: nat, script: seq<Event>)
    requires AsksFor(args, n) && 1 <= n <= |t.current| && Possible(t, StepFg(args, true, script))
    requires t.current[n - 1].size >= 0
    ensures var was, t' := Listing(t), Apply(t, StepFg(args, true, script)); var now := Listing(t');
            if AllStop(script, t.current[n - 1].size)
            then && |now| == |was| && now[0] == Line(1, was[n - 1].pgid, TextStopped)
                 && (forall i :: 0 <= i < n - 1 ==> now[i + 1] == was[i].(index := i + 2))
                 && (forall i :: n <= i < |was| ==> now[i] == was[i])
                 && t'.pending == t.pending + [t.current[n - 1].id] && t'.waited == t.waited
            else && |now| == |was| - 1
                 && (forall i :: 0 <= i < n - 1 ==> now[i] == was[i])
                 && (forall i :: n <= i < |was| ==> now[i - 1] == was[i].(index := i))
                 && t'.pending == t.pending && |t'.waited| == |t.waited| + 1
                 && t'.waited[|t.waited|].id == t.current[n - 1].id
  {
    ArgumentsSelect(t, args, n);
    WaitsForAllStops(script, t.current[n - 1].size);
  }

  /** Without the terminal the job only moves to the end, in the state it was in. */
  lemma FgWithoutTerminal(t: Table, args: seq<string>, n: nat, script: seq<Event>)
    requires AsksFor(args, n) && 1 <= n <= |t.current|
    ensures Possible(t, StepFg(args, false, script))
    ensures var was, t' := Listing(t), Apply(t, StepFg(args, false, script)); var now, last := Listing(t'), |was| - 1;
            && |now| == |was| && now[last] == was[n - 1].(index := last + 1)
            && (forall i :: 0 <= i < n - 1 ==> now[i] == was[i])
            && (forall i :: n <= i < |was| ==> now[i - 1] == was[i].(index := i))
            && t'.pending == t.pending
  {
    ArgumentsSelect(t, args, n);
  }

  // ----- launches -----

  /** A background job, or a foreground job that is stopped, becomes line 1 of the listing and is
      announced; a foreground job that ends is never listed. */
  lemma LaunchLists(t: Table, pgid: int, size: nat, fg: bool, script: seq<Event>)
    ensures var was, t' := Listing(t), Launch(t, pgid, size, fg, script); var now := Listing(t');
            if fg && !AllStop(script, size) then now == was && t'.pending == t.pending
            else && |now| == |was| + 1
                 && now[0] == Line(1, pgid, if fg then TextStopped else TextRunning)
                 && (forall i :: 0 <= i < |was| ==> now[i + 1] == was[i].(index := i + 2))
                 && t'.pending == t.pending + [t.next] && t'.current[0].size == size
  {
    WaitsForAllStops(script, size);
    if fg && !AllStop(script, size) {
      assert Launch(t, pgid, size, fg, script).current == t.current;
    }
  }

  // ----- what the listing and the prompt say -----

  /** The state a line shows: a job counts as stopped once a process of it has stopped, until fg
      or bg continues it. */
  lemma ListedText(t: Table, scripts: seq<seq<Event>>, i: nat)
    requires Inv(t) && Possible(t, StepChld(scripts)) && i < |t.current|
    requires Reaped(scripts[i]) < t.current[i].unreaped
    ensures exists k :: 0 <= k < |Listing(Chld(t, scripts))|
              && Listing(Chld(t, scripts))[k].pgid == t.current[i].pgid
              && Listing(Chld(t, scripts))[k].text
                   == if t.current[i].stopped || Stopped in scripts[i] then TextStopped else TextRunning
  {
    TakeAllCounts(t.current[i], scripts[i]);
    StoppedSticks(t.current[i], scripts[i]);
    var js := TakeEach(t.current, scripts);
    SplitAt(js, i);
    var k :| 0 <= k < |Live(js)| && Live(js)[k] == js[i];
    assert Listing(Chld(t, scripts))[k] == Line(k + 1, js[i].pgid, TextOf(js[i], false));
  }

  /** A job whose last process a handler run has reaped: the next prompt prints a line without a
      number, with its group, saying Done exactly if none of its processes was seen stopped. */
  lemma ReportedLine(t: Table, scripts: seq<seq<Event>>, i: nat)
    requires Inv(t) && Possible(t, StepChld(scripts)) && i < |t.current|
    requires Reaped(scripts[i]) == t.current[i].unreaped
    ensures Line(0, t.current[i].pgid, if t.current[i].stopped || Stopped in scripts[i] then TextStopped else TextDone)
              in ReportsOf(Chld(t, scripts).removed)
  {
    TakeAllCounts(t.current[i], scripts[i]);
    StoppedSticks(t.current[i], scripts[i]);
    var js := TakeEach(t.current, scripts);
    SplitAt(js, i);
    var k :| 0 <= k < |Finished(js)| && Finished(js)[k] == js[i];
    var t' := Chld(t, scripts);
    assert t'.removed[|t.removed| + k] == js[i];
    assert ReportsOf(t'.removed)[|t.removed| + k] == Line(0, js[i].pgid, TextOf(js[i], true));
  }

  /** The prompt prints one line per ended job, in the order in which they ended, and forgets
      announcements and ended jobs. */
  lemma PromptReports(t: Table)
    ensures Possible(t, StepPrompt)
    ensures var t' := Apply(t, StepPrompt);
            && |ReportsOf(t.removed)| == |t.removed| && t'.pending == [] && t'.removed == []
            && t'.current == t.current
            && (forall i :: 0 <= i < |t.removed| ==>
                  && ReportsOf(t.removed)[i].pgid == t.removed[i].pgid
                  && t'.reported[|t.reported| + i] == t.removed[i].id)
  {
  }

  // ----- which steps the kernel allows -----

  lemma {:induction false} ReapedCounts(script: seq<Event>)
    ensures Reaped(script) == multiset(script)[Ended]
  {
    if script != [] {
      ReapedCounts(script[..|script| - 1]);
      assert script == script[..|script| - 1] + [script[|script| - 1]];
    }
  }

  /** A group of any positive id that no listed job has can be launched, and a foreground wait can
      see all its processes end, with any stops in between, or as many stops first. */
  lemma LaunchesPossible(t: Table, pgid: int, size: nat, fg: bool, script: seq<Event>)
    requires pgid >= 1 && size >= 1
    requires forall i :: 0 <= i < |t.current| && t.current[i].pgid == pgid ==> t.current[i].unreaped == 0
    requires multiset(script)[Ended] == size || AllStop(script, size)
    ensures Possible(t, StepLaunch(pgid, size, fg, script))
  {
    ReapedCounts(script);
    WaitsForAllStops(script, size);
  }

  /** A handler run can see any events in which no job ends more often than it has processes. */
  lemma EventsPossible(t: Table, scripts: seq<seq<Event>>)
    requires |scripts| == |t.current|
    ensures Possible(t, StepChld(scripts)) <==>
              forall i :: 0 <= i < |scripts| ==> multiset(scripts[i])[Ended] <= t.current[i].unreaped
  {
    forall i | 0 <= i < |scripts| ensures Reaped(scripts[i]) == multiset(scripts[i])[Ended] {
      ReapedCounts(scripts[i]);
    }
  }

  /** A wait behind fg can end in the same two ways. */
  lemma WaitsPossible(t: Table, args: seq<string>, n: nat, script: seq<Event>)
    requires AsksFor(args, n) && 1 <= n <= |t.current| && Running(t.current[n - 1])
    requires multiset(script)[Ended] == t.current[n - 1].size || AllStop(script, t.current[n - 1].size)
    ensures Possible(t, StepFg(args, true, script))
  {
    ArgumentsSelect(t, args, n);
    ReapedCounts(script);
    WaitsForAllStops(script, t.current[n - 1].size);
  }
}
