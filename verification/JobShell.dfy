/** The shell's three lists of job handles and the code that edits them. Every method is tied to
    the step of `JobTable` it carries out. */
module JobShell {
  import opened Options
  import opened JobTable
  import opened JobTableTheorems
  import opened JobLists
  import opened JobTraversal

  ghost function Value(job: JobRecord): Job
    reads job
  {
    Job(job.id, job.pgid, job.size, job.unreaped, job.fg, job.stopped, job.fallingApart)
  }

  ghost function JobsOf(hs: seq<Handle>): set<object> {
    set h | h in hs :: h.job
  }

  ghost function Jobs(own: set<Handle>): set<object> {
    set h | h in own :: h.job
  }

  /** The handles' jobs are the jobs of the table. */
  ghost predicate Shows(hs: seq<Handle>, js: seq<Job>)
    reads JobsOf(hs)
  {
    |hs| == |js| && forall i :: 0 <= i < |hs| ==> Value(hs[i].job) == js[i]
  }

  ghost predicate ShowsIds(hs: seq<Handle>, ids: seq<nat>) {
    |hs| == |ids| && forall i :: 0 <= i < |hs| ==> hs[i].job.id == ids[i]
  }

  /** The inner loop of the handler: every event of one group. */
  method DrainGroup(job: JobRecord, script: seq<Event>)
    modifies job
    ensures Value(job) == TakeAll(old(Value(job)), script)
  {
    var k := 0;
    assert script[..0] == [];
    while k < |script|
      invariant k <= |script| && Value(job) == TakeAll(old(Value(job)), script[..k])
    {
      assert script[..k + 1][..k] == script[..k];
      if script[k] == Ended {
        job.size, job.unreaped := job.size - 1, job.unreaped - 1;
        job.fallingApart := true;
      } else {
        job.stopped := true;
      }
      k := k + 1;
    }
    assert script[..k] == script;
  }

  /** The loop of `wait_for_fg_job`: true when as many stops as there are processes were reported
      before any process ended. One process may have stopped twice. */
  method AwaitGroup(job: JobRecord, script: seq<Event>) returns (relist: bool)
    requires job.size == job.unreaped >= 1 && WaitPossible(script, job.size, job.unreaped)
    modifies job
    ensures relist == StopsFirst(script, old(job.size))
    ensures Value(job) == if relist then old(Value(job)) else old(Value(job)).(unreaped := 0)
  {
    var k, stoppedCount := 0, 0;
    var falling, stopped := false, false;
    while job.unreaped > 0
      invariant k <= |script| && job.unreaped >= 0
      invariant Value(job) == old(Value(job)).(unreaped := job.size - Reaped(script[..k]))
      invariant falling ==> stoppedCount == 0 && !StopsFirst(script, job.size)
      invariant !falling ==> stoppedCount == k < job.size && Reaped(script[..k]) == 0
      invariant !falling ==> forall i :: 0 <= i < k ==> script[i] == Stopped
      invariant !stopped ==> stoppedCount == 0
      decreases |script| - k
    {
      assert script[..|script|] == script;
      assert script[..k + 1][..k] == script[..k];
      if script[k] == Ended {
        job.unreaped := job.unreaped - 1;
        falling := true;
        if stopped {
          stoppedCount := 0;
        }
      } else {
        stopped := true;
        if falling {
          stoppedCount := 0;
        } else {
          stoppedCount := stoppedCount + 1;
        }
      }
      k := k + 1;
      if stoppedCount == job.size {
        return true;
      }
    }
    return false;
  }

  /** The first loop of `print_pending_jobs`. */
  method PrintNotes(list: HandleList) returns (printed: bool)
    requires list.Valid()
    modifies list, list.nodes
    ensures list.Valid() && list.nodes == [] && (printed <==> old(list.nodes) != [])
  {
    printed := false;
    ghost var was := list.nodes;
    var h := list.Shift();
    while h != null
      invariant list.Valid() && Suffix(list.nodes, was)
      invariant if h == null then list.nodes == [] && (printed <==> was != []) else was != []
      decreases |list.nodes|, h != null
    {
      printed := true;
      h := list.Shift();
    }
  }

  ghost predicate Suffix(a: seq<Handle>, b: seq<Handle>) {
    |a| <= |b| && a == b[|b| - |a|..]
  }

  /** The second loop of `print_pending_jobs`. */
  method PrintEnded(list: HandleList, ghost js: seq<Job>) returns (lines: seq<Line>, printed: bool)
    requires list.Valid() && Shows(list.nodes, js)
    modifies list, list.nodes
    ensures list.Valid() && list.nodes == [] && (printed <==> js != []) && lines == ReportsOf(js)
  {
    ghost var was := list.nodes;
    lines, printed := TakeLines(list);
    assert Shows(was, js);
    assert forall i :: 0 <= i < |was| ==> Value(was[i].job) == js[i];
  }

  method TakeLines(list: HandleList) returns (lines: seq<Line>, printed: bool)
    requires list.Valid()
    modifies list, list.nodes
    ensures list.Valid() && list.nodes == [] && (printed <==> old(list.nodes) != [])
    ensures |lines| == |old(list.nodes)|
    ensures forall i :: 0 <= i < |lines| ==> lines[i] == LineOf(old(list.nodes)[i].job)
  {
    printed, lines := false, [];
    ghost var was, k := list.nodes, 0;
    var h := list.Shift();
    while h != null
      invariant list.Valid() && |lines| == k
      invariant if h == null then k == |was| && list.nodes == []
                else k < |was| && h == was[k] && list.nodes == was[k + 1..]
      invariant (forall i :: 0 <= i < k ==> lines[i] == LineOf(was[i].job)) && (printed <==> k > 0)
      decreases |was| - k
    {
      lines := lines + [LineOf(h.job)];
      printed, k := true, k + 1;
      h := list.Shift();
    }
  }

  function LineOf(job: JobRecord): Line
    reads job
  {
    Line(0, job.pgid, TextFor(job.stopped, true))
  }

  class Shell {
    const current: HandleList
    const pending: HandleList
    const removed: HandleList

    constructor ()
      ensures Valid() && current.nodes == [] && pending.nodes == [] && removed.nodes == []
    {
      current := new HandleList();
      pending := new HandleList();
      removed := new HandleList();
    }

    /** The lists are acyclic and share no handle. */
    ghost predicate Valid()
      reads current, pending, removed, current.nodes, pending.nodes, removed.nodes
    {
      && current != pending && current != removed && pending != removed
      && current.Valid() && pending.Valid() && removed.Valid()
    }

    /** The lists show the table t. */
    ghost predicate Represents(t: Table)
      reads this, current, pending, removed, JobsOf(current.nodes), JobsOf(removed.nodes)
    {
      Shows(current.nodes, t.current) && Shows(removed.nodes, t.removed) && ShowsIds(pending.nodes, t.pending)
    }

    /** The events of the handle at p change its job alone. */
    method DrainAt(ghost t: Table, handle: Handle, ghost p: nat, script: seq<Event>)
      requires Represents(t) && Ready(t, p) && handle == current.nodes[p]
      modifies handle.job
      ensures Represents(t.(current := t.current[p := TakeAll(t.current[p], script)]))
    {
      OtherJobs(current.nodes, t.current, removed.nodes, t.removed, p);
      DrainGroup(handle.job, script);
    }

    /** Unlink the handle at p, the only one with that pgid. */
    method Detach(ghost t: Table, pgid: int, ghost p: nat) returns (h: Handle)
      requires Valid() && Represents(t) && p < |current.nodes| && First(current.nodes, pgid) == p
      modifies current, current.nodes
      ensures Valid() && h == old(current.nodes)[p] && h.next == null && h.owner == null
      ensures Shows(current.nodes, Without(t.current, p)) && Value(h.job) == t.current[p]
      ensures current.nodes == Drop(old(current.nodes), p)
    {
      var r := current.Remove(pgid);
      h := r;
      ShowsDrop(old(current.nodes), t.current, p);
    }

    /** The handles of the two lists the handler edits are among own. */
    ghost predicate Within(own: set<Handle>)
      reads current, removed
    {
      (forall i :: 0 <= i < |current.nodes| ==> current.nodes[i] in own)
      && (forall i :: 0 <= i < |removed.nodes| ==> removed.nodes[i] in own)
    }

    /** The handler's walk over t stands behind its first i jobs, on `next`. */
    ghost predicate Walking(t: Table, scripts: seq<seq<Event>>, i: nat, p: nat, next: Handle?, own: set<Handle>)
      reads this, current, pending, removed, current.nodes, pending.nodes, removed.nodes
      reads JobsOf(current.nodes), JobsOf(removed.nodes)
    {
      && i <= |scripts| == |t.current| && p == MidwayAt(t, scripts, i)
      && Valid() && Represents(Midway(t, scripts, i)) && Within(own)
      && next == if p < |current.nodes| then current.nodes[p] else null
    }

    /** `handle_chld`, its first loop. */
    method HandleChld(ghost t: Table, scripts: seq<seq<Event>>, ghost own: set<Handle>)
      requires Valid() && Represents(t) && Within(own) && Sound(t) && Possible(t, StepChld(scripts))
      modifies current, removed, own, Jobs(own)
      ensures Valid() && Represents(Chld(t, scripts))
    {
      var handle, i := current.head, 0;
      ghost var p := 0;
      assert Walking(t, scripts, 0, 0, handle, own) by { MidwayStart(t, scripts); }
      while handle != null
        invariant i <= |scripts| && Walking(t, scripts, i, p, handle, own)
        decreases |scripts| - i
      {
        handle, p := HandleNext(t, scripts, i, handle, p, own);
        i := i + 1;
      }
      MidwayEnd(t, scripts, i);
    }

    /** Turn i of the walk over t. */
    method HandleNext(ghost t: Table, scripts: seq<seq<Event>>, i: nat, handle: Handle, ghost p: nat,
                      ghost own: set<Handle>)
      returns (next: Handle?, ghost p': nat)
      requires Sound(t) && Possible(t, StepChld(scripts)) && Walking(t, scripts, i, p, handle, own)
      modifies current, removed, own, Jobs(own)
      ensures i < |scripts| && Walking(t, scripts, i + 1, p', next, own)
    {
      MidwayTurn(t, scripts, i);
      next, p' := HandleOne(Midway(t, scripts, i), handle, p, scripts[i], own);
    }

    /** One turn of the handler's outer loop, for the handle at position p. */
    method HandleOne(ghost t: Table, handle: Handle, ghost p: nat, script: seq<Event>, ghost own: set<Handle>)
      returns (next: Handle?, ghost p': nat)
      requires Valid() && Represents(t) && Within(own) && Ready(t, p) && handle == current.nodes[p]
      modifies current, removed, own, Jobs(own)
      ensures Valid() && Represents(ChldOne(t, p, script)) && Within(own)
      ensures p' == Passed(t, p, script) && next == if p' < |current.nodes| then current.nodes[p'] else null
    {
      ghost var t' := t.(current := t.current[p := TakeAll(t.current[p], script)]);
      OnlyMatch(current.nodes, t.current, p);
      DrainAt(t, handle, p, script);
      assert Value(handle.job) == t'.current[p];
      var pgid, size := handle.job.pgid, handle.job.size;
      next := handle.next;
      assert next == if p + 1 < |current.nodes| then current.nodes[p + 1] else null;
      p' := p + 1;
      if size == 0 {
        MoveToRemoved(t', pgid, p, own);
        p' := p;
      }
    }

    /** The handle at p goes to the end of the removed jobs. */
    method MoveToRemoved(ghost t: Table, pgid: int, ghost p: nat, ghost own: set<Handle>)
      requires Valid() && Represents(t) && Within(own) && p < |current.nodes| && First(current.nodes, pgid) == p
      modifies current, removed, own
      ensures Valid() && current.nodes == Drop(old(current.nodes), p) && Within(own)
      ensures Represents(t.(current := Without(t.current, p), removed := t.removed + [t.current[p]]))
    {
      ghost var cs, rs := current.nodes, removed.nodes;
      Relink(pgid, p);
      ShowsDrop(cs, t.current, p);
      ShowsAdd(rs, t.removed, cs[p]);
    }

    /** The job will be announced at the next prompt. */
    method Announce(ghost t: Table, job: JobRecord)
      requires Valid() && Represents(t)
      modifies pending, pending.nodes
      ensures Valid() && Represents(t.(pending := t.pending + [job.id]))
    {
      ghost var ps := pending.nodes;
      ghost var note := AddNote(job);
      assert Shows(current.nodes, t.current) && Shows(removed.nodes, t.removed);
      assert ShowsIds(ps + [note], t.pending + [job.id]);
    }

    method AddNote(job: JobRecord) returns (ghost note: Handle)
      requires Valid()
      modifies pending, pending.nodes
      ensures Valid() && pending.nodes == old(pending.nodes) + [note] && note.job == job
    {
      var handle := new Handle(job);
      pending.AddLast(handle);
      note := handle;
    }

    method PutFirst(ghost t: Table, job: JobRecord)
      requires Valid() && Represents(t)
      modifies current
      ensures Valid() && Represents(t.(current := [Value(job)] + t.current)) && pending.nodes == old(pending.nodes)
    {
      ghost var cs := current.nodes;
      var handle := new Handle(job);
      current.AddFirst(handle);
      ShowsFirst(cs, t.current, handle);
    }

    method PutLast(ghost t: Table, handle: Handle)
      requires Valid() && Represents(t) && handle.next == null && handle.owner == null
      modifies current, current.nodes, handle`owner
      ensures Valid() && Represents(t.(current := t.current + [Value(handle.job)]))
    {
      ghost var cs := current.nodes;
      current.AddLast(handle);
      ShowsAdd(cs, t.current, handle);
    }

    /** A new first entry of the list, to be announced at the next prompt. */
    method Enlist(ghost t: Table, job: JobRecord)
      requires Valid() && Represents(t)
      modifies current, pending, pending.nodes
      ensures Valid() && Represents(Relist(t, Value(job)))
    {
      PutFirst(t, job);
      Announce(t.(current := [Value(job)] + t.current), job);
    }

    /** `wait_for_fg_job` on a job that is in no list. */
    method WaitForFg(ghost t: Table, job: JobRecord, script: seq<Event>)
      requires Valid() && Represents(t) && Foreign(t, Value(job))
      requires job.size == job.unreaped >= 1 && WaitPossible(script, job.size, job.unreaped)
      modifies job, current, pending, pending.nodes
      ensures Valid() && Represents(Wait(t, old(Value(job)), script))
    {
      var relist := Await(t, job, script);
      if relist {
        Enlist(t, job);
      }
    }

    /** The wait itself leaves the listed jobs alone. */
    method Await(ghost t: Table, job: JobRecord, script: seq<Event>) returns (relist: bool)
      requires Represents(t) && Foreign(t, Value(job))
      requires job.size == job.unreaped >= 1 && WaitPossible(script, job.size, job.unreaped)
      modifies job
      ensures Represents(t) && relist == StopsFirst(script, old(job.size))
      ensures relist ==> Value(job) == old(Value(job)).(fg := false, stopped := true)
    {
      JobElsewhere(current.nodes, t.current, removed.nodes, t.removed, job);
      relist := AwaitGroup(job, script);
      if relist {
        job.fg, job.stopped := false, true;
      }
    }

    /** `launch_job` for a pipeline that was started. */
    method Launched(ghost t: Table, pgid: int, size: int, fg: bool, script: seq<Event>)
      requires Valid() && Represents(t) && Sound(t) && Possible(t, StepLaunch(pgid, size, fg, script))
      modifies current, pending, pending.nodes
      ensures Valid() && Represents(Launch(t, pgid, size, fg, script))
    {
      LaunchNew(t.(next := t.next + 1), t.next, pgid, size, fg, script);
    }

    method LaunchNew(ghost t: Table, ghost id: nat, pgid: int, size: int, fg: bool, script: seq<Event>)
      requires Valid() && Represents(t) && Foreign(t, Job(id, pgid, size, size, fg, false, false))
      requires size >= 1 && (fg ==> WaitPossible(script, size, size))
      modifies current, pending, pending.nodes
      ensures var j := Job(id, pgid, size, size, fg, false, false);
              Valid() && Represents(if fg then Wait(t, j, script) else Relist(t, j))
    {
      var job := new JobRecord(id, pgid, size, fg);
      if fg {
        WaitForFg(t, job, script);
      } else {
        Enlist(t, job);
      }
    }

    /** Walk to the handle with that index, counting from 1. */
    method Seek(index: int) returns (handle: Handle?, i: nat)
      requires Valid()
      ensures if 1 <= index <= |current.nodes| then i == index - 1 && handle == current.nodes[i]
              else handle == null && i == |current.nodes|
    {
      handle, i := current.head, 0;
      while handle != null && i + 1 != index
        invariant i <= |current.nodes| && handle == if i < |current.nodes| then current.nodes[i] else null
        invariant !(1 <= index <= i)
        decreases |current.nodes| - i
      {
        handle, i := handle.next, i + 1;
      }
    }

    /** `get_job_handle` behind its parsing: the handle at the index asked for, taken out of the
        list. */
    method GetJobHandle(ghost t: Table, index: Option<int>, ghost own: set<Handle>) returns (s: Selection, h: Handle?)
      requires Valid() && Represents(t) && Within(own) && Sound(t)
      modifies current, own
      ensures Valid() && Within(own) && s == JobTable.Select(index, |t.current|)
      ensures if s.At?
              then && h != null && h in own && h.next == null && h.owner == null
                   && Represents(Removing(t, s.k)) && Value(h.job) == t.current[s.k]
                   && Foreign(Removing(t, s.k), t.current[s.k]) && h.job.size == h.job.unreaped
              else Represents(t)
    {
      h := null;
      if index.None? {
        return BadSyntax, null;
      }
      var handle, i := Seek(index.value);
      if handle == null {
        return if i != index.value then NoSuchJob else NullHandle, null;
      }
      TakeForeign(t, i);
      var gone := TakeAt(t, handle, i, own);
      return At(i), gone;
    }

    /** The job at i, alone with its process group, leaves the list. */
    method TakeAt(ghost t: Table, handle: Handle, ghost i: nat, ghost own: set<Handle>) returns (h: Handle)
      requires Valid() && Represents(t) && Within(own) && Sound(t) && i < |current.nodes| && handle == current.nodes[i]
      modifies current, own
      ensures Valid() && Within(own) && h in own && h.next == null && h.owner == null
      ensures Represents(Removing(t, i)) && Value(h.job) == t.current[i]
    {
      OnlyMatch(current.nodes, t.current, i);
      h := Detach(t, handle.job.pgid, i);
    }

    /** `do_bg` */
    method DoBg(ghost t: Table, args: seq<string>, ghost own: set<Handle>) returns (s: Selection)
      requires Valid() && Represents(t) && Within(own) && Sound(t)
      modifies current, own, Jobs(own), pending, pending.nodes
      ensures Valid() && Represents(Bg(t, JobIndex(args))) && s == JobTable.Select(JobIndex(args), |t.current|)
    {
      ghost var t';
      s, t' := BgIndex(t, JobIndex(args), own);
    }

    method BgIndex(ghost t: Table, index: Option<int>, ghost own: set<Handle>) returns (s: Selection, ghost t': Table)
      requires Valid() && Represents(t) && Within(own) && Sound(t)
      modifies current, own, Jobs(own), pending, pending.nodes
      ensures Valid() && s == JobTable.Select(index, |t.current|) && Represents(t')
      ensures t' == if s.At? then Background(Removing(t, s.k), t.current[s.k]) else t
    {
      var h;
      s, h := GetJobHandle(t, index, own);
      t' := t;
      if s.At? {
        ToBackground(Removing(t, s.k), h);
        t' := Background(Removing(t, s.k), t.current[s.k]);
      }
    }

    /** Continue the job in the background, as the last of the list. */
    method ToBackground(ghost t: Table, h: Handle)
      requires Valid() && Represents(t) && h.next == null && h.owner == null
      requires Foreign(t, Value(h.job))
      modifies h`owner, h.job, current, current.nodes, pending, pending.nodes
      ensures Valid() && Represents(Background(t, old(Value(h.job))))
    {
      Continue(t, h.job, false);
      PutLast(t, h);
      Announce(t.(current := t.current + [Value(h.job)]), h.job);
    }

    /** The job is running again. */
    method Continue(ghost t: Table, job: JobRecord, fg: bool)
      requires Represents(t) && Foreign(t, Value(job))
      modifies job
      ensures Represents(t) && Value(job) == old(Value(job)).(stopped := false, fg := old(job.fg) || fg)
    {
      JobElsewhere(current.nodes, t.current, removed.nodes, t.removed, job);
      job.stopped := false;
      if fg {
        job.fg := true;
      }
    }

    /** `do_fg` */
    method DoFg(ghost t: Table, args: seq<string>, terminal: bool, script: seq<Event>, ghost own: set<Handle>)
      returns (s: Selection)
      requires Valid() && Represents(t) && Within(own) && Sound(t) && Possible(t, StepFg(args, terminal, script))
      modifies current, own, Jobs(own), pending, pending.nodes
      ensures Valid() && Represents(Fg(t, JobIndex(args), terminal, script))
      ensures s == JobTable.Select(JobIndex(args), |t.current|)
    {
      ghost var t';
      s, t' := FgIndex(t, JobIndex(args), terminal, script, own);
    }

    method FgIndex(ghost t: Table, index: Option<int>, terminal: bool, script: seq<Event>, ghost own: set<Handle>)
      returns (s: Selection, ghost t': Table)
      requires Valid() && Represents(t) && Within(own) && Sound(t)
      requires var s := JobTable.Select(index, |t.current|);
               s.At? && terminal ==> WaitPossible(script, t.current[s.k].size, t.current[s.k].unreaped)
      modifies current, own, Jobs(own), pending, pending.nodes
      ensures Valid() && s == JobTable.Select(index, |t.current|) && Represents(t')
      ensures t' == if s.At? then Foreground(Removing(t, s.k), t.current[s.k], terminal, script) else t
    {
      var h;
      s, h := GetJobHandle(t, index, own);
      t' := t;
      if s.At? {
        ToForeground(Removing(t, s.k), h, terminal, script);
        t' := Foreground(Removing(t, s.k), t.current[s.k], terminal, script);
      }
    }

    /** Wait for the job, or without the terminal put it at the end of the list. */
    method ToForeground(ghost t: Table, h: Handle, terminal: bool, script: seq<Event>)
      requires Valid() && Represents(t) && h.next == null && h.owner == null
      requires Foreign(t, Value(h.job)) && h.job.size == h.job.unreaped >= 1
      requires terminal ==> WaitPossible(script, h.job.size, h.job.unreaped)
      modifies h`owner, h.job, current, current.nodes, pending, pending.nodes
      ensures Valid() && Represents(Foreground(t, old(Value(h.job)), terminal, script))
    {
      if terminal {
        Continue(t, h.job, true);
        WaitForFg(t, h.job, script);
      } else {
        PutLast(t, h);
      }
    }

    /** `do_jobs` */
    method DoJobs(ghost t: Table) returns (lines: seq<Line>)
      requires Valid() && Represents(t)
      ensures lines == Listing(t)
    {
      lines := [];
      var handle, i := current.head, 1;
      while handle != null
        invariant 1 <= i <= |current.nodes| + 1
        invariant handle == if i - 1 < |current.nodes| then current.nodes[i - 1] else null
        invariant lines == Listing(t)[..i - 1]
        decreases |current.nodes| + 1 - i
      {
        assert Value(handle.job) == t.current[i - 1];
        lines := lines + [Line(i, handle.job.pgid, TextFor(handle.job.stopped, false))];
        handle, i := handle.next, i + 1;
      }
    }

    /** `print_pending_jobs`: what it prints about the jobs that ended, and whether it printed. */
    method PrintPending(ghost t: Table) returns (lines: seq<Line>, printed: bool)
      requires Valid() && Represents(t)
      modifies pending, pending.nodes, removed, removed.nodes
      ensures Valid() && Represents(Prompt(t))
      ensures lines == ReportsOf(t.removed) && (printed <==> t.pending != [] || t.removed != [])
    {
      printed := DropNotes(t);
      var more;
      lines, more := DropEnded(t.(pending := []));
      printed := printed || more;
    }

    method DropNotes(ghost t: Table) returns (printed: bool)
      requires Valid() && Represents(t)
      modifies pending, pending.nodes
      ensures Valid() && Represents(t.(pending := [])) && (printed <==> t.pending != [])
    {
      printed := PrintNotes(pending);
      assert Shows(current.nodes, t.current) && Shows(removed.nodes, t.removed);
    }

    method DropEnded(ghost t: Table) returns (lines: seq<Line>, printed: bool)
      requires Valid() && Represents(t)
      modifies removed, removed.nodes
      ensures Valid() && Represents(t.(removed := []))
      ensures lines == ReportsOf(t.removed) && (printed <==> t.removed != [])
    {
      lines, printed := PrintEnded(removed, t.removed);
      assert Shows(current.nodes, t.current);
    }

    method Relink(pgid: int, ghost p: nat)
      requires Valid() && p < |current.nodes| && First(current.nodes, pgid) == p
      modifies current, current.nodes, removed, removed.nodes
      ensures Valid() && pending.nodes == old(pending.nodes)
      ensures current.nodes == Drop(old(current.nodes), p)
      ensures removed.nodes == old(removed.nodes) + [old(current.nodes)[p]]
    {
      var gone := current.Remove(pgid);
      if gone != null {
        removed.AddLast(gone);
      }
    }
  }

  lemma ShowsDrop(hs: seq<Handle>, js: seq<Job>, p: nat)
    requires Shows(hs, js) && p < |hs|
    ensures Shows(Drop(hs, p), Without(js, p))
  {
  }

  /** A job the table lacks is not behind any handle of the lists. */
  lemma JobElsewhere(hs: seq<Handle>, js: seq<Job>, rs: seq<Handle>, gone: seq<Job>, job: JobRecord)
    requires Shows(hs, js) && Shows(rs, gone) && job.unreaped >= 1
    requires forall i :: 0 <= i < |js| ==> js[i].pgid != job.pgid
    requires forall i :: 0 <= i < |gone| ==> gone[i].unreaped == 0
    ensures forall i :: 0 <= i < |hs| ==> hs[i].job != job
    ensures forall i :: 0 <= i < |rs| ==> rs[i].job != job
  {
    assert forall i :: 0 <= i < |hs| ==> Value(hs[i].job).pgid == js[i].pgid;
    assert forall i :: 0 <= i < |rs| ==> Value(rs[i].job).unreaped == gone[i].unreaped;
  }

  lemma ShowsFirst(hs: seq<Handle>, js: seq<Job>, h: Handle)
    requires Shows(hs, js)
    ensures Shows([h] + hs, [Value(h.job)] + js)
  {
  }

  lemma ShowsAdd(hs: seq<Handle>, js: seq<Job>, h: Handle)
    requires Shows(hs, js)
    ensures Shows(hs + [h], js + [Value(h.job)])
  {
  }

  lemma OnlyMatch(hs: seq<Handle>, js: seq<Job>, p: nat)
    requires Shows(hs, js) && p < |js| && DistinctPgids(js) && forall i :: 0 <= i < |js| ==> js[i].pgid >= 1
    ensures First(hs, hs[p].job.pgid) == p
  {
    assert forall i :: 0 <= i < |hs| ==> Value(hs[i].job).pgid == js[i].pgid;
    FirstIs(hs, hs[p].job.pgid, p);
  }

  /** No other handle leads to the job at p. */
  lemma OtherJobs(hs: seq<Handle>, js: seq<Job>, rs: seq<Handle>, gone: seq<Job>, p: nat)
    requires Shows(hs, js) && Shows(rs, gone) && p < |js| && DistinctPgids(js) && js[p].unreaped >= 1
    requires forall i :: 0 <= i < |gone| ==> gone[i].unreaped == 0
    ensures forall i :: 0 <= i < |hs| && i != p ==> hs[i].job != hs[p].job
    ensures forall i :: 0 <= i < |rs| ==> rs[i].job != hs[p].job
  {
    assert forall i :: 0 <= i < |hs| ==> Value(hs[i].job).pgid == js[i].pgid;
    assert forall i :: 0 <= i < |rs| ==> Value(rs[i].job).unreaped == gone[i].unreaped;
    assert Value(hs[p].job) == js[p];
  }
}
