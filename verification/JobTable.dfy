/** The job lists of lsh as values: what each builtin, launch, signal handler run and prompt
    does to them. Each is one atomic step. */
module JobTable {
  import opened CStrings
  import opened Options

  /** A job. `size` is the shell's count of its processes; `unreaped` is the kernel's: the
      processes of group pgid that no waitpid has reported ended. */
  datatype Job = Job(id: nat, pgid: int, size: int, unreaped: int, fg: bool, stopped: bool, fallingApart: bool)

  /** What a waitpid reports about one process of the group. */
  datatype Event = Ended | Stopped

  /** The lists hold jobs in order; `pending` refers to jobs by id. `waited` are the jobs whose
      last process a foreground wait has reaped, `reported` the ids of the jobs announced as
      ended and destroyed, `next` the id of the next launch. */
  datatype Table = Table(current: seq<Job>, pending: seq<nat>, removed: seq<Job>,
                         waited: seq<Job>, reported: seq<nat>, next: nat)

  // ----- the handler -----

  function Take(j: Job, e: Event): Job {
    if e == Ended then j.(size := j.size - 1, unreaped := j.unreaped - 1, fallingApart := true)
    else j.(stopped := true)
  }

  function TakeAll(j: Job, script: seq<Event>): Job {
    if script == [] then j else Take(TakeAll(j, script[..|script| - 1]), script[|script| - 1])
  }

  /** Processes reported ended. */
  function Reaped(script: seq<Event>): nat {
    if script == [] then 0
    else Reaped(script[..|script| - 1]) + (if script[|script| - 1] == Ended then 1 else 0)
  }

  /** Each job of the list after its own events. */
  function TakeEach(js: seq<Job>, scripts: seq<seq<Event>>): (r: seq<Job>)
    requires |scripts| == |js|
    ensures |r| == |js| && forall i :: 0 <= i < |js| ==> r[i] == TakeAll(js[i], scripts[i])
  {
    seq(|js|, i requires 0 <= i < |js| => TakeAll(js[i], scripts[i]))
  }

  function Live(js: seq<Job>): seq<Job> {
    if js == [] then []
    else Live(js[..|js| - 1]) + (if js[|js| - 1].size != 0 then [js[|js| - 1]] else [])
  }

  function Finished(js: seq<Job>): seq<Job> {
    if js == [] then []
    else Finished(js[..|js| - 1]) + (if js[|js| - 1].size == 0 then [js[|js| - 1]] else [])
  }

  /** `handle_chld`: the listed jobs take their events; those without processes left move. */
  function Chld(t: Table, scripts: seq<seq<Event>>): Table
    requires |scripts| == |t.current|
  {
    var js := TakeEach(t.current, scripts);
    t.(current := Live(js), removed := t.removed + Finished(js))
  }

  // ----- foreground and background -----

  /** All events up to the size-th are stops. */
  predicate StopsFirst(script: seq<Event>, size: int) {
    |script| >= size && forall i :: 0 <= i < size ==> script[i] == Stopped
  }

  /** `wait_for_fg_job`: the job comes back stopped, or all its processes are reaped. */
  function Wait(t: Table, j: Job, script: seq<Event>): Table {
    if StopsFirst(script, j.size) then Relist(t, j.(fg := false, stopped := true))
    else t.(waited := t.waited + [j.(unreaped := 0)])
  }

  function Relist(t: Table, j: Job): Table {
    t.(current := [j] + t.current, pending := t.pending + [j.id])
  }

  function NewJob(t: Table, pgid: int, size: int, fg: bool): Job {
    Job(t.next, pgid, size, size, fg, false, false)
  }

  /** `launch_job` behind a successful start of `size` processes in group pgid. */
  function Launch(t: Table, pgid: int, size: int, fg: bool, script: seq<Event>): Table {
    var j := NewJob(t, pgid, size, fg);
    var t' := t.(next := t.next + 1);
    if fg then Wait(t', j, script) else Relist(t', j)
  }

  /** What the arguments of fg and bg select: a position in the list, or one of the ways
      `get_job_handle` fails. Index 0 on the empty list dereferences a null handle. */
  datatype Selection = BadSyntax | NoSuchJob | NullHandle | At(k: nat)

  /** The index an argument list asks for; args[0] is the builtin's own name. */
  function JobIndex(args: seq<string>): Option<int> {
    if |args| > 2 then None else if |args| == 2 then WholeNumber(args[1]) else Some(1)
  }

  function Select(index: Option<int>, count: nat): (s: Selection)
    ensures s.At? ==> s.k < count && index == Some(s.k + 1)
  {
    if index.None? then BadSyntax
    else if 1 <= index.value <= count then At(index.value - 1)
    else if index.value == 0 && count == 0 then NullHandle
    else NoSuchJob
  }

  function Without(js: seq<Job>, k: nat): seq<Job>
    requires k < |js|
  {
    js[..k] + js[k + 1..]
  }

  /** t without the job at position k. */
  function Removing(t: Table, k: nat): Table
    requires k < |t.current|
  {
    t.(current := Without(t.current, k))
  }

  /** The job is continued, becomes the last of the list and will be announced. */
  function Background(t: Table, j: Job): Table {
    t.(current := t.current + [j.(stopped := false)], pending := t.pending + [j.id])
  }

  /** The job is continued and waited for; without the terminal it only becomes the last. */
  function Foreground(t: Table, j: Job, terminal: bool, script: seq<Event>): Table {
    if terminal then Wait(t, j.(stopped := false, fg := true), script) else t.(current := t.current + [j])
  }

  /** `do_bg` */
  function Bg(t: Table, index: Option<int>): Table {
    match Select(index, |t.current|)
    case At(k) => Background(Removing(t, k), t.current[k])
    case _ => t
  }

  /** `do_fg` */
  function Fg(t: Table, index: Option<int>, terminal: bool, script: seq<Event>): Table {
    match Select(index, |t.current|)
    case At(k) => Foreground(Removing(t, k), t.current[k], terminal, script)
    case _ => t
  }

  // ----- the prompt -----

  function Ids(js: seq<Job>): (r: seq<nat>)
    ensures |r| == |js| && forall i :: 0 <= i < |js| ==> r[i] == js[i].id
  {
    seq(|js|, i requires 0 <= i < |js| => js[i].id)
  }

  datatype Text = TextStopped | TextDone | TextRunning

  /** The state `print_job` prints. */
  function TextFor(stopped: bool, ended: bool): Text {
    if stopped then TextStopped else if ended then TextDone else TextRunning
  }

  function TextOf(j: Job, ended: bool): Text { TextFor(j.stopped, ended) }

  /** An index of 0 is not printed. */
  datatype Line = Line(index: nat, pgid: int, text: Text)

  /** `do_jobs`: the list, numbered from 1. */
  function Listing(t: Table): (r: seq<Line>)
    ensures |r| == |t.current|
  {
    seq(|t.current|, i requires 0 <= i < |t.current| => Line(i + 1, t.current[i].pgid, TextOf(t.current[i], false)))
  }

  /** What the prompt prints of the jobs that ended. */
  function ReportsOf(js: seq<Job>): (r: seq<Line>)
    ensures |r| == |js|
  {
    seq(|js|, i requires 0 <= i < |js| => Line(0, js[i].pgid, TextOf(js[i], true)))
  }

  /** `print_pending_jobs`: announce, then report and destroy. */
  function Prompt(t: Table): Table {
    t.(pending := [], removed := [], reported := t.reported + Ids(t.removed))
  }

  // ----- runs -----

  datatype Step =
    | StepLaunch(pgid: int, size: int, fg: bool, script: seq<Event>)
    | StepFg(args: seq<string>, terminal: bool, script: seq<Event>)
    | StepBg(args: seq<string>)
    | StepChld(scripts: seq<seq<Event>>)
    | StepPrompt

  /** The events a foreground wait can see: it ends with a stop of every process or when all
      the processes are reaped. */
  predicate WaitPossible(script: seq<Event>, size: int, unreaped: int) {
    StopsFirst(script, size) || Reaped(script) == unreaped
  }

  /** What the kernel allows: a group's processes end once each, and a new group does not get
      the id of a group that still has processes. */
  predicate Possible(t: Table, step: Step) {
    match step
    case StepLaunch(pgid, size, fg, script) =>
      && pgid >= 1 && size >= 1
      && (forall i :: 0 <= i < |t.current| && t.current[i].unreaped > 0 ==> t.current[i].pgid != pgid)
      && (fg ==> WaitPossible(script, size, size))
    case StepFg(args, terminal, script) =>
      var s := Select(JobIndex(args), |t.current|);
      s.At? && terminal ==> WaitPossible(script, t.current[s.k].size, t.current[s.k].unreaped)
    case StepBg(_) => true
    case StepChld(scripts) =>
      |scripts| == |t.current| && forall i :: 0 <= i < |scripts| ==> Reaped(scripts[i]) <= t.current[i].unreaped
    case StepPrompt => true
  }

  function Apply(t: Table, step: Step): Table
    requires Possible(t, step)
  {
    match step
    case StepLaunch(pgid, size, fg, script) => Launch(t, pgid, size, fg, script)
    case StepFg(args, terminal, script) => Fg(t, JobIndex(args), terminal, script)
    case StepBg(args) => Bg(t, JobIndex(args))
    case StepChld(scripts) => Chld(t, scripts)
    case StepPrompt => Prompt(t)
  }

  const START := Table([], [], [], [], [], 0)

  ghost predicate Next(t: Table, t': Table) {
    exists step :: Possible(t, step) && t' == Apply(t, step)
  }

  ghost predicate IsRun(run: seq<Table>) {
    && |run| >= 1 && run[0] == START
    && forall i :: 0 <= i < |run| - 1 ==> Next(run[i], run[i + 1])
  }
}
