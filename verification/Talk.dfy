/** What the minitalk server does, told in terms of connections, which are never reused, instead
    of descriptor numbers, which are. */
module Talk {
  import opened CStrings
  import opened Options

  const USERS := 16

  datatype Target = NoTarget | Awaiting | To(conn: nat)

  datatype Slot = Free | Used(conn: nat, name: Option<string>, target: Target)

  /** One line from a connection: `Closed` for end of file or an error. */
  datatype Input = Closed | Text(line: string)

  datatype Event =
    | Selected(who: nat, conn: nat)
    | Sent(who: nat, conn: nat, text: string)
    | Left(conn: nat)

  predicate Table(ts: seq<Slot>) { |ts| == USERS }

  predicate Named(s: Slot) { s.Used? && s.name.Some? }

  /** The first free slot, or the number of slots. */
  function FirstFree(ts: seq<Slot>): (k: nat)
    ensures k <= |ts| && (forall i :: 0 <= i < k ==> ts[i] != Free) && (k < |ts| ==> ts[k] == Free)
  {
    if ts == [] || ts[0] == Free then 0 else 1 + FirstFree(ts[1..])
  }

  /** A new connection takes the first free slot; on a full table it gets none. */
  function Accept(ts: seq<Slot>, conn: nat): seq<Slot> {
    var k := FirstFree(ts);
    if k < |ts| then ts[k := Used(conn, None, NoTarget)] else ts
  }

  /** The connection of slot i leaves and nobody talks to it any more. */
  function Remove(ts: seq<Slot>, i: nat): (r: seq<Slot>)
    requires i < |ts| && ts[i].Used?
    ensures |r| == |ts|
  {
    seq(|ts|, k requires 0 <= k < |ts| =>
      if k == i then Free
      else if ts[k].Used? && ts[k].target == To(ts[i].conn) then ts[k].(target := NoTarget)
      else ts[k])
  }

  /** Before waiting: named users without a target are asked for one. */
  function Prepare(ts: seq<Slot>): (r: seq<Slot>)
    ensures |r| == |ts|
  {
    seq(|ts|, k requires 0 <= k < |ts| =>
      if Named(ts[k]) && ts[k].target == NoTarget then ts[k].(target := Awaiting) else ts[k])
  }

  // ----- lines -----

  /** A buffer read as a C string. */
  function UpToNul(s: string): string {
    if s == "" || s[0] == NUL then "" else [s[0]] + UpToNul(s[1..])
  }

  /** A line without its last character, which is taken for the newline. */
  function Chopped(line: string): string
    requires line != ""
  {
    UpToNul(line[..|line| - 1])
  }

  /** The slot a line selects; an empty one selects slot 0. */
  function Choice(s: string): Option<int> {
    if s == "" then Some(0) else WholeNumber(s)
  }

  /** What a read can return. */
  predicate Readable(input: Input) { input.Text? ==> 1 <= |input.line| <= 255 }

  // ----- one user's turn after select -----

  datatype Outcome = Outcome(table: seq<Slot>, log: seq<Event>)

  function Leave(ts: seq<Slot>, i: nat): Outcome
    requires i < |ts| && ts[i].Used?
  {
    Outcome(Remove(ts, i), [Left(ts[i].conn)])
  }

  function Choose(ts: seq<Slot>, i: nat, choice: Option<int>): Outcome
    requires Table(ts) && i < |ts| && ts[i].Used?
  {
    if choice.Some? && 0 <= choice.value < USERS && Named(ts[choice.value])
    then Outcome(ts[i := ts[i].(target := To(ts[choice.value].conn))], [Selected(ts[i].conn, ts[choice.value].conn)])
    else Leave(ts, i)
  }

  /** The turn of a user whose connection is readable; `canWrite` tells whether its target is
      ready for a message. */
  function Turn(ts: seq<Slot>, i: nat, canWrite: bool, input: Input): Outcome
    requires Table(ts) && i < |ts| && Readable(input)
  {
    if ts[i] == Free then Outcome(ts, [])
    else if ts[i].name.None? then
      if input.Closed? then Leave(ts, i) else Outcome(ts[i := ts[i].(name := Some(Chopped(input.line)))], [])
    else match ts[i].target
      case NoTarget => Outcome(ts, [])
      case Awaiting => if input.Closed? then Leave(ts, i) else Choose(ts, i, Choice(Chopped(input.line)))
      case To(c) =>
        if !canWrite then Outcome(ts, [])
        else if input.Closed? then Leave(ts, i)
        else Outcome(ts, [Sent(ts[i].conn, c, input.line)])
  }

  /** A message takes away the readiness of its target. */
  function StillWritable(writable: set<nat>, log: seq<Event>): set<nat> {
    if |log| == 1 && log[0].Sent? then writable - {log[0].conn} else writable
  }

  function CanWrite(ts: seq<Slot>, i: nat, writable: set<nat>): bool
    requires i < |ts|
  {
    ts[i].Used? && ts[i].target.To? && ts[i].target.conn in writable
  }

  /** The turns of the slots from i on; readable[i] tells whether slot i's connection was. */
  function Round(ts: seq<Slot>, i: nat, readable: seq<bool>, inputs: seq<Input>, writable: set<nat>): Outcome
    requires Table(ts) && i <= USERS == |readable| == |inputs|
    requires forall k :: 0 <= k < |inputs| ==> Readable(inputs[k])
    decreases USERS - i
  {
    if i == USERS then Outcome(ts, [])
    else if !readable[i] then Round(ts, i + 1, readable, inputs, writable)
    else
      var o := Turn(ts, i, CanWrite(ts, i, writable), inputs[i]);
      var rest := Round(o.table, i + 1, readable, inputs, StillWritable(writable, o.log));
      Outcome(rest.table, o.log + rest.log)
  }

  // ----- runs -----

  datatype Step = StepAccept(conn: nat) | StepPrepare | StepTurn(i: nat, canWrite: bool, input: Input)

  datatype World = World(table: seq<Slot>, log: seq<Event>)

  /** A new connection is not one of those in the table. */
  predicate Possible(w: World, step: Step) {
    match step
    case StepAccept(c) => forall i :: 0 <= i < |w.table| && w.table[i].Used? ==> w.table[i].conn != c
    case StepPrepare => true
    case StepTurn(i, canWrite, input) => i < |w.table| && Readable(input)
  }

  function Apply(w: World, step: Step): World
    requires Table(w.table) && Possible(w, step)
  {
    match step
    case StepAccept(c) => w.(table := Accept(w.table, c))
    case StepPrepare => w.(table := Prepare(w.table))
    case StepTurn(i, canWrite, input) =>
      var o := Turn(w.table, i, canWrite, input);
      World(o.table, w.log + o.log)
  }

  ghost predicate Next(w: World, w': World) {
    Table(w.table) && exists step :: Possible(w, step) && w' == Apply(w, step)
  }

  function Start(): World { World(seq(USERS, _ => Free), []) }

  ghost predicate IsRun(run: seq<World>) {
    |run| >= 1 && run[0] == Start() && forall i :: 0 <= i < |run| - 1 ==> Next(run[i], run[i + 1])
  }

  // ----- what holds in every run -----

  /** Connections are distinct, only named users have targets, and each target is a named user. */
  predicate Consistent(ts: seq<Slot>) {
    && Table(ts)
    && (forall i, k :: 0 <= i < k < |ts| && ts[i].Used? && ts[k].Used? ==> ts[i].conn != ts[k].conn)
    && (forall i :: 0 <= i < |ts| && ts[i].Used? && ts[i].name.None? ==> ts[i].target == NoTarget)
    && (forall i :: 0 <= i < |ts| && ts[i].Used? && ts[i].target.To? ==> Known(ts, ts[i].target.conn))
  }

  predicate Known(ts: seq<Slot>, conn: nat) {
    exists k :: 0 <= k < |ts| && Named(ts[k]) && ts[k].conn == conn
  }

  /** The log says that a selected b, and since then neither has left nor a selected again. */
  ghost predicate Holds(log: seq<Event>, a: nat, b: nat) {
    exists i :: 0 <= i < |log| && log[i] == Selected(a, b) && Undisturbed(log, i + 1, a, b)
  }

  predicate Undisturbed(log: seq<Event>, from: nat, a: nat, b: nat) {
    forall k :: from <= k < |log| ==>
      log[k] != Left(a) && log[k] != Left(b) && !(log[k].Selected? && log[k].who == a)
  }

  ghost predicate Good(w: World) {
    && Consistent(w.table)
    && forall i :: 0 <= i < |w.table| && w.table[i].Used? && w.table[i].target.To? ==>
         Holds(w.log, w.table[i].conn, w.table[i].target.conn)
  }

  lemma HoldsLonger(log: seq<Event>, more: seq<Event>, a: nat, b: nat)
    requires Holds(log, a, b) && Undisturbed(more, 0, a, b)
    ensures Holds(log + more, a, b)
  {
    var i :| 0 <= i < |log| && log[i] == Selected(a, b) && Undisturbed(log, i + 1, a, b);
    assert (log + more)[i] == Selected(a, b);
    forall k | i + 1 <= k < |log + more|
      ensures (log + more)[k] == if k < |log| then log[k] else more[k - |log|]
    {
    }
    assert Undisturbed(log + more, i + 1, a, b);
  }

  lemma AcceptGood(w: World, c: nat)
    requires Good(w) && Possible(w, StepAccept(c))
    ensures Good(Apply(w, StepAccept(c)))
  {
    var k := FirstFree(w.table);
    if k < |w.table| {
      var ts := Accept(w.table, c);
      forall conn | Known(w.table, conn) ensures Known(ts, conn) {
        var n :| 0 <= n < |w.table| && Named(w.table[n]) && w.table[n].conn == conn;
        assert Named(ts[n]);
      }
    }
  }

  lemma PrepareGood(w: World)
    requires Good(w)
    ensures Good(Apply(w, StepPrepare))
  {
    var ts := Prepare(w.table);
    forall conn | Known(w.table, conn) ensures Known(ts, conn) {
      var n :| 0 <= n < |w.table| && Named(w.table[n]) && w.table[n].conn == conn;
      assert Named(ts[n]);
    }
  }

  lemma RemoveConsistent(ts: seq<Slot>, i: nat)
    requires Consistent(ts) && i < |ts| && ts[i].Used?
    ensures Consistent(Remove(ts, i))
  {
    var r := Remove(ts, i);
    forall k | 0 <= k < |r| && r[k].Used? && r[k].target.To? ensures Known(r, r[k].target.conn) {
      var n :| 0 <= n < |ts| && Named(ts[n]) && ts[n].conn == ts[k].target.conn;
      assert Named(r[n]);
    }
  }

  lemma LeaveGood(w: World, i: nat)
    requires Good(w) && i < |w.table| && w.table[i].Used?
    ensures var o := Leave(w.table, i); Good(World(o.table, w.log + o.log))
  {
    RemoveConsistent(w.table, i);
    var o := Leave(w.table, i);
    forall k | 0 <= k < |o.table| && o.table[k].Used? && o.table[k].target.To?
      ensures Holds(w.log + o.log, o.table[k].conn, o.table[k].target.conn)
    {
      HoldsLonger(w.log, o.log, w.table[k].conn, w.table[k].target.conn);
    }
  }

  lemma SelectGood(w: World, i: nat, n: nat)
    requires Good(w) && i < |w.table| && n < |w.table| && Named(w.table[i]) && Named(w.table[n])
    ensures var b := w.table[n].conn; var a := w.table[i].conn;
            Good(World(w.table[i := w.table[i].(target := To(b))], w.log + [Selected(a, b)]))
  {
    var a, b := w.table[i].conn, w.table[n].conn;
    var ts, log := w.table[i := w.table[i].(target := To(b))], w.log + [Selected(a, b)];
    forall conn | Known(w.table, conn) ensures Known(ts, conn) {
      var m :| 0 <= m < |w.table| && Named(w.table[m]) && w.table[m].conn == conn;
      assert Named(ts[m]);
    }
    assert Known(w.table, b);
    forall k | 0 <= k < |ts| && ts[k].Used? && ts[k].target.To? ensures Holds(log, ts[k].conn, ts[k].target.conn) {
      if k == i {
        assert log[|w.log|] == Selected(a, b) && Undisturbed(log, |w.log| + 1, a, b);
      } else {
        HoldsLonger(w.log, [Selected(a, b)], ts[k].conn, ts[k].target.conn);
      }
    }
  }

  lemma NameGood(w: World, i: nat, name: string)
    requires Good(w) && i < |w.table| && w.table[i].Used?
    ensures Good(w.(table := w.table[i := w.table[i].(name := Some(name))]))
  {
    var ts := w.table[i := w.table[i].(name := Some(name))];
    forall conn | Known(w.table, conn) ensures Known(ts, conn) {
      var m :| 0 <= m < |w.table| && Named(w.table[m]) && w.table[m].conn == conn;
      assert Named(ts[m]);
    }
  }

  lemma SentGood(w: World, e: Event)
    requires Good(w) && e.Sent?
    ensures Good(w.(log := w.log + [e]))
  {
    forall k | 0 <= k < |w.table| && w.table[k].Used? && w.table[k].target.To?
      ensures Holds(w.log + [e], w.table[k].conn, w.table[k].target.conn)
    {
      HoldsLonger(w.log, [e], w.table[k].conn, w.table[k].target.conn);
    }
  }

  lemma TurnGood(w: World, i: nat, canWrite: bool, input: Input)
    requires Good(w) && Possible(w, StepTurn(i, canWrite, input))
    ensures Good(Apply(w, StepTurn(i, canWrite, input)))
  {
    var o := Turn(w.table, i, canWrite, input);
    assert w.log + [] == w.log;
    if o.log != [] && o.log[0].Left? {
      LeaveGood(w, i);
    } else if o.log != [] && o.log[0].Selected? {
      var choice := Choice(Chopped(input.line));
      SelectGood(w, i, choice.value);
    } else if o.log != [] {
      SentGood(w, o.log[0]);
    } else if w.table[i].Used? && w.table[i].name.None? {
      NameGood(w, i, Chopped(input.line));
    }
  }

  /** A whole round of turns keeps this too. */
  lemma {:induction false} RoundGood(w: World, i: nat, readable: seq<bool>, inputs: seq<Input>, writable: set<nat>)
    requires Good(w) && i <= USERS == |readable| == |inputs|
    requires forall k :: 0 <= k < |inputs| ==> Readable(inputs[k])
    ensures var o := Round(w.table, i, readable, inputs, writable); Good(World(o.table, w.log + o.log))
    decreases USERS - i
  {
    if i == USERS {
      assert w.log + [] == w.log;
    } else if !readable[i] {
      RoundGood(w, i + 1, readable, inputs, writable);
    } else {
      var canWrite := CanWrite(w.table, i, writable);
      var o := Turn(w.table, i, canWrite, inputs[i]);
      TurnGood(w, i, canWrite, inputs[i]);
      var left := StillWritable(writable, o.log);
      RoundGood(World(o.table, w.log + o.log), i + 1, readable, inputs, left);
      var rest := Round(o.table, i + 1, readable, inputs, left);
      assert (w.log + o.log) + rest.log == w.log + (o.log + rest.log);
    }
  }

  /** In every run the table is consistent and each target is the connection last selected. */
  lemma {:induction false} RunGood(run: seq<World>)
    requires IsRun(run)
    ensures Good(run[|run| - 1])
    decreases |run|
  {
    if |run| > 1 {
      var i := |run| - 2;
      RunGood(run[..|run| - 1]);
      assert Next(run[i], run[i + 1]);
      var step :| Possible(run[i], step) && run[i + 1] == Apply(run[i], step);
      match step
      case StepAccept(c) => AcceptGood(run[i], c);
      case StepPrepare => PrepareGood(run[i]);
      case StepTurn(n, canWrite, input) => TurnGood(run[i], n, canWrite, input);
    }
  }

  /** A message sent in any run goes to the connection its sender selected last, and neither of
      them has left since. */
  lemma SentToSelected(run: seq<World>, i: nat, canWrite: bool, input: Input, e: Event)
    requires IsRun(run) && Possible(run[|run| - 1], StepTurn(i, canWrite, input))
    requires Table(run[|run| - 1].table) && e.Sent? && e in Turn(run[|run| - 1].table, i, canWrite, input).log
    ensures Holds(run[|run| - 1].log, e.who, e.conn)
    ensures e.text == input.line && run[|run| - 1].table[i].conn == e.who && Known(run[|run| - 1].table, e.conn)
  {
    RunGood(run);
  }
}
