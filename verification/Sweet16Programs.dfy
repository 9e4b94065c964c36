/** What Sweet16 programs can rely on: comparisons, stack round trips and subroutine calls. */
module Sweet16Programs {
  import opened Bytes
  import opened Options
  import opened Sweet16Isa
  import opened Sweet16Words

  // ----- the prior result -----

  /** The prior-result byte names one of the sixteen registers. */
  predicate NamesRegister(s: State) { Hi(s.r[STATUS]) <= 31 }

  lemma PriorWordIsRegister(s: State)
    requires NamesRegister(s)
    ensures Prior(s) < 16 && PriorWord(s) == s.r[Prior(s)]
  {
    var k: RegIndex := Prior(s);
    ReadRegister(s, k);
    SplitWord(s.r[k]);
  }

  lemma SetPriorParts(s: State, k: RegIndex, carry: bool)
    ensures var t := SetPrior(s, k, carry); NamesRegister(t) && Prior(t) == k && Carry(t) == carry
  {
    WordParts(Lo(s.r[STATUS]), 2 * k + if carry then 1 else 0);
  }

  /** What an operation on Rx leaves in the prior-result byte that is no register index: only
      SET R14, ST R14 and the second byte of STD store there last. */
  predicate Spoils(s: State, op: nat, x: RegIndex) {
    match op
    case 1 => x == STATUS && Read(s, Plus(s.r[PC], 2)) > 31
    case 3 => x == STATUS && Hi(s.r[0]) > 31
    case 7 => var t := Push(s, x, Lo(s.r[0])); t.r[x] == 2 * STATUS + 1 && Hi(t.r[0]) > 31
    case _ => false
  }

  /** The instruction about to run leaves a register index in the prior-result byte. */
  predicate Polite(s: State) {
    var t := Add(s, PC, 1);
    var opcode: int := Read(t, t.r[PC]);
    opcode >= 16 ==> !Spoils(SetPrior(t, opcode % 16, false), opcode / 16, opcode % 16)
  }

  /** One step up or down from a small prior-result byte. */
  lemma Nudged(w: word)
    requires Hi(w) <= 30
    ensures Hi(Plus(w, 1)) <= Hi(w) + 1 && (Hi(w) > 0 ==> Hi(Plus(w, -1)) <= Hi(w))
  {
    SplitWord(w);
    SplitWord(Plus(w, 1));
    SplitWord(Plus(w, -1));
  }

  /** Every other operation ends with a prior result of its own, at most one step moved. */
  lemma OrdinaryOperation(s: State, op: nat, x: RegIndex)
    requires 1 <= op < 16 && op != 1 && op != 3 && op != 7 && Hi(s.r[STATUS]) == 2 * x
    ensures NamesRegister(RegisterOp(s, op, x))
  {
    var d := Add(s, x, -1);
    Nudged(s.r[STATUS]);
    match op
    case 4 => LoadIndPrior(s, x);
    case 6 => LoadIndPrior(s, x); Nudged(LoadInd(s, x).r[STATUS]);
    case 5 => PushPrior(s, x, Lo(s.r[0]));
    case 8 => SetPriorParts(SetReg(d, 0, Read(d, d.r[x])), 0, false);
    case 9 => SetPriorParts(Write(d, d.r[x], Lo(d.r[0])), 0, false);
    case 10 => SetPriorParts(SetReg(s, 0, AddReg(s, x).r[0]), 0, s.r[0] as int + s.r[x] as int >= 0x1_0000);
    case 11 => SetPriorParts(SetReg(s, 0, Plus(s.r[0], -(s.r[x] as int))), 0, s.r[0] >= s.r[x]);
    case 12 =>
      var u := Add(d, x, -1);
      SetPriorParts(SetReg(u, 0, Word(Read(u, u.r[x]), Read(d, d.r[x]))), 0, false);
    case 13 => SetPriorParts(SetReg(s, 13, Plus(s.r[0], -(s.r[x] as int))), 13, s.r[0] >= s.r[x]);
    case _ =>
  }

  lemma LoadIndPrior(s: State, x: RegIndex)
    ensures Hi(LoadInd(s, x).r[STATUS]) <= 1
  {
    var t := SetPrior(SetReg(s, 0, Read(s, s.r[x])), 0, false);
    WordParts(Lo(s.r[STATUS]), 0);
    Nudged(t.r[STATUS]);
  }

  lemma PushPrior(s: State, x: RegIndex, b: byte)
    ensures Hi(Push(s, x, b).r[STATUS]) <= 1
  {
    var t := Write(s, s.r[x], b);
    WordParts(Lo(t.r[STATUS]), 0);
    Nudged(SetPrior(t, 0, false).r[STATUS]);
  }

  lemma SetPriorResult(s: State)
    ensures NamesRegister(Set(s, STATUS)) <==> Read(s, Plus(s.r[PC], 2)) <= 31
  {
    var b := Read(s, Plus(s.r[PC], 2));
    var t := SetReg(s, STATUS, Word(Lo(s.r[STATUS]), b));
    WordParts(Lo(s.r[STATUS]), b);
    WordParts(Read(t, Plus(t.r[PC], 1)), b);
  }

  lemma StoreSecond(t: State, x: RegIndex)
    requires Hi(t.r[STATUS]) <= 1
    ensures var u := Add(Write(t, t.r[x], Hi(t.r[0])), x, 1);
            NamesRegister(u) <==> !(t.r[x] == 2 * STATUS + 1 && Hi(t.r[0]) > 31)
  {
    var v := Write(t, t.r[x], Hi(t.r[0]));
    WordParts(Lo(t.r[STATUS]), Hi(t.r[0]));
    WordParts(Hi(t.r[0]), Hi(t.r[STATUS]));
    SplitWord(t.r[STATUS]);
    SplitWord(v.r[STATUS]);
    SplitWord(Plus(v.r[STATUS], 1));
  }

  lemma PoliteOperation(s: State, op: nat, x: RegIndex)
    requires 1 <= op < 16 && Hi(s.r[STATUS]) == 2 * x
    ensures NamesRegister(RegisterOp(s, op, x)) <==> !Spoils(s, op, x)
  {
    if op == 1 {
      if x == STATUS {
        SetPriorResult(s);
      }
    } else if op == 7 {
      PushPrior(s, x, Lo(s.r[0]));
      StoreSecond(Push(s, x, Lo(s.r[0])), x);
    } else if op != 3 {
      OrdinaryOperation(s, op, x);
    }
  }

  lemma PoliteBranch(s: State, op: nat)
    requires NamesRegister(s) && op < 16
    ensures NamesRegister(NonRegisterOp(s, op).s)
  {
    if op == 12 {
      var t := Push(s, SP, Lo(s.r[PC]));
      PushPrior(t, SP, Hi(t.r[PC]));
    }
  }

  /** A step leaves a register index in the prior-result byte exactly when it is polite. */
  lemma PoliteStep(s: State)
    requires NamesRegister(s)
    ensures NamesRegister(Step(s).s) <==> Polite(s)
  {
    var t := Add(s, PC, 1);
    var opcode: int := Read(t, t.r[PC]);
    if opcode >= 16 {
      WordParts(Lo(t.r[STATUS]), 2 * (opcode % 16));
      PoliteOperation(SetPrior(t, opcode % 16, false), opcode / 16, opcode % 16);
    } else {
      PoliteBranch(Add(t, PC, 1), opcode);
    }
  }

  /** Every instruction of the first n is polite. */
  predicate PoliteRun(s: State, n: nat)
    decreases n
  {
    n == 0 || (Polite(s) && (Step(s).Next? ==> PoliteRun(Step(s).s, n - 1)))
  }

  /** The states of the first n steps all name a register. */
  ghost predicate PriorAlways(s: State, n: nat) {
    forall k: nat :: k <= n ==> NamesRegister(Run(s, k).s)
  }

  lemma RunAfterStep(s: State, k: nat)
    requires Step(s).Next?
    ensures Run(s, k + 1) == Run(Step(s).s, k)
  {
  }

  lemma RunStopped(s: State, k: nat)
    requires !Step(s).Next? && k > 0
    ensures Run(s, k) == Step(s)
  {
  }

  /** Over a run of n steps the prior-result byte is always at most 31 if and only if every
      instruction of it is polite. */
  lemma {:induction false} PriorInEveryRun(s: State, n: nat)
    requires NamesRegister(s)
    ensures PriorAlways(s, n) <==> PoliteRun(s, n)
    decreases n
  {
    if n > 0 {
      var o := Step(s);
      PoliteStep(s);
      RunOfOne(s);
      if o.Next? {
        forall k: nat ensures Run(s, k + 1) == Run(o.s, k) {
          RunAfterStep(s, k);
        }
        if Polite(s) {
          PriorInEveryRun(o.s, n - 1);
        }
        PriorShift(s, o.s, n);
      } else {
        forall k: nat | k > 0 ensures Run(s, k) == o {
          RunStopped(s, k);
        }
      }
    }
  }

  lemma RunOfOne(s: State)
    ensures Run(s, 1) == Step(s) && Run(s, 0) == Next(s)
  {
    if Step(s).Next? {
      RunAfterStep(s, 0);
    }
  }

  lemma PriorShift(s: State, t: State, n: nat)
    requires n > 0 && NamesRegister(s) && Run(s, 0) == Next(s)
    requires forall k: nat :: Run(s, k + 1) == Run(t, k)
    ensures PriorAlways(s, n) <==> PriorAlways(t, n - 1)
  {
    if PriorAlways(t, n - 1) {
      forall k: nat | k <= n ensures NamesRegister(Run(s, k).s) {
        if k > 0 {
          assert NamesRegister(Run(t, k - 1).s);
        }
      }
    }
    if PriorAlways(s, n) {
      forall k: nat | k <= n - 1 ensures NamesRegister(Run(t, k).s) {
        assert NamesRegister(Run(s, k + 1).s);
      }
    }
  }

  /** So in a polite run each conditional branch tests the register the byte names. */
  lemma BranchesTestRegister(s: State, n: nat)
    requires NamesRegister(s) && PoliteRun(s, n)
    ensures var t := Run(s, n).s; Prior(t) < 16 && PriorWord(t) == t.r[Prior(t)]
  {
    PriorInEveryRun(s, n);
    PriorWordIsRegister(Run(s, n).s);
  }

  /** A program that spoils it: SET R14,$FF00. */
  lemma SetSpoils()
    ensures var ram := seq(RAM_SIZE, i => if i == 1 then 0x1E else if i == 3 then 0xFF else 0);
            var s := Machine(seq(16, i => if i == 15 then 32 else 0), ram);
            NamesRegister(s) && !Polite(s)
  {
  }

  lemma SubtractOrders(s: State, x: RegIndex, d: RegIndex)
    requires d != STATUS
    ensures var t := Subtract(s, x, d);
            && NamesRegister(t) && Prior(t) == d
            && (PriorWord(t) == 0 <==> s.r[0] == s.r[x])
            && (Carry(t) <==> s.r[0] >= s.r[x])
  {
    var v := Plus(s.r[0], -(s.r[x] as int));
    PriorAfter(SetReg(s, d, v), d, s.r[0] >= s.r[x]);
  }

  /** CPR leaves a prior result that orders R0 and Rx: zero iff they are equal, with the carry
      set iff R0 is not below Rx. Comparing R13, the result register, is included. */
  lemma CompareOrders(s: State, x: RegIndex)
    requires x != STATUS
    ensures var t := RegisterOp(SetPrior(s, x, false), 13, x);
            && NamesRegister(t) && Prior(t) == 13
            && (PriorWord(t) == 0 <==> s.r[0] == s.r[x])
            && (Carry(t) <==> s.r[0] >= s.r[x])
  {
    SubtractOrders(SetPrior(s, x, false), x, 13);
  }

  lemma PriorAfter(s: State, k: RegIndex, carry: bool)
    requires k != STATUS
    ensures var t := SetPrior(s, k, carry);
            NamesRegister(t) && Prior(t) == k && Carry(t) == carry && PriorWord(t) == s.r[k]
  {
    SetPriorParts(s, k, carry);
    PriorWordIsRegister(SetPrior(s, k, carry));
  }

  // ----- stores undone by loads -----

  predicate Pointer(x: RegIndex) { x != 0 && x < 14 }

  /** ST @Rx then POP @Rx gives back the low byte of R0 and the pointer. */
  lemma PushThenPop(s: State, x: RegIndex)
    requires Pointer(x) && s.r[x] >= 32
    ensures var t := Pop(Push(s, x, Lo(s.r[0])), x);
            && t == SetPrior(SetReg(s.(ram := s.ram[s.r[x] - 32 := Lo(s.r[0])]), 0, Lo(s.r[0])), 0, false)
            && t.r[x] == s.r[x]
  {
    var b := Lo(s.r[0]);
    var p := Push(s, x, b);
    var q := Add(p, x, -1);
    assert q.r[x] == s.r[x];
    assert Read(q, q.r[x]) == b;
    var t := Pop(p, x);
    var e := SetPrior(SetReg(s.(ram := s.ram[s.r[x] - 32 := b]), 0, b), 0, false);
    SetPriorTwice(s, 0);
    assert forall k :: 0 <= k < 16 ==> t.r[k] == e.r[k];
    assert t.r == e.r;
  }

  lemma SetPriorTwice(s: State, k: RegIndex)
    ensures SetPrior(SetPrior(s, k, false), k, false) == SetPrior(s, k, false)
    ensures SetPrior(s, k, false).r[STATUS] == Word(Lo(s.r[STATUS]), 2 * k)
  {
    WordParts(Lo(s.r[STATUS]), 2 * k);
  }

  /** STD @Rx then POPD @Rx gives back all of R0 and the pointer. */
  lemma StoreThenPopDouble(s: State, x: RegIndex)
    requires Pointer(x) && 32 <= s.r[x] < 0xFFFF
    ensures var t := PopDouble(StoreDouble(s, x), x);
            && t.r[0] == s.r[0] && t.r[x] == s.r[x]
            && t.ram == s.ram[s.r[x] - 32 := Lo(s.r[0])][s.r[x] - 31 := Hi(s.r[0])]
            && (forall k :: 0 <= k < 14 ==> t.r[k] == s.r[k]) && t.r[PC] == s.r[PC]
            && Prior(t) == 0 && !Carry(t)
  {
    var a := s.r[x];
    var p := Push(s, x, Lo(s.r[0]));
    assert p.r[x] == a + 1 && p.r[0] == s.r[0];
    var q := StoreDouble(s, x);
    assert q.ram == s.ram[a - 32 := Lo(s.r[0])][a - 31 := Hi(s.r[0])];
    var t := Add(q, x, -1);
    assert t.r[x] == a + 1;
    var u := Add(t, x, -1);
    assert u.r[x] == a;
    assert Read(t, t.r[x]) == Hi(s.r[0]) && Read(u, u.r[x]) == Lo(s.r[0]);
    SplitWord(s.r[0]);
    SetPriorParts(SetReg(u, 0, s.r[0]), 0, false);
  }

  // ----- subroutine calls -----

  function OpcodeAt(s: State): byte {
    var t := Add(s, PC, 1);
    Read(t, t.r[PC])
  }

  const BS_OPCODE: byte := 12
  const RS_OPCODE: byte := 11

  /** A well-nested stretch of execution: n instructions in a row, or a BS, the subroutine body
      and the RS that ends it, and then the rest. */
  datatype Body = Done | Plain(n: nat, rest: Body) | Sub(body: Body, rest: Body)

  /** The cells that hold return addresses keep their contents. */
  ghost predicate Keeps(s: State, t: State, saved: seq<word>) {
    forall a: word :: a in saved ==> Read(t, a) == Read(s, a)
  }

  /** The two cells a BS executed in s saves its return address in. */
  function Cells(s: State): seq<word> { [s.r[SP], Plus(s.r[SP], 1)] }

  /** A BS whose two cells lie above the register file and hold no other return address. */
  predicate CanCall(s: State, saved: seq<word>) {
    && OpcodeAt(s) == BS_OPCODE && 32 <= s.r[SP] < 0xFFFF
    && s.r[SP] !in saved && Plus(s.r[SP], 1) !in saved
  }

  /** An RS reached with R12 as the BS left it: the body was balanced. */
  predicate CanReturn(s: State, u: State) {
    OpcodeAt(u) == RS_OPCODE && u.r[SP] == s.r[SP]
  }

  /** n instructions of a machine, like `Run`. */
  function Iterate(step: State -> Outcome, s: State, n: nat): Outcome
    decreases n
  {
    if n == 0 then Next(s)
    else match step(s)
      case Next(t) => Iterate(step, t, n - 1)
      case done => done
  }

  /** What a machine does along a path of the shape b. The path may move R12 as it likes; the
      result is None when it has not this shape, when the body of a subroutine is not balanced,
      or when a stretch overwrites one of the saved return addresses. */
  ghost function Execute(step: State -> Outcome, s: State, b: Body, saved: seq<word>): Option<State>
    decreases b
  {
    match b
    case Done => Some(s)
    case Plain(n, rest) =>
      var r := Iterate(step, s, n);
      if r.Next? && Keeps(s, r.s, saved) then Execute(step, r.s, rest, saved) else None
    case Sub(body, rest) =>
      if !CanCall(s, saved) || !step(s).Next? then None
      else
        var u := Execute(step, step(s).s, body, saved + Cells(s));
        if u.None? || !CanReturn(step(s).s, u.value) || !step(u.value).Next? then None
        else Execute(step, step(u.value).s, rest, saved)
  }

  /** What the program means: after a subroutine, control resumes behind the BS instruction
      and R12 is what it was before the call. */
  ghost function Structured(s: State, b: Body, saved: seq<word>): Option<State>
    decreases b
  {
    match b
    case Done => Some(s)
    case Plain(n, rest) =>
      var r := Run(s, n);
      if r.Next? && Keeps(s, r.s, saved) then Structured(r.s, rest, saved) else None
    case Sub(body, rest) =>
      if !CanCall(s, saved) then None
      else
        var u := Structured(Step(s).s, body, saved + Cells(s));
        if u.None? || !CanReturn(Step(s).s, u.value) then None
        else Structured(Resumed(s, u.value), rest, saved)
  }

  /** u continued behind the BS of s. */
  function Resumed(s: State, u: State): State {
    SetReg(SetReg(u, SP, s.r[SP]), PC, Plus(s.r[PC], 2))
  }

  /** BS saves the address behind it in the two cells at R12. */
  lemma CallSaves(s: State)
    requires OpcodeAt(s) == BS_OPCODE && 32 <= s.r[SP] < 0xFFFF
    ensures Step(s).Next?
    ensures var t := Step(s).s; var ret := Plus(s.r[PC], 2);
            && t.r[SP] == Plus(s.r[SP], 2)
            && t.ram == s.ram[s.r[SP] - 32 := Lo(ret)][s.r[SP] - 31 := Hi(ret)]
            && (forall k :: 0 <= k < 16 && k != SP && k != PC && k != STATUS ==> t.r[k] == s.r[k])
  {
    var u := Add(Add(s, PC, 1), PC, 1);
    var sp := s.r[SP];
    var v := Push(u, SP, Lo(u.r[PC]));
    assert v.r[SP] == sp + 1 && v.r[PC] == u.r[PC] == Plus(s.r[PC], 2);
    var w := Push(v, SP, Hi(v.r[PC]));
    assert w.r[SP] == Plus(sp, 2);
  }

  /** RS takes the two cells below R12 as the program counter. */
  lemma ReturnRestores(u: State, sp: word, ret: word)
    requires OpcodeAt(u) == RS_OPCODE && 32 <= sp < 0xFFFF && u.r[SP] == Plus(sp, 2)
    requires Read(u, sp) == Lo(ret) && Read(u, sp + 1) == Hi(ret)
    ensures Step(u).Next?
    ensures Step(u).s == SetReg(SetReg(u, SP, sp), PC, ret)
  {
    var s := Add(Add(u, PC, 1), PC, 1);
    var t := Add(s, SP, -1);
    assert t.r[SP] == sp + 1;
    var v := SetReg(t, PC, Word(Lo(t.r[PC]), Hi(ret)));
    var w := Add(v, SP, -1);
    assert w.r[SP] == sp;
    WordParts(Lo(t.r[PC]), Hi(ret));
    SplitWord(ret);
    assert Return(s).r == u.r[SP := sp][PC := ret];
  }

  predicate AboveRegisters(saved: seq<word>) {
    forall a: word :: a in saved ==> a >= 32
  }

  lemma CallKeeps(s: State, saved: seq<word>)
    requires CanCall(s, saved) && AboveRegisters(saved)
    ensures Keeps(s, Step(s).s, saved) && AboveRegisters(saved + Cells(s))
  {
    CallSaves(s);
  }

  /** A balanced body that leaves the saved cells alone returns behind its own BS. */
  lemma BodyReturns(s: State, u: State, saved: seq<word>)
    requires CanCall(s, saved) && AboveRegisters(saved)
    requires Keeps(Step(s).s, u, saved + Cells(s)) && CanReturn(Step(s).s, u)
    ensures Step(u).Next? && Step(u).s == Resumed(s, u) && Keeps(s, Step(u).s, saved)
  {
    CallSaves(s);
    CallKeeps(s, saved);
    var t, sp := Step(s).s, s.r[SP];
    assert sp in saved + Cells(s) && Plus(sp, 1) in saved + Cells(s);
    ReturnRestores(u, sp, Plus(s.r[PC], 2));
    forall a: word | a in saved ensures Read(Step(u).s, a) == Read(s, a) {
      assert a in saved + Cells(s);
      assert Read(u, a) == Read(t, a);
    }
  }

  lemma KeepsThrough(s: State, t: State, u: State, saved: seq<word>)
    requires Keeps(s, t, saved) && Keeps(t, u, saved)
    ensures Keeps(s, u, saved)
  {
  }

  lemma {:induction false} RunIterates(s: State, n: nat)
    ensures Run(s, n) == Iterate(Step, s, n)
    decreases n
  {
    if n > 0 {
      var o := Step(s);
      if o.Next? {
        RunIterates(o.s, n - 1);
      }
    }
  }

  /** For every well-nested tree of calls with balanced bodies that leave the saved cells alone,
      the machine does what the program means: each RS resumes behind its own BS. */
  lemma {:induction false} CallsReturn(s: State, b: Body, saved: seq<word>)
    requires AboveRegisters(saved)
    ensures Structured(s, b, saved) == Execute(Step, s, b, saved)
    ensures Execute(Step, s, b, saved).Some? ==> Keeps(s, Execute(Step, s, b, saved).value, saved)
    decreases b
  {
    match b
    case Done =>
    case Plain(n, rest) =>
      var t := Run(s, n).s;
      RunIterates(s, n);
      CallsReturn(t, rest, saved);
      if Keeps(s, t, saved) && Structured(t, rest, saved).Some? {
        KeepsThrough(s, t, Structured(t, rest, saved).value, saved);
      }
    case Sub(body, rest) =>
      if CanCall(s, saved) {
        CallReturns(s, body, rest, saved);
      }
  }

  lemma {:induction false} CallReturns(s: State, body: Body, rest: Body, saved: seq<word>)
    requires AboveRegisters(saved) && CanCall(s, saved)
    ensures Structured(s, Sub(body, rest), saved) == Execute(Step, s, Sub(body, rest), saved)
    ensures var r := Execute(Step, s, Sub(body, rest), saved); r.Some? ==> Keeps(s, r.value, saved)
    decreases Sub(body, rest), 0
  {
    var t := Step(s).s;
    CallSaves(s);
    CallKeeps(s, saved);
    CallsReturn(t, body, saved + Cells(s));
    var o := Structured(t, body, saved + Cells(s));
    if o.Some? && CanReturn(t, o.value) {
      var u := o.value;
      BodyReturns(s, u, saved);
      CallsReturn(Step(u).s, rest, saved);
      if Structured(Step(u).s, rest, saved).Some? {
        KeepsThrough(s, Step(u).s, Structured(Step(u).s, rest, saved).value, saved);
      }
    }
  }

  // ----- the tree is a run -----

  lemma {:induction false} IterateJoined(step: State -> Outcome, s: State, n: nat, m: nat)
    requires Iterate(step, s, n).Next?
    ensures Iterate(step, s, n + m) == Iterate(step, Iterate(step, s, n).s, m)
    decreases n
  {
    if n > 0 {
      IterateJoined(step, step(s).s, n - 1, m);
    }
  }

  /** Executing a tree is running the machine for some number of instructions. */
  lemma {:induction false} ExecuteIterates(step: State -> Outcome, s: State, b: Body, saved: seq<word>) returns (n: nat)
    requires Execute(step, s, b, saved).Some?
    ensures Iterate(step, s, n) == Next(Execute(step, s, b, saved).value)
    decreases b
  {
    match b
    case Done =>
      n := 0;
    case Plain(m, rest) =>
      var k := ExecuteIterates(step, Iterate(step, s, m).s, rest, saved);
      IterateJoined(step, s, m, k);
      n := m + k;
    case Sub(body, rest) =>
      var t := step(s).s;
      var i := ExecuteIterates(step, t, body, saved + Cells(s));
      var u := Execute(step, t, body, saved + Cells(s)).value;
      var j := ExecuteIterates(step, step(u).s, rest, saved);
      IterateJoined(step, t, i, j + 1);
      assert Iterate(step, u, j + 1) == Iterate(step, step(u).s, j);
      n := i + j + 2;
  }

  lemma ExecuteRuns(s: State, b: Body, saved: seq<word>) returns (n: nat)
    requires Execute(Step, s, b, saved).Some?
    ensures Run(s, n) == Next(Execute(Step, s, b, saved).value)
  {
    n := ExecuteIterates(Step, s, b, saved);
    RunIterates(s, n);
  }
}
