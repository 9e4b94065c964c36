/** The instructions of Sweet16 by opcode, told in registers and memory cells: what each does to
    general registers and to pointers into memory, and what comparisons make branches do. */
module Sweet16Manual {
  import opened Bytes
  import opened Sweet16Isa
  import opened Sweet16Words
  import opened Sweet16Programs

  // ----- branches -----

  /** What a conditional branch asks: the carry, or the register v that the prior result names. */
  predicate Taken(opcode: nat, carry: bool, v: word)
    requires 1 <= opcode <= 9
  {
    match opcode
    case 1 => true
    case 2 => !carry
    case 3 => carry
    case 4 => v < 0x8000
    case 5 => v >= 0x8000
    case 6 => v == 0
    case 7 => v != 0
    case 8 => v == 0xFFFF
    case 9 => v != 0xFFFF
  }

  /** s with the program counter behind the instruction's first byte, on the displacement. */
  function AtDisplacement(s: State): State { SetReg(s, PC, Plus(s.r[PC], 2)) }

  lemma Fetched(s: State)
    ensures Add(Add(s, PC, 1), PC, 1) == AtDisplacement(s)
  {
    assert s.r[PC := Plus(s.r[PC], 1)][PC := Plus(s.r[PC], 2)] == s.r[PC := Plus(s.r[PC], 2)];
  }

  lemma SamePrior(s: State)
    ensures Prior(AtDisplacement(s)) == Prior(s) && Carry(AtDisplacement(s)) == Carry(s)
    ensures NamesRegister(AtDisplacement(s)) == NamesRegister(s)
  {
  }

  /** Opcodes 1 to 9 continue behind the displacement, plus the displacement if the branch is
      taken, and change nothing else. */
  lemma BranchDecides(s: State)
    requires 1 <= OpcodeAt(s) <= 9 && NamesRegister(s)
    ensures var u := AtDisplacement(s); var d := Read(u, u.r[PC]);
            Step(s) == Next(SetReg(u, PC, Plus(u.r[PC],
              if Taken(OpcodeAt(s) as int, Carry(s), u.r[Prior(s)]) then if d < 0x80 then d else d - 0x100 else 0)))
  {
    Fetched(s);
    SamePrior(s);
    PriorWordIsRegister(AtDisplacement(s));
  }

  // ----- register instructions -----

  /** t is s with new values in some of R0 to R13, with this memory, the program counter advanced
      and a new prior result. */
  ghost predicate Becomes(s: State, t: State, regs: map<nat, word>, ram: seq<byte>, advance: nat,
                          prior: nat, carry: bool)
    requires advance <= 3
  {
    && (forall k: nat :: k < 14 ==> t.r[k] == if k in regs then regs[k] else s.r[k])
    && t.ram == ram && t.r[PC] == Plus(s.r[PC], advance)
    && Lo(t.r[STATUS]) == Lo(s.r[STATUS]) && NamesRegister(t) && Prior(t) == prior && Carry(t) == carry
  }

  /** The state in which a register instruction works. */
  function Selected(s: State, x: RegIndex): State { SetPrior(Add(s, PC, 1), x, false) }

  lemma SelectedState(s: State, x: RegIndex)
    ensures Becomes(s, Selected(s, x), map[], s.ram, 1, x, false)
  {
    WordParts(Lo(s.r[STATUS]), 2 * x);
  }

  lemma RegisterStep(s: State, op: nat, x: RegIndex)
    requires 1 <= op < 16 && OpcodeAt(s) as int == 16 * op + x
    ensures Step(s) == Next(RegisterOp(Selected(s, x), op, x))
  {
  }

  /** 2x copies Rx to R0. */
  lemma Load(s: State, x: RegIndex)
    requires 0 <= x < 14 && OpcodeAt(s) as int == 0x20 + x
    ensures Step(s).Next?
    ensures Becomes(s, Step(s).s, map[0 := s.r[x]], s.ram, 1, x, false)
  {
    SelectedState(s, x);
    RegisterStep(s, 2, x);
  }

  /** 3x copies R0 to Rx. */
  lemma Store(s: State, x: RegIndex)
    requires 0 <= x < 14 && OpcodeAt(s) as int == 0x30 + x
    ensures Step(s).Next?
    ensures Becomes(s, Step(s).s, map[x := s.r[0]], s.ram, 1, x, false)
  {
    SelectedState(s, x);
    RegisterStep(s, 3, x);
  }

  /** 4x loads the byte at Rx into R0 and advances Rx. */
  lemma LoadByte(s: State, x: RegIndex)
    requires 1 <= x < 14 && s.r[x] >= 32 && OpcodeAt(s) as int == 0x40 + x
    ensures Step(s).Next?
    ensures Becomes(s, Step(s).s, map[0 := s.ram[s.r[x] - 32] as word, x := Plus(s.r[x], 1)],
                    s.ram, 1, 0, false)
  {
    SelectedState(s, x);
    RegisterStep(s, 4, x);
  }

  /** 5x stores the low byte of R0 at Rx and advances Rx. */
  lemma StoreByte(s: State, x: RegIndex)
    requires 1 <= x < 14 && s.r[x] >= 32 && OpcodeAt(s) as int == 0x50 + x
    ensures Step(s).Next?
    ensures Becomes(s, Step(s).s, map[x := Plus(s.r[x], 1)], s.ram[s.r[x] - 32 := Lo(s.r[0])], 1, 0, false)
  {
    SelectedState(s, x);
    RegisterStep(s, 5, x);
  }

  /** 6x loads the two bytes at Rx, low byte first, and advances Rx by two. */
  lemma LoadWord(s: State, x: RegIndex)
    requires 1 <= x < 14 && 32 <= s.r[x] < 0xFFFF && OpcodeAt(s) as int == 0x60 + x
    ensures Step(s).Next?
    ensures Becomes(s, Step(s).s, map[0 := Word(s.ram[s.r[x] - 32],
                    s.ram[s.r[x] - 31]), x := Plus(s.r[x], 2)], s.ram, 1, 0, false)
  {
    SelectedState(s, x);
    RegisterStep(s, 6, x);
  }

  /** 7x stores R0 at Rx, low byte first, and advances Rx by two. */
  lemma StoreWord(s: State, x: RegIndex)
    requires 1 <= x < 14 && 32 <= s.r[x] < 0xFFFF && OpcodeAt(s) as int == 0x70 + x
    ensures Step(s).Next?
    ensures Becomes(s, Step(s).s, map[x := Plus(s.r[x], 2)],
                    s.ram[s.r[x] - 32 := Lo(s.r[0])][s.r[x] - 31 := Hi(s.r[0])], 1, 0, false)
  {
    SelectedState(s, x);
    RegisterStep(s, 7, x);
  }

  /** 8x steps Rx back and loads the byte there. */
  lemma PopOne(s: State, x: RegIndex)
    requires 1 <= x < 14 && s.r[x] > 32 && OpcodeAt(s) as int == 0x80 + x
    ensures Step(s).Next?
    ensures Becomes(s, Step(s).s, map[0 := s.ram[s.r[x] - 33] as word, x := Plus(s.r[x], -1)],
                    s.ram, 1, 0, false)
  {
    SelectedState(s, x);
    RegisterStep(s, 8, x);
  }

  /** 9x steps Rx back and stores the low byte of R0 there. */
  lemma StoreBack(s: State, x: RegIndex)
    requires 1 <= x < 14 && s.r[x] > 32 && OpcodeAt(s) as int == 0x90 + x
    ensures Step(s).Next?
    ensures Becomes(s, Step(s).s, map[x := Plus(s.r[x], -1)], s.ram[s.r[x] - 33 := Lo(s.r[0])], 1, 0, false)
  {
    SelectedState(s, x);
    RegisterStep(s, 9, x);
  }

  /** Ax adds Rx to R0; the carry is that of the addition. */
  lemma Sum(s: State, x: RegIndex)
    requires 0 <= x < 14 && OpcodeAt(s) as int == 0xA0 + x
    ensures Step(s).Next?
    ensures Becomes(s, Step(s).s, map[0 := Wrap16(s.r[0] as int + s.r[x] as int)],
                    s.ram, 1, 0, s.r[0] as int + s.r[x] as int > 0xFFFF)
  {
    SelectedState(s, x);
    RegisterStep(s, 10, x);
  }

  /** Bx subtracts Rx from R0; the carry means that nothing was borrowed. */
  lemma Difference(s: State, x: RegIndex)
    requires 0 <= x < 14 && OpcodeAt(s) as int == 0xB0 + x
    ensures Step(s).Next?
    ensures Becomes(s, Step(s).s, map[0 := Plus(s.r[0], -(s.r[x] as int))], s.ram, 1, 0, s.r[0] >= s.r[x])
  {
    SelectedState(s, x);
    RegisterStep(s, 11, x);
  }

  /** Cx steps Rx back by two and loads the two bytes there. */
  lemma PopTwo(s: State, x: RegIndex)
    requires 1 <= x < 14 && s.r[x] > 33 && OpcodeAt(s) as int == 0xC0 + x
    ensures Step(s).Next?
    ensures Becomes(s, Step(s).s, map[0 := Word(s.ram[s.r[x] - 34],
                    s.ram[s.r[x] - 33]), x := Plus(s.r[x], -2)], s.ram, 1, 0, false)
  {
    SelectedState(s, x);
    RegisterStep(s, 12, x);
  }

  /** Dx puts the difference of R0 and Rx into R13. */
  lemma Compare(s: State, x: RegIndex)
    requires 0 <= x < 14 && OpcodeAt(s) as int == 0xD0 + x
    ensures Step(s).Next?
    ensures Becomes(s, Step(s).s, map[13 := Plus(s.r[0], -(s.r[x] as int))], s.ram, 1, 13, s.r[0] >= s.r[x])
  {
    SelectedState(s, x);
    RegisterStep(s, 13, x);
  }

  /** Ex adds one to Rx. */
  lemma Increment(s: State, x: RegIndex)
    requires 0 <= x < 14 && OpcodeAt(s) as int == 0xE0 + x
    ensures Step(s).Next?
    ensures Becomes(s, Step(s).s, map[x := Plus(s.r[x], 1)], s.ram, 1, x, false)
  {
    SelectedState(s, x);
    RegisterStep(s, 14, x);
  }

  /** Fx subtracts one from Rx. */
  lemma Decrement(s: State, x: RegIndex)
    requires 0 <= x < 14 && OpcodeAt(s) as int == 0xF0 + x
    ensures Step(s).Next?
    ensures Becomes(s, Step(s).s, map[x := Plus(s.r[x], -1)], s.ram, 1, x, false)
  {
    SelectedState(s, x);
    RegisterStep(s, 15, x);
  }

  /** 1x loads Rx with the two bytes behind it, low byte first, and steps over them. */
  lemma SetRegister(s: State, x: RegIndex)
    requires x < 14 && OpcodeAt(s) as int == 0x10 + x && 31 <= s.r[PC] <= 0xFFFC
    ensures Step(s).Next?
    ensures Becomes(s, Step(s).s, map[x := Word(s.ram[s.r[PC] - 30], s.ram[s.r[PC] - 29])], s.ram, 3, x, false)
  {
    SelectedState(s, x);
    RegisterStep(s, 1, x);
    WordParts(Lo(s.r[x]), s.ram[s.r[PC] - 29]);
  }

  /** 0 ends the run, A is a trap, and D to F skip their second byte. */
  lemma OtherOpcodes(s: State)
    ensures OpcodeAt(s) == 0 ==> Step(s) == Halt(AtDisplacement(s))
    ensures OpcodeAt(s) == 10 ==> Step(s) == Trap(AtDisplacement(s))
    ensures 13 <= OpcodeAt(s) < 16 ==> Step(s) == Next(AtDisplacement(s))
  {
    Fetched(s);
  }

  // ----- a test and a branch -----

  /** The branch at s goes by its displacement if `taken`, and to the next instruction if not. */
  predicate Branches(s: State, taken: bool) {
    var u := AtDisplacement(s);
    var d := Read(u, u.r[PC]);
    Step(s) == Next(SetReg(u, PC, Plus(u.r[PC], if taken then if d < 0x80 then d else d - 0x100 else 0)))
  }

  /** CPR Rx and a branch: BZ asks whether R0 is Rx, BNZ whether it is not, BC whether it is not
      below Rx, and BNC whether it is. */
  lemma CompareThenBranch(s: State, x: RegIndex)
    requires x < 14 && OpcodeAt(s) as int == 0xD0 + x
    ensures var t := Step(s).s;
            && (OpcodeAt(t) == 6 ==> Branches(t, s.r[0] == s.r[x]))
            && (OpcodeAt(t) == 7 ==> Branches(t, s.r[0] != s.r[x]))
            && (OpcodeAt(t) == 3 ==> Branches(t, s.r[0] >= s.r[x]))
            && (OpcodeAt(t) == 2 ==> Branches(t, s.r[0] < s.r[x]))
  {
    Compare(s, x);
    BranchAfter(Step(s).s, 13, s.r[0] >= s.r[x]);
  }

  /** The branch that follows asks for the register k and the carry. */
  lemma BranchAfter(t: State, k: RegIndex, carry: bool)
    requires k < 14 && NamesRegister(t) && Prior(t) == k && Carry(t) == carry
    ensures 1 <= OpcodeAt(t) <= 9 ==> Branches(t, Taken(OpcodeAt(t) as int, carry, t.r[k]))
  {
    if 1 <= OpcodeAt(t) <= 9 {
      BranchDecides(t);
    }
  }

  /** LD Rx and a branch: BP, BM, BZ, BNZ, BM1 and BNM1 ask for the sign of Rx, for zero and for
      minus one. */
  lemma LoadThenBranch(s: State, x: RegIndex)
    requires x < 14 && OpcodeAt(s) as int == 0x20 + x
    ensures var t := Step(s).s;
            && (OpcodeAt(t) == 4 ==> Branches(t, s.r[x] < 0x8000))
            && (OpcodeAt(t) == 5 ==> Branches(t, s.r[x] >= 0x8000))
            && (OpcodeAt(t) == 6 ==> Branches(t, s.r[x] == 0))
            && (OpcodeAt(t) == 7 ==> Branches(t, s.r[x] != 0))
            && (OpcodeAt(t) == 8 ==> Branches(t, s.r[x] == 0xFFFF))
            && (OpcodeAt(t) == 9 ==> Branches(t, s.r[x] != 0xFFFF))
  {
    Load(s, x);
    BranchAfter(Step(s).s, x, false);
  }

  /** ADD Rx and BC or BNC ask whether the sum left the word. */
  lemma AddThenBranch(s: State, x: RegIndex)
    requires x < 14 && OpcodeAt(s) as int == 0xA0 + x
    ensures var t := Step(s).s;
            && (OpcodeAt(t) == 3 ==> Branches(t, s.r[0] as int + s.r[x] as int > 0xFFFF))
            && (OpcodeAt(t) == 2 ==> Branches(t, s.r[0] as int + s.r[x] as int <= 0xFFFF))
  {
    Sum(s, x);
    BranchAfter(Step(s).s, 0, s.r[0] as int + s.r[x] as int > 0xFFFF);
  }

  // ----- a counting loop -----

  /** Behind the program counter, in memory, stand DCR Rx and a BNZ back to it. */
  predicate AtLoop(s: State, x: RegIndex) {
    && 31 <= s.r[PC] <= 0xFFFC
    && s.ram[s.r[PC] - 31] as int == 0xF0 + x && s.ram[s.r[PC] - 30] == 7 && s.ram[s.r[PC] - 29] == 0xFD
  }

  /** The other general registers and the memory are as they were. */
  predicate OnlyCounts(s: State, t: State, x: RegIndex) {
    t.ram == s.ram && forall k: nat :: k < 14 && k != x ==> t.r[k] == s.r[k]
  }

  /** One turn of the loop. */
  lemma LoopTurn(s: State, x: RegIndex)
    requires x < 14 && AtLoop(s, x) && s.r[x] >= 1
    ensures Step(s).Next? && Step(Step(s).s).Next?
    ensures var u := Step(Step(s).s).s;
            && u.r[x] == s.r[x] - 1 && OnlyCounts(s, u, x)
            && u.r[PC] == if s.r[x] == 1 then s.r[PC] + 3 else s.r[PC]
  {
    Decrement(s, x);
    var t := Step(s).s;
    assert OpcodeAt(t) == 7;
    BranchAfter(t, x, false);
  }

  /** Two steps from s make one turn. */
  ghost predicate Turns(step: State -> Outcome, s: State, x: RegIndex) {
    && step(s).Next? && step(step(s).s).Next?
    && var u := step(step(s).s).s;
       && u.r[x] as int == s.r[x] as int - 1 && OnlyCounts(s, u, x)
       && u.r[PC] as int == if s.r[x] == 1 then s.r[PC] as int + 3 else s.r[PC]
  }

  /** s leads to the end of the loop: the counter is zero and nothing else has changed. */
  predicate Counted(s: State, o: Outcome, x: RegIndex) {
    o.Next? && o.s.r[x] == 0 && o.s.r[PC] as int == s.r[PC] as int + 3 && OnlyCounts(s, o.s, x)
  }

  lemma {:induction false} LoopIterates(step: State -> Outcome, s: State, x: RegIndex, n: nat)
    requires x < 14 && AtLoop(s, x) && s.r[x] == n >= 1
    requires forall t: State :: AtLoop(t, x) && t.r[x] >= 1 ==> Turns(step, t, x)
    ensures Counted(s, Iterate(step, s, 2 * n), x)
    decreases n
  {
    assert Turns(step, s, x);
    var t := step(s).s;
    var u := step(t).s;
    assert Iterate(step, s, 2 * n) == Iterate(step, t, 2 * n - 1) == Iterate(step, u, 2 * n - 2);
    if n > 1 {
      LoopIterates(step, u, x, n - 1);
    }
  }

  /** The loop runs as often as its counter says and leaves everything else alone. */
  lemma LoopCounts(s: State, x: RegIndex, n: nat)
    requires x < 14 && AtLoop(s, x) && s.r[x] == n >= 1
    ensures Counted(s, Run(s, 2 * n), x)
  {
    forall t: State | AtLoop(t, x) && t.r[x] >= 1 ensures Turns(Step, t, x) {
      LoopTurn(t, x);
    }
    LoopIterates(Step, s, x, n);
    RunIterates(s, 2 * n);
  }
}
