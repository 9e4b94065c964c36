/** The Sweet16 interpreter, routine by routine, each proved to perform its 16-bit operation. */
module Sweet16 {
  import opened Bytes
  import opened Sweet16Isa
  import opened Sweet16Words
  import opened Cpu6502

  /** X holds the doubled index of register k. */
  predicate AtReg(u: Cpu)
    reads u
  {
    u.Valid() && u.x % 2 == 0 && u.x <= 30
  }

  function RegOf(u: Cpu): RegIndex
    requires AtReg(u)
    reads u
  {
    u.x / 2
  }

  // ----- increments and decrements -----

  method Inr(u: Cpu)
    requires AtReg(u)
    modifies u`z, u`n, u.mem
    ensures u.M() == Add(old(u.M()), RegOf(u), 1)
  {
    ghost var s, k := u.M(), RegOf(u);
    ReadRegister(s, k);
    IncWord(s, k);
    u.Inc(u.ZpX(R0L));
    if !u.z {
      return;
    }
    u.Inc(u.ZpX(R0H));
  }

  method Dcr(u: Cpu)
    requires AtReg(u)
    modifies u`a, u`z, u`n, u.mem
    ensures u.M() == Add(old(u.M()), RegOf(u), -1)
  {
    ghost var s, k := u.M(), RegOf(u);
    ReadRegister(s, k);
    DecWord(s, k);
    u.Lda(u.ZpX(R0L));
    if u.z {
      LoAfterHi(s, k, Wrap8(Hi(s.r[k]) as int - 1));
      u.Dec(u.ZpX(R0H));
    }
    u.Dec(u.ZpX(R0L));
  }

  // ----- memory operations through a register -----

  /** STAT3: record R0 as the result register and advance Rx. Y must be zero. */
  method Stat3(u: Cpu)
    requires AtReg(u) && u.y == 0
    modifies u`z, u`n, u.mem
    ensures u.M() == Add(SetPrior(old(u.M()), 0, false), RegOf(u), 1)
  {
    PriorByte(u.M(), 0, false);
    u.Sty(R14H);
    Inr(u);
  }

  method Stat2(u: Cpu)
    requires AtReg(u)
    modifies u`y, u`z, u`n, u.mem
    ensures u.M() == Push(old(u.M()), RegOf(u), u.a) && u.y == 0
  {
    u.Sta(u.IndX(R0L));
    u.LdyImm(0);
    Stat3(u);
  }

  method Stat(u: Cpu)
    requires AtReg(u)
    modifies u`a, u`y, u`z, u`n, u.mem
    ensures u.M() == Push(old(u.M()), RegOf(u), Lo(old(u.M()).r[0]))
  {
    ReadRegister(u.M(), 0);
    u.Lda(R0L);
    Stat2(u);
  }

  method Ldat(u: Cpu)
    requires AtReg(u)
    modifies u`a, u`y, u`z, u`n, u.mem
    ensures u.M() == LoadInd(old(u.M()), RegOf(u))
  {
    ghost var s := u.M();
    u.Lda(u.IndX(R0L));
    u.Sta(R0L);
    u.LdyImm(0);
    u.Sty(R0H);
    WritePair(s, 0, u.a, 0);
    Stat3(u);
  }

  method Pop3(u: Cpu)
    requires u.Valid()
    modifies u`y, u`z, u`n, u.mem
    ensures u.M() == SetPrior(old(u.M()), 0, false)
  {
    u.LdyImm(0);
    PriorByte(u.M(), 0, false);
    u.Sty(R14H);
  }

  /** POP2: decrement Rx, load its byte into R0 with the high byte in Y. */
  method Pop2(u: Cpu)
    requires AtReg(u)
    modifies u`a, u`y, u`z, u`n, u.mem
    ensures var t := Add(old(u.M()), RegOf(u), -1);
            u.M() == SetPrior(SetReg(t, 0, Word(Read(t, t.r[RegOf(u)]), old(u.y))), 0, false)
  {
    Dcr(u);
    ghost var t := u.M();
    u.Lda(u.IndX(R0L));
    u.Sta(R0L);
    u.Sty(R0H);
    WritePair(t, 0, u.a, u.y);
    Pop3(u);
  }

  method PopByte(u: Cpu)
    requires AtReg(u)
    modifies u`a, u`y, u`z, u`n, u.mem
    ensures u.M() == Pop(old(u.M()), RegOf(u))
  {
    u.LdyImm(0);
    Pop2(u);
  }

  method Popd(u: Cpu)
    requires AtReg(u)
    modifies u`a, u`y, u`z, u`n, u.mem
    ensures u.M() == PopDouble(old(u.M()), RegOf(u))
  {
    Dcr(u);
    u.Lda(u.IndX(R0L));
    u.Tay();
    Pop2(u);
  }

  method Lddat(u: Cpu)
    requires AtReg(u)
    modifies u`a, u`y, u`z, u`n, u.mem
    ensures u.M() == LoadDouble(old(u.M()), RegOf(u))
  {
    Ldat(u);
    u.Lda(u.IndX(R0L));
    WriteHi(u.M(), 0, u.a);
    u.Sta(R0H);
    Inr(u);
  }

  method Stdat(u: Cpu)
    requires AtReg(u)
    modifies u`a, u`y, u`z, u`n, u.mem
    ensures u.M() == StoreDouble(old(u.M()), RegOf(u))
  {
    Stat(u);
    ReadRegister(u.M(), 0);
    u.Lda(R0H);
    u.Sta(u.IndX(R0L));
    Inr(u);
  }

  method Stpat(u: Cpu)
    requires AtReg(u)
    modifies u`a, u`y, u`z, u`n, u.mem
    ensures u.M() == StorePop(old(u.M()), RegOf(u))
  {
    Dcr(u);
    ReadRegister(u.M(), 0);
    u.Lda(R0L);
    u.Sta(u.IndX(R0L));
    Pop3(u);
  }

  // ----- register moves and arithmetic -----

  /** The tail of SETZ, which steps over the constant. Y must be 1. */
  method SkipConstant(u: Cpu)
    requires u.Valid() && u.y == 1
    modifies u`a, u`c, u`z, u`n, u.mem
    ensures u.M() == Add(old(u.M()), PC, 2)
  {
    ghost var s := u.M();
    ReadRegister(s, PC);
    u.Tya();
    u.c := true;
    u.Adc(u.At(R15L));
    AddTwo(s, PC, u.a, u.c);
    u.Sta(R15L);
    if !u.c {
      return;
    }
    u.Inc(R15H);
  }

  method SetConstant(u: Cpu)
    requires AtReg(u) && u.y == 2
    modifies u`a, u`y, u`c, u`z, u`n, u.mem
    ensures u.M() == Set(old(u.M()), RegOf(u))
  {
    ConstantStored(u.M(), u.x);
    u.Lda(u.IndY(R15L));
    u.Sta(u.ZpX(R0H));
    u.Dey();
    assert u.y == 1;
    u.Lda(u.IndY(R15L));
    u.Sta(u.ZpX(R0L));
    SkipConstant(u);
  }

  method Ld(u: Cpu)
    requires AtReg(u)
    modifies u`a, u`z, u`n, u.mem
    ensures u.M() == SetReg(old(u.M()), 0, old(u.M()).r[RegOf(u)])
  {
    CopyToR0(u.M(), u.x);
    u.Lda(u.ZpX(R0L));
    u.Sta(R0L);
    u.Lda(u.ZpX(R0H));
    u.Sta(R0H);
  }

  method St(u: Cpu)
    requires AtReg(u)
    modifies u`a, u`z, u`n, u.mem
    ensures u.M() == SetReg(old(u.M()), RegOf(u), old(u.M()).r[0])
  {
    CopyFromR0(u.M(), u.x);
    u.Lda(R0L);
    u.Sta(u.ZpX(R0L));
    u.Lda(R0H);
    u.Sta(u.ZpX(R0H));
  }

  /** SUB2: store the high result byte in the register at Y and record it with the carry. */
  method Sub2(u: Cpu)
    requires u.Valid() && u.y % 2 == 0 && u.y <= 30
    modifies u`a, u`c, u`z, u`n, u.mem
    ensures u.M() == SetPrior(Write(old(u.M()), old(u.y) + 1, old(u.a)), old(u.y) / 2, old(u.c))
  {
    u.Sta(u.y + R0H);
    u.Tya();
    u.Adc(0);
    PriorByte(u.M(), u.y / 2, old(u.c));
    u.Sta(R14H);
  }

  /** LDA R0, SBC Rx on the low bytes (half 0) or the high bytes (half 1). */
  method SbcHalf(u: Cpu, half: byte)
    requires AtReg(u) && half <= 1
    modifies u`a, u`c, u`z, u`n
    ensures var s, k := u.M(), RegOf(u);
            var v, w := if half == 0 then Lo(s.r[0]) else Hi(s.r[0]), if half == 0 then Lo(s.r[k]) else Hi(s.r[k]);
            u.a as int == v as int - w as int - (if old(u.c) then 0 else 1) + (if u.c then 0 else 0x100)
  {
    ReadRegister(u.M(), 0);
    ReadRegister(u.M(), RegOf(u));
    u.Lda(R0L + half);
    u.Sbc(u.At(u.ZpX(R0L + half)));
  }

  method AdcHalf(u: Cpu, half: byte)
    requires AtReg(u) && half <= 1
    modifies u`a, u`c, u`z, u`n
    ensures var s, k := u.M(), RegOf(u);
            var v, w := if half == 0 then Lo(s.r[0]) else Hi(s.r[0]), if half == 0 then Lo(s.r[k]) else Hi(s.r[k]);
            u.a as int + (if u.c then 0x100 else 0) == v as int + w as int + (if old(u.c) then 1 else 0)
  {
    ReadRegister(u.M(), 0);
    ReadRegister(u.M(), RegOf(u));
    u.Lda(R0L + half);
    u.Adc(u.At(u.ZpX(R0L + half)));
  }

  /** The low bytes: SEC, subtract, store at Y. */
  method SbcLow(u: Cpu)
    requires AtReg(u) && u.y % 2 == 0 && u.y <= 30
    modifies u`a, u`c, u`z, u`n, u.mem
    ensures var s, k := old(u.M()), RegOf(u);
            && u.M() == Write(s, u.y, u.a)
            && u.a as int == Lo(s.r[0]) as int - Lo(s.r[k]) as int + (if u.c then 0 else 0x100)
  {
    u.c := true;
    SbcHalf(u, 0);
    u.Sta(u.y);
  }

  /** CPR: R0 - Rx to the register at Y; SUB enters with Y zero, CPR with Y = 26. */
  method Cpr(u: Cpu)
    requires AtReg(u) && u.y % 2 == 0 && u.y <= 30
    modifies u`a, u`c, u`z, u`n, u.mem
    ensures u.M() == Subtract(old(u.M()), RegOf(u), old(u.y) / 2)
  {
    ghost var s, k, d := u.M(), RegOf(u), u.y / 2;
    SbcLow(u);
    ghost var lo, borrow := u.a, u.c;
    HiOfStored(s, d, lo, k);
    SbcHalf(u, 1);
    DifferenceStored(s, k, d, lo, borrow, u.a, u.c);
    Sub2(u);
  }

  method Sub(u: Cpu)
    requires AtReg(u)
    modifies u`a, u`y, u`c, u`z, u`n, u.mem
    ensures u.M() == Subtract(old(u.M()), RegOf(u), 0)
  {
    u.LdyImm(0);
    Cpr(u);
  }

  /** ADD has no CLC: it relies on the carry being clear on entry. */
  method AddR(u: Cpu)
    requires AtReg(u) && !u.c
    modifies u`a, u`y, u`c, u`z, u`n, u.mem
    ensures u.M() == AddReg(old(u.M()), RegOf(u))
  {
    ghost var s, k := u.M(), RegOf(u);
    AdcHalf(u, 0);
    ghost var lo, carry := u.a, u.c;
    u.Sta(R0L);
    HiOfStored(s, 0, lo, k);
    AdcHalf(u, 1);
    SumStored(s, k, lo, carry, u.a, u.c);
    u.LdyImm(0);
    Sub2(u);
  }

  // ----- branches -----

  /** ADC of one half of the program counter. */
  method AdcPc(u: Cpu, half: byte)
    requires u.Valid() && half <= 1
    modifies u`a, u`c, u`z, u`n
    ensures var w := u.M().r[PC];
            u.a as int + (if u.c then 0x100 else 0)
              == old(u.a) as int + (if half == 0 then Lo(w) else Hi(w)) as int + (if old(u.c) then 1 else 0)
  {
    ReadRegister(u.M(), PC);
    u.Adc(u.At(R15L + half));
  }

  /** Fetch the displacement into A and its sign extension into Y. */
  method FetchDisplacement(u: Cpu)
    requires u.Valid() && u.y == 0
    modifies u`a, u`y, u`z, u`n
    ensures u.a == Read(u.M(), u.M().r[PC]) && u.y == if u.a < 0x80 then 0 else 0xFF
  {
    u.Lda(u.IndY(R15L));
    if u.n {
      u.Dey();
    }
  }

  /** BR1: add the sign-extended displacement; Y and the carry must be clear. */
  method Br1(u: Cpu)
    requires u.Valid() && u.y == 0 && !u.c
    modifies u`a, u`y, u`c, u`z, u`n, u.mem
    ensures u.M() == Branch(old(u.M()))
  {
    ghost var s := u.M();
    FetchDisplacement(u);
    ghost var d := u.a;
    AdcPc(u, 0);
    ghost var lo, carry := u.a, u.c;
    u.Sta(R15L);
    HiOfStored(s, PC, lo, PC);
    u.Tya();
    AdcPc(u, 1);
    JumpStored(s, d, lo, carry, u.a, u.c);
    u.Sta(R15H);
  }

  method Br(u: Cpu)
    requires u.Valid() && u.y == 0
    modifies u`a, u`y, u`c, u`z, u`n, u.mem
    ensures u.M() == Branch(old(u.M()))
  {
    u.c := false;
    Br1(u);
  }

  method Bnc(u: Cpu)
    requires u.Valid() && u.y == 0
    modifies u`a, u`y, u`c, u`z, u`n, u.mem
    ensures u.M() == BranchIf(old(u.M()), !old(u.c))
  {
    if !u.c {
      Br1(u);
    }
  }

  method Bc(u: Cpu)
    requires u.Valid() && u.y == 0
    modifies u`a, u`y, u`c, u`z, u`n, u.mem
    ensures u.M() == BranchIf(old(u.M()), old(u.c))
  {
    if u.c {
      Br(u);
    }
  }

  /** A holds the prior result index; ASL and TAX make X address that register. The index is at
      most 127, so the shift leaves the carry clear for the displacement add. */
  method IndexPrior(u: Cpu)
    requires u.Valid() && u.a == Prior(u.M())
    modifies u`a, u`x, u`c, u`z, u`n
    ensures u.x == 2 * Prior(u.M()) && !u.c
    ensures u.ZpX(R0L) == u.x && u.ZpX(R0H) == u.x + 1
  {
    u.AslA();
    u.Tax();
  }

  /** On entry to a conditional branch: Y is zero and A the prior result index. */
  predicate AtTest(u: Cpu, prior: nat)
    reads u
  {
    u.Valid() && u.y == 0 && u.a as int == prior
  }

  method Bp(u: Cpu)
    requires u.Valid() && AtTest(u, Prior(u.M()))
    modifies u`a, u`x, u`y, u`c, u`z, u`n, u.mem
    ensures u.M() == BranchIf(old(u.M()), PriorWord(old(u.M())) < 0x8000)
  {
    IndexPrior(u);
    u.Lda(u.ZpX(R0H));
    if !u.n {
      Br1(u);
    }
  }

  method Bm(u: Cpu)
    requires u.Valid() && AtTest(u, Prior(u.M()))
    modifies u`a, u`x, u`y, u`c, u`z, u`n, u.mem
    ensures u.M() == BranchIf(old(u.M()), PriorWord(old(u.M())) >= 0x8000)
  {
    IndexPrior(u);
    u.Lda(u.ZpX(R0H));
    if u.n {
      Br1(u);
    }
  }

  /** LDA R0L,X; ORA R0H,X: zero exactly when the prior result word is. */
  method OrPrior(u: Cpu)
    requires u.Valid() && u.a == Prior(u.M())
    modifies u`a, u`x, u`c, u`z, u`n
    ensures !u.c && u.z == (PriorWord(u.M()) == 0)
  {
    IndexPrior(u);
    u.Lda(u.ZpX(R0L));
    ghost var lo := u.a;
    u.Ora(u.At(u.ZpX(R0H)));
    ZeroTest(lo, u.At(u.ZpX(R0H)));
  }

  method Bz(u: Cpu)
    requires u.Valid() && AtTest(u, Prior(u.M()))
    modifies u`a, u`x, u`y, u`c, u`z, u`n, u.mem
    ensures u.M() == BranchIf(old(u.M()), PriorWord(old(u.M())) == 0)
  {
    OrPrior(u);
    if u.z {
      Br1(u);
    }
  }

  method Bnz(u: Cpu)
    requires u.Valid() && AtTest(u, Prior(u.M()))
    modifies u`a, u`x, u`y, u`c, u`z, u`n, u.mem
    ensures u.M() == BranchIf(old(u.M()), PriorWord(old(u.M())) != 0)
  {
    OrPrior(u);
    if !u.z {
      Br1(u);
    }
  }

  /** LDA R0L,X; AND R0H,X: the conjunction of the prior result word's bytes. */
  method AndBytes(u: Cpu)
    requires u.Valid() && u.a == Prior(u.M())
    modifies u`a, u`x, u`c, u`z, u`n
    ensures !u.c && u.a == AndB(Lo(PriorWord(u.M())), Hi(PriorWord(u.M())))
  {
    IndexPrior(u);
    u.Lda(u.ZpX(R0L));
    WordParts(u.a, u.At(u.ZpX(R0H)));
    u.AndA(u.At(u.ZpX(R0H)));
  }

  /** EOR #$FF as in jeff.s: zero exactly when the prior result word is minus one. */
  method AndPrior(u: Cpu)
    requires u.Valid() && u.a == Prior(u.M())
    modifies u`a, u`x, u`c, u`z, u`n
    ensures !u.c && u.z == (PriorWord(u.M()) == 0xFFFF)
  {
    AndBytes(u);
    u.Eor(0xFF);
    MinusOneTest(PriorWord(u.M()), 0xFF);
  }

  method Bm1(u: Cpu)
    requires u.Valid() && AtTest(u, Prior(u.M()))
    modifies u`a, u`x, u`y, u`c, u`z, u`n, u.mem
    ensures u.M() == BranchIf(old(u.M()), PriorWord(old(u.M())) == 0xFFFF)
  {
    AndPrior(u);
    if u.z {
      Br1(u);
    }
  }

  method Bnm1(u: Cpu)
    requires u.Valid() && AtTest(u, Prior(u.M()))
    modifies u`a, u`x, u`y, u`c, u`z, u`n, u.mem
    ensures u.M() == BranchIf(old(u.M()), PriorWord(old(u.M())) != 0xFFFF)
  {
    AndPrior(u);
    if !u.z {
      Br1(u);
    }
  }

  // ----- subroutines -----

  /** BS: the opcode's low digit 12 has left 24 in X, so both pushes go through R12. */
  method Bs(u: Cpu)
    requires u.Valid() && u.x == 24
    modifies u`a, u`y, u`c, u`z, u`n, u.mem
    ensures u.M() == Call(old(u.M()))
  {
    ReadRegister(u.M(), PC);
    u.Lda(R15L);
    Stat2(u);
    ReadRegister(u.M(), PC);
    u.Lda(R15H);
    Stat2(u);
    Br(u);
  }

  method Rs(u: Cpu)
    requires u.Valid()
    modifies u`a, u`x, u`z, u`n, u.mem
    ensures u.M() == Return(old(u.M()))
  {
    u.LdxImm(24);
    Dcr(u);
    u.Lda(u.IndX(R0L));
    WriteHi(u.M(), PC, u.a);
    u.Sta(R15H);
    Dcr(u);
    u.Lda(u.IndX(R0L));
    WriteLo(u.M(), PC, u.a);
    u.Sta(R15L);
  }

  // ----- dispatch -----

  datatype Status = Running | Halted | Trapped

  /** The program counter's increment, written twice in the dispatcher. */
  method IncPc(u: Cpu)
    requires u.Valid()
    modifies u`z, u`n, u.mem
    ensures u.M() == Add(old(u.M()), PC, 1)
  {
    ghost var s := u.M();
    ReadRegister(s, PC);
    IncWord(s, PC);
    u.Inc(R15L);
    if u.z {
      u.Inc(R15H);
    }
  }

  /** Fetch and split the opcode: X is the doubled low digit, A the high digit in place. */
  method Decode(u: Cpu)
    requires u.Valid()
    modifies u`a, u`x, u`y, u`c, u`z, u`n
    ensures var opcode: int := Read(u.M(), u.M().r[PC]);
            && u.x as int == 2 * (opcode % 16) && u.a as int == 16 * (opcode / 16)
            && u.y == 0 && u.z == (opcode < 16)
  {
    u.LdyImm(0);
    u.Lda(u.IndY(R15L));
    ghost var opcode := u.a;
    RegisterField(u);
    OperationField(opcode);
    u.Eor(u.At(u.IndY(R15L)));
  }

  /** AND #$F, ASL, TAX, LSR: the low digit stays in A and its double goes to X. */
  method RegisterField(u: Cpu)
    modifies u`a, u`x, u`c, u`z, u`n
    ensures u.a as int == old(u.a) as int % 16 && u.x as int == 2 * (old(u.a) as int % 16)
  {
    DispatchBits(u.a);
    u.AndA(0xF);
    DoubleHalf(u.a);
    u.AslA();
    u.Tax();
    u.LsrA();
  }

  lemma OperationField(b: byte)
    ensures XorB(b as int % 16, b) as int == 16 * (b as int / 16) && (XorB(b as int % 16, b) == 0 <==> b < 16)
  {
    DispatchBits(b);
  }

  lemma DoubleHalf(b: byte)
    requires b < 16
    ensures Wrap8(2 * b as int) == 2 * b && (2 * b) / 2 == b
  {
  }

  /** STX R14H, then three shifts that leave twice the operation code in Y and the carry clear. */
  method SelectOperation(u: Cpu, ghost op: nat)
    requires AtReg(u) && 1 <= op < 16 && u.a as int == 16 * op
    modifies u`a, u`y, u`c, u`z, u`n, u.mem
    ensures u.M() == SetPrior(old(u.M()), RegOf(u), false) && u.y as int == 2 * op && !u.c
  {
    PriorByte(u.M(), RegOf(u), false);
    u.Stx(R14H);
    u.LsrA();
    assert u.a as int == 8 * op;
    u.LsrA();
    assert u.a as int == 4 * op;
    u.LsrA();
    u.Tay();
  }

  /** The status the interpreter ends with and the state it leaves, as an outcome of the
      16-bit machine. */
  function OutcomeOf(status: Status, s: State): Outcome {
    match status
    case Running => Next(s)
    case Halted => Halt(s)
    case Trapped => Trap(s)
  }

  method RegisterOpcode(u: Cpu, ghost op: nat)
    requires AtReg(u) && 1 <= op < 16 && u.a as int == 16 * op
    modifies u`a, u`x, u`y, u`c, u`z, u`n, u.mem
    ensures u.M() == RegisterOp(SetPrior(old(u.M()), old(RegOf(u)), false), op, old(RegOf(u)))
  {
    SelectOperation(u, op);
    match u.y
    case 2 => SetConstant(u);
    case 4 => Ld(u);
    case 6 => St(u);
    case 8 => Ldat(u);
    case 10 => Stat(u);
    case 12 => Lddat(u);
    case 14 => Stdat(u);
    case 16 => PopByte(u);
    case 18 => Stpat(u);
    case 20 => AddR(u);
    case 22 => Sub(u);
    case 24 => Popd(u);
    case 26 => Cpr(u);
    case 28 => Inr(u);
    case _ => Dcr(u);
  }

  /** Non-register operations: X is twice the operation code and Y zero. */
  method BranchOpcode(u: Cpu, ghost op: nat) returns (status: Status)
    requires u.Valid() && op < 16 && u.x as int == 2 * op && u.y == 0
    modifies u`a, u`x, u`y, u`c, u`z, u`n, u.mem
    ensures OutcomeOf(status, u.M()) == NonRegisterOp(Add(old(u.M()), PC, 1), op)
  {
    IncPc(u);
    ReadRegister(u.M(), STATUS);
    u.Lda(R14H);
    u.LsrA();
    status := Running;
    match u.x
    case 0 => status := Halted;
    case 2 => Br(u);
    case 4 => Bnc(u);
    case 6 => Bc(u);
    case 8 => Bp(u);
    case 10 => Bm(u);
    case 12 => Bz(u);
    case 14 => Bnz(u);
    case 16 => Bm1(u);
    case 18 => Bnm1(u);
    case 20 => status := Trapped;
    case 22 => Rs(u);
    case 24 => Bs(u);
    case _ =>
  }

  /** SW16C: one pass of the dispatcher performs one step of the 16-bit machine. */
  method ExecuteOne(u: Cpu) returns (status: Status)
    requires u.Valid()
    modifies u`a, u`x, u`y, u`c, u`z, u`n, u.mem
    ensures OutcomeOf(status, u.M()) == Step(old(u.M()))
  {
    IncPc(u);
    Decode(u);
    ghost var opcode: int := Read(u.M(), u.M().r[PC]);
    if u.z {
      status := BranchOpcode(u, opcode);
    } else {
      assert u.x as int == 2 * (opcode % 16);
      RegisterOpcode(u, opcode / 16);
      status := Running;
    }
  }

  /** The first of the k > 0 instructions of a run. */
  method ExecuteNext(u: Cpu, ghost k: nat) returns (status: Status)
    requires u.Valid() && k > 0
    modifies u`a, u`x, u`y, u`c, u`z, u`n, u.mem
    ensures Run(old(u.M()), k) == if status == Running then Run(u.M(), k - 1) else OutcomeOf(status, u.M())
  {
    ghost var s := u.M();
    status := ExecuteOne(u);
    RunFirst(s, k);
  }

  lemma RunFirst(s: State, k: nat)
    requires k > 0
    ensures Run(s, k) == match Step(s) case Next(t) => Run(t, k - 1) case done => done
  {
  }

  /** SW16B: the interpreter's loop, cut off after n instructions. */
  method Interpret(u: Cpu, n: nat) returns (status: Status)
    requires u.Valid()
    modifies u`a, u`x, u`y, u`c, u`z, u`n, u.mem
    ensures OutcomeOf(status, u.M()) == Run(old(u.M()), n)
  {
    status := Running;
    var i := 0;
    while i < n && status == Running
      invariant i <= n
      invariant Run(old(u.M()), n) == if status == Running then Run(u.M(), n - i) else OutcomeOf(status, u.M())
      decreases n - i, status == Running
    {
      status := ExecuteNext(u, n - i);
      i := i + 1;
    }
  }
}
