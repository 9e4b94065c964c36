/** The rewritten routines of sweet16_fix.asm, which reach memory through the scratch pointer
    R16 at $20 instead of (zp,X), and when they agree with the originals. */
module Sweet16Fixed {
  import opened Bytes
  import opened Sweet16Isa
  import opened Sweet16Words
  import opened Cpu6502
  import opened Sweet16

  /** The state with w in the scratch pair R16. */
  function SetScratch(s: State, w: word): State {
    s.(ram := s.ram[0 := Lo(w)][1 := Hi(w)])
  }

  lemma ScratchStored(s: State, w: word)
    ensures Write(Write(s, R16L, Lo(w)), R16H, Hi(w)) == SetScratch(s, w)
    ensures ReadWord(SetScratch(s, w), R16L) == w
  {
    ScratchBytes(s, Lo(w), Hi(w));
    SplitWord(w);
  }

  lemma ScratchBytes(s: State, lo: byte, hi: byte)
    ensures var t := s.(ram := s.ram[0 := lo][1 := hi]);
            Write(Write(s, R16L, lo), R16H, hi) == t && ReadWord(t, R16L) == Word(lo, hi)
  {
  }

  /** INDREG copies Rx to R16 and keeps A and the carry; its last instruction, PLA, sets the
      zero and negative flags from A although PLP has just restored them. */
  method Indreg(u: Cpu)
    requires AtReg(u)
    modifies u`a, u`c, u`z, u`n, u`stack, u.mem
    ensures u.M() == SetScratch(old(u.M()), old(u.M()).r[RegOf(u)])
    ensures u.a == old(u.a) && u.c == old(u.c) && u.stack == old(u.stack)
    ensures u.z == (u.a == 0) && u.n == (u.a >= 0x80)
  {
    ghost var saved := u.stack;
    u.Pha();
    ghost var pushed := u.stack;
    u.Php();
    CopyToScratch(u);
    u.Plp();
    assert u.stack == pushed;
    u.Pla();
    assert u.stack == saved;
  }

  method CopyToScratch(u: Cpu)
    requires AtReg(u)
    modifies u`a, u`z, u`n, u.mem
    ensures u.M() == SetScratch(old(u.M()), old(u.M()).r[RegOf(u)])
  {
    ghost var s, k := u.M(), RegOf(u);
    ReadRegister(s, k);
    ScratchStored(s, s.r[k]);
    u.Lda(u.ZpX(R0L));
    u.Sta(R16L);
    u.Lda(u.ZpX(R0H));
    u.Sta(R16H);
  }

  /** The address (R16L),Y after INDREG with Y zero is Rx. */
  lemma ThroughScratch(s: State, w: word)
    ensures Plus(ReadWord(SetScratch(s, w), R16L), 0) == w
  {
    ScratchStored(s, w);
  }

  // ----- the rewritten routines -----

  method Stat2(u: Cpu)
    requires AtReg(u)
    modifies u`a, u`y, u`c, u`z, u`n, u`stack, u.mem
    ensures var s := old(u.M()); var k := RegOf(u);
            u.M() == Push(SetScratch(s, s.r[k]), k, old(u.a))
    ensures u.stack == old(u.stack)
  {
    ThroughScratch(u.M(), u.M().r[RegOf(u)]);
    Indreg(u);
    u.LdyImm(0);
    u.Sta(u.Ind16Y());
    Stat3(u);
  }

  method Stat(u: Cpu)
    requires AtReg(u)
    modifies u`a, u`y, u`c, u`z, u`n, u`stack, u.mem
    ensures var s := old(u.M()); var k := RegOf(u);
            u.M() == Push(SetScratch(s, s.r[k]), k, Lo(s.r[0]))
    ensures u.stack == old(u.stack)
  {
    ReadRegister(u.M(), 0);
    u.Lda(R0L);
    Stat2(u);
  }

  method Ldat(u: Cpu)
    requires AtReg(u)
    modifies u`a, u`y, u`c, u`z, u`n, u`stack, u.mem
    ensures var s := old(u.M()); var k := RegOf(u);
            u.M() == LoadInd(SetScratch(s, s.r[k]), k)
    ensures u.stack == old(u.stack)
  {
    ThroughScratch(u.M(), u.M().r[RegOf(u)]);
    Indreg(u);
    ghost var t := u.M();
    u.LdyImm(0);
    u.Lda(u.Ind16Y());
    u.Sta(R0L);
    u.LdyImm(0);
    u.Sty(R0H);
    WritePair(t, 0, u.a, 0);
    Stat3(u);
  }

  /** POP2 of the rewritten file: the high byte in Y travels over the stack. */
  method Pop2(u: Cpu)
    requires AtReg(u)
    modifies u`a, u`y, u`c, u`z, u`n, u`stack, u.mem
    ensures var t := Add(old(u.M()), RegOf(u), -1); var v := SetScratch(t, t.r[RegOf(u)]);
            u.M() == SetPrior(SetReg(v, 0, Word(Read(v, v.r[RegOf(u)]), old(u.y))), 0, false)
    ensures u.stack == old(u.stack)
  {
    Dcr(u);
    ThroughScratch(u.M(), u.M().r[RegOf(u)]);
    Indreg(u);
    FetchLow(u);
    Pop3(u);
  }

  /** Load the low byte through R16 into R0, keeping Y on the stack meanwhile, and store Y as
      the high byte. */
  method FetchLow(u: Cpu)
    requires u.Valid()
    modifies u`a, u`y, u`z, u`n, u`stack, u.mem
    ensures var v := old(u.M());
            u.M() == SetReg(v, 0, Word(Read(v, Plus(ReadWord(v, R16L), 0)), old(u.y)))
    ensures u.stack == old(u.stack)
  {
    ghost var v := u.M();
    u.Tya();
    u.Pha();
    u.LdyImm(0);
    u.Lda(u.Ind16Y());
    WritePair(v, 0, u.a, old(u.y));
    u.Sta(R0L);
    u.Pla();
    u.Tay();
    u.Lda(R0L);
    u.Sty(R0H);
  }

  method PopByte(u: Cpu)
    requires AtReg(u)
    modifies u`a, u`y, u`c, u`z, u`n, u`stack, u.mem
    ensures var s := old(u.M()); var k := RegOf(u);
            u.M() == Pop(SetScratch(s, Plus(s.r[k], -1)), k)
    ensures u.stack == old(u.stack)
  {
    u.LdyImm(0);
    Pop2(u);
  }

  /** The two bytes are fetched while R16 holds two different pointers. */
  function PopDoubleFixed(s: State, k: RegIndex): State {
    var t := Add(s, k, -1);
    var v := SetScratch(t, t.r[k]);
    var w := Add(v, k, -1);
    var y := SetScratch(w, w.r[k]);
    SetPrior(SetReg(y, 0, Word(Read(y, y.r[k]), Read(v, v.r[k]))), 0, false)
  }

  method Popd(u: Cpu)
    requires AtReg(u)
    modifies u`a, u`y, u`c, u`z, u`n, u`stack, u.mem
    ensures u.M() == PopDoubleFixed(old(u.M()), RegOf(u))
    ensures u.stack == old(u.stack)
  {
    Dcr(u);
    ThroughScratch(u.M(), u.M().r[RegOf(u)]);
    Indreg(u);
    u.LdyImm(0);
    u.Lda(u.Ind16Y());
    u.Tay();
    Pop2(u);
  }

  method Stpat(u: Cpu)
    requires AtReg(u)
    modifies u`a, u`y, u`c, u`z, u`n, u`stack, u.mem
    ensures var s := old(u.M()); var k := RegOf(u);
            u.M() == StorePop(SetScratch(s, Plus(s.r[k], -1)), k)
    ensures u.stack == old(u.stack)
  {
    Dcr(u);
    ThroughScratch(u.M(), u.M().r[RegOf(u)]);
    Indreg(u);
    ReadRegister(u.M(), 0);
    u.Tya();
    u.Pha();
    u.Lda(R0L);
    u.LdyImm(0);
    u.Sta(u.Ind16Y());
    u.Pla();
    u.Tay();
    Pop3(u);
  }

  /** LDDAT's slot now shifts Rx left. */
  method Shl(u: Cpu)
    requires AtReg(u)
    modifies u`c, u`z, u`n, u.mem
    ensures var s := old(u.M()); var k := RegOf(u);
            u.M() == SetReg(s, k, Wrap16(2 * s.r[k] as int)) && u.c == (s.r[k] >= 0x8000)
  {
    ghost var s, k := u.M(), RegOf(u);
    ReadRegister(s, k);
    DoubleStored(s, k);
    u.ShiftLeft(u.ZpX(R0L), false);
    u.ShiftLeft(u.ZpX(R0H), u.c);
  }

  /** STDAT's slot now shifts Rx right. */
  method Shr(u: Cpu)
    requires AtReg(u)
    modifies u`c, u`z, u`n, u.mem
    ensures var s := old(u.M()); var k := RegOf(u);
            u.M() == SetReg(s, k, s.r[k] / 2) && u.c == (s.r[k] % 2 == 1)
  {
    ghost var s, k := u.M(), RegOf(u);
    ReadRegister(s, k);
    u.ShiftRight(u.ZpX(R0H), false);
    ghost var hi := Hi(s.r[k]) / 2;
    LoAfterHi(s, k, hi);
    ghost var lo := Lo(s.r[k]) / 2 + if u.c then 0x80 else 0;
    HalfWord(s, k, lo, hi);
    u.ShiftRight(u.ZpX(R0L), u.c);
  }

  lemma DoubleByte(b: byte, carry: int)
    requires 0 <= carry <= 1
    ensures Wrap8(2 * b as int + carry) as int == 2 * b as int + carry - if b >= 0x80 then 0x100 else 0
  {
  }

  lemma DoubleParts(l: byte, h: byte, lo: byte, hi: byte)
    requires lo as int == 2 * l as int - if l >= 0x80 then 0x100 else 0
    requires hi as int == 2 * h as int + (if l >= 0x80 then 1 else 0) - if h >= 0x80 then 0x100 else 0
    ensures 2 * Word(l, h) as int == Word(lo, hi) as int + if h >= 0x80 then 0x1_0000 else 0
  {
  }

  lemma DoubleWord(w: word, lo: byte, hi: byte)
    requires lo == Wrap8(2 * Lo(w) as int)
    requires hi == Wrap8(2 * Hi(w) as int + if Lo(w) >= 0x80 then 1 else 0)
    ensures Word(lo, hi) == Wrap16(2 * w as int)
  {
    SplitWord(w);
    DoubleByte(Lo(w), 0);
    DoubleByte(Hi(w), if Lo(w) >= 0x80 then 1 else 0);
    DoubleParts(Lo(w), Hi(w), lo, hi);
  }

  lemma DoubleStored(s: State, k: RegIndex)
    ensures var lo: byte := Wrap8(2 * Lo(s.r[k]) as int);
            var t := Write(s, 2 * k, lo);
            && Read(t, 2 * k + 1) == Hi(s.r[k])
            && Write(t, 2 * k + 1, Wrap8(2 * Hi(s.r[k]) as int + if Lo(s.r[k]) >= 0x80 then 1 else 0))
                == SetReg(s, k, Wrap16(2 * s.r[k] as int))
    ensures Hi(s.r[k]) >= 0x80 <==> s.r[k] >= 0x8000
  {
    var lo: byte := Wrap8(2 * Lo(s.r[k]) as int);
    var hi: byte := Wrap8(2 * Hi(s.r[k]) as int + if Lo(s.r[k]) >= 0x80 then 1 else 0);
    HiAfterLo(s, k, lo, k);
    DoubleWord(s.r[k], lo, hi);
    WritePair(s, k, lo, hi);
  }

  lemma HalfWord(s: State, k: RegIndex, lo: byte, hi: byte)
    requires hi == Hi(s.r[k]) / 2 && lo as int == Lo(s.r[k]) as int / 2 + if Hi(s.r[k]) % 2 == 1 then 0x80 else 0
    ensures Write(Write(s, 2 * k + 1, hi), 2 * k, lo) == SetReg(s, k, s.r[k] / 2)
    ensures Lo(s.r[k]) % 2 == s.r[k] % 2
  {
    SplitWord(s.r[k]);
    assert Word(lo, hi) == s.r[k] / 2;
    WritePairBack(s, k, lo, hi);
  }

  // ----- agreement with the originals -----

  /** Equal registers and memory, the scratch pair aside. */
  ghost predicate SameButScratch(s: State, t: State) {
    s.r == t.r && forall i :: 2 <= i < RAM_SIZE ==> s.ram[i] == t.ram[i]
  }

  /** Stores agree with the originals whatever they point at. */
  lemma StatAgrees(s: State, k: RegIndex)
    ensures SameButScratch(Push(SetScratch(s, s.r[k]), k, Lo(s.r[0])), Push(s, k, Lo(s.r[0])))
  {
  }

  lemma StpatAgrees(s: State, k: RegIndex)
    ensures SameButScratch(StorePop(SetScratch(s, Plus(s.r[k], -1)), k), StorePop(s, k))
  {
  }

  /** Reading at p is not disturbed by p having been put in R16: p lies outside the pair, or
      the pair already held the byte it would hold then. */
  predicate Undisturbed(s: State, p: word) {
    (p == 0x20 ==> s.ram[0] == 0x20) && (p == 0x21 ==> s.ram[1] == 0)
  }

  lemma ReadThroughScratch(s: State, p: word)
    ensures Read(SetScratch(s, p), p) == Read(s, p) <==> Undisturbed(s, p)
  {
  }

  lemma LdatAgrees(s: State, k: RegIndex)
    ensures SameButScratch(LoadInd(SetScratch(s, s.r[k]), k), LoadInd(s, k)) <==> Undisturbed(s, s.r[k])
  {
    var a, b := LoadInd(SetScratch(s, s.r[k]), k), LoadInd(s, k);
    ReadThroughScratch(s, s.r[k]);
    if Undisturbed(s, s.r[k]) {
      assert a.r == b.r;
    } else {
      assert a.r[0] != b.r[0];
    }
  }

  lemma PopAgrees(s: State, k: RegIndex)
    ensures SameButScratch(Pop(SetScratch(s, Plus(s.r[k], -1)), k), Pop(s, k)) <==> Undisturbed(s, Plus(s.r[k], -1))
  {
    var p := Plus(s.r[k], -1);
    var a, b := Pop(SetScratch(s, p), k), Pop(s, k);
    var t := Add(s, k, -1);
    ReadThroughScratch(t, p);
    assert SetScratch(t, p) == Add(SetScratch(s, p), k, -1);
    assert b.r[0] as int == Read(t, p) && a.r[0] as int == Read(SetScratch(t, p), p);
    if Undisturbed(s, p) {
      assert a.r == b.r;
    }
  }

  lemma PopdAgrees(s: State, k: RegIndex)
    ensures SameButScratch(PopDoubleFixed(s, k), PopDouble(s, k))
      <==> Undisturbed(s, Plus(s.r[k], -1)) && Undisturbed(s, Plus(Plus(s.r[k], -1), -1))
  {
    var p, q := Plus(s.r[k], -1), Plus(Plus(s.r[k], -1), -1);
    var t := Add(s, k, -1);
    var w := Add(t, k, -1);
    var v := SetScratch(t, p);
    var y := SetScratch(Add(v, k, -1), q);
    ReadThroughScratch(t, p);
    ReadThroughScratch(w, q);
    assert Add(v, k, -1) == SetScratch(w, p) && y.ram == SetScratch(w, q).ram && y.r == w.r;
    assert Read(y, q) == Read(SetScratch(w, q), q);
    var a, b := PopDoubleFixed(s, k), PopDouble(s, k);
    assert a.r[0] == Word(Read(y, q), Read(v, p)) && b.r[0] == Word(Read(w, q), Read(t, p));
    WordParts(Read(y, q), Read(v, p));
    WordParts(Read(w, q), Read(t, p));
    if Undisturbed(s, p) && Undisturbed(s, q) {
      assert a.r == b.r;
    }
  }

  /** All registers point at R16's low byte, which holds zero. */
  const POINTING_AT_SCRATCH: State := Machine(seq(16, _ => 0x20), seq(RAM_SIZE, _ => 0))

  /** There the rewritten LD @Rx loads the pointer it has just copied instead of the zero. */
  lemma LdatDiffers(k: RegIndex)
    ensures var s := POINTING_AT_SCRATCH;
            && LoadInd(s, 0).r[0] == 1 && LoadInd(SetScratch(s, s.r[0]), 0).r[0] == 0x21
            && !SameButScratch(LoadInd(SetScratch(s, s.r[k]), k), LoadInd(s, k))
  {
    var s := POINTING_AT_SCRATCH;
    LdatAgrees(s, k);
    SplitWord(0x20);
  }
}
