/** How the interpreter's byte operations act on 16-bit registers. */
module Sweet16Words {
  import opened Bytes
  import opened Sweet16Isa

  lemma WriteLo(s: State, k: RegIndex, b: byte)
    ensures Write(s, 2 * k, b) == SetReg(s, k, Word(b, Hi(s.r[k])))
  {
    assert (2 * k) / 2 == k && (2 * k) % 2 == 0;
  }

  lemma WriteHi(s: State, k: RegIndex, b: byte)
    ensures Write(s, 2 * k + 1, b) == SetReg(s, k, Word(Lo(s.r[k]), b))
  {
    assert (2 * k + 1) / 2 == k && (2 * k + 1) % 2 == 1;
  }

  lemma SetTwice(s: State, k: RegIndex, v: word, w: word)
    ensures SetReg(SetReg(s, k, v), k, w) == SetReg(s, k, w)
  {
    assert s.r[k := v][k := w] == s.r[k := w];
  }

  lemma SplitWord(w: word)
    ensures w == Word(Lo(w), Hi(w))
  {
  }

  lemma IncBytes(lo: byte, hi: byte)
    ensures lo < 0xFF ==> Word(Wrap8(lo as int + 1), hi) == Plus(Word(lo, hi), 1)
    ensures lo == 0xFF ==> Wrap8(lo as int + 1) == 0 && Word(0, Wrap8(hi as int + 1)) == Plus(Word(lo, hi), 1)
  {
  }

  lemma DecBytes(lo: byte, hi: byte)
    ensures lo != 0 ==> Word(Wrap8(lo as int - 1), hi) == Plus(Word(lo, hi), -1)
    ensures lo == 0 ==> Wrap8(lo as int - 1) == 0xFF && Word(0xFF, Wrap8(hi as int - 1)) == Plus(Word(lo, hi), -1)
  {
  }

  /** INC on the low byte, then on the high byte when the low one wraps to zero. */
  lemma IncWord(s: State, k: RegIndex)
    ensures var b := Wrap8(Lo(s.r[k]) as int + 1); var t := Write(s, 2 * k, b);
            if b != 0 then t == Add(s, k, 1)
            else Write(t, 2 * k + 1, Wrap8(Read(t, 2 * k + 1) as int + 1)) == Add(s, k, 1)
  {
    var lo, hi := Lo(s.r[k]), Hi(s.r[k]);
    SplitWord(s.r[k]);
    IncBytes(lo, hi);
    WriteLo(s, k, Wrap8(lo as int + 1));
    if lo == 0xFF {
      HiAfterLo(s, k, 0, k);
      WritePair(s, k, 0, Wrap8(hi as int + 1));
    }
  }

  /** DEC on the high byte first when the low one is zero, then on the low byte. */
  lemma DecWord(s: State, k: RegIndex)
    ensures var b := Wrap8(Lo(s.r[k]) as int - 1);
            if Lo(s.r[k]) != 0 then Write(s, 2 * k, b) == Add(s, k, -1)
            else Write(Write(s, 2 * k + 1, Wrap8(Hi(s.r[k]) as int - 1)), 2 * k, b) == Add(s, k, -1)
  {
    var lo, hi := Lo(s.r[k]), Hi(s.r[k]);
    SplitWord(s.r[k]);
    DecBytes(lo, hi);
    if lo != 0 {
      WriteLo(s, k, Wrap8(lo as int - 1));
    } else {
      WritePairBack(s, k, 0xFF, Wrap8(hi as int - 1));
    }
  }

  /** Writing the high byte first. */
  lemma WritePairBack(s: State, k: RegIndex, lo: byte, hi: byte)
    ensures Write(Write(s, 2 * k + 1, hi), 2 * k, lo) == SetReg(s, k, Word(lo, hi))
  {
    WriteHi(s, k, hi);
    WordParts(Lo(s.r[k]), hi);
    WriteLo(Write(s, 2 * k + 1, hi), k, lo);
    SetTwice(s, k, Word(Lo(s.r[k]), hi), Word(lo, hi));
  }

  lemma PriorByte(s: State, k: RegIndex, carry: bool)
    ensures Write(s, 0x1D, 2 * k + if carry then 1 else 0) == SetPrior(s, k, carry)
  {
    WriteHi(s, STATUS, 2 * k + if carry then 1 else 0);
  }

  /** Adding bytes with carry, low then high, adds words. */
  lemma AddBytes(u: word, v: word, lo: byte, c: bool, hi: byte, d: bool)
    requires lo as int + (if c then 0x100 else 0) == Lo(u) as int + Lo(v) as int
    requires hi as int + (if d then 0x100 else 0) == Hi(u) as int + Hi(v) as int + (if c then 1 else 0)
    ensures Word(lo, hi) == Wrap16(u as int + v as int) && d == (u as int + v as int >= 0x1_0000)
  {
    SplitWord(u);
    SplitWord(v);
    SumOfParts(Lo(u), Hi(u), Lo(v), Hi(v), lo, c, hi, d);
  }

  lemma SumOfParts(ul: byte, uh: byte, vl: byte, vh: byte, lo: byte, c: bool, hi: byte, d: bool)
    requires lo as int + (if c then 0x100 else 0) == ul as int + vl as int
    requires hi as int + (if d then 0x100 else 0) == uh as int + vh as int + (if c then 1 else 0)
    ensures Word(ul, uh) as int + Word(vl, vh) as int == Word(lo, hi) as int + if d then 0x1_0000 else 0
  {
  }

  /** Subtracting bytes with borrow, low then high, subtracts words. */
  lemma SubBytes(u: word, v: word, lo: byte, c: bool, hi: byte, d: bool)
    requires lo as int == Lo(u) as int - Lo(v) as int + (if c then 0 else 0x100)
    requires hi as int == Hi(u) as int - Hi(v) as int - (if c then 0 else 1) + (if d then 0 else 0x100)
    ensures Word(lo, hi) == Plus(u, -(v as int)) && d == (u >= v)
  {
    SplitWord(u);
    SplitWord(v);
    DifferenceOfParts(Lo(u), Hi(u), Lo(v), Hi(v), lo, c, hi, d);
    WrappedDifference(u, v, Word(lo, hi), d);
  }

  lemma WrappedDifference(u: word, v: word, w: word, d: bool)
    requires u as int - v as int == w as int - if d then 0 else 0x1_0000
    ensures w == Plus(u, -(v as int)) && d == (u >= v)
  {
  }

  lemma DifferenceOfParts(ul: byte, uh: byte, vl: byte, vh: byte, lo: byte, c: bool, hi: byte, d: bool)
    requires lo as int == ul as int - vl as int + (if c then 0 else 0x100)
    requires hi as int == uh as int - vh as int - (if c then 0 else 1) + (if d then 0 else 0x100)
    ensures Word(ul, uh) as int - Word(vl, vh) as int == Word(lo, hi) as int - if d then 0 else 0x1_0000
  {
  }

  /** Adding a displacement byte to the program counter with its sign extended. */
  lemma AddDisplacement(u: word, d: byte, lo: byte, c: bool, hi: byte, e: bool)
    requires lo as int + (if c then 0x100 else 0) == d as int + Lo(u) as int
    requires hi as int + (if e then 0x100 else 0)
               == (if d < 0x80 then 0 else 0xFF) + Hi(u) as int + (if c then 1 else 0)
    ensures Word(lo, hi) == Plus(u, Displacement(d))
  {
    SplitWord(u);
    JumpOfParts(Lo(u), Hi(u), d, lo, c, hi, e);
  }

  lemma JumpOfParts(ul: byte, uh: byte, d: byte, lo: byte, c: bool, hi: byte, e: bool)
    requires lo as int + (if c then 0x100 else 0) == d as int + ul as int
    requires hi as int + (if e then 0x100 else 0) == (if d < 0x80 then 0 else 0xFF) + uh as int + (if c then 1 else 0)
    ensures Word(ul, uh) as int + Displacement(d)
              == Word(lo, hi) as int + 0x1_0000 * ((if e then 1 else 0) - if d < 0x80 then 0 else 1)
  {
  }

  lemma CarryInto(w: word, lo: byte, c: bool)
    requires lo as int + (if c then 0x100 else 0) == Lo(w) as int + 2
    ensures Word(lo, if c then Wrap8(Hi(w) as int + 1) else Hi(w)) == Plus(w, 2)
  {
    SplitWord(w);
  }

  /** Adding 2 to the low byte with carry in, then the carry to the high byte. */
  lemma AddTwo(s: State, k: RegIndex, lo: byte, c: bool)
    requires lo as int + (if c then 0x100 else 0) == Lo(s.r[k]) as int + 2
    ensures var t := Write(s, 2 * k, lo);
            if !c then t == Add(s, k, 2) else Write(t, 2 * k + 1, Wrap8(Read(t, 2 * k + 1) as int + 1)) == Add(s, k, 2)
  {
    CarryInto(s.r[k], lo, c);
    WriteLo(s, k, lo);
    if c {
      HiAfterLo(s, k, lo, k);
      WritePair(s, k, lo, Wrap8(Hi(s.r[k]) as int + 1));
    }
  }

  /** Storing a low byte changes no high byte. */
  lemma HiAfterLo(s: State, k: RegIndex, lo: byte, j: RegIndex)
    ensures Read(Write(s, 2 * k, lo), 2 * j + 1) == Hi(s.r[j])
  {
    WriteLo(s, k, lo);
    WordParts(lo, Hi(s.r[k]));
    ReadRegister(Write(s, 2 * k, lo), j);
  }

  lemma HiOfStored(s: State, r: RegIndex, lo: byte, k: RegIndex)
    ensures Hi(Write(s, 2 * r, lo).r[k]) == Hi(s.r[k]) && Hi(Write(s, 2 * r, lo).r[0]) == Hi(s.r[0])
  {
    WriteLo(s, r, lo);
    WordParts(lo, Hi(s.r[r]));
  }

  lemma LoAfterHi(s: State, k: RegIndex, hi: byte)
    ensures Read(Write(s, 2 * k + 1, hi), 2 * k) == Lo(s.r[k])
  {
    WriteHi(s, k, hi);
    WordParts(Lo(s.r[k]), hi);
    ReadRegister(Write(s, 2 * k + 1, hi), k);
  }

  lemma SumStored(s: State, k: RegIndex, lo: byte, c: bool, hi: byte, d: bool)
    requires lo as int + (if c then 0x100 else 0) == Lo(s.r[0]) as int + Lo(s.r[k]) as int
    requires hi as int + (if d then 0x100 else 0) == Hi(s.r[0]) as int + Hi(s.r[k]) as int + (if c then 1 else 0)
    ensures SetPrior(Write(Write(s, 0, lo), 1, hi), 0, d) == AddReg(s, k)
  {
    AddBytes(s.r[0], s.r[k], lo, c, hi, d);
    WritePair(s, 0, lo, hi);
  }

  lemma DifferenceStored(s: State, k: RegIndex, r: RegIndex, lo: byte, c: bool, hi: byte, d: bool)
    requires lo as int == Lo(s.r[0]) as int - Lo(s.r[k]) as int + (if c then 0 else 0x100)
    requires hi as int == Hi(s.r[0]) as int - Hi(s.r[k]) as int - (if c then 0 else 1) + (if d then 0 else 0x100)
    ensures SetPrior(Write(Write(s, 2 * r, lo), 2 * r + 1, hi), r, d) == Subtract(s, k, r)
  {
    SubBytes(s.r[0], s.r[k], lo, c, hi, d);
    WritePair(s, r, lo, hi);
  }

  lemma JumpStored(s: State, d: byte, lo: byte, c: bool, hi: byte, e: bool)
    requires lo as int + (if c then 0x100 else 0) == d as int + Lo(s.r[PC]) as int
    requires hi as int + (if e then 0x100 else 0)
               == (if d < 0x80 then 0 else 0xFF) + Hi(s.r[PC]) as int + (if c then 1 else 0)
    ensures Write(Write(s, 30, lo), 31, hi) == Add(s, PC, Displacement(d))
  {
    AddDisplacement(s.r[PC], d, lo, c, hi, e);
    WritePair(s, PC, lo, hi);
  }

  /** The word test of BM1 and BNM1 with an arbitrary mask byte. */
  predicate MaskTest(w: word, mask: byte) { XorB(AndB(Lo(w), Hi(w)), mask) == 0 }

  lemma MinusOneTest(w: word, mask: byte)
    ensures mask == 0xFF ==> MaskTest(w, mask) == (w == 0xFFFF)
  {
    OnesTest(Lo(w), Hi(w));
    SplitWord(w);
  }

  // ----- whole routines in terms of the bytes they move -----

  /** Copying register x's bytes one after the other copies the register. */
  lemma CopyToR0(s: State, x: byte)
    requires x % 2 == 0 && x <= 30
    ensures var t := Write(s, 0, Read(s, x));
            Write(t, 1, Read(t, x + 1)) == SetReg(s, 0, s.r[x / 2])
  {
    var k: RegIndex := x / 2;
    ReadRegister(s, k);
    WriteLo(s, 0, Lo(s.r[k]));
    ReadRegister(Write(s, 0, Lo(s.r[k])), k);
    HiOfStored(s, 0, Lo(s.r[k]), k);
    WritePair(s, 0, Lo(s.r[k]), Hi(s.r[k]));
    SplitWord(s.r[k]);
  }

  lemma CopyFromR0(s: State, x: byte)
    requires x % 2 == 0 && x <= 30
    ensures var t := Write(s, x, Read(s, 0));
            Write(t, x + 1, Read(t, 1)) == SetReg(s, x / 2, s.r[0])
  {
    var k: RegIndex := x / 2;
    ReadRegister(s, 0);
    WriteLo(s, k, Lo(s.r[0]));
    ReadRegister(Write(s, 2 * k, Lo(s.r[0])), 0);
    HiOfStored(s, k, Lo(s.r[0]), k);
    WritePair(s, k, Lo(s.r[0]), Hi(s.r[0]));
    SplitWord(s.r[0]);
  }

  /** The two bytes SET stores. */
  lemma ConstantStored(s: State, x: byte)
    requires x % 2 == 0 && x <= 30
    ensures var t := Write(s, x + 1, Read(s, Plus(s.r[PC], 2)));
            Add(Write(t, x, Read(t, Plus(t.r[PC], 1))), PC, 2) == Set(s, x / 2)
  {
    var k: RegIndex := x / 2;
    WriteHi(s, k, Read(s, Plus(s.r[PC], 2)));
    var t := Write(s, x + 1, Read(s, Plus(s.r[PC], 2)));
    WriteLo(t, k, Read(t, Plus(t.r[PC], 1)));
  }
}
