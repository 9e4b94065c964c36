/** Two places where the ports of the interpreter differ from each other, and exactly when the
    differing code still does what its comments say. */
module Sweet16Ports {
  import opened Bytes
  import opened Sweet16Isa
  import opened Sweet16Words
  import opened Cpu6502
  import opened Sweet16

  // ----- BM1 and BNM1 of sweet16.asm compare with the byte at $FF -----

  method Bm1ZeroPage(u: Cpu)
    requires u.Valid() && AtTest(u, Prior(u.M()))
    modifies u`a, u`x, u`y, u`c, u`z, u`n, u.mem
    ensures var s := old(u.M());
            u.M() == BranchIf(s, MaskTest(PriorWord(s), Read(s, 0xFF)))
  {
    AndBytes(u);
    u.Eor(u.At(0xFF));
    if u.z {
      Br1(u);
    }
  }

  method Bnm1ZeroPage(u: Cpu)
    requires u.Valid() && AtTest(u, Prior(u.M()))
    modifies u`a, u`x, u`y, u`c, u`z, u`n, u.mem
    ensures var s := old(u.M());
            u.M() == BranchIf(s, !MaskTest(PriorWord(s), Read(s, 0xFF)))
  {
    AndBytes(u);
    u.Eor(u.At(0xFF));
    if !u.z {
      Br1(u);
    }
  }

  lemma MaskOfWord(w: word, mask: byte)
    ensures MaskTest(w, mask) <==> AndB(Lo(w), Hi(w)) == mask
  {
    XorIsZero(AndB(Lo(w), Hi(w)), mask);
  }

  /** With the byte at $FF as the mask, the test means "minus one" for every word if and only if
      that byte is 255. */
  lemma MinusOneMask(mask: byte)
    ensures (forall w: word :: MaskTest(w, mask) <==> w == 0xFFFF) <==> mask == 0xFF
  {
    if mask == 0xFF {
      forall w: word ensures MaskTest(w, mask) <==> w == 0xFFFF {
        MinusOneTest(w, mask);
      }
    } else {
      var w: word := 0xFFFF;
      MinusOneTest(w, 0xFF);
      MaskOfWord(w, 0xFF);
      MaskOfWord(w, mask);
    }
  }

  /** A program on which the zero-page form goes wrong: register word $FFFF, zero at $FF. */
  lemma MinusOneMissed()
    ensures !MaskTest(0xFFFF, 0)
  {
    MinusOneTest(0xFFFF, 0xFF);
    MaskOfWord(0xFFFF, 0xFF);
    MaskOfWord(0xFFFF, 0);
  }

  // ----- STDAT of jeff.s loads where it should store -----

  function LoadThenStoreHigh(s: State, x: RegIndex): State {
    var t := LoadInd(s, x);
    Add(Write(t, t.r[x], Hi(t.r[0])), x, 1)
  }

  method StdatViaLoad(u: Cpu)
    requires AtReg(u)
    modifies u`a, u`y, u`z, u`n, u.mem
    ensures u.M() == LoadThenStoreHigh(old(u.M()), RegOf(u))
  {
    Ldat(u);
    ReadRegister(u.M(), 0);
    u.Lda(R0H);
    u.Sta(u.IndX(R0L));
    Inr(u);
  }

  /** It stores R0 through a pointer into memory if and only if R0 is a byte that memory already
      holds there. */
  lemma LoadStoresExactly(s: State, x: RegIndex)
    requires x != 0 && x < 14 && 32 <= s.r[x] < 0xFFFF
    ensures LoadThenStoreHigh(s, x) == StoreDouble(s, x) <==> s.r[0] as int == Read(s, s.r[x]) as int
  {
    var p := s.r[x];
    var b := Read(s, p);
    var t := LoadInd(s, x);
    var v := Push(s, x, Lo(s.r[0]));
    assert t.r[x] == p + 1 && v.r[x] == p + 1;
    var f, g := LoadThenStoreHigh(s, x), StoreDouble(s, x);
    assert f.r[0] == b && g.r[0] == s.r[0];
    if s.r[0] as int == b as int {
      assert Lo(s.r[0]) == b && Hi(s.r[0]) == 0;
      assert s.ram[p - 32 := b] == s.ram;
      assert t.r == v.r;
    }
  }
}
