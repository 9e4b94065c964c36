/** Bytes and 16-bit words as bounded integers, with the 6502's bitwise operations. */
module Bytes {
  type byte = b: int | 0 <= b < 0x100
  type word = w: int | 0 <= w < 0x1_0000

  function Word(lo: byte, hi: byte): word { lo + 0x100 * hi }

  /** The two bytes of a word. */
  function Split(w: word): (byte, byte) {
    assert w == Word(w % 0x100, w / 0x100);
    var lo: byte, hi: byte :| w == Word(lo, hi); (lo, hi)
  }

  function Lo(w: word): byte { Split(w).0 }

  function Hi(w: word): byte { Split(w).1 }

  /** A sum or difference that left the range of a byte or a word by at most one turn. */
  function Wrap8(v: int): byte
    requires -0x100 <= v < 0x200
  {
    if v < 0 then v + 0x100 else if v >= 0x100 then v - 0x100 else v
  }

  function Wrap16(v: int): word
    requires -0x1_0000 <= v < 0x2_0000
  {
    if v < 0 then v + 0x1_0000 else if v >= 0x1_0000 then v - 0x1_0000 else v
  }

  /** Both are what they are meant to be. */
  lemma WrapIsModulo(v: int)
    ensures -0x100 <= v < 0x200 ==> Wrap8(v) as int == v % 0x100
    ensures -0x1_0000 <= v < 0x2_0000 ==> Wrap16(v) as int == v % 0x1_0000
  {
  }

  lemma SplitIsModulo(w: word)
    ensures Lo(w) == w % 0x100 && Hi(w) == w / 0x100
  {
  }

  lemma WordParts(lo: byte, hi: byte)
    ensures Lo(Word(lo, hi)) == lo && Hi(Word(lo, hi)) == hi
  {
  }

  function And(a: nat, b: nat): nat {
    if a == 0 || b == 0 then 0 else 2 * And(a / 2, b / 2) + (if a % 2 == 1 && b % 2 == 1 then 1 else 0)
  }

  function Or(a: nat, b: nat): nat
    decreases a + b
  {
    if a == 0 && b == 0 then 0 else 2 * Or(a / 2, b / 2) + (if a % 2 + b % 2 > 0 then 1 else 0)
  }

  function Xor(a: nat, b: nat): nat
    decreases a + b
  {
    if a == 0 && b == 0 then 0 else 2 * Xor(a / 2, b / 2) + (a + b) % 2
  }

  function Pow2(n: nat): (p: nat)
    ensures p >= 1
  {
    if n == 0 then 1 else 2 * Pow2(n - 1)
  }

  lemma {:induction false} AndBound(a: nat, b: nat, n: nat)
    requires a < Pow2(n)
    ensures And(a, b) < Pow2(n)
  {
    if a != 0 && b != 0 {
      AndBound(a / 2, b / 2, n - 1);
    }
  }

  lemma {:induction false} OrBound(a: nat, b: nat, n: nat)
    requires a < Pow2(n) && b < Pow2(n)
    ensures Or(a, b) < Pow2(n)
    decreases n
  {
    if a != 0 || b != 0 {
      OrBound(a / 2, b / 2, n - 1);
    }
  }

  lemma {:induction false} XorBound(a: nat, b: nat, n: nat)
    requires a < Pow2(n) && b < Pow2(n)
    ensures Xor(a, b) < Pow2(n)
    decreases n
  {
    if a != 0 || b != 0 {
      XorBound(a / 2, b / 2, n - 1);
    }
  }

  lemma Pow2Of8()
    ensures Pow2(8) == 0x100
  {
    assert Pow2(2) == 4 && Pow2(4) == 16 && Pow2(6) == 64;
  }

  function AndB(a: byte, b: byte): byte {
    Pow2Of8(); AndBound(a, b, 8); And(a, b)
  }

  function OrB(a: byte, b: byte): byte {
    Pow2Of8(); OrBound(a, b, 8); Or(a, b)
  }

  function XorB(a: byte, b: byte): byte {
    Pow2Of8(); XorBound(a, b, 8); Xor(a, b)
  }

  /** The n low bits of a, and n bits set. */
  function LowBits(a: nat, n: nat): nat {
    if n == 0 then 0 else 2 * LowBits(a / 2, n - 1) + a % 2
  }

  function Ones(n: nat): nat {
    if n == 0 then 0 else 2 * Ones(n - 1) + 1
  }

  lemma {:induction false} AndOnes(a: nat, n: nat)
    ensures And(a, Ones(n)) == LowBits(a, n)
  {
    if n > 0 {
      AndOnes(a / 2, n - 1);
      assert Ones(n) / 2 == Ones(n - 1);
    }
  }

  lemma {:induction false} XorLowBits(a: nat, n: nat)
    ensures Xor(LowBits(a, n), a) == a - LowBits(a, n)
  {
    if n == 0 {
      XorZero(a);
    } else {
      XorLowBits(a / 2, n - 1);
      assert LowBits(a, n) / 2 == LowBits(a / 2, n - 1);
    }
  }

  lemma Modulo16(a: nat, q: nat, r: nat)
    requires a == 16 * q + r && r < 16
    ensures a % 16 == r
  {
  }

  /** Halving four times splits off four bits. */
  lemma FourBits(a: nat, a1: nat, a2: nat, a3: nat, a4: nat, b0: nat, b1: nat, b2: nat, b3: nat)
    requires a == 2 * a1 + b0 && a1 == 2 * a2 + b1 && a2 == 2 * a3 + b2 && a3 == 2 * a4 + b3
    ensures a == 16 * a4 + (8 * b3 + 4 * b2 + 2 * b1 + b0)
  {
  }

  lemma LowBitsNext(a: nat, n: nat)
    ensures LowBits(a, n + 1) == 2 * LowBits(a / 2, n) + a % 2
  {
  }

  lemma LowNibble(a: nat)
    ensures LowBits(a, 4) == a % 16
  {
    var a1 := a / 2;
    var a2 := a1 / 2;
    var a3 := a2 / 2;
    LowBitsNext(a3, 0);
    LowBitsNext(a2, 1);
    LowBitsNext(a1, 2);
    LowBitsNext(a, 3);
    FourBits(a, a1, a2, a3, a3 / 2, a % 2, a1 % 2, a2 % 2, a3 % 2);
    Modulo16(a, a3 / 2, 8 * (a3 % 2) + 4 * (a2 % 2) + 2 * (a1 % 2) + a % 2);
  }

  lemma {:induction false} XorZero(a: nat)
    ensures Xor(0, a) == a
  {
    if a > 0 {
      XorZero(a / 2);
    }
  }

  lemma {:induction false} OrIsZero(a: nat, b: nat)
    ensures Or(a, b) == 0 <==> a == 0 && b == 0
    decreases a + b
  {
    if a != 0 || b != 0 {
      OrIsZero(a / 2, b / 2);
    }
  }

  lemma {:induction false} XorIsZero(a: nat, b: nat)
    ensures Xor(a, b) == 0 <==> a == b
    decreases a + b
  {
    if a != 0 || b != 0 {
      XorIsZero(a / 2, b / 2);
    }
  }

  lemma {:induction false} AndIsOnes(a: nat, b: nat, n: nat)
    requires a < Pow2(n) && b < Pow2(n)
    ensures And(a, b) == Pow2(n) - 1 <==> a == Pow2(n) - 1 && b == Pow2(n) - 1
  {
    if n > 0 && a != 0 && b != 0 {
      AndIsOnes(a / 2, b / 2, n - 1);
      AndBound(a / 2, b / 2, n - 1);
    }
  }

  /** The bit tricks of the interpreter's dispatcher and word tests. */
  lemma DispatchBits(b: byte)
    ensures AndB(b, 0xF) == b % 16 && XorB(b % 16, b) == b - b % 16
  {
    assert Ones(4) == 15 by { assert Ones(2) == 3; }
    AndOnes(b, 4);
    XorLowBits(b, 4);
    LowNibble(b);
  }

  lemma ZeroTest(lo: byte, hi: byte)
    ensures OrB(lo, hi) == 0 <==> Word(lo, hi) == 0
  {
    OrIsZero(lo, hi);
  }

  lemma OnesTest(lo: byte, hi: byte)
    ensures XorB(AndB(lo, hi), 0xFF) == 0 <==> Word(lo, hi) == 0xFFFF
  {
    Pow2Of8();
    XorIsZero(AndB(lo, hi), 0xFF);
    AndIsOnes(lo, hi, 8);
  }
}
