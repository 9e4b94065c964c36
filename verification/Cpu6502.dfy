/** The part of the 6502 that the Sweet16 interpreter uses: accumulator, index registers, the
    carry, zero and negative flags, 64K of memory and a byte stack. */
module Cpu6502 {
  import opened Bytes
  import opened Sweet16Isa

  const R0L: byte := 0
  const R0H: byte := 1
  const R14H: byte := 0x1D
  const R15L: byte := 0x1E
  const R15H: byte := 0x1F
  const R16L: byte := 0x20
  const R16H: byte := 0x21

  /** What the 6502 stack holds: saved bytes and saved flags. */
  datatype Cell = Saved(b: byte) | Flags(c: bool, z: bool, n: bool)

  class Cpu {
    var a: byte
    var x: byte
    var y: byte
    var c: bool
    var z: bool
    var n: bool
    var stack: seq<Cell>
    const mem: array<byte>

    constructor ()
      ensures Valid() && fresh(mem)
    {
      a, x, y := 0, 0, 0;
      c, z, n := false, false, false;
      stack := [];
      mem := new byte[0x1_0000](_ => 0);
    }

    predicate Valid() { mem.Length == 0x1_0000 }

    /** The Sweet16 state held in memory. */
    ghost function M(): State
      requires Valid()
      reads mem
    {
      Abs(mem[..])
    }

    /** The memory operand at an address. */
    function At(ad: word): (b: byte)
      requires Valid()
      reads mem
      ensures b == Read(M(), ad)
    {
      AbsRead(mem[..], ad);
      mem[ad]
    }

    // ----- effective addresses -----

    function ZpX(zp: byte): (ad: byte)
      reads this`x
      ensures x <= 31 && zp < 0x80 ==> ad == zp + x
    {
      Wrap8(zp as int + x as int)
    }

    /** The pointer stored at zero-page address p. */
    function Pointer(p: byte): (ad: word)
      requires Valid()
      reads mem
      ensures p % 2 == 0 && p <= 30 ==> ad == M().r[p / 2]
    {
      AbsRead(mem[..], p);
      Word(mem[p], mem[Wrap8(p as int + 1)])
    }

    function IndX(zp: byte): (ad: word)
      requires Valid()
      reads this`x, mem
      ensures zp == R0L && x % 2 == 0 && x <= 30 ==> ad == M().r[x / 2]
    {
      Pointer(Wrap8(zp as int + x as int))
    }

    function IndY(zp: byte): (ad: word)
      requires Valid()
      reads this`y, mem
      ensures zp == R15L ==> ad == Plus(M().r[PC], y)
    {
      Plus(Pointer(zp), y)
    }

    /** (R16L),Y: the scratch pointer of the rewritten routines. */
    function Ind16Y(): (ad: word)
      requires Valid()
      reads this`y, mem
      ensures ad == Plus(ReadWord(M(), R16L), y)
    {
      AbsRead(mem[..], R16L);
      AbsRead(mem[..], R16H);
      Plus(Word(mem[R16L], mem[R16H]), y)
    }

    // ----- loads and stores -----

    method Lda(ad: word)
      requires Valid()
      modifies this`a, this`z, this`n
      ensures a == Read(M(), ad) && z == (a == 0) && n == (a >= 0x80)
    {
      a := At(ad);
      z, n := a == 0, a >= 0x80;
    }

    method LdxImm(v: byte)
      modifies this`x, this`z, this`n
      ensures x == v && z == (v == 0) && n == (v >= 0x80)
    {
      x, z, n := v, v == 0, v >= 0x80;
    }

    method LdyImm(v: byte)
      modifies this`y, this`z, this`n
      ensures y == v && z == (v == 0) && n == (v >= 0x80)
    {
      y, z, n := v, v == 0, v >= 0x80;
    }

    method Store(ad: word, v: byte)
      requires Valid()
      modifies mem
      ensures M() == Write(old(M()), ad, v)
    {
      AbsWrite(mem[..], ad, v);
      ghost var was := mem[..];
      mem[ad] := v;
      assert mem[..] == was[ad := v];
    }

    method Sta(ad: word)
      requires Valid()
      modifies mem
      ensures M() == Write(old(M()), ad, a)
    {
      Store(ad, a);
    }

    method Stx(ad: word)
      requires Valid()
      modifies mem
      ensures M() == Write(old(M()), ad, x)
    {
      Store(ad, x);
    }

    method Sty(ad: word)
      requires Valid()
      modifies mem
      ensures M() == Write(old(M()), ad, y)
    {
      Store(ad, y);
    }

    // ----- transfers and the stack -----

    method Tax()
      modifies this`x, this`z, this`n
      ensures x == a && z == (a == 0) && n == (a >= 0x80)
    {
      x, z, n := a, a == 0, a >= 0x80;
    }

    method Tay()
      modifies this`y, this`z, this`n
      ensures y == a && z == (a == 0) && n == (a >= 0x80)
    {
      y, z, n := a, a == 0, a >= 0x80;
    }

    method Tya()
      modifies this`a, this`z, this`n
      ensures a == y && z == (y == 0) && n == (y >= 0x80)
    {
      a, z, n := y, y == 0, y >= 0x80;
    }

    method Pha()
      modifies this`stack
      ensures stack == old(stack) + [Saved(a)]
    {
      stack := stack + [Saved(a)];
    }

    method Pla()
      requires |stack| > 0 && stack[|stack| - 1].Saved?
      modifies this`stack, this`a, this`z, this`n
      ensures stack == old(stack[..|stack| - 1]) && a == old(stack[|stack| - 1].b)
      ensures z == (a == 0) && n == (a >= 0x80)
    {
      a := stack[|stack| - 1].b;
      stack := stack[..|stack| - 1];
      z, n := a == 0, a >= 0x80;
    }

    method Php()
      modifies this`stack
      ensures stack == old(stack) + [Flags(c, z, n)]
    {
      stack := stack + [Flags(c, z, n)];
    }

    method Plp()
      requires |stack| > 0 && stack[|stack| - 1].Flags?
      modifies this`stack, this`c, this`z, this`n
      ensures stack == old(stack[..|stack| - 1])
      ensures Flags(c, z, n) == old(stack[|stack| - 1])
    {
      var top := stack[|stack| - 1];
      c, z, n := top.c, top.z, top.n;
      stack := stack[..|stack| - 1];
    }

    // ----- arithmetic -----

    method Adc(v: byte)
      modifies this`a, this`c, this`z, this`n
      ensures a as int + (if c then 0x100 else 0) == old(a) as int + v as int + (if old(c) then 1 else 0)
      ensures z == (a == 0) && n == (a >= 0x80)
    {
      var sum: int := a as int + v as int + if c then 1 else 0;
      a, c := Wrap8(sum), sum >= 0x100;
      z, n := a == 0, a >= 0x80;
    }

    /** Subtract with borrow: the carry is the complement of the borrow. */
    method Sbc(v: byte)
      modifies this`a, this`c, this`z, this`n
      ensures a as int == old(a) as int - v as int - (if old(c) then 0 else 1) + (if c then 0 else 0x100)
      ensures z == (a == 0) && n == (a >= 0x80)
    {
      var diff: int := a as int - v as int - if c then 0 else 1;
      a, c := Wrap8(diff), diff >= 0;
      z, n := a == 0, a >= 0x80;
    }

    method Inc(ad: word)
      requires Valid()
      modifies this`z, this`n, mem
      ensures var v := Wrap8(Read(old(M()), ad) as int + 1);
              M() == Write(old(M()), ad, v) && z == (v == 0) && n == (v >= 0x80)
    {
      AbsRead(mem[..], ad);
      var v := Wrap8(mem[ad] as int + 1);
      Store(ad, v);
      z, n := v == 0, v >= 0x80;
    }

    method Dec(ad: word)
      requires Valid()
      modifies this`z, this`n, mem
      ensures var v := Wrap8(Read(old(M()), ad) as int - 1);
              M() == Write(old(M()), ad, v) && z == (v == 0) && n == (v >= 0x80)
    {
      AbsRead(mem[..], ad);
      var v := Wrap8(mem[ad] as int - 1);
      Store(ad, v);
      z, n := v == 0, v >= 0x80;
    }

    method Dey()
      modifies this`y, this`z, this`n
      ensures y == Wrap8(old(y) as int - 1) && z == (y == 0) && n == (y >= 0x80)
    {
      y := Wrap8(y as int - 1);
      z, n := y == 0, y >= 0x80;
    }

    // ----- logic and shifts -----

    method AndA(v: byte)
      modifies this`a, this`z, this`n
      ensures a == AndB(old(a), v) && z == (a == 0) && n == (a >= 0x80)
    {
      a := AndB(a, v);
      z, n := a == 0, a >= 0x80;
    }

    method Ora(v: byte)
      modifies this`a, this`z, this`n
      ensures a == OrB(old(a), v) && z == (a == 0) && n == (a >= 0x80)
    {
      a := OrB(a, v);
      z, n := a == 0, a >= 0x80;
    }

    method Eor(v: byte)
      modifies this`a, this`z, this`n
      ensures a == XorB(old(a), v) && z == (a == 0) && n == (a >= 0x80)
    {
      a := XorB(a, v);
      z, n := a == 0, a >= 0x80;
    }

    method AslA()
      modifies this`a, this`c, this`z, this`n
      ensures a == Wrap8(2 * old(a) as int) && c == (old(a) >= 0x80) && z == (a == 0) && n == (a >= 0x80)
    {
      c := a >= 0x80;
      a := Wrap8(2 * a as int);
      z, n := a == 0, a >= 0x80;
    }

    method LsrA()
      modifies this`a, this`c, this`z, this`n
      ensures a == old(a) / 2 && c == (old(a) % 2 == 1) && z == (a == 0) && !n
    {
      c := a % 2 == 1;
      a := a / 2;
      z, n := a == 0, false;
    }

    /** Shift one memory byte left, `bit` entering at the bottom (ASL with false, ROL with c). */
    method ShiftLeft(ad: word, bit: bool)
      requires Valid()
      modifies this`c, this`z, this`n, mem
      ensures var v := Read(old(M()), ad); var w := Wrap8(2 * v as int + if bit then 1 else 0);
              M() == Write(old(M()), ad, w) && c == (v >= 0x80) && z == (w == 0) && n == (w >= 0x80)
    {
      AbsRead(mem[..], ad);
      var v := mem[ad];
      var w := Wrap8(2 * v as int + if bit then 1 else 0);
      Store(ad, w);
      c, z, n := v >= 0x80, w == 0, w >= 0x80;
    }

    /** Shift one memory byte right, `bit` entering at the top (LSR with false, ROR with c). */
    method ShiftRight(ad: word, bit: bool)
      requires Valid()
      modifies this`c, this`z, this`n, mem
      ensures var v := Read(old(M()), ad); var w := v / 2 + if bit then 0x80 else 0;
              M() == Write(old(M()), ad, w) && c == (v % 2 == 1) && z == (w == 0) && n == (w >= 0x80)
    {
      AbsRead(mem[..], ad);
      var v := mem[ad];
      var w := v / 2 + if bit then 0x80 else 0;
      Store(ad, w);
      c, z, n := v % 2 == 1, w == 0, w >= 0x80;
    }
  }
}
