/** Sweet16 as a 16-bit machine: sixteen word registers and a byte memory. Registers R0 to R15
    occupy the first 32 addresses; R15 is the program counter, and the high byte of R14 holds
    the index of the register last written, doubled, plus the carry. */
module Sweet16Isa {
  import opened Bytes

  const RAM_SIZE := 0xFFE0

  datatype Machine = Machine(r: seq<word>, ram: seq<byte>)

  predicate WellFormed(m: Machine) { |m.r| == 16 && |m.ram| == RAM_SIZE }

  type State = m: Machine | WellFormed(m) witness Machine(seq(16, _ => 0), seq(RAM_SIZE, _ => 0))

  type RegIndex = k: nat | k < 16

  const PC: RegIndex := 15
  const STATUS: RegIndex := 14
  const SP: RegIndex := 12

  // ----- memory and registers -----

  function Read(s: State, a: word): byte {
    if a < 32 then (if a % 2 == 0 then Lo(s.r[a / 2]) else Hi(s.r[a / 2])) else s.ram[a - 32]
  }

  function Write(s: State, a: word, b: byte): State {
    if a < 32 then
      s.(r := s.r[a / 2 := if a % 2 == 0 then Word(b, Hi(s.r[a / 2])) else Word(Lo(s.r[a / 2]), b)])
    else s.(ram := s.ram[a - 32 := b])
  }

  function ReadWord(s: State, a: word): word {
    Word(Read(s, a), Read(s, Plus(a, 1)))
  }

  function Plus(w: word, d: int): word
    requires -0x1_0000 <= d <= 0x1_0000
  {
    Wrap16(w as int + d)
  }

  function SetReg(s: State, k: RegIndex, v: word): State { s.(r := s.r[k := v]) }

  function Add(s: State, k: RegIndex, d: int): State
    requires -0x1_0000 <= d <= 0x1_0000
  {
    SetReg(s, k, Plus(s.r[k], d))
  }

  /** The prior result register and the carry. */
  function Prior(s: State): nat { Hi(s.r[STATUS]) / 2 }

  predicate Carry(s: State) { Hi(s.r[STATUS]) % 2 == 1 }

  function SetPrior(s: State, k: RegIndex, carry: bool): State {
    SetReg(s, STATUS, Word(Lo(s.r[STATUS]), 2 * k + if carry then 1 else 0))
  }

  /** The word the conditional branches test. */
  function PriorWord(s: State): word { ReadWord(s, 2 * Prior(s)) }

  // ----- register operations -----

  /** R0 := byte at Rx, then Rx advances. */
  function LoadInd(s: State, x: RegIndex): State {
    Add(SetPrior(SetReg(s, 0, Read(s, s.r[x])), 0, false), x, 1)
  }

  /** Byte b is stored at Rx, then Rx advances. */
  function Push(s: State, x: RegIndex, b: byte): State {
    Add(SetPrior(Write(s, s.r[x], b), 0, false), x, 1)
  }

  function LoadDouble(s: State, x: RegIndex): State {
    var t := LoadInd(s, x);
    Add(SetReg(t, 0, Word(Lo(t.r[0]), Read(t, t.r[x]))), x, 1)
  }

  function StoreDouble(s: State, x: RegIndex): State {
    var t := Push(s, x, Lo(s.r[0]));
    Add(Write(t, t.r[x], Hi(t.r[0])), x, 1)
  }

  function Pop(s: State, x: RegIndex): State {
    var t := Add(s, x, -1);
    SetPrior(SetReg(t, 0, Read(t, t.r[x])), 0, false)
  }

  function PopDouble(s: State, x: RegIndex): State {
    var t := Add(s, x, -1);
    var u := Add(t, x, -1);
    SetPrior(SetReg(u, 0, Word(Read(u, u.r[x]), Read(t, t.r[x]))), 0, false)
  }

  function StorePop(s: State, x: RegIndex): State {
    var t := Add(s, x, -1);
    SetPrior(Write(t, t.r[x], Lo(t.r[0])), 0, false)
  }

  function AddReg(s: State, x: RegIndex): State {
    var v: int := s.r[0] as int + s.r[x] as int;
    SetPrior(SetReg(s, 0, Wrap16(v)), 0, v >= 0x1_0000)
  }

  /** Rd := R0 - Rx; the carry means "no borrow". */
  function Subtract(s: State, x: RegIndex, d: RegIndex): State {
    SetPrior(SetReg(s, d, Plus(s.r[0], -(s.r[x] as int))), d, s.r[0] >= s.r[x])
  }

  /** Rx := the two bytes after the opcode, high byte first as the code does it. */
  function Set(s: State, x: RegIndex): State {
    var t := SetReg(s, x, Word(Lo(s.r[x]), Read(s, Plus(s.r[PC], 2))));
    var u := SetReg(t, x, Word(Read(t, Plus(t.r[PC], 1)), Hi(t.r[x])));
    Add(u, PC, 2)
  }

  // ----- branches -----

  function Displacement(d: byte): int { if d < 0x80 then d else d - 0x100 }

  /** The displacement byte is at the program counter. */
  function Branch(s: State): State { Add(s, PC, Displacement(Read(s, s.r[PC]))) }

  function BranchIf(s: State, taken: bool): State { if taken then Branch(s) else s }

  function Call(s: State): State {
    var t := Push(s, SP, Lo(s.r[PC]));
    Branch(Push(t, SP, Hi(t.r[PC])))
  }

  function Return(s: State): State {
    var t := Add(s, SP, -1);
    var u := Add(SetReg(t, PC, Word(Lo(t.r[PC]), Read(t, t.r[SP]))), SP, -1);
    SetReg(u, PC, Word(Read(u, u.r[SP]), Hi(u.r[PC])))
  }

  // ----- one instruction -----

  /** `Trap` is the BK opcode, which runs into a 6502 break instruction. */
  datatype Outcome = Next(s: State) | Halt(s: State) | Trap(s: State)

  function RegisterOp(s: State, op: nat, x: RegIndex): State
    requires 1 <= op < 16
  {
    match op
    case 1 => Set(s, x)
    case 2 => SetReg(s, 0, s.r[x])
    case 3 => SetReg(s, x, s.r[0])
    case 4 => LoadInd(s, x)
    case 5 => Push(s, x, Lo(s.r[0]))
    case 6 => LoadDouble(s, x)
    case 7 => StoreDouble(s, x)
    case 8 => Pop(s, x)
    case 9 => StorePop(s, x)
    case 10 => AddReg(s, x)
    case 11 => Subtract(s, x, 0)
    case 12 => PopDouble(s, x)
    case 13 => Subtract(s, x, 13)
    case 14 => Add(s, x, 1)
    case 15 => Add(s, x, -1)
  }

  function NonRegisterOp(s: State, op: nat): Outcome
    requires op < 16
  {
    match op
    case 0 => Halt(s)
    case 1 => Next(Branch(s))
    case 2 => Next(BranchIf(s, !Carry(s)))
    case 3 => Next(BranchIf(s, Carry(s)))
    case 4 => Next(BranchIf(s, PriorWord(s) < 0x8000))
    case 5 => Next(BranchIf(s, PriorWord(s) >= 0x8000))
    case 6 => Next(BranchIf(s, PriorWord(s) == 0))
    case 7 => Next(BranchIf(s, PriorWord(s) != 0))
    case 8 => Next(BranchIf(s, PriorWord(s) == 0xFFFF))
    case 9 => Next(BranchIf(s, PriorWord(s) != 0xFFFF))
    case 10 => Trap(s)
    case 11 => Next(Return(s))
    case 12 => Next(Call(s))
    case _ => Next(s)
  }

  /** The program counter designates the last byte consumed; it advances before each fetch. */
  function Step(s: State): Outcome {
    var t := Add(s, PC, 1);
    var opcode := Read(t, t.r[PC]);
    if opcode >= 16 then Next(RegisterOp(SetPrior(t, opcode % 16, false), opcode / 16, opcode % 16))
    else NonRegisterOp(Add(t, PC, 1), opcode)
  }

  /** n instructions, stopping early at a halt or trap. */
  function Run(s: State, n: nat): Outcome
    decreases n
  {
    if n == 0 then Next(s)
    else match Step(s)
      case Next(t) => Run(t, n - 1)
      case done => done
  }

  // ----- the memory image -----

  /** 64K of memory hold the state s. */
  ghost predicate Shows(m: seq<byte>, s: State) {
    |m| == 0x1_0000 && forall a: word {:trigger m[a]} :: m[a] == Read(s, a)
  }

  function Image(m: seq<byte>): State
    requires |m| == 0x1_0000
  {
    Machine(seq(16, k requires 0 <= k < 16 => Word(m[2 * k], m[2 * k + 1])), m[32..])
  }

  lemma ImageShows(m: seq<byte>)
    requires |m| == 0x1_0000
    ensures Shows(m, Image(m))
  {
    forall a: word ensures m[a] == Read(Image(m), a) {
      if a < 32 {
        WordParts(m[2 * (a / 2)], m[2 * (a / 2) + 1]);
      }
    }
  }

  /** The state that 64K of memory represent. */
  ghost function Abs(m: seq<byte>): State
    requires |m| == 0x1_0000
  {
    ImageShows(m);
    var s: State :| Shows(m, s); s
  }

  lemma ReadRegister(s: State, k: RegIndex)
    ensures Read(s, 2 * k) == Lo(s.r[k]) && Read(s, 2 * k + 1) == Hi(s.r[k])
  {
    assert (2 * k) / 2 == k && (2 * k) % 2 == 0 && (2 * k + 1) / 2 == k && (2 * k + 1) % 2 == 1;
  }

  lemma SameBytes(v: word, w: word)
    requires Lo(v) == Lo(w) && Hi(v) == Hi(w)
    ensures v == w
  {
  }

  /** Memory determines the state. */
  lemma ShownOnce(m: seq<byte>, s: State, t: State)
    requires Shows(m, s) && Shows(m, t)
    ensures s == t
  {
    forall k: nat | k < 16 ensures s.r[k] == t.r[k] {
      ReadRegister(s, k);
      ReadRegister(t, k);
      assert m[2 * k] == Read(s, 2 * k) && m[2 * k + 1] == Read(s, 2 * k + 1);
      SameBytes(s.r[k], t.r[k]);
    }
    assert s.r == t.r;
    forall i: nat | i < RAM_SIZE ensures s.ram[i] == t.ram[i] {
      assert m[i + 32] == Read(s, i + 32) && m[i + 32] == Read(t, i + 32);
    }
    assert s.ram == t.ram;
  }

  lemma AbsRead(m: seq<byte>, a: word)
    requires |m| == 0x1_0000
    ensures m[a] == Read(Abs(m), a)
  {
  }

  /** The register half that address a names. */
  lemma HalfAt(a: word, b: word)
    requires a < 32 && b < 32 && a != b
    ensures a / 2 == b / 2 ==> a % 2 != b % 2
  {
  }

  lemma ReadWrite(s: State, a: word, b: byte, c: word)
    ensures Read(Write(s, a, b), c) == if c == a then b else Read(s, c)
  {
    if a < 32 && c < 32 {
      var w := s.r[a / 2];
      WordParts(b, Hi(w));
      WordParts(Lo(w), b);
      if a != c {
        HalfAt(a, c);
      }
    }
  }

  lemma AbsWrite(m: seq<byte>, a: word, b: byte)
    requires |m| == 0x1_0000
    ensures Abs(m[a := b]) == Write(Abs(m), a, b)
  {
    var s, n := Write(Abs(m), a, b), m[a := b];
    forall c: word ensures n[c] == Read(s, c) {
      ReadWrite(Abs(m), a, b, c);
      AbsRead(m, c);
    }
    ShownOnce(n, Abs(n), s);
  }

  /** Writing both bytes of a register writes the register. */
  lemma WritePair(s: State, k: RegIndex, lo: byte, hi: byte)
    ensures Write(Write(s, 2 * k, lo), 2 * k + 1, hi) == SetReg(s, k, Word(lo, hi))
  {
    var t := Write(s, 2 * k, lo);
    assert (2 * k) / 2 == k && (2 * k) % 2 == 0 && (2 * k + 1) / 2 == k && (2 * k + 1) % 2 == 1;
    assert t == SetReg(s, k, Word(lo, Hi(s.r[k])));
    WordParts(lo, Hi(s.r[k]));
    assert Write(t, 2 * k + 1, hi) == SetReg(t, k, Word(lo, hi));
    assert s.r[k := Word(lo, Hi(s.r[k]))][k := Word(lo, hi)] == s.r[k := Word(lo, hi)];
  }
}
