/** f2b beyond 18 digits, where words wrap: exactly when the printed bits are still right, told
    for 19 digits, for more, and in one condition for all. */
module FractionWrap {
  import opened Fraction

  const HALF := 0x8000_0000_0000_0000

  /** The bits are those of d / limit, cut off, and all of them if fewer than `precision`. */
  predicate Right(d: nat, limit: nat, precision: int, bits: seq<bool>) {
    var scaled, shown := d * Pow(2, |bits|), Bits(bits) * limit;
    shown <= scaled < shown + limit && (|bits| < precision ==> scaled == shown)
  }

  /** They stay below it by a whole unit, or stop although something is left. */
  predicate Short(d: nat, limit: nat, precision: int, bits: seq<bool>) {
    var scaled, shown := d * Pow(2, |bits|), Bits(bits) * limit;
    shown + limit <= scaled || (|bits| < precision && shown < scaled)
  }

  /** Before none of the shifts the true remainder fills the word's top bit. */
  ghost predicate NoWrap(number: nat, limit: nat, precision: int)
    requires limit > 0
  {
    forall j: nat :: j < precision ==> number * Pow(2, j) % limit < HALF
  }

  lemma {:induction false} BitsBelow(bits: seq<bool>)
    ensures Bits(bits) < Pow(2, |bits|)
  {
    if bits != [] {
      BitsBelow(bits[1..]);
    }
  }

  // ----- one turn of the loop -----

  lemma NoWrapNext(number: nat, limit: nat, precision: int)
    requires 0 < number < limit && number < HALF && precision > 0
    ensures NoWrap(number, limit, precision) <==> NoWrap(Next(number, limit), limit, precision - 1)
  {
    var next := Next(number, limit);
    forall j: nat ensures number * Pow(2, j + 1) % limit == next * Pow(2, j) % limit {
      NextRemainder(number, limit, Pow(2, j));
    }
    QuotientUnique(number, limit, 0, number);
    assert number * Pow(2, 0) % limit == number;
    if NoWrap(number, limit, precision) {
      forall j: nat | j < precision - 1 ensures next * Pow(2, j) % limit < HALF {
        assert number * Pow(2, j + 1) % limit < HALF;
      }
    }
    if NoWrap(next, limit, precision - 1) {
      forall j: nat | j < precision ensures number * Pow(2, j) % limit < HALF {
        if j > 0 {
          assert next * Pow(2, j - 1) % limit < HALF;
        }
      }
    }
  }

  /** A bit in front adds the same to what is shown and to what should be. */
  lemma FrontBit(number: nat, limit: nat, tail: seq<bool>) returns (x: nat)
    requires number < limit
    ensures var bits := [2 * number >= limit] + tail; var next := Next(number, limit);
            && number * Pow(2, |bits|) == x + next * Pow(2, |tail|)
            && Bits(bits) * limit == x + Bits(tail) * limit
  {
    var c, next, p := if 2 * number >= limit then 1 else 0, Next(number, limit), Pow(2, |tail|);
    var bits := [2 * number >= limit] + tail;
    assert bits[1..] == tail;
    x := (c * p) * limit;
    Scale(number, next, limit, c, p, 0, next * p);
    assert Bits(bits) * limit == (c * p + Bits(tail)) * limit == (c * p) * limit + Bits(tail) * limit;
  }

  lemma FrontBitKeeps(number: nat, limit: nat, precision: int, tail: seq<bool>)
    requires number < limit
    ensures var bits := [2 * number >= limit] + tail; var next := Next(number, limit);
            && (Right(number, limit, precision, bits) <==> Right(next, limit, precision - 1, tail))
            && (Short(number, limit, precision, bits) <==> Short(next, limit, precision - 1, tail))
  {
    var _ := FrontBit(number, limit, tail);
  }

  /** A shift that wraps prints 0 for 1, or stops. */
  lemma WrappedTurn(number: ulong, limit: ulong, precision: int)
    requires HALF <= number < limit && precision > 0
    ensures Short(number, limit, precision, Emit(number, limit, precision).bits)
  {
    var r := Emit(number, limit, precision);
    var shifted := Shifted(number);
    assert shifted < limit;
    if shifted == 0 {
      assert Bits([]) * limit == 0 && number * Pow(2, 0) == number;
    } else {
      var tail := Emit(shifted, limit, precision - 1).bits;
      var p := Pow(2, |tail|);
      assert r.bits == [false] + tail && r.bits[1..] == tail;
      BitsBelow(tail);
      Products(Bits(tail), p, number, limit);
    }
  }

  lemma Products(b: nat, p: nat, number: nat, limit: nat)
    requires b < p && limit <= 2 * number
    ensures b * limit + limit <= number * (2 * p)
  {
    Below(b, p, limit);
    assert p * limit <= p * (2 * number) by { Ordered(p, limit, 2 * number); }
    assert p * (2 * number) == number * (2 * p);
  }

  lemma {:induction false} Ordered(p: nat, a: nat, b: nat)
    requires a <= b
    ensures p * a <= p * b
  {
    if p > 0 {
      Ordered(p - 1, a, b);
      assert p * a == (p - 1) * a + a && p * b == (p - 1) * b + b;
    }
  }

  lemma NoWrapZero(limit: nat, precision: int)
    requires limit > 0
    ensures NoWrap(0, limit, precision)
  {
    forall j: nat ensures 0 * Pow(2, j) % limit == 0 {
      assert 0 * Pow(2, j) == 0;
    }
  }

  /** Without a wrap the bits are right, with one they fall short. */
  lemma {:induction false} RightOrShort(number: ulong, limit: ulong, precision: int)
    requires number < limit
    ensures var bits := Emit(number, limit, precision).bits;
            if NoWrap(number, limit, precision) then Right(number, limit, precision, bits)
            else Short(number, limit, precision, bits)
    decreases precision
  {
    if precision <= 0 {
      assert Bits([]) * limit == 0 && number * Pow(2, 0) == number;
    } else if number == 0 {
      NoWrapZero(limit, precision);
      assert Bits([]) * limit == 0;
    } else if number >= HALF {
      QuotientUnique(number, limit, 0, number);
      assert number * Pow(2, 0) % limit == number;
      WrappedTurn(number, limit, precision);
    } else {
      var next := Next(number, limit);
      EmitNext(number, limit, precision);
      RightOrShort(next, limit, precision - 1);
      NoWrapNext(number, limit, precision);
      FrontBitKeeps(number, limit, precision, Emit(next, limit, precision - 1).bits);
    }
  }

  /** For any limit that fits a word, the bits of number / limit come out right if and only if
      no true remainder fills the top bit before a shift. */
  lemma RightIffNoWrap(number: ulong, limit: ulong, precision: int)
    requires number < limit
    ensures Right(number, limit, precision, Emit(number, limit, precision).bits) <==> NoWrap(number, limit, precision)
  {
    RightOrShort(number, limit, precision);
  }

  // ----- 19 digits -----

  const TEN19: ulong := 10_000_000_000_000_000_000

  lemma Limit19()
    ensures Limit(19) == TEN19 && Pow(10, 19) == TEN19
  {
    LimitExact(18);
    Pow18();
  }

  lemma WrapsOnce(number: ulong, shifted: ulong)
    requires 2 * number as int == WORD + shifted && shifted < WORD
    ensures Shifted(number) == shifted
  {
  }

  /** 0.49 written with 19 digits starts 0.00 instead of 0.01. */
  lemma NineteenDigitsWrap()
    ensures var n := 4_900_000_000_000_000_000;
            Emit(n, Limit(19), 2).bits == [false, false] && !Right(n, TEN19, 2, [false, false])
  {
    Limit19();
    var n := 4_900_000_000_000_000_000;
    var first, second := 9_800_000_000_000_000_000, 1_153_255_926_290_448_384;
    WrapsOnce(first, second);
    assert Shifted(n) == first;
    assert Emit(second, TEN19, 0).bits == [];
    assert Emit(first, TEN19, 1).bits == [false];
    assert Emit(n, TEN19, 2).bits == [false] + [false];
    assert Pow(2, 2) == 4;
    assert Bits([false, false]) == 0 by { assert [false, false][1..] == [false] && [false][1..] == []; }
  }

  /** The largest number atoll returns is no multiple of five, so its fraction never ends. */
  lemma SaturatedInfinite(k: nat)
    ensures LLONG_MAX * Pow(2, k) % TEN19 != 0
  {
    Limit19();
    if LLONG_MAX * Pow(2, k) % TEN19 == 0 {
      FiniteNeedsFives(LLONG_MAX, 19, k);
      FactorDivides(LLONG_MAX, 5, Pow(5, 18), Pow(5, 19));
    }
  }

  lemma RightQuotient(d: nat, limit: nat, precision: int, bits: seq<bool>)
    requires limit > 0 && |bits| == precision
    ensures Right(d, limit, precision, bits) <==> d * Pow(2, precision) / limit == Bits(bits)
  {
    var x, b := d * Pow(2, precision), Bits(bits);
    if Right(d, limit, precision, bits) {
      QuotientUnique(x, limit, b, x - b * limit);
    }
    assert x == (x / limit) * limit + x % limit;
  }

  lemma MoreScaled(n: nat, d: nat, p: nat)
    requires n <= d
    ensures n * p <= d * p && (n < d && p > 0 ==> n * p < d * p)
  {
    if n < d {
      Below(n, d, p);
    }
  }

  /** A number that falls short of itself falls short of every larger one. */
  lemma ShortNotRight(n: nat, d: nat, limit: nat, precision: int, bits: seq<bool>)
    requires n <= d && Short(n, limit, precision, bits)
    ensures !Right(d, limit, precision, bits)
  {
    MoreScaled(n, d, Pow(2, |bits|));
  }

  /** What atoll cut down to LLONG_MAX: the bits are right if and only if no shift wraps and the
      true number starts with the same bits. */
  lemma SaturatedRight(d: nat, precision: nat)
    requires LLONG_MAX < d < TEN19
    ensures Right(d, TEN19, precision, Emit(LLONG_MAX, TEN19, precision).bits) <==>
              && NoWrap(LLONG_MAX, TEN19, precision)
              && d * Pow(2, precision) / TEN19 == LLONG_MAX * Pow(2, precision) / TEN19
  {
    var bits := Emit(LLONG_MAX, TEN19, precision).bits;
    RightOrShort(LLONG_MAX, TEN19, precision);
    if !NoWrap(LLONG_MAX, TEN19, precision) {
      ShortNotRight(LLONG_MAX, d, TEN19, precision, bits);
    } else {
      if |bits| < precision {
        MultipleMod(Bits(bits), TEN19);
        SaturatedInfinite(|bits|);
      }
      RightQuotient(d, TEN19, precision, bits);
      RightQuotient(LLONG_MAX, TEN19, precision, bits);
    }
  }

  /** With 19 digits the printed bits are right if and only if no true remainder reaches 2^63
      before a shift and, where atoll saturates, the first bits asked for are those of the
      largest number it returns. */
  lemma NineteenDigitsRight(digits: seq<nat>, precision: nat)
    requires |digits| == 19 && forall i :: 0 <= i < |digits| ==> digits[i] <= 9
    ensures var n, d := Number(digits), Decimal(digits);
            Right(d, TEN19, precision, Emit(n, Limit(19), precision).bits) <==>
              && NoWrap(n, TEN19, precision)
              && (d > 0x7FFF_FFFF_FFFF_FFFF ==>
                    d * Pow(2, precision) / TEN19 == 0x7FFF_FFFF_FFFF_FFFF * Pow(2, precision) / TEN19)
  {
    Limit19();
    DecimalBelow(digits);
    if Decimal(digits) > LLONG_MAX {
      SaturatedRight(Decimal(digits), precision);
    } else {
      RightOrShort(Number(digits), TEN19, precision);
      if !NoWrap(Number(digits), TEN19, precision) {
        ShortNotRight(Number(digits), Number(digits), TEN19, precision, Emit(Number(digits), TEN19, precision).bits);
      }
    }
  }

  // ----- 20 digits and more -----

  lemma {:induction false} LimitIsModulo(len: nat)
    ensures Limit(len) == Pow(10, len) % WORD
  {
    if len > 0 {
      LimitIsModulo(len - 1);
      TenTimesModulo(Pow(10, len - 1));
    }
  }

  lemma TenTimesModulo(x: nat)
    ensures (x % WORD) * 10 % WORD == 10 * x % WORD
  {
    ShiftMod(10 * x, (x % WORD) * 10, WORD, 10 * (x / WORD));
  }

  /** From 20 digits on the limit has wrapped: the bits are those of the number over something
      else than the power of ten. */
  lemma TwentyDigitsLimit(len: nat)
    requires len >= 20
    ensures Limit(len) < Pow(10, len)
  {
    PowGrows(20, len);
    Limit19();
    assert Pow(10, 20) == 10 * Pow(10, 19);
  }

  /** From 64 digits on it is zero, and every bit printed is a one. */
  lemma SixtyFourDigitsOnes(len: nat, number: ulong, precision: int)
    requires len >= 64
    ensures Limit(len) == 0
    ensures forall i :: 0 <= i < |Emit(number, 0, precision).bits| ==> Emit(number, 0, precision).bits[i]
  {
    LimitZero(len);
    AllOnes(number, precision);
  }

  lemma ZeroAt(len: nat)
    requires Pow(2, len) == WORD
    ensures Limit(len) == 0
  {
    TenSplits(len);
    MultipleMod(Pow(5, len), WORD);
    LimitIsModulo(len);
  }

  lemma {:induction false} LimitZero(len: nat)
    requires len >= 64
    ensures Limit(len) == 0
  {
    if len > 64 {
      LimitZero(len - 1);
    } else {
      Pow64();
      ZeroAt(len);
    }
  }

  lemma Square(n: nat, v: nat)
    requires Pow(2, n) == v
    ensures Pow(2, n + n) == v * v
  {
    PowSplits(2, n, n);
  }

  lemma Pow64()
    ensures Pow(2, 64) == WORD
  {
    Square(8, 0x100);
    Square(16, 0x1_0000);
    Square(32, 0x1_0000_0000);
  }

  lemma {:induction false} AllOnes(number: ulong, precision: int)
    ensures forall i :: 0 <= i < |Emit(number, 0, precision).bits| ==> Emit(number, 0, precision).bits[i]
    decreases precision
  {
    if precision > 0 && Shifted(number) != 0 {
      AllOnes(Shifted(number), precision - 1);
    }
  }

  /** 0.01 written with 20 digits starts 0.001. */
  lemma TwentyDigitsWrong()
    ensures var n := 1_000_000_000_000_000_000;
            Emit(n, Limit(20), 3).bits == [false, false, true] && !Right(n, Pow(10, 20), 3, [false, false, true])
  {
    Limit19();
    var limit := 7_766_279_631_452_241_920;
    assert Limit(20) == limit by { assert TEN19 as int * 10 == 5 * WORD + limit; }
    assert Shifted(1_000_000_000_000_000_000) == 2_000_000_000_000_000_000;
    assert Shifted(2_000_000_000_000_000_000) == 4_000_000_000_000_000_000;
    assert Shifted(4_000_000_000_000_000_000) == 8_000_000_000_000_000_000;
    var rest := 8_000_000_000_000_000_000 - limit;
    assert Emit(rest, limit, 0).bits == [];
    assert Emit(4_000_000_000_000_000_000, limit, 1).bits == [true] + [];
    assert Emit(2_000_000_000_000_000_000, limit, 2).bits == [false] + [true];
    assert Emit(1_000_000_000_000_000_000, limit, 3).bits == [false] + [false, true];
    assert Bits([false, false, true]) == 1 by {
      assert [false, false, true][1..] == [false, true] && [false, true][1..] == [true] && [true][1..] == [];
    }
    assert Pow(2, 3) == 8 && Pow(10, 20) == 10 * Pow(10, 19);
  }

  /** Without a wrap the loop stops early exactly when nothing is left. */
  lemma {:induction false} StopsAtZero(n: ulong, limit: ulong, precision: int, j: nat)
    requires n < limit && NoWrap(n, limit, precision) && j < precision && n * Pow(2, j) % limit == 0
    ensures |Emit(n, limit, precision).bits| <= j
    decreases j
  {
    QuotientUnique(n, limit, 0, n);
    assert n * Pow(2, 0) % limit == n;
    if n > 0 {
      assert j > 0;
      EmitNext(n, limit, precision);
      NoWrapNext(n, limit, precision);
      NextRemainder(n, limit, Pow(2, j - 1));
      StopsAtZero(Next(n, limit), limit, precision - 1, j - 1);
    }
  }

  lemma EarlyIsZero(n: ulong, limit: ulong, precision: nat)
    requires n < limit && NoWrap(n, limit, precision)
    ensures var k := |Emit(n, limit, precision).bits|; k < precision ==> n * Pow(2, k) % limit == 0
  {
    var bits := Emit(n, limit, precision).bits;
    assert Right(n, limit, precision, bits) by { RightOrShort(n, limit, precision); }
    if |bits| < precision {
      assert n * Pow(2, |bits|) == Bits(bits) * limit;
      MultipleMod(Bits(bits), limit);
    }
  }

  /** Something is left before each of the turns. */
  ghost predicate NeverEmpty(n: nat, limit: nat, precision: nat)
    requires limit > 0
  {
    forall j: nat :: j < precision ==> n * Pow(2, j) % limit != 0
  }

  lemma StopsEarlyIffZero(n: ulong, limit: ulong, precision: nat)
    requires n < limit && NoWrap(n, limit, precision)
    ensures |Emit(n, limit, precision).bits| == precision <==> NeverEmpty(n, limit, precision)
  {
    var k := |Emit(n, limit, precision).bits|;
    if k == precision {
      forall j: nat | j < precision ensures n * Pow(2, j) % limit != 0 {
        if n * Pow(2, j) % limit == 0 {
          StopsAtZero(n, limit, precision, j);
        }
      }
    } else {
      EarlyIsZero(n, limit, precision);
    }
  }

  /** While the number is below that limit and no shift wraps, the bits are right only as far as
      the two fractions have the same bits, and never if the one over the limit is finite. */
  lemma LargerLimitRight(n: ulong, limit: ulong, power: nat, precision: nat)
    requires 0 < n < limit < power && NoWrap(n, limit, precision)
    ensures Right(n, power, precision, Emit(n, limit, precision).bits) <==>
              && NeverEmpty(n, limit, precision)
              && n * Pow(2, precision) / power == n * Pow(2, precision) / limit
  {
    var bits := Emit(n, limit, precision).bits;
    RightOrShort(n, limit, precision);
    StopsEarlyIffZero(n, limit, precision);
    if |bits| == precision {
      RightQuotient(n, limit, precision, bits);
      RightQuotient(n, power, precision, bits);
    } else {
      MoreScaled(0, n, Pow(2, |bits|));
      NotBoth(Bits(bits), limit, power, n * Pow(2, |bits|));
    }
  }

  lemma NotBoth(b: nat, limit: nat, power: nat, x: nat)
    requires 0 < x == b * limit && limit < power
    ensures x != b * power
  {
    MoreScaled(limit, power, b);
    assert b * limit == limit * b && b * power == power * b;
  }

  // ----- any number of digits -----

  /** The true remainder before turn j, shifted. */
  function Doubled(d: nat, power: nat, j: nat): nat
    requires power > 0
  {
    2 * (d * Pow(2, j) % power)
  }

  /** What the word holds at that point if the bits were right so far and the loop began with n
      in place of d: the same value modulo the word, and n - d shifted along. */
  function Word(d: nat, n: nat, power: nat, j: nat): int
    requires power > 0
  {
    (Doubled(d, power, j) + (n - d) * Pow(2, j + 1)) % WORD
  }

  /** The comparisons of turn j come out on words as they would on the true values. */
  predicate TurnTells(d: nat, n: nat, power: nat, j: nat)
    requires power > 0
  {
    var value, word := Doubled(d, power, j), Word(d, n, power, j);
    if word == 0 then value == 0 else (word >= power % WORD <==> value >= power)
  }

  ghost predicate AllTurnsTell(d: nat, n: nat, power: nat, precision: int)
    requires power > 0
  {
    forall j: nat :: j < precision ==> TurnTells(d, n, power, j)
  }

  lemma FirstTurn(d: nat, n: ulong, power: nat)
    requires d < power
    ensures Doubled(d, power, 0) == 2 * d && Word(d, n, power, 0) == Shifted(n)
  {
    QuotientUnique(d, power, 0, d);
    assert d * Pow(2, 0) == d && Pow(2, 1) == 2;
    assert Word(d, n, power, 0) == 2 * n as int % WORD;
  }

  lemma SameWord(x: int, y: int, c: int)
    requires x == y + c * WORD
    ensures x % WORD == y % WORD
  {
  }

  lemma Distributes(a: int, b: int, c: int, p: int)
    requires a == b + c * WORD
    ensures a * p == b * p + (c * p) * WORD
  {
  }

  lemma DoubledLater(d: nat, power: nat, j: nat)
    requires d < power
    ensures Doubled(d, power, j + 1) == Doubled(Next(d, power), power, j)
  {
    if d > 0 {
      NextRemainder(d, power, Pow(2, j));
    } else {
      assert d * Pow(2, j + 1) == 0 && Next(d, power) * Pow(2, j) == 0;
    }
  }

  lemma Twice(a: int, p: int)
    ensures (2 * a) * p == a * (2 * p)
  {
  }

  /** One turn later both remainders have moved on alike. */
  lemma LaterTurn(d: nat, n: ulong, power: nat, j: nat, m: ulong, c: int)
    requires d < power && m - Next(d, power) == 2 * (n - d) + c * WORD
    ensures TurnTells(d, n, power, j + 1) <==> TurnTells(Next(d, power), m, power, j)
  {
    var p, next := Pow(2, j + 1), Next(d, power);
    DoubledLater(d, power, j);
    Distributes(m - next, 2 * (n - d), c, p);
    Twice(n - d, p);
    assert Pow(2, j + 2) == 2 * p;
    SameWord(Doubled(next, power, j) + (m - next) * p, Doubled(next, power, j) + (n - d) * Pow(2, j + 2), c * p);
  }

  lemma LaterTurns(d: nat, n: ulong, power: nat, precision: int, m: ulong, c: int)
    requires d < power && m - Next(d, power) == 2 * (n - d) + c * WORD && precision > 0
    ensures AllTurnsTell(d, n, power, precision) <==>
              TurnTells(d, n, power, 0) && AllTurnsTell(Next(d, power), m, power, precision - 1)
  {
    forall j: nat
      ensures TurnTells(d, n, power, j + 1) <==> TurnTells(Next(d, power), m, power, j)
    {
      LaterTurn(d, n, power, j, m, c);
    }
    if TurnTells(d, n, power, 0) && AllTurnsTell(Next(d, power), m, power, precision - 1) {
      forall j: nat | j < precision ensures TurnTells(d, n, power, j) {
        if j > 0 {
          assert TurnTells(Next(d, power), m, power, j - 1);
        }
      }
    }
    if AllTurnsTell(d, n, power, precision) {
      forall j: nat | j < precision - 1 ensures TurnTells(Next(d, power), m, power, j) {
        assert TurnTells(d, n, power, j + 1);
      }
    }
  }

  /** A wrong first bit cannot be made good. */
  lemma WrongBit(d: nat, power: nat, precision: int, tail: seq<bool>)
    requires d < power
    ensures !Right(d, power, precision, [2 * d < power] + tail)
  {
    var bits, p := [2 * d < power] + tail, Pow(2, |tail|);
    assert bits[1..] == tail;
    assert d * Pow(2, |bits|) == (2 * d) * p;
    BitsBelow(tail);
    if 2 * d < power {
      Below(2 * d, power, p);
      assert Bits(bits) * power == power * p + Bits(tail) * power;
    } else {
      Below(Bits(tail), p, power);
      MoreScaled(power, 2 * d, p);
    }
  }

  lemma NothingAtAll(power: nat, n: ulong, precision: int)
    requires power > 0 && Shifted(n) == 0
    ensures AllTurnsTell(0, n, power, precision)
  {
    forall j: nat ensures TurnTells(0, n, power, j) {
      assert 0 * Pow(2, j) == 0;
      var c := if n == 0 then 0 else 1;
      assert n * Pow(2, j + 1) == (2 * n) * Pow(2, j);
      Distributes(2 * n, 0, c, Pow(2, j));
      SameWord(n * Pow(2, j + 1), 0, c * Pow(2, j));
    }
  }

  /** Whatever word the loop starts with and whatever wraps: the bits printed are those of
      d / power if and only if in each turn the comparisons come out as on the true values. */
  lemma {:induction false} RightIffTurnsTell(d: nat, n: ulong, power: nat, precision: int)
    requires d < power
    ensures Right(d, power, precision, Emit(n, power % WORD, precision).bits) <==>
              AllTurnsTell(d, n, power, precision)
    decreases precision
  {
    var limit: ulong := power % WORD;
    FirstTurn(d, n, power);
    var shifted := Shifted(n);
    if precision <= 0 {
      assert Bits([]) * power == 0 && d * Pow(2, 0) == d;
    } else if shifted == 0 {
      assert Bits([]) * power == 0 && d * Pow(2, 0) == d;
      if d == 0 {
        NothingAtAll(power, n, precision);
      } else {
        assert !TurnTells(d, n, power, 0);
      }
    } else {
      var m := Reduced(shifted, limit);
      var tail := Emit(m, limit, precision - 1).bits;
      assert Emit(n, limit, precision).bits == [shifted >= limit] + tail;
      if (shifted >= limit) == (2 * d >= power) {
        var c := (if 2 * d >= power then power / WORD else 0) - (if 2 * n as int < WORD then 0 else 1);
        RightIffTurnsTell(Next(d, power), m, power, precision - 1);
        LaterTurns(d, n, power, precision, m, c);
        FrontBitKeeps(d, power, precision, tail);
      } else {
        WrongBit(d, power, precision, tail);
        assert !TurnTells(d, n, power, 0);
      }
    }
  }

  /** What the program prints for any digits and any precision is right if and only if, in each
      turn, the wrapped words compare as the true values do. */
  lemma PrintedRight(digits: seq<nat>, precision: int)
    requires forall i :: 0 <= i < |digits| ==> digits[i] <= 9
    ensures var d, n, power := Decimal(digits), Number(digits), Pow(10, |digits|);
            Right(d, power, precision, Emit(n, Limit(|digits|), precision).bits) <==>
              AllTurnsTell(d, n, power, precision)
  {
    DecimalBelow(digits);
    LimitIsModulo(|digits|);
    RightIffTurnsTell(Decimal(digits), Number(digits), Pow(10, |digits|), precision);
  }

  /** From 20 digits on a number that atoll does represent, and that is not below the wrapped
      limit, starts with a wrong bit. */
  lemma NotBelowLimitWrong(digits: seq<nat>, precision: int)
    requires |digits| >= 20 && forall i :: 0 <= i < |digits| ==> digits[i] <= 9
    requires 0 < Decimal(digits) <= LLONG_MAX && Decimal(digits) >= Limit(|digits|) && precision > 0
    ensures !Right(Decimal(digits), Pow(10, |digits|), precision,
                   Emit(Number(digits), Limit(|digits|), precision).bits)
  {
    var d := Decimal(digits);
    PowGrows(20, |digits|);
    Limit19();
    assert Pow(10, 20) == 10 * Pow(10, 19);
    PrintedRight(digits, precision);
    LimitIsModulo(|digits|);
    FirstTurn(d, d, Pow(10, |digits|));
    assert !TurnTells(d, d, Pow(10, |digits|), 0);
  }
}
