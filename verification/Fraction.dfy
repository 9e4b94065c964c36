/** f2b: the binary digits of a decimal fraction. */
module Fraction {
  /** unsigned long long is kept modulo WORD. */
  const WORD := 0x1_0000_0000_0000_0000
  type ulong = n: int | 0 <= n < 0x1_0000_0000_0000_0000
  const LLONG_MAX := 0x7FFF_FFFF_FFFF_FFFF

  function Pow(b: nat, n: nat): (r: nat)
    ensures b > 0 ==> r > 0
  {
    if n == 0 then 1 else b * Pow(b, n - 1)
  }

  /** The value of a string of bits, most significant first. */
  function Bits(bits: seq<bool>): nat {
    if bits == [] then 0 else (if bits[0] then Pow(2, |bits| - 1) else 0) + Bits(bits[1..])
  }

  /** The value of a string of decimal digits. */
  function Decimal(digits: seq<nat>): nat {
    if digits == [] then 0 else Decimal(digits[..|digits| - 1]) * 10 + digits[|digits| - 1]
  }

  /** Both are positional: what stands in front counts a power of the base for each place behind. */
  lemma {:induction false} DecimalPlaces(a: seq<nat>, b: seq<nat>)
    ensures Decimal(a + b) == Decimal(a) * Pow(10, |b|) + Decimal(b)
  {
    if b == [] {
      assert a + b == a;
    } else {
      var m, p := b[..|b| - 1], Pow(10, |b| - 1);
      DecimalPlaces(a, m);
      assert (a + b)[..|a + b| - 1] == a + m;
      assert (Decimal(a) * p + Decimal(m)) * 10 == Decimal(a) * (10 * p) + Decimal(m) * 10;
    }
  }

  lemma {:induction false} BitsPlaces(a: seq<bool>, b: seq<bool>)
    ensures Bits(a + b) == Bits(a) * Pow(2, |b|) + Bits(b)
  {
    if a == [] {
      assert a + b == b;
    } else {
      BitsPlaces(a[1..], b);
      assert (a + b)[1..] == a[1..] + b && (a + b)[0] == a[0];
      var x := if a[0] then Pow(2, |a| - 1) else 0;
      PowSplits(2, |a| - 1, |b|);
      Distributed(x, Bits(a[1..]), Pow(2, |b|));
    }
  }

  lemma Distributed(x: nat, y: nat, p: nat)
    ensures (x + y) * p == x * p + y * p
  {
  }

  lemma {:induction false} PowSplits(b: nat, m: nat, n: nat)
    ensures Pow(b, m + n) == Pow(b, m) * Pow(b, n)
  {
    if m > 0 {
      PowSplits(b, m - 1, n);
      Product(b, Pow(b, m - 1), Pow(b, n));
    }
  }

  lemma Product(a: nat, b: nat, c: nat)
    ensures a * (b * c) == (a * b) * c
  {
  }

  /** One digit and one bit are themselves. */
  lemma OnePlace(d: nat, b: bool)
    ensures Decimal([d]) == d && Bits([b]) == if b then 1 else 0
  {
    assert [d][..0] == [] && [b][1..] == [];
  }

  /** The bits printed and the number left over. */
  datatype Result = Result(bits: seq<bool>, rest: nat)

  /** number <<= 1, which is 2 * number modulo WORD. */
  function Shifted(number: ulong): ulong {
    if 2 * number as int < WORD then 2 * number as int else 2 * number as int - WORD
  }

  /** The loop on 64-bit words: at most `precision` bits of number / limit. */
  function Emit(number: ulong, limit: ulong, precision: int): (r: Result)
    ensures |r.bits| <= if precision < 0 then 0 else precision
    decreases precision
  {
    if precision <= 0 then Result([], number)
    else
      var shifted := Shifted(number);
      if shifted == 0 then Result([], 0)
      else if shifted >= limit then
        var r := Emit(shifted - limit, limit, precision - 1); Result([true] + r.bits, r.rest)
      else
        var r := Emit(shifted, limit, precision - 1); Result([false] + r.bits, r.rest)
  }

  /** limit *= 10 */
  function TimesTen(limit: ulong): (r: ulong)
    ensures 10 * limit as int < WORD ==> r == 10 * limit as int
  {
    limit as int * 10 % WORD
  }

  /** `limit`: ten to the number of digits, modulo WORD. */
  function Limit(len: nat): ulong {
    if len == 0 then 1 else TimesTen(Limit(len - 1))
  }

  /** atoll; too large a number saturates. */
  function Number(digits: seq<nat>): ulong {
    if Decimal(digits) > LLONG_MAX then LLONG_MAX else Decimal(digits)
  }

  /** The program on the digits behind the decimal point. */
  method Convert(digits: seq<nat>, precision: int) returns (bits: seq<bool>)
    requires forall i :: 0 <= i < |digits| ==> digits[i] <= 9
    ensures bits == Emit(Number(digits), Limit(|digits|), precision).bits
  {
    var limit: ulong, i := 1, 0;
    while i < |digits|
      invariant i <= |digits| && limit == Limit(i)
    {
      limit := TimesTen(limit);
      i := i + 1;
    }
    bits := PrintBits(Number(digits), limit, precision);
  }

  /** A turn that prints a bit. */
  lemma OneBit(bits: seq<bool>, number: ulong, limit: ulong, precision: int)
    requires precision > 0 && Shifted(number) != 0
    ensures bits + Emit(number, limit, precision).bits
              == (bits + [Shifted(number) >= limit]) + Emit(Reduced(Shifted(number), limit), limit, precision - 1).bits
  {
  }

  lemma LastBit(bits: seq<bool>, number: ulong, limit: ulong, precision: int)
    requires precision <= 0 || Shifted(number) == 0
    ensures bits + Emit(number, limit, precision).bits == bits
  {
  }

  function Reduced(number: ulong, limit: ulong): ulong { if number >= limit then number - limit else number }

  method PrintBits(n: ulong, limit: ulong, precision: int) returns (bits: seq<bool>)
    ensures bits == Emit(n, limit, precision).bits
  {
    bits := [];
    var number: ulong, k: nat := n, 0;
    ghost var all, rest := Emit(n, limit, precision).bits, Emit(n, limit, precision).bits;
    while k < precision
      invariant rest == Emit(number, limit, precision - k).bits && all == bits + rest
    {
      ghost var was := number;
      number := Shifted(number);
      if number == 0 {
        LastBit(bits, was, limit, precision - k);
        return;
      }
      OneBit(bits, was, limit, precision - k);
      if number >= limit {
        bits := bits + [true];
        number := number - limit;
      } else {
        bits := bits + [false];
      }
      k := k + 1;
      rest := Emit(number, limit, precision - k).bits;
    }
    LastBit(bits, number, limit, precision - k);
  }

  // ----- up to 18 digits nothing wraps -----

  lemma {:induction false} DecimalBelow(digits: seq<nat>)
    requires forall i :: 0 <= i < |digits| ==> digits[i] <= 9
    ensures Decimal(digits) < Pow(10, |digits|)
  {
    if digits != [] {
      DecimalBelow(digits[..|digits| - 1]);
    }
  }

  lemma {:induction false} PowGrows(m: nat, n: nat)
    requires m <= n
    ensures Pow(10, m) <= Pow(10, n)
  {
    if m < n {
      PowGrows(m, n - 1);
    }
  }

  lemma Pow18()
    ensures Pow(10, 18) == 1_000_000_000_000_000_000
  {
    assert Pow(10, 6) == 1_000_000;
    assert Pow(10, 12) == 1_000_000_000_000;
  }

  lemma {:induction false} LimitExact(len: nat)
    requires len <= 18
    ensures Limit(len) == Pow(10, len) && 2 * Pow(10, len) <= WORD && Pow(10, len) <= LLONG_MAX
  {
    Pow18();
    PowGrows(len, 18);
    if len > 0 {
      LimitExact(len - 1);
    }
  }

  // ----- what the bits are -----

  /** number * 2^k == B * limit + rest for the k bits of value B. */
  predicate Cuts(number: nat, limit: nat, r: Result) {
    number * Pow(2, |r.bits|) == Bits(r.bits) * limit + r.rest
  }

  lemma Scale(m: nat, m': nat, limit: nat, c: nat, p: nat, b: nat, rest: nat)
    requires 2 * m == c * limit + m' && m' * p == b * limit + rest
    ensures m * (2 * p) == (c * p + b) * limit + rest
  {
    assert m * (2 * p) == (2 * m) * p == (c * limit + m') * p == (c * limit) * p + m' * p;
    assert (c * limit) * p == (c * p) * limit;
    assert (c * p + b) * limit == (c * p) * limit + b * limit;
  }

  lemma CutsMore(number: nat, next: nat, limit: nat, bit: bool, tail: Result)
    requires Cuts(next, limit, tail) && 2 * number == (if bit then limit else 0) + next
    ensures Cuts(number, limit, Result([bit] + tail.bits, tail.rest))
  {
    var c := if bit then 1 else 0;
    var bits := [bit] + tail.bits;
    assert bits[1..] == tail.bits;
    Scale(number, next, limit, c, Pow(2, |tail.bits|), Bits(tail.bits), tail.rest);
  }

  function Next(number: nat, limit: nat): nat {
    if 2 * number >= limit then 2 * number - limit else 2 * number
  }

  /** Without wrapping, one turn of the loop. */
  lemma EmitNext(number: nat, limit: nat, precision: int)
    requires 0 < number < limit < WORD && 2 * number < WORD && precision > 0
    ensures Next(number, limit) < limit
    ensures var tail := Emit(Next(number, limit), limit, precision - 1);
            Emit(number, limit, precision) == Result([2 * number >= limit] + tail.bits, tail.rest)
  {
  }

  /** The bits printed are the binary fraction, cut off; what is left is below limit, and fewer
      than `precision` bits are printed only when nothing is left. */
  lemma {:induction false} EmitExact(number: nat, limit: nat, precision: int)
    requires number < limit && 2 * limit <= WORD
    ensures var r := Emit(number, limit, precision);
            Cuts(number, limit, r) && r.rest < limit && (|r.bits| < precision ==> r.rest == 0)
    decreases precision
  {
    if precision > 0 && number != 0 {
      EmitNext(number, limit, precision);
      EmitExact(Next(number, limit), limit, precision - 1);
      var tail := Emit(Next(number, limit), limit, precision - 1);
      CutsMore(number, Next(number, limit), limit, 2 * number >= limit, tail);
    }
  }

  lemma ShiftMod(x: nat, y: nat, limit: nat, c: nat)
    requires limit > 0 && x == y + c * limit
    ensures x % limit == y % limit
  {
    var q, r := y / limit, y % limit;
    assert y == q * limit + r;
    assert x == (q + c) * limit + r;
    QuotientUnique(x, limit, q + c, r);
  }

  lemma {:induction false} Below(a: nat, b: nat, d: nat)
    requires a < b
    ensures a * d + d <= b * d
  {
    assert b * d == (b - 1) * d + d;
    if a < b - 1 {
      Below(a, b - 1, d);
    }
  }

  lemma QuotientUnique(x: nat, d: nat, q: nat, r: nat)
    requires r < d && x == q * d + r
    ensures x / d == q && x % d == r
  {
    var q', r' := x / d, x % d;
    assert x == q' * d + r';
    if q' < q {
      Below(q', q, d);
    } else if q' > q {
      Below(q, q', d);
    }
  }

  lemma NextRemainder(number: nat, limit: nat, p: nat)
    requires 0 < number < limit
    ensures number * (2 * p) % limit == Next(number, limit) * p % limit
  {
    var c, next := if 2 * number >= limit then 1 else 0, Next(number, limit);
    Scale(number, next, limit, c, p, 0, next * p);
    ShiftMod(number * (2 * p), next * p, limit, c * p);
  }

  /** No bit is printed once nothing is left. */
  lemma {:induction false} NothingLeftEarlier(number: nat, limit: nat, precision: int, k: nat)
    requires number < limit && 2 * limit <= WORD && k < |Emit(number, limit, precision).bits|
    ensures number * Pow(2, k) % limit != 0
    decreases k
  {
    if k == 0 {
      QuotientUnique(number, limit, 0, number);
    } else {
      EmitNext(number, limit, precision);
      NothingLeftEarlier(Next(number, limit), limit, precision - 1, k - 1);
      NextRemainder(number, limit, Pow(2, k - 1));
    }
  }

  // ----- when the fraction is finite -----

  lemma {:induction false} FiveOdd(n: nat)
    ensures Pow(5, n) % 2 == 1
  {
    if n > 0 {
      FiveOdd(n - 1);
      assert Pow(5, n) == 4 * Pow(5, n - 1) + Pow(5, n - 1);
    }
  }

  lemma {:induction false} TenSplits(n: nat)
    ensures Pow(10, n) == Pow(5, n) * Pow(2, n)
  {
    if n > 0 {
      TenSplits(n - 1);
      var f, t := Pow(5, n - 1), Pow(2, n - 1);
      assert (5 * f) * (2 * t) == 10 * (f * t);
    }
  }

  /** An odd divisor of 2x divides x. */
  lemma HalfDivides(x: nat, d: nat)
    requires d % 2 == 1 && (2 * x) % d == 0
    ensures x % d == 0
  {
    var q, e := 2 * x / d, d / 2;
    assert 2 * x == q * d;
    assert q * d == q * (2 * e + 1) == 2 * (q * e) + q;
    assert q == 2 * (x - q * e);
    var h := q / 2;
    assert 2 * x == (2 * h) * d == 2 * (h * d);
    QuotientUnique(x, d, h, 0);
  }

  lemma {:induction false} PowerOfTwoDropped(x: nat, k: nat, d: nat)
    requires d % 2 == 1 && x * Pow(2, k) % d == 0
    ensures x % d == 0
  {
    if k > 0 {
      var y := x * Pow(2, k - 1);
      assert x * Pow(2, k) == 2 * y;
      HalfDivides(y, d);
      PowerOfTwoDropped(x, k - 1, d);
    }
  }

  lemma MultipleMod(q: nat, d: nat)
    requires d > 0
    ensures (q * d) % d == 0
  {
    QuotientUnique(q * d, d, q, 0);
  }

  /** Some power of two makes N a multiple of 10^len only if 5^len divides N. */
  lemma FiniteNeedsFives(n: nat, len: nat, k: nat)
    requires n * Pow(2, k) % Pow(10, len) == 0
    ensures n % Pow(5, len) == 0
  {
    TenSplits(len);
    FiveOdd(len);
    FactorDivides(n * Pow(2, k), Pow(5, len), Pow(2, len), Pow(10, len));
    PowerOfTwoDropped(n, k, Pow(5, len));
  }

  lemma FactorDivides(x: nat, d: nat, e: nat, de: nat)
    requires d > 0 && de > 0 && de == d * e && x % de == 0
    ensures x % d == 0
  {
    var q := x / de;
    assert x == q * de == q * (d * e) == (q * e) * d;
    MultipleMod(q * e, d);
  }

  lemma FivesSuffice(n: nat, len: nat)
    requires n % Pow(5, len) == 0
    ensures n * Pow(2, len) % Pow(10, len) == 0
  {
    TenSplits(len);
    var d, t, q := Pow(5, len), Pow(2, len), n / Pow(5, len);
    assert n == q * d;
    assert n * t == (q * d) * t == q * (d * t);
    MultipleMod(q, d * t);
  }

  /** For 1 to 18 digits the program prints the binary fraction exactly to the number of bits
      printed, and the error is below one unit of the last bit. */
  lemma ConvertExact(digits: seq<nat>, precision: int)
    requires |digits| <= 18 && forall i :: 0 <= i < |digits| ==> digits[i] <= 9
    ensures var r := Emit(Number(digits), Limit(|digits|), precision);
            && Cuts(Decimal(digits), Pow(10, |digits|), r)
            && r.rest < Pow(10, |digits|) && (|r.bits| < precision ==> r.rest == 0)
  {
    DecimalBelow(digits);
    LimitExact(|digits|);
    EmitExact(Decimal(digits), Pow(10, |digits|), precision);
  }

  /** The loop stops early only when the fraction is finite, that is when 5^len divides N, and
      then has printed at most len bits; a finite fraction makes it stop early whenever more
      than len bits were asked for. */
  lemma StopsEarlyIffFinite(digits: seq<nat>, precision: int)
    requires |digits| <= 18 && forall i :: 0 <= i < |digits| ==> digits[i] <= 9
    ensures var bits := Emit(Number(digits), Limit(|digits|), precision).bits;
            && (|bits| < precision ==> Decimal(digits) % Pow(5, |digits|) == 0 && |bits| <= |digits|)
            && (Decimal(digits) % Pow(5, |digits|) == 0 && precision > |digits| ==> |bits| < precision)
  {
    var n, len := Decimal(digits), |digits|;
    DecimalBelow(digits);
    LimitExact(len);
    ConvertExact(digits, precision);
    var bits := Emit(n, Pow(10, len), precision).bits;
    if |bits| < precision {
      MultipleMod(Bits(bits), Pow(10, len));
      FiniteNeedsFives(n, len, |bits|);
    }
    if n % Pow(5, len) == 0 {
      FivesSuffice(n, len);
      if |bits| > len {
        NothingLeftEarlier(n, Pow(10, len), precision, len);
      }
    }
  }
}
