/** Positional numbers: the arithmetic behind the Base58 codec. */
module Base58Numbers {

  ghost predicate Digits(base: int, digits: seq<int>) {
    forall i :: 0 <= i < |digits| ==> 0 <= digits[i] < base
  }

  /** Multiplication by name, so that proofs can hide it from the solver's nonlinear engine. */
  function Mul(a: int, b: int): int { a * b }

  /** The number that a big-endian digit string stands for. */
  ghost function Value(base: int, digits: seq<int>): int {
    if digits == [] then 0 else Mul(Value(base, digits[..|digits| - 1]), base) + digits[|digits| - 1]
  }

  function Power(base: int, n: nat): int {
    if n == 0 then 1 else Mul(Power(base, n - 1), base)
  }

  /** The digits of a number, most significant first, without leading zeros. */
  function Represent(base: int, v: int): seq<int>
    requires base > 1 && v >= 0
  {
    if v == 0 then []
    else
      Quotient(v, base);
      Represent(base, v / base) + [v % base]
  }

  /** The least number of digits that can hold `v`. */
  function Size(base: int, v: int): nat
    requires base > 1 && v >= 0
  {
    if v == 0 then 0
    else
      Quotient(v, base);
      Size(base, v / base) + 1
  }

  // Facts about products and quotients

  lemma Quotient(v: int, base: int)
    requires base > 1 && v >= 0
    ensures v == Mul(v / base, base) + v % base && 0 <= v % base < base
    ensures 0 <= v / base && (v > 0 ==> v / base < v)
  {
    QuotientRemainder(v, base);
    var q := v / base;
    hide Mul;
    Commute(q, base);
    if q <= -1 {
      Monotone(q, -1, base);
      Successor(-1, base);
      Unit(base);
    } else {
      Monotone(2, base, q);
      Successor(1, q);
      Unit(q);
    }
  }

  lemma QuotientRemainder(v: int, base: int)
    requires base > 1
    ensures v == Mul(v / base, base) + v % base && 0 <= v % base < base
  {
  }

  lemma Monotone(a: int, b: int, c: int)
    requires a <= b && c >= 0
    ensures Mul(a, c) <= Mul(b, c)
  {
  }

  lemma Successor(a: int, c: int)
    ensures Mul(a + 1, c) == Mul(a, c) + c
  {
  }

  lemma Unit(c: int)
    ensures Mul(0, c) == 0 && Mul(c, 0) == 0 && Mul(1, c) == c && Mul(c, 1) == c
  {
  }

  lemma Commute(a: int, b: int)
    ensures Mul(a, b) == Mul(b, a)
  {
  }

  lemma Associate(a: int, b: int, c: int)
    ensures Mul(Mul(a, b), c) == Mul(a, Mul(b, c))
  {
    assert (a * b) * c == a * (b * c);
  }

  lemma Distribute(a: int, b: int, c: int)
    ensures Mul(a + b, c) == Mul(a, c) + Mul(b, c)
    ensures Mul(a - b, c) == Mul(a, c) - Mul(b, c)
  {
  }

  lemma DivMod(base: int, q: int, d: int)
    requires 0 <= d < base && base > 1 && q >= 0
    ensures (Mul(q, base) + d) / base == q && (Mul(q, base) + d) % base == d && Mul(q, base) + d >= 0
  {
    hide Mul;
    var x := Mul(q, base) + d;
    Monotone(0, q, base);
    Unit(base);
    Quotient(x, base);
    if x / base > q { Monotone(q + 1, x / base, base); Successor(q, base); }
    if x / base < q { Monotone(x / base + 1, q, base); Successor(x / base, base); }
  }

  // Powers and sizes

  lemma {:induction false} PowerPositive(base: int, n: nat)
    requires base > 0
    ensures Power(base, n) > 0
  {
    hide Mul;
    if n > 0 {
      PowerPositive(base, n - 1);
      Monotone(1, Power(base, n - 1), base);
      Unit(base);
    }
  }

  lemma {:induction false} PowerMonotone(base: int, m: nat, n: nat)
    requires base > 0 && m <= n
    ensures Power(base, m) <= Power(base, n)
    decreases n - m
  {
    hide Mul;
    if m < n {
      PowerMonotone(base, m, n - 1);
      PowerPositive(base, n - 1);
      Monotone(1, base, Power(base, n - 1));
      Commute(base, Power(base, n - 1));
      Unit(Power(base, n - 1));
    }
  }

  lemma {:induction false} PowerAdds(base: int, m: nat, n: nat)
    ensures Power(base, m + n) == Mul(Power(base, m), Power(base, n))
  {
    hide Mul;
    Unit(Power(base, m));
    if n > 0 {
      PowerAdds(base, m, n - 1);
      Associate(Power(base, m), Power(base, n - 1), base);
    }
  }

  /**
   `Size(base, v)` is the least s with base^s > v: for v = 256^n and base 58 that is
   floor(n * log 256 / log 58) + 1, and the other way round for decoding.
   */
  lemma {:induction false} SizeIsLeast(base: int, v: int)
    requires base > 1 && v >= 0
    ensures var s := Size(base, v); Power(base, s) > v && (s > 0 ==> Power(base, s - 1) <= v)
    decreases v
  {
    hide Mul;
    if v > 0 {
      Quotient(v, base);
      SizeIsLeast(base, v / base);
      var q, p := v / base, Power(base, Size(base, v / base));
      Monotone(q + 1, p, base);
      Successor(q, base);
      if q > 0 {
        Monotone(Power(base, Size(base, q) - 1), q, base);
      }
    }
  }

  /** A digit string of length n stands for a number below base^n. */
  lemma {:induction false} ValueBound(base: int, digits: seq<int>)
    requires base > 0 && Digits(base, digits)
    ensures 0 <= Value(base, digits) < Power(base, |digits|)
  {
    hide Mul;
    if digits != [] {
      var high := digits[..|digits| - 1];
      ValueBound(base, high);
      Monotone(Value(base, high) + 1, Power(base, |high|), base);
      Successor(Value(base, high), base);
      Monotone(0, Value(base, high), base);
      Unit(base);
    }
  }

  lemma ValueSnoc(base: int, high: seq<int>, d: int)
    ensures Value(base, high + [d]) == Mul(Value(base, high), base) + d
  {
    assert (high + [d])[..|high|] == high;
  }

  /** Splitting a digit string splits its value. */
  lemma {:induction false} ValueConcat(base: int, high: seq<int>, low: seq<int>)
    ensures Value(base, high + low) == Mul(Value(base, high), Power(base, |low|)) + Value(base, low)
  {
    hide Mul;
    if low == [] {
      assert high + low == high;
      Unit(Value(base, high));
    } else {
      var front, d := low[..|low| - 1], low[|low| - 1];
      ValueConcat(base, high, front);
      assert high + low == (high + front) + [d];
      ValueSnoc(base, high + front, d);
      Distribute(Mul(Value(base, high), Power(base, |front|)), Value(base, front), base);
      Distribute(Mul(Value(base, high), Power(base, |front|)), -Value(base, front), base);
      Associate(Value(base, high), Power(base, |front|), base);
    }
  }

  ghost predicate Zeros(digits: seq<int>) {
    forall i :: 0 <= i < |digits| ==> digits[i] == 0
  }

  lemma {:induction false} ValueOfZeros(base: int, digits: seq<int>)
    requires Zeros(digits)
    ensures Value(base, digits) == 0
  {
    hide Mul;
    Unit(base);
    if digits != [] { ValueOfZeros(base, digits[..|digits| - 1]); }
  }

  /** Leading zeros add nothing. */
  lemma DropZeros(base: int, zeros: seq<int>, rest: seq<int>)
    requires Zeros(zeros)
    ensures Value(base, zeros + rest) == Value(base, rest)
  {
    hide Mul;
    ValueConcat(base, zeros, rest);
    ValueOfZeros(base, zeros);
    Unit(Power(base, |rest|));
  }

  // Representations

  ghost predicate Minimal(digits: seq<int>) { digits != [] ==> digits[0] != 0 }

  /** The representation is a digit string without leading zeros that stands for the number. */
  lemma {:induction false} RepresentIsRight(base: int, v: int)
    requires base > 1 && v >= 0
    ensures var d := Represent(base, v);
            Digits(base, d) && Minimal(d) && Value(base, d) == v && (d == [] <==> v == 0)
    decreases v
  {
    hide Mul;
    if v > 0 {
      Quotient(v, base);
      RepresentIsRight(base, v / base);
      var high, d := Represent(base, v / base), v % base;
      assert Represent(base, v) == high + [d];
      hide Represent, Value;
      ValueSnoc(base, high, d);
      Unit(base);
    }
  }

  /** It is the only such digit string. */
  lemma {:induction false} RepresentIsUnique(base: int, digits: seq<int>)
    requires base > 1 && Digits(base, digits) && Minimal(digits)
    ensures Value(base, digits) >= 0 && Represent(base, Value(base, digits)) == digits
  {
    hide Mul;
    ValueBound(base, digits);
    if digits != [] {
      var high, d := digits[..|digits| - 1], digits[|digits| - 1];
      RepresentIsUnique(base, high);
      ValueBound(base, high);
      DivMod(base, Value(base, high), d);
      assert digits == high + [d];
      if Value(base, digits) == 0 {
        DivMod(base, 0, 0);
        Unit(base);
      }
    }
  }
}
