/**
 The Base58 codec: big-number conversion between base 256 and base 58 in buffers of fixed size.
 Leading zero bytes and leading '1' characters stand for each other outside the conversion.
 */
module Base58 {

  import opened Base58Numbers

  type Byte = b: int | 0 <= b < 256

  /** A code as `charCodeAt` gives it. A string is any sequence of them; a character beyond the 16-bit range is two. */
  newtype CodeUnit = c: int | 0 <= c < 0x10000
  type Text = seq<CodeUnit>

  /** `Rejected` is the source's bare return; `NonZeroCarry` is its thrown error. */
  datatype Outcome<T> = Done(value: T) | Rejected | NonZeroCarry

  // The alphabet, written in runs of consecutive characters: no 0, I, O or l

  const NUMERALS := "123456789"
  const CAPITALS := "ABCDEFGH" + "JKLMN" + "PQRSTUVWXYZ"
  const SMALLS := "abcdefghijk" + "mnopqrstuvwxyz"
  const ALPHABET := NUMERALS + CAPITALS + SMALLS
  const BASE := 58
  /** The digit one. */
  const LEADER: CodeUnit := 0x31
  const SPACE: CodeUnit := 0x20
  /** The table entry of a character outside the alphabet. */
  const INVALID := 255

  function CodeOf(i: int): int {
    if i < 9 then '1' as int + i
    else if i < 17 then 'A' as int + i - 9
    else if i < 22 then 'J' as int + i - 17
    else if i < 33 then 'P' as int + i - 22
    else if i < 44 then 'a' as int + i - 33
    else 'm' as int + i - 44
  }

  lemma AlphabetCode(i: int)
    requires 0 <= i < BASE
    ensures |ALPHABET| == BASE && ALPHABET[i] as int == CodeOf(i)
  {
    hide NUMERALS, CAPITALS, SMALLS;
    RunLengths();
    if i < 9 {
      NumeralCode(i);
    } else if i < 33 {
      CapitalCode(i - 9);
    } else {
      SmallCode(i - 33);
    }
  }

  lemma RunLengths()
    ensures |NUMERALS| == 9 && |CAPITALS| == 24 && |SMALLS| == 25
  {
  }

  lemma NumeralCode(i: int)
    requires 0 <= i < 9
    ensures |NUMERALS| == 9 && NUMERALS[i] as int == CodeOf(i)
  {
  }

  lemma CapitalCode(i: int)
    requires 0 <= i < 24
    ensures |CAPITALS| == 24 && CAPITALS[i] as int == CodeOf(i + 9)
  {
  }

  lemma SmallCode(i: int)
    requires 0 <= i < 25
    ensures |SMALLS| == 25 && SMALLS[i] as int == CodeOf(i + 33)
  {
  }

  function CharOf(d: int): CodeUnit
    requires 0 <= d < BASE
  {
    AlphabetCode(d);
    ALPHABET[d] as int as CodeUnit
  }

  function Find(c: CodeUnit, i: nat): int
    requires i <= BASE
    decreases BASE - i
  {
    if i == BASE then INVALID else if CharOf(i) == c then i else Find(c, i + 1)
  }

  /** The position of a character in the alphabet, or `INVALID`. */
  function DigitOf(c: CodeUnit): int { Find(c, 0) }

  lemma {:induction false} FindFrom(c: CodeUnit, i: nat)
    requires i <= BASE
    ensures Find(c, i) == INVALID ==> forall j :: i <= j < BASE ==> CharOf(j) != c
    ensures Find(c, i) != INVALID ==> i <= Find(c, i) < BASE && CharOf(Find(c, i)) == c
    decreases BASE - i
  {
    hide CharOf;
    if i < BASE && CharOf(i) != c { FindFrom(c, i + 1); }
  }

  /** No character is listed twice, so positions and characters determine each other. */
  lemma CharOfIsInjective(d: int, e: int)
    requires 0 <= d < BASE && 0 <= e < BASE && CharOf(d) == CharOf(e)
    ensures d == e
  {
    AlphabetCode(d);
    AlphabetCode(e);
  }

  lemma DigitOfChar(d: int)
    requires 0 <= d < BASE
    ensures DigitOf(CharOf(d)) == d
  {
    hide CharOf;
    var c := CharOf(d);
    FindFrom(c, 0);
    CharOfIsInjective(d, if DigitOf(c) == INVALID then d else DigitOf(c));
  }

  lemma CharOfDigit(c: CodeUnit)
    ensures DigitOf(c) != INVALID ==> 0 <= DigitOf(c) < BASE && CharOf(DigitOf(c)) == c
    ensures DigitOf(c) == INVALID <==> forall d :: 0 <= d < BASE ==> CharOf(d) != c
    ensures DigitOf(c) == 0 <==> c == LEADER
  {
    FindFrom(c, 0);
    AlphabetCode(0);
    DigitOfChar(0);
  }

  /** The reverse table; the check that no entry is set twice never fires. */
  method BuildBaseMap() returns (baseMap: array<int>, ambiguous: bool)
    ensures !ambiguous && IsBaseMap(baseMap) && fresh(baseMap)
  {
    hide CharOf, DigitOf;
    baseMap := new int[256];
    ambiguous := false;
    for j := 0 to baseMap.Length
      invariant forall k :: 0 <= k < j ==> baseMap[k] == INVALID
    {
      baseMap[j] := INVALID;
    }
    for i := 0 to BASE
      invariant forall k :: 0 <= k < i ==> CharOf(k) < 128 && baseMap[CharOf(k) as int] == k
      invariant forall k :: 0 <= k < 256 ==> baseMap[k] == INVALID || (0 <= baseMap[k] < i && CharOf(baseMap[k]) as int == k)
      invariant !ambiguous
    {
      CharIsAscii(i);
      var xc := CharOf(i) as int;
      if baseMap[xc] != INVALID {
        CharOfIsInjective(i, baseMap[xc]);
        ambiguous := true;
        return;
      }
      baseMap[xc] := i;
      forall k | 0 <= k < i ensures CharOf(k) as int != xc {
        if CharOf(k) == CharOf(i) { CharOfIsInjective(k, i); }
      }
    }
    forall k | 0 <= k < 256 ensures baseMap[k] == DigitOf(k as CodeUnit) {
      CharOfDigit(k as CodeUnit);
      if baseMap[k] != INVALID { DigitOfChar(baseMap[k]); }
    }
  }

  lemma CharIsAscii(i: int)
    requires 0 <= i < BASE
    ensures CharOf(i) < 128
  {
    AlphabetCode(i);
  }

  ghost predicate IsBaseMap(baseMap: array<int>)
    reads baseMap
  {
    baseMap.Length == 256 && forall k :: 0 <= k < 256 ==> baseMap[k] == DigitOf(k as CodeUnit)
  }

  // What encoding and decoding mean

  function LeadingZeros(s: seq<int>): (n: nat)
    ensures n <= |s| && Zeros(s[..n]) && (n < |s| ==> s[n] != 0)
  {
    if s == [] || s[0] != 0 then 0 else 1 + LeadingZeros(s[1..])
  }

  function CharsOf(digits: seq<int>): Text
    requires Digits(BASE, digits)
  {
    seq(|digits|, i requires 0 <= i < |digits| => CharOf(digits[i]))
  }

  function DigitsOf(s: Text): seq<int> {
    seq(|s|, i requires 0 <= i < |s| => DigitOf(s[i]))
  }

  predicate Valid(s: Text) {
    forall i :: 0 <= i < |s| ==> DigitOf(s[i]) != INVALID
  }

  function Repeat<T>(x: T, n: nat): seq<T> { seq(n, i => x) }

  /** The digits of `source` in the other base, with one zero digit per leading zero digit. */
  ghost function Converted(from: int, to: int, source: seq<int>): seq<int>
    requires from > 1 && to > 1 && Digits(from, source)
  {
    var n := LeadingZeros(source);
    ValueBound(from, source[n..]);
    Repeat(0, n) + Represent(to, Value(from, source[n..]))
  }

  lemma ConvertedIsDigits(from: int, to: int, source: seq<int>)
    requires from > 1 && to > 1 && Digits(from, source)
    ensures Digits(to, Converted(from, to, source))
  {
    var n := LeadingZeros(source);
    ValueBound(from, source[n..]);
    RepresentIsRight(to, Value(from, source[n..]));
  }

  lemma {:induction false} LeadingZerosOf(n: nat, rest: seq<int>)
    requires Minimal(rest)
    ensures LeadingZeros(Repeat(0, n) + rest) == n
  {
    if n > 0 {
      LeadingZerosOf(n - 1, rest);
      assert (Repeat(0, n) + rest)[1..] == Repeat(0, n - 1) + rest;
    } else {
      assert Repeat(0, 0) + rest == rest;
    }
  }

  /** A string of zeros and a minimal rest is split where it was put together. */
  lemma SplitAgain(n: nat, rest: seq<int>)
    requires Minimal(rest)
    ensures LeadingZeros(Repeat(0, n) + rest) == n && (Repeat(0, n) + rest)[n..] == rest
  {
    LeadingZerosOf(n, rest);
  }

  /** Converting back gives the original digits: leading zeros and value are both kept. */
  lemma ConversionIsReversible(from: int, to: int, source: seq<int>)
    requires from > 1 && to > 1 && Digits(from, source)
    ensures Digits(to, Converted(from, to, source))
    ensures Converted(to, from, Converted(from, to, source)) == source
  {
    hide Mul, Value, Represent, Power, LeadingZeros, Repeat;
    var n := LeadingZeros(source);
    var rest := source[n..];
    ValueBound(from, rest);
    RepresentIsRight(to, Value(from, rest));
    ConvertedIsDigits(from, to, source);
    SplitAgain(n, Represent(to, Value(from, rest)));
    RepresentIsUnique(from, rest);
    ZerosAreRepeated(source, n);
  }

  lemma ZerosAreRepeated(source: seq<int>, n: nat)
    requires n <= |source| && Zeros(source[..n])
    ensures source == Repeat(0, n) + source[n..]
  {
    assert source[..n] == Repeat(0, n);
  }

  // The conversion loop

  /** The loop has room for the product: no digit string of the buffer's size would be too short. */
  ghost predicate Fits(base: int, size: nat, factor: int, v: int, digit: int) {
    Mul(v, factor) + digit < Power(base, size)
  }

  /** One cell: the carry stays below the factor and the partial sums stay equal. */
  lemma CarryStep(base: int, factor: int, i: nat, cell: int, carry: int, low: seq<int>, oldLow: seq<int>, digit: int)
    requires base > 1 && factor > 0 && 0 <= cell < base && 0 <= carry < factor
    requires |low| == |oldLow| == i
    requires Value(base, low) + Mul(carry, Power(base, i)) == Mul(Value(base, oldLow), factor) + digit
    ensures var x := carry + Mul(factor, cell);
            && x >= 0 && 0 <= x / base < factor
            && Value(base, [x % base] + low) + Mul(x / base, Power(base, i + 1)) == Mul(Value(base, [cell] + oldLow), factor) + digit
  {
    hide Mul, Value, Power;
    var x, p := carry + Mul(factor, cell), Power(base, i);
    NewCarry(base, factor, cell, carry);
    Quotient(x, base);
    OneDigit(base, x % base, low);
    OneDigit(base, cell, oldLow);
    assert Power(base, i + 1) == Mul(p, base) by { PowerSucc(base, i); }
    // x / base * (p * base) + x % base * p == x * p
    Commute(p, base);
    Associate(x / base, base, p);
    Distribute(Mul(x / base, base), x % base, p);
    // x * p == carry * p + (cell * p) * factor
    Distribute(carry, Mul(factor, cell), p);
    Associate(factor, cell, p);
    Commute(factor, Mul(cell, p));
    Distribute(Mul(cell, p), Value(base, oldLow), factor);
  }

  lemma PowerSucc(base: int, i: nat)
    ensures Power(base, i + 1) == Mul(Power(base, i), base)
  {
  }

  lemma NewCarry(base: int, factor: int, cell: int, carry: int)
    requires base > 1 && factor > 0 && 0 <= cell < base && 0 <= carry < factor
    ensures var x := carry + Mul(factor, cell); x >= 0 && 0 <= x / base < factor
  {
    hide Mul;
    var x := carry + Mul(factor, cell);
    Commute(factor, cell);
    Monotone(0, cell, factor);
    Unit(factor);
    Quotient(x, base);
    // x < factor * base
    Monotone(cell + 1, base, factor);
    Successor(cell, factor);
    Commute(base, factor);
    if x / base >= factor { Monotone(factor, x / base, base); }
  }

  lemma OneDigit(base: int, d: int, low: seq<int>)
    ensures Value(base, [d] + low) == Mul(d, Power(base, |low|)) + Value(base, low)
  {
    ValueConcat(base, [d], low);
    assert [d] == [] + [d];
    ValueSnoc(base, [], d);
    Unit(base);
  }

  /** When the loop stops, nothing is carried out of the buffer and its value is the product. */
  lemma LoopDone(base: int, factor: int, before: seq<int>, after: seq<int>, i: nat, length: nat, carry: int, digit: int)
    requires base > 1 && factor > 0 && |before| == |after| && i <= |before| && length <= |before|
    requires Digits(base, before) && Digits(base, after) && Zeros(before[..|before| - length])
    requires after[..|after| - i] == before[..|before| - i] && 0 <= carry
    requires Value(base, after[|after| - i..]) + Mul(carry, Power(base, i)) == Mul(Value(base, before[|before| - i..]), factor) + digit
    requires Fits(base, |before|, factor, Value(base, before), digit)
    requires (carry == 0 && i >= length) || i == |before|
    ensures carry == 0 && i <= |after| && Zeros(after[..|after| - i])
    ensures Value(base, after) == Mul(Value(base, before), factor) + digit
  {
    hide Mul, Value, Power, Digits;
    var n := |before|;
    if i == n {
      assert after[..n - i] == [] && after[n - i..] == after && before[n - i..] == before;
      FullBuffer(base, factor, before, after, carry, digit);
    } else {
      assert after == after[..n - i] + after[n - i..] && before == before[..n - i] + before[n - i..];
      assert Zeros(before[..n - i]);
      DropZeros(base, before[..n - i], before[n - i..]);
      DropZeros(base, after[..n - i], after[n - i..]);
      Unit(Power(base, i));
    }
  }

  /** A carry out of the whole buffer would be worth more than fits. */
  lemma FullBuffer(base: int, factor: int, before: seq<int>, after: seq<int>, carry: int, digit: int)
    requires base > 1 && |before| == |after| && Digits(base, after) && 0 <= carry
    requires Value(base, after) + Mul(carry, Power(base, |before|)) == Mul(Value(base, before), factor) + digit
    requires Fits(base, |before|, factor, Value(base, before), digit)
    ensures carry == 0 && Value(base, after) == Mul(Value(base, before), factor) + digit
  {
    hide Mul, Value, Power, Digits;
    var n := |before|;
    ValueBound(base, after);
    if carry > 0 {
      PowerPositive(base, n);
      Monotone(1, carry, Power(base, n));
    }
    Unit(Power(base, n));
  }

  /** Multiplies the number in the buffer by `factor` and adds `digit`, as both codec directions do. */
  method MultiplyAdd(buffer: array<int>, base: int, factor: int, length: nat, digit: int) returns (carry: int, newLength: nat)
    requires base > 1 && factor > 0 && 0 <= digit < factor
    requires Digits(base, buffer[..]) && length <= buffer.Length && Zeros(buffer[..buffer.Length - length])
    requires Fits(base, buffer.Length, factor, Value(base, buffer[..]), digit)
    modifies buffer
    ensures carry == 0 && newLength <= buffer.Length
    ensures Digits(base, buffer[..]) && Zeros(buffer[..buffer.Length - newLength])
    ensures Value(base, buffer[..]) == Mul(Value(base, old(buffer[..])), factor) + digit
  {
    hide Mul, Value, Power, Fits;
    ghost var before := buffer[..];
    var size := buffer.Length;
    carry := digit;
    var i := 0;
    var it := size - 1;
    StartOfLoop(base, factor, digit);
    assert buffer[size..] == [] && before[size..] == [] && buffer[..size] == before[..size];
    while (carry != 0 || i < length) && it != -1
      invariant 0 <= i <= size && it == size - 1 - i && 0 <= carry < factor
      invariant buffer[..size - i] == before[..size - i]
      invariant Digits(base, buffer[..])
      invariant Value(base, buffer[size - i..]) + Mul(carry, Power(base, i)) == Mul(Value(base, before[size - i..]), factor) + digit
      decreases it
    {
      ghost var low := buffer[size - i..];
      CarryStep(base, factor, i, before[it], carry, low, before[size - i..], digit);
      assert buffer[it] == buffer[..size - i][it] == before[it];
      carry := carry + Mul(factor, buffer[it]);
      RemainderIsDigit(carry, base);
      buffer[it] := carry % base;
      carry := carry / base;
      assert buffer[it..] == [buffer[it]] + low && before[it..] == [before[it]] + before[size - i..];
      assert buffer[..it] == before[..it] by { assert before[..it] == before[..size - i][..it]; }
      it := it - 1;
      i := i + 1;
    }
    LoopDone(base, factor, before, buffer[..], i, length, carry, digit);
    newLength := i;
  }

  lemma StartOfLoop(base: int, factor: int, digit: int)
    ensures Value(base, []) + Mul(digit, Power(base, 0)) == Mul(Value(base, []), factor) + digit
  {
  }

  lemma RemainderIsDigit(x: int, base: int)
    requires base > 1
    ensures 0 <= x % base < base
  {
  }

  // Encoding and decoding

  /** What `encode` returns: the digits in base 58, spelled in the alphabet. */
  ghost function Encoded(source: seq<Byte>): Text {
    ConvertedIsDigits(256, BASE, source);
    CharsOf(Converted(256, BASE, source))
  }

  /** The table has no entry for a character whose code does not fit a byte. */
  predicate Wide(c: CodeUnit) { c >= 256 }

  /** What the test for an invalid character lets through. */
  predicate Passes(c: CodeUnit) { Wide(c) || DigitOf(c) != INVALID }

  predicate Accepted(s: Text) {
    forall i :: 0 <= i < |s| ==> Passes(s[i])
  }

  /**
   The number in the buffer after the characters of `s`. For a wide character the carry is not a number: the last
   byte of the buffer is cleared instead of being multiplied, and carries nothing over.
   */
  ghost function Read(s: Text): int {
    if s == [] then 0
    else
      var v, c := Read(s[..|s| - 1]), s[|s| - 1];
      if Wide(c) then Mul(v - v % 256, BASE) else Mul(v, BASE) + DigitOf(c)
  }

  lemma {:induction false} ReadIsBounded(s: Text)
    requires Accepted(s)
    ensures 0 <= Read(s) < Power(BASE, |s|)
  {
    hide Mul, DigitOf;
    if s != [] {
      var front, c := s[..|s| - 1], s[|s| - 1];
      ReadIsBounded(front);
      assert Passes(c);
      CharOfDigit(c);
      LastByte(Read(front));
      var v := if Wide(c) then Read(front) - Read(front) % 256 else Read(front);
      Monotone(v + 1, Power(BASE, |front|), BASE);
      Monotone(0, v, BASE);
      Successor(v, BASE);
      Unit(BASE);
    }
  }

  lemma LastByte(v: int)
    requires v >= 0
    ensures 0 <= v - v % 256 <= v
  {
  }

  /** Without wide characters it is the number that the digits stand for. */
  lemma {:induction false} ReadOfDigits(s: Text)
    requires Valid(s)
    ensures Read(s) == Value(BASE, DigitsOf(s))
  {
    hide Mul, DigitOf;
    if s != [] {
      var front := s[..|s| - 1];
      ReadOfDigits(front);
      WideIsNoDigit(s[|s| - 1]);
      assert DigitsOf(s)[..|s| - 1] == DigitsOf(front);
    }
  }

  lemma WideIsNoDigit(c: CodeUnit)
    ensures Wide(c) ==> DigitOf(c) == INVALID
  {
    CharOfDigit(c);
    if DigitOf(c) != INVALID { CharIsAscii(DigitOf(c)); }
  }

  /** What `decode` returns: bytes, unless some character is neither in the alphabet nor wide. */
  ghost function Decoded(source: Text): (r: Outcome<seq<int>>)
    ensures r.Done? <==> Accepted(source)
  {
    if !Accepted(source) then Rejected
    else
      var n := LeadingZeros(DigitsOf(source));
      ReadIsBounded(source[n..]);
      Done(Repeat(0, n) + Represent(256, Read(source[n..])))
  }

  lemma DecodedValid(source: Text)
    requires Valid(source)
    ensures Digits(BASE, DigitsOf(source)) && Decoded(source) == Done(Converted(BASE, 256, DigitsOf(source)))
  {
    hide DigitOf, Value, Represent, LeadingZeros;
    DigitsOfValid(source);
    var n := LeadingZeros(DigitsOf(source));
    assert DigitsOf(source)[n..] == DigitsOf(source[n..]);
    ReadOfDigits(source[n..]);
  }

  lemma DigitsOfValid(s: Text)
    requires Valid(s)
    ensures Digits(BASE, DigitsOf(s))
  {
    hide DigitOf;
    forall i | 0 <= i < |s| ensures 0 <= DigitOf(s[i]) < BASE {
      CharOfDigit(s[i]);
    }
  }

  /** There is room for every further digit, because the whole input has room. */
  lemma RoomForDigit(from: int, to: int, rest: seq<int>, k: nat, size: nat)
    requires from > 1 && to > 1 && k < |rest| && Digits(from, rest[..k + 1])
    requires Power(from, |rest|) >= 0 && size == Size(to, Power(from, |rest|))
    ensures Value(from, rest[..k + 1]) == Mul(Value(from, rest[..k]), from) + rest[k]
    ensures Fits(to, size, from, Value(from, rest[..k]), rest[k])
  {
    hide Mul, Value, Power;
    assert rest[..k + 1] == rest[..k] + [rest[k]];
    ValueSnoc(from, rest[..k], rest[k]);
    ValueBound(from, rest[..k + 1]);
    PowerMonotone(from, k + 1, |rest|);
    SizeIsLeast(to, Power(from, |rest|));
  }

  /** The buffer without its leading zeros is the representation of the converted number. */
  lemma BufferIsConverted(from: int, to: int, source: seq<int>, n: nat, buffer: seq<int>, it: nat)
    requires from > 1 && to > 1 && Digits(from, source) && n == LeadingZeros(source)
    requires Digits(to, buffer) && it <= |buffer| && Zeros(buffer[..it]) && (it < |buffer| ==> buffer[it] != 0)
    requires Value(to, buffer) == Value(from, source[n..])
    ensures Repeat(0, n) + buffer[it..] == Converted(from, to, source)
  {
    hide Mul, Value, Power, Represent, LeadingZeros;
    assert buffer == buffer[..it] + buffer[it..];
    DropZeros(to, buffer[..it], buffer[it..]);
    RepresentIsUnique(to, buffer[it..]);
  }

  /** The buffer without its leading zeros is the representation of its number. */
  lemma BufferIsRepresented(base: int, buffer: seq<int>, it: nat)
    requires base > 1 && Digits(base, buffer) && it <= |buffer| && Zeros(buffer[..it]) && (it < |buffer| ==> buffer[it] != 0)
    ensures Value(base, buffer) >= 0 && buffer[it..] == Represent(base, Value(base, buffer))
  {
    hide Mul, Value, Power, Represent;
    assert buffer == buffer[..it] + buffer[it..];
    DropZeros(base, buffer[..it], buffer[it..]);
    RepresentIsUnique(base, buffer[it..]);
  }

  /** Clearing the last cell takes the last digit away. */
  lemma LastCellCleared(base: int, buffer: seq<int>)
    requires base > 1 && buffer != [] && Digits(base, buffer)
    ensures var cleared := buffer[|buffer| - 1 := 0];
            && Digits(base, cleared) && Value(base, cleared) == Value(base, buffer) - Value(base, buffer) % base
  {
    hide Mul;
    var high, d := buffer[..|buffer| - 1], buffer[|buffer| - 1];
    ValueBound(base, high);
    DivMod(base, Value(base, high), d);
    assert buffer[|buffer| - 1 := 0][..|buffer| - 1] == high;
  }

  lemma RoomForCharacter(source: Text, from: nat, psz: nat, size: nat)
    requires from <= psz < |source| && Accepted(source[from..psz]) && Passes(source[psz])
    requires Power(BASE, |source| - from) >= 0 && size == Size(256, Power(BASE, |source| - from))
    ensures size > 0 && Read(source[from..psz]) >= 0
    ensures var v, c := Read(source[from..psz]), source[psz];
            && Read(source[from..psz + 1]) == (if Wide(c) then Mul(v - v % 256, BASE) else Mul(v, BASE) + DigitOf(c))
            && (if Wide(c) then Fits(256, size, BASE, v - v % 256, 0) else Fits(256, size, BASE, v, DigitOf(c)))
  {
    hide Mul, Value, Power, DigitOf;
    var longer := source[from..psz + 1];
    assert longer[..|longer| - 1] == source[from..psz];
    assert Accepted(longer) by {
      forall i | 0 <= i < |longer| ensures Passes(longer[i]) { if i < psz - from { assert Passes(source[from..psz][i]); } }
    }
    ReadIsBounded(source[from..psz]);
    ReadIsBounded(longer);
    PowerMonotone(BASE, psz + 1 - from, |source| - from);
    SizeIsLeast(256, Power(BASE, |source| - from));
    PowerPositive(BASE, |source| - from);
    NoPower(256);
  }

  lemma NoPower(base: int)
    ensures Power(base, 0) == 1
  {
  }

  lemma ZerosAreLeading(source: seq<int>, n: nat)
    requires n <= |source| && Zeros(source[..n]) && (n < |source| ==> source[n] != 0)
    ensures LeadingZeros(source) == n
  {
    SplitAgain(n, source[n..]);
    ZerosAreRepeated(source, n);
  }

  lemma SpellDigits(n: nat, digits: seq<int>)
    requires Digits(BASE, digits)
    ensures Digits(BASE, Repeat(0, n) + digits)
    ensures CharsOf(Repeat(0, n) + digits) == Repeat(LEADER, n) + CharsOf(digits)
  {
    AlphabetCode(0);
  }

  method Encode(source: seq<Byte>) returns (r: Outcome<Text>)
    ensures r == Done(Encoded(source))
  {
    hide Mul, Value, Power, Fits, CharOf, LeadingZeros, Represent, Repeat, Size, CharsOf;
    if |source| == 0 {
      EncodedEmpty();
      return Done([]);
    }
    var zeroes, length, pbegin, pend := 0, 0, 0, |source|;
    while pbegin != pend && source[pbegin] == 0
      invariant 0 <= zeroes == pbegin <= pend && Zeros(source[..pbegin])
    {
      pbegin := pbegin + 1;
      zeroes := zeroes + 1;
    }
    ZerosAreLeading(source, zeroes);
    ghost var rest: seq<int> := source[zeroes..];
    PowerPositive(256, pend - pbegin);
    var size := Size(BASE, Power(256, pend - pbegin));
    var b58 := new int[size](_ => 0);
    StartOfConversion(256, BASE, rest, b58[..]);
    while pbegin != pend
      invariant zeroes <= pbegin <= pend && length <= size
      invariant Digits(BASE, b58[..]) && Zeros(b58[..size - length])
      invariant Value(BASE, b58[..]) == Value(256, rest[..pbegin - zeroes])
    {
      RoomForDigit(256, BASE, rest, pbegin - zeroes, size);
      var carry, i := MultiplyAdd(b58, BASE, 256, length, source[pbegin]);
      if carry != 0 { return NonZeroCarry; }
      length := i;
      pbegin := pbegin + 1;
    }
    assert rest[..pend - zeroes] == rest;
    var it2 := size - length;
    while it2 != size && b58[it2] == 0
      invariant size - length <= it2 <= size && Zeros(b58[..it2])
    {
      it2 := it2 + 1;
    }
    BufferIsConverted(256, BASE, source, zeroes, b58[..], it2);
    SpellDigits(zeroes, b58[it2..]);
    var str := Spell(b58, it2, zeroes);
    return Done(str);
  }

  /** One leader per leading zero byte, then the digits from `start` on in the alphabet. */
  method Spell(b58: array<int>, start: nat, zeroes: nat) returns (str: Text)
    requires start <= b58.Length && Digits(BASE, b58[..])
    ensures str == Repeat(LEADER, zeroes) + CharsOf(b58[start..])
  {
    hide CharOf, Repeat, CharsOf;
    str := Repeat(LEADER, zeroes);
    ghost var digits := b58[start..];
    var it2 := start;
    SpellNone();
    while it2 < b58.Length
      invariant start <= it2 <= b58.Length
      invariant str == Repeat(LEADER, zeroes) + CharsOf(digits[..it2 - start])
    {
      SpellOne(digits, it2 - start);
      str := str + [CharOf(b58[it2])];
      it2 := it2 + 1;
    }
    assert digits[..b58.Length - start] == digits;
  }

  lemma EncodedEmpty()
    ensures Encoded([]) == [] && Decoded([]) == Done([])
  {
  }

  lemma SpellNone()
    ensures CharsOf([]) == []
  {
  }

  lemma SpellOne(digits: seq<int>, k: nat)
    requires Digits(BASE, digits) && k < |digits|
    ensures CharsOf(digits[..k + 1]) == CharsOf(digits[..k]) + [CharOf(digits[k])]
  {
    hide CharOf;
  }

  lemma StartOfConversion(from: int, to: int, rest: seq<int>, buffer: seq<int>)
    requires to > 1 && Zeros(buffer)
    ensures Digits(to, buffer) && Value(to, buffer) == Value(from, rest[..0])
  {
    ValueOfZeros(to, buffer);
  }

  /** Every string is accepted or rejected as the code does, and every accepted one gives the bytes it gives there. */
  method Decode(baseMap: array<int>, source: Text) returns (r: Outcome<seq<int>>)
    requires IsBaseMap(baseMap)
    ensures r == Decoded(source)
  {
    hide Mul, Value, Power, Fits, CharOf, LeadingZeros, Represent, Repeat, Size, DigitOf, Digits, Read;
    if |source| == 0 {
      EncodedEmpty();
      return Done([]);
    }
    var psz := 0;
    if source[psz] == SPACE {
      SpaceIsInvalid();
      assert !Passes(source[0]);
      return Rejected;
    }
    var zeroes, length := 0, 0;
    ghost var all := DigitsOf(source);
    while psz < |source| && source[psz] == LEADER
      invariant 0 <= zeroes == psz <= |source| && Zeros(all[..psz])
      invariant forall i :: 0 <= i < psz ==> Passes(source[i])
    {
      CharOfDigit(source[psz]);
      psz := psz + 1;
      zeroes := zeroes + 1;
    }
    if psz < |source| { CharOfDigit(source[psz]); }
    ZerosAreLeading(all, zeroes);
    PowerPositive(BASE, |source| - psz);
    var size := Size(256, Power(BASE, |source| - psz));
    var b256 := new int[size](_ => 0);
    StartOfConversion(BASE, 256, [], b256[..]);
    ReadNothing(source, zeroes);
    while psz < |source|
      invariant zeroes <= psz <= |source| && length <= size
      invariant forall i :: 0 <= i < psz ==> Passes(source[i])
      invariant Digits(256, b256[..]) && Zeros(b256[..size - length])
      invariant Value(256, b256[..]) == Read(source[zeroes..psz])
    {
      var carry := if source[psz] as int < 256 then baseMap[source[psz] as int] else 0;
      if source[psz] as int < 256 && carry == 255 {
        assert !Passes(source[psz]);
        return Rejected;
      }
      RoomForCharacter(source, zeroes, psz, size);
      CharOfDigit(source[psz]);
      if source[psz] as int >= 256 {
        // the first round of the carry loop, with a carry that is not a number
        LastCellCleared(256, b256[..]);
        ghost var before := b256[..];
        b256[size - 1] := 0;
        assert b256[..] == before[size - 1 := 0];
        if length == 0 { length := 1; }
      }
      var i;
      carry, i := MultiplyAdd(b256, 256, BASE, length, carry);
      if carry != 0 { return NonZeroCarry; }
      length := i;
      psz := psz + 1;
    }
    assert source[zeroes..psz] == source[zeroes..];
    var it4 := size - length;
    while it4 != size && b256[it4] == 0
      invariant size - length <= it4 <= size && Zeros(b256[..it4])
    {
      it4 := it4 + 1;
    }
    BufferIsRepresented(256, b256[..], it4);
    var vch := CopyOut(b256, it4, zeroes);
    return Done(vch);
  }

  lemma ReadNothing(source: Text, from: nat)
    requires from <= |source|
    ensures Read(source[from..from]) == 0 == Value(BASE, [])
  {
  }

  /** The bytes from `start` on, behind one zero byte per leader. */
  method CopyOut(b256: array<int>, start: nat, zeroes: nat) returns (bytes: seq<int>)
    requires start <= b256.Length
    ensures bytes == Repeat(0, zeroes) + b256[start..]
  {
    var vch := new int[zeroes + (b256.Length - start)](_ => 0);
    var j, it4 := zeroes, start;
    while it4 != b256.Length
      invariant start <= it4 <= b256.Length && j == zeroes + (it4 - start)
      invariant forall k :: 0 <= k < zeroes ==> vch[k] == 0
      invariant vch[zeroes..j] == b256[start..it4]
    {
      vch[j] := b256[it4];
      j := j + 1;
      it4 := it4 + 1;
    }
    RepeatedZeros(vch[..], zeroes);
    assert vch[..] == vch[..zeroes] + vch[zeroes..j];
    return vch[..];
  }

  lemma RepeatedZeros(s: seq<int>, n: nat)
    requires n <= |s| && forall k :: 0 <= k < n ==> s[k] == 0
    ensures s[..n] == Repeat(0, n)
  {
  }

  lemma SpaceIsInvalid()
    ensures DigitOf(SPACE) == INVALID
  {
    CharOfDigit(SPACE);
    if DigitOf(SPACE) != INVALID { AlphabetCode(DigitOf(SPACE)); }
  }

  // Round trips

  /** Decoding what was encoded gives the bytes back, for every byte string. */
  lemma DecodeEncode(source: seq<Byte>)
    ensures Decoded(Encoded(source)) == Done(source)
  {
    hide Converted, DigitOf, CharOf, Decoded;
    ConvertedIsDigits(256, BASE, source);
    var digits := Converted(256, BASE, source);
    ReadSpelled(digits);
    DecodedValid(Encoded(source));
    ConversionIsReversible(256, BASE, source);
  }

  lemma ReadSpelled(digits: seq<int>)
    requires Digits(BASE, digits)
    ensures Valid(CharsOf(digits)) && DigitsOf(CharsOf(digits)) == digits
  {
    hide DigitOf, CharOf;
    var s := CharsOf(digits);
    forall i | 0 <= i < |digits| ensures DigitOf(s[i]) == digits[i] {
      DigitOfChar(digits[i]);
    }
  }

  lemma SpellRead(s: Text)
    requires Valid(s)
    ensures Digits(BASE, DigitsOf(s)) && CharsOf(DigitsOf(s)) == s
  {
    hide DigitOf, CharOf;
    DigitsOfValid(s);
    forall i | 0 <= i < |s| ensures CharOf(DigitsOf(s)[i]) == s[i] {
      CharOfDigit(s[i]);
    }
  }

  lemma AreBytes(digits: seq<int>) returns (bytes: seq<Byte>)
    requires Digits(256, digits)
    ensures bytes == digits
  {
    bytes := digits;
  }

  /** Encoding what was decoded gives the string back, exactly for strings over the alphabet. */
  lemma EncodeDecode(s: Text, bytes: seq<Byte>)
    requires Decoded(s) == Done(bytes)
    ensures Encoded(bytes) == s <==> Valid(s)
  {
    hide Converted, DigitOf, CharOf, Decoded;
    if Valid(s) {
      SpellRead(s);
      DecodedValid(s);
      ConversionIsReversible(BASE, 256, DigitsOf(s));
    }
    ConvertedIsDigits(256, BASE, bytes);
    ReadSpelled(Converted(256, BASE, bytes));
  }

  /** Every string over the alphabet is the encoding of some byte string. */
  lemma EveryValidStringIsAnEncoding(s: Text)
    requires Valid(s)
    ensures exists bytes: seq<Byte> :: Decoded(s) == Done(bytes) && Encoded(bytes) == s
  {
    hide Converted, DigitOf, CharOf, Decoded;
    SpellRead(s);
    DecodedValid(s);
    ConvertedIsDigits(BASE, 256, DigitsOf(s));
    var bytes := AreBytes(Decoded(s).value);
    EncodeDecode(s, bytes);
  }

  /** Exactly the strings over the alphabet are rejected or given back, unless a wide character slips through. */
  lemma RejectedExactly(s: Text)
    ensures Decoded(s).Rejected? <==> exists i :: 0 <= i < |s| && !Wide(s[i]) && DigitOf(s[i]) == INVALID
    ensures Valid(s) <==> Accepted(s) && forall i :: 0 <= i < |s| ==> !Wide(s[i])
  {
    hide DigitOf, Read, LeadingZeros, Represent;
    forall i | 0 <= i < |s| ensures Wide(s[i]) ==> DigitOf(s[i]) == INVALID { WideIsNoDigit(s[i]); }
    if !Accepted(s) {
      var i :| 0 <= i < |s| && !Passes(s[i]);
    }
  }

  /** "2" followed by a wide character is not rejected: it decodes to no bytes at all. */
  lemma WideCharacterSlipsThrough(wide: CodeUnit)
    requires Wide(wide)
    ensures CharOf(1) == 0x32 && Decoded([0x32, wide]) == Done([]) && Encoded([]) == [] && !Valid([0x32, wide])
  {
    var s: Text := [0x32, wide];
    DigitOfChar(1);
    AlphabetCode(1);
    WideIsNoDigit(wide);
    assert CharOf(1) == 0x32;
    hide DigitOf, CharOf, Decoded;
    assert DigitsOf(s)[0] == 1 && !Valid(s) by { assert DigitOf(s[1]) == INVALID; }
    assert s[..1] == [0x32] && s[..1][..0] == [] && s[0..] == s;
    assert Read(s[..1]) == 1;
    assert Read(s) == 0;
    DecodedOf(s);
    EncodedEmpty();
  }

  lemma NoLeaders(s: Text)
    requires s != [] && s[0] != LEADER
    ensures LeadingZeros(DigitsOf(s)) == 0
  {
    CharOfDigit(s[0]);
  }

  /** A wide character at the end of a string multiplies what was decoded before, less its last byte, by 58. */
  lemma WideClearsLastByte(s: Text, wide: CodeUnit, bytes: seq<int>)
    requires Wide(wide) && s != [] && s[0] != LEADER && Decoded(s) == Done(bytes) && bytes != []
    ensures var r := Decoded(s + [wide]);
            r.Done? && Value(256, r.value) == Mul(Value(256, bytes[|bytes| - 1 := 0]), 58)
  {
    hide Mul, Value, Represent, LeadingZeros, DigitOf, Decoded, Digits;
    var longer := s + [wide];
    DecodedFacts(s);
    assert forall i :: 0 <= i < |longer| ==> Passes(longer[i]);
    NoLeaders(s);
    NoLeaders(longer);
    DecodedOf(s);
    DecodedOf(longer);
    assert s[0..] == s && longer[0..] == longer && longer[..|longer| - 1] == s;
    assert Repeat(0, 0) + Represent(256, Read(s)) == Represent(256, Read(s));
    assert Repeat(0, 0) + Represent(256, Read(longer)) == Represent(256, Read(longer));
    RepresentIsRight(256, Read(s));
    RepresentIsRight(256, Read(longer));
    LastCellCleared(256, bytes);
  }

  lemma DecodedFacts(s: Text)
    ensures Decoded(s).Done? ==> Accepted(s)
  {
  }

  lemma DecodedOf(s: Text)
    requires Accepted(s)
    ensures var n := LeadingZeros(DigitsOf(s)); Read(s[n..]) >= 0 && Decoded(s) == Done(Repeat(0, n) + Represent(256, Read(s[n..])))
  {
    ReadIsBounded(s[LeadingZeros(DigitsOf(s))..]);
  }

  /** Leading zero bytes and leading '1' characters correspond one to one. */
  lemma LeadersAreZeros(source: seq<Byte>)
    ensures var s := Encoded(source); var n := LeadingZeros(source);
            && n <= |s| && s[..n] == Repeat(LEADER, n)
            && (n < |s| ==> s[n] != LEADER)
            && (n == |s| <==> n == |source|)
  {
    hide CharOf, DigitOf, Value, Represent, LeadingZeros;
    var n := LeadingZeros(source);
    ValueBound(256, source[n..]);
    var v := Value(256, source[n..]);
    var digits := Represent(BASE, v);
    RepresentIsRight(BASE, v);
    SpellDigits(n, digits);
    if digits != [] {
      DigitOfChar(digits[0]);
      CharOfDigit(CharOf(digits[0]));
    }
    RepresentIsUnique(256, source[n..]);
    RepresentIsRight(256, v);
  }
}
