/** The bit-serial CRC-32 of PKWARE APPNOTE.TXT section 4.4.7, and what it can tell apart. */
module Crc32 {

  type Byte = bv8
  type Word = bv32

  const POLYNOMIAL: Word := 0xedb88320
  const INITIAL: Word := 0xffffffff

  // Named operations on words, so that proofs can hide the bit vectors behind them
  function Xor(a: Word, b: Word): Word { a ^ b }
  function Half(a: Word): Word { a >> 1 }
  predicate Odd(a: Word) { a & 1 != 0 }
  function Up(a: Word): Word { a << 8 }
  function Wide(b: Byte): Word { b as Word }

  /** One bit of the loop. */
  function Shift(crc: Word): Word {
    Xor(Half(crc), if Odd(crc) then POLYNOMIAL else 0)
  }

  function Shifts(crc: Word, n: nat): Word {
    if n == 0 then crc else Shift(Shifts(crc, n - 1))
  }

  function Step(crc: Word, byte: Byte): Word { Shifts(Xor(crc, Wide(byte)), 8) }

  /** The register after a byte string. */
  function Register(start: Word, bytes: seq<Byte>): Word {
    if bytes == [] then start else Step(Register(start, bytes[..|bytes| - 1]), bytes[|bytes| - 1])
  }

  function Checksum(bytes: seq<Byte>): Word { Xor(Register(INITIAL, bytes), 0xffffffff) }

  method Crc(bytes: seq<Byte>) returns (checksum: Word)
    ensures checksum == Checksum(bytes)
  {
    hide Step;
    var crc := INITIAL;
    for i := 0 to |bytes|
      invariant crc == Register(INITIAL, bytes[..i])
    {
      crc := AddByte(crc, bytes[i]);
      assert bytes[..i + 1][..i] == bytes[..i];
    }
    assert bytes[..|bytes|] == bytes;
    return Xor(crc, 0xffffffff);
  }

  method AddByte(start: Word, byte: Byte) returns (crc: Word)
    ensures crc == Step(start, byte)
  {
    hide Shifts, Xor, Half, Odd, Wide;
    crc := Xor(start, Wide(byte));
    NoShifts(crc);
    ghost var mixed := crc;
    for bit := 0 to 8
      invariant crc == Shifts(mixed, bit)
    {
      OneMoreShift(mixed, bit);
      crc := Xor(Half(crc), if Odd(crc) then POLYNOMIAL else 0);
    }
  }

  lemma NoShifts(crc: Word)
    ensures Shifts(crc, 0) == crc
  {
  }

  lemma OneMoreShift(crc: Word, n: nat)
    ensures Shifts(crc, n + 1) == Shift(Shifts(crc, n))
  {
  }

  // Each step is linear over GF(2) and loses nothing

  lemma XorOfShifts(a: Word, b: Word)
    ensures Half(Xor(a, b)) == Xor(Half(a), Half(b)) && Odd(Xor(a, b)) == (Odd(a) != Odd(b))
  {
  }

  lemma XorLaws(a: Word, b: Word, c: Word)
    ensures Xor(Xor(a, c), b) == Xor(Xor(a, b), c) && Xor(a, Xor(b, c)) == Xor(Xor(a, b), c)
    ensures Xor(Xor(a, c), Xor(b, c)) == Xor(a, b)
  {
  }

  lemma XorZero(a: Word, b: Word)
    ensures Xor(a, a) == 0 && Xor(a, 0) == a && (Xor(a, b) == 0 <==> a == b)
  {
  }

  lemma ShiftIsLinear(a: Word, b: Word)
    ensures Shift(Xor(a, b)) == Xor(Shift(a), Shift(b))
  {
    hide Xor, Half, Odd;
    XorOfShifts(a, b);
    XorLaws(Half(a), Half(b), POLYNOMIAL);
    XorZero(Half(a), 0);
    XorZero(Half(b), 0);
    XorZero(Xor(Half(a), Half(b)), 0);
  }

  lemma {:induction false} ShiftsAreLinear(a: Word, b: Word, n: nat)
    ensures Shifts(Xor(a, b), n) == Xor(Shifts(a, n), Shifts(b, n))
  {
    hide Shift, Xor;
    if n > 0 {
      ShiftsAreLinear(a, b, n - 1);
      ShiftIsLinear(Shifts(a, n - 1), Shifts(b, n - 1));
    }
  }

  /** The polynomial has its top bit set, so a shift can be run backwards. */
  function Unshift(crc: Word): Word {
    if crc & 0x80000000 != 0 then ((crc ^ POLYNOMIAL) << 1) | 1 else crc << 1
  }

  lemma ShiftIsReversible(a: Word)
    ensures Unshift(Shift(a)) == a
  {
  }

  lemma {:induction false} ShiftsAreInjective(a: Word, b: Word, n: nat)
    requires Shifts(a, n) == Shifts(b, n)
    ensures a == b
  {
    hide Shift, Unshift;
    if n > 0 {
      ShiftIsReversible(Shifts(a, n - 1));
      ShiftIsReversible(Shifts(b, n - 1));
      ShiftsAreInjective(a, b, n - 1);
    }
  }

  function Twice(z: Word): Word { z << 1 }
  predicate TopClear(z: Word) { z < 0x80000000 }

  lemma ShiftHalves(z: Word)
    requires TopClear(z)
    ensures Shift(Twice(z)) == z
  {
  }

  lemma UpIsDoubling(y: Word)
    requires y < 0x1000000
    ensures var a := Twice(y); var b := Twice(a); var c := Twice(b); var d := Twice(c);
            var e := Twice(d); var f := Twice(e); var g := Twice(f);
            && Up(y) == Twice(g)
            && TopClear(y) && TopClear(a) && TopClear(b) && TopClear(c)
            && TopClear(d) && TopClear(e) && TopClear(f) && TopClear(g)
  {
  }

  /** Eight shifts of a word whose low byte is clear move it down by a byte. */
  lemma ByteShift(y: Word)
    requires y < 0x1000000
    ensures Shifts(Up(y), 8) == y
  {
    hide Shifts, Shift, Twice, TopClear, Up;
    UpIsDoubling(y);
    var a := Twice(y); var b := Twice(a); var c := Twice(b); var d := Twice(c);
    var e := Twice(d); var f := Twice(e); var g := Twice(f); var x := Up(y);
    ShiftHalves(y); ShiftHalves(a); ShiftHalves(b); ShiftHalves(c);
    ShiftHalves(d); ShiftHalves(e); ShiftHalves(f); ShiftHalves(g);
    NoShifts(x);
    OneMoreShift(x, 0); OneMoreShift(x, 1); OneMoreShift(x, 2); OneMoreShift(x, 3);
    OneMoreShift(x, 4); OneMoreShift(x, 5); OneMoreShift(x, 6); OneMoreShift(x, 7);
  }

  // How a difference between two inputs travels through the register

  lemma {:induction false} RegisterConcat(start: Word, a: seq<Byte>, b: seq<Byte>)
    ensures Register(start, a + b) == Register(Register(start, a), b)
  {
    hide Step;
    if b == [] {
      assert a + b == a;
    } else {
      RegisterConcat(start, a, b[..|b| - 1]);
      assert (a + b)[..|a + b| - 1] == a + b[..|b| - 1];
    }
  }

  lemma RegisterCons(start: Word, byte: Byte, rest: seq<Byte>)
    ensures Register(start, [byte] + rest) == Register(Step(start, byte), rest)
  {
    hide Step;
    RegisterConcat(start, [byte], rest);
    assert [byte][..0] == [];
  }

  function Difference(a: Byte, b: Byte): Word { Xor(Wide(a), Wide(b)) }

  lemma DifferenceIsByte(a: Byte, b: Byte)
    ensures Difference(a, b) < 0x100 && (Difference(a, b) == 0 <==> a == b)
  {
  }

  lemma FourXors(r: Word, a: Word, s: Word, b: Word)
    ensures Xor(Xor(r, a), Xor(s, b)) == Xor(Xor(r, s), Xor(a, b))
  {
    hide Xor;
    XorLaws(Xor(r, a), s, b);
    XorLaws(r, s, a);
    XorLaws(Xor(r, s), a, b);
  }

  /** The same bytes applied to different registers never make them equal. */
  lemma {:induction false} SuffixKeepsDifference(r: Word, s: Word, bytes: seq<Byte>)
    requires Register(r, bytes) == Register(s, bytes)
    ensures r == s
  {
    hide Shifts, Xor, Wide;
    if bytes != [] {
      var front, byte := bytes[..|bytes| - 1], Wide(bytes[|bytes| - 1]);
      var x, y := Register(r, front), Register(s, front);
      ShiftsAreInjective(Xor(x, byte), Xor(y, byte), 8);
      XorLaws(x, y, byte);
      XorZero(Xor(x, byte), Xor(y, byte));
      XorZero(x, y);
      SuffixKeepsDifference(r, s, front);
    }
  }

  /** 256^n for the window sizes that fit in the register. */
  predicate BelowBytes(w: Word, n: nat) {
    if n == 0 then w == 0
    else if n == 1 then w < 0x100
    else if n == 2 then w < 0x10000
    else if n == 3 then w < 0x1000000
    else true
  }

  lemma Behind(d: Word, next: Word, e: Word, n: nat)
    requires 0 < n <= 4 && BelowBytes(next, n - 1) && e < 0x100 && Xor(d, e) == Up(next)
    ensures BelowBytes(d, n)
    ensures d == 0 ==> e == 0 && (n <= 4 ==> next == 0)
  {
    if n == 1 {} else if n == 2 {} else if n == 3 {} else {}
  }

  lemma BelowIsSmall(w: Word, n: nat)
    requires n <= 3 && BelowBytes(w, n)
    ensures w < 0x1000000
  {
  }

  /**
   If two registers become equal after at most four bytes each, they differed only in as many low
   bytes, and equal registers must have received equal bytes.
   */
  lemma {:induction false} WindowIsReversible(r: Word, s: Word, a: seq<Byte>, b: seq<Byte>)
    requires |a| == |b| <= 4 && Register(r, a) == Register(s, b)
    ensures BelowBytes(Xor(r, s), |a|)
    ensures r == s ==> a == b
    decreases |a|
  {
    hide Shifts, Xor, Wide, Up;
    XorZero(r, s);
    if |a| > 0 {
      hide BelowBytes;
      assert a == [a[0]] + a[1..] && b == [b[0]] + b[1..];
      RegisterCons(r, a[0], a[1..]);
      RegisterCons(s, b[0], b[1..]);
      var x, y := Step(r, a[0]), Step(s, b[0]);
      WindowIsReversible(x, y, a[1..], b[1..]);
      var e := Difference(a[0], b[0]);
      ShiftsAreLinear(Xor(r, Wide(a[0])), Xor(s, Wide(b[0])), 8);
      FourXors(r, Wide(a[0]), s, Wide(b[0]));
      DifferenceIsByte(a[0], b[0]);
      BelowIsSmall(Xor(x, y), |a| - 1);
      ByteShift(Xor(x, y));
      ShiftsAreInjective(Xor(Xor(r, s), e), Up(Xor(x, y)), 8);
      Behind(Xor(r, s), Xor(x, y), e, |a|);
      XorZero(x, y);
    }
  }

  /** Two strings of equal length that differ only inside a window of four bytes have different checksums. */
  lemma DetectsBurst(a: seq<Byte>, b: seq<Byte>, from: nat, to: nat)
    requires |a| == |b| && from <= to <= |a| && to - from <= 4
    requires a[..from] == b[..from] && a[to..] == b[to..] && a != b
    ensures Checksum(a) != Checksum(b)
  {
    hide Register, Shifts, Xor;
    assert a == (a[..from] + a[from..to]) + a[to..] && b == (b[..from] + b[from..to]) + b[to..];
    RegisterConcat(INITIAL, a[..from] + a[from..to], a[to..]);
    RegisterConcat(INITIAL, b[..from] + b[from..to], b[to..]);
    RegisterConcat(INITIAL, a[..from], a[from..to]);
    RegisterConcat(INITIAL, b[..from], b[from..to]);
    var r, x, y := Register(INITIAL, a[..from]), Register(INITIAL, a), Register(INITIAL, b);
    XorLaws(x, y, 0xffffffff);
    XorZero(x, y);
    XorZero(Xor(x, 0xffffffff), Xor(y, 0xffffffff));
    if Checksum(a) == Checksum(b) {
      SuffixKeepsDifference(Register(r, a[from..to]), Register(r, b[from..to]), a[to..]);
      WindowIsReversible(r, r, a[from..to], b[from..to]);
    }
  }

  // The published check value of this CRC: the checksum of the ASCII string "123456789"

  lemma RegisterSnoc(bytes: seq<Byte>, byte: Byte)
    ensures Register(INITIAL, []) == INITIAL
    ensures Register(INITIAL, bytes + [byte]) == Step(Register(INITIAL, bytes), byte)
  {
    assert (bytes + [byte])[..|bytes|] == bytes;
  }

  lemma FirstSteps()
    ensures Step(0xffffffff, 0x31) == 0x7c231048
    ensures Step(0x7c231048, 0x32) == 0xb0acbb32
    ensures Step(0xb0acbb32, 0x33) == 0x77b79c2d
  {
  }

  lemma MiddleSteps()
    ensures Step(0x77b79c2d, 0x34) == 0x641c1f5c
    ensures Step(0x641c1f5c, 0x35) == 0x340ac5e3
    ensures Step(0x340ac5e3, 0x36) == 0xf68d2c9e
  {
  }

  lemma LastSteps()
    ensures Step(0xf68d2c9e, 0x37) == 0xaffc9660
    ensures Step(0xaffc9660, 0x38) == 0x651f2550
    ensures Step(0x651f2550, 0x39) == 0x340bc6d9
  {
  }

  lemma CheckValue()
    ensures Checksum([0x31, 0x32, 0x33, 0x34, 0x35, 0x36, 0x37, 0x38, 0x39]) == 0xcbf43926
  {
    FirstSteps();
    MiddleSteps();
    LastSteps();
    hide Step, Register;
    var s0: seq<Byte> := [];
    var s1 := s0 + [0x31]; RegisterSnoc(s0, 0x31);
    var s2 := s1 + [0x32]; RegisterSnoc(s1, 0x32);
    var s3 := s2 + [0x33]; RegisterSnoc(s2, 0x33);
    var s4 := s3 + [0x34]; RegisterSnoc(s3, 0x34);
    var s5 := s4 + [0x35]; RegisterSnoc(s4, 0x35);
    var s6 := s5 + [0x36]; RegisterSnoc(s5, 0x36);
    var s7 := s6 + [0x37]; RegisterSnoc(s6, 0x37);
    var s8 := s7 + [0x38]; RegisterSnoc(s7, 0x38);
    var s9 := s8 + [0x39]; RegisterSnoc(s8, 0x39);
    assert s9 == [0x31, 0x32, 0x33, 0x34, 0x35, 0x36, 0x37, 0x38, 0x39];
    XorCheck();
  }

  lemma XorCheck()
    ensures Xor(0x340bc6d9, 0xffffffff) == 0xcbf43926
  {
  }
}
