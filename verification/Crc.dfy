/**
 The CRC-8 of the forensic mark (polynomial 0x07). It is linear over exclusive or and keeps the
 parity of the data, so it catches every odd number of flipped bits; and since its shift register
 has period 127, it catches every pair of flipped bits up to 15 bytes, and not beyond.
 */
module Crc {
  /** One shift of the register. */
  function Shift(c: bv8): bv8 {
    if c & 0x80 != 0 then (c << 1) ^ 0x07 else c << 1
  }

  function Shift8(c: bv8): bv8 {
    Shift(Shift(Shift(Shift(Shift(Shift(Shift(Shift(c))))))))
  }

  /** Addition of polynomials over GF(2), eight coefficients at a time. */
  function Plus(a: bv8, b: bv8): bv8 {
    a ^ b
  }

  /** The register after the bytes of `data`. */
  function Register(data: seq<bv8>): bv8 {
    if data == [] then 0 else Shift8(Plus(Register(data[..|data| - 1]), data[|data| - 1]))
  }

  method Crc8(data: seq<bv8>) returns (crc: bv8)
    ensures crc == Register(data)
  {
    hide Shift8;
    crc := 0;
    var i := 0;
    while i < |data|
      invariant 0 <= i <= |data| && crc == Register(data[..i])
    {
      crc := crc ^ data[i];
      ghost var fed := crc;
      var k := 0;
      while k < 8
        invariant 0 <= k <= 8 && crc == Shifted(fed, k)
      {
        crc := if crc & 0x80 != 0 then (crc << 1) ^ 0x07 else crc << 1;
        k := k + 1;
      }
      ShiftedEight(fed);
      assert data[..i + 1][..i] == data[..i];
      i := i + 1;
    }
    assert data[..i] == data;
  }

  /** The register after `n` more shifts. */
  function Shifted(c: bv8, n: nat): bv8 {
    if n == 0 then c else Shift(Shifted(c, n - 1))
  }

  lemma ShiftedEight(c: bv8)
    ensures Shifted(c, 8) == Shift8(c)
  {
    hide Shift;
    assert Shifted(c, 0) == c;
    assert Shifted(c, 2) == Shift(Shifted(c, 1));
    assert Shifted(c, 4) == Shift(Shift(Shifted(c, 2)));
    assert Shifted(c, 6) == Shift(Shift(Shifted(c, 4)));
  }

  // ── Linearity and parity ──────────────────────────────────────────────────

  lemma TopBitPlus(a: bv8, b: bv8)
    ensures ((a ^ b) & 0x80 != 0) == ((a & 0x80 != 0) != (b & 0x80 != 0))
  {
  }

  lemma ShlPlus(a: bv8, b: bv8)
    ensures (a ^ b) << 1 == (a << 1) ^ (b << 1)
  {
  }

  lemma PlusComm(a: bv8, b: bv8)
    ensures Plus(a, b) == Plus(b, a)
  {
  }

  lemma PlusAssoc(a: bv8, b: bv8, c: bv8)
    ensures Plus(Plus(a, b), c) == Plus(a, Plus(b, c))
  {
  }

  lemma PlusZero(a: bv8)
    ensures Plus(a, 0) == a && Plus(0, a) == a
  {
  }

  lemma PlusIsZero(a: bv8, b: bv8)
    ensures Plus(a, b) == 0 <==> a == b
  {
  }

  lemma PlusSwap(a: bv8, x: bv8, b: bv8, y: bv8)
    ensures Plus(Plus(a, b), Plus(x, y)) == Plus(Plus(a, x), Plus(b, y))
  {
    hide Plus;
    PlusAssoc(a, b, Plus(x, y));
    PlusAssoc(b, x, y);
    PlusComm(b, x);
    PlusAssoc(x, b, y);
    PlusAssoc(a, x, Plus(b, y));
  }

  /** Adding two things to zero gives zero exactly when they are equal. */
  lemma PlusTwice(c: bv8, a: bv8, b: bv8)
    requires c == 0
    ensures Plus(Plus(c, a), b) == 0 <==> a == b
  {
    hide Plus;
    PlusZero(a);
    PlusIsZero(a, b);
  }

  /** The bits fed back by one shift. */
  function Feedback(c: bv8): bv8 {
    if c & 0x80 != 0 then 0x07 else 0
  }

  function Doubled(c: bv8): bv8 {
    c << 1
  }

  lemma FeedbackPlus(a: bv8, b: bv8)
    ensures Feedback(Plus(a, b)) == Plus(Feedback(a), Feedback(b))
  {
    TopBitPlus(a, b);
  }

  lemma ShiftIs(c: bv8)
    ensures Shift(c) == Plus(Doubled(c), Feedback(c))
  {
    PlusZero(Doubled(c));
  }

  lemma ShiftLinear(a: bv8, b: bv8)
    ensures Shift(Plus(a, b)) == Plus(Shift(a), Shift(b))
  {
    ShlPlus(a, b);
    assert Doubled(Plus(a, b)) == Plus(Doubled(a), Doubled(b));
    hide Shift, Feedback, Plus, Doubled;
    ShiftIs(a);
    ShiftIs(b);
    ShiftIs(Plus(a, b));
    FeedbackPlus(a, b);
    PlusSwap(Doubled(a), Feedback(a), Doubled(b), Feedback(b));
  }

  lemma Shift8Linear(a: bv8, b: bv8)
    ensures Shift8(Plus(a, b)) == Plus(Shift8(a), Shift8(b))
  {
    hide Shift, Plus;
    ShiftLinear(a, b);
    var a1, b1 := Shift(a), Shift(b);
    ShiftLinear(a1, b1);
    var a2, b2 := Shift(a1), Shift(b1);
    ShiftLinear(a2, b2);
    var a3, b3 := Shift(a2), Shift(b2);
    ShiftLinear(a3, b3);
    var a4, b4 := Shift(a3), Shift(b3);
    ShiftLinear(a4, b4);
    var a5, b5 := Shift(a4), Shift(b4);
    ShiftLinear(a5, b5);
    var a6, b6 := Shift(a5), Shift(b5);
    ShiftLinear(a6, b6);
    ShiftLinear(Shift(a6), Shift(b6));
  }

  function Xor(a: seq<bv8>, b: seq<bv8>): (r: seq<bv8>)
    requires |a| == |b|
    ensures |r| == |a| && forall i :: 0 <= i < |a| ==> r[i] == Plus(a[i], b[i])
  {
    seq(|a|, i requires 0 <= i < |a| => Plus(a[i], b[i]))
  }

  /** The CRC of a sum is the sum of the CRCs. */
  lemma {:induction false} RegisterLinear(a: seq<bv8>, b: seq<bv8>)
    requires |a| == |b|
    ensures Register(Xor(a, b)) == Plus(Register(a), Register(b))
  {
    hide Shift8, Plus;
    if a != [] {
      var n := |a| - 1;
      RegisterLinear(a[..n], b[..n]);
      assert Xor(a, b)[..n] == Xor(a[..n], b[..n]);
      Shift8Linear(Plus(Register(a[..n]), a[n]), Plus(Register(b[..n]), b[n]));
      PlusSwap(Register(a[..n]), a[n], Register(b[..n]), b[n]);
    } else {
      PlusZero(0);
    }
  }

  /** Whether an odd number of bits are set. */
  function Odd(b: bv8): bool {
    Fold1(Fold2(Fold4(b))) & 1 == 1
  }

  function Fold4(b: bv8): bv8 { Plus(b, Shr4(b)) }
  function Shr4(b: bv8): bv8 { b >> 4 }
  function Fold2(b: bv8): bv8 { Plus(b, Shr2(b)) }
  function Shr2(b: bv8): bv8 { b >> 2 }
  function Fold1(b: bv8): bv8 { Plus(b, Shr1(b)) }
  function Shr1(b: bv8): bv8 { b >> 1 }

  lemma Fold4Plus(a: bv8, b: bv8)
    ensures Fold4(Plus(a, b)) == Plus(Fold4(a), Fold4(b))
  {
    assert Shr4(Plus(a, b)) == Plus(Shr4(a), Shr4(b));
    hide Plus, Shr4;
    PlusSwap(a, Shr4(a), b, Shr4(b));
  }

  lemma Fold2Plus(a: bv8, b: bv8)
    ensures Fold2(Plus(a, b)) == Plus(Fold2(a), Fold2(b))
  {
    assert Shr2(Plus(a, b)) == Plus(Shr2(a), Shr2(b));
    hide Plus, Shr2;
    PlusSwap(a, Shr2(a), b, Shr2(b));
  }

  lemma Fold1Plus(a: bv8, b: bv8)
    ensures Fold1(Plus(a, b)) == Plus(Fold1(a), Fold1(b))
  {
    assert Shr1(Plus(a, b)) == Plus(Shr1(a), Shr1(b));
    hide Plus, Shr1;
    PlusSwap(a, Shr1(a), b, Shr1(b));
  }

  lemma LowBitPlus(a: bv8, b: bv8)
    ensures (Plus(a, b) & 1 == 1) == ((a & 1 == 1) != (b & 1 == 1))
  {
  }

  function OddBits(data: seq<bv8>): bool {
    if data == [] then false else OddBits(data[..|data| - 1]) != Odd(data[|data| - 1])
  }

  lemma ShiftParity(c: bv8)
    ensures Odd(Shift(c)) == Odd(c)
  {
  }

  lemma OddPlus(a: bv8, b: bv8)
    ensures Odd(Plus(a, b)) == (Odd(a) != Odd(b))
  {
    hide Fold4, Fold2, Fold1, Plus;
    Fold4Plus(a, b);
    Fold2Plus(Fold4(a), Fold4(b));
    Fold1Plus(Fold2(Fold4(a)), Fold2(Fold4(b)));
    LowBitPlus(Fold1(Fold2(Fold4(a))), Fold1(Fold2(Fold4(b))));
  }

  lemma ZeroIsEven()
    ensures !Odd(0)
  {
  }

  lemma Shift8Parity(c: bv8)
    ensures Odd(Shift8(c)) == Odd(c)
  {
    hide Shift, Odd;
    ShiftParity(c);
    ShiftParity(Shift(c));
    ShiftParity(Shift(Shift(c)));
    ShiftParity(Shift(Shift(Shift(c))));
    ShiftParity(Shift(Shift(Shift(Shift(c)))));
    ShiftParity(Shift(Shift(Shift(Shift(Shift(c))))));
    ShiftParity(Shift(Shift(Shift(Shift(Shift(Shift(c)))))));
    ShiftParity(Shift(Shift(Shift(Shift(Shift(Shift(Shift(c))))))));
  }

  /** The CRC has the parity of the data, of any length. */
  lemma {:induction false} RegisterParity(data: seq<bv8>)
    ensures Odd(Register(data)) == OddBits(data)
  {
    ZeroIsEven();
    hide Odd, Shift8, Plus;
    if data != [] {
      var n := |data| - 1;
      RegisterParity(data[..n]);
      OddPlus(Register(data[..n]), data[n]);
      Shift8Parity(Plus(Register(data[..n]), data[n]));
    }
  }

  // ── Codewords and flipped bits ────────────────────────────────────────────

  /** Data followed by its CRC. */
  predicate Codeword(p: seq<bv8>) {
    p != [] && p[|p| - 1] == Register(p[..|p| - 1])
  }

  lemma Shift8Zero(c: bv8)
    ensures Shift8(c) == 0 <==> c == 0
  {
  }

  lemma CodewordIffZero(p: seq<bv8>)
    requires p != []
    ensures Codeword(p) <==> Register(p) == 0
  {
    hide Shift8, Plus;
    var n := |p| - 1;
    Shift8Zero(Plus(Register(p[..n]), p[n]));
    PlusIsZero(Register(p[..n]), p[n]);
  }

  /** The byte with only bit `k` set. */
  function Bit(k: nat): bv8
    requires k < 8
  {
    match k
    case 0 => 0x01 case 1 => 0x02 case 2 => 0x04 case 3 => 0x08
    case 4 => 0x10 case 5 => 0x20 case 6 => 0x40 case 7 => 0x80
  }

  /** Bits are numbered as the mark numbers them: byte i / 8, bit i % 8. */
  function Flip(p: seq<bv8>, i: nat): (r: seq<bv8>)
    requires i < 8 * |p|
    ensures |r| == |p|
  {
    p[i / 8 := Plus(p[i / 8], Bit(i % 8))]
  }

  function FlipAll(p: seq<bv8>, flips: seq<nat>): (r: seq<bv8>)
    requires forall f :: f in flips ==> f < 8 * |p|
    ensures |r| == |p|
  {
    if flips == [] then p else
    assert flips[0] in flips && forall f :: f in flips[1..] ==> f in flips;
    Flip(FlipAll(p, flips[1..]), flips[0])
  }

  lemma BitOdd(k: nat)
    requires k < 8
    ensures Odd(Bit(k))
  {
    match k
    case 0 => case 1 => case 2 => case 3 => case 4 => case 5 => case 6 => case 7 =>
  }

  lemma {:induction false} FlipParity(p: seq<bv8>, i: nat)
    requires i < 8 * |p|
    ensures OddBits(Flip(p, i)) != OddBits(p)
  {
    hide Odd, Bit, Plus;
    var n := |p| - 1;
    if i / 8 == n {
      OddPlus(p[n], Bit(i % 8));
      BitOdd(i % 8);
      assert Flip(p, i)[..n] == p[..n];
    } else {
      FlipParity(p[..n], i);
      assert Flip(p, i)[..n] == Flip(p[..n], i);
    }
  }

  lemma {:induction false} FlipsParity(p: seq<bv8>, flips: seq<nat>)
    requires forall f :: f in flips ==> f < 8 * |p|
    ensures (OddBits(FlipAll(p, flips)) == OddBits(p)) == (|flips| % 2 == 0)
  {
    hide Flip, OddBits;
    if flips != [] {
      assert flips[0] in flips && forall f :: f in flips[1..] ==> f in flips;
      FlipsParity(p, flips[1..]);
      FlipParity(FlipAll(p, flips[1..]), flips[0]);
    }
  }

  /** Any odd number of flipped bits, in data or CRC, of any length, is detected. */
  lemma OddFlipsDetected(p: seq<bv8>, flips: seq<nat>)
    requires Codeword(p) && |flips| % 2 == 1
    requires forall f :: f in flips ==> f < 8 * |p|
    ensures !Codeword(FlipAll(p, flips))
  {
    CodewordIffZero(p);
    CodewordIffZero(FlipAll(p, flips));
    RegisterParity(p);
    RegisterParity(FlipAll(p, flips));
    FlipsParity(p, flips);
    hide OddBits, Register;
  }

  // ── Pairs of flipped bits ─────────────────────────────────────────────────

  /** The register that held 1, after `n` shifts: the effect of one flipped bit `n` shifts before the end. */
  function Power(n: nat): bv8 {
    Shifted(1, n)
  }

  lemma {:induction false} BitIsPower(k: nat)
    requires k < 8
    ensures Bit(k) == Power(k)
  {
    if k > 0 {
      BitIsPower(k - 1);
      match k
      case 1 => case 2 => case 3 => case 4 => case 5 => case 6 => case 7 =>
    }
  }

  lemma {:induction false} ShiftedAdd(c: bv8, m: nat, n: nat)
    ensures Shifted(Shifted(c, m), n) == Shifted(c, m + n)
  {
    if n > 0 { ShiftedAdd(c, m, n - 1); }
    hide Shift;
  }

  lemma PowerMore(n: nat)
    ensures Shift8(Power(n)) == Power(n + 8)
  {
    ShiftedEight(Power(n));
    ShiftedAdd(1, n, 8);
    hide Shift, Shift8;
  }

  function Zeros(n: nat): (r: seq<bv8>)
    ensures |r| == n
  {
    seq(n, i => 0)
  }

  lemma {:induction false} RegisterZeros(n: nat)
    ensures Register(Zeros(n)) == 0
  {
    hide Plus;
    PlusZero(0);
    if n > 0 {
      RegisterZeros(n - 1);
      assert Zeros(n)[..n - 1] == Zeros(n - 1);
    }
  }

  /** How far bit `i` of an `n`-byte codeword is from the end of the shifting. */
  function Distance(n: nat, i: nat): nat
    requires i < 8 * n
  {
    8 * (n - i / 8) + i % 8
  }

  lemma {:induction false} UnitRegister(n: nat, i: nat)
    requires i < 8 * n
    ensures Register(Flip(Zeros(n), i)) == Power(Distance(n, i))
  {
    hide Shift8, Power, Bit, Plus;
    var e := Flip(Zeros(n), i);
    PlusZero(Bit(i % 8));
    if i / 8 == n - 1 {
      assert e[..n - 1] == Zeros(n - 1);
      RegisterZeros(n - 1);
      BitIsPower(i % 8);
      PowerMore(i % 8);
    } else {
      assert e[..n - 1] == Flip(Zeros(n - 1), i);
      UnitRegister(n - 1, i);
      PowerMore(Distance(n - 1, i));
      PlusZero(Register(e[..n - 1]));
    }
  }

  lemma FlipIsXor(p: seq<bv8>, i: nat)
    requires i < 8 * |p|
    ensures Xor(p, Flip(Zeros(|p|), i)) == Flip(p, i)
  {
    hide Bit, Plus;
    var e := Flip(Zeros(|p|), i);
    PlusZero(Bit(i % 8));
    forall k | 0 <= k < |p| ensures Xor(p, e)[k] == Flip(p, i)[k] {
      PlusZero(p[k]);
    }
  }

  /** A flipped bit adds a power of the register to the CRC. */
  lemma FlipRegister(p: seq<bv8>, i: nat)
    requires i < 8 * |p|
    ensures Register(Flip(p, i)) == Plus(Register(p), Power(Distance(|p|, i)))
  {
    hide Bit, Power, Register, Xor, Zeros, Flip, Plus;
    RegisterLinear(p, Flip(Zeros(|p|), i));
    UnitRegister(|p|, i);
    FlipIsXor(p, i);
  }

  /** None of the `n` shifts after `c` brings the register to 1. */
  predicate AvoidsOne(c: bv8, n: nat)
    decreases n
  {
    n == 0 || (Shift(c) != 1 && AvoidsOne(Shift(c), n - 1))
  }

  lemma {:induction false} AvoidsOneMeans(c: bv8, n: nat, d: nat)
    requires AvoidsOne(c, n) && 1 <= d <= n
    ensures Shifted(c, d) != 1
    decreases d
  {
    hide Shift;
    ShiftedAdd(c, 1, d - 1);
    assert Shifted(c, 1) == Shift(c) by { assert Shifted(c, 0) == c; }
    if d > 1 {
      AvoidsOneMeans(Shift(c), n - 1, d - 1);
    }
  }

  lemma {:induction false} AvoidsOneJoin(c: bv8, m: nat, n: nat)
    requires AvoidsOne(c, m) && AvoidsOne(Shifted(c, m), n)
    ensures AvoidsOne(c, m + n)
    decreases m
  {
    hide Shift;
    if m > 0 {
      ShiftedAdd(c, 1, m - 1);
      assert Shifted(c, 1) == Shift(c) by { assert Shifted(c, 0) == c; }
      AvoidsOneJoin(Shift(c), m - 1, n);
    }
  }

  /** Eight shifts in a row avoid 1. */
  predicate Clear8(c: bv8) {
    var c1 := Shift(c);
    var c2 := Shift(c1);
    var c3 := Shift(c2);
    var c4 := Shift(c3);
    c1 != 1 && c2 != 1 && c3 != 1 && c4 != 1 && Clear4(c4)
  }

  predicate Clear4(c: bv8) {
    var c1 := Shift(c);
    var c2 := Shift(c1);
    var c3 := Shift(c2);
    c1 != 1 && c2 != 1 && c3 != 1 && Shift(c3) != 1
  }

  lemma Clear4Means(c: bv8)
    requires Clear4(c)
    ensures AvoidsOne(c, 4)
  {
    hide Shift;
    assert AvoidsOne(Shift(Shift(c)), 2);
  }

  lemma Clear8Means(c: bv8)
    requires Clear8(c)
    ensures AvoidsOne(c, 8)
  {
    hide Shift;
    Clear4Means(Shift(Shift(Shift(Shift(c)))));
    assert AvoidsOne(Shift(Shift(c)), 6);
  }

  /** The register every eight shifts, from 1. */
  function Table(i: nat): bv8
    requires i < 16
  {
    match i
    case 0 => 0x01 case 1 => 0x07 case 2 => 0x15 case 3 => 0x6B
    case 4 => 0x16 case 5 => 0x62 case 6 => 0x29 case 7 => 0xDF
    case 8 => 0x13 case 9 => 0x79 case 10 => 0x68 case 11 => 0x1F
    case 12 => 0x5D case 13 => 0x94 case 14 => 0xE5 case 15 => 0xB5
  }

  lemma TableRow(i: nat)
    requires i < 15
    ensures Shift8(Table(i)) == Table(i + 1) && Clear8(Table(i))
  {
    if i < 5 { TableRowA(i); } else if i < 10 { TableRowB(i); } else { TableRowC(i); }
    hide Shift8, Table, Clear8;
  }

  lemma TableRowA(i: nat)
    requires i < 5
    ensures Shift8(Table(i)) == Table(i + 1) && Clear8(Table(i))
  {
    match i
    case 0 => assert Shift8(0x01) == 0x07 && Clear8(0x01);
    case 1 => assert Shift8(0x07) == 0x15 && Clear8(0x07);
    case 2 => assert Shift8(0x15) == 0x6B && Clear8(0x15);
    case 3 => assert Shift8(0x6B) == 0x16 && Clear8(0x6B);
    case 4 => assert Shift8(0x16) == 0x62 && Clear8(0x16);
  }

  lemma TableRowB(i: nat)
    requires 5 <= i < 10
    ensures Shift8(Table(i)) == Table(i + 1) && Clear8(Table(i))
  {
    match i
    case 5 => assert Shift8(0x62) == 0x29 && Clear8(0x62);
    case 6 => assert Shift8(0x29) == 0xDF && Clear8(0x29);
    case 7 => assert Shift8(0xDF) == 0x13 && Clear8(0xDF);
    case 8 => assert Shift8(0x13) == 0x79 && Clear8(0x13);
    case 9 => assert Shift8(0x79) == 0x68 && Clear8(0x79);
  }

  lemma TableRowC(i: nat)
    requires 10 <= i < 15
    ensures Shift8(Table(i)) == Table(i + 1) && Clear8(Table(i))
  {
    match i
    case 10 => assert Shift8(0x68) == 0x1F && Clear8(0x68);
    case 11 => assert Shift8(0x1F) == 0x5D && Clear8(0x1F);
    case 12 => assert Shift8(0x5D) == 0x94 && Clear8(0x5D);
    case 13 => assert Shift8(0x94) == 0xE5 && Clear8(0x94);
    case 14 => assert Shift8(0xE5) == 0xB5 && Clear8(0xE5);
  }

  lemma PowerTableNext(i: nat)
    requires i < 15 && Power(8 * i) == Table(i) && AvoidsOne(1, 8 * i)
    ensures Power(8 * (i + 1)) == Table(i + 1) && AvoidsOne(1, 8 * (i + 1))
  {
    hide Shift8, Shift, Clear8, Table, AvoidsOne, Shifted;
    TableRow(i);
    PowerMore(8 * i);
    Clear8Means(Table(i));
    AvoidsOneJoin(1, 8 * i, 8);
  }

  lemma {:induction false} PowerTable(i: nat)
    requires i < 16
    ensures Power(8 * i) == Table(i) && AvoidsOne(1, 8 * i)
  {
    hide Shift8, Shift, Clear8;
    if i > 0 {
      PowerTable(i - 1);
      PowerTableNext(i - 1);
    }
  }

  lemma LastShifts()
    ensures Shift(0xB5) == 0x6D && Shift(0x6D) == 0xDA && Shift(0xDA) == 0xB3 && Shift(0xB3) == 0x61
    ensures Shift(0x61) == 0xC2 && Shift(0xC2) == 0x83 && Shift(0x83) == 0x01
  {
  }

  lemma LastRow()
    ensures AvoidsOne(Table(15), 6) && Shifted(Table(15), 7) == 1
  {
    hide Shift;
    LastShifts();
    assert AvoidsOne(0x61, 2) && AvoidsOne(0xDA, 4);
    ShiftedRow();
  }

  lemma ShiftedRow()
    ensures Shifted(0xB5, 7) == 1
  {
    hide Shift;
    LastShifts();
    assert Shifted(0xB5, 2) == 0xDA;
    assert Shifted(0xB5, 4) == 0x61;
    assert Shifted(0xB5, 6) == 0x83;
  }

  /** The register comes back to 1 after 127 shifts, and not before. */
  lemma Period()
    ensures AvoidsOne(1, 126) && Power(127) == 1
  {
    hide Shift, Table;
    PowerTable(15);
    LastRow();
    AvoidsOneJoin(1, 120, 6);
    ShiftedAdd(1, 120, 7);
  }

  lemma ShiftInjective(c: bv8, d: bv8)
    requires Shift(c) == Shift(d)
    ensures c == d
  {
    ShiftLinear(c, d);
    PlusIsZero(Shift(c), Shift(d));
    PlusIsZero(c, d);
    ShiftZero(Plus(c, d));
    hide Shift, Plus;
  }

  lemma ShiftZero(c: bv8)
    requires Shift(c) == 0
    ensures c == 0
  {
  }

  lemma {:induction false} ShiftedInjective(c: bv8, d: bv8, n: nat)
    requires Shifted(c, n) == Shifted(d, n)
    ensures c == d
  {
    hide Shift;
    if n > 0 {
      ShiftInjective(Shifted(c, n - 1), Shifted(d, n - 1));
      ShiftedInjective(c, d, n - 1);
    }
  }

  lemma PowersDiffer(m: nat, n: nat)
    requires m < n <= m + 126
    ensures Power(m) != Power(n)
  {
    hide Shift;
    Period();
    AvoidsOneMeans(1, 126, n - m);
    ShiftedAdd(1, n - m, m);
    if Power(m) == Power(n) {
      ShiftedInjective(1, Shifted(1, n - m), m);
    }
  }

  lemma DistancesDiffer(n: nat, i: nat, j: nat)
    requires i < 8 * n && j < 8 * n && i != j
    ensures Distance(n, i) != Distance(n, j)
    ensures Distance(n, i) - Distance(n, j) < 8 * n
  {
  }

  /** Two flips cancel exactly when their effects on the register are the same. */
  lemma PairFlip(p: seq<bv8>, i: nat, j: nat)
    requires Codeword(p) && i < 8 * |p| && j < 8 * |p|
    ensures Codeword(Flip(Flip(p, i), j)) <==> Power(Distance(|p|, i)) == Power(Distance(|p|, j))
  {
    hide Register, Power, Plus, Flip;
    CodewordIffZero(p);
    CodewordIffZero(Flip(Flip(p, i), j));
    FlipRegister(p, i);
    FlipRegister(Flip(p, i), j);
    PlusTwice(Register(p), Power(Distance(|p|, i)), Power(Distance(|p|, j)));
    hide Codeword;
  }

  /** On codewords of up to 15 bytes, any two flipped bits are detected. */
  lemma PairDetected(p: seq<bv8>, i: nat, j: nat)
    requires Codeword(p) && |p| <= 15 && i < 8 * |p| && j < 8 * |p| && i != j
    ensures !Codeword(Flip(Flip(p, i), j))
  {
    hide Codeword, Power, Distance, Flip;
    PairFlip(p, i, j);
    var m, n := Distance(|p|, i), Distance(|p|, j);
    DistancesDiffer(|p|, i, j);
    DistancesDiffer(|p|, j, i);
    if m < n { PowersDiffer(m, n); } else { PowersDiffer(n, m); }
  }

  /** From 16 bytes on, every codeword has two bits, 127 shifts apart, whose flips go unnoticed. */
  lemma PairMissed(p: seq<bv8>)
    requires Codeword(p) && |p| >= 16
    ensures var n := |p|; Codeword(Flip(Flip(p, 8 * (n - 16) + 7), 8 * (n - 1)))
  {
    hide Codeword, Power, Flip;
    var n := |p|;
    PairFlip(p, 8 * (n - 16) + 7, 8 * (n - 1));
    assert Distance(n, 8 * (n - 16) + 7) == 135 && Distance(n, 8 * (n - 1)) == 8;
    PeriodAgain();
  }

  lemma PeriodAgain()
    ensures Power(135) == Power(8)
  {
    hide Shift;
    Period();
    ShiftedAdd(1, 127, 8);
  }

  ghost predicate DistinctFlips(flips: seq<nat>, bits: nat) {
    (forall f :: f in flips ==> f < bits) && forall a, b :: 0 <= a < b < |flips| ==> flips[a] != flips[b]
  }

  lemma TwoFlips(p: seq<bv8>, i: nat, j: nat)
    requires i < 8 * |p| && j < 8 * |p|
    ensures FlipAll(p, [j, i]) == Flip(Flip(p, i), j)
  {
    hide Flip;
    assert [j, i][1..] == [i] && [i][1..] == [];
    assert FlipAll(p, [i]) == Flip(p, i);
  }

  /** One, two or three flipped bits of a codeword of up to 15 bytes are always detected. */
  lemma SmallCorruptionDetected(p: seq<bv8>, flips: seq<nat>)
    requires Codeword(p) && |p| <= 15 && 1 <= |flips| <= 3 && DistinctFlips(flips, 8 * |p|)
    ensures !Codeword(FlipAll(p, flips))
  {
    hide Codeword, Flip;
    if |flips| == 2 {
      var j, i := flips[0], flips[1];
      assert i in flips && j in flips && flips == [j, i];
      TwoFlips(p, i, j);
      PairDetected(p, i, j);
    } else {
      OddFlipsDetected(p, flips);
    }
  }

  /** The last data byte and the CRC, with the four bits of the polynomial flipped. */
  lemma FourFlipsEffect(p: seq<bv8>)
    requires |p| >= 2
    ensures var k := |p| - 1; var n := 8 * k;
      Flip(Flip(Flip(Flip(p, n - 8), n), n + 1), n + 2) == Flip(p[..k], n - 8) + [Plus(p[k], 0x07)]
  {
    hide Plus;
    var k := |p| - 1;
    var n := 8 * k;
    assert Bit(0) == 1 && Bit(1) == 2 && Bit(2) == 4;
    PlusSeven(p[k]);
  }

  /** Four can go unnoticed: the polynomial itself, over the last data byte and the CRC. */
  lemma FourFlipsMissed(p: seq<bv8>)
    requires Codeword(p) && |p| >= 2
    ensures var n := 8 * (|p| - 1);
      Codeword(Flip(Flip(Flip(Flip(p, n - 8), n), n + 1), n + 2))
  {
    hide Register, Plus, Power, Flip;
    var k := |p| - 1;
    var n := 8 * k;
    FourFlipsEffect(p);
    var q := Flip(p[..k], n - 8);
    assert (q + [Plus(p[k], 0x07)])[..k] == q;
    FlipRegister(p[..k], n - 8);
    assert Distance(k, n - 8) == 8;
    SevenIsPower();
  }

  lemma SevenIsPower()
    ensures Power(8) == 0x07
  {
    hide Shift;
    PowerTable(1);
  }

  lemma PlusSeven(b: bv8)
    ensures Plus(Plus(Plus(b, 1), 2), 4) == Plus(b, 0x07)
  {
  }

  lemma Feed(data: seq<bv8>, b: bv8)
    ensures Register(data + [b]) == Shift8(Plus(Register(data), b))
  {
    hide Shift8, Plus;
    assert (data + [b])[..|data|] == data;
  }

  lemma CheckStepsA()
    ensures Shift8(Plus(0x00, 0x31)) == 0x97
    ensures Shift8(Plus(0x97, 0x32)) == 0x72
    ensures Shift8(Plus(0x72, 0x33)) == 0xC0
    ensures Shift8(Plus(0xC0, 0x34)) == 0xC2
    ensures Shift8(Plus(0xC2, 0x35)) == 0xCB
  {
  }

  lemma CheckStepsB()
    ensures Shift8(Plus(0xCB, 0x36)) == 0xFD
    ensures Shift8(Plus(0xFD, 0x37)) == 0x78
    ensures Shift8(Plus(0x78, 0x38)) == 0xC7
    ensures Shift8(Plus(0xC7, 0x39)) == 0xF4
  {
  }

  /** The check value of this CRC, over the digits 1 to 9. */
  lemma CheckValue()
    ensures Register([0x31, 0x32, 0x33, 0x34, 0x35, 0x36, 0x37, 0x38, 0x39]) == 0xF4
  {
    hide Shift8, Plus, Register;
    CheckStepsA();
    CheckStepsB();
    NothingFed();
    var d0: seq<bv8> := [];
    Feed(d0, 0x31);
    var d1 := d0 + [0x31];
    Feed(d1, 0x32);
    var d2 := d1 + [0x32];
    Feed(d2, 0x33);
    var d3 := d2 + [0x33];
    Feed(d3, 0x34);
    var d4 := d3 + [0x34];
    Feed(d4, 0x35);
    var d5 := d4 + [0x35];
    Feed(d5, 0x36);
    var d6 := d5 + [0x36];
    Feed(d6, 0x37);
    var d7 := d6 + [0x37];
    Feed(d7, 0x38);
    var d8 := d7 + [0x38];
    Feed(d8, 0x39);
    var d9 := d8 + [0x39];
    assert d9 == [0x31, 0x32, 0x33, 0x34, 0x35, 0x36, 0x37, 0x38, 0x39];
  }

  lemma NothingFed()
    ensures Register([]) == 0
  {
  }
}
