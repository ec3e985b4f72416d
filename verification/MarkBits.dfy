/** The bits of the mark: bit i of a payload is bit i % 8 of byte i / 8. */
module MarkBits {
  import opened Crc

  function HasBit(b: bv8, k: nat): bool
    requires k < 8
  {
    b & Bit(k) != 0
  }

  function Has(p: seq<bv8>, i: nat): bool
    requires i < 8 * |p|
  {
    HasBit(p[i / 8], i % 8)
  }

  /** The byte with bit `k` set as well when `lit`. */
  function Lit(b: bv8, k: nat, lit: bool): bv8
    requires k < 8
  {
    b | (if lit then Bit(k) else 0)
  }

  lemma LitSame(b: bv8, k: nat)
    requires k < 8
    ensures HasBit(Lit(b, k, true), k) && Lit(b, k, false) == b
  {
    match k
    case 0 => case 1 => case 2 => case 3 => case 4 => case 5 => case 6 => case 7 =>
  }

  lemma BitsApart(j: nat, k: nat)
    requires j < 8 && k < 8 && j != k
    ensures Bit(j) & Bit(k) == 0
  {
    match j
    case 0 => case 1 => case 2 => case 3 => case 4 => case 5 => case 6 => case 7 =>
  }

  lemma OrApart(b: bv8, x: bv8, y: bv8)
    requires x & y == 0
    ensures (b | x) & y == b & y
  {
  }

  lemma PlusApart(b: bv8, x: bv8, y: bv8)
    requires x & y == 0
    ensures Plus(b, x) & y == b & y
  {
  }

  lemma LitOther(b: bv8, k: nat, lit: bool, j: nat)
    requires k < 8 && j < 8 && j != k
    ensures HasBit(Lit(b, k, lit), j) == HasBit(b, j)
  {
    BitsApart(k, j);
    OrApart(b, Bit(k), Bit(j));
    LitSame(b, k);
    hide Bit;
  }

  lemma PlusBitSame(b: bv8, k: nat)
    requires k < 8
    ensures HasBit(Plus(b, Bit(k)), k) == !HasBit(b, k)
  {
    PlusOver(b, Bit(k));
    OneBit(b, k);
    hide Bit, Plus;
  }

  lemma PlusOver(b: bv8, x: bv8)
    ensures Plus(b, x) & x == Plus(b & x, x)
  {
  }

  lemma OneBit(b: bv8, k: nat)
    requires k < 8
    ensures b & Bit(k) == 0 || b & Bit(k) == Bit(k)
    ensures Plus(0, Bit(k)) == Bit(k) && Plus(Bit(k), Bit(k)) == 0 && Bit(k) != 0
  {
    match k
    case 0 => case 1 => case 2 => case 3 => case 4 => case 5 => case 6 => case 7 =>
  }

  lemma PlusBitOther(b: bv8, k: nat, j: nat)
    requires k < 8 && j < 8 && j != k
    ensures HasBit(Plus(b, Bit(k)), j) == HasBit(b, j)
  {
    BitsApart(k, j);
    PlusApart(b, Bit(k), Bit(j));
    hide Bit, Plus;
  }

  /** Flipping bit `i` negates that bit and no other. */
  lemma FlipHas(p: seq<bv8>, i: nat, j: nat)
    requires i < 8 * |p| && j < 8 * |p|
    ensures Has(Flip(p, i), j) == (Has(p, j) != (i == j))
  {
    hide HasBit, Bit, Plus;
    if i == j {
      PlusBitSame(p[i / 8], i % 8);
    } else if i / 8 == j / 8 {
      PlusBitOther(p[i / 8], i % 8, j % 8);
    }
  }

  lemma ByteByBits(a: bv8, b: bv8)
    requires HasBit(a, 0) == HasBit(b, 0) && HasBit(a, 1) == HasBit(b, 1)
    requires HasBit(a, 2) == HasBit(b, 2) && HasBit(a, 3) == HasBit(b, 3)
    requires HasBit(a, 4) == HasBit(b, 4) && HasBit(a, 5) == HasBit(b, 5)
    requires HasBit(a, 6) == HasBit(b, 6) && HasBit(a, 7) == HasBit(b, 7)
    ensures a == b
  {
  }

  // ── Bytes and numbers ─────────────────────────────────────────────────────

  /** The number without its low `k` binary digits. */
  function Half(x: nat, k: nat): nat {
    if k == 0 then x else Half(x, k - 1) / 2
  }

  predicate DigitSet(x: nat, k: nat) {
    Half(x, k) % 2 == 1
  }

  /** The byte with the low `k` binary digits of a number. */
  function WithDigits(x: nat, k: nat): bv8
    requires k <= 8
  {
    if k == 0 then 0 else Lit(WithDigits(x, k - 1), k - 1, DigitSet(x, k - 1))
  }

  /** The number that the bits of a byte denote, from bit `k` on. */
  function ValueFrom(b: bv8, k: nat): nat
    requires k <= 8
    decreases 8 - k
  {
    if k == 8 then 0 else (if HasBit(b, k) then 1 else 0) + 2 * ValueFrom(b, k + 1)
  }

  function ToByte(x: nat): bv8
    requires x < 0x100
  {
    WithDigits(x, 8)
  }

  function ByteValue(b: bv8): nat {
    ValueFrom(b, 0)
  }

  lemma NoBits(j: nat)
    requires j < 8
    ensures !HasBit(0, j)
  {
  }

  lemma OneMoreDigit(b: bv8, k: nat, lit: bool, j: nat)
    requires k < 8 && j < 8 && !HasBit(b, k)
    ensures HasBit(Lit(b, k, lit), j) == if j == k then lit else HasBit(b, j)
  {
    hide HasBit, Lit;
    LitSame(b, k);
    if j != k { LitOther(b, k, lit, j); }
  }

  lemma {:induction false} DigitsHas(x: nat, k: nat, j: nat)
    requires k <= 8 && j < 8
    ensures HasBit(WithDigits(x, k), j) == (j < k && DigitSet(x, j))
  {
    hide HasBit, Lit, DigitSet;
    if k == 0 {
      NoBits(j);
    } else {
      DigitsHas(x, k - 1, j);
      DigitsHas(x, k - 1, k - 1);
      OneMoreDigit(WithDigits(x, k - 1), k - 1, DigitSet(x, k - 1), j);
    }
  }

  lemma HalfSmall(x: nat)
    requires x < 0x100
    ensures Half(x, 8) == 0
  {
    assert Half(x, 2) < 64 by { assert Half(x, 1) < 128; }
    assert Half(x, 4) < 16 by { assert Half(x, 3) < 32; }
    assert Half(x, 6) < 4 by { assert Half(x, 5) < 8; }
    assert Half(x, 7) < 2;
  }

  lemma {:induction false} ValueOfDigits(x: nat, b: bv8, k: nat)
    requires x < 0x100 && k <= 8 && forall j :: 0 <= j < 8 ==> HasBit(b, j) == DigitSet(x, j)
    ensures ValueFrom(b, k) == Half(x, k)
    decreases 8 - k
  {
    hide HasBit;
    if k == 8 {
      HalfSmall(x);
    } else {
      ValueOfDigits(x, b, k + 1);
      assert Half(x, k + 1) == Half(x, k) / 2;
    }
  }

  /** A number below 256 is the value of its byte. */
  lemma ByteNumber(x: nat)
    requires x < 0x100
    ensures ByteValue(ToByte(x)) == x
  {
    hide HasBit, DigitSet, WithDigits, ValueFrom;
    forall j | 0 <= j < 8 ensures HasBit(ToByte(x), j) == DigitSet(x, j) {
      DigitsHas(x, 8, j);
    }
    ValueOfDigits(x, ToByte(x), 0);
  }

  lemma {:induction false} HalvesOfValue(b: bv8, k: nat)
    requires k <= 8
    ensures Half(ByteValue(b), k) == ValueFrom(b, k)
  {
    hide HasBit;
    if k > 0 { HalvesOfValue(b, k - 1); }
  }

  lemma ValueSmall(b: bv8)
    ensures ByteValue(b) < 0x100
  {
    hide HasBit;
    assert ValueFrom(b, 7) < 2;
    assert ValueFrom(b, 5) < 8 by { assert ValueFrom(b, 6) < 4; }
    assert ValueFrom(b, 3) < 32 by { assert ValueFrom(b, 4) < 16; }
    assert ValueFrom(b, 1) < 128 by { assert ValueFrom(b, 2) < 64; }
  }

  /** A byte is that of its value. */
  lemma ByteBits(b: bv8)
    ensures ByteValue(b) < 0x100 && ToByte(ByteValue(b)) == b
  {
    hide HasBit, WithDigits, ValueFrom, Half;
    ValueSmall(b);
    var c := ToByte(ByteValue(b));
    forall j | 0 <= j < 8 ensures HasBit(c, j) == HasBit(b, j) {
      DigitsHas(ByteValue(b), 8, j);
      HalvesOfValue(b, j);
      LowBit(b, j);
    }
    ByteByBits(c, b);
  }

  lemma LowBit(b: bv8, k: nat)
    requires k < 8
    ensures ValueFrom(b, k) % 2 == (if HasBit(b, k) then 1 else 0)
  {
    hide HasBit;
    var lit, rest := HasBit(b, k), ValueFrom(b, k + 1);
    LowDigit(if lit then 1 else 0, rest);
    assert ValueFrom(b, k) == (if lit then 1 else 0) + 2 * rest;
    hide ValueFrom;
  }

  lemma LowDigit(d: nat, rest: nat)
    requires d < 2
    ensures (d + 2 * rest) % 2 == d
  {
  }

  ghost predicate SameBits(a: seq<bv8>, b: seq<bv8>) {
    |a| == |b| && forall i :: 0 <= i < 8 * |a| ==> Has(a, i) == Has(b, i)
  }

  /** Bytes are the same exactly when their bits are. */
  lemma BytesByBits(a: seq<bv8>, b: seq<bv8>)
    requires SameBits(a, b)
    ensures a == b
  {
    hide HasBit;
    forall k | 0 <= k < |a| ensures a[k] == b[k] {
      assert Has(a, 8 * k) == Has(b, 8 * k) && Has(a, 8 * k + 1) == Has(b, 8 * k + 1);
      assert Has(a, 8 * k + 2) == Has(b, 8 * k + 2) && Has(a, 8 * k + 3) == Has(b, 8 * k + 3);
      assert Has(a, 8 * k + 4) == Has(b, 8 * k + 4) && Has(a, 8 * k + 5) == Has(b, 8 * k + 5);
      assert Has(a, 8 * k + 6) == Has(b, 8 * k + 6) && Has(a, 8 * k + 7) == Has(b, 8 * k + 7);
      ByteByBits(a[k], b[k]);
    }
  }

  /** The bits below `n` in which two payloads differ, last first. */
  function Differing(a: seq<bv8>, b: seq<bv8>, n: nat): (r: seq<nat>)
    requires |a| == |b| && n <= 8 * |a|
    ensures forall i :: i in r <==> 0 <= i < n && Has(a, i) != Has(b, i)
    ensures forall x, y :: 0 <= x < y < |r| ==> r[x] != r[y]
  {
    hide Has;
    if n == 0 then [] else
    var rest := Differing(a, b, n - 1);
    if Has(a, n - 1) != Has(b, n - 1) then
      assert forall x :: 0 <= x < |rest| ==> rest[x] in rest;
      [n - 1] + rest
    else rest
  }

  /** Flipping a list of different bits negates those and no others. */
  lemma {:induction false} FlipAllHas(p: seq<bv8>, flips: seq<nat>, j: nat)
    requires DistinctFlips(flips, 8 * |p|) && j < 8 * |p|
    ensures Has(FlipAll(p, flips), j) == (Has(p, j) != (j in flips))
  {
    hide Has, Flip;
    if flips != [] {
      assert flips[0] in flips;
      assert forall f :: f in flips[1..] ==> f in flips;
      FlipAllHas(p, flips[1..], j);
      FlipHas(FlipAll(p, flips[1..]), flips[0], j);
    }
  }

  /** Any payload is another one with the differing bits flipped. */
  lemma FlipDiffering(a: seq<bv8>, b: seq<bv8>)
    requires |a| == |b|
    ensures DistinctFlips(Differing(a, b, 8 * |a|), 8 * |a|)
    ensures FlipAll(a, Differing(a, b, 8 * |a|)) == b
  {
    hide Has, FlipAll;
    var flips := Differing(a, b, 8 * |a|);
    assert DistinctFlips(flips, 8 * |a|);
    forall j | 0 <= j < 8 * |a| ensures Has(FlipAll(a, flips), j) == Has(b, j) {
      FlipAllHas(a, flips, j);
    }
    BytesByBits(FlipAll(a, flips), b);
  }
}
