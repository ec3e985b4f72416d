/** What the mark guarantees: exactly when it is read back, what it spares, and what damage it notices. */
module MarkRoundTrip {
  import opened Options
  import opened Sets
  import opened Crc
  import opened MarkBits
  import opened MarkScatter
  import opened Watermark

  // ── One byte ──────────────────────────────────────────────────────────────

  function MaskTable(s: nat): bv8
    requires 1 <= s <= 4
  {
    match s case 1 => 0x01 case 2 => 0x03 case 3 => 0x07 case 4 => 0x0F
  }

  lemma MaskIs(s: nat)
    requires 1 <= s <= 4
    ensures LsbMask(s) == MaskTable(s)
  {
    match s
    case 1 => assert ((1 as bv8) << 1) - 1 == 0x01;
    case 2 => assert ((1 as bv8) << 2) - 1 == 0x03;
    case 3 => assert ((1 as bv8) << 3) - 1 == 0x07;
    case 4 => assert ((1 as bv8) << 4) - 1 == 0x0F;
  }

  /** A reader no stronger than the writer sees the bit; a stronger one sees what was there above it. */
  lemma BitReadBack(v: bv8, lit: bool, s: nat, e: nat)
    requires 1 <= s <= 4 && 1 <= e <= 4
    ensures e <= s ==> (WriteBit(v, lit, LsbMask(s)) & LsbMask(e) != 0) == lit
    ensures e > s ==> WriteBit(0xFF, lit, LsbMask(s)) & LsbMask(e) != 0
  {
    hide LsbMask;
    MaskIs(s);
    MaskIs(e);
    MaskedRead(v, lit, s, e);
  }

  lemma MaskedRead(v: bv8, lit: bool, s: nat, e: nat)
    requires 1 <= s <= 4 && 1 <= e <= 4
    ensures e <= s ==> (WriteBit(v, lit, MaskTable(s)) & MaskTable(e) != 0) == lit
    ensures e > s ==> WriteBit(0xFF, lit, MaskTable(s)) & MaskTable(e) != 0
  {
    match s case 1 => case 2 => case 3 => case 4 =>
  }

  /** The part of a byte that the mark must not touch. */
  function High(v: bv8, mask: bv8): bv8 {
    v & !mask
  }

  /** Writing keeps the high part, and writing the same bit again changes nothing. */
  lemma WriteBitTwice(v: bv8, lit: bool, mask: bv8)
    ensures High(WriteBit(v, lit, mask), mask) == High(v, mask)
    ensures WriteBit(WriteBit(v, lit, mask), lit, mask) == WriteBit(v, lit, mask)
  {
  }

  // ── The frame ─────────────────────────────────────────────────────────────

  /** The last of the first `n` bits written to byte `t`, if any. */
  function LastWriter(t: nat, width: nat, height: nat, n: nat): (r: Option<nat>)
    requires FrameSize(width, height)
    ensures r.Some? ==> r.value < n && Target(r.value, width, height) == t
    ensures r.Some? ==> forall i :: r.value < i < n ==> Target(i, width, height) != t
    ensures r.None? ==> forall i :: 0 <= i < n ==> Target(i, width, height) != t
  {
    hide Target;
    if n == 0 then None
    else if Target(n - 1, width, height) == t then Some(n - 1)
    else LastWriter(t, width, height, n - 1)
  }

  /** A byte is untouched, or holds the last bit written to it and its own high bits. */
  lemma {:induction false} WrittenAt(px: seq<bv8>, p: seq<bv8>, width: nat, height: nat, mask: bv8, n: nat, k: nat)
    requires FrameSize(width, height) && |px| >= width * height * 4 && n <= 8 * |p| && k < |px|
    ensures var v := Written(px, p, width, height, mask, n)[k];
      High(v, mask) == High(px[k], mask) &&
      match LastWriter(k, width, height, n)
      case None => v == px[k]
      case Some(i) => v == WriteBit(v, Has(p, i), mask)
  {
    hide Target, WriteBit, Has, High, FrameSize;
    if n > 0 {
      WrittenAt(px, p, width, height, mask, n - 1, k);
      var u := Written(px, p, width, height, mask, n - 1)[k];
      if Target(n - 1, width, height) == k {
        WriteBitTwice(u, Has(p, n - 1), mask);
        assert LastWriter(k, width, height, n) == Some(n - 1);
      } else {
        assert LastWriter(k, width, height, n) == LastWriter(k, width, height, n - 1);
      }
    }
  }

  /** Green and alpha bytes, and all beyond the first quarter, never change; others only under the mask. */
  lemma MarkSpares(px: seq<bv8>, d: Data, width: nat, height: nat, s: nat, k: nat)
    requires FrameSize(width, height) && |px| >= width * height * 4
    requires |d.session| == 8 && 1 <= s <= 4 && k < |px|
    ensures High(Marked(px, d, width, height, s)[k], LsbMask(s)) == High(px[k], LsbMask(s))
    ensures k % 4 == 1 || k % 4 == 3 || k >= width * height ==> Marked(px, d, width, height, s)[k] == px[k]
  {
    hide Target, WriteBit, Has, High, Payload, LsbMask, FrameSize;
    WrittenAt(px, Payload(d), width, height, LsbMask(s), MARK_LENGTH, k);
  }

  lemma AllReadable(px: seq<bv8>, width: nat, height: nat, n: nat)
    requires FrameSize(width, height) && |px| >= width * height * 4
    ensures Readable(px, width, height, n)
  {
    hide Position;
    forall i | 0 <= i < n ensures Position(i, width, height) * 4 + 3 < |px| {
      assert Position(i, width, height) < Zone(width, height);
    }
  }

  /** A bit read from a marked frame is the last bit written to its byte. */
  lemma MarkedReads(px: seq<bv8>, d: Data, width: nat, height: nat, s: nat, e: nat, i: nat)
    requires FrameSize(width, height) && |px| >= width * height * 4
    requires |d.session| == 8 && 1 <= e <= s <= 4 && i < MARK_LENGTH
    ensures LastWriter(Target(i, width, height), width, height, MARK_LENGTH).Some?
    ensures Reads(Marked(px, d, width, height, s), width, height, LsbMask(e), i)
      == Has(Payload(d), LastWriter(Target(i, width, height), width, height, MARK_LENGTH).value)
  {
    hide Target, WriteBit, Has, High, Payload, LsbMask;
    AllReadable(px, width, height, MARK_LENGTH);
    var t := Target(i, width, height);
    var w := LastWriter(t, width, height, MARK_LENGTH);
    WrittenAt(px, Payload(d), width, height, LsbMask(s), MARK_LENGTH, t);
    hide FrameSize;
    var v := Marked(px, d, width, height, s)[t];
    BitReadBack(v, Has(Payload(d), w.value), s, e);
  }

  lemma ZeroHas(i: nat)
    requires i < 104
    ensures !Has(Zeros(13), i)
  {
  }

  lemma LitHas(p: seq<bv8>, i: nat, lit: bool, j: nat)
    requires i < 8 * |p| && j < 8 * |p| && !Has(p, i)
    ensures Has(p[i / 8 := Lit(p[i / 8], i % 8, lit)], j) == if i == j then lit else Has(p, j)
  {
    hide HasBit, Lit;
    LitSame(p[i / 8], i % 8);
    if i != j && i / 8 == j / 8 {
      LitOther(p[i / 8], i % 8, lit, j % 8);
    }
  }

  /** The payload gathered has exactly the bits read. */
  lemma {:induction false} GatheredHas(px: seq<bv8>, width: nat, height: nat, mask: bv8, n: nat, i: nat)
    requires FrameSize(width, height) && n <= MARK_LENGTH && Readable(px, width, height, n) && i < MARK_LENGTH
    ensures Has(Gathered(px, width, height, mask, n), i) == (i < n && Reads(px, width, height, mask, i))
  {
    hide Has, Lit, Target, Position, FrameSize, Zeros, Reads;
    if n == 0 {
      ZeroHas(i);
    } else {
      GatheredHas(px, width, height, mask, n - 1, i);
      GatheredHas(px, width, height, mask, n - 1, n - 1);
      LitHas(Gathered(px, width, height, mask, n - 1), n - 1, Reads(px, width, height, mask, n - 1), i);
    }
  }

  // ── Round trip ────────────────────────────────────────────────────────────

  /** The low byte of the seconds first. */
  lemma LeLayout(x: Word)
    ensures ByteValue(LeBytes(x)[0]) == x % 0x100 && ByteValue(LeBytes(x)[1]) == x / 0x100 % 0x100
    ensures ByteValue(LeBytes(x)[2]) == x / 0x1_0000 % 0x100 && ByteValue(LeBytes(x)[3]) == x / 0x100_0000
  {
    hide ToByte, ByteValue;
    ByteNumber(x % 0x100);
    ByteNumber(x / 0x100 % 0x100);
    ByteNumber(x / 0x1_0000 % 0x100);
    ByteNumber(x / 0x100_0000);
  }

  /** Session first, then the seconds, then the CRC of both. */
  lemma PayloadLayout(d: Data)
    requires |d.session| == 8
    ensures Payload(d)[..8] == d.session && Payload(d)[8..12] == LeBytes(d.seconds)
    ensures Payload(d)[12] == Register(d.session + LeBytes(d.seconds))
  {
    hide Register, LeBytes;
    var data := d.session + LeBytes(d.seconds);
    assert Payload(d)[..8] == data[..8] == d.session;
  }

  lemma FourDigits(x: Word)
    ensures x == x % 0x100 + 0x100 * (x / 0x100 % 0x100) + 0x1_0000 * (x / 0x1_0000 % 0x100) + 0x100_0000 * (x / 0x100_0000)
  {
    assert x / 0x1_0000 == x / 0x1_0000 % 0x100 + 0x100 * (x / 0x100_0000);
  }

  lemma LeRoundTrip(x: Word)
    ensures FromLe(LeBytes(x)) == x
  {
    LeLayout(x);
    FourDigits(x);
    hide LeBytes, ByteValue;
  }

  lemma DigitsUnique(a: nat, b: nat, c: nat, d: nat)
    requires a < 0x100 && b < 0x100 && c < 0x100 && d < 0x100
    ensures var x := a + 0x100 * b + 0x1_0000 * c + 0x100_0000 * d;
      x < 0x1_0000_0000 &&
      x % 0x100 == a && x / 0x100 % 0x100 == b && x / 0x1_0000 % 0x100 == c && x / 0x100_0000 == d
  {
  }

  lemma FromLeParts(b: seq<bv8>)
    requires |b| == 4
    ensures var x := FromLe(b);
      && x % 0x100 == ByteValue(b[0]) && x / 0x100 % 0x100 == ByteValue(b[1])
      && x / 0x1_0000 % 0x100 == ByteValue(b[2]) && x / 0x100_0000 == ByteValue(b[3])
  {
    hide ToByte, ByteValue;
    ByteBits(b[0]);
    ByteBits(b[1]);
    ByteBits(b[2]);
    ByteBits(b[3]);
    DigitsUnique(ByteValue(b[0]), ByteValue(b[1]), ByteValue(b[2]), ByteValue(b[3]));
  }

  lemma LeRoundTripBack(b: seq<bv8>)
    requires |b| == 4
    ensures LeBytes(FromLe(b)) == b
  {
    hide ToByte, ByteValue, FromLe;
    FromLeParts(b);
    ByteBits(b[0]);
    ByteBits(b[1]);
    ByteBits(b[2]);
    ByteBits(b[3]);
  }

  lemma OpenPayload(d: Data)
    requires |d.session| == 8
    ensures Codeword(Payload(d)) && Opened(Payload(d)) == Some(d)
  {
    hide Register, FromLe, LeBytes;
    var p := Payload(d);
    assert p[..12] == d.session + LeBytes(d.seconds);
    assert p[..8] == d.session;
    assert p[8..12] == LeBytes(d.seconds);
    LeRoundTrip(d.seconds);
  }

  lemma OpenedIffCodeword(p: seq<bv8>)
    requires |p| == 13
    ensures Opened(p).Some? <==> Codeword(p)
  {
    hide Register;
  }

  lemma LastIsItself(i: nat, width: nat, height: nat)
    requires FrameSize(width, height) && Scattered(width, height) && i < MARK_LENGTH
    ensures LastWriter(Target(i, width, height), width, height, MARK_LENGTH) == Some(i)
  {
    hide Target, LastWriter;
    var w := LastWriter(Target(i, width, height), width, height, MARK_LENGTH);
    assert w.Some?;
    ScatteredPair(i, w.value, width, height);
  }

  lemma ScatteredPair(i: nat, j: nat, width: nat, height: nat)
    requires FrameSize(width, height) && Scattered(width, height) && i < MARK_LENGTH && j < MARK_LENGTH
    ensures Target(i, width, height) == Target(j, width, height) ==> i == j
  {
    hide Target;
  }

  /** With distinct targets the gathered payload is the one written. */
  lemma PayloadReadBack(px: seq<bv8>, d: Data, width: nat, height: nat, s: nat, e: nat)
    requires FrameSize(width, height) && |px| >= width * height * 4 && Scattered(width, height)
    requires |d.session| == 8 && 1 <= e <= s <= 4
    ensures Readable(Marked(px, d, width, height, s), width, height, MARK_LENGTH)
    ensures Gathered(Marked(px, d, width, height, s), width, height, LsbMask(e), MARK_LENGTH) == Payload(d)
  {
    hide Target, LastWriter, Has, Payload, LsbMask, Reads, Gathered, Marked, Readable, Scattered, Position;
    var m := Marked(px, d, width, height, s);
    AllReadable(m, width, height, MARK_LENGTH);
    var p := Gathered(m, width, height, LsbMask(e), MARK_LENGTH);
    forall i | 0 <= i < MARK_LENGTH ensures Has(p, i) == Has(Payload(d), i) {
      GatheredHas(m, width, height, LsbMask(e), MARK_LENGTH, i);
      MarkedReads(px, d, width, height, s, e, i);
      LastIsItself(i, width, height);
    }
    BytesByBits(p, Payload(d));
  }

  /** Whatever the frame and the data, a reader of strength `e` recovers what a writer of strength `s` wrote. */
  ghost predicate Recovers(width: nat, height: nat, s: nat, e: nat)
    requires FrameSize(width, height) && 1 <= s <= 4 && 1 <= e <= 4
  {
    forall px, d: Data :: |px| >= width * height * 4 && |d.session| == 8 ==>
      Extracted(Marked(px, d, width, height, s), width, height, e) == Some(d)
  }

  lemma RoundTrip(px: seq<bv8>, d: Data, width: nat, height: nat, s: nat, e: nat)
    requires FrameSize(width, height) && |px| >= width * height * 4 && Scattered(width, height)
    requires |d.session| == 8 && 1 <= e <= s <= 4
    ensures Extracted(Marked(px, d, width, height, s), width, height, e) == Some(d)
  {
    hide Payload, LsbMask, Gathered, Marked, Readable, Scattered, Opened;
    PayloadReadBack(px, d, width, height, s, e);
    OpenPayload(d);
  }

  /** A frame that ends within a pixel of the mark yields nothing. */
  lemma ShortFrameRefused(px: seq<bv8>, width: nat, height: nat, e: nat, i: nat)
    requires FrameSize(width, height) && 1 <= e <= 4 && i < MARK_LENGTH
    requires |px| < 4 * (Position(i, width, height) + 1)
    ensures Extracted(px, width, height, e) == None
  {
    hide Position, Gathered, Opened;
  }

  // ── When it is not ────────────────────────────────────────────────────────

  /** If any two bits share a byte, the first bit shares its own with a later one. */
  lemma CollisionAtFirst(width: nat, height: nat) returns (last: nat)
    requires FrameSize(width, height) && !Scattered(width, height)
    ensures 0 < last < MARK_LENGTH && last % 2 == 0
    ensures LastWriter(Target(0, width, height), width, height, MARK_LENGTH) == Some(last)
  {
    var i, j :| 0 <= i < j < MARK_LENGTH && Target(i, width, height) == Target(j, width, height);
    TargetsMeet(i, j, width, height);
    TargetsMeet(0, j - i, width, height);
    hide Target, LastWriter;
    var w := LastWriter(Target(0, width, height), width, height, MARK_LENGTH);
    assert w.Some? && w.value >= j - i;
    TargetsMeet(0, w.value, width, height);
    last := w.value;
  }

  /** A last data byte whose CRC sets an even CRC bit but which leaves the first bit of the mark clear. */
  function CrcWitness(last: nat): bv8 {
    if last < 100 then 0x01 else if last < 102 then 0x04 else 0x10
  }

  lemma CrcWitnessLit(last: nat)
    requires 96 <= last < MARK_LENGTH && last % 2 == 0
    ensures HasBit(Shift8(CrcWitness(last)), last - 96)
  {
    assert Shift8(0x01) == 0x07 && Shift8(0x04) == 0x1C && Shift8(0x10) == 0x70;
    assert HasBit(0x07, 0) && HasBit(0x07, 2) && HasBit(0x1C, 4) && HasBit(0x70, 6);
    hide Shift8, HasBit;
  }

  lemma RegisterOfLast(v: bv8)
    ensures Register(Zeros(11) + [v]) == Shift8(v)
  {
    hide Shift8, Plus;
    assert (Zeros(11) + [v])[..11] == Zeros(11);
    RegisterZeros(11);
    PlusZero(v);
  }

  function DataOf(b: seq<bv8>): (d: Data)
    requires |b| == 12
    ensures |d.session| == 8
  {
    Data(b[..8], FromLe(b[8..]))
  }

  lemma PayloadOf(b: seq<bv8>)
    requires |b| == 12
    ensures Payload(DataOf(b)) == b + [Register(b)]
  {
    hide Register, FromLe, LeBytes;
    LeRoundTripBack(b[8..]);
    assert b[..8] + b[8..] == b;
  }

  lemma ZerosDark(n: nat, i: nat)
    requires i < 8 * n
    ensures !Has(Zeros(n), i)
  {
  }

  /** Some data differ in their first bit and any later even bit of the mark. */
  lemma TellingData(last: nat) returns (d: Data)
    requires 0 < last < MARK_LENGTH && last % 2 == 0
    ensures |d.session| == 8 && !Has(Payload(d), 0) && Has(Payload(d), last)
  {
    hide Register, FromLe, HasBit, Flip, Zeros, CrcWitness, Shift8;
    var b := if last < 96 then Flip(Zeros(12), last) else Zeros(11) + [CrcWitness(last)];
    d := DataOf(b);
    PayloadOf(b);
    if last < 96 {
      ZerosDark(12, 0);
      ZerosDark(12, last);
      FlipHas(Zeros(12), last, 0);
      FlipHas(Zeros(12), last, last);
    } else {
      ZerosDark(11, 0);
      RegisterOfLast(CrcWitness(last));
      CrcWitnessLit(last);
    }
  }

  lemma SessionShowsFirstBit(p: seq<bv8>, d: Data)
    requires |p| == 13 && |d.session| == 8 && Opened(p) == Some(d)
    ensures Has(p, 0) == Has(Payload(d), 0)
  {
    hide Register, FromLe, LeBytes;
    assert p[0] == d.session[0] == Payload(d)[0];
  }

  /** Frames whose targets collide lose some data, whatever the strengths. */
  lemma CollisionLoses(width: nat, height: nat, s: nat, e: nat)
    requires FrameSize(width, height) && 1 <= e <= s <= 4 && !Scattered(width, height)
    ensures !Recovers(width, height, s, e)
  {
    hide Target, LastWriter, Has, Payload, LsbMask, Reads, Gathered, Marked, Readable, Scattered, Position, Opened;
    var last := CollisionAtFirst(width, height);
    var d := TellingData(last);
    var px := Zeros(width * height * 4);
    var m := Marked(px, d, width, height, s);
    AllReadable(m, width, height, MARK_LENGTH);
    var p := Gathered(m, width, height, LsbMask(e), MARK_LENGTH);
    GatheredHas(m, width, height, LsbMask(e), MARK_LENGTH, 0);
    MarkedReads(px, d, width, height, s, e, 0);
    assert Has(p, 0) && !Has(Payload(d), 0);
    if Opened(p) == Some(d) { SessionShowsFirstBit(p, d); }
    assert Extracted(m, width, height, e) != Some(d);
  }

  function White(n: nat): (r: seq<bv8>)
    ensures |r| == n && forall i :: 0 <= i < n ==> r[i] == 0xFF
  {
    seq(n, i => 0xFF)
  }

  lemma WhiteReads(d: Data, width: nat, height: nat, s: nat, e: nat)
    requires FrameSize(width, height) && |d.session| == 8 && 1 <= s < e <= 4
    ensures var m := Marked(White(width * height * 4), d, width, height, s);
      Readable(m, width, height, MARK_LENGTH) && Reads(m, width, height, LsbMask(e), 0)
  {
    hide Target, WriteBit, Has, High, Payload, LsbMask, Position, LastWriter;
    var px := White(width * height * 4);
    var m := Marked(px, d, width, height, s);
    AllReadable(m, width, height, MARK_LENGTH);
    var t := Target(0, width, height);
    WrittenAt(px, Payload(d), width, height, LsbMask(s), MARK_LENGTH, t);
    hide FrameSize;
    HighStays(m[t], s, e);
  }

  lemma HighStays(v: bv8, s: nat, e: nat)
    requires 1 <= s < e <= 4 && High(v, LsbMask(s)) == High(0xFF, LsbMask(s))
    ensures v & LsbMask(e) != 0
  {
    hide LsbMask;
    MaskIs(s);
    MaskIs(e);
    HighStaysTable(v, s, e);
  }

  lemma HighStaysTable(v: bv8, s: nat, e: nat)
    requires 1 <= s < e <= 4 && High(v, MaskTable(s)) == High(0xFF, MaskTable(s))
    ensures v & MaskTable(e) != 0
  {
    match s case 1 => case 2 => case 3 =>
  }

  /** A reader stronger than the writer takes bits of the picture for the mark. */
  lemma StrongerLoses(width: nat, height: nat, s: nat, e: nat)
    requires FrameSize(width, height) && 1 <= s < e <= 4
    ensures !Recovers(width, height, s, e)
  {
    hide Target, Has, Payload, LsbMask, Reads, Gathered, Marked, Readable, Position, Opened;
    var d := TellingData(2);
    var px := White(width * height * 4);
    var m := Marked(px, d, width, height, s);
    WhiteReads(d, width, height, s, e);
    var p := Gathered(m, width, height, LsbMask(e), MARK_LENGTH);
    GatheredHas(m, width, height, LsbMask(e), MARK_LENGTH, 0);
    if Opened(p) == Some(d) { SessionShowsFirstBit(p, d); }
    assert Extracted(m, width, height, e) != Some(d);
  }

  /** The mark survives every frame and all data exactly when no byte is shared and the reader is no stronger. */
  lemma RecoversExactly(width: nat, height: nat, s: nat, e: nat)
    requires FrameSize(width, height) && 1 <= s <= 4 && 1 <= e <= 4
    ensures var m := Cycle(width, height);
      Recovers(width, height, s, e) <==> e <= s && m >= (if m % 2 == 0 then MARK_LENGTH else MARK_LENGTH / 2)
  {
    hide Extracted, Marked, Scattered, Cycle;
    ScatteredExactly(width, height);
    if e > s {
      StrongerLoses(width, height, s, e);
    } else if !Scattered(width, height) {
      CollisionLoses(width, height, s, e);
    } else {
      forall px, d: Data | |px| >= width * height * 4 && |d.session| == 8
        ensures Extracted(Marked(px, d, width, height, s), width, height, e) == Some(d)
      {
        RoundTrip(px, d, width, height, s, e);
      }
    }
  }

  // ── Damage ────────────────────────────────────────────────────────────────

  /** Bits are no more than the bytes that carry them. */
  lemma {:induction false} BitsInBytes(bits: seq<nat>, bytes: set<nat>, width: nat, height: nat)
    requires FrameSize(width, height) && Scattered(width, height)
    requires DistinctFlips(bits, MARK_LENGTH)
    requires forall i :: i in bits ==> Target(i, width, height) in bytes
    ensures |bits| <= |bytes|
  {
    hide Target, Scattered, FrameSize;
    if bits != [] {
      var t := Target(bits[0], width, height);
      assert bits[0] in bits;
      forall i | i in bits[1..] ensures i in bits && Target(i, width, height) in bytes - {t} {
        var x :| 1 <= x < |bits| && bits[x] == i;
        assert bits[x] in bits;
        ScatteredPair(bits[0], i, width, height);
      }
      BitsInBytes(bits[1..], bytes - {t}, width, height);
    }
  }

  /** Up to three bytes of a marked frame, changed in any way, never yield other data: the mark is right or refused. */
  lemma DamageDetected(px: seq<bv8>, d: Data, width: nat, height: nat, s: nat, e: nat, seen: seq<bv8>, damage: set<nat>)
    requires FrameSize(width, height) && |px| >= width * height * 4 && Scattered(width, height)
    requires |d.session| == 8 && 1 <= e <= s <= 4
    requires |seen| == |px| && |damage| <= 3
    requires forall k :: 0 <= k < |px| && k !in damage ==> seen[k] == Marked(px, d, width, height, s)[k]
    ensures Extracted(seen, width, height, e) in {None, Some(d)}
    ensures (forall i :: 0 <= i < MARK_LENGTH ==> Target(i, width, height) !in damage) ==>
      Extracted(seen, width, height, e) == Some(d)
  {
    hide Target, Has, Payload, LsbMask, Reads, Gathered, Marked, Readable, Scattered, Position, Opened, FlipAll, Differing;
    AllReadable(seen, width, height, MARK_LENGTH);
    PayloadReadBack(px, d, width, height, s, e);
    OpenPayload(d);
    var p, q := Payload(d), Gathered(seen, width, height, LsbMask(e), MARK_LENGTH);
    var flips := Differing(p, q, MARK_LENGTH);
    forall i | i in flips ensures Target(i, width, height) in damage {
      DamagedBit(px, d, width, height, s, e, seen, damage, i);
    }
    FlipDiffering(p, q);
    BitsInBytes(flips, damage, width, height);
    if flips == [] {
      NoFlips(p);
    } else {
      assert flips[0] in flips && Target(flips[0], width, height) in damage;
      SmallCorruptionDetected(p, flips);
      OpenedIffCodeword(q);
    }
    hide Codeword;
  }

  lemma NoFlips(p: seq<bv8>)
    ensures FlipAll(p, []) == p
  {
  }

  lemma DamagedBit(px: seq<bv8>, d: Data, width: nat, height: nat, s: nat, e: nat, seen: seq<bv8>, damage: set<nat>, i: nat)
    requires FrameSize(width, height) && |px| >= width * height * 4 && Scattered(width, height)
    requires |d.session| == 8 && 1 <= e <= s <= 4 && i < MARK_LENGTH
    requires |seen| == |px| && Readable(seen, width, height, MARK_LENGTH)
    requires forall k :: 0 <= k < |px| && k !in damage ==> seen[k] == Marked(px, d, width, height, s)[k]
    ensures Has(Gathered(seen, width, height, LsbMask(e), MARK_LENGTH), i) == Has(Payload(d), i)
      || Target(i, width, height) in damage
  {
    hide Target, Has, Payload, LsbMask, Gathered, Marked, Scattered, Position;
    var m := Marked(px, d, width, height, s);
    PayloadReadBack(px, d, width, height, s, e);
    GatheredHas(seen, width, height, LsbMask(e), MARK_LENGTH, i);
    GatheredHas(m, width, height, LsbMask(e), MARK_LENGTH, i);
    assert Target(i, width, height) < |seen| by { TargetInside(i, width, height); }
  }

  lemma TargetInside(i: nat, width: nat, height: nat)
    requires FrameSize(width, height)
    ensures Target(i, width, height) < width * height * 4
  {
    hide Target;
  }

  // ── The count returned ────────────────────────────────────────────────────

  function Different(a: seq<bv8>, b: seq<bv8>): (r: set<nat>)
    requires |a| == |b|
  {
    set k: nat | k < |a| && a[k] != b[k]
  }

  lemma DifferentAfter(px: seq<bv8>, before: seq<bv8>, t: nat, v: bv8)
    requires |px| == |before| && t < |px|
    ensures |Different(px, before[t := v])| <= |Different(px, before)| + (if v != before[t] then 1 else 0)
    ensures before[t] == px[t] ==>
      |Different(px, before[t := v])| == |Different(px, before)| + (if v != before[t] then 1 else 0)
  {
    var was, now := Different(px, before), Different(px, before[t := v]);
    assert before[t := v][t] == v;
    assert now - {t} == was - {t};
    if v == before[t] {
      assert before[t := v] == before;
    } else if before[t] == px[t] {
      assert now == was + {t};
    } else {
      assert now <= was;
      Smaller(now, was);
    }
  }

  /** The count is at least the number of bytes changed, and exactly that when no byte is shared. */
  lemma {:induction false} ChangesCount(px: seq<bv8>, p: seq<bv8>, width: nat, height: nat, mask: bv8, n: nat)
    requires FrameSize(width, height) && |px| >= width * height * 4 && n <= 8 * |p| && n <= MARK_LENGTH
    ensures |Different(px, Written(px, p, width, height, mask, n))| <= Changes(px, p, width, height, mask, n)
    ensures Scattered(width, height) ==>
      |Different(px, Written(px, p, width, height, mask, n))| == Changes(px, p, width, height, mask, n)
  {
    hide Target, WriteBit, Has, High, Different, Scattered, FrameSize, Written, Changes, LastWriter;
    if n == 0 {
      NothingWritten(px, p, width, height, mask);
    } else {
      ChangesCount(px, p, width, height, mask, n - 1);
      var before := Written(px, p, width, height, mask, n - 1);
      var t := Target(n - 1, width, height);
      OneWrite(px, p, width, height, mask, n);
      DifferentAfter(px, before, t, WriteBit(before[t], Has(p, n - 1), mask));
      WrittenAt(px, p, width, height, mask, n - 1, t);
      if Scattered(width, height) { FirstVisit(n - 1, width, height); }
    }
  }

  lemma NothingWritten(px: seq<bv8>, p: seq<bv8>, width: nat, height: nat, mask: bv8)
    requires FrameSize(width, height) && |px| >= width * height * 4
    ensures Written(px, p, width, height, mask, 0) == px && Changes(px, p, width, height, mask, 0) == 0
    ensures Different(px, px) == {}
  {
    NoDifference(px);
  }

  lemma OneWrite(px: seq<bv8>, p: seq<bv8>, width: nat, height: nat, mask: bv8, n: nat)
    requires FrameSize(width, height) && |px| >= width * height * 4 && 0 < n <= 8 * |p|
    ensures var before := Written(px, p, width, height, mask, n - 1);
      var t := Target(n - 1, width, height);
      var v := WriteBit(before[t], Has(p, n - 1), mask);
      Written(px, p, width, height, mask, n) == before[t := v] &&
      Changes(px, p, width, height, mask, n) == Changes(px, p, width, height, mask, n - 1) + if v != before[t] then 1 else 0
  {
    hide Target, WriteBit, Has;
  }

  lemma NoDifference(px: seq<bv8>)
    ensures Different(px, px) == {}
  {
  }

  lemma FirstVisit(i: nat, width: nat, height: nat)
    requires FrameSize(width, height) && Scattered(width, height) && i < MARK_LENGTH
    ensures LastWriter(Target(i, width, height), width, height, i) == None
  {
    hide Target, LastWriter;
    var w := LastWriter(Target(i, width, height), width, height, i);
    if w.Some? { ScatteredPair(i, w.value, width, height); }
  }
}
