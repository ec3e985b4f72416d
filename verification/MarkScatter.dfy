/** Where the bits of the mark go: a multiplicative scatter over the first quarter of the pixels. */
module MarkScatter {
  import opened Residues

  const MULTIPLIER: nat := 0x9E3779B9
  const OFFSET: nat := 0x6C62272E
  const MARK_LENGTH: nat := 104

  predicate FrameSize(width: nat, height: nat) {
    4 <= width * height && width * height * 4 < 0x1_0000_0000
  }

  function Zone(width: nat, height: nat): (z: nat)
    requires FrameSize(width, height)
    ensures z > 0 && 4 * z <= width * height
  {
    width * height / 4
  }

  function Position(i: nat, width: nat, height: nat): (p: nat)
    requires FrameSize(width, height)
    ensures p < Zone(width, height)
  {
    (i * MULTIPLIER + OFFSET) % Zone(width, height)
  }

  /** The colour byte that carries bit `i`: blue for even bits, red for odd ones. */
  function Target(i: nat, width: nat, height: nat): (t: nat)
    requires FrameSize(width, height)
    ensures t / 4 == Position(i, width, height) && t < width * height && t % 4 == 2 * (i % 2)
  {
    Position(i, width, height) * 4 + (if i % 2 == 0 then 0 else 2)
  }

  /** No byte carries two bits of the mark. */
  ghost predicate Scattered(width: nat, height: nat)
    requires FrameSize(width, height)
  {
    forall i, j :: 0 <= i < j < MARK_LENGTH ==> Target(i, width, height) != Target(j, width, height)
  }

  /** How many bits are placed before the scatter comes back to the same pixel. */
  function Cycle(width: nat, height: nat): (m: nat)
    requires FrameSize(width, height)
    ensures m > 0
  {
    Spread(Zone(width, height), MULTIPLIER)
  }

  lemma PositionsMeet(i: nat, j: nat, width: nat, height: nat)
    requires FrameSize(width, height)
    ensures Position(i, width, height) == Position(j, width, height) <==> Divides(Cycle(width, height), j - i)
  {
    hide Divides, Spread, Zone;
    TermsMeet(Zone(width, height), MULTIPLIER, OFFSET, j, i);
  }

  lemma TargetsMeet(i: nat, j: nat, width: nat, height: nat)
    requires FrameSize(width, height)
    ensures Position(i, width, height) == Position(j, width, height) <==> Divides(Cycle(width, height), j - i)
    ensures Target(i, width, height) == Target(j, width, height) <==>
      Divides(Cycle(width, height), j - i) && (j - i) % 2 == 0
  {
    hide Position, Divides, Cycle, FrameSize;
    PositionsMeet(i, j, width, height);
    SameSlot(Position(i, width, height), Position(j, width, height), i, j);
  }

  lemma SameSlot(p: nat, q: nat, i: nat, j: nat)
    ensures p * 4 + (if i % 2 == 0 then 0 else 2) == q * 4 + (if j % 2 == 0 then 0 else 2)
      <==> p == q && (j - i) % 2 == 0
  {
  }

  /** Pixels are all different exactly when the cycle is at least as long as the mark. */
  lemma PixelsDistinctExactly(width: nat, height: nat)
    requires FrameSize(width, height)
    ensures (forall i, j :: 0 <= i < j < MARK_LENGTH ==> Position(i, width, height) != Position(j, width, height))
      <==> Cycle(width, height) >= MARK_LENGTH
  {
    hide Position, Cycle, Divides;
    var m := Cycle(width, height);
    if m >= MARK_LENGTH {
      forall i, j | 0 <= i < j < MARK_LENGTH ensures Position(i, width, height) != Position(j, width, height) {
        TargetsMeet(i, j, width, height);
        NotBetween(m, j - i);
      }
    } else {
      TargetsMeet(0, m, width, height);
      ItsMultiple(m, 1);
    }
  }

  lemma NotBetween(m: int, d: int)
    requires 0 < d < m
    ensures !Divides(m, d)
  {
    if Divides(m, d) { SmallMultiple(m, d); }
  }

  lemma ItsMultiple(m: int, k: int)
    ensures Divides(m, m * k)
  {
  }

  lemma FromTwice(m: int, k: int)
    requires m > 0
    ensures k >= 2 ==> m * k >= 2 * m
    ensures k <= 0 ==> m * k <= 0
    ensures k == 1 ==> m * k == m
  {
    FarFromZero(m, k - 2);
    FarFromZero(m, k);
    assert m * (k - 2) == m * k - 2 * m;
  }

  /** A positive even multiple of an odd number is at least twice that number. */
  lemma EvenMultiple(m: int, d: int)
    requires m > 0 && m % 2 == 1 && 0 < d < 2 * m && d % 2 == 0
    ensures !Divides(m, d)
  {
    if Divides(m, d) {
      var k: int :| d == m * k;
      FromTwice(m, k);
    }
  }

  /** The exact frames on which the mark does not overwrite itself: neighbours on a pixel may use both colours. */
  lemma ScatteredExactly(width: nat, height: nat)
    requires FrameSize(width, height)
    ensures var m := Cycle(width, height);
      Scattered(width, height) <==> m >= (if m % 2 == 0 then MARK_LENGTH else MARK_LENGTH / 2)
  {
    hide Target, Cycle, Divides;
    var m := Cycle(width, height);
    if m % 2 == 0 && m < MARK_LENGTH {
      TargetsMeet(0, m, width, height);
      ItsMultiple(m, 1);
    } else if m % 2 == 1 && m < MARK_LENGTH / 2 {
      TargetsMeet(0, 2 * m, width, height);
      ItsMultiple(m, 2);
    } else {
      forall i, j | 0 <= i < j < MARK_LENGTH ensures Target(i, width, height) != Target(j, width, height) {
        TargetsMeet(i, j, width, height);
        if (j - i) % 2 == 0 {
          if m % 2 == 0 { NotBetween(m, j - i); } else { EvenMultiple(m, j - i); }
        }
      }
    }
  }

  /** On a full-HD frame the cycle is 172800 bits. */
  lemma FullHd()
    ensures FrameSize(1920, 1080) && Cycle(1920, 1080) == 172800 && Scattered(1920, 1080)
  {
    assert Gcd(518400, MULTIPLIER) == 3 by { GcdFullHd(); }
    ScatteredExactly(1920, 1080);
  }

  lemma GcdFullHd()
    ensures Gcd(518400, 0x9E3779B9) == 3
  {
    assert Gcd(285, 276) == 3 by { assert Gcd(9, 6) == 3; }
    assert Gcd(8175, 7329) == 3 by { assert Gcd(846, 561) == Gcd(285, 276); }
    assert Gcd(39183, 23679) == 3 by { assert Gcd(15504, 8175) == Gcd(8175, 7329); }
    assert Gcd(227769, 62862) == Gcd(39183, 23679);
    assert Gcd(0x9E3779B9, 518400) == Gcd(227769, 62862) by { assert 0x9E3779B9 % 518400 == 227769; }
  }

  /** Where the first bits of the mark go on such a frame: blue, then red. */
  lemma FullHdTargets()
    ensures FrameSize(1920, 1080)
    ensures Target(0, 1920, 1080) == 1372344 && Target(1, 1920, 1080) == 209822 && Target(2, 1920, 1080) == 1120896
  {
    assert 1920 * 1080 / 4 == 518400;
    assert 0x6C62272E % 518400 == 343086;
    assert (0x9E3779B9 + 0x6C62272E) % 518400 == 52455;
    assert (2 * 0x9E3779B9 + 0x6C62272E) % 518400 == 280224;
  }
}
