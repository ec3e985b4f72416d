/** Bytes, and numbers written in them from either end. */
module Bytes {
  type Byte = x: nat | x < 256

  function Power256(n: nat): (r: nat)
    ensures r > 0
  {
    if n == 0 then 1 else 256 * Power256(n - 1)
  }

  lemma Powers()
    ensures Power256(1) == 0x100 && Power256(2) == 0x1_0000 && Power256(4) == 0x1_0000_0000
    ensures Power256(8) == 0x1_0000_0000_0000_0000
  {
    assert Power256(3) == 0x100_0000;
    assert Power256(6) == 0x1_0000_0000_0000;
  }

  function BigEndian(x: nat, n: nat): (r: seq<Byte>)
    ensures |r| == n
  {
    if n == 0 then [] else BigEndian(x / 256, n - 1) + [x % 256]
  }

  function FromBig(s: seq<Byte>): nat {
    if s == [] then 0 else 256 * FromBig(s[..|s| - 1]) + s[|s| - 1]
  }

  function LittleEndian(x: nat, n: nat): (r: seq<Byte>)
    ensures |r| == n
  {
    if n == 0 then [] else [x % 256] + LittleEndian(x / 256, n - 1)
  }

  function FromLittle(s: seq<Byte>): nat {
    if s == [] then 0 else s[0] + 256 * FromLittle(s[1..])
  }

  lemma {:induction false} BigRoundTrip(x: nat, n: nat)
    requires x < Power256(n)
    ensures FromBig(BigEndian(x, n)) == x
  {
    if n > 0 {
      BigRoundTrip(x / 256, n - 1);
      assert BigEndian(x, n)[..n - 1] == BigEndian(x / 256, n - 1);
    }
  }

  lemma {:induction false} LittleRoundTrip(x: nat, n: nat)
    requires x < Power256(n)
    ensures FromLittle(LittleEndian(x, n)) == x
  {
    if n > 0 {
      LittleRoundTrip(x / 256, n - 1);
      assert LittleEndian(x, n)[1..] == LittleEndian(x / 256, n - 1);
    }
  }

  lemma LittleInjective(x: nat, y: nat, n: nat)
    requires x < Power256(n) && y < Power256(n) && LittleEndian(x, n) == LittleEndian(y, n)
    ensures x == y
  {
    LittleRoundTrip(x, n);
    LittleRoundTrip(y, n);
  }

  lemma TwoBytes(x: nat)
    ensures BigEndian(x, 2) == [x / 0x100 % 0x100, x % 0x100]
  {
    assert BigEndian(x / 0x100, 1) == BigEndian(x / 0x1_0000, 0) + [x / 0x100 % 0x100];
  }

  /** The high byte first. */
  lemma FourBytes(x: nat)
    requires x < 0x1_0000_0000
    ensures BigEndian(x, 4) == [x / 0x100_0000, x / 0x1_0000 % 0x100, x / 0x100 % 0x100, x % 0x100]
  {
    TwoBytes(x / 0x1_0000);
    assert BigEndian(x, 4) == BigEndian(x / 0x1_0000, 2) + [x / 0x100 % 0x100, x % 0x100] by {
      assert BigEndian(x, 4) == BigEndian(x / 0x100, 3) + [x % 0x100];
      assert x / 0x100 / 0x100 == x / 0x1_0000;
    }
    assert x / 0x1_0000 / 0x100 == x / 0x100_0000 < 0x100;
  }
}
