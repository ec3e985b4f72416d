/** Element sizes of EBML (sections 4 and 6 of RFC 8794), as a reader takes them and as the recorder writes them. */
module Vint {
  import opened Options
  import opened Bytes

  datatype Size = Known(n: nat) | Unknown

  /** The octets of the number that starts with `b`: one more than its leading zero bits. */
  function VintLength(b: Byte): (n: nat)
    ensures n <= 8
  {
    if b >= 0x80 then 1 else if b >= 0x40 then 2 else if b >= 0x20 then 3 else if b >= 0x10 then 4
    else if b >= 0x08 then 5 else if b >= 0x04 then 6 else if b >= 0x02 then 7 else if b >= 0x01 then 8 else 0
  }

  /** The marker bit of a number of `n` octets. */
  function Marker(n: nat): Byte
    requires 1 <= n <= 8
  {
    match n
    case 1 => 0x80 case 2 => 0x40 case 3 => 0x20 case 4 => 0x10
    case 5 => 0x08 case 6 => 0x04 case 7 => 0x02 case 8 => 0x01
  }

  datatype Sized = Sized(size: Size, octets: nat)

  /** All data bits set means that the size is unknown. */
  function ReadVint(s: seq<Byte>): (r: Option<Sized>)
    ensures r.Some? ==> 1 <= r.value.octets <= |s|
  {
    if s == [] then None else
    var n := VintLength(s[0]);
    if n == 0 || |s| < n then None else
    var value := (s[0] - Marker(n)) * Power256(n - 1) + FromBig(s[1..n]);
    Some(Sized(if value == Marker(n) * Power256(n - 1) - 1 then Unknown else Known(value), n))
  }

  /** 0x20 | b. */
  function Or20(b: Byte): Byte {
    if (b / 0x20) % 2 == 1 then b else b + 0x20
  }

  /** The recorder's size field: one, two or three octets, the last of them truncating. */
  function WriteVint(total: nat): (r: seq<Byte>)
    ensures 1 <= |r| <= 3
  {
    if total < 0x7F then [0x80 + total]
    else if total < 0x3FFF then [0x40 + total / 0x100, total % 0x100]
    else [Or20(total / 0x1_0000 % 0x100), total / 0x100 % 0x100, total % 0x100]
  }

  lemma FromBigTwo(a: Byte, b: Byte)
    ensures FromBig([a]) == a && FromBig([a, b]) == 0x100 * a + b
  {
    assert [a][..0] == [] && [a, b][..1] == [a];
  }

  lemma ReadOne(s: seq<Byte>)
    requires s != [] && s[0] >= 0x80
    ensures ReadVint(s) == Some(Sized(if s[0] == 0xFF then Unknown else Known(s[0] - 0x80), 1))
  {
    assert s[1..1] == [];
  }

  lemma ReadTwo(s: seq<Byte>)
    requires |s| >= 2 && 0x40 <= s[0] < 0x80
    ensures ReadVint(s) ==
      var v := (s[0] as int - 0x40) * 0x100 + s[1] as int;
      Some(Sized(if v == 0x3FFF then Unknown else Known(v), 2))
  {
    Powers();
    FromBigTwo(s[1], 0);
    assert s[1..2] == [s[1]];
  }

  lemma ReadThree(s: seq<Byte>)
    requires |s| >= 3 && 0x20 <= s[0] < 0x40
    ensures ReadVint(s) ==
      var v := (s[0] as int - 0x20) * 0x1_0000 + (s[1] as int) * 0x100 + s[2] as int;
      Some(Sized(if v == 0x1F_FFFF then Unknown else Known(v), 3))
  {
    Powers();
    FromBigTwo(s[1], s[2]);
    assert s[1..3] == [s[1], s[2]];
  }

  ghost predicate ReadsBack(total: nat, rest: seq<Byte>) {
    ReadVint(WriteVint(total) + rest) == Some(Sized(Known(total), |WriteVint(total)|))
  }

  lemma ShortSizes(total: nat, rest: seq<Byte>)
    requires total < 0x3FFF
    ensures ReadsBack(total, rest)
  {
    hide ReadVint;
    var s := WriteVint(total) + rest;
    if total < 0x7F { ReadOne(s); } else { ReadTwo(s); }
  }

  lemma LongSizes(total: nat, rest: seq<Byte>)
    requires 0x3FFF <= total <= 0x1F_FFFF
    ensures ReadsBack(total, rest) <==> total < 0x1F_FFFF
  {
    hide ReadVint;
    ReadThree(WriteVint(total) + rest);
  }

  /** What a number that starts so can say is less. */
  lemma TooLong(total: nat, rest: seq<Byte>)
    requires total > 0x1F_FFFF
    ensures !ReadsBack(total, rest)
  {
    hide ReadVint;
    var s := WriteVint(total) + rest;
    if s[0] >= 0x80 { ReadOne(s); } else if s[0] >= 0x40 { ReadTwo(s); } else { ReadThree(s); }
  }

  /** The reader gets the size written, after the octets written, exactly below 2^21 - 1. */
  lemma SizeReadBack(total: nat, rest: seq<Byte>)
    ensures ReadVint(WriteVint(total) + rest) == Some(Sized(Known(total), |WriteVint(total)|))
      <==> total < 0x1F_FFFF
  {
    hide ReadVint, WriteVint;
    if total < 0x3FFF { ShortSizes(total, rest); } else if total <= 0x1F_FFFF { LongSizes(total, rest); } else { TooLong(total, rest); }
  }
}
