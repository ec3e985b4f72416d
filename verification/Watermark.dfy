/**
 The forensic watermark: thirteen bytes, eight of session hash, four of elapsed seconds and a CRC,
 written into the low bits of scattered blue and red bytes of a BGRA frame.
 */
module Watermark {
  import opened Options
  import opened Crc
  import opened MarkBits
  import opened MarkScatter

  /** What 32 bits hold. */
  type Word = x: nat | x < 0x1_0000_0000

  datatype Data = Data(session: seq<bv8>, seconds: Word)

  function LsbMask(strength: nat): bv8
    requires 1 <= strength <= 4
  {
    ((1 as bv8) << strength) - 1
  }

  function LeBytes(x: Word): (r: seq<bv8>)
    ensures |r| == 4
  {
    [ToByte(x % 0x100), ToByte(x / 0x100 % 0x100), ToByte(x / 0x1_0000 % 0x100), ToByte(x / 0x100_0000)]
  }

  function FromLe(b: seq<bv8>): Word
    requires |b| == 4
  {
    (ByteValue(b[0]) + 0x100 * ByteValue(b[1]) + 0x1_0000 * ByteValue(b[2]) + 0x100_0000 * ByteValue(b[3]))
    % 0x1_0000_0000
  }

  function Payload(d: Data): (p: seq<bv8>)
    requires |d.session| == 8
    ensures |p| == 13
  {
    var data := d.session + LeBytes(d.seconds);
    data + [Register(data)]
  }

  /** Seconds since the session started, none if the clock went back, wrapped to 32 bits. */
  function Elapsed(now: nat, start: nat): Word {
    (if now >= start then now - start else 0) % 0x1_0000_0000
  }

  /** The seconds since the start, while they fit; none before it. */
  lemma ElapsedMeans(now: nat, start: nat)
    ensures now < start ==> Elapsed(now, start) == 0
    ensures start <= now < start + 0x1_0000_0000 ==> Elapsed(now, start) == now - start
    ensures now >= start ==> Elapsed(now + 0x1_0000_0000, start) == Elapsed(now, start)
  {
  }

  function WriteBit(v: bv8, lit: bool, mask: bv8): bv8 {
    (v & !mask) | (if lit then mask else 0)
  }

  /** The frame after the first `n` bits of payload `p` are written. */
  function Written(px: seq<bv8>, p: seq<bv8>, width: nat, height: nat, mask: bv8, n: nat): (r: seq<bv8>)
    requires FrameSize(width, height) && |px| >= width * height * 4 && n <= 8 * |p|
    ensures |r| == |px|
  {
    if n == 0 then px else
    var before := Written(px, p, width, height, mask, n - 1);
    var t := Target(n - 1, width, height);
    before[t := WriteBit(before[t], Has(p, n - 1), mask)]
  }

  /** How many of the first `n` writes change the byte they write. */
  function Changes(px: seq<bv8>, p: seq<bv8>, width: nat, height: nat, mask: bv8, n: nat): nat
    requires FrameSize(width, height) && |px| >= width * height * 4 && n <= 8 * |p|
  {
    if n == 0 then 0 else
    var before := Written(px, p, width, height, mask, n - 1);
    var t := Target(n - 1, width, height);
    Changes(px, p, width, height, mask, n - 1) +
    (if WriteBit(before[t], Has(p, n - 1), mask) != before[t] then 1 else 0)
  }

  function Marked(px: seq<bv8>, d: Data, width: nat, height: nat, strength: nat): (r: seq<bv8>)
    requires FrameSize(width, height) && |px| >= width * height * 4
    requires |d.session| == 8 && 1 <= strength <= 4
    ensures |r| == |px|
  {
    Written(px, Payload(d), width, height, LsbMask(strength), MARK_LENGTH)
  }

  predicate Reads(px: seq<bv8>, width: nat, height: nat, mask: bv8, i: nat)
    requires FrameSize(width, height) && Position(i, width, height) * 4 + 3 < |px|
  {
    px[Target(i, width, height)] & mask != 0
  }

  /** The pixels of the first `n` bits are inside the frame given. */
  predicate Readable(px: seq<bv8>, width: nat, height: nat, n: nat)
    requires FrameSize(width, height)
  {
    forall i :: 0 <= i < n ==> Position(i, width, height) * 4 + 3 < |px|
  }

  /** The payload bytes after the first `n` bits are read. */
  function Gathered(px: seq<bv8>, width: nat, height: nat, mask: bv8, n: nat): (p: seq<bv8>)
    requires FrameSize(width, height) && n <= MARK_LENGTH && Readable(px, width, height, n)
    ensures |p| == 13
  {
    if n == 0 then Zeros(13) else
    var p := Gathered(px, width, height, mask, n - 1);
    var i := n - 1;
    p[i / 8 := Lit(p[i / 8], i % 8, Reads(px, width, height, mask, i))]
  }

  function Opened(p: seq<bv8>): Option<Data>
    requires |p| == 13
  {
    if p[12] != Register(p[..12]) then None else Some(Data(p[..8], FromLe(p[8..12])))
  }

  function Extracted(px: seq<bv8>, width: nat, height: nat, strength: nat): Option<Data>
    requires FrameSize(width, height) && 1 <= strength <= 4
  {
    if !Readable(px, width, height, MARK_LENGTH) then None
    else Opened(Gathered(px, width, height, LsbMask(strength), MARK_LENGTH))
  }

  class Watermarker {
    const session: seq<bv8>
    const start: nat
    const strength: nat
    var frames: nat

    ghost predicate Valid() {
      |session| == 8 && 1 <= strength <= 4
    }

    constructor (session: seq<bv8>, now: nat, strength: nat)
      requires |session| == 8
      ensures Valid() && this.session == session && start == now && frames == 0
      ensures this.strength == if strength < 1 then 1 else if strength > 4 then 4 else strength
    {
      this.session := session;
      start := now;
      this.strength := if strength < 1 then 1 else if strength > 4 then 4 else strength;
      frames := 0;
    }

    method BuildPayload(now: nat) returns (p: seq<bv8>)
      requires Valid()
      ensures p == Payload(Data(session, Elapsed(now, start)))
    {
      p := session;
      p := p + LeBytes(Elapsed(now, start));
      var crc := Crc8(p);
      p := p + [crc];
    }

    /** Marks a frame in place, or leaves one that is too short as it is. */
    method MarkFrame(pixels: array<bv8>, width: nat, height: nat, now: nat) returns (modified: nat)
      requires Valid()
      requires FrameSize(width, height) || pixels.Length < width * height * 4 < 0x1_0000_0000
      modifies this`frames, pixels
      ensures pixels.Length < width * height * 4 ==>
        modified == 0 && pixels[..] == old(pixels[..]) && frames == old(frames)
      ensures pixels.Length >= width * height * 4 ==>
        frames == old(frames) + 1 &&
        var d := Data(session, Elapsed(now, start));
        pixels[..] == Marked(old(pixels[..]), d, width, height, strength) &&
        modified == Changes(old(pixels[..]), Payload(d), width, height, LsbMask(strength), MARK_LENGTH)
    {
      hide LsbMask, Target, FrameSize, WriteBit, Has, Payload;
      if pixels.Length < width * height * 4 {
        return 0;
      }
      var payload := BuildPayload(now);
      var mask := LsbMask(strength);
      ghost var px := pixels[..];
      modified := 0;
      var i := 0;
      while i < MARK_LENGTH
        invariant 0 <= i <= MARK_LENGTH && frames == old(frames)
        invariant pixels[..] == Written(px, payload, width, height, mask, i)
        invariant modified == Changes(px, payload, width, height, mask, i)
      {
        var base := Position(i, width, height) * 4;
        var t := base + if i % 2 == 0 then 0 else 2;
        assert t == Target(i, width, height) by { TargetIs(i, width, height); }
        var was := pixels[t];
        var value := WriteBit(was, Has(payload, i), mask);
        pixels[t] := value;
        if was != value { modified := modified + 1; }
        i := i + 1;
      }
      frames := frames + 1;
    }

    method ExtractMark(pixels: array<bv8>, width: nat, height: nat) returns (r: Option<Data>)
      requires Valid() && FrameSize(width, height)
      ensures r == Extracted(pixels[..], width, height, strength)
    {
      hide LsbMask, Target, FrameSize, Lit, Position, Zeros, Register, FromLe;
      var mask := LsbMask(strength);
      var payload := Zeros(13);
      var i := 0;
      while i < MARK_LENGTH
        invariant 0 <= i <= MARK_LENGTH && Readable(pixels[..], width, height, i)
        invariant payload == Gathered(pixels[..], width, height, mask, i)
      {
        var base := Position(i, width, height) * 4;
        if base + 3 >= pixels.Length {
          return None;
        }
        var t := base + if i % 2 == 0 then 0 else 2;
        assert t == Target(i, width, height) by { TargetIs(i, width, height); }
        payload := payload[i / 8 := Lit(payload[i / 8], i % 8, pixels[t] & mask != 0)];
        i := i + 1;
      }
      var crc := Crc8(payload[..12]);
      if payload[12] != crc {
        return None;
      }
      return Some(Data(payload[..8], FromLe(payload[8..12])));
    }
  }

  lemma TargetIs(i: nat, width: nat, height: nat)
    requires FrameSize(width, height)
    ensures Target(i, width, height) == Position(i, width, height) * 4 + if i % 2 == 0 then 0 else 2
  {
  }
}
