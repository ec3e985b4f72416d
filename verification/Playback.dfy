/** A reader of recordings, and what it gets back from the recorder's files. */
module Playback {
  import opened Options
  import opened Bytes
  import opened Vint
  import opened Recorder

  datatype Read<T> = Read(item: T, rest: seq<Byte>)

  function TimeOf(high: Byte, low: Byte): nat {
    0x100 * (high as int) + low as int
  }

  /** One block, sized as RFC 8794 says. */
  function ReadBlock(s: seq<Byte>): (r: Option<Read<Frame>>)
    ensures r.Some? ==> |r.value.rest| < |s|
  {
    if s == [] || s[0] != 0xA3 then None else
    match ReadVint(s[1..])
    case None => None
    case Some(v) =>
      var body := s[1 + v.octets..];
      if v.size.Unknown? || v.size.n < 12 || |body| < v.size.n || body[0] != 0x81 then None else
      var n := v.size.n;
      Some(Read(Frame(FromBig(body[4..12]), TimeOf(body[1], body[2]), body[3] >= 0x80, body[12..n]), body[n..]))
  }

  /** Blocks up to the first byte that starts none. */
  function ReadBlocks(s: seq<Byte>): Option<Read<seq<Frame>>>
    decreases |s|
  {
    if s == [] || s[0] != 0xA3 then Some(Read([], s)) else
    match ReadBlock(s)
    case None => None
    case Some(b) =>
      match ReadBlocks(b.rest)
      case None => None
      case Some(bs) => Some(Read([b.item] + bs.item, bs.rest))
  }

  datatype Cue = Cue(timestamp: nat, offset: nat)

  function ReadPoint(s: seq<Byte>): (r: Option<Read<Cue>>)
    ensures r.Some? ==> |r.value.rest| < |s|
  {
    if |s| < 21 || s[..3] != [0xBB, 0xB3, 0x88] || s[11..13] != [0xB7, 0x88] then None
    else Some(Read(Cue(FromBig(s[3..11]), FromBig(s[13..21])), s[21..]))
  }

  function ReadPoints(s: seq<Byte>): Option<Read<seq<Cue>>>
    decreases |s|
  {
    if s == [] || s[0] != 0xBB then Some(Read([], s)) else
    match ReadPoint(s)
    case None => None
    case Some(c) =>
      match ReadPoints(c.rest)
      case None => None
      case Some(cs) => Some(Read([c.item] + cs.item, cs.rest))
  }

  datatype Content = Content(frames: seq<Frame>, cues: seq<Cue>, rest: seq<Byte>)

  /** The whole file, after a header of `start` bytes. */
  function ReadFile(file: seq<Byte>, start: nat): Option<Content>
    requires start <= |file|
  {
    match ReadBlocks(file[start..])
    case None => None
    case Some(bs) =>
      if |bs.rest| < 4 || bs.rest[..4] != [0x1C, 0x53, 0xBB, 0x6B] then None else
      match ReadPoints(bs.rest[4..])
      case None => None
      case Some(cs) => Some(Content(bs.item, cs.item, cs.rest))
  }

  // ── One block ─────────────────────────────────────────────────────────────

  /** What a reader can know of a frame: its time has 16 bits in the file. */
  function Seen(f: Frame): Frame {
    f.(pts := f.pts % 0x1_0000)
  }

  predicate Small(f: Frame) {
    12 + |f.data| < 0x1F_FFFF
  }

  function Body(f: Frame): (r: seq<Byte>)
    ensures |r| == 12 + |f.data|
  {
    [0x81, f.pts / 0x100 % 0x100, f.pts % 0x100, if f.keyframe then 0x80 else 0] + BigEndian(f.seq_, 8) + f.data
  }

  lemma BodyParts(f: Frame, rest: seq<Byte>)
    requires InWidth(f)
    ensures var b := Body(f) + rest; var n := 12 + |f.data|;
      b[0] == 0x81 && FromBig(b[4..12]) == f.seq_ && TimeOf(b[1], b[2]) == f.pts % 0x1_0000 &&
      (b[3] >= 0x80) == f.keyframe && b[12..n] == f.data && b[n..] == rest
  {
    hide BigEndian, FromBig;
    var b, n := Body(f) + rest, 12 + |f.data|;
    Powers();
    BigRoundTrip(f.seq_, 8);
    assert b[4..12] == BigEndian(f.seq_, 8);
    assert b[12..n] == f.data;
    assert b[n..] == rest;
    TimeParts(f.pts);
  }

  lemma TimeParts(t: nat)
    ensures 0x100 * (t / 0x100 % 0x100) + t % 0x100 == t % 0x1_0000
  {
  }

  lemma BlockIs(f: Frame, rest: seq<Byte>)
    ensures var v := WriteVint(12 + |f.data|);
      Block(f) == [0xA3] + v + Body(f) &&
      (Block(f) + rest)[0] == 0xA3 &&
      (Block(f) + rest)[1..] == v + (Body(f) + rest) &&
      (Block(f) + rest)[1 + |v|..] == Body(f) + rest
  {
    hide WriteVint, BigEndian;
    var v := WriteVint(12 + |f.data|);
    assert Block(f) == [0xA3] + v + Body(f);
    assert Block(f) + rest == [0xA3] + (v + (Body(f) + rest));
  }

  /** A block is read back, as far as it can be, exactly when its size is below 2^21 - 1. */
  lemma BlockReadBack(f: Frame, rest: seq<Byte>)
    requires InWidth(f)
    ensures ReadBlock(Block(f) + rest) == Some(Read(Seen(f), rest)) <==> Small(f)
  {
    hide WriteVint, ReadVint, Block, Body, FromBig;
    var n := 12 + |f.data|;
    var v := WriteVint(n);
    BlockIs(f, rest);
    SizeReadBack(n, Body(f) + rest);
    BodyParts(f, rest);
    if !Small(f) {
      OtherSize(Block(f) + rest, f, rest);
    }
  }

  /** A block read to the right data and rest has been given its right size and place. */
  lemma OtherSize(s: seq<Byte>, f: Frame, rest: seq<Byte>)
    requires s == Block(f) + rest
    requires ReadVint(s[1..]) != Some(Sized(Known(12 + |f.data|), |WriteVint(12 + |f.data|)|))
    ensures ReadBlock(s) != Some(Read(Seen(f), rest))
  {
    hide WriteVint, ReadVint, FromBig, BigEndian;
    assert |s| == 1 + |WriteVint(12 + |f.data|)| + 12 + |f.data| + |rest|;
    if ReadBlock(s).Some? { ReadBlockLengths(s); }
  }

  lemma ReadBlockLengths(s: seq<Byte>)
    requires ReadBlock(s).Some?
    ensures var b := ReadBlock(s).value; var v := ReadVint(s[1..]);
      v == Some(Sized(Known(|b.item.data| + 12), v.value.octets)) &&
      |s| == 1 + v.value.octets + 12 + |b.item.data| + |b.rest|
  {
    hide ReadVint, FromBig;
  }

  // ── A whole recording ─────────────────────────────────────────────────────

  function SeenAll(fs: seq<Frame>): (r: seq<Frame>)
    ensures |r| == |fs| && forall i :: 0 <= i < |fs| ==> r[i] == Seen(fs[i])
  {
    seq(|fs|, i requires 0 <= i < |fs| => Seen(fs[i]))
  }

  ghost predicate Playable(fs: seq<Frame>) {
    forall f :: f in fs ==> InWidth(f) && Small(f)
  }

  lemma {:induction false} BlocksFront(fs: seq<Frame>)
    requires fs != []
    ensures Blocks(fs) == Block(fs[0]) + Blocks(fs[1..])
  {
    hide Block;
    var n := |fs| - 1;
    if n > 0 {
      BlocksFront(fs[..n]);
      assert fs[..n][1..] == fs[1..][..n - 1];
      assert Blocks(fs[1..]) == Blocks(fs[1..][..n - 1]) + Block(fs[n]);
    } else {
      assert Blocks(fs[..0]) == [] && Blocks(fs[1..]) == [];
    }
  }

  lemma {:induction false} BlocksReadBack(fs: seq<Frame>, rest: seq<Byte>)
    requires Playable(fs) && (rest == [] || rest[0] != 0xA3)
    ensures ReadBlocks(Blocks(fs) + rest) == Some(Read(SeenAll(fs), rest))
  {
    hide Block, ReadBlock, Blocks, ReadBlocks, Small, InWidth;
    if fs == [] {
      NoBlocks();
      assert Blocks(fs) + rest == rest;
      NoneRead(rest);
    } else {
      assert fs[0] in fs;
      assert forall f :: f in fs[1..] ==> f in fs;
      BlocksFront(fs);
      BlocksReadBack(fs[1..], rest);
      var tail := Blocks(fs[1..]) + rest;
      assert Blocks(fs) + rest == Block(fs[0]) + tail;
      BlockReadBack(fs[0], tail);
      BlockStarts(fs[0], tail);
      ReadBlocksStep(Block(fs[0]) + tail, Read(Seen(fs[0]), tail));
      assert SeenAll(fs) == [Seen(fs[0])] + SeenAll(fs[1..]);
    }
  }

  lemma BlockStarts(f: Frame, rest: seq<Byte>)
    ensures Block(f) + rest != [] && (Block(f) + rest)[0] == 0xA3
  {
    BlockIs(f, rest);
    hide Block;
  }

  lemma NoneRead(rest: seq<Byte>)
    requires rest == [] || rest[0] != 0xA3
    ensures ReadBlocks(rest) == Some(Read([], rest))
  {
  }

  lemma ReadBlocksStep(s: seq<Byte>, b: Read<Frame>)
    requires s != [] && s[0] == 0xA3 && ReadBlock(s) == Some(b)
    requires ReadBlocks(b.rest).Some?
    ensures var bs := ReadBlocks(b.rest).value; ReadBlocks(s) == Some(Read([b.item] + bs.item, bs.rest))
  {
    hide ReadBlock;
  }

  lemma NoBlocks()
    ensures Blocks([]) == []
  {
  }

  function CueOf(e: Entry): Cue {
    Cue(e.timestamp, e.offset)
  }

  function Cues(index: seq<Entry>): (r: seq<Cue>)
    ensures |r| == |index| && forall i :: 0 <= i < |index| ==> r[i] == CueOf(index[i])
  {
    seq(|index|, i requires 0 <= i < |index| => CueOf(index[i]))
  }

  ghost predicate EntryInWidth(e: Entry) {
    e.timestamp < 0x1_0000_0000_0000_0000 && e.offset < 0x1_0000_0000_0000_0000
  }

  lemma PointReadBack(e: Entry, rest: seq<Byte>)
    requires EntryInWidth(e)
    ensures CuePoint(e) != [] && CuePoint(e)[0] == 0xBB
    ensures ReadPoint(CuePoint(e) + rest) == Some(Read(CueOf(e), rest))
  {
    hide BigEndian, FromBig;
    Powers();
    BigRoundTrip(e.timestamp, 8);
    BigRoundTrip(e.offset, 8);
    var s := CuePoint(e) + rest;
    assert s[..3] == [0xBB, 0xB3, 0x88] && s[11..13] == [0xB7, 0x88];
    assert s[3..11] == BigEndian(e.timestamp, 8);
    assert s[13..21] == BigEndian(e.offset, 8);
    assert s[21..] == rest;
  }

  lemma {:induction false} PointsReadBack(index: seq<Entry>, rest: seq<Byte>)
    requires (forall e :: e in index ==> EntryInWidth(e)) && (rest == [] || rest[0] != 0xBB)
    ensures ReadPoints(CuePoints(index) + rest) == Some(Read(Cues(index), rest))
  {
    hide CuePoint, ReadPoint;
    if index == [] {
      assert CuePoints(index) + rest == rest;
    } else {
      var e := index[0];
      assert e in index;
      var tail := CuePoints(index[1..]) + rest;
      PointReadBack(e, tail);
      PointsReadBack(index[1..], rest);
      assert CuePoints(index) + rest == CuePoint(e) + tail;
      assert Cues(index) == [CueOf(e)] + Cues(index[1..]);
    }
  }

  /** Reading a finished file gives every frame and every index entry, in order, and leaves the tags. */
  lemma RecordingReadBack(header: seq<Byte>, fs: seq<Frame>, tags: seq<Byte>)
    requires Playable(fs) && |header| + |Blocks(fs)| < 0x1_0000_0000_0000_0000
    ensures var index := Index(fs, |header|);
      var file := header + Blocks(fs) + CuesId() + CuePoints(index) + TagsId() + tags;
      ReadFile(file, |header|) == Some(Content(SeenAll(fs), Cues(index), [0x12, 0x54, 0xC3, 0x67] + tags))
  {
    hide Blocks, Index, ReadBlocks, ReadPoints, CuePoints, CuePoint;
    var index := Index(fs, |header|);
    var end := TagsId() + tags;
    var cues := CuesId() + (CuePoints(index) + end);
    var file := header + Blocks(fs) + CuesId() + CuePoints(index) + TagsId() + tags;
    assert file == header + (Blocks(fs) + cues);
    assert file[|header|..] == Blocks(fs) + cues;
    IndexInWidth(fs, |header|);
    BlocksReadBack(fs, cues);
    assert cues[4..] == CuePoints(index) + end;
    PointsReadBack(index, end);
  }

  lemma {:induction false} IndexInWidth(fs: seq<Frame>, start: nat)
    requires (forall f :: f in fs ==> InWidth(f)) && start + |Blocks(fs)| < 0x1_0000_0000_0000_0000
    ensures forall e :: e in Index(fs, start) ==> EntryInWidth(e)
  {
    hide Block, Indexed;
    if fs != [] {
      var n := |fs| - 1;
      assert fs[n] in fs;
      IndexInWidth(fs[..n], start);
    }
  }

  // ── Seeking ───────────────────────────────────────────────────────────────

  lemma {:induction false} BlocksSplit(fs: seq<Frame>, i: nat)
    requires i < |fs|
    ensures Blocks(fs) == Blocks(fs[..i]) + Block(fs[i]) + Blocks(fs[i + 1..])
  {
    hide Block, Blocks;
    var n := |fs| - 1;
    BlocksLast(fs);
    if i == n {
      assert fs[i + 1..] == [];
      NoBlocks();
    } else {
      BlocksSplit(fs[..n], i);
      assert fs[..n][..i] == fs[..i];
      var t := fs[i + 1..];
      BlocksLast(t);
      assert fs[..n][i + 1..] == t[..n - i - 1];
    }
  }

  lemma BlocksLast(fs: seq<Frame>)
    requires fs != []
    ensures Blocks(fs) == Blocks(fs[..|fs| - 1]) + Block(fs[|fs| - 1])
  {
    hide Block;
  }

  /** Each entry is of an indexed frame, with that frame's offset. */
  ghost predicate PointsTo(e: Entry, fs: seq<Frame>, i: nat, start: nat) {
    i < |fs| && (fs[i].keyframe || fs[i].pts % 1000 < 40) && e == Entry(fs[i].pts, fs[i].seq_, start + |Blocks(fs[..i])|, fs[i].keyframe)
  }

  /** The entries are exactly those of the indexed frames. */
  lemma {:induction false} IndexExact(fs: seq<Frame>, start: nat, e: Entry)
    ensures e in Index(fs, start) <==> exists i :: PointsTo(e, fs, i, start)
  {
    hide Block, Blocks;
    if fs != [] {
      var n := |fs| - 1;
      IndexExact(fs[..n], start, e);
      forall i | 0 <= i < n ensures PointsTo(e, fs[..n], i, start) <==> PointsTo(e, fs, i, start) {
        assert fs[..n][..i] == fs[..i];
      }
      assert e in Index(fs, start) <==> e in Index(fs[..n], start) || PointsTo(e, fs, n, start);
    }
  }

  lemma KeyframesIndexed(fs: seq<Frame>, start: nat, i: nat)
    requires i < |fs| && fs[i].keyframe
    ensures Entry(fs[i].pts, fs[i].seq_, start + |Blocks(fs[..i])|, true) in Index(fs, start)
  {
    var e := Entry(fs[i].pts, fs[i].seq_, start + |Blocks(fs[..i])|, true);
    assert PointsTo(e, fs, i, start);
    IndexExact(fs, start, e);
  }

  /** Offsets increase strictly and stay below the end of the blocks. */
  lemma {:induction false} OffsetsIncrease(fs: seq<Frame>, start: nat)
    ensures forall a :: 0 <= a < |Index(fs, start)| ==> Index(fs, start)[a].offset < start + |Blocks(fs)|
    ensures forall a, b :: 0 <= a < b < |Index(fs, start)| ==>
      Index(fs, start)[a].offset < Index(fs, start)[b].offset
  {
    hide Block, Blocks, Indexed;
    if fs != [] {
      var n := |fs| - 1;
      OffsetsIncrease(fs[..n], start);
      BlocksLast(fs);
      assert |Block(fs[n])| > 0;
      var before, index := Index(fs[..n], start), Index(fs, start);
      var end := start + |Blocks(fs[..n])|;
      assert forall a :: 0 <= a < |before| ==> before[a].offset < end;
      assert index == before || (|index| == |before| + 1 && index[..|before|] == before && index[|before|].offset == end);
      forall a | 0 <= a < |index| ensures index[a].offset < start + |Blocks(fs)| {
        assert a < |before| ==> index[a] == before[a];
      }
      forall a, b | 0 <= a < b < |index| ensures index[a].offset < index[b].offset {
        assert index[a] == before[a];
        assert b < |before| ==> index[b] == before[b];
      }
    }
  }

  /** Reading one block at any indexed offset of the file gives the indexed frame. */
  lemma SeekFindsFrame(header: seq<Byte>, fs: seq<Frame>, after: seq<Byte>, e: Entry) returns (i: nat)
    requires Playable(fs) && e in Index(fs, |header|)
    ensures i < |fs| && e.offset <= |header + Blocks(fs) + after|
    ensures e == Entry(fs[i].pts, fs[i].seq_, e.offset, fs[i].keyframe)
    ensures var r := ReadBlock((header + Blocks(fs) + after)[e.offset..]);
      r.Some? && r.value.item == Seen(fs[i])
  {
    hide Block, Index, ReadBlock, Small, InWidth;
    IndexExact(fs, |header|, e);
    i :| PointsTo(e, fs, i, |header|);
    BlocksSplit(fs, i);
    hide Blocks;
    var before, tail := header + Blocks(fs[..i]), Blocks(fs[i + 1..]) + after;
    assert header + Blocks(fs) + after == before + (Block(fs[i]) + tail);
    assert (before + (Block(fs[i]) + tail))[|before|..] == Block(fs[i]) + tail;
    assert fs[i] in fs;
    BlockReadBack(fs[i], tail);
  }

  // ── The evidence chain ────────────────────────────────────────────────────

  ghost predicate SameLengths(a: seq<Frame>, b: seq<Frame>) {
    |a| == |b| && forall i :: 0 <= i < |a| ==> |a[i].data| == |b[i].data|
  }

  ghost predicate SameEvidence(a: seq<Frame>, b: seq<Frame>) {
    |a| == |b| && forall i :: 0 <= i < |a| ==> a[i].seq_ == b[i].seq_ && a[i].data == b[i].data
  }

  /** Among recordings with the same data lengths, what is hashed determines numbers and data of all frames. */
  lemma {:induction false} ChainDetermines(a: seq<Frame>, b: seq<Frame>)
    requires SameLengths(a, b)
    requires forall f :: f in a || f in b ==> InWidth(f)
    ensures ChainInput(a) == ChainInput(b) <==> SameEvidence(a, b)
  {
    hide LittleEndian;
    if a != [] {
      var n := |a| - 1;
      assert a[n] in a && b[n] in b;
      ChainDetermines(a[..n], b[..n]);
      if ChainInput(a) == ChainInput(b) {
        LastLinks(ChainInput(a[..n]), a[n], ChainInput(b[..n]), b[n]);
      }
    }
  }

  lemma LastLinks(x: seq<Byte>, f: Frame, y: seq<Byte>, g: Frame)
    requires |f.data| == |g.data| && InWidth(f) && InWidth(g)
    requires x + LittleEndian(f.seq_, 8) + f.data == y + LittleEndian(g.seq_, 8) + g.data
    ensures x == y && f.seq_ == g.seq_ && f.data == g.data
  {
    hide LittleEndian;
    var s := x + LittleEndian(f.seq_, 8) + f.data;
    var n := |x|;
    assert |x| == |y|;
    assert x == s[..n] && y == s[..n];
    assert LittleEndian(f.seq_, 8) == s[n..n + 8] && LittleEndian(g.seq_, 8) == s[n..n + 8];
    assert f.data == s[n + 8..] && g.data == s[n + 8..];
    Powers();
    LittleInjective(f.seq_, g.seq_, 8);
  }

  /** Lengths are not hashed: one frame that contains the next one's number and data has the chain of both. */
  lemma MergedFramesUnnoticed(fs: seq<Frame>, f: Frame, g: Frame)
    ensures ChainInput(fs + [f, g]) == ChainInput(fs + [f.(data := f.data + LittleEndian(g.seq_, 8) + g.data)])
    ensures |fs + [f, g]| != |fs + [f.(data := f.data + LittleEndian(g.seq_, 8) + g.data)]|
  {
    hide LittleEndian;
    var two, one := fs + [f, g], fs + [f.(data := f.data + LittleEndian(g.seq_, 8) + g.data)];
    assert two[..|fs| + 1] == fs + [f] && (fs + [f])[..|fs|] == fs && one[..|fs|] == fs;
    var x := ChainInput(fs) + LittleEndian(f.seq_, 8);
    assert ChainInput(two) == x + f.data + LittleEndian(g.seq_, 8) + g.data;
    assert ChainInput(one) == x + (f.data + LittleEndian(g.seq_, 8) + g.data);
  }
}
