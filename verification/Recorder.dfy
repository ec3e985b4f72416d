/** The session recorder: blocks, their offsets, the index and the evidence chain. */
module Recorder {
  import opened Bytes
  import opened Vint

  /** What is recorded of a video frame; the sequence number has 64 bits and the time 32. */
  datatype Frame = Frame(seq_: nat, pts: nat, keyframe: bool, data: seq<Byte>)

  datatype Entry = Entry(timestamp: nat, seq_: nat, offset: nat, keyframe: bool)

  ghost predicate InWidth(f: Frame) {
    f.seq_ < 0x1_0000_0000_0000_0000 && f.pts < 0x1_0000_0000
  }

  function Block(f: Frame): (r: seq<Byte>)
    ensures |r| > |f.data| + 12
  {
    [0xA3] + WriteVint(12 + |f.data|) +
    [0x81, f.pts / 0x100 % 0x100, f.pts % 0x100, if f.keyframe then 0x80 else 0] +
    BigEndian(f.seq_, 8) + f.data
  }

  function Blocks(fs: seq<Frame>): seq<Byte> {
    if fs == [] then [] else Blocks(fs[..|fs| - 1]) + Block(fs[|fs| - 1])
  }

  /** Keyframes are indexed, and what falls in the first 40 ms of a second. */
  predicate Indexed(f: Frame) {
    f.keyframe || f.pts % 1000 < 40
  }

  /** The index of frames whose first block starts at `start`. */
  function Index(fs: seq<Frame>, start: nat): seq<Entry> {
    if fs == [] then [] else
    var n := |fs| - 1;
    Index(fs[..n], start) +
    if Indexed(fs[n]) then [Entry(fs[n].pts, fs[n].seq_, start + |Blocks(fs[..n])|, fs[n].keyframe)] else []
  }

  function ChainInput(fs: seq<Frame>): seq<Byte> {
    if fs == [] then [] else
    var n := |fs| - 1;
    ChainInput(fs[..n]) + LittleEndian(fs[n].seq_, 8) + fs[n].data
  }

  function CuePoint(e: Entry): seq<Byte> {
    [0xBB, 0xB3, 0x88] + BigEndian(e.timestamp, 8) + [0xB7, 0x88] + BigEndian(e.offset, 8)
  }

  function CuePoints(index: seq<Entry>): seq<Byte> {
    if index == [] then [] else CuePoint(index[0]) + CuePoints(index[1..])
  }

  function CuesId(): seq<Byte> { [0x1C, 0x53, 0xBB, 0x6B] }
  function TagsId(): seq<Byte> { [0x12, 0x54, 0xC3, 0x67] }

  class SessionRecorder {
    var output: seq<Byte>
    var chain: seq<Byte>
    var index: seq<Entry>
    var fileOffset: nat
    var frameCount: nat
    ghost const header: seq<Byte>
    ghost var recorded: seq<Frame>

    /** All state is that of the frames recorded so far. */
    ghost predicate Valid()
      reads this
    {
      output == header + Blocks(recorded) &&
      fileOffset == |output| && frameCount == |recorded| &&
      index == Index(recorded, |header|) && chain == ChainInput(recorded)
    }

    constructor (header: seq<Byte>)
      ensures Valid() && recorded == [] && this.header == header
    {
      this.header := header;
      output := header;
      chain := [];
      index := [];
      fileOffset := |header|;
      frameCount := 0;
      recorded := [];
    }

    /** Records a frame; the write stops with an error after `room` bytes if the block is longer. */
    method RecordFrame(f: Frame, room: nat) returns (ok: bool)
      requires Valid()
      modifies this
      ensures ok == (|Block(f)| <= room)
      ensures ok ==> Valid() && recorded == old(recorded) + [f]
      ensures ok ==> chain == old(chain) + LittleEndian(f.seq_, 8) + f.data && output == old(output) + Block(f)
      ensures !ok ==>
        output == old(output) + Block(f)[..room] && index == Index(old(recorded) + [f], |header|) &&
        fileOffset == old(fileOffset) && frameCount == old(frameCount) && chain == old(chain) &&
        recorded == old(recorded)
    {
      hide Block;
      ghost var fs := recorded + [f];
      assert fs[..|recorded|] == recorded;
      if Indexed(f) {
        index := index + [Entry(f.pts, f.seq_, fileOffset, f.keyframe)];
      }
      assert index == Index(fs, |header|);
      var block := MakeSimpleBlock(f.seq_, f.pts, f.keyframe, f.data);
      if |block| > room {
        output := output + block[..room];
        return false;
      }
      output := output + block;
      chain := chain + LittleEndian(f.seq_, 8);
      chain := chain + f.data;
      fileOffset := fileOffset + |block|;
      frameCount := frameCount + 1;
      recorded := fs;
      return true;
    }

    /** The finished file and what was hashed. */
    method Finalize(tags: seq<Byte>) returns (file: seq<Byte>, hashed: seq<Byte>)
      requires Valid()
      modifies this
      ensures file == header + Blocks(old(recorded)) + CuesId() + CuePoints(Index(old(recorded), |header|)) + TagsId() + tags
      ensures hashed == ChainInput(old(recorded))
    {
      hide Blocks, Index;
      hashed := chain;
      var cues := MakeCues(index);
      output := output + cues;
      output := output + (TagsId() + tags);
      file := output;
    }
  }

  method MakeSimpleBlock(seq_: nat, pts: nat, keyframe: bool, data: seq<Byte>) returns (block: seq<Byte>)
    ensures block == Block(Frame(seq_, pts, keyframe, data))
  {
    block := [];
    block := block + [0xA3];
    var flags: Byte := if keyframe then 0x80 else 0;
    var head: seq<Byte> := [0x81, pts / 0x100 % 0x100, pts % 0x100, flags];
    var total := |head| + 8 + |data|;
    if total < 0x7F {
      block := block + [0x80 + total];
    } else if total < 0x3FFF {
      block := block + [0x40 + total / 0x100];
      block := block + [total % 0x100];
    } else {
      block := block + [Or20(total / 0x1_0000 % 0x100)];
      block := block + [total / 0x100 % 0x100];
      block := block + [total % 0x100];
    }
    assert block == [0xA3] + WriteVint(total);
    block := block + head;
    block := block + BigEndian(seq_, 8);
    block := block + data;
  }

  method MakeCues(index: seq<Entry>) returns (cues: seq<Byte>)
    ensures cues == CuesId() + CuePoints(index)
  {
    cues := CuesId();
    for i := 0 to |index|
      invariant CuesId() + CuePoints(index) == cues + CuePoints(index[i..])
    {
      ghost var before := cues;
      cues := cues + [0xBB];
      cues := cues + [0xB3, 0x88];
      cues := cues + BigEndian(index[i].timestamp, 8);
      cues := cues + [0xB7, 0x88];
      cues := cues + BigEndian(index[i].offset, 8);
      assert cues == before + CuePoint(index[i]);
      assert index[i..][1..] == index[i + 1..];
    }
  }
}
