/** The control stream: length-prefixed frames, clear or encrypted, from either side to the other. */
module ControlChannel {
  import opened Options
  import opened Bytes
  import opened StreamCiphers

  datatype Message = Message(kind: Byte, payload: seq<Byte>)

  /** A message to send; only `guarded` ones go through the cipher, and only if there is one. */
  datatype Item = Item(message: Message, guarded: bool)

  datatype Channel = Channel(aead: Aead, key: Option<Key>, direction: Byte)

  predicate Secret(ch: Channel, it: Item) {
    it.guarded && ch.key.Some?
  }

  /** The frame without its length; none when the cipher fails. */
  function Frame(ch: Channel, counter: nat, it: Item): Option<seq<Byte>> {
    if Secret(ch, it) then
      match Encrypted(ch.aead, ch.key.value, counter, ch.direction, it.message.payload)
      case None => None
      case Some(s) => Some([it.message.kind, 1] + s.nonce + s.text)
    else Some([it.message.kind, 0] + it.message.payload)
  }

  /** The length goes out as 32 bits. */
  function Framed(body: seq<Byte>): seq<Byte> {
    BigEndian(|body| % 0x1_0000_0000, 4) + body
  }

  function CounterAfter(ch: Channel, counter: nat, it: Item): nat {
    if Secret(ch, it) && Frame(ch, counter, it).Some? then counter + 1 else counter
  }

  /** All that is written for the items, in order; those that cannot be encrypted are left out. */
  function Wire(ch: Channel, counter: nat, items: seq<Item>): seq<Byte>
    decreases |items|
  {
    if items == [] then [] else
    (match Frame(ch, counter, items[0]) case None => [] case Some(b) => Framed(b)) +
    Wire(ch, CounterAfter(ch, counter, items[0]), items[1..])
  }

  /** The messages so written. */
  function Sent(ch: Channel, counter: nat, items: seq<Item>): seq<Message>
    decreases |items|
  {
    if items == [] then [] else
    (if Frame(ch, counter, items[0]).Some? then [items[0].message] else []) +
    Sent(ch, CounterAfter(ch, counter, items[0]), items[1..])
  }

  // ── The reader ────────────────────────────────────────────────────────────

  /** The server takes frames of 1 to 65536 bytes, the client of 2 to 1100000. */
  datatype Bounds = Bounds(least: nat, most: nat)

  const SERVER_BOUNDS := Bounds(1, 65536)
  const CLIENT_BOUNDS := Bounds(2, 1_100_000)

  function Parse(buf: seq<Byte>, a: Aead, key: Option<Key>): Option<Message> {
    if |buf| < 2 then None
    else if buf[1] == 1 then
      if |buf| < 14 || key.None? then None else
      match a.open(key.value, buf[2..14], buf[14..])
      case None => None
      case Some(p) => Some(Message(buf[0], p))
    else Some(Message(buf[0], buf[2..]))
  }

  /** A length out of bounds is passed over, and what follows it is read as the next length. */
  function Decoded(s: seq<Byte>, a: Aead, key: Option<Key>, bounds: Bounds): seq<Message>
    decreases |s|
  {
    if |s| < 4 then [] else
    var n := FromBig(s[..4]);
    if n < bounds.least || n > bounds.most then Decoded(s[4..], a, key, bounds)
    else if |s| < 4 + n then []
    else
      (match Parse(s[4..4 + n], a, key) case None => [] case Some(m) => [m]) +
      Decoded(s[4 + n..], a, key, bounds)
  }

  method ReadControl(stream: seq<Byte>, a: Aead, key: Option<Key>, bounds: Bounds) returns (messages: seq<Message>)
    ensures messages == Decoded(stream, a, key, bounds)
  {
    hide Parse, FromBig, Decoded;
    messages := [];
    var pos := 0;
    ghost var left := stream;
    while true
      invariant 0 <= pos <= |stream| && left == stream[pos..]
      invariant Decoded(stream, a, key, bounds) == messages + Decoded(left, a, key, bounds)
      decreases |left|
    {
      DecodedStep(left, a, key, bounds);
      if |stream| - pos < 4 { break; }
      assert stream[pos..pos + 4] == left[..4];
      var n := FromBig(stream[pos..pos + 4]);
      pos := pos + 4;
      assert left[4..] == stream[pos..];
      if n < bounds.least || n > bounds.most {
        left := left[4..];
        continue;
      }
      if |stream| - pos < n { break; }
      assert left[4..4 + n] == stream[pos..pos + n];
      var m := Parse(stream[pos..pos + n], a, key);
      if m.Some? {
        messages := messages + [m.value];
      }
      left := left[4 + n..];
      pos := pos + n;
    }
  }

  lemma DecodedStep(s: seq<Byte>, a: Aead, key: Option<Key>, bounds: Bounds)
    ensures Decoded(s, a, key, bounds) ==
      if |s| < 4 then [] else
      var n := FromBig(s[..4]);
      if n < bounds.least || n > bounds.most then Decoded(s[4..], a, key, bounds)
      else if |s| < 4 + n then []
      else
        (match Parse(s[4..4 + n], a, key) case None => [] case Some(m) => [m]) +
        Decoded(s[4 + n..], a, key, bounds)
  {
    hide Parse, FromBig;
  }

  method FrameControlMessage(m: Message, cipher: StreamCipher?) returns (body: Option<seq<Byte>>)
    requires cipher != null ==> cipher.Valid()
    modifies cipher
    ensures cipher == null ==> forall ch: Channel, n :: body == Frame(ch, n, Item(m, false))
    ensures cipher != null ==>
      var ch := Channel(cipher.aead, Some(cipher.key), 0);
      cipher.Valid() &&
      body == Frame(ch, old(cipher.counter), Item(m, true)) &&
      cipher.counter == CounterAfter(ch, old(cipher.counter), Item(m, true))
  {
    if cipher != null {
      var s := cipher.Encrypt(m.payload);
      if s.None? {
        return None;
      }
      var out := [m.kind];
      out := out + [1];
      out := out + s.value.nonce;
      out := out + s.value.text;
      assert out == [m.kind, 1] + s.value.nonce + s.value.text;
      return Some(out);
    }
    var out := [m.kind];
    out := out + [0];
    out := out + m.payload;
    assert out == [m.kind, 0] + m.payload;
    return Some(out);
  }

  /** The client's side: the opening frame in clear, then each message through the cipher. */
  method SendAll(opening: Message, ms: seq<Message>, cipher: StreamCipher) returns (stream: seq<Byte>)
    requires cipher.Valid()
    modifies cipher
    ensures cipher.Valid()
    ensures stream ==
      Wire(Channel(cipher.aead, Some(cipher.key), 0), old(cipher.counter), [Item(opening, false)] + Guarded(ms))
  {
    hide Frame, Framed, Wire, CounterAfter;
    ghost var ch := Channel(cipher.aead, Some(cipher.key), 0);
    ghost var all := [Item(opening, false)] + Guarded(ms);
    var first := FrameControlMessage(opening, null);
    stream := [];
    if first.Some? {
      stream := stream + Framed(first.value);
    }
    ghost var total := Wire(ch, cipher.counter, all);
    WireStep(ch, cipher.counter, all);
    ClearKeepsCounter(ch, cipher.counter, opening);
    assert all[1..] == Guarded(ms) && Guarded(ms)[0..] == Guarded(ms);
    for i := 0 to |ms|
      invariant cipher.Valid() && cipher.aead == ch.aead && ch.key == Some(cipher.key)
      invariant total == stream + Wire(ch, cipher.counter, Guarded(ms)[i..])
    {
      WireStep(ch, cipher.counter, Guarded(ms)[i..]);
      assert Guarded(ms)[i..][0] == Item(ms[i], true) && Guarded(ms)[i..][1..] == Guarded(ms)[i + 1..];
      var body := FrameControlMessage(ms[i], cipher);
      if body.Some? {
        stream := stream + Framed(body.value);
      }
    }
    assert Guarded(ms)[|ms|..] == [] && Wire(ch, cipher.counter, []) == [] by { WireEnds(ch, cipher.counter); }
  }

  lemma WireStep(ch: Channel, counter: nat, items: seq<Item>)
    requires items != []
    ensures Wire(ch, counter, items) ==
      (match Frame(ch, counter, items[0]) case None => [] case Some(b) => Framed(b)) +
      Wire(ch, CounterAfter(ch, counter, items[0]), items[1..])
  {
    hide Frame, Framed, CounterAfter;
  }

  lemma WireEnds(ch: Channel, counter: nat)
    ensures Wire(ch, counter, []) == []
  {
  }

  lemma ClearKeepsCounter(ch: Channel, counter: nat, m: Message)
    ensures CounterAfter(ch, counter, Item(m, false)) == counter
  {
  }

  function Guarded(ms: seq<Message>): (r: seq<Item>)
    ensures |r| == |ms| && forall i :: 0 <= i < |ms| ==> r[i] == Item(ms[i], true)
  {
    seq(|ms|, i requires 0 <= i < |ms| => Item(ms[i], true))
  }

  // ── On the wire ───────────────────────────────────────────────────────────

  /** The length in four bytes, the high one first; then the kind, whether it is encrypted, and if so the nonce. */
  lemma FrameLayout(ch: Channel, counter: nat, it: Item)
    requires Frame(ch, counter, it).Some? && counter < COUNTER_END
    ensures var b := Frame(ch, counter, it).value;
      && |b| >= 2 && b[0] == it.message.kind
      && (if it.guarded && ch.key.Some?
          then b[1] == 1 && |b| >= 14 && SaysCounter(b[2..14], counter, ch.direction)
          else b[1] == 0 && b[2..] == it.message.payload)
  {
    hide Nonce, SaysCounter;
    NonceSays(counter, ch.direction);
    var b := Frame(ch, counter, it).value;
    if Secret(ch, it) { assert b[2..14] == Nonce(counter, ch.direction); }
  }

  lemma LengthLayout(b: seq<Byte>)
    requires |b| < 0x1_0000_0000
    ensures Framed(b)[..4] == [|b| / 0x100_0000, |b| / 0x1_0000 % 0x100, |b| / 0x100 % 0x100, |b| % 0x100]
    ensures Framed(b)[4..] == b
  {
    FourBytes(|b|);
    hide BigEndian;
  }

  // ── Round trip ────────────────────────────────────────────────────────────

  /** The length of an item's frame. */
  function FrameLength(ch: Channel, it: Item): nat {
    2 + |it.message.payload| + if Secret(ch, it) then 28 else 0
  }

  lemma FrameParses(ch: Channel, counter: nat, it: Item)
    requires Lawful(ch.aead) && Frame(ch, counter, it).Some?
    ensures var b := Frame(ch, counter, it).value;
      |b| == FrameLength(ch, it) && Parse(b, ch.aead, ch.key) == Some(it.message)
  {
    hide Nonce;
    var b := Frame(ch, counter, it).value;
    if Secret(ch, it) {
      var s := Encrypted(ch.aead, ch.key.value, counter, ch.direction, it.message.payload).value;
      assert b[2..14] == s.nonce && b[14..] == s.text;
    } else {
      assert b[2..] == it.message.payload;
    }
  }

  lemma FrameDecoded(b: seq<Byte>, rest: seq<Byte>, a: Aead, key: Option<Key>, bounds: Bounds)
    requires bounds.least <= |b| <= bounds.most < 0x1_0000_0000
    ensures Decoded(Framed(b) + rest, a, key, bounds) ==
      (match Parse(b, a, key) case None => [] case Some(m) => [m]) + Decoded(rest, a, key, bounds)
  {
    hide Parse, FromBig, BigEndian;
    var s := Framed(b) + rest;
    Powers();
    BigRoundTrip(|b|, 4);
    assert s[..4] == BigEndian(|b|, 4);
    assert s[4..4 + |b|] == b;
    assert s[4 + |b|..] == rest;
  }

  /** Whatever was sent is read, message by message and in order, when every frame fits the reader's bounds. */
  lemma {:induction false} ControlRoundTrip(ch: Channel, counter: nat, items: seq<Item>, bounds: Bounds)
    requires Lawful(ch.aead) && bounds.least <= 2 && bounds.most < 0x1_0000_0000
    requires forall it :: it in items ==> FrameLength(ch, it) <= bounds.most
    ensures Decoded(Wire(ch, counter, items), ch.aead, ch.key, bounds) == Sent(ch, counter, items)
    decreases |items|
  {
    hide Frame, Framed, Parse, Decoded, Lawful;
    if items == [] {
      NothingDecoded(ch, bounds);
    } else {
      assert items[0] in items;
      assert forall it :: it in items[1..] ==> it in items;
      ControlRoundTrip(ch, CounterAfter(ch, counter, items[0]), items[1..], bounds);
      var rest := Wire(ch, CounterAfter(ch, counter, items[0]), items[1..]);
      match Frame(ch, counter, items[0])
      case None => assert Wire(ch, counter, items) == rest;
      case Some(b) =>
        FrameParses(ch, counter, items[0]);
        FrameDecoded(b, rest, ch.aead, ch.key, bounds);
    }
  }

  lemma NothingDecoded(ch: Channel, bounds: Bounds)
    ensures Decoded([], ch.aead, ch.key, bounds) == []
  {
  }

  lemma ClientToServer(ch: Channel, counter: nat, items: seq<Item>)
    requires Lawful(ch.aead)
    requires forall it :: it in items ==> FrameLength(ch, it) <= 65536
    ensures Decoded(Wire(ch, counter, items), ch.aead, ch.key, SERVER_BOUNDS) == Sent(ch, counter, items)
  {
    hide Lawful;
    ControlRoundTrip(ch, counter, items, SERVER_BOUNDS);
  }

  lemma ServerToClient(ch: Channel, counter: nat, items: seq<Item>)
    requires Lawful(ch.aead)
    requires forall it :: it in items ==> FrameLength(ch, it) <= 1_100_000
    ensures Decoded(Wire(ch, counter, items), ch.aead, ch.key, CLIENT_BOUNDS) == Sent(ch, counter, items)
  {
    hide Lawful;
    ControlRoundTrip(ch, counter, items, CLIENT_BOUNDS);
  }

  /** All items are sent if sealing never refuses and the counter does not run out. */
  lemma {:induction false} AllSent(ch: Channel, counter: nat, items: seq<Item>)
    requires forall k, n, p :: ch.aead.seal(k, n, p).Some?
    requires counter + |items| < COUNTER_END
    ensures |Sent(ch, counter, items)| == |items|
    ensures forall i :: 0 <= i < |items| ==> Sent(ch, counter, items)[i] == items[i].message
    decreases |items|
  {
    hide Nonce;
    if items != [] {
      assert Frame(ch, counter, items[0]).Some?;
      AllSent(ch, CounterAfter(ch, counter, items[0]), items[1..]);
    }
  }

  // ── Frames too long ───────────────────────────────────────────────────────

  /** Without a key, nothing longer than the bound comes out of the reader. */
  lemma {:induction false} ClearBounded(s: seq<Byte>, a: Aead, bounds: Bounds)
    ensures forall m :: m in Decoded(s, a, None, bounds) ==> |m.payload| + 2 <= bounds.most
    decreases |s|
  {
    hide FromBig;
    if |s| >= 4 {
      var n := FromBig(s[..4]);
      if n < bounds.least || n > bounds.most {
        ClearBounded(s[4..], a, bounds);
      } else if |s| >= 4 + n {
        ClearBounded(s[4 + n..], a, bounds);
      }
    }
  }

  /** In clear, a list of messages comes through exactly when each fits. */
  lemma ClearExactly(a: Aead, items: seq<Item>, bounds: Bounds)
    requires Lawful(a) && bounds.least <= 2 && bounds.most < 0x1_0000_0000
    ensures var ch := Channel(a, None, 0);
      Decoded(Wire(ch, 0, items), a, None, bounds) == Sent(ch, 0, items)
      <==> forall it :: it in items ==> 2 + |it.message.payload| <= bounds.most
  {
    hide Decoded, Wire, Lawful;
    var ch := Channel(a, None, 0);
    if forall it :: it in items ==> 2 + |it.message.payload| <= bounds.most {
      ControlRoundTrip(ch, 0, items, bounds);
    } else {
      var it :| it in items && 2 + |it.message.payload| > bounds.most;
      ClearSent(ch, 0, items, it);
      ClearBounded(Wire(ch, 0, items), a, bounds);
    }
  }

  /** The server takes clear messages of up to 65534 bytes, and no longer ones. */
  lemma ServerExactly(a: Aead, items: seq<Item>)
    requires Lawful(a)
    ensures var ch := Channel(a, None, 0);
      Decoded(Wire(ch, 0, items), a, None, SERVER_BOUNDS) == Sent(ch, 0, items)
      <==> forall it :: it in items ==> |it.message.payload| <= 65534
  {
    hide Lawful;
    ClearExactly(a, items, SERVER_BOUNDS);
  }

  /** The client takes clear messages of up to 1099998 bytes, and no longer ones. */
  lemma ClientExactly(a: Aead, items: seq<Item>)
    requires Lawful(a)
    ensures var ch := Channel(a, None, 0);
      Decoded(Wire(ch, 0, items), a, None, CLIENT_BOUNDS) == Sent(ch, 0, items)
      <==> forall it :: it in items ==> |it.message.payload| <= 1_099_998
  {
    hide Lawful;
    ClearExactly(a, items, CLIENT_BOUNDS);
  }

  lemma {:induction false} ClearSent(ch: Channel, counter: nat, items: seq<Item>, it: Item)
    requires ch.key.None? && it in items
    ensures it.message in Sent(ch, counter, items)
    decreases |items|
  {
    if items[0] != it { ClearSent(ch, counter, items[1..], it); }
  }

  /** The body of a frame that is too long is itself read as frames. */
  lemma LongBodyReadAsFrames(b: seq<Byte>, rest: seq<Byte>, a: Aead, key: Option<Key>, bounds: Bounds)
    requires bounds.most < |b| < 0x1_0000_0000
    ensures Decoded(Framed(b) + rest, a, key, bounds) == Decoded(b + rest, a, key, bounds)
  {
    hide Parse, FromBig, BigEndian;
    var s := Framed(b) + rest;
    Powers();
    BigRoundTrip(|b|, 4);
    assert s[..4] == BigEndian(|b|, 4);
    assert s[4..] == b + rest;
  }

  /** Of a frame of one byte the server takes the byte as well, the client only the length. */
  lemma OneByteFrame(x: Byte, rest: seq<Byte>, a: Aead, key: Option<Key>)
    ensures Decoded([0, 0, 0, 1, x] + rest, a, key, SERVER_BOUNDS) == Decoded(rest, a, key, SERVER_BOUNDS)
    ensures Decoded([0, 0, 0, 1, x] + rest, a, key, CLIENT_BOUNDS) == Decoded([x] + rest, a, key, CLIENT_BOUNDS)
  {
    var s := [0, 0, 0, 1, x] + rest;
    FourBytes(1);
    Powers();
    BigRoundTrip(1, 4);
    hide FromBig, BigEndian;
    assert s[..4] == BigEndian(1, 4);
    assert s[4..] == [x] + rest && s[4..5] == [x] && s[5..] == rest;
    DecodedStep(s, a, key, SERVER_BOUNDS);
    DecodedStep(s, a, key, CLIENT_BOUNDS);
    hide Decoded;
  }
}
