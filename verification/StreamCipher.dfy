/**
 The stream cipher of a session: a counter makes the nonces (section 2.8 of RFC 8439 wants each
 used once under a key), a direction byte separates two ciphers that share a key.
 */
module StreamCiphers {
  import opened Options
  import opened Bytes

  type Key = seq<Byte>

  /** Authenticated encryption, abstract; sealing may be refused, opening may fail. */
  datatype Aead = Aead(
    seal: (Key, seq<Byte>, seq<Byte>) -> Option<seq<Byte>>,
    open: (Key, seq<Byte>, seq<Byte>) -> Option<seq<Byte>>)

  /** Opening undoes sealing, and the tag takes 16 bytes. */
  ghost predicate Lawful(a: Aead) {
    forall k, n, p :: a.seal(k, n, p).Some? ==>
      |a.seal(k, n, p).value| == |p| + 16 && a.open(k, n, a.seal(k, n, p).value) == Some(p)
  }

  function Tag(): (t: seq<Byte>)
    ensures |t| == 16
  {
    seq(16, i => 0)
  }

  /** A cipher that hides nothing, and refuses nothing. */
  function Transparent(): Aead {
    Aead((k, n, p) => Some(p + Tag()), (k, n, t) => if |t| < 16 then None else Some(t[..|t| - 16]))
  }

  /** There are lawful ciphers. */
  lemma TransparentLawful()
    ensures Lawful(Transparent())
  {
    var a := Transparent();
    forall k, n, p ensures a.open(k, n, a.seal(k, n, p).value) == Some(p) {
      assert (p + Tag())[..|p|] == p;
    }
  }

  const COUNTER_END: nat := 0x1_0000_0000_0000_0000

  function Nonce(counter: nat, direction: Byte): (n: seq<Byte>)
    ensures |n| == 12
  {
    LittleEndian(counter, 8) + [direction, 0, 0, 0]
  }

  /** The counter from the low end, the direction, and three zero bytes. */
  ghost predicate SaysCounter(nonce: seq<Byte>, counter: nat, direction: Byte) {
    |nonce| == 12 && FromLittle(nonce[..8]) == counter && nonce[8] == direction && nonce[9..] == [0, 0, 0]
  }

  lemma NonceSays(counter: nat, direction: Byte)
    requires counter < COUNTER_END
    ensures SaysCounter(Nonce(counter, direction), counter, direction)
  {
    hide LittleEndian, FromLittle;
    Powers();
    LittleRoundTrip(counter, 8);
    assert Nonce(counter, direction)[..8] == LittleEndian(counter, 8);
  }

  /** Counter and direction can be read off a nonce. */
  lemma NonceInjective(c: nat, d: Byte, c': nat, d': Byte)
    requires c < COUNTER_END && c' < COUNTER_END
    ensures Nonce(c, d) == Nonce(c', d') <==> c == c' && d == d'
  {
    hide LittleEndian;
    if Nonce(c, d) == Nonce(c', d') {
      assert Nonce(c, d)[..8] == LittleEndian(c, 8) && Nonce(c', d')[..8] == LittleEndian(c', 8);
      assert Nonce(c, d)[8] == d && Nonce(c', d')[8] == d';
      Powers();
      LittleInjective(c, c', 8);
    }
  }

  datatype Sealed = Sealed(text: seq<Byte>, nonce: seq<Byte>)

  /** The last counter value is never used: its call fails when it comes to count. */
  function Encrypted(a: Aead, k: Key, counter: nat, direction: Byte, plain: seq<Byte>): Option<Sealed> {
    var nonce := Nonce(counter, direction);
    match a.seal(k, nonce, plain)
    case None => None
    case Some(text) => if counter + 1 < COUNTER_END then Some(Sealed(text, nonce)) else None
  }

  class StreamCipher {
    const aead: Aead
    const key: Key
    var counter: nat

    ghost predicate Valid()
      reads this
    {
      counter < COUNTER_END
    }

    constructor (aead: Aead, key: Key)
      ensures Valid() && this.aead == aead && this.key == key && counter == 0
    {
      this.aead := aead;
      this.key := key;
      counter := 0;
    }

    method DuplicateFresh() returns (c: StreamCipher)
      ensures fresh(c) && c.Valid() && c.aead == aead && c.key == key && c.counter == 0
    {
      c := new StreamCipher(aead, key);
    }

    method EncryptDir(plain: seq<Byte>, direction: Byte) returns (r: Option<Sealed>)
      requires Valid()
      modifies this
      ensures Valid() && r == Encrypted(aead, key, old(counter), direction, plain)
      ensures counter == old(counter) + if r.Some? then 1 else 0
      ensures r.Some? ==> SaysCounter(r.value.nonce, old(counter), direction)
    {
      NonceSays(counter, direction);
      hide SaysCounter;
      var nonce := Nonce(counter, direction);
      var text := aead.seal(key, nonce, plain);
      if text.None? {
        return None;
      }
      if counter + 1 == COUNTER_END {
        return None;
      }
      counter := counter + 1;
      return Some(Sealed(text.value, nonce));
    }

    method Encrypt(plain: seq<Byte>) returns (r: Option<Sealed>)
      requires Valid()
      modifies this
      ensures Valid() && r == Encrypted(aead, key, old(counter), 0, plain)
      ensures counter == old(counter) + if r.Some? then 1 else 0
      ensures r.Some? ==> SaysCounter(r.value.nonce, old(counter), 0)
    {
      r := EncryptDir(plain, 0);
    }

    method Decrypt(text: seq<Byte>, nonce: seq<Byte>) returns (r: Option<seq<Byte>>)
      ensures r == if |nonce| == 12 then aead.open(key, nonce, text) else None
    {
      if |nonce| != 12 {
        return None;
      }
      return aead.open(key, nonce, text);
    }
  }

  // ── Nonces over every run ─────────────────────────────────────────────────

  /** The ciphers of a session, each made fresh, and the directions each may use. */
  datatype Party = Party(key: Key, directions: set<Byte>)

  /** One call on one cipher. */
  datatype Call = Call(cipher: nat, direction: Byte, plain: seq<Byte>)

  datatype Use = Use(key: Key, nonce: seq<Byte>)

  datatype Ledger = Ledger(counters: seq<nat>, uses: seq<Use>)

  ghost predicate Permitted(calls: seq<Call>, parties: seq<Party>) {
    forall i :: 0 <= i < |calls| ==>
      calls[i].cipher < |parties| && calls[i].direction in parties[calls[i].cipher].directions
  }

  /** The calls carried out one after the other: what each returns, and the counter after it. */
  function Carried(a: Aead, parties: seq<Party>, calls: seq<Call>): (l: Ledger)
    ensures |l.counters| == |parties|
  {
    if calls == [] then Ledger(seq(|parties|, i => 0), []) else
    var before, call := Carried(a, parties, calls[..|calls| - 1]), calls[|calls| - 1];
    if call.cipher >= |parties| then before else
    var key, n := parties[call.cipher].key, before.counters[call.cipher];
    match Encrypted(a, key, n, call.direction, call.plain)
    case None => before
    case Some(s) => Ledger(before.counters[call.cipher := n + 1], before.uses + [Use(key, s.nonce)])
  }

  ghost predicate UsedOnce(uses: seq<Use>) {
    forall i, j :: 0 <= i < j < |uses| ==> uses[i] != uses[j]
  }

  /** Ciphers with the same key have no direction in common. */
  ghost predicate Separated(parties: seq<Party>) {
    forall i, j :: 0 <= i < j < |parties| && parties[i].key == parties[j].key ==>
      parties[i].directions !! parties[j].directions
  }

  /** Where a use comes from. */
  ghost predicate From(u: Use, parties: seq<Party>, counters: seq<nat>, c: nat, n: nat, d: Byte) {
    c < |parties| && |counters| == |parties| && n < counters[c] && n < COUNTER_END && d in parties[c].directions &&
    u == Use(parties[c].key, Nonce(n, d))
  }

  ghost predicate Used(u: Use, parties: seq<Party>, counters: seq<nat>) {
    exists c, n, d :: From(u, parties, counters, c, n, d)
  }

  ghost predicate AllFrom(l: Ledger, parties: seq<Party>) {
    forall i :: 0 <= i < |l.uses| ==> Used(l.uses[i], parties, l.counters)
  }

  lemma {:induction false} Sound(a: Aead, parties: seq<Party>, calls: seq<Call>)
    requires Separated(parties) && Permitted(calls, parties)
    ensures AllFrom(Carried(a, parties, calls), parties) && UsedOnce(Carried(a, parties, calls).uses)
  {
    hide AllFrom, UsedOnce, Separated, Nonce, Encrypted;
    if calls == [] {
      NoUses(a, parties);
    } else {
      var k := |calls| - 1;
      Sound(a, parties, calls[..k]);
      var before, call := Carried(a, parties, calls[..k]), calls[k];
      var n := before.counters[call.cipher];
      EncryptedUses(a, parties[call.cipher].key, n, call.direction, call.plain);
      if Encrypted(a, parties[call.cipher].key, n, call.direction, call.plain).Some? {
        OneMoreUse(parties, before, call);
      }
    }
  }

  lemma NoUses(a: Aead, parties: seq<Party>)
    ensures AllFrom(Carried(a, parties, []), parties) && UsedOnce(Carried(a, parties, []).uses)
  {
  }

  lemma EncryptedUses(a: Aead, k: Key, counter: nat, direction: Byte, plain: seq<Byte>)
    ensures var r := Encrypted(a, k, counter, direction, plain);
      r.Some? ==> r.value.nonce == Nonce(counter, direction) && counter + 1 < COUNTER_END
  {
    hide Nonce;
  }

  lemma OneMoreUse(parties: seq<Party>, before: Ledger, call: Call)
    requires Separated(parties) && |before.counters| == |parties| && call.cipher < |parties|
    requires call.direction in parties[call.cipher].directions
    requires AllFrom(before, parties) && UsedOnce(before.uses)
    requires before.counters[call.cipher] + 1 < COUNTER_END
    ensures
      var n := before.counters[call.cipher];
      var after := Ledger(before.counters[call.cipher := n + 1],
                          before.uses + [Use(parties[call.cipher].key, Nonce(n, call.direction))]);
      AllFrom(after, parties) && UsedOnce(after.uses)
  {
    hide Nonce, Separated;
    var n := before.counters[call.cipher];
    var u := Use(parties[call.cipher].key, Nonce(n, call.direction));
    var counters, uses := before.counters[call.cipher := n + 1], before.uses + [u];
    forall i | 0 <= i < |uses| ensures Used(uses[i], parties, counters) {
      if i < |before.uses| {
        assert Used(before.uses[i], parties, before.counters);
        var c, m, d :| From(before.uses[i], parties, before.counters, c, m, d);
        assert From(uses[i], parties, counters, c, m, d);
      } else {
        assert uses[i] == u;
        assert From(uses[i], parties, counters, call.cipher, n, call.direction);
      }
    }
    forall i | 0 <= i < |before.uses| ensures before.uses[i] != u {
      assert Used(before.uses[i], parties, before.counters);
      var c, m, d :| From(before.uses[i], parties, before.counters, c, m, d);
      NonceInjective(m, d, n, call.direction);
      KeysApart(parties, c, d, call.cipher, call.direction);
    }
    assert AllFrom(Ledger(counters, uses), parties);
    forall i, j | 0 <= i < j < |uses| ensures uses[i] != uses[j] {
      assert uses[i] == before.uses[i];
      assert j < |before.uses| ==> uses[j] == before.uses[j];
    }
  }

  /** A key and a direction belong to one cipher. */
  lemma KeysApart(parties: seq<Party>, c: nat, d: Byte, c': nat, d': Byte)
    requires Separated(parties) && c < |parties| && c' < |parties|
    requires d in parties[c].directions && d' in parties[c'].directions
    ensures parties[c].key == parties[c'].key && d == d' ==> c == c'
  {
  }

  /**
   No nonce that the ciphers return is ever returned twice under one key, whatever the cipher, the calls and
   the texts, exactly when directions are separated.
   */
  lemma NoncesUniqueExactly(parties: seq<Party>)
    ensures (forall a, calls :: Permitted(calls, parties) ==> UsedOnce(Carried(a, parties, calls).uses))
      <==> Separated(parties)
  {
    hide Carried, UsedOnce, Permitted, Transparent;
    if Separated(parties) {
      forall a, calls | Permitted(calls, parties) ensures UsedOnce(Carried(a, parties, calls).uses) {
        Sound(a, parties, calls);
      }
    } else {
      var calls := Clash(parties);
    }
  }

  lemma Clash(parties: seq<Party>) returns (calls: seq<Call>)
    requires !Separated(parties)
    ensures Permitted(calls, parties) && !UsedOnce(Carried(Transparent(), parties, calls).uses)
  {
    hide Nonce, Transparent;
    var i, j :| 0 <= i < j < |parties| && parties[i].key == parties[j].key &&
      !(parties[i].directions !! parties[j].directions);
    var d :| d in parties[i].directions && d in parties[j].directions;
    var a, first, second := Transparent(), Call(i, d, []), Call(j, d, []);
    calls := [first, second];
    assert calls[..1] == [first] && [first][..0] == [];
    NeverRefuses(parties[i].key, d);
    var u := Use(parties[i].key, Nonce(0, d));
    assert Carried(a, parties, [first]).uses == [u];
    var uses := Carried(a, parties, calls).uses;
    assert uses == [u, u];
    assert uses[0] == uses[1];
  }

  lemma NeverRefuses(k: Key, d: Byte)
    ensures var r := Encrypted(Transparent(), k, 0, d, []); r.Some? && r.value.nonce == Nonce(0, d)
  {
    hide Nonce;
  }

  /** The session's own: the client's control cipher sends with direction 0, the server's duplicate with 1, video has its own key. */
  lemma SessionSeparated(control: Key, video: Key)
    requires control != video
    ensures Separated([Party(control, {0}), Party(control, {1}), Party(video, {0})])
  {
  }

  /** At the last counter value every call fails and the cipher stays there. */
  lemma SaturatedFails(a: Aead, k: Key, direction: Byte, plain: seq<Byte>)
    ensures Encrypted(a, k, COUNTER_END - 1, direction, plain) == None
  {
    hide Nonce;
  }
}
