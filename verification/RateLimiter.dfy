/** The sliding window of authentication failures, and the two halves of an authentication around its evaluation. */
module RateLimiting {
  import opened Options

  type Ip = nat

  /** `window` is five minutes; times are in any unit that the three share. */
  datatype Config = Config(maxFailures: nat, ban: nat, window: nat)

  datatype Entry = Entry(failures: seq<int>, bannedUntil: Option<int>)

  datatype Verdict = Banned | Limited | Admitted

  datatype Answer = Success | Failure | MfaRequired

  /** The times after `cutoff`. */
  function Pruned(times: seq<int>, cutoff: int): (r: seq<int>)
    ensures forall t :: t in r ==> t in times && t > cutoff
  {
    if times == [] then [] else
    Pruned(times[..|times| - 1], cutoff) + if times[|times| - 1] > cutoff then [times[|times| - 1]] else []
  }

  // ── One address ───────────────────────────────────────────────────────────

  predicate EntryBanned(o: Option<Entry>, now: int) {
    o.Some? && o.value.bannedUntil.Some? && now < o.value.bannedUntil.value
  }

  function EntryPruned(o: Option<Entry>, now: int, c: Config): Option<Entry> {
    match o
    case None => None
    case Some(e) => Some(e.(failures := Pruned(e.failures, now - c.window)))
  }

  predicate EntryLimited(o: Option<Entry>, now: int, c: Config) {
    o.Some? && |Pruned(o.value.failures, now - c.window)| >= c.maxFailures
  }

  function EntryFailed(o: Option<Entry>, now: int, c: Config): Option<Entry> {
    var e := match o case None => Entry([], None) case Some(e) => e;
    var kept := Pruned(e.failures + [now], now - c.window);
    Some(Entry(kept, if |kept| >= c.maxFailures then Some(now + c.ban) else e.bannedUntil))
  }

  /** Before the evaluation: refused while banned, refused and counted when over the limit. */
  function Admit(o: Option<Entry>, now: int, c: Config): (Option<Entry>, Verdict) {
    if EntryBanned(o, now) then (o, Banned)
    else if EntryLimited(o, now, c) then (EntryFailed(EntryPruned(o, now, c), now, c), Limited)
    else (EntryPruned(o, now, c), Admitted)
  }

  /** After the evaluation. */
  function Settle(o: Option<Entry>, answer: Answer, now: int, c: Config): Option<Entry> {
    match answer
    case Success => None
    case Failure => EntryFailed(o, now, c)
    case MfaRequired => o
  }

  // ── All addresses ─────────────────────────────────────────────────────────

  function Lookup(m: map<Ip, Entry>, ip: Ip): Option<Entry> {
    if ip in m then Some(m[ip]) else None
  }

  function Store(m: map<Ip, Entry>, ip: Ip, o: Option<Entry>): (r: map<Ip, Entry>)
    ensures Lookup(r, ip) == o
    ensures forall other :: other != ip ==> Lookup(r, other) == Lookup(m, other)
  {
    match o case Some(e) => m[ip := e] case None => m - {ip}
  }

  class RateLimiter {
    var entries: map<Ip, Entry>
    const config: Config

    /** With so many clock ticks to a second; the window is five minutes. */
    constructor (maxFailures: nat, banSecs: nat, ticks: nat)
      ensures config == Config(maxFailures, banSecs * ticks, 300 * ticks) && entries == map[]
    {
      config := Config(maxFailures, banSecs * ticks, 300 * ticks);
      entries := map[];
    }

    method IsBanned(ip: Ip, now: int) returns (r: bool)
      ensures r == EntryBanned(Lookup(entries, ip), now)
    {
      if ip in entries {
        var until := entries[ip].bannedUntil;
        if until.Some? && now < until.value {
          return true;
        }
      }
      return false;
    }

    /** Drops failures that left the window. */
    method Prune(failures: seq<int>, now: int) returns (kept: seq<int>)
      ensures kept == Pruned(failures, now - config.window)
    {
      var cutoff := now - config.window;
      kept := [];
      for i := 0 to |failures|
        invariant kept == Pruned(failures[..i], cutoff)
      {
        assert failures[..i + 1][..i] == failures[..i];
        if failures[i] > cutoff {
          kept := kept + [failures[i]];
        }
      }
      assert failures[..|failures|] == failures;
    }

    method IsRateLimited(ip: Ip, now: int) returns (r: bool)
      modifies this
      ensures r == EntryLimited(Lookup(old(entries), ip), now, config)
      ensures entries == Store(old(entries), ip, EntryPruned(Lookup(old(entries), ip), now, config))
    {
      if ip in entries {
        var kept := Prune(entries[ip].failures, now);
        entries := entries[ip := entries[ip].(failures := kept)];
        return |kept| >= config.maxFailures;
      }
      assert entries - {ip} == entries;
      return false;
    }

    method RecordFailure(ip: Ip, now: int)
      modifies this
      ensures entries == Store(old(entries), ip, EntryFailed(Lookup(old(entries), ip), now, config))
    {
      if ip !in entries {
        entries := entries[ip := Entry([], None)];
      }
      var entry := entries[ip].(failures := entries[ip].failures + [now]);
      var kept := Prune(entry.failures, now);
      entry := entry.(failures := kept);
      if |kept| >= config.maxFailures {
        entry := entry.(bannedUntil := Some(now + config.ban));
      }
      entries := entries[ip := entry];
    }

    method RecordSuccess(ip: Ip)
      modifies this
      ensures entries == Store(old(entries), ip, None)
    {
      entries := entries - {ip};
    }

    /** Authentication up to the evaluation of the credentials. */
    method Begin(ip: Ip, now: int) returns (v: Verdict)
      modifies this
      ensures v == Admit(Lookup(old(entries), ip), now, config).1
      ensures entries == Store(old(entries), ip, Admit(Lookup(old(entries), ip), now, config).0)
    {
      hide EntryFailed;
      var banned := IsBanned(ip, now);
      if banned {
        StoreSame(entries, ip);
        return Banned;
      }
      var limited := IsRateLimited(ip, now);
      if limited {
        RecordFailure(ip, now);
        return Limited;
      }
      return Admitted;
    }

    /** Authentication from the evaluation's answer on. */
    method End(ip: Ip, answer: Answer, now: int)
      modifies this
      ensures entries == Store(old(entries), ip, Settle(Lookup(old(entries), ip), answer, now, config))
    {
      match answer
      case Success => RecordSuccess(ip);
      case Failure => RecordFailure(ip, now);
      case MfaRequired => StoreSame(entries, ip);
    }
  }

  lemma StoreSame(m: map<Ip, Entry>, ip: Ip)
    ensures Store(m, ip, Lookup(m, ip)) == m
  {
  }
}
