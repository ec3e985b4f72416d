/**
 Every interleaving of authentications: the pruned lists decide as the full history would, and the
 window bounds the credentials that can be tried.
 */
module AuthRuns {
  import opened Options
  import opened RateLimiting

  datatype Action = Begin(ip: Ip) | End(ip: Ip, answer: Answer)
  datatype Event = Event(action: Action, at: int)

  datatype Kind = WasBanned | WasLimited | WasAdmitted | Failed | Succeeded | AskedMfa
  datatype Attempt = Attempt(ip: Ip, at: int, kind: Kind)

  /** The limiter's entries, the evaluations under way, and all that happened. */
  datatype World = World(entries: map<Ip, Entry>, flying: map<Ip, nat>, history: seq<Attempt>)

  function Flying(w: World, ip: Ip): nat {
    if ip in w.flying then w.flying[ip] else 0
  }

  function KindOf(v: Verdict): Kind {
    match v case Banned => WasBanned case Limited => WasLimited case Admitted => WasAdmitted
  }

  function Outcome(a: Answer): Kind {
    match a case Success => Succeeded case Failure => Failed case MfaRequired => AskedMfa
  }

  function Step(w: World, e: Event, c: Config): World {
    match e.action
    case Begin(ip) =>
      var r := Admit(Lookup(w.entries, ip), e.at, c);
      World(Store(w.entries, ip, r.0), if r.1.Admitted? then w.flying[ip := Flying(w, ip) + 1] else w.flying,
            w.history + [Attempt(ip, e.at, KindOf(r.1))])
    case End(ip, answer) =>
      if Flying(w, ip) == 0 then w else
      World(Store(w.entries, ip, Settle(Lookup(w.entries, ip), answer, e.at, c)),
            w.flying[ip := Flying(w, ip) - 1], w.history + [Attempt(ip, e.at, Outcome(answer))])
  }

  function Run(events: seq<Event>, c: Config): World {
    if events == [] then World(map[], map[], []) else
    Step(Run(events[..|events| - 1], c), events[|events| - 1], c)
  }

  /** The clock never goes back, and shows `now` after the events. */
  ghost predicate InOrder(events: seq<Event>, now: int) {
    if events == [] then true else
    events[|events| - 1].at <= now && InOrder(events[..|events| - 1], events[|events| - 1].at)
  }

  // ── The full history ──────────────────────────────────────────────────────

  /** All failures counted against an address since its last success, with no window. */
  function Failures(h: seq<Attempt>, ip: Ip): seq<int> {
    if h == [] then [] else
    var before, a := Failures(h[..|h| - 1], ip), h[|h| - 1];
    if a.ip != ip then before
    else if a.kind == Succeeded then []
    else if a.kind == Failed || a.kind == WasLimited then before + [a.at]
    else before
  }

  /** Those of them whose credentials were evaluated. */
  function Evaluated(h: seq<Attempt>, ip: Ip): seq<int> {
    if h == [] then [] else
    var before, a := Evaluated(h[..|h| - 1], ip), h[|h| - 1];
    if a.ip != ip then before
    else if a.kind == Succeeded then []
    else if a.kind == Failed then before + [a.at]
    else before
  }

  /** The end of the last ban, set when a failure reached the limit within its window. */
  function BanOf(h: seq<Attempt>, ip: Ip, c: Config): Option<int> {
    if h == [] then None else
    var before, a := BanOf(h[..|h| - 1], ip, c), h[|h| - 1];
    if a.ip != ip then before
    else if a.kind == Succeeded then None
    else if (a.kind == Failed || a.kind == WasLimited) && |Pruned(Failures(h, ip), a.at - c.window)| >= c.maxFailures
    then Some(a.at + c.ban)
    else before
  }

  function VerdictByHistory(h: seq<Attempt>, ip: Ip, now: int, c: Config): Verdict {
    var ban := BanOf(h, ip, c);
    if ban.Some? && now < ban.value then Banned
    else if Failures(h, ip) != [] && |Pruned(Failures(h, ip), now - c.window)| >= c.maxFailures then Limited
    else Admitted
  }

  // ── Pruning ───────────────────────────────────────────────────────────────

  lemma PrunedPush(f: seq<int>, t: int, cutoff: int)
    ensures Pruned(f + [t], cutoff) == if t > cutoff then Pruned(f, cutoff) + [t] else Pruned(f, cutoff)
  {
    assert (f + [t])[..|f|] == f;
  }

  lemma PrunedNone(cutoff: int)
    ensures Pruned([], cutoff) == []
  {
  }

  lemma {:induction false} PrunedTwice(f: seq<int>, a: int, b: int)
    requires a <= b
    ensures Pruned(Pruned(f, a), b) == Pruned(f, b)
  {
    hide Pruned;
    if f != [] {
      var g, t := f[..|f| - 1], f[|f| - 1];
      assert f == g + [t];
      PrunedTwice(g, a, b);
      PrunedPush(g, t, a);
      PrunedPush(g, t, b);
      PrunedPush(Pruned(g, a), t, b);
    } else {
      PrunedNone(a);
      PrunedNone(b);
    }
  }

  lemma {:induction false} PrunedShrinks(f: seq<int>, a: int, b: int)
    requires a <= b
    ensures |Pruned(f, b)| <= |Pruned(f, a)| <= |f|
  {
    if f != [] { PrunedShrinks(f[..|f| - 1], a, b); }
  }

  // ── Agreement ─────────────────────────────────────────────────────────────

  /** What is kept of an address serves every window from `now` on as the full history would. */
  ghost predicate Agrees(o: Option<Entry>, f: seq<int>, ban: Option<int>, now: int, c: Config) {
    (o.None? <==> f == []) &&
    (o.None? ==> ban.None?) &&
    (o.Some? ==> o.value.bannedUntil == ban) &&
    (o.Some? ==> forall cutoff :: cutoff >= now - c.window ==> Pruned(o.value.failures, cutoff) == Pruned(f, cutoff))
  }

  lemma AgreesLater(o: Option<Entry>, f: seq<int>, ban: Option<int>, now: int, later: int, c: Config)
    requires Agrees(o, f, ban, now, c) && now <= later
    ensures Agrees(o, f, ban, later, c)
  {
    hide Pruned;
  }

  lemma AgreesPruned(o: Option<Entry>, f: seq<int>, ban: Option<int>, now: int, c: Config)
    requires Agrees(o, f, ban, now, c)
    ensures Agrees(EntryPruned(o, now, c), f, ban, now, c)
  {
    hide Pruned;
    if o.Some? {
      forall cutoff | cutoff >= now - c.window
        ensures Pruned(EntryPruned(o, now, c).value.failures, cutoff) == Pruned(f, cutoff)
      {
        PrunedTwice(o.value.failures, now - c.window, cutoff);
      }
    }
  }

  /** The same from the window's start on. */
  ghost predicate SameFrom(g: seq<int>, f: seq<int>, start: int) {
    forall cutoff :: cutoff >= start ==> Pruned(g, cutoff) == Pruned(f, cutoff)
  }

  lemma SamePushed(g: seq<int>, f: seq<int>, now: int, start: int)
    requires SameFrom(g, f, start)
    ensures SameFrom(Pruned(g + [now], start), f + [now], start)
    ensures Pruned(g + [now], start) == Pruned(f + [now], start)
  {
    hide Pruned;
    forall cutoff | cutoff >= start ensures Pruned(Pruned(g + [now], start), cutoff) == Pruned(f + [now], cutoff) {
      PrunedTwice(g + [now], start, cutoff);
      PrunedPush(g, now, cutoff);
      PrunedPush(f, now, cutoff);
    }
    PrunedPush(g, now, start);
    PrunedPush(f, now, start);
  }

  lemma AgreesFailed(o: Option<Entry>, f: seq<int>, ban: Option<int>, now: int, c: Config)
    requires Agrees(o, f, ban, now, c)
    ensures Agrees(EntryFailed(o, now, c), f + [now],
      if |Pruned(f + [now], now - c.window)| >= c.maxFailures then Some(now + c.ban) else ban, now, c)
  {
    hide Pruned;
    var e := match o case None => Entry([], None) case Some(e) => e;
    assert SameFrom(e.failures, f, now - c.window);
    SamePushed(e.failures, f, now, now - c.window);
  }

  /** The verdict is the one the full history gives. */
  lemma AgreedVerdict(o: Option<Entry>, h: seq<Attempt>, ip: Ip, now: int, c: Config)
    requires Agrees(o, Failures(h, ip), BanOf(h, ip, c), now, c)
    ensures Admit(o, now, c).1 == VerdictByHistory(h, ip, now, c)
  {
    hide Pruned, Failures, BanOf, EntryFailed;
  }

  lemma Told(h: seq<Attempt>, a: Attempt, ip: Ip, c: Config)
    ensures Failures(h + [a], ip) ==
      if a.ip != ip then Failures(h, ip)
      else if a.kind == Succeeded then []
      else if a.kind == Failed || a.kind == WasLimited then Failures(h, ip) + [a.at]
      else Failures(h, ip)
    ensures Evaluated(h + [a], ip) ==
      if a.ip != ip then Evaluated(h, ip)
      else if a.kind == Succeeded then []
      else if a.kind == Failed then Evaluated(h, ip) + [a.at]
      else Evaluated(h, ip)
    ensures BanOf(h + [a], ip, c) ==
      if a.ip != ip then BanOf(h, ip, c)
      else if a.kind == Succeeded then None
      else if (a.kind == Failed || a.kind == WasLimited)
        && |Pruned(Failures(h, ip) + [a.at], a.at - c.window)| >= c.maxFailures
      then Some(a.at + c.ban)
      else BanOf(h, ip, c)
  {
    hide Pruned;
    assert (h + [a])[..|h|] == h;
  }

  lemma StepAgrees(w: World, e: Event, ip: Ip, c: Config)
    requires Agrees(Lookup(w.entries, ip), Failures(w.history, ip), BanOf(w.history, ip, c), e.at, c)
    ensures var t := Step(w, e, c);
      Agrees(Lookup(t.entries, ip), Failures(t.history, ip), BanOf(t.history, ip, c), e.at, c)
  {
    hide Pruned, Failures, BanOf, EntryFailed, Agrees, EntryPruned, EntryLimited, EntryBanned;
    var o, f, ban := Lookup(w.entries, ip), Failures(w.history, ip), BanOf(w.history, ip, c);
    match e.action
    case Begin(other) =>
      Told(w.history, Attempt(other, e.at, KindOf(Admit(Lookup(w.entries, other), e.at, c).1)), ip, c);
      AgreesPruned(o, f, ban, e.at, c);
      AgreesFailed(EntryPruned(o, e.at, c), f, ban, e.at, c);
    case End(other, answer) =>
      Told(w.history, Attempt(other, e.at, Outcome(answer)), ip, c);
      AgreesFailed(o, f, ban, e.at, c);
      NothingAgrees(e.at, c);
  }

  lemma NothingAgrees(now: int, c: Config)
    ensures Agrees(None, [], None, now, c)
  {
  }

  /** Over every run with a forward clock, the limiter's entry of every address agrees with its full history. */
  lemma {:induction false} RunAgrees(events: seq<Event>, now: int, ip: Ip, c: Config)
    requires InOrder(events, now)
    ensures var w := Run(events, c);
      Agrees(Lookup(w.entries, ip), Failures(w.history, ip), BanOf(w.history, ip, c), now, c)
  {
    hide Agrees, Step, Failures, BanOf;
    if events == [] {
      assert Failures([], ip) == [] && BanOf([], ip, c) == None by { NothingYet(ip, c); }
      NothingAgrees(now, c);
    } else {
      var n := |events| - 1;
      RunAgrees(events[..n], events[n].at, ip, c);
      StepAgrees(Run(events[..n], c), events[n], ip, c);
      var w := Run(events, c);
      AgreesLater(Lookup(w.entries, ip), Failures(w.history, ip), BanOf(w.history, ip, c), events[n].at, now, c);
    }
  }

  lemma NothingYet(ip: Ip, c: Config)
    ensures Failures([], ip) == [] && BanOf([], ip, c) == None && Evaluated([], ip) == []
  {
  }

  /** The next authentication is banned, limited or admitted just as its full history says. */
  lemma VerdictFromHistory(events: seq<Event>, now: int, ip: Ip, c: Config)
    requires InOrder(events, now)
    ensures var w := Run(events, c);
      Admit(Lookup(w.entries, ip), now, c).1 == VerdictByHistory(w.history, ip, now, c)
  {
    hide Agrees, Step, Failures, BanOf, Admit, VerdictByHistory;
    RunAgrees(events, now, ip, c);
    AgreedVerdict(Lookup(Run(events, c).entries, ip), Run(events, c).history, ip, now, c);
  }

  // ── How much can be tried ─────────────────────────────────────────────────

  /** The most evaluations of one address under way at once. */
  function Peak(events: seq<Event>, ip: Ip, c: Config): (p: nat)
    ensures p >= Flying(Run(events, c), ip)
  {
    if events == [] then 0 else
    Higher(Peak(events[..|events| - 1], ip, c), Flying(Run(events, c), ip))
  }

  function Higher(a: nat, b: nat): nat {
    if b > a then b else a
  }

  function AtLeastOne(n: nat): (r: nat)
    ensures r >= 1
  {
    if n == 0 then 1 else n
  }

  lemma {:induction false} EvaluatedFewer(h: seq<Attempt>, ip: Ip, cutoff: int)
    ensures |Pruned(Evaluated(h, ip), cutoff)| <= |Pruned(Failures(h, ip), cutoff)|
  {
    hide Pruned;
    PrunedNone(cutoff);
    if h != [] {
      var n := |h| - 1;
      EvaluatedFewer(h[..n], ip, cutoff);
      PrunedPush(Evaluated(h[..n], ip), h[n].at, cutoff);
      PrunedPush(Failures(h[..n], ip), h[n].at, cutoff);
    }
  }

  /** When one more is admitted, fewer than the limit were evaluated in the window. */
  lemma AdmittedBelow(h: seq<Attempt>, ip: Ip, now: int, start: int, c: Config)
    requires VerdictByHistory(h, ip, now, c) == Admitted && now <= start + c.window
    ensures |Pruned(Evaluated(h, ip), start)| <= AtLeastOne(c.maxFailures) - 1
  {
    hide Failures, Evaluated, BanOf, Pruned;
    EvaluatedFewer(h, ip, start);
    PrunedShrinks(Failures(h, ip), now - c.window, start);
    PrunedNone(start);
  }

  lemma StepBounded(w: World, e: Event, ip: Ip, start: int, c: Config, peak: nat)
    requires Admit(Lookup(w.entries, ip), e.at, c).1 == VerdictByHistory(w.history, ip, e.at, c)
    requires e.at <= start + c.window && Flying(Step(w, e, c), ip) <= peak
    requires |Pruned(Evaluated(w.history, ip), start)| + Flying(w, ip) <= AtLeastOne(c.maxFailures) - 1 + peak
    ensures var t := Step(w, e, c);
      |Pruned(Evaluated(t.history, ip), start)| + Flying(t, ip) <= AtLeastOne(c.maxFailures) - 1 + peak
  {
    hide Pruned, Evaluated, Failures, BanOf, Admit, Settle, VerdictByHistory, AtLeastOne;
    match e.action
    case Begin(other) =>
      var v := Admit(Lookup(w.entries, other), e.at, c).1;
      Told(w.history, Attempt(other, e.at, KindOf(v)), ip, c);
      if v == Admitted && other == ip { AdmittedBelow(w.history, ip, e.at, start, c); }
    case End(other, answer) =>
      Told(w.history, Attempt(other, e.at, Outcome(answer)), ip, c);
      PrunedPush(Evaluated(w.history, ip), e.at, start);
      PrunedNone(start);
  }

  lemma {:induction false} BoundedFor(events: seq<Event>, ip: Ip, start: int, c: Config, peak: nat)
    requires InOrder(events, start + c.window) && Peak(events, ip, c) <= peak
    ensures var w := Run(events, c);
      |Pruned(Evaluated(w.history, ip), start)| + Flying(w, ip) <= AtLeastOne(c.maxFailures) - 1 + peak
    decreases |events|
  {
    hide Step, Evaluated, Pruned, Flying, VerdictByHistory, Admit;
    if events == [] {
      NothingYet(ip, c);
      PrunedShrinks([], start, start);
      NoneFlying(ip, c);
    } else {
      var n := |events| - 1;
      OrderLater(events[..n], events[n].at, start + c.window);
      BoundedFor(events[..n], ip, start, c, peak);
      VerdictFromHistory(events[..n], events[n].at, ip, c);
      StepBounded(Run(events[..n], c), events[n], ip, start, c, peak);
    }
  }

  lemma NoneFlying(ip: Ip, c: Config)
    ensures Flying(Run([], c), ip) == 0
  {
  }

  lemma OrderLater(events: seq<Event>, now: int, later: int)
    requires InOrder(events, now) && now <= later
    ensures InOrder(events, later)
  {
  }

  /**
   In any stretch of time no longer than the window, since the last success: at most the limit, less
   one, plus the evaluations of that address ever under way at once.
   */
  lemma FailuresBounded(events: seq<Event>, ip: Ip, start: int, c: Config)
    requires InOrder(events, start + c.window)
    ensures |Pruned(Evaluated(Run(events, c).history, ip), start)|
      <= AtLeastOne(c.maxFailures) - 1 + Peak(events, ip, c)
  {
    hide Evaluated, Pruned, Run, Peak;
    BoundedFor(events, ip, start, c, Peak(events, ip, c));
  }

  // ── The rate-limited answer ───────────────────────────────────────────────

  /** Failures are not after `now`, and in the order of time. */
  ghost predicate Past(f: seq<int>, now: int) {
    (forall i :: 0 <= i < |f| ==> f[i] <= now) && forall i, j :: 0 <= i < j < |f| ==> f[i] <= f[j]
  }

  lemma PastPush(f: seq<int>, now: int)
    requires Past(f, now)
    ensures Past(f + [now], now)
  {
  }

  lemma PastLater(f: seq<int>, now: int, later: int)
    requires Past(f, now) && now <= later
    ensures Past(f, later) && Past([], later)
  {
  }

  lemma StepPast(w: World, e: Event, ip: Ip, c: Config)
    requires Past(Failures(w.history, ip), e.at)
    ensures Past(Failures(Step(w, e, c).history, ip), e.at)
  {
    hide Failures, Admit, Settle, Past;
    PastPush(Failures(w.history, ip), e.at);
    PastLater(Failures(w.history, ip), e.at, e.at);
    match e.action
    case Begin(other) => Told(w.history, Attempt(other, e.at, KindOf(Admit(Lookup(w.entries, other), e.at, c).1)), ip, c);
    case End(other, answer) => Told(w.history, Attempt(other, e.at, Outcome(answer)), ip, c);
  }

  lemma {:induction false} RunPast(events: seq<Event>, now: int, ip: Ip, c: Config)
    requires InOrder(events, now)
    ensures Past(Failures(Run(events, c).history, ip), now)
  {
    hide Failures, Step, Past;
    if events == [] {
      NothingYet(ip, c);
      assert Past([], now) by { NonePast(now); }
    } else {
      var n := |events| - 1;
      RunPast(events[..n], events[n].at, ip, c);
      StepPast(Run(events[..n], c), events[n], ip, c);
      PastLater(Failures(Run(events, c).history, ip), events[n].at, now);
    }
  }

  lemma NonePast(now: int)
    ensures Past([], now)
  {
  }

  /** A last failure that reached the limit has set the ban. */
  lemma {:induction false} LastFailureBans(h: seq<Attempt>, ip: Ip, c: Config)
    ensures var f := Failures(h, ip);
      f != [] && |Pruned(f, f[|f| - 1] - c.window)| >= c.maxFailures ==> BanOf(h, ip, c) == Some(f[|f| - 1] + c.ban)
  {
    hide Pruned;
    if h != [] { LastFailureBans(h[..|h| - 1], ip, c); }
  }

  /** If any failure is after the cutoff, the last one is. */
  lemma LastIsRecent(f: seq<int>, now: int, cutoff: int)
    requires Past(f, now) && |Pruned(f, cutoff)| > 0
    ensures f != [] && f[|f| - 1] > cutoff
  {
    var t := Pruned(f, cutoff)[0];
    assert t in f && t > cutoff;
  }

  lemma BanCovers(h: seq<Attempt>, ip: Ip, now: int, c: Config)
    requires c.ban >= c.window && c.maxFailures > 0 && Past(Failures(h, ip), now)
    ensures VerdictByHistory(h, ip, now, c) != Limited
  {
    hide BanOf, Failures, Pruned;
    var f := Failures(h, ip);
    if |Pruned(f, now - c.window)| >= c.maxFailures {
      LastIsRecent(f, now, now - c.window);
      PrunedShrinks(f, f[|f| - 1] - c.window, now - c.window);
      LastFailureBans(h, ip, c);
    }
  }

  ghost predicate EverLimited(h: seq<Attempt>) {
    exists i :: 0 <= i < |h| && h[i].kind == WasLimited
  }

  lemma {:induction false} NeverLimited(events: seq<Event>, now: int, c: Config)
    requires InOrder(events, now) && c.ban >= c.window && c.maxFailures > 0
    ensures !EverLimited(Run(events, c).history)
  {
    hide VerdictByHistory, Settle, Admit;
    if events != [] {
      var n := |events| - 1;
      var e := events[n];
      NeverLimited(events[..n], e.at, c);
      if e.action.Begin? {
        VerdictFromHistory(events[..n], e.at, e.action.ip, c);
        RunPast(events[..n], e.at, e.action.ip, c);
        BanCovers(Run(events[..n], c).history, e.action.ip, e.at, c);
      }
    }
  }

  /** `n` failed authentications at time 0, one after the other. */
  function Tries(n: nat): (r: seq<Event>)
    ensures |r| == 2 * n && forall i :: 0 <= i < |r| ==> r[i].at == 0
  {
    if n == 0 then [] else Tries(n - 1) + [Event(Begin(0), 0), Event(End(0, Failure), 0)]
  }

  function Times(n: nat): seq<int> {
    seq(n, i => 0)
  }

  lemma {:induction false} TimesPruned(n: nat, cutoff: int)
    requires cutoff < 0
    ensures Pruned(Times(n), cutoff) == Times(n)
  {
    if n > 0 {
      TimesPruned(n - 1, cutoff);
      assert Times(n)[..n - 1] == Times(n - 1);
    }
  }

  lemma TimesMore(n: nat)
    ensures Times(n) + [0] == Times(n + 1)
  {
  }

  /** Up to the limit, each try is evaluated; the one that reaches it sets the ban. */
  lemma {:induction false} TriesRun(n: nat, c: Config)
    requires n <= AtLeastOne(c.maxFailures) && c.window > 0
    ensures var w := Run(Tries(n), c);
      Flying(w, 0) == 0 &&
      Lookup(w.entries, 0) ==
        if n == 0 then None else Some(Entry(Times(n), if n >= c.maxFailures then Some(c.ban) else None))
    ensures InOrder(Tries(n), 0)
  {
    hide Admit, Settle, Times;
    if n > 0 {
      TriesRun(n - 1, c);
      var begin, end := Event(Begin(0), 0), Event(End(0, Failure), 0);
      TwoMore(Tries(n - 1), begin, end, c);
      OneTry(n - 1, c);
    }
  }

  lemma TwoMore(events: seq<Event>, a: Event, b: Event, c: Config)
    ensures Run(events + [a, b], c) == Step(Step(Run(events, c), a, c), b, c)
    ensures InOrder(events, a.at) && a.at <= b.at ==> InOrder(events + [a, b], b.at)
  {
    hide Step;
    OneMore(events, a, c);
    OneMore(events + [a], b, c);
    assert events + [a, b] == events + [a] + [b];
  }

  lemma OneMore(events: seq<Event>, a: Event, c: Config)
    ensures Run(events + [a], c) == Step(Run(events, c), a, c)
    ensures InOrder(events, a.at) ==> InOrder(events + [a], a.at)
    ensures forall ip :: Peak(events + [a], ip, c) == Higher(Peak(events, ip, c), Flying(Run(events + [a], c), ip))
  {
    hide Step;
    assert (events + [a])[..|events|] == events;
  }

  /** What is kept of the address after `n` failures at time 0, fewer than the limit. */
  function Kept(n: nat): Option<Entry> {
    if n == 0 then None else Some(Entry(Times(n), None))
  }

  lemma OneTry(n: nat, c: Config)
    requires n < AtLeastOne(c.maxFailures) && c.window > 0
    ensures Admit(Kept(n), 0, c) == (Kept(n), Admitted)
    ensures Settle(Kept(n), Failure, 0, c) == Some(Entry(Times(n + 1), if n + 1 >= c.maxFailures then Some(c.ban) else None))
  {
    TryAdmitted(n, c);
    TryFailed(n, c);
  }

  lemma TryAdmitted(n: nat, c: Config)
    requires n < AtLeastOne(c.maxFailures) && c.window > 0
    ensures Admit(Kept(n), 0, c) == (Kept(n), Admitted)
  {
    hide Pruned, EntryFailed;
    TimesPruned(n, 0 - c.window);
    assert |Times(n)| == n;
  }

  lemma TryFailed(n: nat, c: Config)
    requires c.window > 0
    ensures EntryFailed(Kept(n), 0, c) == Some(Entry(Times(n + 1), if n + 1 >= c.maxFailures then Some(c.ban) else None))
  {
    hide Pruned;
    TimesPruned(n + 1, 0 - c.window);
    TimesMore(n);
    assert Times(0) == [];
    assert |Times(n + 1)| == n + 1;
  }

  /** The rate-limited answer exists exactly when bans are shorter than the window or nothing is allowed. */
  lemma LimitedReachable(c: Config)
    requires c.window > 0
    ensures (exists events, now :: InOrder(events, now) && EverLimited(Run(events, c).history))
      <==> c.ban < c.window || c.maxFailures == 0
  {
    hide Step, EverLimited, Run;
    if c.ban < c.window || c.maxFailures == 0 {
      ReachLimited(c);
    } else {
      forall events, now | InOrder(events, now) ensures !EverLimited(Run(events, c).history) {
        NeverLimited(events, now, c);
      }
    }
  }

  lemma ReachLimited(c: Config)
    requires c.window > 0 && (c.ban < c.window || c.maxFailures == 0)
    ensures exists events, now :: InOrder(events, now) && EverLimited(Run(events, c).history)
  {
    hide Admit, Tries;
    var n := AtLeastOne(c.maxFailures);
    TriesRun(n, c);
    var last := Event(Begin(0), c.ban);
    var events := Tries(n) + [last];
    assert events[..|events| - 1] == Tries(n);
    OrderLater(Tries(n), 0, c.ban);
    assert InOrder(events, c.ban);
    var w := Run(Tries(n), c);
    AfterBan(n, c);
    var t := Step(w, last, c);
    assert Run(events, c) == t;
    assert t.history[|t.history| - 1].kind == WasLimited;
  }

  lemma AfterBan(n: nat, c: Config)
    requires n == AtLeastOne(c.maxFailures) && c.window > 0 && (c.ban < c.window || c.maxFailures == 0)
    ensures Admit(Some(Entry(Times(n), Some(c.ban))), c.ban, c).1 == Limited
  {
    if c.ban < c.window { TimesPruned(n, c.ban - c.window); }
    hide Pruned, EntryFailed;
  }

  // ── The bound is reached ──────────────────────────────────────────────────

  /** Evaluations under way, evaluations failed at time 0, and at most so many at once. */
  ghost predicate Stage(events: seq<Event>, c: Config, flying: nat, failed: nat, peak: nat) {
    InOrder(events, 0) && Flying(Run(events, c), 0) == flying && Peak(events, 0, c) <= peak &&
    Evaluated(Run(events, c).history, 0) == Times(failed)
  }

  lemma StageBegins(events: seq<Event>, c: Config, flying: nat, failed: nat, peak: nat)
    requires Stage(events, c, flying, failed, peak) && flying < peak
    requires var o := Lookup(Run(events, c).entries, 0); Admit(o, 0, c) == (o, Admitted)
    ensures var more := events + [Event(Begin(0), 0)];
      Stage(more, c, flying + 1, failed, peak) && Lookup(Run(more, c).entries, 0) == Lookup(Run(events, c).entries, 0)
  {
    hide Admit, Settle, Evaluated, Run, InOrder, Times;
    OneMore(events, Event(Begin(0), 0), c);
    Told(Run(events, c).history, Attempt(0, 0, WasAdmitted), 0, c);
  }

  lemma StageEnds(events: seq<Event>, c: Config, flying: nat, failed: nat, peak: nat)
    requires Stage(events, c, flying, failed, peak) && 0 < flying <= peak
    ensures Stage(events + [Event(End(0, Failure), 0)], c, flying - 1, failed + 1, peak)
    ensures Lookup(Run(events + [Event(End(0, Failure), 0)], c).entries, 0)
      == Settle(Lookup(Run(events, c).entries, 0), Failure, 0, c)
  {
    hide Admit, Settle, Evaluated, Run, InOrder, Times;
    OneMore(events, Event(End(0, Failure), 0), c);
    Told(Run(events, c).history, Attempt(0, 0, Failed), 0, c);
    TimesMore(failed);
  }

  lemma {:induction false} StageTries(n: nat, c: Config, peak: nat)
    requires n < AtLeastOne(c.maxFailures) && c.window > 0 && peak >= 1
    ensures Stage(Tries(n), c, 0, n, peak) && Lookup(Run(Tries(n), c).entries, 0) == Kept(n)
  {
    hide Admit, Settle, Stage, Run, AtLeastOne;
    if n == 0 {
      NothingStaged(c, peak);
    } else {
      StageTries(n - 1, c, peak);
      OneTry(n - 1, c);
      var begin, end := Event(Begin(0), 0), Event(End(0, Failure), 0);
      StageBegins(Tries(n - 1), c, 0, n - 1, peak);
      StageEnds(Tries(n - 1) + [begin], c, 1, n - 1, peak);
      assert Tries(n) == Tries(n - 1) + [begin] + [end];
      BelowLimit(n, c);
    }
  }

  lemma BelowLimit(n: nat, c: Config)
    requires 0 < n < AtLeastOne(c.maxFailures)
    ensures n < c.maxFailures
  {
  }

  lemma NothingStaged(c: Config, peak: nat)
    ensures Stage([], c, 0, 0, peak) && Lookup(Run([], c).entries, 0) == Kept(0)
  {
    NothingYet(0, c);
  }

  function Same(e: Event, n: nat): (r: seq<Event>)
    ensures |r| == n
  {
    if n == 0 then [] else Same(e, n - 1) + [e]
  }

  lemma {:induction false} AllBegin(k: nat, c: Config, peak: nat)
    requires k <= peak && peak >= 1 && c.window > 0
    ensures var n := AtLeastOne(c.maxFailures) - 1;
      var events := Tries(n) + Same(Event(Begin(0), 0), k);
      Stage(events, c, k, n, peak) && Lookup(Run(events, c).entries, 0) == Kept(n)
  {
    hide Admit, Settle, Stage, Run, AtLeastOne;
    var n := AtLeastOne(c.maxFailures) - 1;
    StageTries(n, c, peak);
    OneTry(n, c);
    var begin := Event(Begin(0), 0);
    if k == 0 {
      assert Tries(n) + Same(begin, 0) == Tries(n);
    } else {
      AllBegin(k - 1, c, peak);
      StageBegins(Tries(n) + Same(begin, k - 1), c, k - 1, n, peak);
      assert Tries(n) + Same(begin, k) == Tries(n) + Same(begin, k - 1) + [begin];
    }
  }

  lemma {:induction false} AllEnd(j: nat, k: nat, c: Config)
    requires j <= k && k >= 1 && c.window > 0
    ensures var n := AtLeastOne(c.maxFailures) - 1;
      Stage(Tries(n) + Same(Event(Begin(0), 0), k) + Same(Event(End(0, Failure), 0), j), c, k - j, n + j, k)
  {
    hide Admit, Settle, Stage, Run, AtLeastOne;
    var n := AtLeastOne(c.maxFailures) - 1;
    var begun, end := Tries(n) + Same(Event(Begin(0), 0), k), Event(End(0, Failure), 0);
    AllBegin(k, c, k);
    if j == 0 {
      assert begun + Same(end, 0) == begun;
    } else {
      AllEnd(j - 1, k, c);
      StageEnds(begun + Same(end, j - 1), c, k - (j - 1), n + (j - 1), k);
      assert begun + Same(end, j) == begun + Same(end, j - 1) + [end];
    }
  }

  /** For any number at once there is a run with exactly as many failures evaluated in one window as the bound allows. */
  lemma BoundReached(k: nat, c: Config) returns (events: seq<Event>)
    requires k >= 1 && c.window > 0
    ensures InOrder(events, 0) && Peak(events, 0, c) <= k
    ensures |Pruned(Evaluated(Run(events, c).history, 0), 0 - c.window)| == AtLeastOne(c.maxFailures) - 1 + k
  {
    hide Evaluated, Run, AtLeastOne, InOrder, Flying, Peak, Pruned;
    var n := AtLeastOne(c.maxFailures) - 1;
    events := Tries(n) + Same(Event(Begin(0), 0), k) + Same(Event(End(0, Failure), 0), k);
    AllEnd(k, k, c);
    TimesPruned(n + k, 0 - c.window);
    assert |Times(n + k)| == n + k;
  }
}
