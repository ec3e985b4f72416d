/** The bounds of `PoolQuota` are reached: for every configuration and every number of provisions at once. */
module PoolQuotaReached {
  import opened Options
  import opened PoolState
  import opened PoolSystem
  import opened PoolOwnership
  import opened PoolQuota

  // ── Building runs ─────────────────────────────────────────────────────────

  ghost predicate Under(cs: seq<Core>, peak: nat, user: string, userPeak: nat) {
    forall i :: 0 <= i < |cs| ==> Peaks(cs[i], peak, user, userPeak)
  }

  /** A run that ends in `c`, with at most so many provisions at once. */
  ghost predicate Leads(
    cfg: DynamicConfig, cs: seq<Core>, events: seq<Event>, c: Core, peak: nat, user: string, userPeak: nat)
  {
    Trace(cfg, cs, events) && cs[|cs| - 1] == c && Under(cs, peak, user, userPeak)
  }

  lemma Extend(
    cfg: DynamicConfig, cs: seq<Core>, events: seq<Event>, c: Core, s: Step, peak: nat, user: string, userPeak: nat)
    requires Leads(cfg, cs, events, c, peak, user, userPeak) && Enabled(cfg, c, s)
    requires Peaks(Apply(cfg, c, 0, s), peak, user, userPeak)
    ensures Leads(cfg, cs + [Apply(cfg, c, 0, s)], events + [Event(0, s)], Apply(cfg, c, 0, s), peak, user, userPeak)
  {
    hide Enabled, Apply, Initial, Peaks;
  }

  // ── Requests served one after the other ───────────────────────────────────

  function Name(i: nat): (s: string)
    ensures |s| == i + 1
  {
    seq(i + 1, j => 'v')
  }

  /** All requests come from one user, whose name is empty, or each from another. */
  function Requester(i: nat, one: bool): string {
    if one then "" else Name(i)
  }

  /** After `n` requests, each served before the next. */
  ghost function Served(cfg: DynamicConfig, n: nat, one: bool): Core {
    if n == 0 then Core(Pool(map[], {}), map[], map[], {}, {}) else
    ServeOne(Served(cfg, n - 1, one), cfg.cidStart + n - 1, n - 1, Requester(n - 1, one))
  }

  ghost function ServeOne(c: Core, cid: nat, i: nat, user: string): Core {
    Insert(Define(Reserve(c, 0, cid, ForSession("s", user)), 0, Name(i), Name(i)), 0, 0)
  }

  ghost predicate CidsTaken(cfg: DynamicConfig, c: Core, n: nat) {
    forall d :: d in c.pool.used <==> cfg.cidStart <= d < cfg.cidStart + n
  }

  ghost predicate FreshFrom(c: Core, n: nat) {
    forall i :: i >= n ==> Name(i) !in c.names && Name(i) !in c.pids && Name(i) !in c.pool.vms
  }

  ghost predicate AllServing(c: Core) {
    forall k :: k in c.pool.vms ==> c.pool.vms[k].dynamic && c.pool.vms[k].state.Assigned?
  }

  ghost predicate UsersCounted(c: Core, n: nat, one: bool) {
    |UserIds(c.pool.vms, "")| == (if one then n else 0) &&
    (!one ==> forall i :: i >= n ==> |UserIds(c.pool.vms, Name(i))| == 0)
  }

  ghost predicate Well(cfg: DynamicConfig, c: Core, n: nat, one: bool) {
    && c.provisions == map[] && c.teardowns == map[]
    && CidsTaken(cfg, c, n) && FreshFrom(c, n) && AllServing(c)
    && |DynamicIds(c.pool.vms)| == n && UsersCounted(c, n, one)
  }

  lemma NoneServed(cfg: DynamicConfig, one: bool)
    ensures Well(cfg, Served(cfg, 0, one), 0, one) && Initial(Served(cfg, 0, one))
  {
    assert DynamicIds(map[]) == {};
    forall u: string ensures UserIds(map[], u) == {} {}
  }

  lemma UsersMore(c: Core, c': Core, n: nat, one: bool, cid: nat)
    requires UsersCounted(c, n, one) && Name(n) !in c.pool.vms
    requires c'.pool.vms ==
      c.pool.vms[Name(n) := NewEntry(Name(n), Name(n), cid, ForSession("s", Requester(n, one)), 0)]
    ensures UsersCounted(c', n + 1, one)
  {
    var e := NewEntry(Name(n), Name(n), cid, ForSession("s", Requester(n, one)), 0);
    UserAdd(c.pool.vms, Name(n), e, "");
    hide UserIds;
    forall i | i >= n + 1 && !one ensures |UserIds(c'.pool.vms, Name(i))| == 0 {
      UserAdd(c.pool.vms, Name(n), e, Name(i));
    }
  }

  lemma ServedOneMore(cfg: DynamicConfig, c: Core, n: nat, one: bool)
    requires Well(cfg, c, n, one)
    ensures Well(cfg, ServeOne(c, cfg.cidStart + n, n, Requester(n, one)), n + 1, one)
  {
    hide DynamicIds, UserIds, UsersCounted;
    var cid := cfg.cidStart + n;
    var c' := ServeOne(c, cid, n, Requester(n, one));
    var e := NewEntry(Name(n), Name(n), cid, ForSession("s", Requester(n, one)), 0);
    assert c'.pool.vms == c.pool.vms[Name(n) := e];
    DynamicAdd(c.pool.vms, Name(n), e);
    UsersMore(c, c', n, one, cid);
    assert c'.provisions == map[];
  }

  lemma {:induction false} ServedWell(cfg: DynamicConfig, n: nat, one: bool)
    ensures Well(cfg, Served(cfg, n, one), n, one)
  {
    hide Well, ServeOne;
    if n == 0 {
      NoneServed(cfg, one);
    } else {
      ServedWell(cfg, n - 1, one);
      ServedOneMore(cfg, Served(cfg, n - 1, one), n - 1, one);
    }
  }

  // ── Admission ─────────────────────────────────────────────────────────────

  /** A request of this user would be provisioned for, with the CID after the first `n`. */
  ghost predicate Admits(cfg: DynamicConfig, c: Core, n: nat, user: string) {
    NoneOffered(c.pool.vms, None) && NoneWarm(c.pool.vms) && WithinQuota(Some(cfg), c.pool.vms, user) &&
    CidsTaken(cfg, c, n)
  }

  lemma RequestAdmitted(cfg: DynamicConfig, c: Core, t: nat, n: nat, user: string)
    requires Admits(cfg, c, n, user) && cfg.cidStart + n <= cfg.cidEnd && t !in c.provisions
    ensures CanAdmit(cfg, c, Request(t, "s", None, user, Admitted(cfg.cidStart + n)))
  {
    hide NoneOffered, NoneWarm, WithinQuota;
  }

  lemma WellAdmits(cfg: DynamicConfig, c: Core, n: nat, one: bool, user: string)
    requires Well(cfg, c, n, one) && n < cfg.maxTotal && |UserIds(c.pool.vms, user)| < cfg.maxPerUser
    ensures Admits(cfg, c, n, user)
  {
    hide DynamicIds, UserIds;
  }

  lemma PeakOne(c: Core, t: nat, p: Provision, user: string)
    requires c.provisions == map[t := p]
    ensures |c.provisions| == 1 && |TasksOf(c.provisions, user)| <= 1
  {
    assert c.provisions.Keys == {t};
    assert TasksOf(c.provisions, user) == {} || TasksOf(c.provisions, user) == {t};
  }

  lemma ReserveStep(
    cfg: DynamicConfig, cs: seq<Core>, events: seq<Event>, c: Core, t: nat, n: nat, user: string,
    peak: nat, userPeak: nat)
    returns (cs': seq<Core>, events': seq<Event>)
    requires Admits(cfg, c, n, user) && cfg.cidStart + n <= cfg.cidEnd && t !in c.provisions
    requires Leads(cfg, cs, events, c, peak, "", userPeak)
    requires Peaks(Reserve(c, t, cfg.cidStart + n, ForSession("s", user)), peak, "", userPeak)
    ensures Leads(cfg, cs', events', Reserve(c, t, cfg.cidStart + n, ForSession("s", user)), peak, "", userPeak)
  {
    hide Leads, Admits, Peaks, Enabled, Apply, Reserve;
    RequestStep(cfg, c, t, n, user);
    var s := RequestFor(cfg, t, n, user);
    Extend(cfg, cs, events, c, s, peak, "", userPeak);
    cs', events' := cs + [Apply(cfg, c, 0, s)], events + [Event(0, s)];
  }

  ghost function RequestFor(cfg: DynamicConfig, t: nat, n: nat, user: string): Step {
    Admit(Request(t, "s", None, user, Admitted(cfg.cidStart + n)))
  }

  lemma RequestStep(cfg: DynamicConfig, c: Core, t: nat, n: nat, user: string)
    requires Admits(cfg, c, n, user) && cfg.cidStart + n <= cfg.cidEnd && t !in c.provisions
    ensures Enabled(cfg, c, RequestFor(cfg, t, n, user))
    ensures Apply(cfg, c, 0, RequestFor(cfg, t, n, user)) == Reserve(c, t, cfg.cidStart + n, ForSession("s", user))
  {
    hide Admits, Reserve, CanAdmit, OutcomeEffect;
    RequestAdmitted(cfg, c, t, n, user);
  }

  lemma CloneStep(
    cfg: DynamicConfig, cs: seq<Core>, events: seq<Event>, c: Core, t: nat, i: nat, peak: nat, userPeak: nat)
    returns (cs': seq<Core>, events': seq<Event>)
    requires t in c.provisions && c.provisions[t].phase.Cloning? && Name(i) !in c.names && Name(i) !in c.pids
    requires Leads(cfg, cs, events, c, peak, "", userPeak)
    ensures Leads(cfg, cs', events', Define(c, t, Name(i), Name(i)), peak, "", userPeak)
  {
    var s := Provisioning(t, CloneDone(Name(i), Name(i)));
    var c' := Define(c, t, Name(i), Name(i));
    assert Peaks(c, peak, "", userPeak);
    assert c'.provisions.Keys == c.provisions.Keys && TasksOf(c'.provisions, "") == TasksOf(c.provisions, "");
    assert Peaks(c', peak, "", userPeak);
    hide Leads, Peaks;
    assert Enabled(cfg, c, s) && Apply(cfg, c, 0, s) == c';
    Extend(cfg, cs, events, c, s, peak, "", userPeak);
    cs', events' := cs + [Apply(cfg, c, 0, s)], events + [Event(0, s)];
  }

  lemma StartStep(
    cfg: DynamicConfig, cs: seq<Core>, events: seq<Event>, c: Core, t: nat, peak: nat, userPeak: nat)
    returns (cs': seq<Core>, events': seq<Event>)
    requires t in c.provisions && c.provisions[t].phase.Cloned?
    requires Leads(cfg, cs, events, c, peak, "", userPeak)
    ensures Leads(cfg, cs', events', Insert(c, t, 0), peak, "", userPeak)
  {
    var s := Provisioning(t, StartDone);
    assert Peaks(c, peak, "", userPeak);
    PeaksLess(c, t, peak, userPeak);
    hide Leads, Peaks;
    assert Enabled(cfg, c, s) && Apply(cfg, c, 0, s) == Insert(c, t, 0);
    Extend(cfg, cs, events, c, s, peak, "", userPeak);
    cs', events' := cs + [Apply(cfg, c, 0, s)], events + [Event(0, s)];
  }

  lemma PeaksLess(c: Core, t: nat, peak: nat, userPeak: nat)
    requires t in c.provisions && c.provisions[t].phase.Cloned? && Peaks(c, peak, "", userPeak)
    ensures Peaks(Insert(c, t, 0), peak, "", userPeak)
  {
    var rest := c.provisions - {t};
    assert rest[t := c.provisions[t]] == c.provisions;
    TasksAdd(rest, t, c.provisions[t], "");
    hide TasksOf;
  }

  lemma ServeSteps(
    cfg: DynamicConfig, cs: seq<Core>, events: seq<Event>, c: Core, n: nat, one: bool, user: string,
    peak: nat, userPeak: nat)
    returns (cs': seq<Core>, events': seq<Event>)
    requires Well(cfg, c, n, one) && Admits(cfg, c, n, user) && cfg.cidStart + n <= cfg.cidEnd
    requires Leads(cfg, cs, events, c, peak, "", userPeak) && peak >= 1 && userPeak >= 1
    ensures Leads(cfg, cs', events', ServeOne(c, cfg.cidStart + n, n, user), peak, "", userPeak)
  {
    var c1 := Reserve(c, 0, cfg.cidStart + n, ForSession("s", user));
    assert c1.provisions == map[0 := c1.provisions[0]];
    PeakOne(c1, 0, c1.provisions[0], "");
    assert Peaks(c1, peak, "", userPeak);
    assert Name(n) !in c.names && Name(n) !in c.pids;
    hide Leads, Admits, Peaks, Well;
    cs', events' := ReserveStep(cfg, cs, events, c, 0, n, user, peak, userPeak);
    cs', events' := CloneStep(cfg, cs', events', c1, 0, n, peak, userPeak);
    cs', events' := StartStep(cfg, cs', events', Define(c1, 0, Name(n), Name(n)), 0, peak, userPeak);
  }

  lemma PeakNone(c: Core, user: string)
    requires c.provisions == map[]
    ensures |c.provisions| == 0 && |TasksOf(c.provisions, user)| == 0
  {
    assert TasksOf(c.provisions, user) == {};
  }

  lemma {:induction false} ServedTrace(cfg: DynamicConfig, n: nat, one: bool, peak: nat, userPeak: nat)
    returns (cs: seq<Core>, events: seq<Event>)
    requires n <= cfg.maxTotal && n <= (if one then cfg.maxPerUser else n) && cfg.maxPerUser >= 1
    requires cfg.cidStart + n <= cfg.cidEnd + 1 && peak >= 1 && userPeak >= 1
    ensures Leads(cfg, cs, events, Served(cfg, n, one), peak, "", userPeak)
  {
    hide Well, ServeOne, Peaks, Enabled, Apply, DynamicIds, UserIds, Initial, Admits;
    if n == 0 {
      NoneServed(cfg, one);
      cs, events := [Served(cfg, 0, one)], [];
      PeakNone(cs[0], "");
      assert Peaks(cs[0], peak, "", userPeak) by { StartPeaks(cs[0], peak, userPeak); }
    } else {
      var before, beforeEvents := ServedTrace(cfg, n - 1, one, peak, userPeak);
      var c := Served(cfg, n - 1, one);
      ServedWell(cfg, n - 1, one);
      UserBelow(cfg, c, n - 1, one);
      WellAdmits(cfg, c, n - 1, one, Requester(n - 1, one));
      hide Leads;
      cs, events := ServeSteps(cfg, before, beforeEvents, c, n - 1, one, Requester(n - 1, one), peak, userPeak);
    }
  }

  lemma StartPeaks(c: Core, peak: nat, userPeak: nat)
    requires c.provisions == map[]
    ensures Peaks(c, peak, "", userPeak)
  {
    PeakNone(c, "");
  }

  lemma UserBelow(cfg: DynamicConfig, c: Core, n: nat, one: bool)
    requires Well(cfg, c, n, one) && cfg.maxPerUser >= 1 && (one ==> n < cfg.maxPerUser)
    ensures |UserIds(c.pool.vms, Requester(n, one))| < cfg.maxPerUser
  {
    hide UserIds, DynamicIds;
  }

  // ── Requests that overlap ─────────────────────────────────────────────────

  /** `j` more requests of the nameless user, each with its clone awaited. */
  ghost function Flights(cfg: DynamicConfig, c: Core, t: nat, n: nat, j: nat): Core {
    if j == 0 then c else
    Reserve(Flights(cfg, c, t, n, j - 1), t + j - 1, cfg.cidStart + n + j - 1, ForSession("s", ""))
  }

  ghost predicate TasksBelow(c: Core, t: nat) {
    forall u :: u in c.provisions ==> u < t
  }

  ghost predicate SameBut(c: Core, f: Core) {
    f.pool.vms == c.pool.vms && f.names == c.names && f.pids == c.pids && f.teardowns == c.teardowns &&
    forall u :: u in c.provisions ==> u in f.provisions && f.provisions[u] == c.provisions[u]
  }

  ghost predicate Counts(c: Core, f: Core, j: nat) {
    |f.provisions| == |c.provisions| + j && |TasksOf(f.provisions, "")| == |TasksOf(c.provisions, "")| + j
  }

  /** The flights change CIDs and provisions only, and these as they should. */
  ghost predicate Flying(cfg: DynamicConfig, c: Core, f: Core, t: nat, n: nat, j: nat) {
    SameBut(c, f) && CidsTaken(cfg, f, n + j) && TasksBelow(f, t + j) && Counts(c, f, j)
  }

  lemma OneFlight(cfg: DynamicConfig, c: Core, f: Core, t: nat, n: nat, j: nat)
    requires Flying(cfg, c, f, t, n, j) && TasksBelow(c, t)
    ensures Flying(cfg, c, Reserve(f, t + j, cfg.cidStart + n + j, ForSession("s", "")), t, n, j + 1)
  {
    hide SameBut, CidsTaken, TasksBelow, Counts, Reserve;
    TaskMore(f, t + j, cfg.cidStart + n + j);
    CidMore(cfg, f, t + j, n + j);
    CountMore(c, f, j, t + j, cfg.cidStart + n + j);
    SameMore(c, f, t + j, cfg.cidStart + n + j);
  }

  lemma TaskMore(f: Core, t: nat, cid: nat)
    requires TasksBelow(f, t)
    ensures t !in f.provisions && TasksBelow(Reserve(f, t, cid, ForSession("s", "")), t + 1)
  {
  }

  lemma CidMore(cfg: DynamicConfig, f: Core, t: nat, n: nat)
    requires CidsTaken(cfg, f, n)
    ensures CidsTaken(cfg, Reserve(f, t, cfg.cidStart + n, ForSession("s", "")), n + 1)
  {
  }

  lemma CountMore(c: Core, f: Core, j: nat, t: nat, cid: nat)
    requires Counts(c, f, j) && t !in f.provisions
    ensures Counts(c, Reserve(f, t, cid, ForSession("s", "")), j + 1)
  {
    TasksAdd(f.provisions, t, Provision(cid, ForSession("s", ""), Cloning), "");
    hide TasksOf;
  }

  lemma SameMore(c: Core, f: Core, t: nat, cid: nat)
    requires SameBut(c, f) && t !in f.provisions
    ensures SameBut(c, Reserve(f, t, cid, ForSession("s", "")))
  {
  }

  lemma {:induction false} FlightsFly(cfg: DynamicConfig, c: Core, t: nat, n: nat, j: nat)
    requires CidsTaken(cfg, c, n) && TasksBelow(c, t)
    ensures Flying(cfg, c, Flights(cfg, c, t, n, j), t, n, j)
  {
    hide Flying, CidsTaken, TasksBelow, Reserve;
    if j == 0 {
      NoneFlying(cfg, c, t, n);
    } else {
      FlightsFly(cfg, c, t, n, j - 1);
      OneFlight(cfg, c, Flights(cfg, c, t, n, j - 1), t, n, j - 1);
    }
  }

  lemma NoneFlying(cfg: DynamicConfig, c: Core, t: nat, n: nat)
    requires CidsTaken(cfg, c, n) && TasksBelow(c, t)
    ensures Flying(cfg, c, c, t, n, 0)
  {
    hide TasksOf;
  }

  lemma FlyingPeaks(cfg: DynamicConfig, c: Core, f: Core, t: nat, n: nat, j: nat, peak: nat, userPeak: nat)
    requires Flying(cfg, c, f, t, n, j)
    requires |c.provisions| + j <= peak && |TasksOf(c.provisions, "")| + j <= userPeak
    ensures Peaks(f, peak, "", userPeak)
  {
    hide TasksOf;
  }

  lemma FlyingAdmits(cfg: DynamicConfig, c: Core, f: Core, t: nat, n: nat, j: nat)
    requires Flying(cfg, c, f, t, n, j) && Admits(cfg, c, n, "")
    ensures Admits(cfg, f, n + j, "") && t + j !in f.provisions
  {
    hide NoneOffered, NoneWarm, WithinQuota, TasksOf;
  }

  lemma {:induction false} FlightsTrace(
    cfg: DynamicConfig, cs: seq<Core>, events: seq<Event>, c: Core, t: nat, n: nat, j: nat, peak: nat, userPeak: nat)
    returns (cs': seq<Core>, events': seq<Event>)
    requires Leads(cfg, cs, events, c, peak, "", userPeak) && Admits(cfg, c, n, "") && TasksBelow(c, t)
    requires cfg.cidStart + n + j <= cfg.cidEnd + 1
    requires |c.provisions| + j <= peak && |TasksOf(c.provisions, "")| + j <= userPeak
    ensures Leads(cfg, cs', events', Flights(cfg, c, t, n, j), peak, "", userPeak)
  {
    hide Leads, Admits, TasksOf, CidsTaken, TasksBelow, Flying, Peaks, Reserve;
    if j == 0 {
      cs', events' := cs, events;
    } else {
      var before, beforeEvents := FlightsTrace(cfg, cs, events, c, t, n, j - 1, peak, userPeak);
      var f := Flights(cfg, c, t, n, j - 1);
      StillAdmits(cfg, c, n, "");
      FlightsFly(cfg, c, t, n, j - 1);
      FlyingAdmits(cfg, c, f, t, n, j - 1);
      FlightsFly(cfg, c, t, n, j);
      FlyingPeaks(cfg, c, Flights(cfg, c, t, n, j), t, n, j, peak, userPeak);
      assert cfg.cidStart + n + j - 1 == cfg.cidStart + (n + j - 1);
      cs', events' := ReserveStep(cfg, before, beforeEvents, f, t + j - 1, n + j - 1, "", peak, userPeak);
    }
  }

  lemma StillAdmits(cfg: DynamicConfig, c: Core, n: nat, user: string)
    requires Admits(cfg, c, n, user)
    ensures CidsTaken(cfg, c, n)
  {
  }

  /**
   For every quota and every number `k` of requests at once, some run has `max_total` - 1 + `k`
   dynamic VMs and provisions: `max_total` - 1 requests of different users served one by one, then `k`
   together.
   */
  lemma TotalReached(cfg: DynamicConfig, k: nat) returns (cs: seq<Core>, events: seq<Event>)
    requires cfg.maxTotal >= 1 && cfg.maxPerUser >= 1 && k >= 1
    requires cfg.cidStart + cfg.maxTotal - 1 + k <= cfg.cidEnd + 1
    ensures Trace(cfg, cs, events) && forall i :: 0 <= i < |cs| ==> |cs[i].provisions| <= k
    ensures Load(cs[|cs| - 1]) == cfg.maxTotal - 1 + k
  {
    hide Peaks, Initial, Enabled, Apply, DynamicIds, UserIds, TasksOf;
    var n := cfg.maxTotal - 1;
    var c := Served(cfg, n, false);
    var served, servedEvents := ServedTrace(cfg, n, false, k, k);
    ServedWell(cfg, n, false);
    PeakNone(c, "");
    WellAdmits(cfg, c, n, false, "");
    hide Well, Admits;
    cs, events := FlightsTrace(cfg, served, servedEvents, c, 0, n, k, k, k);
    StillAdmits(cfg, c, n, "");
    FlightsFly(cfg, c, 0, n, k);
    assert |DynamicIds(c.pool.vms)| == n by { WellCounts(cfg, c, n, false); }
    forall i | 0 <= i < |cs| ensures |cs[i].provisions| <= k { PeakMeans(cs[i], k, "", k); }
  }

  lemma WellCounts(cfg: DynamicConfig, c: Core, n: nat, one: bool)
    requires Well(cfg, c, n, one)
    ensures |DynamicIds(c.pool.vms)| == n && (one ==> |UserIds(c.pool.vms, "")| == n)
  {
  }

  lemma PeakMeans(c: Core, peak: nat, user: string, userPeak: nat)
    requires Peaks(c, peak, user, userPeak)
    ensures |c.provisions| <= peak && |TasksOf(c.provisions, user)| <= userPeak
  {
  }

  // ── A warm VM on top ──────────────────────────────────────────────────────

  lemma RefillStep(
    cfg: DynamicConfig, cs: seq<Core>, events: seq<Event>, c: Core, n: nat, one: bool, peak: nat, userPeak: nat)
    returns (cs': seq<Core>, events': seq<Event>)
    requires Well(cfg, c, n, one) && n < cfg.maxTotal && cfg.minReady >= 1 && cfg.cidStart + n <= cfg.cidEnd
    requires Leads(cfg, cs, events, c, peak, "", userPeak) && peak >= 1
    ensures Leads(cfg, cs', events', Reserve(c, 0, cfg.cidStart + n, ForWarmPool), peak, "", userPeak)
  {
    hide Leads, Well, Peaks, Enabled, Apply, Reserve;
    var s := Admit(Refill(0, cfg.cidStart + n));
    RefillEnabled(cfg, c, n, one);
    WellAlone(cfg, c, n, one);
    RefillPeaks(c, cfg.cidStart + n, peak, userPeak);
    Extend(cfg, cs, events, c, s, peak, "", userPeak);
    cs', events' := cs + [Apply(cfg, c, 0, s)], events + [Event(0, s)];
  }

  lemma WellAlone(cfg: DynamicConfig, c: Core, n: nat, one: bool)
    requires Well(cfg, c, n, one)
    ensures c.provisions == map[] && WarmIds(c.pool.vms) == {}
  {
    hide DynamicIds, UserIds;
  }

  lemma RefillEnabled(cfg: DynamicConfig, c: Core, n: nat, one: bool)
    requires Well(cfg, c, n, one) && n < cfg.maxTotal && cfg.minReady >= 1 && cfg.cidStart + n <= cfg.cidEnd
    ensures Enabled(cfg, c, Admit(Refill(0, cfg.cidStart + n)))
    ensures Apply(cfg, c, 0, Admit(Refill(0, cfg.cidStart + n))) == Reserve(c, 0, cfg.cidStart + n, ForWarmPool)
  {
    WellAlone(cfg, c, n, one);
    hide DynamicIds, WarmIds, UserIds, UsersCounted, FreshFrom, AllServing, Reserve;
  }

  lemma RefillPeaks(c: Core, cid: nat, peak: nat, userPeak: nat)
    requires c.provisions == map[] && peak >= 1
    ensures Peaks(Reserve(c, 0, cid, ForWarmPool), peak, "", userPeak)
  {
    var c' := Reserve(c, 0, cid, ForWarmPool);
    assert c'.provisions.Keys == {0} && TasksOf(c'.provisions, "") == {};
  }

  /** One warm VM among serving ones, with nothing else idle. */
  ghost predicate OnlyWarm(c: Core, id: string) {
    id in c.pool.vms && c.pool.vms[id].state.WarmReady? && c.pool.vms[id].dynamic && c.pool.vms[id].user == None &&
    forall k :: k in c.pool.vms && k != id ==> c.pool.vms[k].dynamic && c.pool.vms[k].state.Assigned?
  }

  lemma WarmStep(
    cfg: DynamicConfig, cs: seq<Core>, events: seq<Event>, c: Core, id: string, t: nat, peak: nat, userPeak: nat)
    returns (cs': seq<Core>, events': seq<Event>, c': Core)
    requires OnlyWarm(c, id) && t !in c.provisions
    requires |DynamicIds(c.pool.vms)| < cfg.maxTotal && |UserIds(c.pool.vms, "")| < cfg.maxPerUser
    requires Leads(cfg, cs, events, c, peak, "", userPeak)
    ensures Leads(cfg, cs', events', c', peak, "", userPeak)
    ensures c'.provisions == c.provisions && |UserIds(c'.pool.vms, "")| == |UserIds(c.pool.vms, "")| + 1
  {
    hide DynamicIds, UserIds, TasksOf;
    var s := Admit(Request(t, "s", None, "", WarmVm(id)));
    assert Enabled(cfg, c, s);
    c' := Apply(cfg, c, 0, s);
    var e := Assign(c.pool.vms[id], "s", 0).(user := Some(""));
    assert c' == UpdateEntry(c, id, e);
    LoadWarm(c, id, e, "");
    assert Peaks(c, peak, "", userPeak);
    assert Peaks(c', peak, "", userPeak);
    hide Leads, Peaks, Enabled, Apply, OnlyWarm;
    Extend(cfg, cs, events, c, s, peak, "", userPeak);
    cs', events' := cs + [c'], events + [Event(0, s)];
  }

  lemma RefillAdmits(cfg: DynamicConfig, c: Core, n: nat, one: bool, user: string)
    requires Well(cfg, c, n, one) && n < cfg.maxTotal && |UserIds(c.pool.vms, user)| < cfg.maxPerUser
    ensures var r := Define(Reserve(c, 0, cfg.cidStart + n, ForWarmPool), 0, Name(n), Name(n));
      && Admits(cfg, r, n + 1, user) && TasksBelow(r, 1) && |r.provisions| == 1 && |TasksOf(r.provisions, "")| == 0
      && r.pool.vms == c.pool.vms && r.provisions[0] == Provision(cfg.cidStart + n, ForWarmPool, Cloned(Name(n), Name(n)))
  {
    hide DynamicIds, UserIds;
    var r := Define(Reserve(c, 0, cfg.cidStart + n, ForWarmPool), 0, Name(n), Name(n));
    assert r.provisions.Keys == {0} && TasksOf(r.provisions, "") == {};
  }

  lemma InsertWarm(cfg: DynamicConfig, c: Core, f: Core, n: nat, one: bool, k: nat)
    requires Well(cfg, c, n, one) && f.pool.vms == c.pool.vms && 0 in f.provisions
    requires f.provisions[0] == Provision(cfg.cidStart + n, ForWarmPool, Cloned(Name(n), Name(n)))
    requires |TasksOf(f.provisions, "")| == k
    ensures var i := Insert(f, 0, 0);
      && OnlyWarm(i, Name(n)) && |DynamicIds(i.pool.vms)| == n + 1
      && |UserIds(i.pool.vms, "")| == |UserIds(c.pool.vms, "")| && |TasksOf(i.provisions, "")| == k
  {
    var e := NewEntry(Name(n), Name(n), cfg.cidStart + n, ForWarmPool, 0);
    WarmAmongServing(cfg, c, n, one, e);
    assert Name(n) !in c.pool.vms && |DynamicIds(c.pool.vms)| == n;
    hide DynamicIds, UserIds, TasksOf, OnlyWarm, Well;
    DynamicAdd(c.pool.vms, Name(n), e);
    UserAdd(c.pool.vms, Name(n), e, "");
    assert Insert(f, 0, 0).pool.vms == c.pool.vms[Name(n) := e];
    RefillGone(f);
  }

  lemma WarmAmongServing(cfg: DynamicConfig, c: Core, n: nat, one: bool, e: Entry)
    requires Well(cfg, c, n, one) && e == NewEntry(Name(n), Name(n), cfg.cidStart + n, ForWarmPool, 0)
    ensures forall i: Core :: i.pool.vms == c.pool.vms[Name(n) := e] ==> OnlyWarm(i, Name(n))
  {
    hide DynamicIds, UserIds;
  }

  lemma RefillGone(f: Core)
    requires 0 in f.provisions && f.provisions[0].phase.Cloned? && f.provisions[0].purpose.ForWarmPool?
    ensures |TasksOf(Insert(f, 0, 0).provisions, "")| == |TasksOf(f.provisions, "")|
  {
    assert TasksOf(Insert(f, 0, 0).provisions, "") == TasksOf(f.provisions, "");
  }

  /**
   The user's bound is reached too: `max_per_user` - 1 requests served, `k` of them together while the pool is
   being refilled, and then the warm VM.
   */
  lemma UserReached(cfg: DynamicConfig, k: nat) returns (cs: seq<Core>, events: seq<Event>)
    requires cfg.maxTotal > cfg.maxPerUser >= 1 && cfg.minReady >= 1 && k >= 1
    requires cfg.cidStart + cfg.maxPerUser + k <= cfg.cidEnd + 1
    ensures Trace(cfg, cs, events) && forall i :: 0 <= i < |cs| ==> |TasksOf(cs[i].provisions, "")| <= k
    ensures UserLoad(cs[|cs| - 1], "") == cfg.maxPerUser + k
  {
    hide Peaks, Initial, Enabled, Apply, DynamicIds, UserIds, TasksOf, Well, Admits, Reserve, Define, Insert,
      OnlyWarm, Flying, TasksBelow;
    var n := cfg.maxPerUser - 1;
    var c := Served(cfg, n, true);
    cs, events := ServedTrace(cfg, n, true, k + 1, k);
    ServedWell(cfg, n, true);
    WellCounts(cfg, c, n, true);
    cs, events := RefillStep(cfg, cs, events, c, n, true, k + 1, k);
    cs, events, c := WithRefill(cfg, cs, events, c, n, k);
    assert |TasksOf(c.provisions, "")| == k;
    forall i | 0 <= i < |cs| ensures |TasksOf(cs[i].provisions, "")| <= k { PeakMeans(cs[i], k + 1, "", k); }
  }

  lemma WithRefill(cfg: DynamicConfig, cs: seq<Core>, events: seq<Event>, c: Core, n: nat, k: nat)
    returns (cs': seq<Core>, events': seq<Event>, last: Core)
    requires Well(cfg, c, n, true) && n + 1 == cfg.maxPerUser < cfg.maxTotal
    requires cfg.cidStart + n + 1 + k <= cfg.cidEnd + 1
    requires Leads(cfg, cs, events, Reserve(c, 0, cfg.cidStart + n, ForWarmPool), k + 1, "", k)
    ensures Leads(cfg, cs', events', last, k + 1, "", k)
    ensures |UserIds(last.pool.vms, "")| == n + 1 && |TasksOf(last.provisions, "")| == k
  {
    var r0 := Reserve(c, 0, cfg.cidStart + n, ForWarmPool);
    assert Name(n) !in c.names && Name(n) !in c.pids && r0.provisions[0].phase.Cloning?;
    WellCounts(cfg, c, n, true);
    RefillAdmits(cfg, c, n, true, "");
    hide Leads, Peaks, Well, Admits, DynamicIds, UserIds, TasksOf, Define, Insert, OnlyWarm, Flying;
    cs', events' := CloneStep(cfg, cs, events, r0, 0, n, k + 1, k);
    var r := Define(r0, 0, Name(n), Name(n));
    cs', events' := FlightsTrace(cfg, cs', events', r, 1, n + 1, k, k + 1, k);
    StillAdmits(cfg, r, n + 1, "");
    FlightsFly(cfg, r, 1, n + 1, k);
    var f := Flights(cfg, r, 1, n + 1, k);
    FlownRefill(cfg, r, f, n, k);
    InsertWarm(cfg, c, f, n, true, k);
    cs', events' := StartStep(cfg, cs', events', f, 0, k + 1, k);
    cs', events', last := WarmStep(cfg, cs', events', Insert(f, 0, 0), Name(n), k + 1, k + 1, k);
  }

  lemma FlownRefill(cfg: DynamicConfig, r: Core, f: Core, n: nat, k: nat)
    requires Flying(cfg, r, f, 1, n + 1, k) && 0 in r.provisions && r.provisions[0].phase.Cloned?
    ensures 0 in f.provisions && f.provisions[0] == r.provisions[0] && f.pool.vms == r.pool.vms
    ensures |TasksOf(f.provisions, "")| == |TasksOf(r.provisions, "")| + k
    ensures k + 1 !in Insert(f, 0, 0).provisions
  {
    hide TasksOf;
  }
}
