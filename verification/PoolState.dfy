/**
 The data of the broker's VM pool and the effect of each of its operations, as functions on
 values. `VmPool` (the class) implements them in place; `PoolSystem` interleaves them.
 */
module PoolState {
  import opened Options

  const NANOS_PER_SEC: int := 1_000_000_000

  datatype VmState =
    | Available
    | WarmReady(since: int)
    | Assigned(session: string, since: int)
    | Initializing
    | Unhealthy(since: int)
    | Disabled

  datatype Entry = Entry(
    id: string,
    tags: seq<string>,
    state: VmState,
    served: nat,
    dynamic: bool,
    providerId: Option<string>,
    cid: Option<nat>,
    user: Option<string>)

  datatype DynamicConfig = DynamicConfig(
    cidStart: nat,
    cidEnd: nat,
    minReady: nat,
    maxTotal: nat,
    maxPerUser: nat,
    graceSecs: nat,
    template: string,
    protectedVms: seq<string>)

  /** A VM as the hypervisor lists it. */
  datatype ProviderVm = ProviderVm(providerId: string, name: Option<string>)

  /** The two shared structures an operation may change: the entries and the CIDs in use. */
  datatype Pool = Pool(vms: map<string, Entry>, used: set<nat>)

  /** Clock readings are nanoseconds; ages are whole seconds, truncated toward zero. */
  function WholeSeconds(d: int): int {
    if d >= 0 then d / NANOS_PER_SEC else -((-d) / NANOS_PER_SEC)
  }

  /** At least so many seconds, as counted from a difference of the clock: parts of a second are dropped. */
  ghost predicate AtLeast(d: int, secs: nat) {
    if secs == 0 then d > -NANOS_PER_SEC else d >= secs * NANOS_PER_SEC
  }

  lemma SecondsPassed(d: int, secs: nat)
    ensures WholeSeconds(d) >= secs <==> AtLeast(d, secs)
  {
  }

  // ── CID allocation ────────────────────────────────────────────────────────

  /** `r` is the least CID of [lo..hi] outside `used`, or None when there is none. */
  ghost predicate IsLowestFree(used: set<nat>, lo: nat, hi: nat, r: Option<nat>) {
    match r
    case Some(c) => lo <= c <= hi && c !in used && forall d :: lo <= d < c ==> d in used
    case None => forall d :: lo <= d <= hi ==> d in used
  }

  // ── Searching the entries ─────────────────────────────────────────────────

  predicate Offered(e: Entry, tag: Option<string>) {
    e.state.Available? && (tag.Some? ==> tag.value in e.tags)
  }

  ghost predicate NoneOffered(vms: map<string, Entry>, tag: Option<string>) {
    forall k :: k in vms ==> !Offered(vms[k], tag)
  }

  /** An offered entry that has served fewest sessions; ties are the map's own choice. */
  ghost predicate LeastServed(vms: map<string, Entry>, tag: Option<string>, id: string) {
    && id in vms && Offered(vms[id], tag)
    && forall k :: k in vms && Offered(vms[k], tag) ==> vms[id].served <= vms[k].served
  }

  /** The choice of `assign`: the preferred tag first, any available entry otherwise. */
  ghost predicate AssignPick(vms: map<string, Entry>, tag: Option<string>, id: string) {
    || LeastServed(vms, tag, id)
    || (NoneOffered(vms, tag) && LeastServed(vms, None, id))
  }

  ghost predicate NoneWarm(vms: map<string, Entry>) {
    forall k :: k in vms ==> !vms[k].state.WarmReady?
  }

  ghost predicate OldestWarm(vms: map<string, Entry>, id: string) {
    && id in vms && vms[id].state.WarmReady?
    && forall k :: k in vms && vms[k].state.WarmReady? ==> vms[id].state.since <= vms[k].state.since
  }

  function DynamicIds(vms: map<string, Entry>): set<string> {
    set k | k in vms && vms[k].dynamic
  }

  function UserIds(vms: map<string, Entry>, user: string): set<string> {
    set k | k in vms && vms[k].dynamic && vms[k].user == Some(user)
  }

  function WarmIds(vms: map<string, Entry>): set<string> {
    set k | k in vms && vms[k].state.WarmReady?
  }

  lemma DynamicAdd(vms: map<string, Entry>, id: string, e: Entry)
    requires id !in vms && e.dynamic
    ensures |DynamicIds(vms[id := e])| == |DynamicIds(vms)| + 1
  {
    assert DynamicIds(vms[id := e]) == DynamicIds(vms) + {id};
  }

  function ProviderIds(vms: map<string, Entry>): set<string> {
    set k | k in vms && vms[k].providerId.Some? :: vms[k].providerId.value
  }

  // ── Assignment ────────────────────────────────────────────────────────────

  function Assign(e: Entry, session: string, now: int): Entry {
    e.(state := Assigned(session, now), served := e.served + 1)
  }

  /** How the first await-free segment of `assign_or_provision` may end. */
  datatype Outcome =
    | StaticVm(id: string)
    | QuotaReached
    | UserQuotaReached
    | WarmVm(id: string)
    | NotConfigured
    | CidsExhausted
    | Admitted(cid: nat)

  predicate WithinQuota(cfg: Option<DynamicConfig>, vms: map<string, Entry>, user: string) {
    cfg.Some? ==>
      |DynamicIds(vms)| < cfg.value.maxTotal && |UserIds(vms, user)| < cfg.value.maxPerUser
  }

  /** Which outcome each pool allows: the order of the branches of the source. */
  ghost predicate OutcomeAllowed(
    cfg: Option<DynamicConfig>, p: Pool, tag: Option<string>, user: string, o: Outcome)
  {
    match o
    case StaticVm(id) => AssignPick(p.vms, tag, id)
    case QuotaReached =>
      NoneOffered(p.vms, None) && cfg.Some? && |DynamicIds(p.vms)| >= cfg.value.maxTotal
    case UserQuotaReached =>
      && NoneOffered(p.vms, None) && cfg.Some? && |DynamicIds(p.vms)| < cfg.value.maxTotal
      && |UserIds(p.vms, user)| >= cfg.value.maxPerUser
    case WarmVm(id) =>
      NoneOffered(p.vms, None) && WithinQuota(cfg, p.vms, user) && OldestWarm(p.vms, id)
    case NotConfigured =>
      NoneOffered(p.vms, None) && NoneWarm(p.vms) && cfg.None?
    case CidsExhausted =>
      && NoneOffered(p.vms, None) && WithinQuota(cfg, p.vms, user) && NoneWarm(p.vms)
      && cfg.Some? && IsLowestFree(p.used, cfg.value.cidStart, cfg.value.cidEnd, None)
    case Admitted(cid) =>
      && NoneOffered(p.vms, None) && WithinQuota(cfg, p.vms, user) && NoneWarm(p.vms)
      && cfg.Some? && IsLowestFree(p.used, cfg.value.cidStart, cfg.value.cidEnd, Some(cid))
  }

  /** Some entry is in the state, as the source tests it. */
  ghost predicate AnyAvailable(vms: map<string, Entry>) {
    exists k :: k in vms && vms[k].state == Available
  }

  ghost predicate AnyWarm(vms: map<string, Entry>) {
    exists k :: k in vms && vms[k].state.WarmReady?
  }

  ghost predicate TotalFull(cfg: Option<DynamicConfig>, vms: map<string, Entry>) {
    cfg.Some? && |set k | k in vms && vms[k].dynamic| >= cfg.value.maxTotal
  }

  ghost predicate UserFull(cfg: Option<DynamicConfig>, vms: map<string, Entry>, user: string) {
    cfg.Some? && |set k | k in vms && vms[k].dynamic && vms[k].user == Some(user)| >= cfg.value.maxPerUser
  }

  /** Which of the outcomes it is: the first of these tests that succeeds decides. */
  lemma OutcomeKinds(cfg: Option<DynamicConfig>, p: Pool, tag: Option<string>, user: string, o: Outcome)
    requires OutcomeAllowed(cfg, p, tag, user, o)
    ensures o.StaticVm? <==> AnyAvailable(p.vms)
    ensures !o.StaticVm? ==> (o.QuotaReached? <==> TotalFull(cfg, p.vms))
    ensures !o.StaticVm? && !o.QuotaReached? ==> (o.UserQuotaReached? <==> UserFull(cfg, p.vms, user))
    ensures o.WarmVm? || o.NotConfigured? || o.CidsExhausted? || o.Admitted? ==> (o.WarmVm? <==> AnyWarm(p.vms))
    ensures o.NotConfigured? || o.CidsExhausted? || o.Admitted? ==> (o.NotConfigured? <==> cfg.None?)
    ensures o.CidsExhausted? || o.Admitted? ==>
      (o.CidsExhausted? <==> forall c :: cfg.value.cidStart <= c <= cfg.value.cidEnd ==> c in p.used)
    ensures o.Admitted? ==>
      && cfg.value.cidStart <= o.cid <= cfg.value.cidEnd && o.cid !in p.used
      && forall c :: cfg.value.cidStart <= c < o.cid ==> c in p.used
  {
    match o
    case StaticVm(id) => assert p.vms[id].state == Available;
    case _ =>
      assert forall k :: k in p.vms && p.vms[k].state == Available ==> Offered(p.vms[k], None);
      assert DynamicIds(p.vms) == set k | k in p.vms && p.vms[k].dynamic;
      assert UserIds(p.vms, user) == set k | k in p.vms && p.vms[k].dynamic && p.vms[k].user == Some(user);
  }

  function OutcomeEffect(p: Pool, session: string, user: string, now: int, o: Outcome): Pool
    requires o.StaticVm? || o.WarmVm? ==> o.id in p.vms
  {
    match o
    case StaticVm(id) => p.(vms := p.vms[id := Assign(p.vms[id], session, now)])
    case WarmVm(id) => p.(vms := p.vms[id := Assign(p.vms[id], session, now).(user := Some(user))])
    case Admitted(cid) => p.(used := p.used + {cid})
    case _ => p
  }

  // ── Provisioning ──────────────────────────────────────────────────────────

  /** Who a VM is being provisioned for. */
  datatype Purpose = ForWarmPool | ForSession(session: string, user: string)

  function NewEntry(name: string, pid: string, cid: nat, purpose: Purpose, now: int): (e: Entry)
    ensures e.id == name && e.dynamic && e.providerId == Some(pid) && e.cid == Some(cid)
  {
    match purpose
    case ForWarmPool =>
      Entry(name, ["dynamic"], WarmReady(now), 0, true, Some(pid), Some(cid), None)
    case ForSession(session, user) =>
      Entry(name, ["dynamic"], Assigned(session, now), 1, true, Some(pid), Some(cid), Some(user))
  }

  // ── Release and sweeps ────────────────────────────────────────────────────

  predicate OwnedBy(vms: map<string, Entry>, vm: string, session: string) {
    vm in vms && vms[vm].state.Assigned? && vms[vm].state.session == session
  }

  function CidSet(c: Option<nat>): set<nat> {
    if c.Some? then {c.value} else {}
  }

  /** The end of a dynamic release: the CID is freed, whatever stands under `vm` removed. */
  function Drop(p: Pool, vm: string, cid: Option<nat>): Pool {
    Pool(p.vms - {vm}, p.used - CidSet(cid))
  }

  /** The dynamic entries whose VM is absent from a listing of the hypervisor. */
  function StaleIds(vms: map<string, Entry>, listed: set<string>): set<string> {
    set k | k in vms && vms[k].dynamic && vms[k].providerId.Some? && vms[k].providerId.value !in listed
  }

  function CidsOf(vms: map<string, Entry>, ids: set<string>): set<nat> {
    set k | k in ids && k in vms && vms[k].cid.Some? :: vms[k].cid.value
  }

  function DropAll(p: Pool, ids: set<string>): Pool {
    Pool(p.vms - ids, p.used - CidsOf(p.vms, ids))
  }

  // ── Health checks ─────────────────────────────────────────────────────────

  function Checked(e: Entry, healthy: bool, now: int): Entry {
    if !healthy && e.state.Available? then e.(state := Unhealthy(now))
    else if healthy && e.state.Unhealthy? then e.(state := Available)
    else e
  }

  // ── Orphans ───────────────────────────────────────────────────────────────

  /** Neither the template, nor a protected VM, nor known to the pool. */
  predicate IsOrphan(cfg: DynamicConfig, vm: ProviderVm, known: set<string>) {
    var name := if vm.name.Some? then vm.name.value else "";
    && name != cfg.template && vm.providerId != cfg.template
    && name !in cfg.protectedVms
    && vm.providerId !in known
  }

  /** By its name and id: neither the template nor one of the protected VMs. */
  ghost predicate Deletable(cfg: DynamicConfig, vm: ProviderVm) {
    var name := if vm.name == None then "" else vm.name.value;
    !(name == cfg.template || vm.providerId == cfg.template) &&
    forall i :: 0 <= i < |cfg.protectedVms| ==> cfg.protectedVms[i] != name
  }

  lemma OrphanIff(cfg: DynamicConfig, vm: ProviderVm, known: set<string>)
    ensures IsOrphan(cfg, vm, known) <==> Deletable(cfg, vm) && vm.providerId !in known
  {
  }

  function Orphans(cfg: DynamicConfig, listed: seq<ProviderVm>, known: set<string>): (r: seq<ProviderVm>)
    ensures forall v :: v in r <==> v in listed && IsOrphan(cfg, v, known)
  {
    if listed == [] then []
    else (if IsOrphan(cfg, listed[0], known) then [listed[0]] else []) + Orphans(cfg, listed[1..], known)
  }

  function Pids(vs: seq<ProviderVm>): set<string> {
    set v | v in vs :: v.providerId
  }

  /** The candidates kept when a sweep has decided which VMs are orphans. */
  function Retain(candidates: map<string, int>, orphans: seq<ProviderVm>): map<string, int> {
    map p | p in candidates && p in Pids(orphans) :: candidates[p]
  }

  function FirstSeen(candidates: map<string, int>, pid: string, now: int): int {
    if pid in candidates then candidates[pid] else now
  }

  predicate GraceOver(cfg: DynamicConfig, skipGrace: bool, firstSeen: int, now: int) {
    skipGrace || WholeSeconds(now - firstSeen) >= cfg.graceSecs
  }
}
