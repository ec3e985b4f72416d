/**
 The pool under concurrency. Between two awaits a task of the broker runs without
 interruption; each such segment is one step here, and a trace is any interleaving of the
 segments of any number of requests, releases and sweeps and of the one refill task. What a provider call
 answers, and what a listing of the hypervisor contains, is left open: every answer is a step.
 */
module PoolSystem {
  import opened Options
  import opened PoolState

  /** A provision under way holds its CID from allocation to insertion or rollback. */
  datatype Phase =
    | Cloning                              // clone_vm has not defined a VM yet
    | Cloned(pid: string, name: string)    // the VM exists; its CID and its start are awaited
    | StartFailed(pid: string)             // delete_vm awaited, the CID still held

  datatype Provision = Provision(cid: nat, purpose: Purpose, phase: Phase)

  /** A dynamic release between its ownership check and the end of delete_vm. */
  datatype Teardown = Teardown(vm: string, session: string, cid: Option<nat>)

  /** `names` and `pids` are every name and provider id ever taken: clones get fresh ones. */
  datatype Core = Core(
    pool: Pool,
    provisions: map<nat, Provision>,
    teardowns: map<nat, Teardown>,
    names: set<string>,
    pids: set<string>)

  /** Segments that give a session a VM, or start provisioning one. */
  datatype Admission =
    | AssignVm(session: string, tag: Option<string>, id: string)
    | Request(task: nat, session: string, tag: Option<string>, user: string, outcome: Outcome)
    | Refill(task: nat, cid: nat)

  /** What may happen next to a provision under way. */
  datatype Progress = CloneDone(pid: string, name: string) | CloneFailed | StartDone | StartFails | RolledBack

  /** Segments that take VMs out of service, and the health checks. */
  datatype Retirement =
    | ReleaseBegin(task: nat, vm: string, session: string)
    | ReleaseEnd(task: nat)
    | DropStale(listed: set<string>)
    | Health(vm: string, healthy: bool)

  datatype Step =
    | Admit(admission: Admission)
    | Provisioning(task: nat, progress: Progress)
    | Retire(retirement: Retirement)

  ghost predicate Enabled(cfg: DynamicConfig, c: Core, s: Step) {
    match s
    case Admit(a) => CanAdmit(cfg, c, a)
    case Provisioning(t, p) => CanProgress(c, t, p)
    case Retire(r) => CanRetire(c, r)
  }

  ghost function Apply(cfg: DynamicConfig, c: Core, now: int, s: Step): Core
    requires Enabled(cfg, c, s)
  {
    match s
    case Admit(a) => Admitting(cfg, c, now, a)
    case Provisioning(t, p) => Progressing(c, now, t, p)
    case Retire(r) => Retiring(c, now, r)
  }

  // ── Admission ─────────────────────────────────────────────────────────────

  /** One task refills the pool, and awaits each VM before the next. */
  ghost predicate NoRefill(ps: map<nat, Provision>) {
    forall t :: t in ps ==> !ps[t].purpose.ForWarmPool?
  }

  ghost predicate CanAdmit(cfg: DynamicConfig, c: Core, a: Admission) {
    match a
    case AssignVm(_, tag, id) => AssignPick(c.pool.vms, tag, id)
    case Request(t, _, tag, user, o) =>
      t !in c.provisions && OutcomeAllowed(Some(cfg), c.pool, tag, user, o)
    case Refill(t, cid) =>
      && t !in c.provisions && NoRefill(c.provisions)
      && |WarmIds(c.pool.vms)| < cfg.minReady && |DynamicIds(c.pool.vms)| < cfg.maxTotal
      && IsLowestFree(c.pool.used, cfg.cidStart, cfg.cidEnd, Some(cid))
  }

  ghost function Admitting(cfg: DynamicConfig, c: Core, now: int, a: Admission): Core
    requires CanAdmit(cfg, c, a)
  {
    match a
    case AssignVm(session, _, id) =>
      c.(pool := OutcomeEffect(c.pool, session, "", now, StaticVm(id)))
    case Request(t, session, _, user, o) =>
      if o.Admitted? then Reserve(c, t, o.cid, ForSession(session, user))
      else c.(pool := OutcomeEffect(c.pool, session, user, now, o))
    case Refill(t, cid) => Reserve(c, t, cid, ForWarmPool)
  }

  /** The CID is taken; clone_vm is awaited. */
  ghost function Reserve(c: Core, t: nat, cid: nat, purpose: Purpose): Core {
    c.(pool := c.pool.(used := c.pool.used + {cid}),
       provisions := c.provisions[t := Provision(cid, purpose, Cloning)])
  }

  // ── Provisioning ──────────────────────────────────────────────────────────

  ghost predicate CanProgress(c: Core, t: nat, p: Progress) {
    && t in c.provisions
    && var phase := c.provisions[t].phase;
       match p
       case CloneDone(pid, name) => phase.Cloning? && pid !in c.pids && name !in c.names
       case CloneFailed => phase.Cloning? || phase.Cloned?
       case StartDone => phase.Cloned?
       case StartFails => phase.Cloned?
       case RolledBack => phase.StartFailed?
  }

  ghost function Progressing(c: Core, now: int, t: nat, p: Progress): Core
    requires CanProgress(c, t, p)
  {
    match p
    case CloneDone(pid, name) => Define(c, t, pid, name)
    case CloneFailed => GiveUp(c, t)
    case StartDone => Insert(c, t, now)
    case StartFails =>
      c.(provisions := c.provisions[t := c.provisions[t].(phase := StartFailed(c.provisions[t].phase.pid))])
    case RolledBack => GiveUp(c, t)
  }

  /** The hypervisor has the clone; the broker still awaits its CID and its start. */
  ghost function Define(c: Core, t: nat, pid: string, name: string): Core
    requires t in c.provisions
  {
    c.(provisions := c.provisions[t := c.provisions[t].(phase := Cloned(pid, name))],
       names := c.names + {name}, pids := c.pids + {pid})
  }

  /** A failed provision gives its CID back. */
  ghost function GiveUp(c: Core, t: nat): Core
    requires t in c.provisions
  {
    c.(pool := c.pool.(used := c.pool.used - {c.provisions[t].cid}), provisions := c.provisions - {t})
  }

  ghost function Insert(c: Core, t: nat, now: int): Core
    requires t in c.provisions && c.provisions[t].phase.Cloned?
  {
    var p := c.provisions[t];
    var e := NewEntry(p.phase.name, p.phase.pid, p.cid, p.purpose, now);
    c.(pool := c.pool.(vms := c.pool.vms[p.phase.name := e]), provisions := c.provisions - {t})
  }

  // ── Retirement ────────────────────────────────────────────────────────────

  ghost predicate CanRetire(c: Core, r: Retirement) {
    match r
    case ReleaseBegin(t, _, _) => t !in c.teardowns
    case ReleaseEnd(t) => t in c.teardowns
    case DropStale(_) => true
    case Health(vm, _) => vm in c.pool.vms
  }

  ghost function Retiring(c: Core, now: int, r: Retirement): Core
    requires CanRetire(c, r)
  {
    match r
    case ReleaseBegin(t, vm, session) => BeginRelease(c, t, vm, session)
    case ReleaseEnd(t) =>
      c.(pool := Drop(c.pool, c.teardowns[t].vm, c.teardowns[t].cid), teardowns := c.teardowns - {t})
    case DropStale(listed) => c.(pool := DropAll(c.pool, StaleIds(c.pool.vms, listed)))
    case Health(vm, healthy) => UpdateEntry(c, vm, Checked(c.pool.vms[vm], healthy, now))
  }

  ghost function UpdateEntry(c: Core, id: string, e: Entry): Core {
    c.(pool := c.pool.(vms := c.pool.vms[id := e]))
  }

  ghost function BeginRelease(c: Core, t: nat, vm: string, session: string): Core {
    if !OwnedBy(c.pool.vms, vm, session) then c
    else if c.pool.vms[vm].dynamic then
      c.(teardowns := c.teardowns[t := Teardown(vm, session, c.pool.vms[vm].cid)])
    else UpdateEntry(c, vm, c.pool.vms[vm].(state := Available))
  }

  // ── Traces ────────────────────────────────────────────────────────────────

  /** A pool as `build` makes it: declared entries only, nothing under way. */
  ghost predicate Initial(c: Core) {
    && (forall k :: k in c.pool.vms ==>
          var e := c.pool.vms[k];
          && e.id == k && k in c.names
          && e.state == Available && !e.dynamic && e.served == 0
          && e.cid == None && e.providerId == None && e.user == None)
    && c.pool.used == {} && c.provisions == map[] && c.teardowns == map[]
  }

  /** A step and the time it is taken. */
  datatype Event = Event(now: int, step: Step)

  /** States and the events between them, from an initial one. */
  ghost predicate Trace(cfg: DynamicConfig, cs: seq<Core>, events: seq<Event>) {
    && |cs| == |events| + 1 && Initial(cs[0])
    && forall i :: 0 <= i < |events| ==>
         Enabled(cfg, cs[i], events[i].step) && cs[i + 1] == Apply(cfg, cs[i], events[i].now, events[i].step)
  }
}
