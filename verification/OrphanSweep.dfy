/**
 The orphan sweep among everything else: it deletes VMs of the hypervisor that the pool does not
 know, which is also what a VM being provisioned looks like. The grace period is what tells them
 apart, in every interleaving and with a clock that never runs back.
 */
module OrphanSweep {
  import opened Options
  import opened PoolState
  import opened PoolSystem
  import opened PoolOwnership

  /** VMs are listed, then orphans decided once and visited one by one. */
  datatype Scan =
    | Listed(skipGrace: bool, listing: seq<ProviderVm>)
    | Visiting(skipGrace: bool, queue: seq<ProviderVm>, decidedAt: int)
    | Deleting(skipGrace: bool, pid: string, queue: seq<ProviderVm>, decidedAt: int)

  /** `clonedAt` and `insertedAt` are history: no code reads them. */
  datatype World = World(
    core: Core,
    now: int,
    candidates: map<string, int>,
    scans: map<nat, Scan>,
    hypervisor: map<string, ProviderVm>,
    clonedAt: map<string, int>,
    insertedAt: map<string, int>)

  datatype Move =
    | InPool(step: Step)
    | ListVms(task: nat, skipGrace: bool, listing: seq<ProviderVm>)
    | Decide(task: nat)
    | Visit(task: nat)
    | DeleteDone(task: nat, ok: bool)
    | Appears(appeared: ProviderVm)
    | Vanishes(pid: string)
    | Tick(to: int)

  /** `listing` is what list_vms answers: the VMs of the hypervisor, in some order. */
  ghost predicate IsListing(hv: map<string, ProviderVm>, listing: seq<ProviderVm>) {
    && (forall v :: v in listing ==> v.providerId in hv && hv[v.providerId] == v)
    && (forall p :: p in hv ==> hv[p] in listing)
  }

  ghost predicate Possible(cfg: DynamicConfig, w: World, m: Move) {
    match m
    case InPool(s) => Enabled(cfg, w.core, s)
    case ListVms(t, _, listing) => t !in w.scans && IsListing(w.hypervisor, listing)
    case Decide(t) => t in w.scans && w.scans[t].Listed?
    case Visit(t) => t in w.scans && w.scans[t].Visiting? && w.scans[t].queue != []
    case DeleteDone(t, _) => t in w.scans && w.scans[t].Deleting?
    case Appears(vm) => vm.providerId !in w.core.pids
    case Vanishes(_) => true
    case Tick(to) => w.now <= to
  }

  ghost function After(cfg: DynamicConfig, w: World, m: Move): World
    requires Possible(cfg, w, m)
  {
    match m
    case InPool(s) => PoolMoved(cfg, w, s)
    case ListVms(t, skip, listing) => w.(scans := w.scans[t := Listed(skip, listing)])
    case Decide(t) => Decided(cfg, w, t)
    case Visit(t) => Visited(cfg, w, t)
    case DeleteDone(t, ok) => Deleted(w, t, ok)
    case Appears(vm) =>
      w.(hypervisor := w.hypervisor[vm.providerId := vm],
         core := w.core.(pids := w.core.pids + {vm.providerId}))
    case Vanishes(pid) => w.(hypervisor := w.hypervisor - {pid})
    case Tick(to) => w.(now := to)
  }

  /** The VM of `s` that the hypervisor has just cloned, or that has just entered the pool. */
  ghost function ClonedBy(s: Step): set<string> {
    if s.Provisioning? && s.progress.CloneDone? then {s.progress.pid} else {}
  }

  ghost function InsertedBy(c: Core, s: Step): set<string> {
    if s.Provisioning? && s.progress.StartDone? && s.task in c.provisions && c.provisions[s.task].phase.Cloned?
    then {c.provisions[s.task].phase.pid} else {}
  }

  ghost function Stamp(m: map<string, int>, pids: set<string>, now: int): map<string, int> {
    m + map p | p in pids :: now
  }

  ghost function PoolMoved(cfg: DynamicConfig, w: World, s: Step): World
    requires Enabled(cfg, w.core, s)
  {
    w.(core := Apply(cfg, w.core, w.now, s),
       hypervisor := w.hypervisor + map p | p in ClonedBy(s) :: ProviderVm(p, Some(s.progress.name)),
       clonedAt := Stamp(w.clonedAt, ClonedBy(s), w.now),
       insertedAt := Stamp(w.insertedAt, InsertedBy(w.core, s), w.now))
  }

  ghost function Decided(cfg: DynamicConfig, w: World, t: nat): World
    requires t in w.scans && w.scans[t].Listed?
  {
    var orphans := Orphans(cfg, w.scans[t].listing, ProviderIds(w.core.pool.vms));
    w.(scans := w.scans[t := Visiting(w.scans[t].skipGrace, orphans, w.now)],
       candidates := Retain(w.candidates, orphans))
  }

  /** The sweep of task `t` decides to delete the VM at the head of its queue. */
  ghost predicate Selects(cfg: DynamicConfig, w: World, t: nat)
    requires t in w.scans && w.scans[t].Visiting? && w.scans[t].queue != []
  {
    var c := w.scans[t];
    GraceOver(cfg, c.skipGrace, FirstSeen(w.candidates, c.queue[0].providerId, c.decidedAt), c.decidedAt)
  }

  ghost function Visited(cfg: DynamicConfig, w: World, t: nat): World
    requires t in w.scans && w.scans[t].Visiting? && w.scans[t].queue != []
  {
    var c := w.scans[t];
    var pid := c.queue[0].providerId;
    var next := if Selects(cfg, w, t) then Deleting(c.skipGrace, pid, c.queue[1..], c.decidedAt)
                else Visiting(c.skipGrace, c.queue[1..], c.decidedAt);
    w.(candidates := w.candidates[pid := FirstSeen(w.candidates, pid, c.decidedAt)],
       scans := w.scans[t := next])
  }

  ghost function Deleted(w: World, t: nat, ok: bool): World
    requires t in w.scans && w.scans[t].Deleting?
  {
    var c := w.scans[t];
    var w' := w.(scans := w.scans[t := Visiting(c.skipGrace, c.queue, c.decidedAt)]);
    if ok then w'.(candidates := w.candidates - {c.pid}, hypervisor := w.hypervisor - {c.pid})
    else w'
  }

  ghost predicate Start(w: World) {
    && Initial(w.core) && w.candidates == map[] && w.scans == map[]
    && w.clonedAt == map[] && w.insertedAt == map[]
    && HypervisorSound(w)
  }

  ghost predicate Run(cfg: DynamicConfig, ws: seq<World>, moves: seq<Move>) {
    && |ws| == |moves| + 1 && Start(ws[0])
    && forall i :: 0 <= i < |moves| ==> Possible(cfg, ws[i], moves[i]) && ws[i + 1] == After(cfg, ws[i], moves[i])
  }

  // ── The invariant ─────────────────────────────────────────────────────────

  ghost predicate HypervisorSound(w: World) {
    forall p :: p in w.hypervisor ==> p in w.core.pids && w.hypervisor[p].providerId == p
  }

  /** What is in the pool, or on its way there, has its times on record. */
  ghost predicate HistorySound(w: World) {
    && w.clonedAt.Keys <= w.core.pids
    && (forall p :: p in w.clonedAt ==> w.clonedAt[p] <= w.now)
    && (forall p :: p in ProviderIds(w.core.pool.vms) ==> p in w.clonedAt && p in w.insertedAt)
    && (forall t :: t in w.core.provisions && w.core.provisions[t].phase.Cloned? ==>
          w.core.provisions[t].phase.pid in w.clonedAt)
  }

  /** `seen`, at or before `now`, is no earlier than the clone of `pid`. */
  ghost predicate SeenSound(w: World, pid: string, seen: int) {
    pid in w.core.pids && (pid in w.clonedAt ==> w.clonedAt[pid] <= seen)
  }

  ghost predicate CandidatesSound(w: World) {
    forall p :: p in w.candidates ==> SeenSound(w, p, w.candidates[p])
  }

  /** A queued VM was unknown to the pool when it was queued; if it is known now, it came later. */
  ghost predicate QueuedSound(w: World, pid: string, decidedAt: int) {
    && SeenSound(w, pid, decidedAt)
    && (pid in ProviderIds(w.core.pool.vms) ==> pid in w.insertedAt && decidedAt <= w.insertedAt[pid])
  }

  ghost predicate ScanSound(w: World, c: Scan) {
    if c.Listed? then forall v :: v in c.listing ==> v.providerId in w.core.pids
    else c.decidedAt <= w.now && forall v :: v in c.queue ==> QueuedSound(w, v.providerId, c.decidedAt)
  }

  ghost predicate ScansSound(w: World) {
    forall t :: t in w.scans ==> ScanSound(w, w.scans[t])
  }

  ghost predicate Tracked(w: World) {
    && Sound(w.core) && HypervisorSound(w) && HistorySound(w)
    && CandidatesSound(w) && ScansSound(w)
  }

  // ── Steps of the pool ─────────────────────────────────────────────────────

  lemma PidsGrow(cfg: DynamicConfig, c: Core, now: int, s: Step)
    requires Enabled(cfg, c, s)
    ensures Apply(cfg, c, now, s).pids == c.pids + ClonedBy(s)
    ensures ClonedBy(s) !! c.pids
  {
    hide CanAdmit, OutcomeEffect, StaleIds, CidsOf, DropAll, Drop;
  }

  lemma KnownAfterAdmission(cfg: DynamicConfig, c: Core, now: int, a: Admission)
    requires CanAdmit(cfg, c, a)
    ensures ProviderIds(Admitting(cfg, c, now, a).pool.vms) <= ProviderIds(c.pool.vms)
  {
    PicksIdle(cfg, c, a);
    hide CanAdmit;
  }

  lemma KnownAfterProgress(c: Core, now: int, t: nat, p: Progress)
    requires CanProgress(c, t, p)
    ensures ProviderIds(Progressing(c, now, t, p).pool.vms)
         <= ProviderIds(c.pool.vms) + InsertedBy(c, Provisioning(t, p))
  {
  }

  lemma KnownAfterRetirement(c: Core, now: int, r: Retirement)
    requires CanRetire(c, r)
    ensures ProviderIds(Retiring(c, now, r).pool.vms) <= ProviderIds(c.pool.vms)
  {
    hide StaleIds, CidsOf;
  }

  /** A VM becomes known to the pool only by being inserted. */
  lemma KnownAfter(cfg: DynamicConfig, c: Core, now: int, s: Step)
    requires Enabled(cfg, c, s)
    ensures ProviderIds(Apply(cfg, c, now, s).pool.vms) <= ProviderIds(c.pool.vms) + InsertedBy(c, s)
  {
    hide CanAdmit, CanProgress, CanRetire, Admitting, Progressing, Retiring, ProviderIds, InsertedBy;
    match s
    case Admit(a) => KnownAfterAdmission(cfg, c, now, a);
    case Provisioning(t, p) => KnownAfterProgress(c, now, t, p);
    case Retire(r) => KnownAfterRetirement(c, now, r);
  }

  lemma ClonedAfter(cfg: DynamicConfig, c: Core, now: int, s: Step, t: nat)
    requires Enabled(cfg, c, s)
    requires var c' := Apply(cfg, c, now, s); t in c'.provisions && c'.provisions[t].phase.Cloned?
    ensures var pid := Apply(cfg, c, now, s).provisions[t].phase.pid;
      pid in ClonedBy(s) || (t in c.provisions && c.provisions[t].phase == Cloned(pid, Apply(cfg, c, now, s).provisions[t].phase.name))
  {
    hide CanAdmit, OutcomeEffect, StaleIds, CidsOf, DropAll, Drop;
  }

  lemma InsertedWasCloned(w: World, s: Step, p: string)
    requires HistorySound(w) && p in InsertedBy(w.core, s)
    ensures p in w.clonedAt
  {
  }

  lemma KnownOnRecord(cfg: DynamicConfig, w: World, s: Step, p: string)
    requires HistorySound(w) && Enabled(cfg, w.core, s)
    requires p in ProviderIds(PoolMoved(cfg, w, s).core.pool.vms)
    ensures var w' := PoolMoved(cfg, w, s); p in w'.clonedAt && p in w'.insertedAt
  {
    KnownAfter(cfg, w.core, w.now, s);
    if p in InsertedBy(w.core, s) { InsertedWasCloned(w, s, p); }
    hide Enabled, Apply, ProviderIds, InsertedBy, ClonedBy;
  }

  lemma CloneOnRecord(cfg: DynamicConfig, w: World, s: Step, t: nat)
    requires HistorySound(w) && Enabled(cfg, w.core, s)
    requires var c := PoolMoved(cfg, w, s).core; t in c.provisions && c.provisions[t].phase.Cloned?
    ensures var w' := PoolMoved(cfg, w, s); w'.core.provisions[t].phase.pid in w'.clonedAt
  {
    ClonedAfter(cfg, w.core, w.now, s, t);
    hide Enabled, Apply, ProviderIds, InsertedBy, ClonedBy;
  }

  lemma HistoryAfterPool(cfg: DynamicConfig, w: World, s: Step)
    requires HistorySound(w) && Enabled(cfg, w.core, s)
    ensures HistorySound(PoolMoved(cfg, w, s))
  {
    var w' := PoolMoved(cfg, w, s);
    PidsGrow(cfg, w.core, w.now, s);
    forall p | p in ProviderIds(w'.core.pool.vms) ensures p in w'.clonedAt && p in w'.insertedAt {
      KnownOnRecord(cfg, w, s, p);
    }
    forall t | t in w'.core.provisions && w'.core.provisions[t].phase.Cloned?
      ensures w'.core.provisions[t].phase.pid in w'.clonedAt
    {
      CloneOnRecord(cfg, w, s, t);
    }
    hide Enabled, Apply, ProviderIds, InsertedBy, ClonedBy;
  }

  /** Freshly cloned VMs were unseen; freshly inserted ones come after every decision. */
  lemma SeenAfterPool(cfg: DynamicConfig, w: World, s: Step, pid: string, seen: int)
    requires Enabled(cfg, w.core, s) && SeenSound(w, pid, seen)
    ensures SeenSound(PoolMoved(cfg, w, s), pid, seen)
  {
    PidsGrow(cfg, w.core, w.now, s);
    hide Enabled, Apply, ClonedBy;
  }

  lemma QueuedAfterPool(cfg: DynamicConfig, w: World, s: Step, pid: string, decidedAt: int)
    requires Enabled(cfg, w.core, s) && QueuedSound(w, pid, decidedAt) && decidedAt <= w.now
    ensures QueuedSound(PoolMoved(cfg, w, s), pid, decidedAt)
  {
    SeenAfterPool(cfg, w, s, pid, decidedAt);
    KnownAfter(cfg, w.core, w.now, s);
    hide Enabled, Apply, ClonedBy, InsertedBy, ProviderIds, SeenSound;
  }

  lemma HypervisorAfterPool(cfg: DynamicConfig, w: World, s: Step)
    requires Enabled(cfg, w.core, s) && HypervisorSound(w)
    ensures HypervisorSound(PoolMoved(cfg, w, s))
  {
    PidsGrow(cfg, w.core, w.now, s);
    hide Enabled, Apply, InsertedBy;
  }

  lemma TrackedPool(cfg: DynamicConfig, w: World, s: Step)
    requires Tracked(w) && Enabled(cfg, w.core, s)
    ensures Tracked(PoolMoved(cfg, w, s))
  {
    hide Enabled, Apply, Sound, HypervisorSound, HistorySound, QueuedSound, SeenSound, ClonedBy, InsertedBy;
    var w' := PoolMoved(cfg, w, s);
    SoundStep(cfg, w.core, w.now, s);
    HypervisorAfterPool(cfg, w, s);
    HistoryAfterPool(cfg, w, s);
    PidsGrow(cfg, w.core, w.now, s);
    forall p | p in w'.candidates ensures SeenSound(w', p, w'.candidates[p]) {
      SeenAfterPool(cfg, w, s, p, w.candidates[p]);
    }
    forall t | t in w'.scans ensures ScanSound(w', w'.scans[t]) {
      var c := w.scans[t];
      assert ScanSound(w, c);
      if !c.Listed? {
        forall v | v in c.queue ensures QueuedSound(w', v.providerId, c.decidedAt) {
          QueuedAfterPool(cfg, w, s, v.providerId, c.decidedAt);
        }
      }
    }
  }

  // ── Steps of the sweep and of the world around ────────────────────────────

  /** What a sweep leaves alone. */
  ghost predicate SameOutside(w: World, w': World) {
    w'.core == w.core && w'.now == w.now && w'.clonedAt == w.clonedAt && w'.insertedAt == w.insertedAt
  }

  lemma ScanFrame(w: World, w': World, c: Scan)
    requires ScanSound(w, c) && SameOutside(w, w')
    ensures ScanSound(w', c)
  {
    hide ProviderIds;
    if !c.Listed? {
      forall v | v in c.queue ensures QueuedSound(w', v.providerId, c.decidedAt) {
        assert QueuedSound(w, v.providerId, c.decidedAt);
      }
    }
  }

  /** One scan changes, soundly; candidates keep or gain sound first sightings. */
  lemma TrackedSweep(w: World, w': World, t: nat, c: Scan)
    requires Tracked(w) && SameOutside(w, w') && w'.scans == w.scans[t := c] && ScanSound(w, c)
    requires forall p :: p in w'.hypervisor ==> p in w.hypervisor && w'.hypervisor[p] == w.hypervisor[p]
    requires forall p :: p in w'.candidates ==> SeenSound(w, p, w'.candidates[p])
    ensures Tracked(w')
  {
    hide Sound, ScanSound, ProviderIds;
    forall u | u in w'.scans ensures ScanSound(w', w'.scans[u]) {
      if u != t { assert ScanSound(w, w.scans[u]); }
      ScanFrame(w, w', w'.scans[u]);
    }
    assert HistorySound(w');
  }

  lemma TrackedDecide(cfg: DynamicConfig, w: World, t: nat)
    requires Tracked(w) && t in w.scans && w.scans[t].Listed?
    ensures Tracked(Decided(cfg, w, t))
  {
    hide Sound, HypervisorSound;
    var listed := w.scans[t];
    assert ScanSound(w, listed);
    var known := ProviderIds(w.core.pool.vms);
    var orphans := Orphans(cfg, listed.listing, known);
    hide ProviderIds;
    forall v | v in orphans ensures QueuedSound(w, v.providerId, w.now) {
      assert v in listed.listing && IsOrphan(cfg, v, known);
    }
    TrackedSweep(w, Decided(cfg, w, t), t, Visiting(listed.skipGrace, orphans, w.now));
  }

  lemma FirstSeenSound(w: World, pid: string, decidedAt: int)
    requires CandidatesSound(w) && QueuedSound(w, pid, decidedAt)
    ensures SeenSound(w, pid, FirstSeen(w.candidates, pid, decidedAt))
  {
  }

  lemma TrackedVisit(cfg: DynamicConfig, w: World, t: nat)
    requires Tracked(w) && t in w.scans && w.scans[t].Visiting? && w.scans[t].queue != []
    ensures Tracked(Visited(cfg, w, t))
  {
    hide Sound, HypervisorSound, HistorySound, QueuedSound, SeenSound, Selects, ProviderIds;
    var c := w.scans[t];
    assert ScanSound(w, c);
    assert QueuedSound(w, c.queue[0].providerId, c.decidedAt);
    FirstSeenSound(w, c.queue[0].providerId, c.decidedAt);
    var w' := Visited(cfg, w, t);
    assert forall v :: v in c.queue[1..] ==> v in c.queue;
    TrackedSweep(w, w', t, w'.scans[t]);
  }

  lemma TrackedDelete(w: World, t: nat, ok: bool)
    requires Tracked(w) && t in w.scans && w.scans[t].Deleting?
    ensures Tracked(Deleted(w, t, ok))
  {
    hide Sound, HypervisorSound, HistorySound, QueuedSound, SeenSound, ProviderIds;
    assert ScanSound(w, w.scans[t]);
    var w' := Deleted(w, t, ok);
    TrackedSweep(w, w', t, w'.scans[t]);
  }

  lemma TrackedList(w: World, t: nat, skip: bool, listing: seq<ProviderVm>)
    requires Tracked(w) && IsListing(w.hypervisor, listing)
    ensures Tracked(w.(scans := w.scans[t := Listed(skip, listing)]))
  {
    hide Sound, HistorySound, QueuedSound, SeenSound, ProviderIds;
    TrackedSweep(w, w.(scans := w.scans[t := Listed(skip, listing)]), t, Listed(skip, listing));
  }

  /** More ids, a later time, another hypervisor: nothing recorded is disturbed. */
  lemma TrackedAround(w: World, w': World)
    requires Tracked(w) && HypervisorSound(w') && w.now <= w'.now
    requires w'.core == w.core.(pids := w'.core.pids) && w.core.pids <= w'.core.pids
    requires w'.candidates == w.candidates && w'.scans == w.scans
    requires w'.clonedAt == w.clonedAt && w'.insertedAt == w.insertedAt
    ensures Tracked(w')
  {
    assert Sound(w'.core) by { SoundMorePids(w.core, w'.core.pids); }
    hide Sound, ProviderIds;
    forall t | t in w'.scans ensures ScanSound(w', w'.scans[t]) {
      assert ScanSound(w, w.scans[t]);
      if !w.scans[t].Listed? {
        forall v | v in w.scans[t].queue ensures QueuedSound(w', v.providerId, w.scans[t].decidedAt) {
          assert QueuedSound(w, v.providerId, w.scans[t].decidedAt);
        }
      }
    }
    assert HistorySound(w');
  }

  lemma SoundMorePids(c: Core, pids: set<string>)
    requires Sound(c) && c.pids <= pids
    ensures Sound(c.(pids := pids))
  {
    var c' := c.(pids := pids);
    forall k | k in c'.pool.vms ensures EntrySound(c', k) { EntryAt(c, k); }
    assert ClonesSound(c') by {
      forall t | t in c'.provisions && c'.provisions[t].phase.Cloned? ensures CloneSound(c', t) {
        assert CloneSound(c, t);
      }
    }
    forall t | t in c'.teardowns ensures TeardownSound(c', c'.teardowns[t]) { TeardownAt(c, t); }
  }

  lemma TrackedMove(cfg: DynamicConfig, w: World, m: Move)
    requires Tracked(w) && Possible(cfg, w, m)
    ensures Tracked(After(cfg, w, m))
  {
    hide Sound, HistorySound, CandidatesSound, ScansSound, Enabled, PoolMoved, Decided, Visited, Deleted;
    match m
    case InPool(s) => TrackedPool(cfg, w, s);
    case ListVms(t, skip, listing) => TrackedList(w, t, skip, listing);
    case Decide(t) => TrackedDecide(cfg, w, t);
    case Visit(t) => TrackedVisit(cfg, w, t);
    case DeleteDone(t, ok) => TrackedDelete(w, t, ok);
    case _ => TrackedAround(w, After(cfg, w, m));
  }

  lemma TrackedStart(w: World)
    requires Start(w)
    ensures Tracked(w)
  {
    SoundInitially(w.core);
    hide Sound;
  }

  lemma {:induction false} TrackedRun(cfg: DynamicConfig, ws: seq<World>, moves: seq<Move>, i: nat)
    requires Run(cfg, ws, moves) && i < |ws|
    ensures Tracked(ws[i])
  {
    hide Tracked, Possible, After, Start;
    if i == 0 {
      TrackedStart(ws[0]);
    } else {
      TrackedRun(cfg, ws, moves, i - 1);
      TrackedMove(cfg, ws[i - 1], moves[i - 1]);
    }
  }

  // ── Safety ────────────────────────────────────────────────────────────────

  /** Some provision has cloned this VM and not inserted it yet. */
  ghost predicate OnItsWay(c: Core, pid: string) {
    exists t :: t in c.provisions && c.provisions[t].phase.Cloned? && c.provisions[t].phase.pid == pid
  }

  /** The sweep of task `t` is about to delete VM `pid`, having granted it the grace period. */
  ghost predicate Dooms(cfg: DynamicConfig, w: World, t: nat, pid: string) {
    && t in w.scans && w.scans[t].Visiting? && w.scans[t].queue != [] && !w.scans[t].skipGrace
    && pid == w.scans[t].queue[0].providerId && Selects(cfg, w, t)
  }

  /** From its clone to its insertion, or until now, the VM has taken the grace period or longer. */
  ghost predicate Late(cfg: DynamicConfig, w: World, pid: string) {
    && pid in w.clonedAt
    && (pid in ProviderIds(w.core.pool.vms) ==>
          pid in w.insertedAt && AtLeast(w.insertedAt[pid] - w.clonedAt[pid], cfg.graceSecs))
    && AtLeast(w.now - w.clonedAt[pid], cfg.graceSecs)
  }

  lemma DoomedIsLate(cfg: DynamicConfig, w: World, t: nat, pid: string)
    requires Tracked(w) && Dooms(cfg, w, t, pid)
    ensures pid in ProviderIds(w.core.pool.vms) || OnItsWay(w.core, pid) ==> Late(cfg, w, pid)
  {
    hide Sound, HypervisorSound, ProviderIds, WholeSeconds;
    var c := w.scans[t];
    assert ScanSound(w, c) && QueuedSound(w, pid, c.decidedAt);
    FirstSeenSound(w, pid, c.decidedAt);
    var seen := FirstSeen(w.candidates, pid, c.decidedAt);
    SecondsPassed(c.decidedAt - seen, cfg.graceSecs);
  }

  /**
   A sweep with grace deletes a VM that the pool holds, or is provisioning, only if that VM took
   the grace period or longer from its clone to its insertion. So none whose clone-to-insert
   time stays below `orphan_grace_secs` is ever selected before the pool lets go of it.
   */
  lemma OrphanSafety(cfg: DynamicConfig, ws: seq<World>, moves: seq<Move>, i: nat, pid: string)
    requires Run(cfg, ws, moves) && i < |ws|
    requires exists t :: Dooms(cfg, ws[i], t, pid)
    requires pid in ProviderIds(ws[i].core.pool.vms) || OnItsWay(ws[i].core, pid)
    ensures Late(cfg, ws[i], pid)
  {
    hide Possible, After, Tracked, Dooms, Late, OnItsWay;
    TrackedRun(cfg, ws, moves, i);
    var t :| Dooms(cfg, ws[i], t, pid);
    DoomedIsLate(cfg, ws[i], t, pid);
  }
}
