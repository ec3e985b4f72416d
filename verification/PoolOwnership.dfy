/**
 What every reachable state of the pool satisfies, whatever the interleaving: dynamic entries
 are warm or assigned and serve one session only, and a release touches a VM only on behalf of
 the session that owns it.
 */
module PoolOwnership {
  import opened Options
  import opened PoolState
  import opened PoolSystem

  /** A warm VM has served nobody; an assigned dynamic VM serves its first and only session. */
  predicate SingleUse(e: Entry) {
    if e.dynamic then
      && e.cid.Some? && e.providerId.Some?
      && ((e.state.WarmReady? && e.served == 0 && e.user == None)
          || (e.state.Assigned? && e.served == 1 && e.user.Some?))
    else
      && e.cid == None && e.providerId == None && e.user == None
      && (e.state.Available? || e.state.Assigned? || e.state.Unhealthy?)
  }

  ghost predicate EntrySound(c: Core, k: string)
    requires k in c.pool.vms
  {
    var e := c.pool.vms[k];
    e.id == k && k in c.names && SingleUse(e) && (e.dynamic ==> e.providerId.value in c.pids)
  }

  ghost predicate EntriesSound(c: Core) {
    forall k :: k in c.pool.vms ==> EntrySound(c, k)
  }

  ghost predicate CloneSound(c: Core, t: nat)
    requires t in c.provisions && c.provisions[t].phase.Cloned?
  {
    var p := c.provisions[t].phase;
    && p.name in c.names && p.pid in c.pids && p.name !in c.pool.vms
    && forall k :: k in c.pool.vms ==> c.pool.vms[k].providerId != Some(p.pid)
  }

  ghost predicate CloneClash(p: Provision, q: Provision) {
    p.phase.Cloned? && q.phase.Cloned? && (p.phase.name == q.phase.name || p.phase.pid == q.phase.pid)
  }

  /** The VM of a provision is not in the pool yet, and no two provisions share a VM. */
  ghost predicate ClonesSound(c: Core) {
    && (forall t :: t in c.provisions && c.provisions[t].phase.Cloned? ==> CloneSound(c, t))
    && (forall t, u :: t in c.provisions && u in c.provisions && t != u ==>
          !CloneClash(c.provisions[t], c.provisions[u]))
  }

  ghost predicate NoCloneNamed(c: Core, id: string) {
    forall t :: t in c.provisions && c.provisions[t].phase.Cloned? ==> c.provisions[t].phase.name != id
  }

  /** While a release awaits, its VM still belongs to its session, or is gone for good. */
  ghost predicate TeardownSound(c: Core, d: Teardown) {
    && d.vm in c.names
    && (d.vm in c.pool.vms ==>
          OwnedBy(c.pool.vms, d.vm, d.session) && c.pool.vms[d.vm].dynamic && c.pool.vms[d.vm].cid == d.cid)
    && NoCloneNamed(c, d.vm)
  }

  ghost predicate TeardownsSound(c: Core) {
    forall t :: t in c.teardowns ==> TeardownSound(c, c.teardowns[t])
  }

  ghost predicate Sound(c: Core) {
    EntriesSound(c) && ClonesSound(c) && TeardownsSound(c)
  }

  lemma SoundInitially(c: Core)
    requires Initial(c)
    ensures Sound(c)
  {
  }

  lemma EntryAt(c: Core, id: string)
    requires EntriesSound(c) && id in c.pool.vms
    ensures EntrySound(c, id)
  {
  }

  /** An entry may change state in place as long as it stays itself. */
  lemma SoundUpdate(c: Core, id: string, e: Entry)
    requires Sound(c) && id in c.pool.vms && e.id == id && SingleUse(e)
    requires var was := c.pool.vms[id];
      && e.dynamic == was.dynamic && e.providerId == was.providerId && e.cid == was.cid
      && (was.dynamic && was.state.Assigned? ==> e == was)
    ensures Sound(UpdateEntry(c, id, e))
  {
    var c' := UpdateEntry(c, id, e);
    assert EntriesSound(c') by {
      forall k | k in c'.pool.vms ensures EntrySound(c', k) { EntryAt(c, k); }
    }
    assert ClonesSound(c') by {
      forall t | t in c'.provisions && c'.provisions[t].phase.Cloned? ensures CloneSound(c', t) {
        assert CloneSound(c, t);
      }
    }
    forall t | t in c'.teardowns ensures TeardownSound(c', c'.teardowns[t]) {
      assert TeardownSound(c, c.teardowns[t]);
    }
  }

  lemma SoundRemoval(c: Core, c': Core, gone: set<string>)
    requires Sound(c) && c'.pool.vms == c.pool.vms - gone
    requires c'.provisions == c.provisions && c'.names == c.names && c'.pids == c.pids
    requires forall t :: t in c'.teardowns ==> t in c.teardowns && c'.teardowns[t] == c.teardowns[t]
    ensures Sound(c')
  {
    assert EntriesSound(c') by {
      forall k | k in c'.pool.vms ensures EntrySound(c', k) { EntryAt(c, k); }
    }
    assert ClonesSound(c') by {
      forall t | t in c'.provisions && c'.provisions[t].phase.Cloned? ensures CloneSound(c', t) {
        assert CloneSound(c, t);
      }
    }
    forall t | t in c'.teardowns ensures TeardownSound(c', c'.teardowns[t]) {
      assert TeardownSound(c, c.teardowns[t]);
    }
  }

  /** A provision that starts, or leaves without a VM in the pool, disturbs nothing. */
  lemma SoundProvision(c: Core, c': Core, t: nat)
    requires Sound(c)
    requires c'.pool.vms == c.pool.vms && c'.teardowns == c.teardowns && c'.names == c.names && c'.pids == c.pids
    requires forall u :: u in c'.provisions && u != t ==> u in c.provisions && c'.provisions[u] == c.provisions[u]
    requires t in c'.provisions ==> !c'.provisions[t].phase.Cloned?
    ensures Sound(c')
  {
    assert EntriesSound(c') by {
      forall k | k in c'.pool.vms ensures EntrySound(c', k) { EntryAt(c, k); }
    }
    assert ClonesSound(c') by {
      forall u | u in c'.provisions && c'.provisions[u].phase.Cloned? ensures CloneSound(c', u) {
        assert CloneSound(c, u);
      }
    }
    forall u | u in c'.teardowns ensures TeardownSound(c', c'.teardowns[u]) {
      assert TeardownSound(c, c.teardowns[u]);
    }
  }

  lemma SoundDefine(c: Core, t: nat, pid: string, name: string)
    requires Sound(c) && t in c.provisions && c.provisions[t].phase.Cloning?
    requires pid !in c.pids && name !in c.names
    ensures Sound(Define(c, t, pid, name))
  {
    var c' := Define(c, t, pid, name);
    assert EntriesSound(c') by {
      forall k | k in c'.pool.vms ensures EntrySound(c', k) { EntryAt(c, k); }
    }
    assert ClonesSound(c') by {
      forall u | u in c'.provisions && c'.provisions[u].phase.Cloned? ensures CloneSound(c', u) {
        if u != t { assert CloneSound(c, u); }
        else {
          forall k | k in c.pool.vms ensures k != name && c.pool.vms[k].providerId != Some(pid) { EntryAt(c, k); }
        }
      }
      forall u, v | u in c'.provisions && v in c'.provisions && u != v
        ensures !CloneClash(c'.provisions[u], c'.provisions[v])
      {
        assert u != t && c.provisions[u].phase.Cloned? ==> CloneSound(c, u);
        assert v != t && c.provisions[v].phase.Cloned? ==> CloneSound(c, v);
        assert u != t && v != t ==> !CloneClash(c.provisions[u], c.provisions[v]);
      }
    }
    forall u | u in c'.teardowns ensures TeardownSound(c', c'.teardowns[u]) {
      assert TeardownSound(c, c.teardowns[u]);
    }
  }

  lemma SoundInsert(c: Core, t: nat, now: int)
    requires Sound(c) && t in c.provisions && c.provisions[t].phase.Cloned?
    ensures Sound(Insert(c, t, now))
  {
    var c' := Insert(c, t, now);
    var p := c.provisions[t].phase;
    assert CloneSound(c, t);
    assert EntriesSound(c') by {
      forall k | k in c'.pool.vms ensures EntrySound(c', k) { if k != p.name { EntryAt(c, k); } }
    }
    assert ClonesSound(c') by {
      forall u | u in c'.provisions && c'.provisions[u].phase.Cloned? ensures CloneSound(c', u) {
        assert CloneSound(c, u) && !CloneClash(c.provisions[t], c.provisions[u]);
      }
    }
    forall u | u in c'.teardowns ensures TeardownSound(c', c'.teardowns[u]) {
      assert TeardownSound(c, c.teardowns[u]);
    }
  }

  lemma SoundTeardown(c: Core, t: nat, vm: string, session: string)
    requires Sound(c) && OwnedBy(c.pool.vms, vm, session) && c.pool.vms[vm].dynamic
    ensures Sound(BeginRelease(c, t, vm, session))
  {
    var c' := BeginRelease(c, t, vm, session);
    assert EntriesSound(c') by {
      forall k | k in c'.pool.vms ensures EntrySound(c', k) { EntryAt(c, k); }
    }
    assert ClonesSound(c') by {
      forall u | u in c'.provisions && c'.provisions[u].phase.Cloned? ensures CloneSound(c', u) {
        assert CloneSound(c, u);
      }
    }
    EntryAt(c, vm);
    forall u | u in c'.teardowns ensures TeardownSound(c', c'.teardowns[u]) {
      if u != t {
        assert TeardownSound(c, c.teardowns[u]);
      } else {
        forall v | v in c.provisions && c.provisions[v].phase.Cloned?
          ensures c.provisions[v].phase.name != vm { assert CloneSound(c, v); }
      }
    }
  }

  /** An admission picks an idle entry, or none. */
  lemma PicksIdle(cfg: DynamicConfig, c: Core, a: Admission)
    requires CanAdmit(cfg, c, a)
    ensures a.AssignVm? ==> a.id in c.pool.vms && c.pool.vms[a.id].state.Available?
    ensures a.Request? ==> a.task !in c.provisions
    ensures a.Request? && a.outcome.StaticVm? ==>
              a.outcome.id in c.pool.vms && c.pool.vms[a.outcome.id].state.Available?
    ensures a.Request? && a.outcome.WarmVm? ==>
              a.outcome.id in c.pool.vms && c.pool.vms[a.outcome.id].state.WarmReady?
    ensures a.Refill? ==> a.task !in c.provisions
  {
    hide NoneOffered, NoneWarm, WithinQuota, IsLowestFree;
  }

  lemma SoundAdmission(cfg: DynamicConfig, c: Core, now: int, a: Admission)
    requires Sound(c) && CanAdmit(cfg, c, a)
    ensures Sound(Admitting(cfg, c, now, a))
  {
    hide EntriesSound, ClonesSound, TeardownsSound;
    PicksIdle(cfg, c, a);
    hide CanAdmit;
    match a
    case AssignVm(session, _, id) =>
      EntryAt(c, id);
      SoundUpdate(c, id, Assign(c.pool.vms[id], session, now));
    case Request(t, session, _, user, o) =>
      if o.StaticVm? {
        EntryAt(c, o.id);
        SoundUpdate(c, o.id, Assign(c.pool.vms[o.id], session, now));
      } else if o.WarmVm? {
        EntryAt(c, o.id);
        SoundUpdate(c, o.id, Assign(c.pool.vms[o.id], session, now).(user := Some(user)));
      } else if o.Admitted? {
        SoundProvision(c, Reserve(c, t, o.cid, ForSession(session, user)), t);
      }
    case Refill(t, cid) => SoundProvision(c, Reserve(c, t, cid, ForWarmPool), t);
  }

  lemma SoundProgress(c: Core, now: int, t: nat, p: Progress)
    requires Sound(c) && CanProgress(c, t, p)
    ensures Sound(Progressing(c, now, t, p))
  {
    hide EntriesSound, ClonesSound, TeardownsSound;
    match p
    case CloneDone(pid, name) => SoundDefine(c, t, pid, name);
    case StartDone => SoundInsert(c, t, now);
    case _ => SoundProvision(c, Progressing(c, now, t, p), t);
  }

  lemma SoundRetirement(c: Core, now: int, r: Retirement)
    requires Sound(c) && CanRetire(c, r)
    ensures Sound(Retiring(c, now, r))
  {
    hide EntriesSound, ClonesSound, TeardownsSound, StaleIds, CidsOf;
    match r
    case ReleaseBegin(t, vm, session) =>
      if OwnedBy(c.pool.vms, vm, session) {
        EntryAt(c, vm);
        if c.pool.vms[vm].dynamic { SoundTeardown(c, t, vm, session); }
        else { SoundUpdate(c, vm, c.pool.vms[vm].(state := Available)); }
      }
    case ReleaseEnd(t) => SoundRemoval(c, Retiring(c, now, r), {c.teardowns[t].vm});
    case DropStale(listed) => SoundRemoval(c, Retiring(c, now, r), StaleIds(c.pool.vms, listed));
    case Health(vm, healthy) =>
      EntryAt(c, vm);
      SoundUpdate(c, vm, Checked(c.pool.vms[vm], healthy, now));
  }

  lemma SoundStep(cfg: DynamicConfig, c: Core, now: int, s: Step)
    requires Sound(c) && Enabled(cfg, c, s)
    ensures Sound(Apply(cfg, c, now, s))
  {
    hide Sound, CanAdmit, CanProgress, CanRetire, Admitting, Progressing, Retiring;
    match s
    case Admit(a) => SoundAdmission(cfg, c, now, a);
    case Provisioning(t, p) => SoundProgress(c, now, t, p);
    case Retire(r) => SoundRetirement(c, now, r);
  }

  /** Soundness of every state of every trace. */
  lemma {:induction false} SoundTrace(cfg: DynamicConfig, cs: seq<Core>, events: seq<Event>, i: nat)
    requires Trace(cfg, cs, events) && i < |cs|
    ensures Sound(cs[i])
  {
    hide Sound, Enabled, Apply;
    if i == 0 {
      SoundInitially(cs[0]);
    } else {
      SoundTrace(cfg, cs, events, i - 1);
      SoundStep(cfg, cs[i - 1], events[i - 1].now, events[i - 1].step);
    }
  }

  // ── A dynamic VM never changes hands ──────────────────────────────────────

  /** Under the name `id` there is the entry `e` or nothing, and nothing is about to be. */
  ghost predicate Pinned(c: Core, id: string, e: Entry) {
    id in c.names && (id in c.pool.vms ==> c.pool.vms[id] == e) && NoCloneNamed(c, id)
  }

  lemma PinnedAdmission(cfg: DynamicConfig, c: Core, now: int, a: Admission, id: string, e: Entry)
    requires CanAdmit(cfg, c, a) && Pinned(c, id, e) && e.dynamic && e.state.Assigned?
    ensures Pinned(Admitting(cfg, c, now, a), id, e)
  {
    PicksIdle(cfg, c, a);
    hide CanAdmit;
  }

  lemma PinnedProgress(c: Core, now: int, t: nat, p: Progress, id: string, e: Entry)
    requires CanProgress(c, t, p) && Pinned(c, id, e)
    ensures Pinned(Progressing(c, now, t, p), id, e)
  {
  }

  lemma PinnedRetirement(c: Core, now: int, r: Retirement, id: string, e: Entry)
    requires CanRetire(c, r) && Pinned(c, id, e) && e.dynamic && e.state.Assigned?
    ensures Pinned(Retiring(c, now, r), id, e)
  {
    hide StaleIds, CidsOf;
    assert Retiring(c, now, r).provisions == c.provisions && Retiring(c, now, r).names == c.names;
  }

  lemma PinnedStep(cfg: DynamicConfig, c: Core, now: int, s: Step, id: string, e: Entry)
    requires Enabled(cfg, c, s) && Pinned(c, id, e) && e.dynamic && e.state.Assigned?
    ensures Pinned(Apply(cfg, c, now, s), id, e)
  {
    hide Pinned, CanAdmit, CanProgress, CanRetire, Admitting, Progressing, Retiring;
    match s
    case Admit(a) => PinnedAdmission(cfg, c, now, a, id, e);
    case Provisioning(t, p) => PinnedProgress(c, now, t, p, id, e);
    case Retire(r) => PinnedRetirement(c, now, r, id, e);
  }

  lemma PinnedNow(c: Core, id: string)
    requires Sound(c) && id in c.pool.vms
    ensures Pinned(c, id, c.pool.vms[id])
  {
    EntryAt(c, id);
    forall t | t in c.provisions && c.provisions[t].phase.Cloned? ensures c.provisions[t].phase.name != id {
      assert CloneSound(c, t);
    }
  }

  /**
   A dynamic VM assigned to a session is still that session's, untouched, in every later state
   where its name is in the pool; once removed it does not come back.
   */
  lemma {:induction false} AssignedForGood(
    cfg: DynamicConfig, cs: seq<Core>, events: seq<Event>, i: nat, j: nat, id: string)
    requires Trace(cfg, cs, events) && i <= j < |cs|
    requires id in cs[i].pool.vms && cs[i].pool.vms[id].dynamic && cs[i].pool.vms[id].state.Assigned?
    ensures Pinned(cs[j], id, cs[i].pool.vms[id])
    decreases j
  {
    hide Sound, Enabled, Apply, Pinned;
    if i == j {
      SoundTrace(cfg, cs, events, i);
      PinnedNow(cs[i], id);
    } else {
      AssignedForGood(cfg, cs, events, i, j - 1, id);
      PinnedStep(cfg, cs[j - 1], events[j - 1].now, events[j - 1].step, id, cs[i].pool.vms[id]);
    }
  }

  ghost predicate ChangedAt(p: Pool, q: Pool, id: string) {
    (id in p.vms) != (id in q.vms) || (id in p.vms && p.vms[id] != q.vms[id])
  }

  /**
   Either end of a release changes an entry only for the session that owns it at that moment,
   whatever other tasks did while stop_vm and delete_vm were awaited.
   */
  lemma ReleaseOnlyOwnVm(cfg: DynamicConfig, cs: seq<Core>, events: seq<Event>, i: nat, id: string)
    requires Trace(cfg, cs, events) && i < |events| && events[i].step.Retire?
    requires var r := events[i].step.retirement; r.ReleaseBegin? || r.ReleaseEnd?
    requires ChangedAt(cs[i].pool, cs[i + 1].pool, id)
    ensures
      var r := events[i].step.retirement;
      && (r.ReleaseBegin? ==> id == r.vm && OwnedBy(cs[i].pool.vms, id, r.session))
      && (r.ReleaseEnd? ==>
            && r.task in cs[i].teardowns && id == cs[i].teardowns[r.task].vm
            && OwnedBy(cs[i].pool.vms, id, cs[i].teardowns[r.task].session))
  {
    var r := events[i].step.retirement;
    hide Sound, CanAdmit, CanProgress, Admitting, Progressing;
    assert CanRetire(cs[i], r) && cs[i + 1] == Retiring(cs[i], events[i].now, r);
    SoundTrace(cfg, cs, events, i);
    if r.ReleaseEnd? { TeardownAt(cs[i], r.task); }
  }

  lemma TeardownAt(c: Core, t: nat)
    requires Sound(c) && t in c.teardowns
    ensures TeardownSound(c, c.teardowns[t])
  {
  }
}
