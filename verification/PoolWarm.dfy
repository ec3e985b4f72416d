/**
 The warm pool under concurrency. Its one refill task never overshoots `min_ready`, whatever requests,
 releases and sweeps do meanwhile, and adds at most one to the provisions under way.
 */
module PoolWarm {
  import opened Options
  import opened Sets
  import opened PoolState
  import opened PoolSystem
  import opened PoolOwnership
  import opened PoolQuota

  function Refills(ps: map<nat, Provision>): set<nat> {
    set t | t in ps && ps[t].purpose.ForWarmPool?
  }

  function Requests(ps: map<nat, Provision>): set<nat> {
    set t | t in ps && ps[t].purpose.ForSession?
  }

  /** Warm VMs and the refill under way. */
  function WarmLoad(c: Core): nat {
    |WarmIds(c.pool.vms)| + |Refills(c.provisions)|
  }

  ghost predicate WarmSound(cfg: DynamicConfig, c: Core) {
    WarmLoad(c) <= cfg.minReady && |Refills(c.provisions)| <= 1
  }

  lemma WarmShrinks(cfg: DynamicConfig, c: Core, c': Core)
    requires WarmSound(cfg, c)
    requires WarmIds(c'.pool.vms) <= WarmIds(c.pool.vms) && Refills(c'.provisions) <= Refills(c.provisions)
    ensures WarmSound(cfg, c')
  {
    Smaller(WarmIds(c'.pool.vms), WarmIds(c.pool.vms));
    Smaller(Refills(c'.provisions), Refills(c.provisions));
  }

  /** An entry may change as long as it does not become warm. */
  lemma WarmUpdate(cfg: DynamicConfig, c: Core, id: string, e: Entry)
    requires WarmSound(cfg, c) && id in c.pool.vms && (e.state.WarmReady? ==> c.pool.vms[id].state.WarmReady?)
    ensures WarmSound(cfg, UpdateEntry(c, id, e))
  {
    WarmShrinks(cfg, c, UpdateEntry(c, id, e));
  }

  lemma WarmRefill(cfg: DynamicConfig, c: Core, t: nat, cid: nat)
    requires t !in c.provisions && NoRefill(c.provisions) && |WarmIds(c.pool.vms)| < cfg.minReady
    ensures WarmSound(cfg, Reserve(c, t, cid, ForWarmPool))
  {
    assert Refills(Reserve(c, t, cid, ForWarmPool).provisions) == {t};
  }

  lemma WarmAdmission(cfg: DynamicConfig, c: Core, now: int, a: Admission)
    requires WarmSound(cfg, c) && CanAdmit(cfg, c, a)
    ensures WarmSound(cfg, Admitting(cfg, c, now, a))
  {
    hide WarmSound, WarmIds, DynamicIds, UserIds, NoneOffered, NoneWarm, IsLowestFree;
    PicksIdle(cfg, c, a);
    match a
    case AssignVm(session, _, id) => WarmUpdate(cfg, c, id, Assign(c.pool.vms[id], session, now));
    case Request(t, session, _, u, o) =>
      if o.StaticVm? {
        WarmUpdate(cfg, c, o.id, Assign(c.pool.vms[o.id], session, now));
      } else if o.WarmVm? {
        WarmUpdate(cfg, c, o.id, Assign(c.pool.vms[o.id], session, now).(user := Some(u)));
      } else if o.Admitted? {
        WarmShrinks(cfg, c, Reserve(c, t, o.cid, ForSession(session, u)));
      }
    case Refill(t, cid) => WarmRefill(cfg, c, t, cid);
  }

  /** A refill that ends puts its VM where its task was. */
  lemma WarmInsert(cfg: DynamicConfig, c: Core, t: nat, now: int)
    requires WarmSound(cfg, c) && t in c.provisions && c.provisions[t].phase.Cloned?
    requires c.provisions[t].phase.name !in c.pool.vms
    ensures WarmSound(cfg, Insert(c, t, now))
  {
    var p := c.provisions[t];
    var e := NewEntry(p.phase.name, p.phase.pid, p.cid, p.purpose, now);
    InsertedIds(c.pool.vms, p.phase.name, e);
    InsertedTask(c.provisions, t);
    assert e.state.WarmReady? <==> p.purpose.ForWarmPool?;
    hide WarmIds, Refills;
  }

  lemma InsertedIds(vms: map<string, Entry>, name: string, e: Entry)
    requires name !in vms
    ensures |WarmIds(vms[name := e])| == |WarmIds(vms)| + if e.state.WarmReady? then 1 else 0
  {
    assert WarmIds(vms[name := e]) == WarmIds(vms) + if e.state.WarmReady? then {name} else {};
  }

  lemma InsertedTask(ps: map<nat, Provision>, t: nat)
    requires t in ps
    ensures |Refills(ps - {t})| == |Refills(ps)| - if ps[t].purpose.ForWarmPool? then 1 else 0
  {
    assert Refills(ps - {t}) == Refills(ps) - if ps[t].purpose.ForWarmPool? then {t} else {};
  }

  lemma WarmProgress(cfg: DynamicConfig, c: Core, now: int, t: nat, p: Progress)
    requires WarmSound(cfg, c) && Sound(c) && CanProgress(c, t, p)
    ensures WarmSound(cfg, Progressing(c, now, t, p))
  {
    hide WarmSound, EntriesSound, TeardownsSound;
    if p.StartDone? {
      assert CloneSound(c, t);
      WarmInsert(cfg, c, t, now);
    } else {
      WarmShrinks(cfg, c, Progressing(c, now, t, p));
    }
  }

  lemma WarmRetirement(cfg: DynamicConfig, c: Core, now: int, r: Retirement)
    requires WarmSound(cfg, c) && CanRetire(c, r)
    ensures WarmSound(cfg, Retiring(c, now, r))
  {
    hide WarmSound, StaleIds, CidsOf;
    if r.ReleaseBegin? && OwnedBy(c.pool.vms, r.vm, r.session) && !c.pool.vms[r.vm].dynamic {
      WarmUpdate(cfg, c, r.vm, c.pool.vms[r.vm].(state := Available));
    } else if r.Health? {
      WarmUpdate(cfg, c, r.vm, Checked(c.pool.vms[r.vm], r.healthy, now));
    } else {
      WarmShrinks(cfg, c, Retiring(c, now, r));
    }
  }

  lemma WarmStep(cfg: DynamicConfig, c: Core, now: int, s: Step)
    requires WarmSound(cfg, c) && Sound(c) && Enabled(cfg, c, s)
    ensures WarmSound(cfg, Apply(cfg, c, now, s))
  {
    hide WarmSound, Sound, CanAdmit, CanProgress, CanRetire, Admitting, Progressing, Retiring;
    match s
    case Admit(a) => WarmAdmission(cfg, c, now, a);
    case Provisioning(t, p) => WarmProgress(cfg, c, now, t, p);
    case Retire(r) => WarmRetirement(cfg, c, now, r);
  }

  lemma WarmInitially(cfg: DynamicConfig, c: Core)
    requires Initial(c)
    ensures WarmSound(cfg, c)
  {
    assert WarmIds(c.pool.vms) == {} && Refills(c.provisions) == {};
  }

  /** In every state of every run, warm VMs and the refill under way are at most `min_ready`. */
  lemma {:induction false} WarmBound(cfg: DynamicConfig, cs: seq<Core>, events: seq<Event>, i: nat)
    requires Trace(cfg, cs, events) && i < |cs|
    ensures |WarmIds(cs[i].pool.vms)| + |Refills(cs[i].provisions)| <= cfg.minReady
    ensures |Refills(cs[i].provisions)| <= 1
  {
    hide Enabled, Apply, Sound, Initial, WarmIds, Refills;
    if i == 0 {
      WarmInitially(cfg, cs[0]);
    } else {
      WarmBound(cfg, cs, events, i - 1);
      SoundTrace(cfg, cs, events, i - 1);
      WarmStep(cfg, cs[i - 1], events[i - 1].now, events[i - 1].step);
    }
  }

  lemma RequestsAndRefills(ps: map<nat, Provision>)
    ensures |ps| == |Requests(ps)| + |Refills(ps)|
  {
    assert ps.Keys == Requests(ps) + Refills(ps) && Requests(ps) !! Refills(ps);
  }

  /** With at most `peak` requests provisioning at once, dynamic VMs and provisions are at most `max_total` + `peak`. */
  lemma RequestBound(cfg: DynamicConfig, cs: seq<Core>, events: seq<Event>, peak: nat, i: nat)
    requires Trace(cfg, cs, events) && cfg.maxTotal >= 1 && i < |cs|
    requires forall j :: 0 <= j < |cs| ==> |Requests(cs[j].provisions)| <= peak
    ensures |DynamicIds(cs[i].pool.vms)| + |cs[i].provisions| <= cfg.maxTotal + peak
  {
    hide Trace, DynamicIds, UserIds, TasksOf, Requests, Refills, WarmIds;
    forall j | 0 <= j < |cs| ensures Peaks(cs[j], peak + 1, "", peak + 1) {
      WarmBound(cfg, cs, events, j);
      RequestsAndRefills(cs[j].provisions);
      TasksAreProvisions(cs[j].provisions, "");
    }
    QuotaBound(cfg, cs, events, peak + 1, "", peak + 1, i);
  }

  lemma TasksAreProvisions(ps: map<nat, Provision>, user: string)
    ensures |TasksOf(ps, user)| <= |ps|
  {
    assert TasksOf(ps, user) <= ps.Keys;
    Smaller(TasksOf(ps, user), ps.Keys);
  }
}
