/**
 Quotas under concurrency. `max_total` and `max_per_user` are checked before the awaits of a
 provision, so simultaneous provisions may overshoot them: by how much at most is proved here.
 */
module PoolQuota {
  import opened Options
  import opened Sets
  import opened PoolState
  import opened PoolSystem
  import opened PoolOwnership

  function TasksOf(ps: map<nat, Provision>, user: string): set<nat> {
    set t | t in ps && ps[t].purpose.ForSession? && ps[t].purpose.user == user
  }

  /** Dynamic VMs in the pool and on their way there. */
  function Load(c: Core): nat {
    |DynamicIds(c.pool.vms)| + |c.provisions|
  }

  function UserLoad(c: Core, user: string): nat {
    |UserIds(c.pool.vms, user)| + |TasksOf(c.provisions, user)|
  }

  // ── How each kind of step moves the loads ─────────────────────────────────

  function Count(b: bool): nat { if b then 1 else 0 }

  predicate ForUser(p: Provision, user: string) {
    p.purpose.ForSession? && p.purpose.user == user
  }

  lemma TasksAdd(ps: map<nat, Provision>, t: nat, p: Provision, user: string)
    requires t !in ps
    ensures |ps[t := p]| == |ps| + 1
    ensures |TasksOf(ps[t := p], user)| == |TasksOf(ps, user)| + Count(ForUser(p, user))
  {
    assert ps[t := p].Keys == ps.Keys + {t};
    TasksOfAdd(ps, t, p, user);
    hide TasksOf;
  }

  lemma TasksOfAdd(ps: map<nat, Provision>, t: nat, p: Provision, user: string)
    requires t !in ps
    ensures TasksOf(ps[t := p], user) == TasksOf(ps, user) + (if ForUser(p, user) then {t} else {})
    ensures t !in TasksOf(ps, user)
  {
  }

  lemma UserAdd(vms: map<string, Entry>, id: string, e: Entry, user: string)
    requires id !in vms && e.dynamic
    ensures |UserIds(vms[id := e], user)| == |UserIds(vms, user)| + Count(e.user == Some(user))
  {
    if e.user == Some(user) {
      assert UserIds(vms[id := e], user) == UserIds(vms, user) + {id};
    } else {
      assert UserIds(vms[id := e], user) == UserIds(vms, user);
    }
  }

  lemma LoadInsert(c: Core, t: nat, now: int, user: string)
    requires t in c.provisions && c.provisions[t].phase.Cloned?
    requires c.provisions[t].phase.name !in c.pool.vms
    ensures Load(Insert(c, t, now)) == Load(c) && UserLoad(Insert(c, t, now), user) == UserLoad(c, user)
  {
    var p := c.provisions[t];
    var e := NewEntry(p.phase.name, p.phase.pid, p.cid, p.purpose, now);
    DynamicAdd(c.pool.vms, p.phase.name, e);
    UserAdd(c.pool.vms, p.phase.name, e, user);
    var rest := c.provisions - {t};
    TasksAdd(rest, t, p, user);
    assert rest[t := p] == c.provisions;
    hide DynamicIds, UserIds, TasksOf;
  }

  /** Entries leave, or stay dynamic for the same user; provisions leave, or keep their purpose. */
  lemma LoadShrinks(c: Core, c': Core, user: string)
    requires DynamicIds(c'.pool.vms) <= DynamicIds(c.pool.vms) && c'.provisions.Keys <= c.provisions.Keys
    requires UserIds(c'.pool.vms, user) <= UserIds(c.pool.vms, user)
    requires forall t :: t in c'.provisions ==> c'.provisions[t].purpose == c.provisions[t].purpose
    ensures Load(c') <= Load(c) && UserLoad(c', user) <= UserLoad(c, user)
  {
    Smaller(DynamicIds(c'.pool.vms), DynamicIds(c.pool.vms));
    Smaller(c'.provisions.Keys, c.provisions.Keys);
    Smaller(UserIds(c'.pool.vms, user), UserIds(c.pool.vms, user));
    Smaller(TasksOf(c'.provisions, user), TasksOf(c.provisions, user));
  }

  lemma LoadUpdate(c: Core, id: string, e: Entry, user: string)
    requires id in c.pool.vms && e.dynamic == c.pool.vms[id].dynamic
    requires e.user == c.pool.vms[id].user || e.user != Some(user)
    ensures Load(UpdateEntry(c, id, e)) == Load(c) && UserLoad(UpdateEntry(c, id, e), user) <= UserLoad(c, user)
  {
    var c' := UpdateEntry(c, id, e);
    assert DynamicIds(c'.pool.vms) == DynamicIds(c.pool.vms);
    LoadShrinks(c, c', user);
  }

  /** A warm VM joins the user's count. */
  lemma LoadWarm(c: Core, id: string, e: Entry, user: string)
    requires id in c.pool.vms && c.pool.vms[id].dynamic && c.pool.vms[id].user == None
    requires e.dynamic && e.user == Some(user)
    ensures var c' := UpdateEntry(c, id, e);
      Load(c') == Load(c) && |UserIds(c'.pool.vms, user)| == |UserIds(c.pool.vms, user)| + 1 && c'.provisions == c.provisions
  {
    var c' := UpdateEntry(c, id, e);
    assert DynamicIds(c'.pool.vms) == DynamicIds(c.pool.vms);
    assert UserIds(c'.pool.vms, user) == UserIds(c.pool.vms, user) + {id};
  }

  // ── The bounds are kept by every step ─────────────────────────────────────

  /** With at most `peak` provisions at a time. */
  ghost predicate WithinTotal(cfg: DynamicConfig, c: Core, peak: nat) {
    Load(c) <= cfg.maxTotal - 1 + peak
  }

  /** With at most `peak` provisions at a time for this user. */
  ghost predicate WithinUser(cfg: DynamicConfig, c: Core, user: string, peak: nat) {
    UserLoad(c, user) <= cfg.maxPerUser + peak
  }

  ghost predicate Within(cfg: DynamicConfig, c: Core, peak: nat, user: string, userPeak: nat) {
    WithinTotal(cfg, c, peak) && WithinUser(cfg, c, user, userPeak)
  }

  ghost predicate Peaks(c: Core, peak: nat, user: string, userPeak: nat) {
    |c.provisions| <= peak && |TasksOf(c.provisions, user)| <= userPeak
  }

  lemma WithinReserve(
    cfg: DynamicConfig, c: Core, t: nat, cid: nat, purpose: Purpose, peak: nat, user: string, userPeak: nat)
    requires Within(cfg, c, peak, user, userPeak) && t !in c.provisions
    requires Peaks(Reserve(c, t, cid, purpose), peak, user, userPeak)
    requires |DynamicIds(c.pool.vms)| < cfg.maxTotal
    requires purpose.ForSession? ==> |UserIds(c.pool.vms, purpose.user)| < cfg.maxPerUser
    ensures Within(cfg, Reserve(c, t, cid, purpose), peak, user, userPeak)
  {
    TasksAdd(c.provisions, t, Provision(cid, purpose, Cloning), user);
    hide DynamicIds, UserIds, TasksOf;
  }

  lemma WithinUpdate(
    cfg: DynamicConfig, c: Core, id: string, e: Entry, peak: nat, user: string, userPeak: nat)
    requires Within(cfg, c, peak, user, userPeak) && id in c.pool.vms && e.dynamic == c.pool.vms[id].dynamic
    requires e.user == c.pool.vms[id].user || e.user != Some(user)
    ensures Within(cfg, UpdateEntry(c, id, e), peak, user, userPeak)
  {
    LoadUpdate(c, id, e, user);
    hide Load, UserLoad;
  }

  lemma WithinWarm(
    cfg: DynamicConfig, c: Core, id: string, e: Entry, peak: nat, user: string, userPeak: nat)
    requires Within(cfg, c, peak, user, userPeak) && Peaks(UpdateEntry(c, id, e), peak, user, userPeak)
    requires id in c.pool.vms && c.pool.vms[id].dynamic && c.pool.vms[id].user == None
    requires e.dynamic && e.user.Some? && |UserIds(c.pool.vms, e.user.value)| < cfg.maxPerUser
    ensures Within(cfg, UpdateEntry(c, id, e), peak, user, userPeak)
  {
    if e.user == Some(user) {
      LoadWarm(c, id, e, user);
      hide DynamicIds, UserIds, TasksOf;
    } else {
      WithinUpdate(cfg, c, id, e, peak, user, userPeak);
    }
  }

  lemma WithinAdmission(
    cfg: DynamicConfig, c: Core, now: int, a: Admission, peak: nat, user: string, userPeak: nat)
    requires Within(cfg, c, peak, user, userPeak) && Sound(c) && CanAdmit(cfg, c, a)
    requires Peaks(Admitting(cfg, c, now, a), peak, user, userPeak)
    ensures Within(cfg, Admitting(cfg, c, now, a), peak, user, userPeak)
  {
    hide Within, Peaks, ClonesSound, TeardownsSound, EntriesSound, DynamicIds, UserIds, NoneOffered, NoneWarm, IsLowestFree;
    PicksIdle(cfg, c, a);
    match a
    case AssignVm(session, _, id) =>
      WithinUpdate(cfg, c, id, Assign(c.pool.vms[id], session, now), peak, user, userPeak);
    case Request(t, session, _, u, o) =>
      if o.StaticVm? {
        WithinUpdate(cfg, c, o.id, Assign(c.pool.vms[o.id], session, now), peak, user, userPeak);
      } else if o.WarmVm? {
        EntryAt(c, o.id);
        WithinWarm(cfg, c, o.id, Assign(c.pool.vms[o.id], session, now).(user := Some(u)), peak, user, userPeak);
      } else if o.Admitted? {
        WithinReserve(cfg, c, t, o.cid, ForSession(session, u), peak, user, userPeak);
      }
    case Refill(t, cid) => WithinReserve(cfg, c, t, cid, ForWarmPool, peak, user, userPeak);
  }

  lemma WithinShrinks(cfg: DynamicConfig, c: Core, c': Core, peak: nat, user: string, userPeak: nat)
    requires Within(cfg, c, peak, user, userPeak)
    requires Load(c') <= Load(c) && UserLoad(c', user) <= UserLoad(c, user)
    ensures Within(cfg, c', peak, user, userPeak)
  {
  }

  lemma WithinProgress(
    cfg: DynamicConfig, c: Core, now: int, t: nat, p: Progress, peak: nat, user: string, userPeak: nat)
    requires Within(cfg, c, peak, user, userPeak) && Sound(c) && CanProgress(c, t, p)
    ensures Within(cfg, Progressing(c, now, t, p), peak, user, userPeak)
  {
    hide Within, DynamicIds, UserIds, Load, UserLoad, EntriesSound, TeardownsSound;
    if p.StartDone? {
      assert CloneSound(c, t);
      LoadInsert(c, t, now, user);
    } else {
      LoadShrinks(c, Progressing(c, now, t, p), user);
    }
    WithinShrinks(cfg, c, Progressing(c, now, t, p), peak, user, userPeak);
  }

  lemma WithinRetirement(
    cfg: DynamicConfig, c: Core, now: int, r: Retirement, peak: nat, user: string, userPeak: nat)
    requires Within(cfg, c, peak, user, userPeak) && CanRetire(c, r)
    ensures Within(cfg, Retiring(c, now, r), peak, user, userPeak)
  {
    hide Within, Load, UserLoad, StaleIds, CidsOf;
    if r.ReleaseBegin? {
      if OwnedBy(c.pool.vms, r.vm, r.session) && !c.pool.vms[r.vm].dynamic {
        LoadUpdate(c, r.vm, c.pool.vms[r.vm].(state := Available), user);
      } else {
        LoadShrinks(c, Retiring(c, now, r), user);
      }
    } else if r.Health? {
      LoadUpdate(c, r.vm, Checked(c.pool.vms[r.vm], r.healthy, now), user);
    } else {
      LoadShrinks(c, Retiring(c, now, r), user);
    }
    WithinShrinks(cfg, c, Retiring(c, now, r), peak, user, userPeak);
  }

  lemma WithinStep(cfg: DynamicConfig, c: Core, now: int, s: Step, peak: nat, user: string, userPeak: nat)
    requires Within(cfg, c, peak, user, userPeak) && Sound(c) && Enabled(cfg, c, s)
    requires Peaks(Apply(cfg, c, now, s), peak, user, userPeak)
    ensures Within(cfg, Apply(cfg, c, now, s), peak, user, userPeak)
  {
    hide Within, Peaks, Sound, CanAdmit, CanProgress, CanRetire, Admitting, Progressing, Retiring;
    match s
    case Admit(a) => WithinAdmission(cfg, c, now, a, peak, user, userPeak);
    case Provisioning(t, p) => WithinProgress(cfg, c, now, t, p, peak, user, userPeak);
    case Retire(r) => WithinRetirement(cfg, c, now, r, peak, user, userPeak);
  }

  lemma WithinInitially(cfg: DynamicConfig, c: Core, peak: nat, user: string, userPeak: nat)
    requires Initial(c) && cfg.maxTotal >= 1
    ensures Within(cfg, c, peak, user, userPeak)
  {
    assert DynamicIds(c.pool.vms) == {} && UserIds(c.pool.vms, user) == {} && TasksOf(c.provisions, user) == {};
  }

  /**
   In every state of every run, dynamic VMs and provisions under way number at most
   `max_total` - 1 + the largest number of simultaneous provisions (so at most `max_total` when
   provisions are serialised), and a user's at most `max_per_user` + that user's largest number.
   */
  lemma {:induction false} QuotaBound(
    cfg: DynamicConfig, cs: seq<Core>, events: seq<Event>, peak: nat, user: string, userPeak: nat, i: nat)
    requires Trace(cfg, cs, events) && cfg.maxTotal >= 1 && i < |cs|
    requires forall j :: 0 <= j < |cs| ==> Peaks(cs[j], peak, user, userPeak)
    ensures |DynamicIds(cs[i].pool.vms)| + |cs[i].provisions| <= cfg.maxTotal - 1 + peak
    ensures |UserIds(cs[i].pool.vms, user)| + |TasksOf(cs[i].provisions, user)| <= cfg.maxPerUser + userPeak
  {
    WithinTrace(cfg, cs, events, peak, user, userPeak, i);
    hide DynamicIds, UserIds, TasksOf, Enabled, Apply;
  }

  lemma {:induction false} WithinTrace(
    cfg: DynamicConfig, cs: seq<Core>, events: seq<Event>, peak: nat, user: string, userPeak: nat, i: nat)
    requires Trace(cfg, cs, events) && cfg.maxTotal >= 1 && i < |cs|
    requires forall j :: 0 <= j < |cs| ==> Peaks(cs[j], peak, user, userPeak)
    ensures Within(cfg, cs[i], peak, user, userPeak)
  {
    hide Within, Peaks, Enabled, Apply, Sound, Initial;
    if i == 0 {
      WithinInitially(cfg, cs[0], peak, user, userPeak);
    } else {
      WithinTrace(cfg, cs, events, peak, user, userPeak, i - 1);
      SoundTrace(cfg, cs, events, i - 1);
      assert Peaks(cs[i], peak, user, userPeak);
      WithinStep(cfg, cs[i - 1], events[i - 1].now, events[i - 1].step, peak, user, userPeak);
    }
  }

  // ── Exactly when the quotas hold ──────────────────────────────────────────

  /** The step starts a provision. */
  predicate Starts(s: Step) {
    s.Admit? && ((s.admission.Request? && s.admission.outcome.Admitted?) || s.admission.Refill?)
  }

  /** The step adds to what counts for the user: a provision for them, or a warm VM given to them. */
  predicate StartsFor(s: Step, user: string) {
    s.Admit? && s.admission.Request? && s.admission.user == user &&
    (s.admission.outcome.Admitted? || s.admission.outcome.WarmVm?)
  }

  lemma LoadReserve(c: Core, t: nat, cid: nat, purpose: Purpose, user: string)
    requires t !in c.provisions
    ensures var c' := Reserve(c, t, cid, purpose);
      Load(c') == Load(c) + 1 &&
      UserLoad(c', user) == UserLoad(c, user) + Count(purpose.ForSession? && purpose.user == user)
  {
    TasksAdd(c.provisions, t, Provision(cid, purpose, Cloning), user);
    hide DynamicIds, UserIds, TasksOf;
  }

  ghost predicate MovesLoads(c: Core, c': Core, s: Step, user: string) {
    && (if Starts(s) then Load(c') == Load(c) + 1 else Load(c') <= Load(c))
    && (if StartsFor(s, user) then UserLoad(c', user) == UserLoad(c, user) + 1
        else UserLoad(c', user) <= UserLoad(c, user))
  }

  lemma AdmissionMovesLoads(cfg: DynamicConfig, c: Core, now: int, a: Admission, user: string)
    requires Sound(c) && CanAdmit(cfg, c, a)
    ensures MovesLoads(c, Admitting(cfg, c, now, a), Admit(a), user)
  {
    hide Load, UserLoad, ClonesSound, TeardownsSound, EntriesSound, DynamicIds, UserIds, TasksOf;
    PicksIdle(cfg, c, a);
    match a
    case AssignVm(session, _, id) =>
      hide CanAdmit;
      LoadUpdate(c, id, Assign(c.pool.vms[id], session, now), user);
    case Request(t, session, _, u, o) =>
      hide CanAdmit;
      if o.StaticVm? {
        LoadUpdate(c, o.id, Assign(c.pool.vms[o.id], session, now), user);
      } else if o.WarmVm? {
        EntryAt(c, o.id);
        GivesWarm(c, o.id, Assign(c.pool.vms[o.id], session, now).(user := Some(u)), u, user);
      } else if o.Admitted? {
        LoadReserve(c, t, o.cid, ForSession(session, u), user);
      }
    case Refill(t, cid) =>
      hide CanAdmit;
      LoadReserve(c, t, cid, ForWarmPool, user);
  }

  lemma GivesWarm(c: Core, id: string, e: Entry, u: string, user: string)
    requires id in c.pool.vms && c.pool.vms[id].dynamic && c.pool.vms[id].user == None
    requires e.dynamic && e.user == Some(u)
    ensures var c' := UpdateEntry(c, id, e);
      Load(c') == Load(c) &&
      if u == user then UserLoad(c', user) == UserLoad(c, user) + 1 else UserLoad(c', user) <= UserLoad(c, user)
  {
    hide DynamicIds, UserIds, TasksOf;
    if u == user { LoadWarm(c, id, e, user); } else { LoadUpdate(c, id, e, user); }
  }

  lemma ProgressMovesLoads(c: Core, now: int, t: nat, p: Progress, user: string)
    requires Sound(c) && CanProgress(c, t, p)
    ensures MovesLoads(c, Progressing(c, now, t, p), Provisioning(t, p), user)
  {
    hide Load, UserLoad, DynamicIds, UserIds, EntriesSound, TeardownsSound;
    if p.StartDone? {
      assert CloneSound(c, t);
      LoadInsert(c, t, now, user);
    } else {
      LoadShrinks(c, Progressing(c, now, t, p), user);
    }
  }

  lemma RetirementMovesLoads(c: Core, now: int, r: Retirement, user: string)
    requires CanRetire(c, r)
    ensures MovesLoads(c, Retiring(c, now, r), Retire(r), user)
  {
    hide Load, UserLoad, StaleIds, CidsOf;
    if r.ReleaseBegin? && OwnedBy(c.pool.vms, r.vm, r.session) && !c.pool.vms[r.vm].dynamic {
      LoadUpdate(c, r.vm, c.pool.vms[r.vm].(state := Available), user);
    } else if r.Health? {
      LoadUpdate(c, r.vm, Checked(c.pool.vms[r.vm], r.healthy, now), user);
    } else {
      LoadShrinks(c, Retiring(c, now, r), user);
    }
  }

  /** A step raises a load only as said, and then by one. */
  lemma StepMovesLoads(cfg: DynamicConfig, c: Core, now: int, s: Step, user: string)
    requires Sound(c) && Enabled(cfg, c, s)
    ensures MovesLoads(c, Apply(cfg, c, now, s), s, user)
  {
    hide MovesLoads, Sound, CanAdmit, CanProgress, CanRetire, Admitting, Progressing, Retiring;
    match s
    case Admit(a) => AdmissionMovesLoads(cfg, c, now, a, user);
    case Provisioning(t, p) => ProgressMovesLoads(c, now, t, p, user);
    case Retire(r) => RetirementMovesLoads(c, now, r, user);
  }

  lemma NoLoadInitially(c: Core, user: string)
    requires Initial(c)
    ensures Load(c) == 0 && UserLoad(c, user) == 0
  {
    assert DynamicIds(c.pool.vms) == {} && UserIds(c.pool.vms, user) == {} && TasksOf(c.provisions, user) == {};
  }

  /** Every provision is started below the quota. */
  ghost predicate StartsBelow(cfg: DynamicConfig, cs: seq<Core>, events: seq<Event>)
    requires |cs| == |events| + 1
  {
    forall i :: 0 <= i < |events| && Starts(events[i].step) ==> Load(cs[i]) < cfg.maxTotal
  }

  ghost predicate StartsBelowFor(cfg: DynamicConfig, cs: seq<Core>, events: seq<Event>, user: string)
    requires |cs| == |events| + 1
  {
    forall i :: 0 <= i < |events| && StartsFor(events[i].step, user) ==> UserLoad(cs[i], user) < cfg.maxPerUser
  }

  ghost predicate TotalKept(cfg: DynamicConfig, cs: seq<Core>) {
    forall i :: 0 <= i < |cs| ==> Load(cs[i]) <= cfg.maxTotal
  }

  ghost predicate UserKept(cfg: DynamicConfig, cs: seq<Core>, user: string) {
    forall i :: 0 <= i < |cs| ==> UserLoad(cs[i], user) <= cfg.maxPerUser
  }

  lemma TraceMovesLoads(cfg: DynamicConfig, cs: seq<Core>, events: seq<Event>, user: string, i: nat)
    requires Trace(cfg, cs, events) && i < |events|
    ensures MovesLoads(cs[i], cs[i + 1], events[i].step, user)
  {
    hide MovesLoads, Enabled, Apply, Sound, Initial;
    SoundTrace(cfg, cs, events, i);
    StepMovesLoads(cfg, cs[i], events[i].now, events[i].step, user);
  }

  lemma {:induction false} TotalUpTo(cfg: DynamicConfig, cs: seq<Core>, events: seq<Event>, i: nat)
    requires Trace(cfg, cs, events) && i < |cs| && StartsBelow(cfg, cs, events)
    ensures Load(cs[i]) <= cfg.maxTotal
  {
    hide Load, UserLoad, Enabled, Apply, Initial;
    if i == 0 {
      NoLoadInitially(cs[0], "");
    } else {
      TotalUpTo(cfg, cs, events, i - 1);
      TraceMovesLoads(cfg, cs, events, "", i - 1);
    }
  }

  lemma {:induction false} UserUpTo(cfg: DynamicConfig, cs: seq<Core>, events: seq<Event>, user: string, i: nat)
    requires Trace(cfg, cs, events) && i < |cs| && StartsBelowFor(cfg, cs, events, user)
    ensures UserLoad(cs[i], user) <= cfg.maxPerUser
  {
    hide Load, UserLoad, Enabled, Apply, Initial;
    if i == 0 {
      NoLoadInitially(cs[0], user);
    } else {
      UserUpTo(cfg, cs, events, user, i - 1);
      TraceMovesLoads(cfg, cs, events, user, i - 1);
    }
  }

  /**
   Over a whole run `max_total` is kept if and only if every provision is started while VMs and
   provisions together are below it. The code compares the VMs alone.
   */
  lemma TotalExact(cfg: DynamicConfig, cs: seq<Core>, events: seq<Event>)
    requires Trace(cfg, cs, events)
    ensures TotalKept(cfg, cs) <==> StartsBelow(cfg, cs, events)
  {
    hide Load, UserLoad, Enabled, Apply, Initial, Starts, StartsFor;
    if StartsBelow(cfg, cs, events) {
      forall i | 0 <= i < |cs| ensures Load(cs[i]) <= cfg.maxTotal { TotalUpTo(cfg, cs, events, i); }
    }
    if TotalKept(cfg, cs) {
      forall i | 0 <= i < |events| && Starts(events[i].step) ensures Load(cs[i]) < cfg.maxTotal {
        TraceMovesLoads(cfg, cs, events, "", i);
        assert Load(cs[i + 1]) <= cfg.maxTotal;
      }
    }
  }

  /** The same for a user's quota, which warm VMs given to the user count toward too. */
  lemma UserExact(cfg: DynamicConfig, cs: seq<Core>, events: seq<Event>, user: string)
    requires Trace(cfg, cs, events)
    ensures UserKept(cfg, cs, user) <==> StartsBelowFor(cfg, cs, events, user)
  {
    hide Load, UserLoad, Enabled, Apply, Initial, Starts, StartsFor;
    if StartsBelowFor(cfg, cs, events, user) {
      forall i | 0 <= i < |cs| ensures UserLoad(cs[i], user) <= cfg.maxPerUser { UserUpTo(cfg, cs, events, user, i); }
    }
    if UserKept(cfg, cs, user) {
      forall i | 0 <= i < |events| && StartsFor(events[i].step, user) ensures UserLoad(cs[i], user) < cfg.maxPerUser {
        TraceMovesLoads(cfg, cs, events, user, i);
        assert UserLoad(cs[i + 1], user) <= cfg.maxPerUser;
      }
    }
  }
}
