/**
 The CID ledger: the allocator's `used` set against who actually holds a CID. Every CID in use
 is held by exactly one dynamic entry or provision under way, in every state of every run in
 which no release frees a CID it no longer owns; and only in those.
 */
module PoolLedger {
  import opened Options
  import opened PoolState
  import opened PoolSystem
  import opened PoolOwnership

  datatype Holder = Vm(id: string) | Task(task: nat)

  function CidOf(c: Core, h: Holder): Option<nat> {
    match h
    case Vm(id) => if id in c.pool.vms && c.pool.vms[id].dynamic then c.pool.vms[id].cid else None
    case Task(t) => if t in c.provisions then Some(c.provisions[t].cid) else None
  }

  ghost predicate AllCounted(c: Core) {
    forall h :: CidOf(c, h).Some? ==> CidOf(c, h).value in c.pool.used
  }

  ghost predicate NoSharing(c: Core) {
    forall h, k :: CidOf(c, h).Some? && CidOf(c, h) == CidOf(c, k) ==> h == k
  }

  ghost predicate NoLeak(c: Core) {
    forall cid :: cid in c.pool.used ==> exists h :: CidOf(c, h) == Some(cid)
  }

  /** `used` is exactly the set of CIDs held, and each has one holder. */
  ghost predicate Ledger(c: Core) {
    AllCounted(c) && NoSharing(c) && NoLeak(c)
  }

  /** Same holders, same CIDs, same set in use. */
  ghost predicate SameHoldings(c: Core, c': Core) {
    c'.pool.used == c.pool.used && forall h :: CidOf(c', h) == CidOf(c, h)
  }

  lemma LedgerFrame(c: Core, c': Core)
    requires Ledger(c) && SameHoldings(c, c')
    ensures Ledger(c')
  {
    forall cid | cid in c'.pool.used ensures exists h :: CidOf(c', h) == Some(cid) {
      var h :| CidOf(c, h) == Some(cid);
      assert CidOf(c', h) == Some(cid);
    }
  }

  lemma LedgerReserve(c: Core, t: nat, cid: nat, purpose: Purpose)
    requires Ledger(c) && t !in c.provisions && cid !in c.pool.used
    ensures Ledger(Reserve(c, t, cid, purpose))
  {
    var c' := Reserve(c, t, cid, purpose);
    assert CidOf(c', Task(t)) == Some(cid);
    assert forall h :: h != Task(t) ==> CidOf(c', h) == CidOf(c, h);
    forall d | d in c'.pool.used ensures exists h :: CidOf(c', h) == Some(d) {
      if d != cid {
        var h :| CidOf(c, h) == Some(d);
        assert CidOf(c', h) == Some(d);
      }
    }
  }

  /** Dropping some holders together with exactly their CIDs keeps the books straight. */
  lemma LedgerDrop(c: Core, c': Core, gone: set<Holder>, freed: set<nat>)
    requires Ledger(c) && c'.pool.used == c.pool.used - freed
    requires forall h :: CidOf(c', h) == if h in gone then None else CidOf(c, h)
    requires forall h :: h in gone && CidOf(c, h).Some? ==> CidOf(c, h).value in freed
    requires forall d :: d in freed && d in c.pool.used ==> exists h :: h in gone && CidOf(c, h) == Some(d)
    ensures Ledger(c')
  {
    forall h | CidOf(c', h).Some? ensures CidOf(c', h).value in c'.pool.used {
      assert forall k :: k in gone ==> CidOf(c, k) != CidOf(c, h);
    }
    forall d | d in c'.pool.used ensures exists h :: CidOf(c', h) == Some(d) {
      var h :| CidOf(c, h) == Some(d);
      assert CidOf(c', h) == Some(d);
    }
  }

  lemma LedgerGiveUp(c: Core, t: nat)
    requires Ledger(c) && t in c.provisions
    ensures Ledger(GiveUp(c, t))
  {
    assert CidOf(c, Task(t)) == Some(c.provisions[t].cid);
    LedgerDrop(c, GiveUp(c, t), {Task(t)}, {c.provisions[t].cid});
  }

  /** The CID passes from the task to the entry it inserts. */
  lemma LedgerInsert(c: Core, t: nat, now: int)
    requires Ledger(c) && t in c.provisions && c.provisions[t].phase.Cloned?
    requires c.provisions[t].phase.name !in c.pool.vms
    ensures Ledger(Insert(c, t, now))
  {
    var c' := Insert(c, t, now);
    var cid, v := c.provisions[t].cid, Vm(c.provisions[t].phase.name);
    assert CidOf(c, Task(t)) == Some(cid) && CidOf(c', v) == Some(cid);
    assert forall h :: h != Task(t) && h != v ==> CidOf(c', h) == CidOf(c, h);
    forall d | d in c'.pool.used ensures exists h :: CidOf(c', h) == Some(d) {
      var h :| CidOf(c, h) == Some(d);
      assert h != Task(t) ==> CidOf(c', h) == Some(d);
    }
  }

  lemma LedgerDropStale(c: Core, listed: set<string>)
    requires Ledger(c) && Sound(c)
    ensures Ledger(c.(pool := DropAll(c.pool, StaleIds(c.pool.vms, listed))))
  {
    var ids := StaleIds(c.pool.vms, listed);
    var c' := c.(pool := DropAll(c.pool, ids));
    var freed := CidsOf(c.pool.vms, ids);
    var gone := set k | k in ids :: Vm(k);
    forall d | d in freed ensures exists h :: h in gone && CidOf(c, h) == Some(d) {
      var k :| k in ids && c.pool.vms[k].cid == Some(d);
      assert Vm(k) in gone && CidOf(c, Vm(k)) == Some(d);
    }
    forall h | h in gone && CidOf(c, h).Some? ensures CidOf(c, h).value in freed {
    }
    LedgerDrop(c, c', gone, freed);
  }

  // ── Releases: exactly when the ledger survives one ────────────────────────

  /** The VM of the release is still there, or its CID is no longer in use by anyone. */
  ghost predicate SafeEnd(c: Core, d: Teardown) {
    d.vm in c.pool.vms || CidSet(d.cid) !! c.pool.used
  }

  /**
   The end of a release keeps the ledger if and only if it still owns the CID it frees, or that
   CID is free already.
   */
  lemma ReleaseEndExact(c: Core, t: nat)
    requires Ledger(c) && Sound(c) && t in c.teardowns
    ensures Ledger(Retiring(c, 0, ReleaseEnd(t))) <==> SafeEnd(c, c.teardowns[t])
  {
    var d := c.teardowns[t];
    var c' := Retiring(c, 0, ReleaseEnd(t));
    TeardownAt(c, t);
    if d.vm in c.pool.vms {
      EntryAt(c, d.vm);
      assert CidOf(c, Vm(d.vm)) == d.cid;
      LedgerDrop(c, c', {Vm(d.vm)}, CidSet(d.cid));
    } else if SafeEnd(c, d) {
      LedgerFrame(c, c');
    } else {
      var h :| CidOf(c, h) == d.cid;
      assert CidOf(c', h) == d.cid;
    }
  }

  ghost predicate SafeStep(c: Core, s: Step) {
    s.Retire? && s.retirement.ReleaseEnd? && s.retirement.task in c.teardowns ==>
      SafeEnd(c, c.teardowns[s.retirement.task])
  }

  lemma LedgerAdmission(cfg: DynamicConfig, c: Core, now: int, a: Admission)
    requires Ledger(c) && Sound(c) && CanAdmit(cfg, c, a)
    ensures Ledger(Admitting(cfg, c, now, a))
  {
    hide Ledger, Sound, NoneOffered, NoneWarm, WithinQuota;
    PicksIdle(cfg, c, a);
    match a
    case AssignVm(session, _, id) => LedgerFrame(c, Admitting(cfg, c, now, a));
    case Request(t, session, _, user, o) =>
      if o.Admitted? { LedgerReserve(c, t, o.cid, ForSession(session, user)); }
      else { LedgerFrame(c, Admitting(cfg, c, now, a)); }
    case Refill(t, cid) => LedgerReserve(c, t, cid, ForWarmPool);
  }

  lemma LedgerProgress(c: Core, now: int, t: nat, p: Progress)
    requires Ledger(c) && Sound(c) && CanProgress(c, t, p)
    ensures Ledger(Progressing(c, now, t, p))
  {
    hide Ledger;
    match p
    case StartDone =>
      assert CloneSound(c, t);
      LedgerInsert(c, t, now);
    case CloneFailed => LedgerGiveUp(c, t);
    case RolledBack => LedgerGiveUp(c, t);
    case _ => LedgerFrame(c, Progressing(c, now, t, p));
  }

  lemma LedgerRetirement(c: Core, now: int, r: Retirement)
    requires Ledger(c) && Sound(c) && CanRetire(c, r)
    ensures Ledger(Retiring(c, now, r)) <==> SafeStep(c, Retire(r))
  {
    hide Ledger, Sound, StaleIds, CidsOf, DropAll;
    match r
    case ReleaseBegin(t, vm, session) => LedgerFrame(c, Retiring(c, now, r));
    case ReleaseEnd(t) => ReleaseEndExact(c, t);
    case DropStale(listed) => LedgerDropStale(c, listed);
    case Health(vm, healthy) => LedgerFrame(c, Retiring(c, now, r));
  }

  lemma LedgerStep(cfg: DynamicConfig, c: Core, now: int, s: Step)
    requires Ledger(c) && Sound(c) && Enabled(cfg, c, s)
    ensures Ledger(Apply(cfg, c, now, s)) <==> SafeStep(c, s)
  {
    hide Ledger, Sound, CanAdmit, CanProgress, CanRetire, Admitting, Progressing, Retiring, SafeEnd;
    match s
    case Admit(a) => LedgerAdmission(cfg, c, now, a);
    case Provisioning(t, p) => LedgerProgress(c, now, t, p);
    case Retire(r) => LedgerRetirement(c, now, r);
  }

  lemma LedgerInitially(c: Core)
    requires Initial(c)
    ensures Ledger(c)
  {
  }

  ghost predicate LedgerThroughout(cs: seq<Core>) {
    forall i :: 0 <= i < |cs| ==> Ledger(cs[i])
  }

  ghost predicate SafeThroughout(cs: seq<Core>, events: seq<Event>)
    requires |cs| == |events| + 1
  {
    forall i :: 0 <= i < |events| ==> SafeStep(cs[i], events[i].step)
  }

  lemma {:induction false} LedgerUpTo(cfg: DynamicConfig, cs: seq<Core>, events: seq<Event>, i: nat)
    requires Trace(cfg, cs, events) && i < |cs|
    requires forall j :: 0 <= j < i ==> SafeStep(cs[j], events[j].step)
    ensures Ledger(cs[i])
  {
    hide Ledger, Enabled, Apply, Sound, SafeStep;
    if i == 0 {
      LedgerInitially(cs[0]);
    } else {
      LedgerUpTo(cfg, cs, events, i - 1);
      SoundTrace(cfg, cs, events, i - 1);
      LedgerStep(cfg, cs[i - 1], events[i - 1].now, events[i - 1].step);
    }
  }

  /**
   Over a whole run the ledger is exact in every state if and only if every release that ends
   still owns its CID, or finds it free.
   */
  lemma LedgerExact(cfg: DynamicConfig, cs: seq<Core>, events: seq<Event>)
    requires Trace(cfg, cs, events)
    ensures LedgerThroughout(cs) <==> SafeThroughout(cs, events)
  {
    hide Ledger, Enabled, Apply, Sound, SafeStep;
    if SafeThroughout(cs, events) {
      forall i | 0 <= i < |cs| ensures Ledger(cs[i]) { LedgerUpTo(cfg, cs, events, i); }
    }
    if LedgerThroughout(cs) {
      forall i | 0 <= i < |events| ensures SafeStep(cs[i], events[i].step) {
        SoundTrace(cfg, cs, events, i);
        assert Ledger(cs[i]) && Ledger(cs[i + 1]);
        LedgerStep(cfg, cs[i], events[i].now, events[i].step);
      }
    }
  }

  // ── Runs in which nothing is removed under a release ──────────────────────

  /** The step removes no entry that another release is busy tearing down. */
  ghost predicate Exclusive(c: Core, s: Step) {
    s.Retire? ==>
      && (s.retirement.ReleaseEnd? && s.retirement.task in c.teardowns ==>
            forall u :: u in c.teardowns && u != s.retirement.task ==>
              c.teardowns[u].vm != c.teardowns[s.retirement.task].vm)
      && (s.retirement.DropStale? ==>
            forall u :: u in c.teardowns ==>
              c.teardowns[u].vm !in StaleIds(c.pool.vms, s.retirement.listed))
  }

  ghost predicate AllPresent(c: Core) {
    forall t :: t in c.teardowns ==> c.teardowns[t].vm in c.pool.vms
  }

  lemma AllPresentAdmission(cfg: DynamicConfig, c: Core, now: int, a: Admission)
    requires AllPresent(c) && CanAdmit(cfg, c, a)
    ensures AllPresent(Admitting(cfg, c, now, a))
  {
    PicksIdle(cfg, c, a);
    hide CanAdmit;
  }

  lemma AllPresentStep(cfg: DynamicConfig, c: Core, now: int, s: Step)
    requires AllPresent(c) && Enabled(cfg, c, s) && Exclusive(c, s)
    ensures AllPresent(Apply(cfg, c, now, s))
  {
    hide CanAdmit, Admitting, StaleIds, CidsOf;
    match s
    case Admit(a) => AllPresentAdmission(cfg, c, now, a);
    case Provisioning(t, p) =>
    case Retire(r) =>
  }

  lemma {:induction false} AllPresentTrace(cfg: DynamicConfig, cs: seq<Core>, events: seq<Event>, i: nat)
    requires Trace(cfg, cs, events) && i < |cs|
    requires forall j :: 0 <= j < |events| ==> Exclusive(cs[j], events[j].step)
    ensures AllPresent(cs[i])
  {
    hide Enabled, Apply, Exclusive;
    if i > 0 {
      AllPresentTrace(cfg, cs, events, i - 1);
      AllPresentStep(cfg, cs[i - 1], events[i - 1].now, events[i - 1].step);
    }
  }

  /** No entry removed under a release: the ledger is exact in every state. */
  lemma LedgerExclusive(cfg: DynamicConfig, cs: seq<Core>, events: seq<Event>)
    requires Trace(cfg, cs, events)
    requires forall j :: 0 <= j < |events| ==> Exclusive(cs[j], events[j].step)
    ensures LedgerThroughout(cs)
  {
    hide Enabled, Apply, Ledger, Exclusive;
    forall i | 0 <= i < |events| ensures SafeStep(cs[i], events[i].step) {
      AllPresentTrace(cfg, cs, events, i);
    }
    LedgerExact(cfg, cs, events);
  }

  // ── Counting ──────────────────────────────────────────────────────────────

  ghost function Image<A(!new), B(!new)>(s: set<A>, f: A -> B): set<B> {
    set x | x in s :: f(x)
  }

  /** A one-to-one image has as many elements as its source. */
  lemma {:induction false} ImageSize<A(!new), B(!new)>(s: set<A>, f: A -> B)
    requires forall x, y :: x in s && y in s && f(x) == f(y) ==> x == y
    ensures |Image(s, f)| == |s|
  {
    if s != {} {
      var x :| x in s;
      var rest := s - {x};
      ImageSize(rest, f);
      assert Image(s, f) == Image(rest, f) + {f(x)};
    }
  }

  ghost function Holders(c: Core): set<Holder> {
    (set k | k in DynamicIds(c.pool.vms) :: Vm(k)) + (set t | t in c.provisions :: Task(t))
  }

  lemma HoldersSize(c: Core)
    ensures |Holders(c)| == |DynamicIds(c.pool.vms)| + |c.provisions|
  {
    hide DynamicIds;
    var ids, ts := DynamicIds(c.pool.vms), c.provisions.Keys;
    var vms, tasks := Image(ids, k => Vm(k)), Image(ts, t => Task(t));
    ImageSize(ids, k => Vm(k));
    ImageSize(ts, t => Task(t));
    assert Holders(c) == vms + tasks && vms !! tasks;
  }

  lemma HoldersHold(c: Core, h: Holder)
    requires Sound(c)
    ensures h in Holders(c) <==> CidOf(c, h).Some?
  {
    hide ClonesSound, TeardownsSound;
    if h.Vm? && h.id in c.pool.vms { EntryAt(c, h.id); }
  }

  lemma UsedSize(c: Core)
    requires Ledger(c) && Sound(c)
    ensures |c.pool.used| == |Holders(c)|
  {
    var f := (h: Holder) => var o := CidOf(c, h); if o.Some? then o.value else 0;
    forall h ensures h in Holders(c) <==> CidOf(c, h).Some? { HoldersHold(c, h); }
    hide Sound, Holders;
    ImageSize(Holders(c), f);
    var image := Image(Holders(c), f);
    forall d | d in c.pool.used ensures d in image {
      var h :| CidOf(c, h) == Some(d);
      assert h in Holders(c) && f(h) == d;
    }
    assert image == c.pool.used;
  }

  lemma {:induction false} RangeSize(s: set<nat>, lo: nat, hi: nat)
    requires lo <= hi + 1 && forall d :: d in s ==> lo <= d <= hi
    ensures |s| <= hi + 1 - lo
    decreases hi + 1 - lo
  {
    if lo == hi + 1 {
      assert s == {};
    } else {
      RangeSize(s - {lo}, lo + 1, hi);
    }
  }

  ghost predicate InRange(cfg: DynamicConfig, c: Core) {
    forall d :: d in c.pool.used ==> cfg.cidStart <= d <= cfg.cidEnd
  }

  lemma InRangeStep(cfg: DynamicConfig, c: Core, now: int, s: Step)
    requires InRange(cfg, c) && Enabled(cfg, c, s)
    ensures InRange(cfg, Apply(cfg, c, now, s))
  {
    hide NoneOffered, NoneWarm, WithinQuota, AssignPick, OldestWarm, StaleIds, CidsOf;
  }

  /** Only CIDs of the configured range are ever in use, whatever happens. */
  lemma {:induction false} InRangeTrace(cfg: DynamicConfig, cs: seq<Core>, events: seq<Event>, i: nat)
    requires Trace(cfg, cs, events) && i < |cs|
    ensures InRange(cfg, cs[i])
  {
    hide Enabled, Apply;
    if i > 0 {
      InRangeTrace(cfg, cs, events, i - 1);
      InRangeStep(cfg, cs[i - 1], events[i - 1].now, events[i - 1].step);
    }
  }

  /** In every state of every run, `available` does not underflow. */
  lemma NoUnderflow(cfg: DynamicConfig, cs: seq<Core>, events: seq<Event>, i: nat)
    requires Trace(cfg, cs, events) && i < |cs| && cfg.cidStart <= cfg.cidEnd
    ensures |cs[i].pool.used| <= cfg.cidEnd - cfg.cidStart + 1
  {
    hide Enabled, Apply;
    InRangeTrace(cfg, cs, events, i);
    RangeSize(cs[i].pool.used, cfg.cidStart, cfg.cidEnd);
  }

  /** As many CIDs are in use as there are dynamic entries and provisions under way. */
  lemma CidsInUse(cfg: DynamicConfig, cs: seq<Core>, events: seq<Event>, i: nat)
    requires Trace(cfg, cs, events) && SafeThroughout(cs, events) && i < |cs|
    ensures |DynamicIds(cs[i].pool.vms)| + |cs[i].provisions| == |cs[i].pool.used|
  {
    hide Enabled, Apply, Ledger, Sound, SafeStep, Holders;
    LedgerExact(cfg, cs, events);
    SoundTrace(cfg, cs, events, i);
    UsedSize(cs[i]);
    HoldersSize(cs[i]);
  }
}
