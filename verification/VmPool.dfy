/**
 The pool as the broker holds it: entries, allocator and orphan candidates updated in place.
 Each method runs without interruption, or with the answers of the provider given to it; its
 effect is the one `PoolState` and `PoolSystem` give to the same segment.
 */
module VmPool {
  import opened Options
  import opened PoolState
  import opened OrphanCycles

  class CidAllocator {
    const start: nat
    const end: nat
    var used: set<nat>

    constructor (start: nat, end: nat)
      ensures this.start == start && this.end == end && used == {}
    {
      this.start, this.end, used := start, end, {};
    }

    method Allocate() returns (r: Option<nat>)
      modifies this
      ensures IsLowestFree(old(used), start, end, r)
      ensures used == old(used) + CidSet(r)
    {
      var cid := start;
      while cid <= end
        invariant start <= cid && used == old(used)
        invariant forall d :: start <= d < cid ==> d in used
        decreases end + 1 - cid
      {
        if cid !in used {
          used := used + {cid};
          return Some(cid);
        }
        cid := cid + 1;
      }
      return None;
    }

    method Release(cid: nat)
      modifies this
      ensures used == old(used) - {cid}
    {
      used := used - {cid};
    }

    /** The subtraction underflows outside these bounds; `PoolLedger` proves they hold. */
    method Available() returns (n: nat)
      requires start <= end && |used| <= end - start + 1
      ensures n + |used| == end - start + 1
    {
      n := end - start + 1 - |used|;
    }
  }

  /** What the provider answers to one clone_vm and the start that follows it. */
  datatype CloneAnswer = Refused | Cloned(pid: string, name: string, started: bool)

  predicate Works(a: CloneAnswer) {
    a.Cloned? && a.started
  }

  /** Clones get names that are not in the pool, and each another. */
  ghost predicate FreshClones(answers: nat -> CloneAnswer, vms: map<string, Entry>) {
    && (forall i :: answers(i).Cloned? ==> answers(i).name !in vms)
    && (forall i, j :: i < j && answers(i).Cloned? && answers(j).Cloned? ==> answers(i).name != answers(j).name)
  }

  datatype DeclaredVm = DeclaredVm(id: string, tags: seq<string>)

  function StaticEntry(v: DeclaredVm): Entry {
    Entry(v.id, v.tags, Available, 0, false, None, None, None)
  }

  /** The declaration of `k` that no later one replaces. */
  ghost predicate LastDeclared(statics: seq<DeclaredVm>, k: string, i: nat) {
    i < |statics| && statics[i].id == k && forall j :: i < j < |statics| ==> statics[j].id != k
  }

  function Declared(statics: seq<DeclaredVm>): map<string, Entry> {
    if statics == [] then map[] else
    var v := statics[|statics| - 1];
    Declared(statics[..|statics| - 1])[v.id := StaticEntry(v)]
  }

  /** Every declared VM is there, and no other, as its last declaration says. */
  lemma {:induction false} DeclaredLast(statics: seq<DeclaredVm>, k: string)
    ensures k in Declared(statics) <==> exists i :: LastDeclared(statics, k, i)
    ensures forall i: nat :: LastDeclared(statics, k, i) ==> Declared(statics)[k] == StaticEntry(statics[i])
  {
    if statics != [] {
      var n := |statics| - 1;
      DeclaredLast(statics[..n], k);
      if statics[n].id == k {
        assert LastDeclared(statics, k, n);
      } else {
        forall i: nat ensures LastDeclared(statics[..n], k, i) <==> LastDeclared(statics, k, i) {
        }
      }
    }
  }

  // ── What a sweep of expired sessions should leave ─────────────────────────

  predicate IsExpired(e: Entry, maxAge: nat, now: int) {
    e.state.Assigned? && WholeSeconds(now - e.state.since) > maxAge
  }

  function ExpiredIds(vms: map<string, Entry>, maxAge: nat, now: int): set<string> {
    set k | k in vms && IsExpired(vms[k], maxAge, now)
  }

  /** Static entries of `ids` become available again, dynamic ones go and free their CIDs. */
  function Expire(p: Pool, ids: set<string>): Pool {
    Pool(
      map k | k in p.vms && !(k in ids && p.vms[k].dynamic) ::
        if k in ids then p.vms[k].(state := Available) else p.vms[k],
      p.used - CidsOf(p.vms, ids * DynamicIds(p.vms)))
  }

  /** A warm VM cloned, started and inserted. */
  function WithWarm(p: Pool, answer: CloneAnswer, cid: nat, now: int): Pool
    requires answer.Cloned?
  {
    Pool(p.vms[answer.name := NewEntry(answer.name, answer.pid, cid, ForWarmPool, now)], p.used + {cid})
  }

  ghost predicate DistinctCids(vms: map<string, Entry>, ids: set<string>)
    requires ids <= vms.Keys
  {
    forall j, k :: j in ids && k in ids && j != k ==> vms[j].cid != vms[k].cid
  }

  predicate IsIdleWarm(e: Entry, cids: set<nat>) {
    e.dynamic && e.state.WarmReady? && e.served == 0 && e.cid.Some? && e.cid.value in cids
  }

  ghost predicate Kept(before: Pool, p: Pool) {
    before.used <= p.used && forall k :: k in before.vms ==> k in p.vms && p.vms[k] == before.vms[k]
  }

  ghost predicate AddedWarm(before: Pool, p: Pool) {
    forall k :: k in p.vms && k !in before.vms ==> IsIdleWarm(p.vms[k], p.used - before.used)
  }

  /** The entries added are idle warm VMs holding exactly the CIDs added, one each. */
  ghost predicate Refilled(before: Pool, p: Pool) {
    && Kept(before, p) && AddedWarm(before, p)
    && DistinctCids(p.vms, p.vms.Keys - before.vms.Keys)
    && |p.vms| - |before.vms| == |p.used| - |before.used|
  }

  /** The assignment began at least `maxAge` + 1 whole seconds ago. */
  ghost predicate Overdue(e: Entry, maxAge: nat, now: int) {
    e.state.Assigned? && now - e.state.since >= (maxAge + 1) * NANOS_PER_SEC
  }

  lemma ExpiredIff(e: Entry, maxAge: nat, now: int)
    ensures IsExpired(e, maxAge, now) <==> Overdue(e, maxAge, now)
  {
    if e.state.Assigned? { SecondsPassed(now - e.state.since, maxAge + 1); }
  }

  /** Some overdue dynamic entry holds the CID. */
  ghost predicate HeldOverdue(vms: map<string, Entry>, c: nat, maxAge: nat, now: int) {
    exists k :: k in vms && vms[k].dynamic && vms[k].cid == Some(c) && Overdue(vms[k], maxAge, now)
  }

  /** Overdue dynamic entries are gone with their CIDs, overdue static ones available, all others as they were. */
  ghost predicate OverdueGone(before: Pool, p: Pool, maxAge: nat, now: int) {
    && (forall k :: k in p.vms <==> k in before.vms && !(Overdue(before.vms[k], maxAge, now) && before.vms[k].dynamic))
    && (forall k :: k in p.vms && Overdue(before.vms[k], maxAge, now) ==> p.vms[k] == before.vms[k].(state := Available))
    && (forall k :: k in p.vms && !Overdue(before.vms[k], maxAge, now) ==> p.vms[k] == before.vms[k])
    && (forall c :: c in p.used <==> c in before.used && !HeldOverdue(before.vms, c, maxAge, now))
  }

  lemma ExpireMeans(p: Pool, maxAge: nat, now: int)
    ensures OverdueGone(p, Expire(p, ExpiredIds(p.vms, maxAge, now)), maxAge, now)
  {
    hide IsExpired, Overdue;
    forall e: Entry ensures IsExpired(e, maxAge, now) <==> Overdue(e, maxAge, now) {
      ExpiredIff(e, maxAge, now);
    }
    var ids := ExpiredIds(p.vms, maxAge, now) * DynamicIds(p.vms);
    forall c ensures c in CidsOf(p.vms, ids) <==> HeldOverdue(p.vms, c, maxAge, now) {
      if k :| k in p.vms && p.vms[k].dynamic && p.vms[k].cid == Some(c) && Overdue(p.vms[k], maxAge, now) {
        assert k in ids;
      }
    }
    hide CidsOf;
  }

  function Released(p: Pool, vm: string, session: string): Pool {
    if !OwnedBy(p.vms, vm, session) then p
    else if p.vms[vm].dynamic then Drop(p, vm, p.vms[vm].cid)
    else p.(vms := p.vms[vm := p.vms[vm].(state := Available)])
  }

  class VmPool {
    var vms: map<string, Entry>
    var candidates: map<string, int>
    const config: Option<DynamicConfig>
    const cids: CidAllocator

    ghost predicate Valid()
      reads this
    {
      && (forall k :: k in vms ==> vms[k].id == k)
      && (config.Some? ==> cids.start == config.value.cidStart && cids.end == config.value.cidEnd)
    }

    /** `build`: the declared VMs, all available, and an allocator over the configured range. */
    constructor (config: Option<DynamicConfig>, statics: seq<DeclaredVm>)
      ensures Valid() && fresh(cids) && this.config == config
      ensures cids.used == {} && candidates == map[]
      ensures vms == Declared(statics)
    {
      this.config := config;
      vms, candidates := map[], map[];
      if config.Some? {
        cids := new CidAllocator(config.value.cidStart, config.value.cidEnd);
      } else {
        cids := new CidAllocator(10, 99);
      }
      new;
      var i := 0;
      while i < |statics|
        invariant 0 <= i <= |statics| && cids.used == {} && candidates == map[]
        invariant vms == Declared(statics[..i]) && forall k :: k in vms ==> vms[k].id == k
      {
        assert statics[..i + 1][..i] == statics[..i];
        vms := vms[statics[i].id := StaticEntry(statics[i])];
        i := i + 1;
      }
      assert statics[..i] == statics;
    }

    ghost function Value(): Pool
      reads this, cids
    {
      Pool(vms, cids.used)
    }

    // ── Searches ────────────────────────────────────────────────────────────

    method FindAvailable(tag: Option<string>) returns (r: Option<string>)
      ensures r.Some? ==> LeastServed(vms, tag, r.value)
      ensures r.None? ==> NoneOffered(vms, tag)
      ensures r.Some? ==> vms[r.value].state == Available && (tag == None || tag.value in vms[r.value].tags)
      ensures r.None? ==> forall k :: k in vms && vms[k].state == Available ==> tag.Some? && tag.value !in vms[k].tags
    {
      r := None;
      var keys := vms.Keys;
      while keys != {}
        invariant keys <= vms.Keys
        invariant r.None? ==> forall k :: k in vms && k !in keys ==> !Offered(vms[k], tag)
        invariant r.Some? ==>
          && r.value in vms && Offered(vms[r.value], tag)
          && forall k :: k in vms && k !in keys && Offered(vms[k], tag) ==> vms[r.value].served <= vms[k].served
        decreases |keys|
      {
        var k :| k in keys;
        keys := keys - {k};
        if Offered(vms[k], tag) && (r.None? || vms[k].served < vms[r.value].served) {
          r := Some(k);
        }
      }
    }

    method FindWarmReady() returns (r: Option<string>)
      ensures r.Some? ==> OldestWarm(vms, r.value)
      ensures r.None? ==> NoneWarm(vms)
    {
      r := None;
      var keys := vms.Keys;
      while keys != {}
        invariant keys <= vms.Keys
        invariant r.None? ==> forall k :: k in vms && k !in keys ==> !vms[k].state.WarmReady?
        invariant r.Some? ==>
          && r.value in vms && vms[r.value].state.WarmReady?
          && forall k :: k in vms && k !in keys && vms[k].state.WarmReady? ==>
               vms[r.value].state.since <= vms[k].state.since
        decreases |keys|
      {
        var k :| k in keys;
        keys := keys - {k};
        if vms[k].state.WarmReady? && (r.None? || vms[k].state.since < vms[r.value].state.since) {
          r := Some(k);
        }
      }
    }

    // ── Assignment and provisioning ─────────────────────────────────────────

    method AssignVm(session: string, tag: Option<string>, now: int) returns (r: Option<string>)
      requires Valid()
      modifies this`vms
      ensures Valid()
      ensures r.None? ==> NoneOffered(vms, None) && vms == old(vms)
      ensures r.Some? ==>
        && AssignPick(old(vms), tag, r.value)
        && vms == old(vms)[r.value := Assign(old(vms)[r.value], session, now)]
        && vms[r.value] == old(vms)[r.value].(state := Assigned(session, now), served := old(vms)[r.value].served + 1)
    {
      r := FindAvailable(tag);
      if r.None? {
        r := FindAvailable(None);
      }
      if r.Some? {
        vms := vms[r.value := Assign(vms[r.value], session, now)];
      }
    }

    /** `assign_or_provision` up to its first await. */
    method BeginRequest(session: string, tag: Option<string>, user: string, now: int) returns (o: Outcome)
      requires Valid()
      modifies this`vms, cids
      ensures Valid()
      ensures OutcomeAllowed(config, old(Value()), tag, user, o)
      ensures Value() == OutcomeEffect(old(Value()), session, user, now, o)
    {
      var free := AssignVm(session, tag, now);
      if free.Some? {
        return StaticVm(free.value);
      }
      if config.Some? {
        if |DynamicIds(vms)| >= config.value.maxTotal {
          return QuotaReached;
        }
        if |UserIds(vms, user)| >= config.value.maxPerUser {
          return UserQuotaReached;
        }
      }
      var warm := FindWarmReady();
      if warm.Some? {
        vms := vms[warm.value := Assign(vms[warm.value], session, now).(user := Some(user))];
        return WarmVm(warm.value);
      }
      if config.None? {
        return NotConfigured;
      }
      var cid := cids.Allocate();
      return if cid.Some? then Admitted(cid.value) else CidsExhausted;
    }

    /** From the answer of clone_vm to the insertion of the entry, or the rollback. */
    method FinishProvision(purpose: Purpose, cid: nat, answer: CloneAnswer, now: int) returns (ok: bool)
      requires Valid()
      modifies this`vms, cids
      ensures Valid()
      ensures ok == Works(answer)
      ensures ok ==> Value() == old(Value()).(vms :=
                old(vms)[answer.name := NewEntry(answer.name, answer.pid, cid, purpose, now)])
      ensures !ok ==> Value() == old(Value()).(used := old(cids.used) - {cid})
    {
      if Works(answer) {
        vms := vms[answer.name := NewEntry(answer.name, answer.pid, cid, purpose, now)];
        return true;
      }
      cids.Release(cid);
      return false;
    }

    /** A whole request: it gets the session a VM of its own, or leaves the pool as it was. */
    method AssignOrProvision(
      session: string, tag: Option<string>, user: string, now: int, answer: CloneAnswer, later: int)
      returns (r: Option<string>)
      requires Valid() && (answer.Cloned? ==> answer.name !in vms)
      modifies this`vms, cids
      ensures Valid()
      ensures r.None? ==> Value() == old(Value())
      ensures r.Some? ==>
        && OwnedBy(vms, r.value, session)
        && (r.value in old(vms) ==>
              && (old(vms)[r.value].state.Available? || old(vms)[r.value].state.WarmReady?)
              && vms[r.value].state == Assigned(session, now) && vms[r.value].served == old(vms)[r.value].served + 1
              && (old(vms)[r.value].state.WarmReady? ==> vms[r.value].user == Some(user)))
        && (r.value !in old(vms) ==>
              && vms[r.value].dynamic && vms[r.value].cid.Some? && vms[r.value].cid.value !in old(cids.used)
              && vms[r.value].state == Assigned(session, later) && vms[r.value].served == 1
              && vms[r.value].user == Some(user) && vms[r.value].id == r.value
              && cids.used == old(cids.used) + {vms[r.value].cid.value})
        && forall k :: k != r.value ==> (k in vms <==> k in old(vms)) && (k in vms ==> vms[k] == old(vms)[k])
    {
      var o := BeginRequest(session, tag, user, now);
      match o
      case StaticVm(id) => return Some(id);
      case WarmVm(id) => return Some(id);
      case Admitted(cid) =>
        var ok := FinishProvision(ForSession(session, user), cid, answer, later);
        return if ok then Some(answer.name) else None;
      case _ => return None;
    }

    /** `provision_warm_vm` with the provider's answer. */
    method ProvisionWarm(answer: CloneAnswer, now: int) returns (ok: bool)
      requires Valid() && (answer.Cloned? ==> answer.name !in vms)
      modifies this`vms, cids
      ensures Valid()
      ensures !ok ==> Value() == old(Value())
      ensures !ok ==> config.None? || !Works(answer) || IsLowestFree(cids.used, cids.start, cids.end, None)
      ensures ok ==> exists cid ::
        && Works(answer) && IsLowestFree(old(cids.used), cids.start, cids.end, Some(cid))
        && Value() == WithWarm(old(Value()), answer, cid, now)
        && vms[answer.name] ==
             Entry(answer.name, ["dynamic"], WarmReady(now), 0, true, Some(answer.pid), Some(cid), None)
    {
      if config.None? {
        return false;
      }
      var cid := cids.Allocate();
      if cid.None? {
        return false;
      }
      ok := FinishProvision(ForWarmPool, cid.value, answer, now);
      assert old(cids.used) + {cid.value} - {cid.value} == old(cids.used);
    }

    /**
     Run alone, a replenishment ends: with `min_ready` warm VMs, with `max_total` dynamic ones, or
     with a provision that failed.
     */
    method Replenish(answers: nat -> CloneAnswer, now: int) returns (made: nat)
      requires Valid() && FreshClones(answers, vms)
      modifies this`vms, cids
      ensures Valid() && Refilled(old(Value()), Value())
      ensures |WarmIds(vms)| == |WarmIds(old(vms))| + made && |DynamicIds(vms)| == |DynamicIds(old(vms))| + made
      ensures config.None? ==> made == 0
      ensures config.Some? ==>
        || |WarmIds(vms)| >= config.value.minReady
        || |DynamicIds(vms)| >= config.value.maxTotal
        || !Works(answers(made))
        || IsLowestFree(cids.used, cids.start, cids.end, None)
      ensures config.Some? && made > 0 ==>
        |WarmIds(vms)| <= config.value.minReady && |DynamicIds(vms)| <= config.value.maxTotal
    {
      made := 0;
      if config.None? {
        return;
      }
      while |WarmIds(vms)| < config.value.minReady && |DynamicIds(vms)| < config.value.maxTotal
        invariant Valid() && Refilled(old(Value()), Value())
        invariant |WarmIds(vms)| == |WarmIds(old(vms))| + made && |DynamicIds(vms)| == |DynamicIds(old(vms))| + made
        invariant made > 0 ==> |WarmIds(vms)| <= config.value.minReady && |DynamicIds(vms)| <= config.value.maxTotal
        invariant forall i :: i >= made && answers(i).Cloned? ==> answers(i).name !in vms
        decreases config.value.maxTotal - |DynamicIds(vms)|
      {
        ghost var was := Value();
        var ok := ProvisionWarm(answers(made), now);
        if !ok {
          return;
        }
        ghost var cid :| IsLowestFree(was.used, cids.start, cids.end, Some(cid))
          && Value() == WithWarm(was, answers(made), cid, now);
        RefilledMore(old(Value()), was, answers(made), cid, now);
        made := made + 1;
      }
    }

    // ── Release and sweeps ──────────────────────────────────────────────────

    /** Frees the CID, then takes the entry out. */
    method Remove(vm: string, cid: Option<nat>)
      requires Valid()
      modifies this`vms, cids
      ensures Valid()
      ensures Value() == Drop(old(Value()), vm, cid)
    {
      if cid.Some? {
        cids.Release(cid.value);
      }
      vms := vms - {vm};
    }

    /** A release with nothing else going on. */
    method Release(vm: string, session: string)
      requires Valid()
      modifies this`vms, cids
      ensures Valid()
      ensures Value() == Released(old(Value()), vm, session)
      ensures
        var owned := vm in old(vms) && old(vms)[vm].state.Assigned? && old(vms)[vm].state.session == session;
        && (!owned ==> vms == old(vms) && cids.used == old(cids.used))
        && (owned && old(vms)[vm].dynamic ==>
              vms == old(vms) - {vm} && cids.used == old(cids.used) - CidSet(old(vms)[vm].cid))
        && (owned && !old(vms)[vm].dynamic ==>
              vms == old(vms)[vm := old(vms)[vm].(state := Available)] && cids.used == old(cids.used))
    {
      if vm !in vms || !vms[vm].state.Assigned? || vms[vm].state.session != session {
        return;
      }
      if vms[vm].dynamic {
        Remove(vm, vms[vm].cid);
      } else {
        vms := vms[vm := vms[vm].(state := Available)];
      }
    }

    /** `gc_stale_sessions` after its listing: collect, then free and remove one by one. */
    method DropStale(listed: set<string>)
      requires Valid()
      modifies this`vms, cids
      ensures Valid()
      ensures Value() == DropAll(old(Value()), StaleIds(old(vms), listed))
      ensures
        var stale := set k | k in old(vms) && old(vms)[k].dynamic && old(vms)[k].providerId.Some?
                             && old(vms)[k].providerId.value !in listed;
        vms == old(vms) - stale
        && cids.used == old(cids.used) - set k | k in stale && old(vms)[k].cid.Some? :: old(vms)[k].cid.value
    {
      var stale := StaleIds(vms, listed);
      ghost var p := Value();
      DropNone(p);
      assert stale <= p.vms.Keys;
      hide CidsOf, StaleIds, DropAll, Drop;
      var todo := stale;
      ghost var done := {};
      while todo != {}
        invariant Valid() && todo <= stale && done == stale - todo
        invariant stale <= p.vms.Keys && Value() == DropAll(p, done) && vms == p.vms - done
        decreases |todo|
      {
        var k :| k in todo;
        DropOneMore(p, done, k);
        Remove(k, vms[k].cid);
        todo, done := todo - {k}, done + {k};
      }
      assert done == stale;
    }

    /**
     `gc_expired_sessions` with nothing else going on: no assignment older than the limit is
     left, younger ones are untouched, statics are available again, and exactly the CIDs of the
     dynamic entries removed are freed.
     */
    method DropExpired(maxAge: nat, now: int)
      requires Valid()
      modifies this`vms, cids
      ensures Valid()
      ensures Value() == Expire(old(Value()), ExpiredIds(old(vms), maxAge, now))
      ensures OverdueGone(old(Value()), Value(), maxAge, now)
      ensures forall k :: k in vms ==> !Overdue(vms[k], maxAge, now)
    {
      var expired := ExpiredIds(vms, maxAge, now);
      var todo := expired;
      ghost var p := Value();
      ExpireNone(p);
      while todo != {}
        invariant Valid() && todo <= expired
        invariant Value() == Expire(p, expired - todo)
        decreases |todo|
      {
        var k :| k in todo;
        ExpireOneMore(p, expired - todo, k);
        assert expired - (todo - {k}) == (expired - todo) + {k};
        Release(k, vms[k].state.session);
        todo := todo - {k};
      }
      assert expired - todo == expired;
      ExpireMeans(p, maxAge, now);
    }

    /** One orphan sweep; `succeeds` are the VMs whose deletion works. */
    method CleanupOrphans(
      listing: seq<ProviderVm>, skipGrace: bool, now: int, succeeds: set<string>) returns (chosen: seq<string>)
      requires config.Some?
      modifies this`candidates
      ensures
        var orphans := Orphans(config.value, listing, ProviderIds(vms));
        (candidates, chosen) ==
          VisitAll(config.value, Retain(old(candidates), orphans), orphans, skipGrace, now, succeeds)
      ensures
        (candidates, chosen) ==
          SweepOnce(config.value, old(candidates), Cycle(listing, ProviderIds(vms), now, succeeds), skipGrace)
    {
      var orphans := Orphans(config.value, listing, ProviderIds(vms));
      candidates := Retain(candidates, orphans);
      chosen := [];
      var i := 0;
      ghost var kept := candidates;
      while i < |orphans|
        invariant 0 <= i <= |orphans|
        invariant (candidates, chosen) == VisitAll(config.value, kept, orphans[..i], skipGrace, now, succeeds)
      {
        var pid := orphans[i].providerId;
        var firstSeen := FirstSeen(candidates, pid, now);
        candidates := candidates[pid := firstSeen];
        if GraceOver(config.value, skipGrace, firstSeen, now) {
          chosen := chosen + [pid];
          if pid in succeeds {
            candidates := candidates - {pid};
          }
        }
        VisitOneMore(config.value, kept, orphans, i, skipGrace, now, succeeds);
        i := i + 1;
      }
      assert orphans[..i] == orphans;
    }

    /** The result of one health check. */
    method RecordHealth(vm: string, healthy: bool, now: int)
      requires Valid()
      modifies this`vms
      ensures Valid()
      ensures vms == if vm in old(vms) then old(vms)[vm := Checked(old(vms)[vm], healthy, now)] else old(vms)
      ensures vms.Keys == old(vms).Keys && forall k :: k in vms && k != vm ==> vms[k] == old(vms)[k]
      ensures vm in vms ==>
        && (!healthy && old(vms)[vm].state == Available ==> vms[vm] == old(vms)[vm].(state := Unhealthy(now)))
        && (healthy && old(vms)[vm].state.Unhealthy? ==> vms[vm] == old(vms)[vm].(state := Available))
        && (healthy && !old(vms)[vm].state.Unhealthy? ==> vms[vm] == old(vms)[vm])
        && (!healthy && old(vms)[vm].state != Available ==> vms[vm] == old(vms)[vm])
    {
      if vm in vms {
        if !healthy {
          if vms[vm].state.Available? {
            vms := vms[vm := vms[vm].(state := Unhealthy(now))];
          }
        } else if vms[vm].state.Unhealthy? {
          vms := vms[vm := vms[vm].(state := Available)];
        }
      }
    }
  }

  // ── Steps of the loops above ──────────────────────────────────────────────

  lemma WarmAdded(vms: map<string, Entry>, name: string, e: Entry)
    requires name !in vms && e.state.WarmReady?
    ensures |WarmIds(vms[name := e])| == |WarmIds(vms)| + 1
  {
    assert WarmIds(vms[name := e]) == WarmIds(vms) + {name};
  }

  lemma RefilledMore(before: Pool, p: Pool, answer: CloneAnswer, cid: nat, now: int)
    requires Refilled(before, p) && Works(answer) && answer.name !in p.vms && cid !in p.used
    ensures var q := WithWarm(p, answer, cid, now);
      && Refilled(before, q)
      && |WarmIds(q.vms)| == |WarmIds(p.vms)| + 1 && |DynamicIds(q.vms)| == |DynamicIds(p.vms)| + 1
  {
    var e := NewEntry(answer.name, answer.pid, cid, ForWarmPool, now);
    WarmAdded(p.vms, answer.name, e);
    DynamicAdd(p.vms, answer.name, e);
    RefilledEntry(before, p, answer.name, e, cid);
    hide WarmIds, DynamicIds, Refilled;
  }

  lemma DistinctCidsMore(vms: map<string, Entry>, ids: set<string>, taken: set<nat>, name: string, e: Entry)
    requires ids <= vms.Keys && DistinctCids(vms, ids) && name !in vms
    requires e.cid.Some? && e.cid.value !in taken
    requires forall k :: k in ids ==> vms[k].cid.Some? && vms[k].cid.value in taken
    ensures DistinctCids(vms[name := e], ids + {name})
  {
  }

  lemma AddedTaken(before: Pool, p: Pool)
    requires AddedWarm(before, p)
    ensures forall k :: k in p.vms.Keys - before.vms.Keys ==> p.vms[k].cid.Some? && p.vms[k].cid.value in p.used
  {
  }

  lemma WarmMore(before: Pool, p: Pool, name: string, e: Entry, cid: nat)
    requires AddedWarm(before, p) && before.used <= p.used && name !in p.vms && cid !in p.used
    requires IsIdleWarm(e, {cid})
    ensures AddedWarm(before, Pool(p.vms[name := e], p.used + {cid}))
  {
    var q := Pool(p.vms[name := e], p.used + {cid});
    forall k | k in q.vms && k !in before.vms ensures IsIdleWarm(q.vms[k], q.used - before.used) {
      if k != name { assert IsIdleWarm(p.vms[k], p.used - before.used); }
    }
  }

  lemma SizesMore(p: Pool, name: string, e: Entry, cid: nat)
    requires name !in p.vms && cid !in p.used
    ensures |p.vms[name := e]| == |p.vms| + 1 && |p.used + {cid}| == |p.used| + 1
  {
    assert p.vms[name := e].Keys == p.vms.Keys + {name};
  }

  lemma KeptMore(before: Pool, p: Pool, name: string, e: Entry, cid: nat)
    requires Kept(before, p) && name !in p.vms
    ensures Kept(before, Pool(p.vms[name := e], p.used + {cid}))
    ensures name !in before.vms && p.vms[name := e].Keys - before.vms.Keys == p.vms.Keys - before.vms.Keys + {name}
  {
  }

  lemma RefilledEntry(before: Pool, p: Pool, name: string, e: Entry, cid: nat)
    requires Refilled(before, p) && name !in p.vms && cid !in p.used
    requires IsIdleWarm(e, {cid})
    ensures Refilled(before, Pool(p.vms[name := e], p.used + {cid}))
  {
    hide DistinctCids, IsIdleWarm;
    AddedTaken(before, p);
    WarmMore(before, p, name, e, cid);
    KeptMore(before, p, name, e, cid);
    SizesMore(p, name, e, cid);
    assert e.cid == Some(cid) by { IdleCid(e, cid); }
    DistinctCidsMore(p.vms, p.vms.Keys - before.vms.Keys, p.used, name, e);
    hide AddedWarm, Kept;
  }

  lemma IdleCid(e: Entry, cid: nat)
    requires IsIdleWarm(e, {cid})
    ensures e.cid == Some(cid)
  {
  }

  lemma DropNone(p: Pool)
    ensures DropAll(p, {}) == p
  {
    assert CidsOf(p.vms, {}) == {};
  }

  lemma DropOneMore(p: Pool, done: set<string>, k: string)
    requires k in p.vms && k !in done
    ensures DropAll(p, done + {k}) == Drop(DropAll(p, done), k, p.vms[k].cid)
    ensures DropAll(p, done + {k}).vms == p.vms - (done + {k})
  {
    CidsOfMore(p.vms, done, k);
    hide CidsOf;
    assert p.vms - (done + {k}) == p.vms - done - {k};
  }

  lemma VisitOneMore(
    cfg: DynamicConfig, kept: map<string, int>, orphans: seq<ProviderVm>, i: nat, skipGrace: bool, now: int,
    succeeds: set<string>)
    requires i < |orphans|
    ensures
      var (c, chosen) := VisitAll(cfg, kept, orphans[..i], skipGrace, now, succeeds);
      var pid := orphans[i].providerId;
      var seen := FirstSeen(c, pid, now);
      VisitAll(cfg, kept, orphans[..i + 1], skipGrace, now, succeeds) ==
        if !GraceOver(cfg, skipGrace, seen, now) then (c[pid := seen], chosen)
        else if pid in succeeds then (c[pid := seen] - {pid}, chosen + [pid])
        else (c[pid := seen], chosen + [pid])
  {
    var (c, chosen) := VisitAll(cfg, kept, orphans[..i], skipGrace, now, succeeds);
    var pid := orphans[i].providerId;
    assert orphans[..i + 1][..i] == orphans[..i];
    assert c[pid := FirstSeen(c, pid, now)] - {pid} == c - {pid};
  }

  lemma CidsOfMore(vms: map<string, Entry>, ids: set<string>, k: string)
    requires k in vms
    ensures CidsOf(vms, ids + {k}) == CidsOf(vms, ids) + CidSet(vms[k].cid)
  {
    forall d | d in CidSet(vms[k].cid) ensures d in CidsOf(vms, ids + {k}) { assert k in ids + {k}; }
    forall d | d in CidsOf(vms, ids) ensures d in CidsOf(vms, ids + {k}) {
      var j :| j in ids && j in vms && vms[j].cid == Some(d);
      assert j in ids + {k};
    }
  }

  lemma ExpireNone(p: Pool)
    ensures Expire(p, {}) == p
  {
    assert {} * DynamicIds(p.vms) == {};
    assert CidsOf(p.vms, {}) == {};
    assert Expire(p, {}).vms == p.vms;
  }

  lemma ExpireOneMore(p: Pool, ids: set<string>, k: string)
    requires k in p.vms && k !in ids && p.vms[k].state.Assigned?
    ensures k in Expire(p, ids).vms && Expire(p, ids).vms[k] == p.vms[k]
    ensures Released(Expire(p, ids), k, p.vms[k].state.session) == Expire(p, ids + {k})
  {
    ExpireVms(p, ids, k);
    if p.vms[k].dynamic {
      assert (ids + {k}) * DynamicIds(p.vms) == ids * DynamicIds(p.vms) + {k};
      CidsOfMore(p.vms, ids * DynamicIds(p.vms), k);
    } else {
      assert (ids + {k}) * DynamicIds(p.vms) == ids * DynamicIds(p.vms);
    }
    hide CidsOf;
  }

  lemma ExpireVms(p: Pool, ids: set<string>, k: string)
    requires k in p.vms && k !in ids && p.vms[k].state.Assigned?
    ensures Released(Expire(p, ids), k, p.vms[k].state.session).vms == Expire(p, ids + {k}).vms
  {
    hide CidsOf;
    var q, r := Released(Expire(p, ids), k, p.vms[k].state.session), Expire(p, ids + {k});
    assert q.vms.Keys == r.vms.Keys;
    forall j | j in r.vms ensures q.vms[j] == r.vms[j] {
    }
  }
}
