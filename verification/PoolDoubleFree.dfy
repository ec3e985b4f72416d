/**
 A run that breaks the CID ledger: a stale sweep removes a VM while its own release awaits
 delete_vm, the freed CID is given out again, and the end of the release frees it once more.
 */
module PoolDoubleFree {
  import opened Options
  import opened PoolState
  import opened PoolSystem
  import opened PoolLedger

  const CFG := DynamicConfig(10, 99, 3, 10, 3, 180, "template", [])

  const SERVED: Provision := Provision(10, ForSession("s", "u"), Cloning)
  const VM: Entry := NewEntry("v", "p", 10, ForSession("s", "u"), 0)
  const WARM: Provision := Provision(10, ForWarmPool, Cloning)
  const SECOND: Provision := Provision(10, ForSession("t", "u"), Cloning)
  const RELEASE: Teardown := Teardown("v", "s", Some(10))

  ghost const STEPS: seq<Step> := [
    Admit(Request(0, "s", None, "u", Admitted(10))),
    Provisioning(0, CloneDone("p", "v")),
    Provisioning(0, StartDone),
    Retire(ReleaseBegin(1, "v", "s")),
    Retire(DropStale({})),
    Admit(Refill(2, 10)),
    Retire(ReleaseEnd(1)),
    Admit(Request(3, "t", None, "u", Admitted(10)))]

  /** The release, and what follows it, comes when the session is older than the limit. */
  function TimeOf(i: nat, limit: nat): int {
    if i < 3 then 0 else (limit + 1) * NANOS_PER_SEC
  }

  /** The state after the first `i` steps. */
  ghost function At(i: nat): Core {
    var names, pids := if i < 2 then {} else {"v"}, if i < 2 then {} else {"p"};
    var used := if i in {0, 5, 7} then {} else {10};
    var vms := if i in {3, 4} then map["v" := VM] else map[];
    var provisions :=
      if i == 1 then map[0 := SERVED]
      else if i == 2 then map[0 := SERVED.(phase := Cloned("p", "v"))]
      else if i in {6, 7} then map[2 := WARM]
      else if i == 8 then map[2 := WARM, 3 := SECOND]
      else map[];
    Core(Pool(vms, used), provisions, if i in {4, 5, 6} then map[1 := RELEASE] else map[], names, pids)
  }

  /** In an empty pool with CID 10 free, a request is given CID 10, and so is the refill. */
  lemma Allocates(c: Core, t: nat, session: string)
    requires c.pool == Pool(map[], {}) && t !in c.provisions
    ensures CanAdmit(CFG, c, Request(t, session, None, "u", Admitted(10)))
    ensures NoRefill(c.provisions) ==> CanAdmit(CFG, c, Refill(t, 10))
  {
    assert WarmIds(c.pool.vms) == {} && DynamicIds(c.pool.vms) == {} && UserIds(c.pool.vms, "u") == {};
  }

  ghost predicate StepHolds(i: nat, limit: nat)
    requires i < 8
  {
    Enabled(CFG, At(i), STEPS[i]) && At(i + 1) == Apply(CFG, At(i), TimeOf(i, limit), STEPS[i])
  }

  lemma Request0(limit: nat) ensures StepHolds(0, limit) {
    Allocates(At(0), 0, "s");
    hide CanAdmit;
  }

  lemma Clone1(limit: nat) ensures StepHolds(1, limit) {
  }

  lemma Start2(limit: nat) ensures StepHolds(2, limit) {
  }

  lemma Release3(limit: nat) ensures StepHolds(3, limit) {
  }

  lemma Stale4(limit: nat) ensures StepHolds(4, limit) {
    DropsVm();
    hide StaleIds, CidsOf, DropAll, NewEntry;
  }

  lemma DropsVm()
    ensures DropAll(Pool(map["v" := VM], {10}), StaleIds(map["v" := VM], {})) == Pool(map[], {})
  {
    assert StaleIds(map["v" := VM], {}) == {"v"};
    assert CidsOf(map["v" := VM], {"v"}) == {10};
    hide StaleIds, CidsOf;
  }

  lemma Refill5(limit: nat) ensures StepHolds(5, limit) {
    Allocates(At(5), 2, "");
    hide CanAdmit;
  }

  lemma Free6(limit: nat) ensures StepHolds(6, limit) {
    assert At(6).pool.vms - {"v"} == map[];
  }

  lemma Request7(limit: nat) ensures StepHolds(7, limit) {
    Allocates(At(7), 3, "t");
    hide CanAdmit;
  }

  lemma AllSteps(i: nat, limit: nat)
    requires i < 8
    ensures StepHolds(i, limit)
  {
    hide StepHolds;
    match i
    case 0 => Request0(limit);
    case 1 => Clone1(limit);
    case 2 => Start2(limit);
    case 3 => Release3(limit);
    case 4 => Stale4(limit);
    case 5 => Refill5(limit);
    case 6 => Free6(limit);
    case 7 => Request7(limit);
  }

  lemma Shared()
    ensures Initial(At(0)) && !NoSharing(At(8))
    ensures CidOf(At(8), Task(2)) == CidOf(At(8), Task(3)) == Some(10)
  {
    assert CidOf(At(8), Task(2)) == CidOf(At(8), Task(3)) == Some(10);
  }

  /**
   After this run, possible for every session limit, a refill and a request hold the same CID. The
   release begins when the session is too old, as the sweep of expired sessions has it.
   */
  lemma DoubleFree(limit: nat, cs: seq<Core>, events: seq<Event>)
    requires |cs| == 9 && forall i :: 0 <= i < 9 ==> cs[i] == At(i)
    requires |events| == 8 && forall i :: 0 <= i < 8 ==> events[i] == Event(TimeOf(i, limit), STEPS[i])
    ensures Trace(CFG, cs, events)
    ensures OwnedBy(cs[3].pool.vms, "v", "s") && events[3].now - cs[3].pool.vms["v"].state.since >= (limit + 1) * NANOS_PER_SEC
    ensures CidOf(cs[8], Task(2)) == CidOf(cs[8], Task(3)) == Some(10) && !NoSharing(cs[8])
  {
    Overdue(limit);
    hide Enabled, Apply, At, NoSharing, CidOf, Initial, TimeOf;
    Shared();
    forall i | 0 <= i < 8
      ensures Enabled(CFG, cs[i], events[i].step) && cs[i + 1] == Apply(CFG, cs[i], events[i].now, events[i].step)
    {
      AllSteps(i, limit);
      assert cs[i] == At(i) && cs[i + 1] == At(i + 1) && events[i] == Event(TimeOf(i, limit), STEPS[i]);
    }
  }

  lemma Overdue(limit: nat)
    ensures At(3).pool.vms == map["v" := VM] && VM.state == Assigned("s", 0)
    ensures TimeOf(3, limit) - 0 >= (limit + 1) * NANOS_PER_SEC
  {
  }
}
