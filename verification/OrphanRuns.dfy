/**
 Two runs in which a sweep takes a machine that a request is waiting for: one without grace, as at boot,
 and one with grace, while the provision takes as long as the grace period. The start succeeds before
 the deletion does, and the pool then holds a machine that the hypervisor no longer has.
 */
module OrphanRuns {
  import opened Options
  import opened PoolState
  import opened PoolSystem
  import opened OrphanSweep

  const RESERVED: Provision := Provision(10, ForSession("s", "u"), Cloning)
  const VM: ProviderVm := ProviderVm("p", Some("v"))

  function Config(grace: nat): DynamicConfig {
    DynamicConfig(10, 99, 3, 10, 3, grace, "template", [])
  }

  // ── The request ───────────────────────────────────────────────────────────

  ghost const REQUEST: Step := Admit(Request(0, "s", None, "u", Admitted(10)))
  ghost const CLONE: Step := Provisioning(0, CloneDone("p", "v"))
  ghost const START: Step := Provisioning(0, StartDone)

  const EMPTY: Core := Core(Pool(map[], {}), map[], map[], {}, {})
  const WAITING: Core := Core(Pool(map[], {10}), map[0 := RESERVED], map[], {}, {})
  const CLONED: Core := Core(Pool(map[], {10}), map[0 := RESERVED.(phase := Cloned("p", "v"))], map[], {"v"}, {"p"})

  function Started(now: int): Core {
    Core(Pool(map["v" := NewEntry("v", "p", 10, ForSession("s", "u"), now)], {10}), map[], map[], {"v"}, {"p"})
  }

  lemma RequestStep(grace: nat)
    ensures Enabled(Config(grace), EMPTY, REQUEST) && Apply(Config(grace), EMPTY, 0, REQUEST) == WAITING
  {
    assert WarmIds(map[]) == {} && DynamicIds(map[]) == {} && UserIds(map[], "u") == {};
    assert CanAdmit(Config(grace), EMPTY, REQUEST.admission);
    hide CanAdmit;
  }

  lemma CloneStep(grace: nat)
    ensures Enabled(Config(grace), WAITING, CLONE) && Apply(Config(grace), WAITING, 0, CLONE) == CLONED
  {
  }

  lemma StartStep(grace: nat, now: int)
    ensures Enabled(Config(grace), CLONED, START) && Apply(Config(grace), CLONED, now, START) == Started(now)
  {
  }

  lemma Taken(now: int)
    ensures OnItsWay(CLONED, "p")
    ensures OwnedBy(Started(now).pool.vms, "v", "s") && "p" in ProviderIds(Started(now).pool.vms)
  {
    assert CLONED.provisions[0].phase.pid == "p";
    assert Started(now).pool.vms["v"].providerId == Some("p");
  }

  lemma OneOrphan(grace: nat)
    ensures Orphans(Config(grace), [VM], {}) == [VM] && ProviderIds(map[]) == {}
  {
    assert [VM][1..] == [];
  }

  // ── Moves of the hypervisor and the sweep ─────────────────────────────────

  /** The world in which the VM is cloned, known to the hypervisor, and not yet in the pool. */
  function Waiting(now: int, candidates: map<string, int>, scans: map<nat, Scan>): World {
    World(CLONED, now, candidates, scans, map["p" := VM], map["p" := 0], map[])
  }

  function Served(now: int, candidates: map<string, int>, scans: map<nat, Scan>, hypervisor: map<string, ProviderVm>): World {
    World(Started(now), now, candidates, scans, hypervisor, map["p" := 0], map["p" := now])
  }

  ghost predicate Moves(grace: nat, w: World, m: Move, w': World) {
    Possible(Config(grace), w, m) && After(Config(grace), w, m) == w'
  }

  const FIRST: World := World(EMPTY, 0, map[], map[], map[], map[], map[])
  const SECOND: World := World(WAITING, 0, map[], map[], map[], map[], map[])

  lemma RequestMoves(grace: nat)
    ensures Moves(grace, FIRST, InPool(REQUEST), SECOND)
  {
    RequestStep(grace);
    hide Enabled, Apply;
  }

  lemma CloneMoves(grace: nat)
    ensures Moves(grace, SECOND, InPool(CLONE), Waiting(0, map[], map[]))
  {
    CloneStep(grace);
    hide Enabled, Apply;
  }

  lemma ListMoves(grace: nat, t: nat, skip: bool, now: int, candidates: map<string, int>, scans: map<nat, Scan>)
    requires t !in scans
    ensures Moves(grace, Waiting(now, candidates, scans), ListVms(t, skip, [VM]),
      Waiting(now, candidates, scans[t := Listed(skip, [VM])]))
  {
  }

  lemma DecideMoves(grace: nat, t: nat, skip: bool, now: int, candidates: map<string, int>, scans: map<nat, Scan>)
    requires t in scans && scans[t] == Listed(skip, [VM]) && candidates.Keys <= {"p"}
    ensures Moves(grace, Waiting(now, candidates, scans), Decide(t),
      Waiting(now, candidates, scans[t := Visiting(skip, [VM], now)]))
  {
    OneOrphan(grace);
    assert Retain(candidates, [VM]) == candidates by { assert VM in [VM] && "p" in Pids([VM]); }
    hide Orphans, ProviderIds, Retain;
  }

  lemma VisitMoves(grace: nat, t: nat, skip: bool, now: int, candidates: map<string, int>, scans: map<nat, Scan>)
    requires t in scans && scans[t] == Visiting(skip, [VM], now) && candidates.Keys <= {"p"}
    ensures var seen := FirstSeen(candidates, "p", now);
      var selected := GraceOver(Config(grace), skip, seen, now);
      Moves(grace, Waiting(now, candidates, scans), Visit(t), Waiting(now, map["p" := seen],
        scans[t := if selected then Deleting(skip, "p", [], now) else Visiting(skip, [], now)]))
  {
    assert [VM][1..] == [];
    assert candidates["p" := FirstSeen(candidates, "p", now)] == map["p" := FirstSeen(candidates, "p", now)];
    hide GraceOver;
  }

  lemma StartMoves(grace: nat, now: int, candidates: map<string, int>, scans: map<nat, Scan>)
    ensures Moves(grace, Waiting(now, candidates, scans), InPool(START), Served(now, candidates, scans, map["p" := VM]))
  {
    StartStep(grace, now);
    hide Enabled, Apply;
  }

  lemma DeleteMoves(grace: nat, t: nat, skip: bool, at: int, now: int, seen: int, scans: map<nat, Scan>)
    requires t in scans && scans[t] == Deleting(skip, "p", [], at)
    ensures Moves(grace, Served(now, map["p" := seen], scans, map["p" := VM]), DeleteDone(t, true),
      Served(now, map[], scans[t := Visiting(skip, [], at)], map[]))
  {
    assert map["p" := seen] - {"p"} == map[];
    assert map["p" := VM] - {"p"} == map[];
  }

  lemma FirstStarts()
    ensures Start(FIRST)
  {
  }

  /** Worlds and the moves between them, as a run. */
  lemma Together(grace: nat, ws: seq<World>, moves: seq<Move>)
    requires |ws| == |moves| + 1 && ws[0] == FIRST
    requires forall i :: 0 <= i < |moves| ==> Moves(grace, ws[i], moves[i], ws[i + 1])
    ensures Run(Config(grace), ws, moves)
  {
    FirstStarts();
    hide Possible, After, Start;
    forall i | 0 <= i < |moves|
      ensures Possible(Config(grace), ws[i], moves[i]) && ws[i + 1] == After(Config(grace), ws[i], moves[i])
    {
      assert Moves(grace, ws[i], moves[i], ws[i + 1]);
    }
  }

  // ── Without grace ─────────────────────────────────────────────────────────

  ghost const BOOT_MOVES: seq<Move> := [
    InPool(REQUEST), InPool(CLONE), ListVms(0, true, [VM]), Decide(0), Visit(0), InPool(START), DeleteDone(0, true)]

  ghost const BOOT_WORLDS: seq<World> := [
    FIRST,
    SECOND,
    Waiting(0, map[], map[]),
    Waiting(0, map[], map[0 := Listed(true, [VM])]),
    Waiting(0, map[], map[0 := Visiting(true, [VM], 0)]),
    Waiting(0, map["p" := 0], map[0 := Deleting(true, "p", [], 0)]),
    Served(0, map["p" := 0], map[0 := Deleting(true, "p", [], 0)], map["p" := VM]),
    Served(0, map[], map[0 := Visiting(true, [], 0)], map[])]

  lemma BootMoves(grace: nat, i: nat)
    requires i < 7
    ensures Moves(grace, BOOT_WORLDS[i], BOOT_MOVES[i], BOOT_WORLDS[i + 1])
  {
    hide Moves, Waiting, Served;
    match i
    case 0 => RequestMoves(grace);
    case 1 => CloneMoves(grace);
    case 2 => ListMoves(grace, 0, true, 0, map[], map[]);
    case 3 =>
      DecideMoves(grace, 0, true, 0, map[], map[0 := Listed(true, [VM])]);
      assert map[0 := Listed(true, [VM])][0 := Visiting(true, [VM], 0)] == map[0 := Visiting(true, [VM], 0)];
    case 4 =>
      VisitMoves(grace, 0, true, 0, map[], map[0 := Visiting(true, [VM], 0)]);
      assert map[0 := Visiting(true, [VM], 0)][0 := Deleting(true, "p", [], 0)] == map[0 := Deleting(true, "p", [], 0)];
    case 5 => StartMoves(grace, 0, map["p" := 0], map[0 := Deleting(true, "p", [], 0)]);
    case 6 =>
      DeleteMoves(grace, 0, true, 0, 0, 0, map[0 := Deleting(true, "p", [], 0)]);
      assert map[0 := Deleting(true, "p", [], 0)][0 := Visiting(true, [], 0)] == map[0 := Visiting(true, [], 0)];
  }

  /** Whatever the grace period, the sweep that skips it selects the VM on its way, and deletes it when its session has it. */
  lemma BootSweepTakesClone(grace: nat)
    ensures Run(Config(grace), BOOT_WORLDS, BOOT_MOVES)
    ensures var w := BOOT_WORLDS[4]; OnItsWay(w.core, "p") && w.scans[0].queue[0].providerId == "p" && Selects(Config(grace), w, 0)
    ensures var w := BOOT_WORLDS[7];
      OwnedBy(w.core.pool.vms, "v", "s") && "p" in ProviderIds(w.core.pool.vms) && "p" !in w.hypervisor
  {
    Taken(0);
    hide OnItsWay, OwnedBy, ProviderIds, Run, Moves;
    forall i | 0 <= i < 7 ensures Moves(grace, BOOT_WORLDS[i], BOOT_MOVES[i], BOOT_WORLDS[i + 1]) {
      BootMoves(grace, i);
    }
    Together(grace, BOOT_WORLDS, BOOT_MOVES);
  }

  // ── With grace ────────────────────────────────────────────────────────────

  ghost const DONE: Scan := Visiting(false, [], 0)
  const SEEN: map<string, int> := map["p" := 0]

  ghost function LateMove(i: nat, due: int): Move {
    match i
    case 0 => InPool(REQUEST)
    case 1 => InPool(CLONE)
    case 2 => ListVms(0, false, [VM])
    case 3 => Decide(0)
    case 4 => Visit(0)
    case 5 => Tick(due)
    case 6 => ListVms(1, false, [VM])
    case 7 => Decide(1)
    case 8 => Visit(1)
    case 9 => InPool(START)
    case _ => DeleteDone(1, true)
  }

  ghost function LateWorld(i: nat, due: int): World {
    match i
    case 0 => FIRST
    case 1 => SECOND
    case 2 => Waiting(0, map[], map[])
    case 3 => Waiting(0, map[], map[0 := Listed(false, [VM])])
    case 4 => Waiting(0, map[], map[0 := Visiting(false, [VM], 0)])
    case 5 => Waiting(0, SEEN, map[0 := DONE])
    case 6 => Waiting(due, SEEN, map[0 := DONE])
    case 7 => Waiting(due, SEEN, map[0 := DONE, 1 := Listed(false, [VM])])
    case 8 => Waiting(due, SEEN, map[0 := DONE, 1 := Visiting(false, [VM], due)])
    case 9 => Waiting(due, SEEN, map[0 := DONE, 1 := Deleting(false, "p", [], due)])
    case 10 => Served(due, SEEN, map[0 := DONE, 1 := Deleting(false, "p", [], due)], map["p" := VM])
    case _ => Served(due, map[], map[0 := DONE, 1 := Visiting(false, [], due)], map[])
  }

  lemma Due(grace: nat, due: int)
    requires grace > 0 && due == grace * NANOS_PER_SEC
    ensures due > 0 && GraceOver(Config(grace), false, 0, due) && !GraceOver(Config(grace), false, 0, 0)
  {
  }

  lemma TickMoves(grace: nat, due: int)
    requires due >= 0
    ensures Moves(grace, Waiting(0, SEEN, map[0 := DONE]), Tick(due), Waiting(due, SEEN, map[0 := DONE]))
  {
  }

  lemma FirstSweep(grace: nat, due: int, i: nat)
    requires grace > 0 && due == grace * NANOS_PER_SEC && i < 6
    ensures Moves(grace, LateWorld(i, due), LateMove(i, due), LateWorld(i + 1, due))
  {
    Due(grace, due);
    hide Moves, Waiting, Served, GraceOver;
    match i
    case 0 => RequestMoves(grace);
    case 1 => CloneMoves(grace);
    case 2 => ListMoves(grace, 0, false, 0, map[], map[]);
    case 3 =>
      DecideMoves(grace, 0, false, 0, map[], map[0 := Listed(false, [VM])]);
      assert map[0 := Listed(false, [VM])][0 := Visiting(false, [VM], 0)] == map[0 := Visiting(false, [VM], 0)];
    case 4 =>
      VisitMoves(grace, 0, false, 0, map[], map[0 := Visiting(false, [VM], 0)]);
      assert map[0 := Visiting(false, [VM], 0)][0 := DONE] == map[0 := DONE];
    case 5 => TickMoves(grace, due);
  }

  lemma Replaced(s: Scan, s': Scan)
    ensures map[0 := DONE][1 := s] == map[0 := DONE, 1 := s]
    ensures map[0 := DONE, 1 := s][1 := s'] == map[0 := DONE, 1 := s']
  {
  }

  lemma SecondSweep(grace: nat, due: int, i: nat)
    requires grace > 0 && due == grace * NANOS_PER_SEC && 6 <= i < 11
    ensures Moves(grace, LateWorld(i, due), LateMove(i, due), LateWorld(i + 1, due))
  {
    Due(grace, due);
    hide Moves, Waiting, Served, GraceOver;
    var listed, visiting, deleting := Listed(false, [VM]), Visiting(false, [VM], due), Deleting(false, "p", [], due);
    match i
    case 6 =>
      ListMoves(grace, 1, false, due, SEEN, map[0 := DONE]);
      Replaced(listed, listed);
    case 7 =>
      DecideMoves(grace, 1, false, due, SEEN, map[0 := DONE, 1 := listed]);
      Replaced(listed, visiting);
    case 8 =>
      VisitMoves(grace, 1, false, due, SEEN, map[0 := DONE, 1 := visiting]);
      Replaced(visiting, deleting);
    case 9 => StartMoves(grace, due, SEEN, map[0 := DONE, 1 := deleting]);
    case 10 =>
      DeleteMoves(grace, 1, false, due, due, 0, map[0 := DONE, 1 := deleting]);
      Replaced(deleting, Visiting(false, [], due));
  }

  /**
   Whatever the grace period, a VM whose provision takes just that long is selected while it is on its way
   and deleted when its session has it: what `OrphanSafety` says of late VMs cannot be left out.
   */
  lemma LateCloneTaken(grace: nat, due: int, ws: seq<World>, moves: seq<Move>)
    requires grace > 0 && due == grace * NANOS_PER_SEC
    requires |ws| == 12 && forall i :: 0 <= i < 12 ==> ws[i] == LateWorld(i, due)
    requires |moves| == 11 && forall i :: 0 <= i < 11 ==> moves[i] == LateMove(i, due)
    ensures Run(Config(grace), ws, moves)
    ensures Dooms(Config(grace), ws[8], 1, "p") && OnItsWay(ws[8].core, "p")
    ensures OwnedBy(ws[11].core.pool.vms, "v", "s") && "p" in ProviderIds(ws[11].core.pool.vms)
    ensures "p" !in ws[11].hypervisor
  {
    Doomed(grace, due);
    assert ws[0] == FIRST;
    hide OnItsWay, OwnedBy, ProviderIds, Run, Moves, Dooms, LateWorld, LateMove;
    forall i | 0 <= i < 11 ensures Moves(grace, ws[i], moves[i], ws[i + 1]) {
      if i < 6 { FirstSweep(grace, due, i); } else { SecondSweep(grace, due, i); }
    }
    Together(grace, ws, moves);
  }

  lemma Doomed(grace: nat, due: int)
    requires grace > 0 && due == grace * NANOS_PER_SEC
    ensures Dooms(Config(grace), LateWorld(8, due), 1, "p") && OnItsWay(LateWorld(8, due).core, "p")
    ensures var w := LateWorld(11, due);
      OwnedBy(w.core.pool.vms, "v", "s") && "p" in ProviderIds(w.core.pool.vms) && "p" !in w.hypervisor
  {
    Taken(due);
    Due(grace, due);
    hide OnItsWay, OwnedBy, ProviderIds, GraceOver;
  }
}
