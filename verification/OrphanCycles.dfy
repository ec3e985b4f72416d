/** One orphan sweep run alone, as a function on values, and what repeated sweeps achieve. */
module OrphanCycles {
  import opened PoolState

  /** One visit: the candidates and choices before and after it. */
  function VisitOne(
    cfg: DynamicConfig, c: map<string, int>, chosen: seq<string>, pid: string, skipGrace: bool, now: int,
    succeeds: set<string>): (map<string, int>, seq<string>)
  {
    var seen := FirstSeen(c, pid, now);
    if !GraceOver(cfg, skipGrace, seen, now) then (c[pid := seen], chosen)
    else if pid in succeeds then (c - {pid}, chosen + [pid])
    else (c[pid := seen], chosen + [pid])
  }

  /** Visits the orphans in order: the candidates left and the ids chosen for deletion. */
  function VisitAll(
    cfg: DynamicConfig, candidates: map<string, int>, orphans: seq<ProviderVm>, skipGrace: bool, now: int,
    succeeds: set<string>): (map<string, int>, seq<string>)
  {
    if orphans == [] then (candidates, []) else
    var n := |orphans| - 1;
    var (c, chosen) := VisitAll(cfg, candidates, orphans[..n], skipGrace, now, succeeds);
    VisitOne(cfg, c, chosen, orphans[n].providerId, skipGrace, now, succeeds)
  }

  ghost predicate Distinct(vs: seq<ProviderVm>) {
    forall i, j :: 0 <= i < j < |vs| ==> vs[i].providerId != vs[j].providerId
  }

  /** What a sweep has decided about a VM, `visited` or not so far. */
  ghost predicate Decides(
    cfg: DynamicConfig, candidates: map<string, int>, visited: bool, skipGrace: bool, now: int,
    succeeds: set<string>, pid: string, c: map<string, int>, chosen: seq<string>)
  {
    var seen := FirstSeen(candidates, pid, now);
    && (pid in chosen <==> visited && GraceOver(cfg, skipGrace, seen, now))
    && (pid in c <==> if visited then !(pid in chosen && pid in succeeds) else pid in candidates)
    && (pid in c ==> c[pid] == seen)
  }

  lemma LastPid(orphans: seq<ProviderVm>)
    requires orphans != [] && Distinct(orphans)
    ensures var n := |orphans| - 1; var pid := orphans[n].providerId;
      Distinct(orphans[..n]) && pid !in Pids(orphans[..n]) && Pids(orphans) == Pids(orphans[..n]) + {pid}
  {
    var n := |orphans| - 1;
    assert orphans == orphans[..n] + [orphans[n]];
    forall v | v in orphans[..n] ensures v.providerId != orphans[n].providerId {
      var i :| 0 <= i < n && orphans[i] == v;
    }
  }

  lemma VisitOneDecides(
    cfg: DynamicConfig, candidates: map<string, int>, c: map<string, int>, chosen: seq<string>, pid: string,
    skipGrace: bool, now: int, succeeds: set<string>, other: string)
    requires other == pid ==> Decides(cfg, candidates, false, skipGrace, now, succeeds, other, c, chosen)
    ensures
      var (c', chosen') := VisitOne(cfg, c, chosen, pid, skipGrace, now, succeeds);
      if other == pid then Decides(cfg, candidates, true, skipGrace, now, succeeds, other, c', chosen')
      else (other in c' <==> other in c) && (other in c ==> c'[other] == c[other]) && (other in chosen' <==> other in chosen)
  {
    hide GraceOver;
  }

  /** A sweep chooses an orphan exactly when its grace, counted from its first sighting, is over. */
  lemma {:induction false} VisitDecides(
    cfg: DynamicConfig, candidates: map<string, int>, orphans: seq<ProviderVm>, skipGrace: bool, now: int,
    succeeds: set<string>, pid: string)
    requires Distinct(orphans)
    ensures
      var (c, chosen) := VisitAll(cfg, candidates, orphans, skipGrace, now, succeeds);
      Decides(cfg, candidates, pid in Pids(orphans), skipGrace, now, succeeds, pid, c, chosen)
  {
    if orphans != [] {
      var n := |orphans| - 1;
      LastPid(orphans);
      VisitDecides(cfg, candidates, orphans[..n], skipGrace, now, succeeds, pid);
      var (c, chosen) := VisitAll(cfg, candidates, orphans[..n], skipGrace, now, succeeds);
      VisitOneDecides(cfg, candidates, c, chosen, orphans[n].providerId, skipGrace, now, succeeds, pid);
      hide Pids, Distinct, GraceOver, VisitOne, FirstSeen;
    }
  }

  // ── Sweeps as the hypervisor sees them ────────────────────────────────────

  /** A cycle of the sweep: what it lists, what the pool knows, when, and which deletes work. */
  datatype Cycle = Cycle(listing: seq<ProviderVm>, known: set<string>, now: int, succeeds: set<string>)

  function SweepOnce(cfg: DynamicConfig, candidates: map<string, int>, cy: Cycle, skipGrace: bool)
    : (map<string, int>, seq<string>)
  {
    var orphans := Orphans(cfg, cy.listing, cy.known);
    VisitAll(cfg, Retain(candidates, orphans), orphans, skipGrace, cy.now, cy.succeeds)
  }

  /** The VM is listed, its name and id let it be deleted, and the pool does not know it. */
  ghost predicate OrphanIn(cfg: DynamicConfig, cy: Cycle, pid: string) {
    pid !in cy.known && exists v :: v in cy.listing && v.providerId == pid && Deletable(cfg, v)
  }

  lemma OrphanPids(cfg: DynamicConfig, cy: Cycle, pid: string)
    ensures pid in Pids(Orphans(cfg, cy.listing, cy.known)) <==> OrphanIn(cfg, cy, pid)
  {
    hide IsOrphan, Deletable;
    forall v ensures IsOrphan(cfg, v, cy.known) <==> Deletable(cfg, v) && v.providerId !in cy.known {
      OrphanIff(cfg, v, cy.known);
    }
  }

  lemma {:induction false} OrphansDistinct(cfg: DynamicConfig, listing: seq<ProviderVm>, known: set<string>)
    requires Distinct(listing)
    ensures Distinct(Orphans(cfg, listing, known))
  {
    hide IsOrphan;
    if listing != [] {
      OrphansDistinct(cfg, listing[1..], known);
      var rest := Orphans(cfg, listing[1..], known);
      forall j | 0 <= j < |rest| ensures rest[j].providerId != listing[0].providerId {
        assert rest[j] in listing[1..];
        var i :| 1 <= i < |listing| && listing[i] == rest[j];
      }
    }
  }

  /** The first time the VM was seen as an orphan without a break: as remembered, or now. */
  ghost function SeenSince(candidates: map<string, int>, pid: string, now: int): int {
    if pid in candidates then candidates[pid] else now
  }

  /**
   One sweep: it chooses exactly the orphans seen for the grace period, or all of them without grace, and
   remembers of the others, and of those whose deletion fails, since when they are seen.
   */
  lemma SweepExact(cfg: DynamicConfig, before: map<string, int>, cy: Cycle, skipGrace: bool, pid: string)
    requires Distinct(cy.listing)
    ensures
      var (c, chosen) := SweepOnce(cfg, before, cy, skipGrace);
      var seen := SeenSince(before, pid, cy.now);
      && (pid in chosen <==> OrphanIn(cfg, cy, pid) && (skipGrace || AtLeast(cy.now - seen, cfg.graceSecs)))
      && (pid in c <==> OrphanIn(cfg, cy, pid) && !(pid in chosen && pid in cy.succeeds))
      && (pid in c ==> c[pid] == seen)
  {
    var orphans := Orphans(cfg, cy.listing, cy.known);
    OrphanPids(cfg, cy, pid);
    OrphansDistinct(cfg, cy.listing, cy.known);
    VisitDecides(cfg, Retain(before, orphans), orphans, skipGrace, cy.now, cy.succeeds, pid);
    SecondsPassed(cy.now - SeenSince(before, pid, cy.now), cfg.graceSecs);
    hide VisitAll, Distinct, Orphans, WholeSeconds, AtLeast, OrphanIn, Pids;
  }

  function CandidatesAfter(cfg: DynamicConfig, candidates: map<string, int>, cycles: seq<Cycle>): map<string, int> {
    if cycles == [] then candidates
    else SweepOnce(cfg, CandidatesAfter(cfg, candidates, cycles[..|cycles| - 1]), cycles[|cycles| - 1], false).0
  }

  /** The VM is an orphan in every cycle, and no listing names a VM twice. */
  ghost predicate AlwaysOrphan(cfg: DynamicConfig, cycles: seq<Cycle>, pid: string) {
    forall i :: 0 <= i < |cycles| ==> Distinct(cycles[i].listing) && OrphanIn(cfg, cycles[i], pid)
  }

  lemma {:induction false} FirstSighting(
    cfg: DynamicConfig, candidates: map<string, int>, cycles: seq<Cycle>, pid: string)
    requires cycles != [] && AlwaysOrphan(cfg, cycles, pid) && pid !in candidates
    requires forall i :: 0 <= i < |cycles| ==> pid !in cycles[i].succeeds
    ensures var c := CandidatesAfter(cfg, candidates, cycles); pid in c && c[pid] == cycles[0].now
  {
    hide SweepOnce, Distinct, OrphanIn, AtLeast;
    var n := |cycles| - 1;
    if n > 0 { FirstSighting(cfg, candidates, cycles[..n], pid); }
    SweepExact(cfg, CandidatesAfter(cfg, candidates, cycles[..n]), cycles[n], false, pid);
  }

  /**
   A VM orphaned in every cycle, whose deletes have failed so far, is chosen for deletion in the
   latest cycle exactly when the grace period has passed since the first.
   */
  lemma OrphanDeletedWhenDue(
    cfg: DynamicConfig, candidates: map<string, int>, cycles: seq<Cycle>, pid: string)
    requires cycles != [] && AlwaysOrphan(cfg, cycles, pid) && pid !in candidates
    requires forall i :: 0 <= i < |cycles| - 1 ==> pid !in cycles[i].succeeds
    ensures
      var n := |cycles| - 1;
      var chosen := SweepOnce(cfg, CandidatesAfter(cfg, candidates, cycles[..n]), cycles[n], false).1;
      pid in chosen <==> AtLeast(cycles[n].now - cycles[0].now, cfg.graceSecs)
  {
    hide SweepOnce, Distinct, OrphanIn, AtLeast;
    var n := |cycles| - 1;
    if n > 0 { FirstSighting(cfg, candidates, cycles[..n], pid); }
    SweepExact(cfg, CandidatesAfter(cfg, candidates, cycles[..n]), cycles[n], false, pid);
  }
}
