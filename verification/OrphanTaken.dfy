/**
 Which machines in use a sweep takes. A sweep lists first and looks at the pool afterwards, so what was
 on its way at both moments looks like an orphan to it; without grace there is nothing else to save it.
 */
module OrphanTaken {
  import opened Options
  import opened PoolState
  import opened PoolSystem
  import opened PoolOwnership
  import opened OrphanSweep

  ghost predicate InUse(c: Core, p: string) {
    p in ProviderIds(c.pool.vms) || OnItsWay(c, p)
  }

  // ── Backward in time ──────────────────────────────────────────────────────

  lemma OnItsWayBefore(cfg: DynamicConfig, w: World, m: Move, p: string)
    requires Possible(cfg, w, m) && p in w.core.pids && OnItsWay(After(cfg, w, m).core, p)
    ensures OnItsWay(w.core, p)
  {
    hide Enabled, Apply, ClonedBy, ProviderIds, InsertedBy;
    var c := After(cfg, w, m).core;
    var t :| t in c.provisions && c.provisions[t].phase.Cloned? && c.provisions[t].phase.pid == p;
    if m.InPool? {
      PidsGrow(cfg, w.core, w.now, m.step);
      ClonedAfter(cfg, w.core, w.now, m.step, t);
      assert t in w.core.provisions && w.core.provisions[t].phase.Cloned? && w.core.provisions[t].phase.pid == p;
    } else {
      assert c.provisions == w.core.provisions;
    }
  }

  lemma KnownBefore(cfg: DynamicConfig, w: World, m: Move, p: string)
    requires Possible(cfg, w, m) && p in ProviderIds(After(cfg, w, m).core.pool.vms)
    ensures InUse(w.core, p)
  {
    hide Enabled, Apply, ProviderIds;
    if m.InPool? {
      KnownAfter(cfg, w.core, w.now, m.step);
      if p in InsertedBy(w.core, m.step) {
        assert w.core.provisions[m.step.task].phase.pid == p;
        assert OnItsWay(w.core, p);
      }
    } else {
      assert After(cfg, w, m).core.pool == w.core.pool;
    }
  }

  lemma PidsStay(cfg: DynamicConfig, w: World, m: Move)
    requires Possible(cfg, w, m)
    ensures w.core.pids <= After(cfg, w, m).core.pids
  {
    hide Enabled, Apply, ClonedBy;
    if m.InPool? { PidsGrow(cfg, w.core, w.now, m.step); }
  }

  lemma {:induction false} PidsStayAlong(cfg: DynamicConfig, ws: seq<World>, moves: seq<Move>, l: nat, i: nat)
    requires Run(cfg, ws, moves) && l <= i < |ws|
    ensures ws[l].core.pids <= ws[i].core.pids
    decreases i
  {
    hide Possible, After, Start;
    if l < i {
      PidsStayAlong(cfg, ws, moves, l, i - 1);
      PidsStay(cfg, ws[i - 1], moves[i - 1]);
    }
  }

  /** A VM in use later, that existed before, was in use before; and on its way before if it is on its way later. */
  lemma {:induction false} UsedBefore(cfg: DynamicConfig, ws: seq<World>, moves: seq<Move>, l: nat, i: nat, p: string)
    requires Run(cfg, ws, moves) && l <= i < |ws| && p in ws[l].core.pids
    ensures InUse(ws[i].core, p) ==> InUse(ws[l].core, p)
    ensures OnItsWay(ws[i].core, p) ==> OnItsWay(ws[l].core, p)
    decreases i
  {
    hide Possible, After, Start, OnItsWay, ProviderIds;
    if l < i {
      UsedBefore(cfg, ws, moves, l, i - 1, p);
      PidsStayAlong(cfg, ws, moves, l, i - 1);
      if OnItsWay(ws[i].core, p) { OnItsWayBefore(cfg, ws[i - 1], moves[i - 1], p); }
      if p in ProviderIds(ws[i].core.pool.vms) { KnownBefore(cfg, ws[i - 1], moves[i - 1], p); }
    }
  }

  // ── One sweep from listing to end ─────────────────────────────────────────

  /** Task `t` lists at `l` and decides at `d`. */
  ghost predicate SweepsAt(moves: seq<Move>, t: nat, l: nat, d: nat) {
    l < d < |moves| && moves[l].ListVms? && moves[l].task == t && moves[d] == Decide(t)
  }

  /** What a move does to the scan of task `t`. */
  lemma ScanMoves(cfg: DynamicConfig, w: World, m: Move, t: nat)
    requires Possible(cfg, w, m) && t in w.scans
    ensures var s, s' := w.scans[t], After(cfg, w, m).scans; t in s' && match s
      case Listed(_, _) => s'[t] == s || (m == Decide(t) && s'[t].Visiting?)
      case Visiting(skip, queue, at) =>
        s'[t] == s ||
        (m == Visit(t) && queue != [] && s'[t] ==
          if Selects(cfg, w, t) then Deleting(skip, queue[0].providerId, queue[1..], at) else Visiting(skip, queue[1..], at))
      case Deleting(skip, _, queue, at) => s'[t] == s || s'[t] == Visiting(skip, queue, at)
    ensures m == Visit(t) ==> w.scans[t].Visiting? && w.scans[t].queue != []
  {
    hide Enabled, Apply, ClonedBy, InsertedBy, Stamp, Selects, Retain, Orphans, FirstSeen, ProviderIds;
  }

  lemma {:induction false} PastListing(cfg: DynamicConfig, ws: seq<World>, moves: seq<Move>, t: nat, i: nat, j: nat)
    requires Run(cfg, ws, moves) && i <= j < |ws| && t in ws[i].scans
    ensures t in ws[j].scans && (!ws[i].scans[t].Listed? ==> !ws[j].scans[t].Listed?)
    decreases j
  {
    hide Possible, After, Start, Selects;
    if i < j {
      PastListing(cfg, ws, moves, t, i, j - 1);
      ScanMoves(cfg, ws[j - 1], moves[j - 1], t);
    }
  }

  /** From listing to decision the sweep holds its listing. */
  lemma {:induction false} HoldsListing(cfg: DynamicConfig, ws: seq<World>, moves: seq<Move>, t: nat, l: nat, d: nat, i: nat)
    requires Run(cfg, ws, moves) && SweepsAt(moves, t, l, d) && l < i <= d
    ensures t in ws[i].scans && ws[i].scans[t] == Listed(moves[l].skipGrace, moves[l].listing)
    decreases i
  {
    hide After, Start, Selects, Enabled, IsListing;
    if i == l + 1 {
      ListsAt(cfg, ws[l], moves[l]);
    } else {
      HoldsListing(cfg, ws, moves, t, l, d, i - 1);
      ScanMoves(cfg, ws[i - 1], moves[i - 1], t);
      PastListing(cfg, ws, moves, t, i, d);
      assert Possible(cfg, ws[d], moves[d]);
    }
  }

  lemma ListsAt(cfg: DynamicConfig, w: World, m: Move)
    requires m.ListVms? && Possible(cfg, w, m)
    ensures m.task in After(cfg, w, m).scans && After(cfg, w, m).scans[m.task] == Listed(m.skipGrace, m.listing)
  {
  }

  /** The VMs the sweep takes for orphans. */
  ghost function Marked(cfg: DynamicConfig, ws: seq<World>, moves: seq<Move>, l: nat, d: nat): seq<ProviderVm>
    requires l < |moves| && moves[l].ListVms? && d < |ws|
  {
    Orphans(cfg, moves[l].listing, ProviderIds(ws[d].core.pool.vms))
  }

  lemma DecidesAt(cfg: DynamicConfig, w: World, t: nat)
    requires Possible(cfg, w, Decide(t))
    ensures t in w.scans && w.scans[t].Listed? && t in After(cfg, w, Decide(t)).scans
    ensures After(cfg, w, Decide(t)).scans[t] ==
      Visiting(w.scans[t].skipGrace, Orphans(cfg, w.scans[t].listing, ProviderIds(w.core.pool.vms)), w.now)
  {
    hide Orphans, ProviderIds;
  }

  /** The sweep of task `t` visits VM `p` by move `j`. */
  ghost predicate Visits(ws: seq<World>, moves: seq<Move>, t: nat, j: nat, p: string)
    requires |ws| == |moves| + 1
  {
    j < |moves| && moves[j] == Visit(t) && t in ws[j].scans && ws[j].scans[t].Visiting? && ws[j].scans[t].queue != [] &&
    ws[j].scans[t].queue[0].providerId == p
  }

  ghost predicate VisitedBy(ws: seq<World>, moves: seq<Move>, t: nat, d: nat, i: nat, p: string)
    requires |ws| == |moves| + 1
  {
    exists j :: d < j < i && Visits(ws, moves, t, j, p)
  }

  /** What the sweep still has to visit. */
  ghost function Queue(w: World, t: nat): seq<ProviderVm>
    requires t in w.scans && !w.scans[t].Listed?
  {
    w.scans[t].queue
  }

  /** After its decision the sweep has visited, or still has to visit, exactly what it marked. */
  ghost predicate Progress(cfg: DynamicConfig, ws: seq<World>, moves: seq<Move>, t: nat, l: nat, d: nat, i: nat)
    requires |ws| == |moves| + 1 && SweepsAt(moves, t, l, d) && i < |ws|
  {
    && t in ws[i].scans && !ws[i].scans[t].Listed? && ws[i].scans[t].skipGrace == moves[l].skipGrace
    && forall p :: p in Pids(Marked(cfg, ws, moves, l, d)) <==>
         p in Pids(Queue(ws[i], t)) || VisitedBy(ws, moves, t, d, i, p)
  }

  lemma ProgressStarts(cfg: DynamicConfig, ws: seq<World>, moves: seq<Move>, t: nat, l: nat, d: nat)
    requires Run(cfg, ws, moves) && SweepsAt(moves, t, l, d)
    ensures Progress(cfg, ws, moves, t, l, d, d + 1)
  {
    hide After, Start, Selects, Orphans, Pids, ProviderIds, Visits;
    HoldsListing(cfg, ws, moves, t, l, d, d);
    assert Possible(cfg, ws[d], moves[d]) && ws[d + 1] == After(cfg, ws[d], moves[d]);
    hide Possible;
    DecidesAt(cfg, ws[d], t);
  }

  lemma VisitedMore(ws: seq<World>, moves: seq<Move>, t: nat, d: nat, i: nat, p: string)
    requires |ws| == |moves| + 1 && d < i < |moves|
    ensures VisitedBy(ws, moves, t, d, i + 1, p) <==> VisitedBy(ws, moves, t, d, i, p) || Visits(ws, moves, t, i, p)
  {
    hide Visits;
  }

  lemma PidsTail(q: seq<ProviderVm>, p: string)
    requires q != []
    ensures p in Pids(q) <==> p == q[0].providerId || p in Pids(q[1..])
  {
    assert q == [q[0]] + q[1..];
  }

  lemma ProgressStep(cfg: DynamicConfig, ws: seq<World>, moves: seq<Move>, t: nat, l: nat, d: nat, i: nat)
    requires Run(cfg, ws, moves) && SweepsAt(moves, t, l, d) && d < i < |moves|
    requires Progress(cfg, ws, moves, t, l, d, i)
    ensures Progress(cfg, ws, moves, t, l, d, i + 1)
  {
    hide After, Possible, Start, Selects, Pids, VisitedBy, Marked;
    assert Possible(cfg, ws[i], moves[i]) && ws[i + 1] == After(cfg, ws[i], moves[i]);
    ScanMoves(cfg, ws[i], moves[i], t);
    var q := Queue(ws[i], t);
    forall p ensures p in Pids(Marked(cfg, ws, moves, l, d)) <==>
      p in Pids(Queue(ws[i + 1], t)) || VisitedBy(ws, moves, t, d, i + 1, p)
    {
      VisitedMore(ws, moves, t, d, i, p);
      if moves[i] == Visit(t) { PidsTail(q, p); }
    }
  }

  lemma {:induction false} SweepProgress(
    cfg: DynamicConfig, ws: seq<World>, moves: seq<Move>, t: nat, l: nat, d: nat, i: nat)
    requires Run(cfg, ws, moves) && SweepsAt(moves, t, l, d) && d < i < |ws|
    ensures Progress(cfg, ws, moves, t, l, d, i)
    decreases i
  {
    hide After, Possible, Start, Progress;
    if i == d + 1 {
      ProgressStarts(cfg, ws, moves, t, l, d);
    } else {
      SweepProgress(cfg, ws, moves, t, l, d, i - 1);
      ProgressStep(cfg, ws, moves, t, l, d, i - 1);
    }
  }

  // ── What is taken ─────────────────────────────────────────────────────────

  /** The VM was listed, may be deleted, and was not in the pool at the decision. */
  lemma MarkedMeans(cfg: DynamicConfig, ws: seq<World>, moves: seq<Move>, t: nat, l: nat, d: nat, p: string)
    requires Run(cfg, ws, moves) && SweepsAt(moves, t, l, d)
    ensures p in Pids(Marked(cfg, ws, moves, l, d)) <==>
      p in ws[l].hypervisor && Deletable(cfg, ws[l].hypervisor[p]) && p !in ProviderIds(ws[d].core.pool.vms)
    ensures p in Pids(Marked(cfg, ws, moves, l, d)) ==> p in ws[l].core.pids
  {
    TrackedRun(cfg, ws, moves, l);
    hide After, Start, Sound, HistorySound, CandidatesSound, ScansSound, ProviderIds, Enabled;
    assert Possible(cfg, ws[l], moves[l]);
    var listing := moves[l].listing;
    assert IsListing(ws[l].hypervisor, listing);
    var marked, known := Marked(cfg, ws, moves, l, d), ProviderIds(ws[d].core.pool.vms);
    hide Possible, IsOrphan, Deletable;
    if p in Pids(marked) {
      var v :| v in marked && v.providerId == p;
      assert v in listing;
      OrphanIff(cfg, v, known);
    }
    if p in ws[l].hypervisor {
      var v := ws[l].hypervisor[p];
      assert v in listing && v.providerId == p;
      OrphanIff(cfg, v, known);
    }
  }

  /**
   Any sweep, with grace or without: a VM it comes to visit while that VM is in use was on its way both
   when the sweep listed and when it decided, and may be deleted by its name.
   */
  lemma VisitedWasOnItsWay(cfg: DynamicConfig, ws: seq<World>, moves: seq<Move>, t: nat, l: nat, d: nat, j: nat, p: string)
    requires Run(cfg, ws, moves) && SweepsAt(moves, t, l, d) && d < j
    requires Visits(ws, moves, t, j, p) && InUse(ws[j].core, p)
    ensures OnItsWay(ws[l].core, p) && OnItsWay(ws[d].core, p)
    ensures p in ws[l].hypervisor && Deletable(cfg, ws[l].hypervisor[p])
  {
    SweepProgress(cfg, ws, moves, t, l, d, j);
    assert p in Pids(Queue(ws[j], t)) by { HeadIsQueued(Queue(ws[j], t)); }
    hide Run, InUse, Pids, Queue, Marked, OnItsWay, VisitedBy;
    MarkedMeans(cfg, ws, moves, t, l, d, p);
    hide Progress;
    PidsStayAlong(cfg, ws, moves, l, d);
    UsedBefore(cfg, ws, moves, d, j, p);
    assert OnItsWay(ws[d].core, p) by { UseMeans(ws[d].core, p); }
    UsedBefore(cfg, ws, moves, l, d, p);
  }

  lemma HeadIsQueued(q: seq<ProviderVm>)
    requires q != []
    ensures q[0].providerId in Pids(q)
  {
  }

  lemma UseMeans(c: Core, p: string)
    requires InUse(c, p) && p !in ProviderIds(c.pool.vms)
    ensures OnItsWay(c, p)
  {
  }

  /** A sweep that lists while nothing is past its clone takes no VM that is in use when visited. */
  lemma QuietListingHarmless(
    cfg: DynamicConfig, ws: seq<World>, moves: seq<Move>, t: nat, l: nat, d: nat, j: nat, p: string)
    requires Run(cfg, ws, moves) && SweepsAt(moves, t, l, d) && d < j && Visits(ws, moves, t, j, p)
    requires forall u :: u in ws[l].core.provisions ==> !ws[l].core.provisions[u].phase.Cloned?
    ensures !InUse(ws[j].core, p)
  {
    assert |ws| == |moves| + 1;
    hide Run, InUse, Visits;
    if InUse(ws[j].core, p) { VisitedWasOnItsWay(cfg, ws, moves, t, l, d, j, p); }
  }

  /** Without grace, every visit is a deletion. */
  lemma VisitTakes(cfg: DynamicConfig, ws: seq<World>, moves: seq<Move>, t: nat, l: nat, d: nat, j: nat, p: string)
    requires Run(cfg, ws, moves) && SweepsAt(moves, t, l, d) && moves[l].skipGrace && d < j
    requires Visits(ws, moves, t, j, p)
    ensures Selects(cfg, ws[j], t)
  {
    SweepProgress(cfg, ws, moves, t, l, d, j);
    hide Run, FirstSeen, VisitedBy, Marked;
  }

  lemma OnItsWayUnknown(cfg: DynamicConfig, ws: seq<World>, moves: seq<Move>, d: nat, p: string)
    requires Run(cfg, ws, moves) && d < |ws| && OnItsWay(ws[d].core, p)
    ensures p !in ProviderIds(ws[d].core.pool.vms)
  {
    TrackedRun(cfg, ws, moves, d);
    hide Run, HypervisorSound, HistorySound, CandidatesSound, ScansSound, EntriesSound, TeardownsSound;
    var c := ws[d].core;
    var t :| t in c.provisions && c.provisions[t].phase.Cloned? && c.provisions[t].phase.pid == p;
    assert CloneSound(c, t);
  }

  /** The sweep of task `t`, without grace, has deleted VM `p`, or tried to. */
  ghost predicate Takes(cfg: DynamicConfig, ws: seq<World>, moves: seq<Move>, t: nat, d: nat, i: nat, p: string)
    requires |ws| == |moves| + 1
  {
    exists j :: d < j < i && Visits(ws, moves, t, j, p) && Selects(cfg, ws[j], t)
  }

  /**
   A sweep without grace that has come to its end: of the VMs still in use it has taken exactly those that
   it listed, that may be deleted, and that were on their way when it decided.
   */
  lemma BootSweepExact(
    cfg: DynamicConfig, ws: seq<World>, moves: seq<Move>, t: nat, l: nat, d: nat, i: nat, p: string)
    requires Run(cfg, ws, moves) && SweepsAt(moves, t, l, d) && moves[l].skipGrace && d < i < |ws|
    requires t in ws[i].scans && !ws[i].scans[t].Listed? && Queue(ws[i], t) == []
    requires InUse(ws[i].core, p)
    ensures Takes(cfg, ws, moves, t, d, i, p) <==>
      p in ws[l].hypervisor && Deletable(cfg, ws[l].hypervisor[p]) && OnItsWay(ws[d].core, p)
  {
    SweepProgress(cfg, ws, moves, t, l, d, i);
    assert Pids(Queue(ws[i], t)) == {};
    hide Run, InUse, Pids, Queue, Marked, OnItsWay, Selects, Visits;
    MarkedMeans(cfg, ws, moves, t, l, d, p);
    TakenIsVisited(cfg, ws, moves, t, l, d, i, p);
    if p in Pids(Marked(cfg, ws, moves, l, d)) {
      PidsStayAlong(cfg, ws, moves, l, d);
      UsedBefore(cfg, ws, moves, d, i, p);
      UseMeans(ws[d].core, p);
    }
    if OnItsWay(ws[d].core, p) { OnItsWayUnknown(cfg, ws, moves, d, p); }
  }

  lemma TakenIsVisited(
    cfg: DynamicConfig, ws: seq<World>, moves: seq<Move>, t: nat, l: nat, d: nat, i: nat, p: string)
    requires Run(cfg, ws, moves) && SweepsAt(moves, t, l, d) && moves[l].skipGrace && d < i < |ws|
    ensures Takes(cfg, ws, moves, t, d, i, p) <==> VisitedBy(ws, moves, t, d, i, p)
  {
    assert |ws| == |moves| + 1;
    hide Run, Selects, SweepsAt;
    if VisitedBy(ws, moves, t, d, i, p) {
      var j :| d < j < i && Visits(ws, moves, t, j, p);
      VisitTakes(cfg, ws, moves, t, l, d, j, p);
    }
  }
}
