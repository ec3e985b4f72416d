/** Frames of all agents on one broadcast channel, and a session's adapter that keeps those of its CID. */
module FrameRouting {
  import opened Options

  type Cid = nat

  datatype Frame = Frame(source: Cid, number: nat)

  /** How far behind a subscriber may be before it loses frames. */
  const CAPACITY: nat := 8

  datatype Event = Published(frame: Frame) | Polled | Cancelled

  /**
   The subscriber's cursor into all that was published, what its adapter passed on, and by index which
   frames it took and which it skipped.
   */
  datatype State = State(
    published: seq<Frame>,
    cursor: nat,
    out: seq<Frame>,
    taken: seq<nat>,
    skipped: set<nat>,
    stopped: bool)

  function Between(low: nat, high: nat): (r: set<nat>)
    ensures forall i :: i in r <==> low <= i < high
  {
    if low >= high then {} else Between(low, high - 1) + {high - 1}
  }

  function Poll(s: State, filter: Option<Cid>): State {
    var n := |s.published|;
    if s.cursor >= n then s
    else if n - s.cursor > CAPACITY then
      s.(cursor := n - CAPACITY, skipped := s.skipped + Between(s.cursor, n - CAPACITY))
    else
      var f := s.published[s.cursor];
      if filter.None? || f.source == filter.value
      then s.(cursor := s.cursor + 1, out := s.out + [f], taken := s.taken + [s.cursor])
      else s.(cursor := s.cursor + 1)
  }

  function Step(s: State, e: Event, filter: Option<Cid>): State {
    if s.stopped then s else
    match e
    case Published(f) => s.(published := s.published + [f])
    case Polled => Poll(s, filter)
    case Cancelled => s.(stopped := true)
  }

  /** A subscription made after the frames `before`. */
  function Run(before: seq<Frame>, events: seq<Event>, filter: Option<Cid>): State {
    if events == [] then State(before, |before|, [], [], {}, false) else
    Step(Run(before, events[..|events| - 1], filter), events[|events| - 1], filter)
  }

  /** The adapter's task, over what happens on the broadcast channel. */
  method Adapt(before: seq<Frame>, events: seq<Event>, filter: Option<Cid>) returns (out: seq<Frame>)
    ensures out == Run(before, events, filter).out
  {
    var published, cursor: nat := before, |before|;
    out := [];
    ghost var taken: seq<nat>, skipped: set<nat> := [], {};
    for i := 0 to |events|
      invariant Run(before, events[..i], filter) == State(published, cursor, out, taken, skipped, false)
    {
      assert events[..i + 1][..i] == events[..i];
      match events[i]
      case Cancelled =>
        StoppedStays(before, events, i + 1, filter);
        return;
      case Published(f) =>
        published := published + [f];
      case Polled =>
        if cursor < |published| {
          if |published| - cursor > CAPACITY {
            skipped := skipped + Between(cursor, |published| - CAPACITY);
            cursor := |published| - CAPACITY;
            continue;
          }
          var f := published[cursor];
          if filter.Some? && f.source != filter.value {
            cursor := cursor + 1;
            continue;
          }
          out := out + [f];
          taken := taken + [cursor];
          cursor := cursor + 1;
        }
    }
    assert events[..|events|] == events;
  }

  lemma {:induction false} StoppedStays(before: seq<Frame>, events: seq<Event>, i: nat, filter: Option<Cid>)
    requires i <= |events| && Run(before, events[..i], filter).stopped
    ensures Run(before, events, filter) == Run(before, events[..i], filter)
    decreases |events|
  {
    hide Poll;
    if i == |events| {
      assert events[..i] == events;
    } else {
      var n := |events| - 1;
      assert events[..n][..i] == events[..i];
      StoppedStays(before, events[..n], i, filter);
    }
  }

  /** The frames passed on are those taken, all of the agent asked for, in the order published and none twice. */
  ghost predicate Subsequence(s: State, filter: Option<Cid>) {
    |s.out| == |s.taken| &&
    (forall k :: 0 <= k < |s.taken| ==>
      s.taken[k] < s.cursor && s.taken[k] < |s.published| && s.out[k] == s.published[s.taken[k]] &&
      (filter.Some? ==> s.out[k].source == filter.value)) &&
    forall j, k :: 0 <= j < k < |s.taken| ==> s.taken[j] < s.taken[k]
  }

  /** Every frame published since the subscription and before the cursor was taken, another agent's, or skipped. */
  ghost predicate Accounted(s: State, start: nat, filter: Option<Cid>) {
    start <= s.cursor <= |s.published| &&
    (forall i :: i in s.taken || i in s.skipped ==> start <= i < s.cursor) &&
    (forall i :: start <= i < s.cursor ==>
      (i in s.taken <==> i !in s.skipped && (filter.Some? ==> s.published[i].source == filter.value)))
  }

  lemma StepRoutes(s: State, e: Event, start: nat, filter: Option<Cid>)
    requires Subsequence(s, filter) && Accounted(s, start, filter)
    ensures Subsequence(Step(s, e, filter), filter) && Accounted(Step(s, e, filter), start, filter)
  {
    if !s.stopped && e.Polled? {
      PollRoutes(s, start, filter);
    }
    hide Poll;
  }

  lemma PollRoutes(s: State, start: nat, filter: Option<Cid>)
    requires Subsequence(s, filter) && Accounted(s, start, filter)
    ensures Subsequence(Poll(s, filter), filter) && Accounted(Poll(s, filter), start, filter)
  {
    PollTakes(s, filter);
    PollAccounts(s, start, filter);
    hide Subsequence, Accounted, Poll;
  }

  lemma PollTakes(s: State, filter: Option<Cid>)
    requires Subsequence(s, filter)
    ensures Subsequence(Poll(s, filter), filter)
  {
    hide Between;
  }

  lemma PollAccounts(s: State, start: nat, filter: Option<Cid>)
    requires Accounted(s, start, filter)
    ensures Accounted(Poll(s, filter), start, filter)
  {
  }

  /** For every schedule of publishing, polling and falling behind. */
  lemma {:induction false} RoutingHolds(before: seq<Frame>, events: seq<Event>, filter: Option<Cid>)
    ensures var s := Run(before, events, filter); Subsequence(s, filter) && Accounted(s, |before|, filter)
  {
    hide Subsequence, Accounted, Step;
    if events == [] {
      Subscribed(before, filter);
    } else {
      var n := |events| - 1;
      RoutingHolds(before, events[..n], filter);
      StepRoutes(Run(before, events[..n], filter), events[n], |before|, filter);
    }
  }

  lemma Subscribed(before: seq<Frame>, filter: Option<Cid>)
    ensures var s := Run(before, [], filter); Subsequence(s, filter) && Accounted(s, |before|, filter)
  {
  }

  /** A session with a CID gets frames of that agent only. */
  lemma OnlyItsAgent(before: seq<Frame>, events: seq<Event>, cid: Cid)
    ensures forall k :: 0 <= k < |Run(before, events, Some(cid)).out| ==>
      Run(before, events, Some(cid)).out[k].source == cid
  {
    hide Run;
    RoutingHolds(before, events, Some(cid));
  }

  /** At no poll is the subscriber more than eight frames behind. */
  ghost predicate KeepsUp(before: seq<Frame>, events: seq<Event>, filter: Option<Cid>) {
    if events == [] then true else
    var s := Run(before, events[..|events| - 1], filter);
    KeepsUp(before, events[..|events| - 1], filter) &&
    (events[|events| - 1].Polled? && !s.stopped ==> |s.published| - s.cursor <= 8)
  }

  /** Frames are skipped exactly when the subscriber falls more than the capacity behind. */
  lemma {:induction false} SkipsExactly(before: seq<Frame>, events: seq<Event>, filter: Option<Cid>)
    ensures Run(before, events, filter).skipped == {} <==> KeepsUp(before, events, filter)
  {
    if events != [] {
      var n := |events| - 1;
      SkipsExactly(before, events[..n], filter);
      var s := Run(before, events[..n], filter);
      if events[n].Polled? && !s.stopped && |s.published| - s.cursor > CAPACITY {
        assert s.cursor in Poll(s, filter).skipped;
      }
    }
  }

  /** A subscriber too far behind loses all but the last eight frames, and goes on with those. */
  lemma LagLosesOldest(s: State, filter: Option<Cid>)
    requires |s.published| - s.cursor > 8
    ensures var t := Poll(s, filter);
      && t.cursor == |s.published| - 8 && t.out == s.out && t.published == s.published
      && forall i :: i in t.skipped <==> i in s.skipped || s.cursor <= i < |s.published| - 8
  {
  }

  /** Eight newer frames were out when a frame was skipped. */
  ghost predicate AllOld(s: State) {
    forall i :: i in s.skipped ==> i + 8 < |s.published|
  }

  lemma PollSkipsOld(s: State, filter: Option<Cid>)
    requires AllOld(s)
    ensures AllOld(Poll(s, filter))
  {
  }

  lemma {:induction false} SkippedAreOld(before: seq<Frame>, events: seq<Event>, filter: Option<Cid>)
    ensures AllOld(Run(before, events, filter))
  {
    hide Poll;
    if events != [] {
      var n := |events| - 1;
      SkippedAreOld(before, events[..n], filter);
      PollSkipsOld(Run(before, events[..n], filter), filter);
    }
  }

  // ── What a session gets ───────────────────────────────────────────────────

  /** All that is published by these events. */
  function Announced(events: seq<Event>): seq<Frame> {
    if events == [] then [] else
    var e := events[|events| - 1];
    Announced(events[..|events| - 1]) + if e.Published? then [e.frame] else []
  }

  /** The frames of one agent. */
  function FramesOf(fs: seq<Frame>, cid: Cid): seq<Frame> {
    if fs == [] then [] else
    var f := fs[|fs| - 1];
    FramesOf(fs[..|fs| - 1], cid) + if f.source == cid then [f] else []
  }

  lemma {:induction false} PublishedAll(before: seq<Frame>, events: seq<Event>, filter: Option<Cid>)
    requires !Run(before, events, filter).stopped
    ensures Run(before, events, filter).published == before + Announced(events)
  {
    hide Poll;
    if events != [] {
      var n := |events| - 1;
      var s := Run(before, events[..n], filter);
      PollPublishes(s, filter);
      PublishedAll(before, events[..n], filter);
    }
  }

  lemma PollPublishes(s: State, filter: Option<Cid>)
    ensures Poll(s, filter).published == s.published && Poll(s, filter).stopped == s.stopped
  {
  }

  lemma OneMoreOf(fs: seq<Frame>, f: Frame, cid: Cid)
    ensures FramesOf(fs + [f], cid) == if f.source == cid then FramesOf(fs, cid) + [f] else FramesOf(fs, cid)
  {
    assert (fs + [f])[..|fs|] == fs;
  }

  /** What was passed on is all that was asked for before the cursor. */
  ghost predicate Complete(s: State, start: nat, filter: Option<Cid>) {
    start <= s.cursor <= |s.published| &&
    match filter
    case None => s.out == s.published[start..s.cursor]
    case Some(cid) => s.out == FramesOf(s.published[start..s.cursor], cid)
  }

  lemma PollCompletes(s: State, start: nat, filter: Option<Cid>)
    requires Complete(s, start, filter) && |s.published| - s.cursor <= CAPACITY
    ensures Complete(Poll(s, filter), start, filter)
  {
    hide FramesOf;
    if s.cursor < |s.published| {
      var f := s.published[s.cursor];
      assert s.published[start..s.cursor + 1] == s.published[start..s.cursor] + [f];
      if filter.Some? { OneMoreOf(s.published[start..s.cursor], f, filter.value); }
    }
  }

  lemma PublishingCompletes(s: State, start: nat, filter: Option<Cid>, f: Frame)
    requires Complete(s, start, filter)
    ensures Complete(s.(published := s.published + [f]), start, filter)
  {
    hide FramesOf;
    assert (s.published + [f])[start..s.cursor] == s.published[start..s.cursor];
  }

  /**
   A session that keeps up has got exactly the frames of its agent, in the order published, that came since it
   subscribed and before its cursor; and all frames if it asked for no agent.
   */
  lemma {:induction false} KeepingUpGetsAll(before: seq<Frame>, events: seq<Event>, filter: Option<Cid>)
    requires KeepsUp(before, events, filter)
    ensures Complete(Run(before, events, filter), |before|, filter)
  {
    hide Poll, Complete;
    if events == [] {
      NothingYet(before, filter);
    } else {
      var n := |events| - 1;
      KeepingUpGetsAll(before, events[..n], filter);
      var s := Run(before, events[..n], filter);
      if !s.stopped {
        match events[n]
        case Published(f) => PublishingCompletes(s, |before|, filter, f);
        case Polled => PollCompletes(s, |before|, filter);
        case Cancelled => StoppingCompletes(s, |before|, filter);
      }
    }
  }

  lemma NothingYet(before: seq<Frame>, filter: Option<Cid>)
    ensures Complete(Run(before, [], filter), |before|, filter)
  {
    assert before[|before|..|before|] == [];
  }

  lemma StoppingCompletes(s: State, start: nat, filter: Option<Cid>)
    requires Complete(s, start, filter)
    ensures Complete(s.(stopped := true), start, filter)
  {
    hide FramesOf;
  }

  /** One that has also caught up has got all that was published since it subscribed: its agent's, or everybody's. */
  lemma CaughtUp(before: seq<Frame>, events: seq<Event>, filter: Option<Cid>)
    requires KeepsUp(before, events, filter)
    requires var s := Run(before, events, filter); !s.stopped && s.cursor == |s.published|
    ensures Run(before, events, filter).out ==
      match filter case None => Announced(events) case Some(cid) => FramesOf(Announced(events), cid)
  {
    hide KeepsUp, FramesOf, Announced;
    KeepingUpGetsAll(before, events, filter);
    PublishedAll(before, events, filter);
    var s := Run(before, events, filter);
    hide Run;
    assert s.published[|before|..s.cursor] == Announced(events);
  }
}
