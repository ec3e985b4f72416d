/** Coalescing refines replay: what the remote desktop ends up in is what the events in order would have made of it. */
module InputReplay {
  import opened Options
  import opened InputSending

  function Flat(batches: seq<seq<Proto>>): seq<Proto> {
    if batches == [] then [] else Flat(batches[..|batches| - 1]) + batches[|batches| - 1]
  }

  /** Everything sent or about to be, in order. */
  function Out(s: State): seq<Proto> {
    Flat(s.sent) + s.lost + s.pending
  }

  function All(s: State): seq<Proto> {
    Out(s) + Held(s.move)
  }

  /** The uncoalesced stream: every event but the clipboard's, numbered from `first`. */
  function Numbered(received: seq<InputEvent>, first: nat): seq<Proto> {
    if received == [] then [] else
    var before := Numbered(received[..|received| - 1], first);
    match ToProto(received[|received| - 1], first + |before|)
    case None => before
    case Some(p) => before + [p]
  }

  predicate IsMove(p: Proto) {
    p.kind == 3
  }

  function NonMoves(ps: seq<Proto>): seq<Proto> {
    if ps == [] then [] else
    NonMoves(ps[..|ps| - 1]) + if IsMove(ps[|ps| - 1]) then [] else [ps[|ps| - 1]]
  }

  lemma {:induction false} NonMovesAppend(a: seq<Proto>, b: seq<Proto>)
    ensures NonMoves(a + b) == NonMoves(a) + NonMoves(b)
  {
    hide IsMove;
    if b == [] {
      assert a + b == a;
    } else {
      NonMovesAppend(a, b[..|b| - 1]);
      assert (a + b)[..|a + b| - 1] == a + b[..|b| - 1];
    }
  }

  lemma NonMovesOne(p: Proto)
    ensures NonMoves([p]) == if IsMove(p) then [] else [p]
  {
    assert [p][..0] == [];
  }

  // ── One step ──────────────────────────────────────────────────────────────

  /** A refused batch ends the loop, with nothing left to send. */
  predicate Sane(s: State) {
    (s.lost != [] ==> s.stopped && s.pending == [] && s.move.None?) &&
    (s.move.Some? ==> IsMove(s.move.value) && s.move.value.payload.Mouse?)
  }

  lemma FlatLast(batches: seq<seq<Proto>>, b: seq<Proto>)
    ensures Flat(batches + [b]) == Flat(batches) + b
  {
    assert (batches + [b])[..|batches|] == batches;
  }

  /** Flushing moves events on, and neither adds, drops nor reorders any. */
  lemma FlushKeepsAll(s: State, capacity: nat)
    requires Sane(s) && !s.stopped
    ensures All(Flush(s, capacity)) == All(s) && Sane(Flush(s, capacity))
    ensures Flush(s, capacity).pending == [] && Flush(s, capacity).move == None
    ensures Flush(s, capacity).received == s.received && Flush(s, capacity).next == s.next
  {
    hide Flat, IsMove;
    var batch := s.pending + Held(s.move);
    FlatLast(s.sent, batch);
    if batch == [] {
      assert s.move.None?;
    } else if |s.sent| < capacity {
      assert All(Flush(s, capacity)) == (Flat(s.sent) + batch) + [] + [] + [];
    } else {
      assert All(Flush(s, capacity)) == Flat(s.sent) + batch + [] + [];
    }
  }

  /** What a received event adds: a move takes the place of the held one, anything else goes before it. */
  lemma ReceiveAdds(s: State, e: InputEvent, capacity: nat)
    requires Sane(s) && !s.stopped
    ensures var t := Receive(s, e, capacity);
      Sane(t) && t.received == s.received + [e] &&
      match ToProto(e, s.next)
      case None => All(t) == All(s) && t.next == s.next
      case Some(p) =>
        t.next == s.next + 1 && All(t) == if IsMove(p) then Out(s) + [p] else Out(s) + [p] + Held(s.move)
  {
    hide Flat, Flush, IsMove;
    match ToProto(e, s.next)
    case None =>
    case Some(p) =>
      IsMoveIffMouse(e, s.next);
      if e.MouseMove? {
      } else {
        var r := s.(received := s.received + [e], next := s.next + 1, pending := s.pending + [p]);
        assert All(r) == Out(s) + [p] + Held(s.move);
        FlushKeepsAll(r, capacity);
      }
  }

  lemma IsMoveIffMouse(e: InputEvent, n: nat)
    requires ToProto(e, n).Some?
    ensures var p := ToProto(e, n).value; (IsMove(p) <==> e.MouseMove?) && (IsMove(p) ==> p.payload.Mouse?)
  {
  }

  /** Each step keeps all events, or takes in one as above. */
  datatype Change = Same | Added(p: Proto, held: seq<Proto>, out: seq<Proto>)

  ghost predicate Changes(s: State, t: State, c: Change, first: nat) {
    match c
    case Same => All(t) == All(s) && Numbered(t.received, first) == Numbered(s.received, first) && t.next == s.next
    case Added(p, held, out) =>
      out + held == All(s) && (held == [] || (|held| == 1 && IsMove(held[0]) && held[0].payload.Mouse?)) &&
      All(t) == (if IsMove(p) then out + [p] else out + [p] + held) &&
      (IsMove(p) ==> p.payload.Mouse?) &&
      Numbered(t.received, first) == Numbered(s.received, first) + [p] && t.next == s.next + 1 && p.seq_ == s.next
  }

  lemma ReceiveChanges(s: State, e: InputEvent, capacity: nat, first: nat) returns (c: Change)
    requires Sane(s) && !s.stopped && s.next == first + |Numbered(s.received, first)|
    ensures Sane(Receive(s, e, capacity)) && Changes(s, Receive(s, e, capacity), c, first)
    ensures c.Added? ==> c.out == Out(s) && c.held == Held(s.move) && Some(c.p) == ToProto(e, s.next)
    ensures c.Added? <==> !e.ClipboardChanged?
  {
    hide Flat, IsMove, Flush, Receive, Out;
    ReceiveAdds(s, e, capacity);
    assert (s.received + [e])[..|s.received|] == s.received;
    if e.ClipboardChanged? {
      c := Same;
    } else {
      IsMoveIffMouse(e, s.next);
      c := Added(ToProto(e, s.next).value, Held(s.move), Out(s));
    }
  }

  lemma StepChanges(s: State, signal: Signal, capacity: nat, first: nat) returns (c: Change)
    requires Sane(s) && s.next == first + |Numbered(s.received, first)|
    ensures Sane(Step(s, signal, capacity)) && Changes(s, Step(s, signal, capacity), c, first)
    ensures c.Added? <==> !s.stopped && signal.Received? && !signal.event.ClipboardChanged?
    ensures c.Added? ==> c.out == Out(s) && c.held == Held(s.move) && Some(c.p) == ToProto(signal.event, s.next)
  {
    hide Flat, IsMove, Flush, Receive, Numbered, ToProto;
    c := Same;
    if !s.stopped {
      match signal
      case Received(e) => c := ReceiveChanges(s, e, capacity, first);
      case Tick => FlushKeepsAll(s, capacity);
      case Cancelled =>
      case Closed =>
    }
  }

  lemma {:induction false} RunSane(first: nat, signals: seq<Signal>, capacity: nat)
    ensures Sane(Run(first, signals, capacity))
    ensures Run(first, signals, capacity).next
      == first + |Numbered(Run(first, signals, capacity).received, first)|
  {
    hide Step;
    if signals != [] {
      var n := |signals| - 1;
      RunSane(first, signals[..n], capacity);
      var c := StepChanges(Run(first, signals[..n], capacity), signals[n], capacity, first);
    }
    hide Sane, Numbered;
  }

  // ── Order, numbers and batches ────────────────────────────────────────────

  /** Over every run, all events but moves are there once each, in the order received. */
  lemma {:induction false} NonMovesInOrder(first: nat, signals: seq<Signal>, capacity: nat)
    ensures var s := Run(first, signals, capacity);
      NonMoves(Out(s)) == NonMoves(Numbered(s.received, first))
  {
    hide Step, NonMoves, Flat, Numbered, IsMove;
    var s := Run(first, signals, capacity);
    RunSane(first, signals, capacity);
    NonMovesAppend(Out(s), Held(s.move));
    HeldIsMove(s);
    AllNonMoves(first, signals, capacity);
  }

  lemma HeldIsMove(s: State)
    requires Sane(s)
    ensures NonMoves(Held(s.move)) == []
  {
    match s.move
    case None =>
    case Some(m) => NonMovesOne(m);
  }

  lemma {:induction false} AllNonMoves(first: nat, signals: seq<Signal>, capacity: nat)
    ensures var s := Run(first, signals, capacity);
      NonMoves(All(s)) == NonMoves(Numbered(s.received, first))
  {
    hide Step, NonMoves, Numbered, All, Out, Sane;
    if signals == [] {
      assert All(Run(first, [], capacity)) == Numbered([], first) by { Empty(first, capacity); }
    } else {
      var n := |signals| - 1;
      AllNonMoves(first, signals[..n], capacity);
      var s := Run(first, signals[..n], capacity);
      RunSane(first, signals[..n], capacity);
      var c := StepChanges(s, signals[n], capacity, first);
      if c.Added? { NonMovesGrow(s, Step(s, signals[n], capacity), c, first); }
    }
  }

  lemma Empty(first: nat, capacity: nat)
    ensures All(Run(first, [], capacity)) == [] && Numbered([], first) == []
  {
  }

  lemma NonMovesGrow(s: State, t: State, c: Change, first: nat)
    requires c.Added? && Changes(s, t, c, first)
    requires NonMoves(All(s)) == NonMoves(Numbered(s.received, first))
    ensures NonMoves(All(t)) == NonMoves(Numbered(t.received, first))
  {
    hide NonMoves, Numbered, All;
    NonMovesAppend(c.out, c.held);
    NonMovesAppend(c.out, [c.p]);
    NonMovesAppend(c.out + [c.p], c.held);
    NonMovesAppend(Numbered(s.received, first), [c.p]);
    NonMovesOne(c.p);
    if c.held != [] {
      NonMovesOne(c.held[0]);
      assert c.held == [c.held[0]];
    } else {
      assert NonMoves([]) == [] by { NothingMoves(); }
    }
  }

  lemma NothingMoves()
    ensures NonMoves([]) == []
  {
  }

  ghost predicate DistinctNumbers(ps: seq<Proto>) {
    forall i, j :: 0 <= i < j < |ps| ==> ps[i].seq_ != ps[j].seq_
  }

  ghost predicate Below(ps: seq<Proto>, next: nat) {
    forall i :: 0 <= i < |ps| ==> ps[i].seq_ < next
  }

  /** No number is used twice, and every event sent is one received, under its own number. */
  lemma {:induction false} NumbersUsedOnce(first: nat, signals: seq<Signal>, capacity: nat)
    ensures var s := Run(first, signals, capacity);
      DistinctNumbers(All(s)) && Below(All(s), s.next) && forall p :: p in All(s) ==> p in Numbered(s.received, first)
  {
    hide Step, Numbered, All, Out, Sane;
    if signals == [] {
      Empty(first, capacity);
    } else {
      var n := |signals| - 1;
      NumbersUsedOnce(first, signals[..n], capacity);
      var s := Run(first, signals[..n], capacity);
      RunSane(first, signals[..n], capacity);
      var c := StepChanges(s, signals[n], capacity, first);
      if c.Added? { NumbersGrow(s, Step(s, signals[n], capacity), c, first); }
    }
  }

  lemma NumbersGrow(s: State, t: State, c: Change, first: nat)
    requires c.Added? && Changes(s, t, c, first)
    requires DistinctNumbers(All(s)) && Below(All(s), s.next)
    requires forall p :: p in All(s) ==> p in Numbered(s.received, first)
    ensures DistinctNumbers(All(t)) && Below(All(t), t.next)
    ensures forall p :: p in All(t) ==> p in Numbered(t.received, first)
  {
    hide Numbered, All, IsMove;
    var a, o := All(s), c.out;
    assert forall i :: 0 <= i < |o| ==> a[i] == o[i];
    if c.held != [] { assert a[|o|] == c.held[0]; }
    forall p | p in All(t) ensures p == c.p || p in a {
      assert p in o || p == c.p || p in c.held;
    }
  }

  /** A batch is not empty and holds at most one move, as its last event. */
  ghost predicate ProperBatch(b: seq<Proto>) {
    b != [] && forall i :: 0 <= i < |b| - 1 ==> !IsMove(b[i])
  }

  ghost predicate ProperBatches(s: State) {
    (forall b :: b in s.sent ==> ProperBatch(b)) && forall i :: 0 <= i < |s.pending| ==> !IsMove(s.pending[i])
  }

  lemma FlushProper(s: State, capacity: nat)
    requires ProperBatches(s) && !s.stopped
    ensures ProperBatches(Flush(s, capacity))
  {
    hide IsMove;
    var batch := s.pending + Held(s.move);
    assert batch != [] ==> ProperBatch(batch);
  }

  lemma {:induction false} BatchesProper(first: nat, signals: seq<Signal>, capacity: nat)
    ensures ProperBatches(Run(first, signals, capacity))
  {
    hide ProperBatches, Flush;
    if signals == [] {
      NoBatches(first, capacity);
    } else {
      var n := |signals| - 1;
      BatchesProper(first, signals[..n], capacity);
      StepProper(Run(first, signals[..n], capacity), signals[n], capacity);
    }
  }

  lemma NoBatches(first: nat, capacity: nat)
    ensures ProperBatches(Run(first, [], capacity))
  {
  }

  lemma StepProper(s: State, signal: Signal, capacity: nat)
    requires ProperBatches(s)
    ensures ProperBatches(Step(s, signal, capacity))
  {
    hide Flush, IsMove;
    if !s.stopped {
      match signal
      case Tick => FlushProper(s, capacity);
      case Received(e) =>
        if ToProto(e, s.next).Some? {
          IsMoveIffMouse(e, s.next);
          var p := ToProto(e, s.next).value;
          if !e.MouseMove? {
            var r := s.(received := s.received + [e], next := s.next + 1, pending := s.pending + [p]);
            FlushProper(r, capacity);
          }
        }
      case Cancelled =>
      case Closed =>
    }
  }

  // ── Replay on the agent ───────────────────────────────────────────────────

  datatype Desktop = Desktop(pointer: Option<(real, real)>, keys: set<nat>, buttons: set<nat>, scrolled: int)

  function ButtonCode(button: nat): nat {
    match button case 2 => 0x112 case 3 => 0x111 case _ => 0x110
  }

  function Toggle(on: bool, codes: set<nat>, code: nat): set<nat> {
    if on then codes + {code} else codes - {code}
  }

  /** The agent's handling of one event; scancodes outside the table are ignored. */
  function Apply(d: Desktop, p: Proto, evdev: map<nat, nat>): Desktop {
    match p.payload
    case Key(_, scancode, _, _, _, _, _) =>
      if scancode in evdev then d.(keys := Toggle(p.kind == 1, d.keys, evdev[scancode])) else d
    case Mouse(button, x, y, _, dy, _) =>
      match p.kind
      case 3 => d.(pointer := Some((x, y)))
      case 4 => d.(buttons := Toggle(true, d.buttons, ButtonCode(button)))
      case 5 => d.(buttons := Toggle(false, d.buttons, ButtonCode(button)))
      case 6 => d.(scrolled := d.scrolled + if dy > 0.0 then -1 else 1)
      case _ => d
  }

  function Replay(d: Desktop, ps: seq<Proto>, evdev: map<nat, nat>): Desktop {
    if ps == [] then d else Apply(Replay(d, ps[..|ps| - 1], evdev), ps[|ps| - 1], evdev)
  }

  lemma ReplayLast(d: Desktop, ps: seq<Proto>, p: Proto, evdev: map<nat, nat>)
    ensures Replay(d, ps + [p], evdev) == Apply(Replay(d, ps, evdev), p, evdev)
  {
    hide Apply;
    assert (ps + [p])[..|ps|] == ps;
  }

  /** A move can wait for any other event, and makes an earlier move superfluous. */
  lemma MoveWaits(d: Desktop, m: Proto, p: Proto, evdev: map<nat, nat>)
    requires IsMove(m) && m.payload.Mouse? && (IsMove(p) ==> p.payload.Mouse?)
    ensures Apply(Apply(d, m, evdev), p, evdev)
      == if IsMove(p) then Apply(d, p, evdev) else Apply(Apply(d, p, evdev), m, evdev)
  {
  }

  /** Over every run, the coalesced stream puts the desktop in the state of the plain one. */
  lemma {:induction false} ReplayAgrees(first: nat, signals: seq<Signal>, capacity: nat, d: Desktop, evdev: map<nat, nat>)
    ensures var s := Run(first, signals, capacity);
      Replay(d, All(s), evdev) == Replay(d, Numbered(s.received, first), evdev)
  {
    hide Step, Replay, Numbered, All, Out, Sane;
    if signals == [] {
      Empty(first, capacity);
    } else {
      var n := |signals| - 1;
      ReplayAgrees(first, signals[..n], capacity, d, evdev);
      var s := Run(first, signals[..n], capacity);
      RunSane(first, signals[..n], capacity);
      var c := StepChanges(s, signals[n], capacity, first);
      if c.Added? { ReplayGrows(s, Step(s, signals[n], capacity), c, first, d, evdev); }
    }
  }

  lemma ReplayGrows(s: State, t: State, c: Change, first: nat, d: Desktop, evdev: map<nat, nat>)
    requires c.Added? && Changes(s, t, c, first)
    requires Replay(d, All(s), evdev) == Replay(d, Numbered(s.received, first), evdev)
    ensures Replay(d, All(t), evdev) == Replay(d, Numbered(t.received, first), evdev)
  {
    hide Replay, Apply, Numbered, All;
    ReplayLast(d, Numbered(s.received, first), c.p, evdev);
    ReplayLast(d, c.out, c.p, evdev);
    if c.held != [] {
      var m := c.held[0];
      assert c.held == [m];
      ReplayLast(d, c.out, m, evdev);
      ReplayLast(d, c.out + [c.p], m, evdev);
      MoveWaits(Replay(d, c.out, evdev), m, c.p, evdev);
    } else {
      assert c.out + c.held == c.out && c.out + [c.p] + c.held == c.out + [c.p];
    }
  }

  /** Nothing is pending, held or lost. */
  predicate Settled(s: State) {
    s.pending == [] && s.move.None? && s.lost == []
  }

  /** A tick flushes, and so does a key. */
  predicate Flushes(signal: Signal) {
    signal.Tick? || (signal.Received? && (signal.event.KeyDown? || signal.event.KeyUp?))
  }

  /** How often the loop was woken by a tick or a key. */
  function Wakes(signals: seq<Signal>): nat {
    if signals == [] then 0 else
    Wakes(signals[..|signals| - 1]) + if Flushes(signals[|signals| - 1]) then 1 else 0
  }

  /** Only ticks and keys send, one batch at most for each, and no more than the channel takes. */
  lemma {:induction false} BatchesBounded(first: nat, signals: seq<Signal>, capacity: nat)
    ensures |Run(first, signals, capacity).sent| <= Wakes(signals)
    ensures |Run(first, signals, capacity).sent| <= capacity
  {
    hide Flush;
    if signals != [] {
      var n := |signals| - 1;
      BatchesBounded(first, signals[..n], capacity);
      StepSends(Run(first, signals[..n], capacity), signals[n], capacity);
      hide Step;
    }
  }

  lemma StepSends(s: State, signal: Signal, capacity: nat)
    requires |s.sent| <= capacity
    ensures |Step(s, signal, capacity).sent| <= |s.sent| + 1 && |Step(s, signal, capacity).sent| <= capacity
    ensures !Flushes(signal) ==> Step(s, signal, capacity).sent == s.sent
  {
  }

  /** After a flush that the channel takes, everything is settled. */
  lemma FlushSettles(first: nat, signals: seq<Signal>, signal: Signal, capacity: nat)
    requires Flushes(signal) && !Run(first, signals + [signal], capacity).stopped
    ensures Settled(Run(first, signals + [signal], capacity))
  {
    assert (signals + [signal])[..|signals|] == signals;
    var s := Run(first, signals, capacity);
    RunSane(first, signals, capacity);
    RunSane(first, signals + [signal], capacity);
    SaneMeans(Run(first, signals + [signal], capacity));
    hide Sane, Flat;
    if !s.stopped {
      match signal
      case Tick =>
      case Received(e) =>
    }
  }

  /** Whenever everything is settled, the batches alone replay to the plain stream's state. */
  lemma FlushedAgrees(first: nat, signals: seq<Signal>, capacity: nat, d: Desktop, evdev: map<nat, nat>)
    requires Settled(Run(first, signals, capacity))
    ensures var s := Run(first, signals, capacity);
      Replay(d, Flat(s.sent), evdev) == Replay(d, Numbered(s.received, first), evdev)
  {
    hide Replay, Numbered, Flat;
    var s := Run(first, signals, capacity);
    ReplayAgrees(first, signals, capacity, d, evdev);
    assert All(s) == Flat(s.sent);
  }

  lemma SaneMeans(s: State)
    requires Sane(s) && !s.stopped
    ensures s.lost == []
  {
  }

  // ── Against the events themselves ─────────────────────────────────────────

  /** The event that a numbered one stands for, by the protocol's kinds. */
  function Meaning(p: Proto): Option<InputEvent> {
    match (p.kind, p.payload)
    case (1, Key(k, s, shift, ctrl, alt, meta, repeat)) => Some(KeyDown(k, s, shift, ctrl, alt, meta, repeat))
    case (2, Key(k, s, _, _, _, _, _)) => Some(KeyUp(k, s))
    case (3, Mouse(_, x, y, _, _, monitor)) => Some(MouseMove(x, y, monitor))
    case (4, Mouse(button, x, y, _, _, _)) => Some(MouseDown(button, x, y))
    case (5, Mouse(button, x, y, _, _, _)) => Some(MouseUp(button, x, y))
    case (6, Mouse(_, _, _, dx, dy, _)) => Some(MouseScroll(dx, dy))
    case _ => None
  }

  /** Nothing of an event is lost on the way, its number is the one given, and the clipboard has none. */
  lemma ProtoMeans(e: InputEvent, n: nat)
    ensures match ToProto(e, n)
      case Some(p) => Meaning(p) == Some(e) && p.seq_ == n
      case None => e.ClipboardChanged?
  {
  }

  /** The evdev code of a mouse button. */
  function MouseCode(button: nat): nat {
    if button == 2 then 0x112 else if button == 3 then 0x111 else 0x110
  }

  /** What an event does to the desktop. */
  function Lives(d: Desktop, e: InputEvent, evdev: map<nat, nat>): Desktop {
    match e
    case KeyDown(_, scancode, _, _, _, _, _) =>
      if scancode in evdev then d.(keys := d.keys + {evdev[scancode]}) else d
    case KeyUp(_, scancode) => if scancode in evdev then d.(keys := d.keys - {evdev[scancode]}) else d
    case MouseMove(x, y, _) => d.(pointer := Some((x, y)))
    case MouseDown(button, _, _) => d.(buttons := d.buttons + {MouseCode(button)})
    case MouseUp(button, _, _) => d.(buttons := d.buttons - {MouseCode(button)})
    case MouseScroll(_, dy) => d.(scrolled := if dy > 0.0 then d.scrolled - 1 else d.scrolled + 1)
    case ClipboardChanged(_, _) => d
  }

  function LivesAll(d: Desktop, es: seq<InputEvent>, evdev: map<nat, nat>): Desktop {
    if es == [] then d else Lives(LivesAll(d, es[..|es| - 1], evdev), es[|es| - 1], evdev)
  }

  lemma AppliesAsLived(d: Desktop, e: InputEvent, n: nat, evdev: map<nat, nat>)
    ensures match ToProto(e, n) case Some(p) => Apply(d, p, evdev) == Lives(d, e, evdev) case None => Lives(d, e, evdev) == d
  {
  }

  lemma {:induction false} NumberedLives(d: Desktop, es: seq<InputEvent>, first: nat, evdev: map<nat, nat>)
    ensures Replay(d, Numbered(es, first), evdev) == LivesAll(d, es, evdev)
  {
    hide Apply, Lives, ToProto;
    if es != [] {
      var n := |es| - 1;
      NumberedLives(d, es[..n], first, evdev);
      var before := Numbered(es[..n], first);
      AppliesAsLived(LivesAll(d, es[..n], evdev), es[n], first + |before|, evdev);
      match ToProto(es[n], first + |before|)
      case None =>
      case Some(p) => ReplayLast(d, before, p, evdev);
    }
  }

  /** The events that the signals bring. */
  function EventsOf(signals: seq<Signal>): seq<InputEvent> {
    if signals == [] then [] else
    var s := signals[|signals| - 1];
    EventsOf(signals[..|signals| - 1]) + if s.Received? then [s.event] else []
  }

  lemma {:induction false} ReceivedAll(first: nat, signals: seq<Signal>, capacity: nat)
    requires !Run(first, signals, capacity).stopped
    ensures Run(first, signals, capacity).received == EventsOf(signals)
  {
    hide ToProto;
    if signals != [] {
      ReceivedAll(first, signals[..|signals| - 1], capacity);
    }
  }

  /**
   Whenever everything is settled and the loop runs, replaying the batches gives the desktop on which all
   events were lived through as they came.
   */
  lemma SettledLives(first: nat, signals: seq<Signal>, capacity: nat, d: Desktop, evdev: map<nat, nat>)
    requires Settled(Run(first, signals, capacity)) && !Run(first, signals, capacity).stopped
    ensures Replay(d, Flat(Run(first, signals, capacity).sent), evdev) == LivesAll(d, EventsOf(signals), evdev)
  {
    hide Replay, Numbered, Flat, LivesAll, Run;
    FlushedAgrees(first, signals, capacity, d, evdev);
    ReceivedAll(first, signals, capacity);
    NumberedLives(d, Run(first, signals, capacity).received, first, evdev);
  }

  /** At any time, stopped or not, what was sent, lost, pending and held does what the events received so far do. */
  lemma RunLives(first: nat, signals: seq<Signal>, capacity: nat, d: Desktop, evdev: map<nat, nat>)
    ensures var s := Run(first, signals, capacity);
      Replay(d, All(s), evdev) == LivesAll(d, s.received, evdev)
  {
    hide Replay, Numbered, All, LivesAll, Run;
    ReplayAgrees(first, signals, capacity, d, evdev);
    NumberedLives(d, Run(first, signals, capacity).received, first, evdev);
  }

  // ── Where clicks land ─────────────────────────────────────────────────────

  predicate Aims(p: Proto) {
    4 <= p.kind <= 6
  }

  datatype Aim = Aim(event: Proto, pointer: Option<(real, real)>)

  /** Clicks and scrolls, each with the pointer it finds. */
  function Aimed(d: Desktop, ps: seq<Proto>, evdev: map<nat, nat>): seq<Aim> {
    if ps == [] then [] else
    var n := |ps| - 1;
    Aimed(d, ps[..n], evdev) + if Aims(ps[n]) then [Aim(ps[n], Replay(d, ps[..n], evdev).pointer)] else []
  }

  lemma AimedLast(d: Desktop, ps: seq<Proto>, p: Proto, evdev: map<nat, nat>)
    ensures Aimed(d, ps + [p], evdev)
      == if Aims(p) then Aimed(d, ps, evdev) + [Aim(p, Replay(d, ps, evdev).pointer)] else Aimed(d, ps, evdev)
  {
    hide Aims, Replay;
    assert (ps + [p])[..|ps|] == ps;
  }

  /** A click or scroll that arrives while a move to some other place is held back. */
  predicate Overtakes(s: State, signal: Signal, d: Desktop, evdev: map<nat, nat>) {
    !s.stopped && signal.Received? && (signal.event.MouseDown? || signal.event.MouseUp? || signal.event.MouseScroll?) &&
    s.move.Some? && s.move.value.payload.Mouse? &&
    Replay(d, Out(s), evdev).pointer != Some((s.move.value.payload.x, s.move.value.payload.y))
  }

  predicate NoneOvertakes(first: nat, signals: seq<Signal>, capacity: nat, d: Desktop, evdev: map<nat, nat>) {
    if signals == [] then true else
    var n := |signals| - 1;
    NoneOvertakes(first, signals[..n], capacity, d, evdev) &&
    !Overtakes(Run(first, signals[..n], capacity), signals[n], d, evdev)
  }

  lemma AimsIffClick(e: InputEvent, n: nat)
    requires ToProto(e, n).Some?
    ensures Aims(ToProto(e, n).value) <==> e.MouseDown? || e.MouseUp? || e.MouseScroll?
    ensures Aims(ToProto(e, n).value) ==> !IsMove(ToProto(e, n).value)
  {
  }

  lemma MovePoints(d: Desktop, m: Proto, evdev: map<nat, nat>)
    requires IsMove(m) && m.payload.Mouse?
    ensures Apply(d, m, evdev).pointer == Some((m.payload.x, m.payload.y)) && !Aims(m)
  {
  }

  /** Every click and scroll finds the pointer where the plain stream would have it, exactly when none overtakes a held move. */
  lemma {:induction false} AimsExactly(first: nat, signals: seq<Signal>, capacity: nat, d: Desktop, evdev: map<nat, nat>)
    ensures var s := Run(first, signals, capacity);
      Aimed(d, All(s), evdev) == Aimed(d, Numbered(s.received, first), evdev)
      <==> NoneOvertakes(first, signals, capacity, d, evdev)
  {
    hide Step, Replay, Aimed, Numbered, All, Out, Sane, Overtakes;
    if signals == [] {
      Empty(first, capacity);
    } else {
      var n := |signals| - 1;
      AimsExactly(first, signals[..n], capacity, d, evdev);
      ReplayAgrees(first, signals[..n], capacity, d, evdev);
      var s := Run(first, signals[..n], capacity);
      RunSane(first, signals[..n], capacity);
      var c := StepChanges(s, signals[n], capacity, first);
      if c.Added? {
        AimsGrow(s, signals[n], Step(s, signals[n], capacity), c, first, d, evdev);
      } else {
        OnlyClicksOvertake(s, signals[n], d, evdev);
      }
    }
  }

  lemma OnlyClicksOvertake(s: State, signal: Signal, d: Desktop, evdev: map<nat, nat>)
    ensures Overtakes(s, signal, d, evdev) ==> !s.stopped && signal.Received? && !signal.event.ClipboardChanged?
  {
  }

  lemma AimsGrow(s: State, signal: Signal, t: State, c: Change, first: nat, d: Desktop, evdev: map<nat, nat>)
    requires c.Added? && Changes(s, t, c, first) && c.out == Out(s) && c.held == Held(s.move)
    requires !s.stopped && signal.Received? && Some(c.p) == ToProto(signal.event, s.next)
    requires Replay(d, All(s), evdev) == Replay(d, Numbered(s.received, first), evdev)
    ensures Aimed(d, All(t), evdev) == Aimed(d, Numbered(t.received, first), evdev) <==>
      Aimed(d, All(s), evdev) == Aimed(d, Numbered(s.received, first), evdev) && !Overtakes(s, signal, d, evdev)
  {
    hide Replay, Apply, Aimed, Numbered, All, Out, IsMove, Aims;
    AimsIffClick(signal.event, s.next);
    IsMoveIffMouse(signal.event, s.next);
    var plain := Numbered(s.received, first);
    AimedLast(d, plain, c.p, evdev);
    AimedLast(d, c.out, c.p, evdev);
    if c.held != [] {
      var m := c.held[0];
      assert c.held == [m] && s.move == Some(m);
      ReplayLast(d, c.out, m, evdev);
      AimedLast(d, c.out, m, evdev);
      AimedLast(d, c.out + [c.p], m, evdev);
      MovePoints(Replay(d, c.out, evdev), m, evdev);
      AppendSame(Aimed(d, c.out, evdev), Aim(c.p, Replay(d, c.out, evdev).pointer),
        Aimed(d, plain, evdev), Aim(c.p, Replay(d, plain, evdev).pointer));
    } else {
      assert c.out + c.held == c.out && c.out + [c.p] + c.held == c.out + [c.p];
      AppendSame(Aimed(d, c.out, evdev), Aim(c.p, Replay(d, c.out, evdev).pointer),
        Aimed(d, plain, evdev), Aim(c.p, Replay(d, plain, evdev).pointer));
    }
  }

  lemma AppendSame<T>(a: seq<T>, x: T, b: seq<T>, y: T)
    ensures a + [x] == b + [y] <==> a == b && x == y
  {
    if a + [x] == b + [y] {
      assert (a + [x])[..|a|] == a && (b + [y])[..|b|] == b;
      assert (a + [x])[|a|] == x && (b + [y])[|b|] == y;
    }
  }

  /** A move and then a click in one interval: the click is sent first, and lands where the pointer was. */
  lemma ClickOvertakes(x: real, y: real, d: Desktop, evdev: map<nat, nat>)
    requires d.pointer != Some((x, y))
    ensures !NoneOvertakes(0, [Received(MouseMove(x, y, 0)), Received(MouseDown(1, x, y))], 1, d, evdev)
  {
    var move, click := Received(MouseMove(x, y, 0)), Received(MouseDown(1, x, y));
    assert [move, click][..1] == [move] && [move][..0] == [];
    var s := Run(0, [move], 1);
    assert s == Step(Run(0, [], 1), move, 1);
    assert Out(s) == [];
  }
}
