/** The client's input sender: mouse moves are coalesced, the rest is batched in order. */
module InputSending {
  import opened Options

  datatype InputEvent =
    | KeyDown(keycode: nat, scancode: nat, shift: bool, ctrl: bool, alt: bool, meta: bool, repeat: bool)
    | KeyUp(keycode: nat, scancode: nat)
    | MouseMove(x: real, y: real, monitor: nat)
    | MouseDown(button: nat, x: real, y: real)
    | MouseUp(button: nat, x: real, y: real)
    | MouseScroll(dx: real, dy: real)
    | ClipboardChanged(content: seq<nat>, mime: string)

  datatype Payload =
    | Key(keycode: nat, scancode: nat, shift: bool, ctrl: bool, alt: bool, meta: bool, repeat: bool)
    | Mouse(button: nat, x: real, y: real, scrollDx: real, scrollDy: real, monitor: nat)

  /** A numbered event as the server gets it; `kind` runs from 1, key down, to 6, scroll. */
  datatype Proto = Proto(seq_: nat, kind: nat, payload: Payload)

  function ToProto(e: InputEvent, n: nat): (p: Option<Proto>)
    ensures p.Some? ==> p.value.seq_ == n
    ensures p.None? <==> e.ClipboardChanged?
    ensures p.Some? ==> (p.value.kind == 3 <==> e.MouseMove?)
  {
    match e
    case KeyDown(k, s, a, b, c, d, r) => Some(Proto(n, 1, Key(k, s, a, b, c, d, r)))
    case KeyUp(k, s) => Some(Proto(n, 2, Key(k, s, false, false, false, false, false)))
    case MouseMove(x, y, m) => Some(Proto(n, 3, Mouse(0, x, y, 0.0, 0.0, m)))
    case MouseDown(b, x, y) => Some(Proto(n, 4, Mouse(b, x, y, 0.0, 0.0, 0)))
    case MouseUp(b, x, y) => Some(Proto(n, 5, Mouse(b, x, y, 0.0, 0.0, 0)))
    case MouseScroll(dx, dy) => Some(Proto(n, 6, Mouse(0, 0.0, 0.0, dx, dy, 0)))
    case ClipboardChanged(_, _) => None
  }

  /** What wakes the sending loop. */
  datatype Signal = Received(event: InputEvent) | Tick | Cancelled | Closed

  /** The loop's variables, the batches the channel took, and the one it refused, if any. */
  datatype State = State(
    next: nat,
    pending: seq<Proto>,
    move: Option<Proto>,
    sent: seq<seq<Proto>>,
    lost: seq<Proto>,
    stopped: bool,
    received: seq<InputEvent>)

  function Held(move: Option<Proto>): seq<Proto> {
    match move case Some(m) => [m] case None => []
  }

  /** Sends what there is, the held move last; the channel takes `capacity` batches before its receiver is dropped. */
  function Flush(s: State, capacity: nat): State {
    var batch := s.pending + Held(s.move);
    if batch == [] then s
    else if |s.sent| < capacity then s.(pending := [], move := None, sent := s.sent + [batch])
    else s.(pending := [], move := None, lost := batch, stopped := true)
  }

  function Receive(s: State, e: InputEvent, capacity: nat): State {
    match ToProto(e, s.next)
    case None => s.(received := s.received + [e])
    case Some(p) =>
      var r := s.(received := s.received + [e], next := s.next + 1);
      if e.MouseMove? then r.(move := Some(p))
      else if e.KeyDown? || e.KeyUp? then Flush(r.(pending := s.pending + [p]), capacity)
      else r.(pending := s.pending + [p])
  }

  function Step(s: State, signal: Signal, capacity: nat): State {
    if s.stopped then s else
    match signal
    case Received(e) => Receive(s, e, capacity)
    case Tick => Flush(s, capacity)
    case Cancelled => s.(stopped := true)
    case Closed => s.(stopped := true)
  }

  function Run(first: nat, signals: seq<Signal>, capacity: nat): State {
    if signals == [] then State(first, [], None, [], [], false, []) else
    Step(Run(first, signals[..|signals| - 1], capacity), signals[|signals| - 1], capacity)
  }

  class InputSender {
    var next: nat

    constructor ()
      ensures next == 0
    {
      next := 0;
    }

    /** The sending loop, over the signals as `select!` picks them. */
    method Start(signals: seq<Signal>, capacity: nat) returns (sent: seq<seq<Proto>>)
      modifies this
      ensures sent == Run(old(next), signals, capacity).sent
      ensures next == Run(old(next), signals, capacity).next
    {
      ghost var first := next;
      var pending, move: Option<Proto> := [], None;
      sent := [];
      ghost var lost: seq<Proto>, received := [], [];
      for i := 0 to |signals|
        invariant Run(first, signals[..i], capacity) == State(next, pending, move, sent, lost, false, received)
      {
        assert signals[..i + 1][..i] == signals[..i];
        ghost var after := Step(Run(first, signals[..i], capacity), signals[i], capacity);
        assert Run(first, signals[..i + 1], capacity) == after;
        match signals[i]
        case Cancelled =>
          StoppedStays(first, signals, i + 1, capacity);
          return;
        case Closed =>
          StoppedStays(first, signals, i + 1, capacity);
          return;
        case Received(e) =>
          received := received + [e];
          if e.MouseMove? {
            move := ToProto(e, next);
            next := next + 1;
          } else {
            var proto := ToProto(e, next);
            if proto.Some? {
              pending := pending + [proto.value];
              next := next + 1;
              ghost var batch := pending + Held(move);
              if e.KeyDown? || e.KeyUp? {
                if move.Some? {
                  pending := pending + [move.value];
                  move := None;
                }
                assert pending == batch;
                if pending != [] {
                  if |sent| >= capacity {
                    StoppedStays(first, signals, i + 1, capacity);
                    return;
                  }
                  sent := sent + [pending];
                  pending := [];
                }
              }
            }
          }
        case Tick =>
          ghost var batch := pending + Held(move);
          if move.Some? {
            pending := pending + [move.value];
            move := None;
          }
          assert pending == batch;
          if pending != [] {
            if |sent| >= capacity {
              StoppedStays(first, signals, i + 1, capacity);
              return;
            }
            sent := sent + [pending];
            pending := [];
          }
      }
      assert signals[..|signals|] == signals;
    }
  }

  /** Once stopped, nothing more happens. */
  lemma {:induction false} StoppedStays(first: nat, signals: seq<Signal>, i: nat, capacity: nat)
    requires i <= |signals| && Run(first, signals[..i], capacity).stopped
    ensures Run(first, signals, capacity) == Run(first, signals[..i], capacity)
    decreases |signals|
  {
    hide ToProto;
    if i == |signals| {
      assert signals[..i] == signals;
    } else {
      var n := |signals| - 1;
      assert signals[..n][..i] == signals[..i];
      StoppedStays(first, signals[..n], i, capacity);
    }
  }
}
