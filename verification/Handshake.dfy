/** The agent and the proxy over one vsock connection: greeting, start of capture, then frames up and inputs down. */
module Handshake {
  /** Pixel formats by their numbers on the wire, 0 to 3. */
  predicate Known(format: int) { 0 <= format <= 3 }

  const BGRA8: int := 2

  datatype Msg =
    | Hello(formats: seq<int>)
    | HelloAck(accepted: bool)
    | Start(format: int)
    | Stop
    | Frame(format: int, number: nat)
    | Inputs(batch: nat)
    | Stopped

  datatype AgentPhase = Connected | AwaitingAck | AwaitingStart | Capturing(format: int) | AgentEnded | AgentBroken

  datatype ProxyPhase = AwaitingHello | Greeted(formats: seq<int>) | Acked(formats: seq<int>) | Relaying | ProxyEnded | ProxyBroken

  /** A frame handed to the encoder. */
  datatype Forwarded = Forwarded(number: nat, keyframe: bool)

  /** All that was written in either direction, how much of it was read, and what came out. */
  datatype World = World(
    agent: AgentPhase,
    proxy: ProxyPhase,
    up: seq<Msg>,
    upRead: nat,
    down: seq<Msg>,
    downRead: nat,
    forwarded: seq<Forwarded>,
    injected: seq<nat>)

  datatype Action =
    | AgentGreets(offer: seq<int>)
    | AgentReads
    | AgentCaptures(number: nat)
    | AgentStops
    | AgentDies
    | ProxyReads
    | ProxyAnswers
    | ProxyRelays(batch: nat)
    | ProxyDies

  /** The first format offered, if it is one. */
  function Choice(formats: seq<int>): int {
    if formats != [] && Known(formats[0]) then formats[0] else BGRA8
  }

  function Negotiated(format: int): int {
    if Known(format) then format else BGRA8
  }

  function AgentRead(w: World, m: Msg): World {
    var r := w.(downRead := w.downRead + 1);
    match w.agent
    case AwaitingAck =>
      if m.HelloAck? then r.(agent := if m.accepted then AwaitingStart else AgentEnded) else r.(agent := AgentBroken)
    case AwaitingStart =>
      if m.Start? then r.(agent := Capturing(Negotiated(m.format))) else r.(agent := AgentBroken)
    case Capturing(_) =>
      if m.Stop? then r.(agent := AgentEnded)
      else if m.Inputs? then r.(injected := w.injected + [m.batch])
      else r
    case _ => w
  }

  function ProxyRead(w: World, m: Msg): World {
    var r := w.(upRead := w.upRead + 1);
    match w.proxy
    case AwaitingHello => if m.Hello? then r.(proxy := Greeted(m.formats)) else r.(proxy := ProxyBroken)
    case Relaying =>
      if m.Frame? then r.(forwarded := w.forwarded + [Forwarded(m.number, |w.forwarded| == 0)])
      else if m.Stopped? then r.(proxy := ProxyEnded)
      else r
    case _ => w
  }

  /** An action that is not possible in the state does nothing. */
  function Step(w: World, a: Action): World {
    match a
    case AgentGreets(formats) =>
      if w.agent.Connected? then w.(agent := AwaitingAck, up := w.up + [Hello(formats)]) else w
    case AgentReads => if w.downRead < |w.down| then AgentRead(w, w.down[w.downRead]) else w
    case AgentCaptures(n) =>
      if w.agent.Capturing? then w.(up := w.up + [Frame(w.agent.format, n)]) else w
    case AgentStops => if w.agent.Capturing? then w.(agent := AgentEnded, up := w.up + [Stopped]) else w
    case AgentDies => w.(agent := if w.agent.AgentBroken? then AgentBroken else AgentEnded)
    case ProxyReads => if w.upRead < |w.up| then ProxyRead(w, w.up[w.upRead]) else w
    case ProxyAnswers =>
      (match w.proxy
       case Greeted(formats) => w.(proxy := Acked(formats), down := w.down + [HelloAck(true)])
       case Acked(formats) => w.(proxy := Relaying, down := w.down + [Start(Choice(formats))])
       case _ => w)
    case ProxyRelays(batch) => if w.proxy.Relaying? then w.(down := w.down + [Inputs(batch)]) else w
    case ProxyDies => w.(proxy := if w.proxy.ProxyBroken? then ProxyBroken else ProxyEnded)
  }

  function Run(actions: seq<Action>): World {
    if actions == [] then World(Connected, AwaitingHello, [], 0, [], 0, [], []) else
    Step(Run(actions[..|actions| - 1]), actions[|actions| - 1])
  }

  // ── What every step keeps ─────────────────────────────────────────────────

  /** Down the wire: the answer, the start with the format chosen, then inputs only. */
  ghost predicate DownShape(w: World) {
    (|w.down| >= 1 ==> w.down[0] == HelloAck(true) && |w.up| >= 1 && w.up[0].Hello?) &&
    (|w.down| >= 2 ==> w.down[1] == Start(Choice(w.up[0].formats))) &&
    (forall i :: 2 <= i < |w.down| ==> w.down[i].Inputs?)
  }

  /** Up the wire: the greeting, then frames of that format, and at last perhaps the end. */
  ghost predicate UpShape(w: World) {
    (|w.up| >= 1 ==> w.up[0].Hello?) &&
    (|w.up| >= 2 ==> |w.down| >= 2 && w.downRead >= 2) &&
    (forall i :: 1 <= i < |w.up| ==>
      (w.up[i].Frame? && w.up[i].format == Choice(w.up[0].formats)) || (w.up[i] == Stopped && i == |w.up| - 1))
  }

  ghost predicate AgentAt(w: World) {
    w.downRead <= |w.down| &&
    match w.agent
    case Connected => w.up == [] && w.downRead == 0
    case AwaitingAck => |w.up| == 1 && w.downRead == 0
    case AwaitingStart => |w.up| == 1 && w.downRead == 1
    case Capturing(f) =>
      w.downRead >= 2 && |w.up| >= 1 && w.up[0].Hello? && f == Choice(w.up[0].formats) && w.up[|w.up| - 1] != Stopped
    case AgentEnded => true
    case AgentBroken => false
  }

  ghost predicate ProxyAt(w: World) {
    w.upRead <= |w.up| &&
    match w.proxy
    case AwaitingHello => w.upRead == 0 && w.down == []
    case Greeted(fs) => w.upRead == 1 && w.up[0] == Hello(fs) && w.down == []
    case Acked(fs) => w.upRead == 1 && w.up[0] == Hello(fs) && |w.down| == 1
    case Relaying => w.upRead >= 1 && |w.down| >= 2
    case ProxyEnded => true
    case ProxyBroken => false
  }

  ghost predicate Phases(w: World) {
    AgentAt(w) && ProxyAt(w)
  }

  /** The frames among messages. */
  function Frames(ms: seq<Msg>): seq<nat> {
    if ms == [] then [] else
    Frames(ms[..|ms| - 1]) + if ms[|ms| - 1].Frame? then [ms[|ms| - 1].number] else []
  }

  function Batches(ms: seq<Msg>): seq<nat> {
    if ms == [] then [] else
    Batches(ms[..|ms| - 1]) + if ms[|ms| - 1].Inputs? then [ms[|ms| - 1].batch] else []
  }

  function Numbers(fs: seq<Forwarded>): (r: seq<nat>)
    ensures |r| == |fs| && forall i :: 0 <= i < |fs| ==> r[i] == fs[i].number
  {
    seq(|fs|, i requires 0 <= i < |fs| => fs[i].number)
  }

  /** What came out is what was read, in order; the first frame and no other is a keyframe. */
  ghost predicate Passed(w: World) {
    w.upRead <= |w.up| && w.downRead <= |w.down| &&
    Numbers(w.forwarded) == Frames(w.up[..w.upRead]) && w.injected == Batches(w.down[..w.downRead]) &&
    forall i :: 0 <= i < |w.forwarded| ==> w.forwarded[i].keyframe == (i == 0)
  }

  lemma StepDown(w: World, a: Action)
    requires DownShape(w) && UpShape(w) && Phases(w)
    ensures DownShape(Step(w, a))
  {
  }

  lemma StepUp(w: World, a: Action)
    requires DownShape(w) && UpShape(w) && Phases(w)
    ensures UpShape(Step(w, a))
  {
  }

  lemma StepAgent(w: World, a: Action)
    requires DownShape(w) && AgentAt(w)
    ensures AgentAt(Step(w, a))
  {
  }

  lemma StepProxy(w: World, a: Action)
    requires UpShape(w) && ProxyAt(w)
    ensures ProxyAt(Step(w, a))
  {
  }

  lemma StepPhases(w: World, a: Action)
    requires DownShape(w) && UpShape(w) && Phases(w)
    ensures Phases(Step(w, a))
  {
    hide Step, AgentAt, ProxyAt, DownShape, UpShape;
    StepAgent(w, a);
    StepProxy(w, a);
  }

  lemma FramesPush(ms: seq<Msg>, m: Msg)
    ensures Frames(ms + [m]) == if m.Frame? then Frames(ms) + [m.number] else Frames(ms)
    ensures Batches(ms + [m]) == if m.Inputs? then Batches(ms) + [m.batch] else Batches(ms)
  {
    assert (ms + [m])[..|ms|] == ms;
  }

  lemma StepPassed(w: World, a: Action)
    requires DownShape(w) && UpShape(w) && Phases(w) && Passed(w)
    ensures Passed(Step(w, a))
  {
    hide Frames, Batches;
    var t := Step(w, a);
    match a
    case AgentReads => if w.downRead < |w.down| { AgentReadPasses(w); }
    case ProxyReads => if w.upRead < |w.up| { ProxyReadPasses(w); }
    case _ =>
      assert t.up[..w.upRead] == w.up[..w.upRead] && t.down[..w.downRead] == w.down[..w.downRead];
  }

  lemma AgentReadPasses(w: World)
    requires DownShape(w) && Phases(w) && Passed(w) && w.downRead < |w.down|
    ensures Passed(AgentRead(w, w.down[w.downRead]))
  {
    hide Frames, Batches;
    FramesPush(w.down[..w.downRead], w.down[w.downRead]);
    assert w.down[..w.downRead + 1] == w.down[..w.downRead] + [w.down[w.downRead]];
  }

  lemma ProxyReadPasses(w: World)
    requires UpShape(w) && Phases(w) && Passed(w) && w.upRead < |w.up|
    ensures Passed(ProxyRead(w, w.up[w.upRead]))
  {
    hide Frames, Batches;
    FramesPush(w.up[..w.upRead], w.up[w.upRead]);
    assert w.up[..w.upRead + 1] == w.up[..w.upRead] + [w.up[w.upRead]];
    var f := Forwarded(if w.up[w.upRead].Frame? then w.up[w.upRead].number else 0, |w.forwarded| == 0);
    assert Numbers(w.forwarded + [f]) == Numbers(w.forwarded) + [f.number];
  }

  /** In every interleaving of the two sides, neither ever meets a message out of order. */
  lemma {:induction false} HandshakeHolds(actions: seq<Action>)
    ensures var w := Run(actions); DownShape(w) && UpShape(w) && Phases(w) && Passed(w)
    ensures !Run(actions).agent.AgentBroken? && !Run(actions).proxy.ProxyBroken?
  {
    hide DownShape, UpShape, Passed, Step;
    if actions == [] {
      JustConnected();
    } else {
      var n := |actions| - 1;
      HandshakeHolds(actions[..n]);
      var w := Run(actions[..n]);
      StepDown(w, actions[n]);
      StepUp(w, actions[n]);
      StepPhases(w, actions[n]);
      StepPassed(w, actions[n]);
    }
  }

  lemma JustConnected()
    ensures var w := Run([]); DownShape(w) && UpShape(w) && Phases(w) && Passed(w)
  {
  }

  /** The proxy asks for the first format that the agent offers, if it is one, and for BGRA otherwise. */
  lemma AsksFirstOffer(actions: seq<Action>)
    requires |Run(actions).down| >= 2
    ensures var w := Run(actions);
      && |w.up| >= 1 && w.up[0].Hello? && w.down[0] == HelloAck(true) && w.down[1].Start?
      && var offer := w.up[0].formats;
         if |offer| > 0 && 0 <= offer[0] <= 3 then w.down[1].format == offer[0] else w.down[1].format == 2
  {
    HandshakeHolds(actions);
    hide Run, Passed, Phases, UpShape;
  }

  /** Frames have the format that the proxy asked for, and come after it asked. */
  lemma FramesAsAsked(actions: seq<Action>, i: nat)
    requires i < |Run(actions).up| && Run(actions).up[i].Frame?
    ensures var w := Run(actions);
      |w.down| >= 2 && w.down[1] == Start(w.up[i].format) && w.downRead >= 2
  {
    hide Run, Passed, Phases;
    HandshakeHolds(actions);
  }
}
