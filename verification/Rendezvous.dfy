/**
 The rendezvous of client sessions and agents over a vsock CID: whichever comes first makes the
 channel of inputs, the other finds it.
 */
module Rendezvous {
  import opened Options

  type Cid = nat
  type Channel = nat
  type Batch = nat

  /** Senders and receivers stored per CID, by the number of their channel. */
  datatype Desk = Desk(txs: map<Cid, Channel>, rxs: map<Cid, Channel>, next: Channel)

  /** A client takes the sender that is there, or makes a channel and leaves its receiver. */
  function Registered(d: Desk, cid: Cid): Desk {
    if cid in d.txs then d else Desk(d.txs[cid := d.next], d.rxs[cid := d.next], d.next + 1)
  }

  /** An agent takes the receiver left for it, or makes a channel and stores its sender over any other. */
  function Accepted(d: Desk, cid: Cid): Desk {
    if cid in d.rxs then d.(rxs := d.rxs - {cid}) else Desk(d.txs[cid := d.next], d.rxs, d.next + 1)
  }

  function ReceiverFor(d: Desk, cid: Cid): Channel {
    if cid in d.rxs then d.rxs[cid] else d.next
  }

  function SenderFor(d: Desk, cid: Cid): Option<Channel> {
    if cid in d.txs then Some(d.txs[cid]) else None
  }

  class VsockService {
    var txs: map<Cid, Channel>
    var rxs: map<Cid, Channel>
    var next: Channel

    function State(): Desk
      reads this
    {
      Desk(txs, rxs, next)
    }

    constructor ()
      ensures State() == Desk(map[], map[], 0)
    {
      txs, rxs, next := map[], map[], 0;
    }

    method RegisterInputForCid(cid: Cid) returns (tx: Channel)
      modifies this
      ensures State() == Registered(old(State()), cid) && Some(tx) == SenderFor(State(), cid)
    {
      if cid in txs {
        return txs[cid];
      }
      var c := next;
      next := next + 1;
      rxs := rxs[cid := c];
      txs := txs[cid := c];
      return c;
    }

    method GetInputTxForCid(cid: Cid) returns (tx: Option<Channel>)
      ensures tx == SenderFor(State(), cid)
    {
      if cid in txs { return Some(txs[cid]); }
      return None;
    }

    /** The channel that an agent's session will read, in the accept loop. */
    method AcceptAgent(cid: Cid) returns (rx: Channel)
      modifies this
      ensures State() == Accepted(old(State()), cid) && rx == ReceiverFor(old(State()), cid)
    {
      if cid in rxs {
        rx := rxs[cid];
        rxs := rxs - {cid};
      } else {
        rx := next;
        next := next + 1;
        txs := txs[cid := rx];
      }
    }
  }

  // ── Runs ──────────────────────────────────────────────────────────────────

  datatype Agent = Agent(cid: Cid, channel: Channel)

  /** A client session holds the sender of a channel got for its CID. */
  datatype Client = Client(cid: Cid, channel: Channel)

  datatype Action =
    | Register(cid: Cid)
    | Lookup(cid: Cid)
    | Accept(cid: Cid)
    | Send(client: nat, batch: Batch)
    | Relay(agent: nat)
    | Hangup(agent: nat)

  /**
   `accepted` are the batches each channel took, `relayed` what its reader wrote on, and `closed` the
   channels whose reader has gone. A channel holds `ROOM` batches.
   */
  datatype World = World(
    desk: Desk,
    agents: seq<Agent>,
    clients: seq<Client>,
    owner: map<Channel, Cid>,
    accepted: map<Channel, seq<Batch>>,
    relayed: map<Channel, seq<Batch>>,
    closed: set<Channel>)

  const ROOM: nat := 64

  function Of(m: map<Channel, seq<Batch>>, c: Channel): seq<Batch> {
    if c in m then m[c] else []
  }

  function Step(w: World, a: Action): World {
    match a
    case Register(cid) =>
      var d := Registered(w.desk, cid);
      w.(desk := d, clients := w.clients + [Client(cid, d.txs[cid])],
         owner := if cid in w.desk.txs then w.owner else w.owner[w.desk.next := cid])
    case Lookup(cid) =>
      if cid in w.desk.txs then w.(clients := w.clients + [Client(cid, w.desk.txs[cid])]) else w
    case Accept(cid) =>
      w.(desk := Accepted(w.desk, cid), agents := w.agents + [Agent(cid, ReceiverFor(w.desk, cid))],
         owner := if cid in w.desk.rxs then w.owner else w.owner[w.desk.next := cid])
    case Send(k, b) =>
      if k >= |w.clients| then w else
      var c := w.clients[k].channel;
      if c in w.closed || |Of(w.accepted, c)| - |Of(w.relayed, c)| >= ROOM then w else
      w.(accepted := w.accepted[c := Of(w.accepted, c) + [b]])
    case Relay(k) =>
      if k >= |w.agents| then w else
      var c := w.agents[k].channel;
      var n := |Of(w.relayed, c)|;
      if c in w.closed || n >= |Of(w.accepted, c)| then w else
      w.(relayed := w.relayed[c := Of(w.relayed, c) + [Of(w.accepted, c)[n]]])
    case Hangup(k) =>
      if k >= |w.agents| then w else w.(closed := w.closed + {w.agents[k].channel})
  }

  function Start(): World {
    World(Desk(map[], map[], 0), [], [], map[], map[], map[], {})
  }

  function Run(actions: seq<Action>): World {
    if actions == [] then Start() else Step(Run(actions[..|actions| - 1]), actions[|actions| - 1])
  }

  /** The last agent accepted on a CID. */
  function Latest(agents: seq<Agent>, cid: Cid): Option<Agent> {
    if agents == [] then None
    else if agents[|agents| - 1].cid == cid then Some(agents[|agents| - 1])
    else Latest(agents[..|agents| - 1], cid)
  }

  // ── What every step keeps ─────────────────────────────────────────────────

  /** A stored receiver is that of the stored sender. */
  ghost predicate Paired(d: Desk) {
    forall cid :: cid in d.rxs ==> cid in d.txs && d.txs[cid] == d.rxs[cid]
  }

  /** A channel in use has one CID for good, that of everyone who holds an end of it. */
  ghost predicate Owned(w: World) {
    (forall cid :: cid in w.desk.txs ==> w.desk.txs[cid] in w.owner && w.owner[w.desk.txs[cid]] == cid) &&
    (forall i :: 0 <= i < |w.agents| ==> w.agents[i].channel in w.owner && w.owner[w.agents[i].channel] == w.agents[i].cid) &&
    (forall i :: 0 <= i < |w.clients| ==> w.clients[i].channel in w.owner && w.owner[w.clients[i].channel] == w.clients[i].cid) &&
    (forall c :: c in w.owner ==> c < w.desk.next)
  }

  /** No two agents ever read one channel, and none reads one whose receiver is still stored. */
  ghost predicate OneReader(w: World) {
    (forall i, j :: 0 <= i < j < |w.agents| ==> w.agents[i].channel != w.agents[j].channel) &&
    forall i, cid :: 0 <= i < |w.agents| && cid in w.desk.rxs ==> w.agents[i].channel != w.desk.rxs[cid]
  }

  /** Once an agent came on a CID, the stored sender is the latest one's. */
  ghost predicate SenderOfLatest(w: World) {
    forall cid :: Latest(w.agents, cid).Some? ==>
      cid in w.desk.txs && w.desk.txs[cid] == Latest(w.agents, cid).value.channel && cid !in w.desk.rxs
  }

  /** What a reader passes on is a first part of what its channel took, in order and once each. */
  ghost predicate InOrder(w: World) {
    forall c :: Of(w.relayed, c) <= Of(w.accepted, c)
  }

  lemma StepPaired(w: World, a: Action)
    requires Paired(w.desk)
    ensures Paired(Step(w, a).desk)
  {
  }

  lemma StepOwned(w: World, a: Action)
    requires Paired(w.desk) && Owned(w)
    ensures Owned(Step(w, a))
  {
  }

  lemma StepOneReader(w: World, a: Action)
    requires Paired(w.desk) && Owned(w) && OneReader(w)
    ensures OneReader(Step(w, a))
  {
  }

  lemma LatestPush(agents: seq<Agent>, a: Agent, cid: Cid)
    ensures Latest(agents + [a], cid) == if a.cid == cid then Some(a) else Latest(agents, cid)
  {
    assert (agents + [a])[..|agents|] == agents;
  }

  lemma StepSender(w: World, a: Action)
    requires Paired(w.desk) && SenderOfLatest(w)
    ensures SenderOfLatest(Step(w, a))
  {
    hide Latest;
    if a.Accept? {
      forall cid ensures Latest(w.agents + [Agent(a.cid, ReceiverFor(w.desk, a.cid))], cid)
        == if a.cid == cid then Some(Agent(a.cid, ReceiverFor(w.desk, a.cid))) else Latest(w.agents, cid)
      {
        LatestPush(w.agents, Agent(a.cid, ReceiverFor(w.desk, a.cid)), cid);
      }
    }
  }

  lemma OfUpdate(m: map<Channel, seq<Batch>>, c: Channel, q: seq<Batch>, x: Channel)
    ensures Of(m[c := q], x) == if x == c then q else Of(m, x)
  {
  }

  lemma StepInOrder(w: World, a: Action)
    requires InOrder(w)
    ensures InOrder(Step(w, a))
  {
    hide Registered, Accepted, Of;
    var t := Step(w, a);
    forall x ensures Of(t.relayed, x) <= Of(t.accepted, x) {
      assert Of(w.relayed, x) <= Of(w.accepted, x);
      if a.Send? && a.client < |w.clients| {
        var c := w.clients[a.client].channel;
        OfUpdate(w.accepted, c, Of(w.accepted, c) + [a.batch], x);
      } else if a.Relay? && a.agent < |w.agents| {
        var c := w.agents[a.agent].channel;
        if |Of(w.relayed, c)| < |Of(w.accepted, c)| {
          OfUpdate(w.relayed, c, Of(w.relayed, c) + [Of(w.accepted, c)[|Of(w.relayed, c)|]], x);
        }
      }
    }
  }

  /** In every order of registrations, lookups, accepts, sends, relays and hang-ups. */
  lemma {:induction false} RendezvousHolds(actions: seq<Action>)
    ensures var w := Run(actions);
      Paired(w.desk) && Owned(w) && OneReader(w) && SenderOfLatest(w) && InOrder(w)
  {
    hide Paired, Owned, OneReader, SenderOfLatest, InOrder, Step;
    if actions == [] {
      NobodyYet();
    } else {
      var n := |actions| - 1;
      RendezvousHolds(actions[..n]);
      var w := Run(actions[..n]);
      StepPaired(w, actions[n]);
      StepOwned(w, actions[n]);
      StepOneReader(w, actions[n]);
      StepSender(w, actions[n]);
      StepInOrder(w, actions[n]);
    }
  }

  lemma NobodyYet()
    ensures var w := Start();
      Paired(w.desk) && Owned(w) && OneReader(w) && SenderOfLatest(w) && InOrder(w)
  {
  }

  /** What a client sends reaches only agents of its own CID. */
  lemma InputsStayWithCid(actions: seq<Action>, client: nat, agent: nat)
    requires var w := Run(actions); client < |w.clients| && agent < |w.agents|
    ensures var w := Run(actions);
      w.clients[client].channel == w.agents[agent].channel ==> w.clients[client].cid == w.agents[agent].cid
  {
    hide Paired, OneReader, SenderOfLatest, InOrder, Run;
    RendezvousHolds(actions);
  }

  /** What a client sends on an open channel that is read up to date, its agent relays next, and nothing else changes hands. */
  lemma SentIsRelayed(w: World, client: nat, agent: nat, b: Batch)
    requires client < |w.clients| && agent < |w.agents|
    requires var c := w.clients[client].channel;
      w.agents[agent].channel == c && c !in w.closed && Of(w.relayed, c) == Of(w.accepted, c)
    ensures var c := w.clients[client].channel;
      var t := Step(Step(w, Send(client, b)), Relay(agent));
      && Of(t.relayed, c) == Of(w.relayed, c) + [b] && Of(t.accepted, c) == Of(w.accepted, c) + [b]
      && forall x :: x != c ==> Of(t.relayed, x) == Of(w.relayed, x) && Of(t.accepted, x) == Of(w.accepted, x)
  {
    hide Registered, Accepted;
  }

  /** A client that registers, or looks up, after the latest agent came, holds that agent's channel. */
  lemma FindsLatestAgent(actions: seq<Action>, cid: Cid)
    requires Latest(Run(actions).agents, cid).Some?
    ensures var w := Run(actions); var a := Latest(w.agents, cid).value;
      && Step(w, Register(cid)).clients == w.clients + [Client(cid, a.channel)]
      && Step(w, Lookup(cid)).clients == w.clients + [Client(cid, a.channel)]
  {
    RendezvousHolds(actions);
    hide Run, Owned, OneReader, InOrder, Latest;
  }

  /** An agent that comes after a client registered, with no agent yet for it, reads that client's channel. */
  lemma AgentFindsClient(w: World, cid: Cid)
    requires Paired(w.desk) && cid !in w.desk.txs
    ensures var t := Step(Step(w, Register(cid)), Accept(cid));
      t.agents[|t.agents| - 1] == Agent(cid, t.clients[|t.clients| - 1].channel)
  {
  }

  // ── Stale senders ─────────────────────────────────────────────────────────

  /** An agent comes on the CID and finds no receiver left for it. */
  predicate Replaces(w: World, a: Action, cid: Cid) {
    a == Accept(cid) && cid !in w.desk.rxs
  }

  predicate NeverReplaced(before: seq<Action>, after: seq<Action>, cid: Cid) {
    if after == [] then true else
    NeverReplaced(before, after[..|after| - 1], cid) &&
    !Replaces(Run(before + after[..|after| - 1]), after[|after| - 1], cid)
  }

  lemma SenderStep(w: World, a: Action, cid: Cid)
    requires cid in w.desk.txs
    ensures cid in Step(w, a).desk.txs && w.desk.next <= Step(w, a).desk.next
    ensures Step(w, a).desk.txs[cid] == if Replaces(w, a, cid) then w.desk.next else w.desk.txs[cid]
  {
  }

  /**
   A sender in use stays the stored one exactly until an agent comes on that CID to no stored
   receiver: from then on what is sent through it cannot reach the new agent.
   */
  lemma {:induction false} StaleExactly(before: seq<Action>, after: seq<Action>, cid: Cid)
    requires cid in Run(before).desk.txs
    ensures cid in Run(before + after).desk.txs
    ensures Run(before + after).desk.txs[cid] == Run(before).desk.txs[cid] <==> NeverReplaced(before, after, cid)
    ensures !NeverReplaced(before, after, cid) ==> Run(before + after).desk.txs[cid] >= Run(before).desk.next
    ensures Run(before).desk.txs[cid] < Run(before).desk.next <= Run(before + after).desk.next
  {
    hide Step, Replaces, OneReader, SenderOfLatest, InOrder;
    RendezvousHolds(before);
    if after == [] {
      assert before + after == before;
    } else {
      var n := |after| - 1;
      StaleExactly(before, after[..n], cid);
      assert (before + after)[..|before + after| - 1] == before + after[..n];
      SenderStep(Run(before + after[..n]), after[n], cid);
    }
  }
}
