/**
 * The simulator's message bus (backend/simulator/cluster.go) under the nodes: FIFO inboxes of bounded capacity
 * and a set of cut links. A handler runs while its node's lock is held and hands its messages over one at a
 * time, first testing the link and then writing to the inbox, so what it still has to send is `pending` and
 * the node does nothing else until that is empty.
 * Every run of the bus is a run of RaftSystem, so what is proved there holds of the simulator.
 */
module SimulatorBus {
  import opened RaftTypes
  import opened NodeSpec
  import opened RaftSystem
  import opened Logs
  import opened Basics
  import opened RunFacts
  import opened Safety

  const INBOX_CAPACITY: nat := 128

  type Link = (int, int)

  /**
   * `pending[i]` is what the handler of node i still has to send, the message it is sending first; `passed` are
   * the nodes whose first pending message has passed the link test and still has to be put into an inbox.
   * `inboxes[i]` is the channel of node i, after the message it has taken out of it and not yet handled, if any:
   * a node may hold that message for a while, waiting for its own lock.
   */
  datatype Bus = Bus(nodes: seq<NodeState>, pending: seq<seq<Message>>, passed: set<int>,
                     inboxes: seq<seq<Message>>, cut: set<Link>)

  datatype BusAction =
    | Local(action: Action)
    | Receive(node: int)
    | Discard(node: int)
    | Test(node: int)
    | Push(node: int, queued: bool)
    | Partition(groupA: seq<int>, groupB: seq<int>)
    | Heal

  function InitBus(n: nat): Bus {
    Bus(Init(n).nodes, seq(n, _ => []), {}, seq(n, _ => []), {})
  }

  predicate Severed(cut: set<Link>, m: Message) {
    (m.sender, m.receiver) in cut
  }

  function Enqueued(inboxes: seq<seq<Message>>, m: Message): seq<seq<Message>>
    requires 0 <= m.receiver < |inboxes|
  {
    inboxes[m.receiver := inboxes[m.receiver] + [m]]
  }

  /** Every link between the two groups, in both directions. */
  function CutLinks(groupA: seq<int>, groupB: seq<int>): set<Link> {
    (set a, b | a in groupA && b in groupB :: (a, b)) + (set a, b | a in groupA && b in groupB :: (b, a))
  }

  predicate Indexed(b: Bus, i: int) {
    0 <= i < |b.nodes| == |b.pending| == |b.inboxes|
  }

  /** The lock of node i is free. */
  predicate Ready(b: Bus, i: int) {
    Indexed(b, i) && b.pending[i] == []
  }

  predicate Sending(b: Bus, i: int) {
    Indexed(b, i) && b.pending[i] != [] && 0 <= b.pending[i][0].receiver < |b.inboxes|
  }

  /**
   * Only a dead node discards, and it needs no lock for that. With a message taken out the channel is full at
   * INBOX_CAPACITY + 1 messages here, otherwise at INBOX_CAPACITY.
   */
  predicate BusEnabled(b: Bus, x: BusAction) {
    match x
    case Local(a) => !a.Deliver? && !a.Network? && Ready(b, a.node)
    case Receive(i) => Ready(b, i) && b.inboxes[i] != []
    case Discard(i) => Indexed(b, i) && b.inboxes[i] != [] && !b.nodes[i].alive
    case Test(i) => Sending(b, i) && i !in b.passed
    case Push(i, queued) =>
      && Sending(b, i) && i in b.passed
      && var waiting := |b.inboxes[b.pending[i][0].receiver]|;
        if queued then waiting <= INBOX_CAPACITY else waiting >= INBOX_CAPACITY
    case Partition(_, _) => true
    case Heal => true
  }

  /** The action of RaftSystem that a bus action amounts to. */
  function Shadow(b: Bus, x: BusAction): Action {
    match x
    case Local(a) => a
    case Receive(i) => if 0 <= i < |b.inboxes| && b.inboxes[i] != [] then Deliver(b.inboxes[i][0]) else Network
    case Discard(_) => Network
    case Test(_) => Network
    case Push(_, _) => Network
    case Partition(_, _) => Network
    case Heal => Network
  }

  function Acted(b: Bus, i: int, a: Action): Bus
    requires Ready(b, i) && !a.Network?
  {
    var out := Effect(b.nodes[i], a);
    b.(nodes := b.nodes[i := out.node], pending := b.pending[i := out.sent])
  }

  function Shifted(queues: seq<seq<Message>>, i: int): seq<seq<Message>>
    requires 0 <= i < |queues| && queues[i] != []
  {
    queues[i := queues[i][1..]]
  }

  /**
   * The link is tested under the bus lock and the channel is written after that lock is released, so links may
   * be cut and mended between Test and Push.
   */
  function BusApply(b: Bus, x: BusAction): Bus
    requires BusEnabled(b, x)
  {
    match x
    case Local(a) => Acted(b, a.node, a)
    case Receive(i) => Acted(b.(inboxes := Shifted(b.inboxes, i)), i, Deliver(b.inboxes[i][0]))
    case Discard(i) => b.(inboxes := Shifted(b.inboxes, i))
    case Test(i) =>
      if Severed(b.cut, b.pending[i][0]) then b.(pending := Shifted(b.pending, i)) else b.(passed := b.passed + {i})
    case Push(i, queued) =>
      b.(pending := Shifted(b.pending, i), passed := b.passed - {i},
      inboxes := if queued then Enqueued(b.inboxes, b.pending[i][0]) else b.inboxes)
    case Partition(groupA, groupB) => b.(cut := b.cut + CutLinks(groupA, groupB))
    case Heal => b.(cut := {})
  }

  datatype BusRun = BusRun(states: seq<Bus>, actions: seq<BusAction>)

  predicate BusStep(r: BusRun, k: nat)
    requires k < |r.actions| && k + 1 < |r.states|
  {
    BusEnabled(r.states[k], r.actions[k]) && r.states[k + 1] == BusApply(r.states[k], r.actions[k])
  }

  predicate ValidBusRun(n: nat, r: BusRun) {
    && |r.states| == |r.actions| + 1
    && r.states[0] == InitBus(n)
    && forall k | 0 <= k < |r.actions| :: BusStep(r, k)
  }

  // ---------------------------------------------------------------- refinement

  function Emitted(b: Bus, x: BusAction): seq<Message> {
    var a := Shadow(b, x);
    if a.Network? || !(0 <= Actor(a) < |b.nodes|) then [] else Effect(b.nodes[Actor(a)], a).sent
  }

  /** Everything sent once `x` is done, if it was `net` before. */
  function NetAfter(b: Bus, net: set<Message>, x: BusAction): set<Message> {
    var sent := Emitted(b, x);
    net + (set m | m in sent)
  }

  function EverSent(r: BusRun, k: nat): set<Message>
    requires k <= |r.actions| && k <= |r.states|
  {
    if k == 0 then {} else NetAfter(r.states[k - 1], EverSent(r, k - 1), r.actions[k - 1])
  }

  /** The same run with everything ever sent in place of the bus. */
  function Abstracted(r: BusRun): Run
    requires |r.states| == |r.actions| + 1
  {
    Run(seq(|r.states|, k requires 0 <= k < |r.states| => Cluster(r.states[k].nodes, EverSent(r, k))),
        seq(|r.actions|, k requires 0 <= k < |r.actions| => Shadow(r.states[k], r.actions[k])))
  }

  predicate BusWf(n: nat, b: Bus, net: set<Message>) {
    && |b.nodes| == |b.pending| == |b.inboxes| == n
    && (forall i | 0 <= i < n :: b.nodes[i].id == i)
    && (forall i, m | 0 <= i < n && m in b.pending[i] :: m in net && m.sender == i)
    && (forall i, m | 0 <= i < n && m in b.inboxes[i] :: m in net && m.receiver == i)
    && (forall i | i in b.passed :: 0 <= i < n && b.pending[i] != [])
    && (forall i | 0 <= i < n :: |b.inboxes[i]| <= INBOX_CAPACITY + 1)
  }

  lemma HandleSigned(s: NodeState, m: Message)
    ensures Handle(s, m).node.id == s.id && forall o | o in Handle(s, m).sent :: o.sender == s.id
  {
    hide Merged, ScanDown, AppendFor, Lookup, Majority, Grants, Fits, NextOf;
    AppendForAddress(Handle(s, m).node);
  }

  /** A node keeps its identity and signs what it sends. */
  lemma EffectSigned(s: NodeState, a: Action)
    requires !a.Network?
    ensures Effect(s, a).node.id == s.id && forall m | m in Effect(s, a).sent :: m.sender == s.id
  {
    hide AppendFor, Handle;
    AppendForAddress(Effect(s, a).node);
    if a.Deliver? { HandleSigned(s, a.m); }
  }

  lemma BusStepWf(n: nat, b: Bus, net: set<Message>, x: BusAction)
    requires BusWf(n, b, net) && BusEnabled(b, x)
    ensures BusWf(n, BusApply(b, x), NetAfter(b, net, x))
    ensures Enabled(Cluster(b.nodes, net), Shadow(b, x))
    ensures Cluster(BusApply(b, x).nodes, NetAfter(b, net, x)) == Apply(Cluster(b.nodes, net), Shadow(b, x))
  {
    hide Effect;
    if x.Receive? {
      assert b.inboxes[x.node][0] in b.inboxes[x.node];
    }
    if x.Test? || x.Push? {
      assert b.pending[x.node][0] in b.pending[x.node];
    }
    var a := Shadow(b, x);
    if !a.Network? { EffectSigned(b.nodes[Actor(a)], a); }
  }

  lemma StartWf(n: nat)
    ensures BusWf(n, InitBus(n), {})
  {}

  lemma {:induction false} BusRunWf(n: nat, r: BusRun, k: nat)
    requires ValidBusRun(n, r) && k < |r.states|
    ensures BusWf(n, r.states[k], EverSent(r, k))
  {
    hide BusWf, BusEnabled, BusApply, NetAfter;
    if k == 0 {
      StartWf(n);
    } else {
      BusRunWf(n, r, k - 1);
      assert BusStep(r, k - 1);
      BusStepWf(n, r.states[k - 1], EverSent(r, k - 1), r.actions[k - 1]);
    }
  }

  /** Every run of the simulator, step for step, is a run of the cluster over a message set. */
  lemma BusRefines(n: nat, r: BusRun)
    requires ValidBusRun(n, r)
    ensures ValidRun(n, Abstracted(r))
  {
    hide BusWf, BusEnabled, BusApply, NetAfter, Apply, Enabled, Shadow;
    var q := Abstracted(r);
    forall k | 0 <= k < |q.actions|
      ensures Step(q, k)
    {
      BusRunWf(n, r, k);
      assert BusStep(r, k);
      BusStepWf(n, r.states[k], EverSent(r, k), r.actions[k]);
    }
  }

  /** The states of the bus are well formed, and so is everything ever sent. */
  lemma BusNodes(n: nat, r: BusRun, k: nat)
    requires ValidBusRun(n, r) && k < |r.states|
    ensures BusWf(n, r.states[k], EverSent(r, k)) && |r.states[k].nodes| == n
    ensures forall m | m in EverSent(r, k) :: MessageWf(n, m)
    ensures forall v: nat | v < n :: NodeWf(n, v, r.states[k].nodes[v]) && r.states[k].nodes[v].id == v
  {
    BusRunWf(n, r, k);
    BusRefines(n, r);
    WellFormedRun(n, Abstracted(r), k);
    hide ValidBusRun, ValidRun, BusWf, MessageWf, SegmentWf;
  }

  lemma Routable(n: nat, b: Bus, net: set<Message>, i: nat)
    requires BusWf(n, b, net) && i < n && b.pending[i] != [] && forall m | m in net :: MessageWf(n, m)
    ensures if i in b.passed then BusEnabled(b, Push(i, true)) || BusEnabled(b, Push(i, false)) else BusEnabled(b, Test(i))
  {
    var m := b.pending[i][0];
    assert m in b.pending[i] && m in net;
    assert MessageWf(n, m);
  }

  /** A node only ever addresses another node of the cluster, so the bus always has the inbox it needs. */
  lemma AlwaysRoutable(n: nat, r: BusRun, k: nat, i: nat)
    requires ValidBusRun(n, r) && k < |r.states| && i < n
    ensures |r.states[k].pending| == |r.states[k].inboxes| == n
    ensures r.states[k].pending[i] != [] ==>
      var b := r.states[k];
      if i in b.passed then BusEnabled(b, Push(i, true)) || BusEnabled(b, Push(i, false)) else BusEnabled(b, Test(i))
  {
    BusNodes(n, r, k);
    hide ValidBusRun, EverSent, NodeWf, MessageWf, BusEnabled;
    if r.states[k].pending[i] != [] { Routable(n, r.states[k], EverSent(r, k), i); }
  }

  /** State Machine Safety of the simulator itself. */
  lemma SimulatorSafety(n: nat, r: BusRun, j: nat, k: nat, a: nat, b: nat)
    requires ValidBusRun(n, r) && j < |r.states| && k < |r.states| && a < n && b < n
    requires ValidRun(n, Abstracted(r)) ==> CarefulRun(n, Abstracted(r))
    ensures |r.states[j].nodes| == |r.states[k].nodes| == n
    ensures var s, t := r.states[j].nodes[a], r.states[k].nodes[b];
      Agree(s.log, t.log, if s.commitIndex < t.commitIndex then s.commitIndex else t.commitIndex)
  {
    BusRefines(n, r);
    hide ValidRun, CarefulRun, BusStep, Agree;
    StateMachineSafety(n, Abstracted(r), j, k, a, b);
  }
}
