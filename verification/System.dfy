/**
 * A cluster of nodes over a message bus, as atomic steps. The bus is a set of everything ever sent: a message
 * may be delivered at any later time, in any order, any number of times or never. Drop, Partition and Heal
 * touch no node, so here they are the one action Network; SimulatorBus models them exactly and shows that
 * every run of the simulator is a run of this system.
 */
module RaftSystem {
  import opened RaftTypes
  import opened NodeSpec

  datatype Cluster = Cluster(nodes: seq<NodeState>, net: set<Message>)

  datatype Action =
    | Timeout(node: int)
    | Deliver(m: Message)
    | Tick(node: int)
    | Client(node: int, command: string)
    | Crash(node: int)
    | Recover(node: int)
    | Network

  /** The other nodes in ascending order. */
  function PeersOf(n: nat, id: nat): (peers: seq<int>)
    requires id < n
    ensures |peers| == n - 1
  {
    seq(n - 1, i requires 0 <= i < n - 1 => if i < id then i else i + 1)
  }

  function Init(n: nat): Cluster {
    Cluster(seq(n, i requires 0 <= i < n => NewNode(i, PeersOf(n, i))), {})
  }

  function Actor(a: Action): int
    requires !a.Network?
  {
    if a.Deliver? then a.m.receiver else a.node
  }

  predicate Enabled(c: Cluster, a: Action) {
    !a.Network? ==> 0 <= Actor(a) < |c.nodes| && (a.Deliver? ==> a.m in c.net)
  }

  /**
   * What the acting node does. Timeouts fire in every role. `alive` is read outside the node's lock, so
   * delivery and timeouts may reach a node that has just been killed; only the heartbeat tick checks it.
   */
  function Effect(s: NodeState, a: Action): Outcome
    requires !a.Network?
  {
    match a
    case Timeout(_) => StartElection(s)
    case Deliver(m) => Handle(s, m)
    case Tick(_) => Heartbeat(s)
    case Client(_, command) => Submit(s, command)
    case Crash(_) => Kill(s)
    case Recover(_) => Restart(s)
  }

  function Apply(c: Cluster, a: Action): Cluster
    requires Enabled(c, a)
  {
    if a.Network? then c
    else
      var out := Effect(c.nodes[Actor(a)], a);
      Cluster(c.nodes[Actor(a) := out.node], c.net + set m | m in out.sent)
  }

  // ---------------------------------------------------------------- runs

  datatype Run = Run(states: seq<Cluster>, actions: seq<Action>)

  predicate Step(r: Run, k: nat)
    requires k < |r.actions| && k + 1 < |r.states|
  {
    Enabled(r.states[k], r.actions[k]) && r.states[k + 1] == Apply(r.states[k], r.actions[k])
  }

  predicate ValidRun(n: nat, r: Run) {
    && |r.states| == |r.actions| + 1
    && r.states[0] == Init(n)
    && forall k | 0 <= k < |r.actions| :: Step(r, k)
  }

  predicate LeadsIn(c: Cluster, v: nat, term: nat)
    requires v < |c.nodes|
  {
    c.nodes[v].role.Leader? && c.nodes[v].currentTerm == term
  }

  // ---------------------------------------------------------------- what the handlers do not enforce

  /** A granted vote is counted only in the term it was cast in. */
  predicate FreshVotes(c: Cluster, a: Action)
    requires Enabled(c, a)
  {
    a.Deliver? && a.m.payload.RequestVoteReply? && a.m.payload.voteGranted ==>
      var s := MaybeStepDown(c.nodes[a.m.receiver], a.m.payload.term);
      s.role.Candidate? ==> a.m.payload.term == s.currentTerm
  }

  /** A successful AppendEntries reply is used only in the term it was sent in. */
  predicate FreshAcks(c: Cluster, a: Action)
    requires Enabled(c, a)
  {
    a.Deliver? && a.m.payload.AppendEntriesReply? && a.m.payload.success ==>
      var s := MaybeStepDown(c.nodes[a.m.receiver], a.m.payload.term);
      s.role.Leader? ==> a.m.payload.term == s.currentTerm
  }

  /** An accepted AppendEntries leaves no entry of another term past the last entry it vouches for. */
  predicate ExactAck(c: Cluster, a: Action)
    requires Enabled(c, a)
  {
    a.Deliver? && a.m.payload.AppendEntries? && Accepts(c.nodes[a.m.receiver], a.m.payload) ==>
      var log := HandleAppendEntries(c.nodes[a.m.receiver], a.m).node.log;
      forall i | a.m.payload.prevLogIndex + |a.m.payload.entries| <= i < |log| :: log[i].term == a.m.payload.term
  }

  predicate FreshVotesRun(n: nat, r: Run)
    requires ValidRun(n, r)
  {
    forall k | 0 <= k < |r.actions| && Step(r, k) :: FreshVotes(r.states[k], r.actions[k])
  }

  /** All three hypotheses on every step. */
  predicate CarefulRun(n: nat, r: Run)
    requires ValidRun(n, r)
  {
    FreshVotesRun(n, r) &&
    forall k | 0 <= k < |r.actions| && Step(r, k) ::
      FreshAcks(r.states[k], r.actions[k]) && ExactAck(r.states[k], r.actions[k])
  }
}
