/**
 * Runs of the code, as it is, that lose a committed entry when FreshAcks or ExactAck is dropped and the other two
 * hypotheses are kept. They are runs over everything ever sent; each node takes its messages in the order in
 * which they were sent to it. BusCounterexample has the run for FreshVotes, on the bus itself.
 */
module Counterexamples {
  import opened RaftTypes
  import opened NodeSpec
  import opened RaftSystem
  import opened RunSteps
  import opened Basics
  import opened Logs
  import opened AppendLoop

  // ---------------------------------------------------------------- building runs

  predicate VotesFresh(c: Cluster, a: Action) {
    Enabled(c, a) && FreshVotes(c, a)
  }

  predicate AcksFresh(c: Cluster, a: Action) {
    Enabled(c, a) && FreshAcks(c, a)
  }

  predicate AcksExact(c: Cluster, a: Action) {
    Enabled(c, a) && ExactAck(c, a)
  }

  /** `p` holds of every step of the run. */
  predicate Always(r: Run, p: (Cluster, Action) -> bool) {
    |r.states| == |r.actions| + 1 && forall k | 0 <= k < |r.actions| :: p(r.states[k], r.actions[k])
  }

  /** Run `r'` goes on from `r` and breaks no hypothesis that `r` kept. */
  ghost predicate Continues(n: nat, r: Run, r': Run) {
    && ValidRun(n, r) && ValidRun(n, r') && Extends(r, r') && Last(r).net <= Last(r').net
    && (Always(r, VotesFresh) ==> Always(r', VotesFresh))
    && (Always(r, AcksFresh) ==> Always(r', AcksFresh))
    && (Always(r, AcksExact) ==> Always(r', AcksExact))
  }

  lemma ContinuesTwice(n: nat, r: Run, r': Run, r'': Run)
    requires Continues(n, r, r') && Continues(n, r', r'')
    ensures Continues(n, r, r'')
  {
    hide ValidRun, Always;
  }

  lemma Go(n: nat, r: Run, a: Action) returns (r': Run)
    requires ValidRun(n, r) && Enabled(Last(r), a)
    ensures ValidRun(n, r') && Extends(r, r') && Last(r') == Apply(Last(r), a)
    ensures Always(r, VotesFresh) && FreshVotes(Last(r), a) ==> Always(r', VotesFresh)
    ensures Always(r, AcksFresh) && FreshAcks(Last(r), a) ==> Always(r', AcksFresh)
    ensures Always(r, AcksExact) && ExactAck(Last(r), a) ==> Always(r', AcksExact)
  {
    r' := Longer(r, a);
    LongerValid(n, r, a);
    AlwaysLonger(r, a, VotesFresh);
    AlwaysLonger(r, a, AcksFresh);
    AlwaysLonger(r, a, AcksExact);
    hide ValidRun, Longer, Always, FreshVotes, FreshAcks, ExactAck, Apply;
  }

  lemma AlwaysLonger(r: Run, a: Action, p: (Cluster, Action) -> bool)
    requires |r.states| > 0 && Enabled(Last(r), a)
    ensures Always(r, p) && p(Last(r), a) ==> Always(Longer(r, a), p)
  {
    hide Apply, Enabled;
  }

  /** One action of `v`: what it makes of the node, and that its messages are on their way. */
  lemma Act(n: nat, r: Run, v: nat, a: Action) returns (r': Run)
    requires ValidRun(n, r) && v < n && !a.Network? && Actor(a) == v && (a.Deliver? ==> a.m in Last(r).net)
    ensures ValidRun(n, r') && Extends(r, r') && |Last(r).nodes| == n
    ensures Last(r').nodes == Last(r).nodes[v := Effect(Last(r).nodes[v], a).node]
    ensures Last(r).net <= Last(r').net && forall m | m in Effect(Last(r).nodes[v], a).sent :: m in Last(r').net
    ensures Always(r, VotesFresh) && FreshVotes(Last(r), a) ==> Always(r', VotesFresh)
    ensures Always(r, AcksFresh) && FreshAcks(Last(r), a) ==> Always(r', AcksFresh)
    ensures Always(r, AcksExact) && ExactAck(Last(r), a) ==> Always(r', AcksExact)
  {
    NodeAt(n, r, v);
    hide ValidRun, Effect, FreshVotes, FreshAcks, ExactAck, Always;
    r' := Go(n, r, a);
  }

  // ---------------------------------------------------------------- elections

  function BidOf(s: NodeState): Payload {
    RequestVote(s.currentTerm, s.id, |s.log|, LastTerm(s.log))
  }

  lemma Stand(n: nat, r: Run, v: nat) returns (r': Run)
    requires ValidRun(n, r) && v < n
    ensures Continues(n, r, r') && |Last(r).nodes| == n
    ensures Last(r').nodes == Last(r).nodes[v := StartElection(Last(r).nodes[v]).node]
    ensures forall u | u in PeersOf(n, v) :: Message(v, u, BidOf(Last(r').nodes[v])) in Last(r').net
  {
    NodeAt(n, r, v);
    r' := Act(n, r, v, Timeout(v));
    hide ValidRun, Always, NodeWf;
    var s, t := Last(r).nodes[v], Last(r').nodes[v];
    forall u | u in PeersOf(n, v)
      ensures Message(v, u, BidOf(t)) in Last(r').net
    {
      var i :| 0 <= i < |s.peers| && s.peers[i] == u;
      assert StartElection(s).sent[i] == Message(v, u, BidOf(t));
    }
  }

  function Voted(s: NodeState, term: nat, v: int): NodeState {
    s.(currentTerm := term, role := Follower, votedFor := v)
  }

  lemma Grant(n: nat, r: Run, v: nat, u: nat) returns (r': Run)
    requires ValidRun(n, r) && v < n && u < n && u != v && |Last(r).nodes| == n
    requires Message(v, u, BidOf(Last(r).nodes[v])) in Last(r).net && Last(r).nodes[v].id == v
    requires Last(r).nodes[u].currentTerm < Last(r).nodes[v].currentTerm
    requires UpToDate(|Last(r).nodes[v].log|, LastTerm(Last(r).nodes[v].log), Last(r).nodes[u].log)
    ensures Continues(n, r, r') && |Last(r).nodes| == n
    ensures var term := Last(r).nodes[v].currentTerm;
      && Last(r').nodes == Last(r).nodes[u := Voted(Last(r).nodes[u], term, v)]
      && Message(u, v, RequestVoteReply(term, true)) in Last(r').net
  {
    NodeAt(n, r, u);
    var m := Message(v, u, BidOf(Last(r).nodes[v]));
    r' := Act(n, r, u, Deliver(m));
    hide ValidRun, Always, NodeWf, UpToDate, LastTerm;
    assert HandleRequestVote(Last(r).nodes[u], m).sent[0] in Last(r').net;
  }

  /** The candidate counts one more vote and leads if that makes a majority. */
  function Counted(s: NodeState, u: int): NodeState {
    var s1 := s.(votesReceived := s.votesReceived + {u});
    if |s1.votesReceived| >= Majority(ClusterSize(s1)) then BecomeLeader(s1).node else s1
  }

  lemma Count(n: nat, r: Run, v: nat, u: nat) returns (r': Run)
    requires ValidRun(n, r) && v < n && u < n && |Last(r).nodes| == n
    requires Last(r).nodes[v].role.Candidate?
    requires Message(u, v, RequestVoteReply(Last(r).nodes[v].currentTerm, true)) in Last(r).net
    ensures Continues(n, r, r') && |Last(r).nodes| == n
    ensures Last(r').nodes == Last(r).nodes[v := Counted(Last(r).nodes[v], u)]
    ensures Last(r').nodes[v].role.Leader? ==> forall p | p in PeersOf(n, v) :: AppendFor(Last(r').nodes[v], p) in Last(r').net
  {
    NodeAt(n, r, v);
    var m := Message(u, v, RequestVoteReply(Last(r).nodes[v].currentTerm, true));
    r' := Act(n, r, v, Deliver(m));
    hide ValidRun, Always, NodeWf, AppendFor;
    var t := Last(r').nodes[v];
    if t.role.Leader? { AppendsReach(t); }
  }

  lemma AppendsReach(s: NodeState)
    ensures forall p | p in s.peers :: AppendFor(s, p) in AppendsToPeers(s)
  {
    hide AppendFor;
    forall p | p in s.peers
      ensures AppendFor(s, p) in AppendsToPeers(s)
    {
      var i :| 0 <= i < |s.peers| && s.peers[i] == p;
      assert AppendsToPeers(s)[i] == AppendFor(s, p);
    }
  }

  /** Voter `u` grants its vote to candidate `v`, who counts it. */
  lemma Ballot(n: nat, r: Run, v: nat, u: nat) returns (r': Run)
    requires ValidRun(n, r) && v < n && u < n && u != v && |Last(r).nodes| == n
    requires Last(r).nodes[v].role.Candidate? && Last(r).nodes[v].id == v
    requires Message(v, u, BidOf(Last(r).nodes[v])) in Last(r).net
    requires Last(r).nodes[u].currentTerm < Last(r).nodes[v].currentTerm
    requires UpToDate(|Last(r).nodes[v].log|, LastTerm(Last(r).nodes[v].log), Last(r).nodes[u].log)
    ensures Continues(n, r, r') && |Last(r').nodes| == n
    ensures var s := Last(r).nodes[v];
      Last(r').nodes == Last(r).nodes[u := Voted(Last(r).nodes[u], s.currentTerm, v)][v := Counted(s, u)]
    ensures Last(r').nodes[v].role.Leader? ==> forall p | p in PeersOf(n, v) :: AppendFor(Last(r').nodes[v], p) in Last(r').net
  {
    hide ValidRun, Always, UpToDate, Counted, AppendFor;
    var r1 := Grant(n, r, v, u);
    r' := Count(n, r1, v, u);
  }

  /** What winning with its own vote and that of `u` makes of a node. */
  function Winner(s: NodeState, u: int): NodeState {
    BecomeLeader(StartElection(s).node.(votesReceived := {s.id, u})).node
  }

  lemma PeersOfThree()
    ensures PeersOf(3, 0) == [1, 2] && PeersOf(3, 1) == [0, 2] && PeersOf(3, 2) == [0, 1]
  {}

  /** In a cluster of three, `v` wins the next term with the vote of `u`. */
  lemma ElectOfThree(r: Run, v: nat, u: nat) returns (r': Run)
    requires ValidRun(3, r) && v < 3 && u < 3 && u != v && |Last(r).nodes| == 3
    requires Last(r).nodes[u].currentTerm <= Last(r).nodes[v].currentTerm
    requires UpToDate(|Last(r).nodes[v].log|, LastTerm(Last(r).nodes[v].log), Last(r).nodes[u].log)
    ensures Continues(3, r, r') && WonBy(Last(r), Last(r'), v, u)
    ensures forall p | p in PeersOf(3, v) :: AppendFor(Last(r').nodes[v], p) in Last(r').net
  {
    PeersOfMembers(3, v, u);
    NodeAt(3, r, v);
    hide ValidRun, Always, UpToDate, AppendFor, NodeWf, Counted, PeersOf, Winner, ToPeers, LastTerm, BidOf, StartElection, Voted, WonBy;
    var s := Last(r).nodes[v];
    var r1 := Stand(3, r, v);
    Started(s);
    r' := Ballot(3, r1, v, u);
    ContinuesTwice(3, r, r1, r');
    SecondVoteWins(s, u);
    ThenWon(Last(r), Last(r1), Last(r'), v, u);
  }

  /** `v` won an election with the vote of `u`, and nobody else moved. */
  predicate WonBy(c: Cluster, c': Cluster, v: nat, u: nat) {
    && |c.nodes| == |c'.nodes| && v < |c.nodes| && u < |c.nodes|
    && c'.nodes[v] == Winner(c.nodes[v], u)
    && c'.nodes[u] == Voted(c.nodes[u], c.nodes[v].currentTerm + 1, v)
    && forall w | 0 <= w < |c.nodes| && w != v && w != u :: c'.nodes[w] == c.nodes[w]
  }

  lemma ThenWon(c: Cluster, c1: Cluster, c': Cluster, v: nat, u: nat)
    requires v < |c.nodes| && u < |c.nodes| && u != v
    requires c1.nodes == c.nodes[v := StartElection(c.nodes[v]).node]
    requires c'.nodes == c1.nodes[u := Voted(c1.nodes[u], c1.nodes[v].currentTerm, v)][v := Winner(c.nodes[v], u)]
    ensures WonBy(c, c', v, u)
  {
    hide Winner, Voted;
  }

  lemma Started(s: NodeState)
    ensures var c := StartElection(s).node;
      c.role.Candidate? && c.currentTerm == s.currentTerm + 1 && c.log == s.log && c.id == s.id && c.peers == s.peers
  {}

  lemma SecondVoteWins(s: NodeState, u: int)
    requires |s.peers| == 2 && u != s.id
    ensures Counted(StartElection(s).node, u) == Winner(s, u) && Winner(s, u).role.Leader?
  {
    hide AppendsToPeers, ToPeers;
    assert |{s.id, u}| == 2 && {s.id} + {u} == {s.id, u};
  }

  // ---------------------------------------------------------------- without ExactAck

  lemma Propose(n: nat, r: Run, v: nat, command: string) returns (r': Run)
    requires ValidRun(n, r) && v < n && |Last(r).nodes| == n && Last(r).nodes[v].role.Leader?
    ensures Continues(n, r, r')
    ensures var s := Last(r).nodes[v];
      Last(r').nodes == Last(r).nodes[v := s.(log := s.log + [Entry(|s.log| + 1, s.currentTerm, command)])]
    ensures forall p | p in PeersOf(n, v) :: AppendFor(Last(r').nodes[v], p) in Last(r').net
  {
    NodeAt(n, r, v);
    r' := Act(n, r, v, Client(v, command));
    hide ValidRun, Always, NodeWf, AppendFor;
    AppendsReach(Last(r').nodes[v]);
  }

  /** Node `u` accepts the AppendEntries `m`. */
  lemma Take(n: nat, r: Run, u: nat, m: Message) returns (r': Run)
    requires ValidRun(n, r) && u < n && |Last(r).nodes| == n && m in Last(r).net && m.receiver == u
    requires m.payload.AppendEntries? && Accepts(Last(r).nodes[u], m.payload)
    ensures ValidRun(n, r') && Extends(r, r') && Last(r).net <= Last(r').net
    ensures Last(r').nodes == Last(r).nodes[u := HandleAppendEntries(Last(r).nodes[u], m).node]
    ensures Message(u, m.sender, AppendEntriesReply(m.payload.term, true, |Last(r').nodes[u].log|)) in Last(r').net
    ensures Always(r, VotesFresh) ==> Always(r', VotesFresh)
    ensures Always(r, AcksFresh) ==> Always(r', AcksFresh)
    ensures Always(r, AcksExact) && ExactGuard(Last(r).nodes[u], m.payload) ==> Always(r', AcksExact)
  {
    NodeAt(n, r, u);
    hide ValidRun, Always, NodeWf, HandleAppendEntries, Accepts, ExactGuard, ExactAck;
    ExactAckIff(Last(r), Deliver(m));
    HandledLog(Last(r).nodes[u], m);
    r' := Act(n, r, u, Deliver(m));
    assert HandleAppendEntries(Last(r).nodes[u], m).sent[0] in Last(r').net;
  }

  const X := Entry(1, 1, "x")
  const Y := Entry(1, 2, "y")

  /** Node 1 leads term 1 and keeps its one entry to itself; node 0, with an empty log, wins term 2. */
  lemma SecondLeaderEmpty() returns (r: Run)
    ensures ValidRun(3, r) && Always(r, VotesFresh) && Always(r, AcksFresh) && |Last(r).nodes| == 3
    ensures var s, t, u := Last(r).nodes[0], Last(r).nodes[1], Last(r).nodes[2];
      && LeadsWith(s, [])
      && t.currentTerm == 1 && t.log == [X] && t.commitIndex == 0
      && u.currentTerm == 2 && u.log == []
      && AppendFor(s, 1) in Last(r).net
  {
    PeersOfThree();
    var r0 := Start(3);
    assert Last(r0).nodes[0] == NewNode(0, [1, 2]) && Always(r0, VotesFresh) && Always(r0, AcksFresh);
    hide ValidRun, Always, AppendFor, LeadsWith;
    var r1 := ElectOfThree(r0, 1, 2);
    var r2 := Propose(3, r1, 1, "x");
    var r3 := Stand(3, r2, 0);
    r := ElectOfThree(r3, 0, 2);
    WinnerLeads(Last(r3).nodes[0]);
  }

  /** The leader of term 2 before and after it has an entry. */
  predicate LeadsWith(s: NodeState, log: Log) {
    && s.role.Leader? && s.currentTerm == 2 && s.log == log && s.commitIndex == 0
    && s.peers == [1, 2] && s.nextIndex == map[1 := 1, 2 := 1] && s.matchIndex == map[1 := 0, 2 := 0] && s.id == 0
  }

  lemma WinnerLeads(s: NodeState)
    requires s == NewNode(0, [1, 2]).(currentTerm := 1, role := Candidate, votedFor := 0, votesReceived := {0})
    ensures LeadsWith(Winner(s, 2), [])
  {
    hide AppendsToPeers, ToPeers;
  }

  lemma EmptyHeartbeat(s: NodeState, t: NodeState)
    requires LeadsWith(s, []) && t.currentTerm == 1 && t.log == [X] && t.commitIndex == 0
    ensures AppendFor(s, 1) == Message(0, 1, AppendEntries(2, 0, 0, 0, [], 0)) && Accepts(t, AppendFor(s, 1).payload)
    ensures var t' := HandleAppendEntries(t, AppendFor(s, 1)).node; t'.currentTerm == 2 && t'.log == [X]
  {}

  /** One acknowledgement of index 1 is enough to commit it in a cluster of three. */
  lemma CommitsFirst(s: NodeState, m: Message)
    requires LeadsWith(s, [Y]) && m == Message(1, 0, AppendEntriesReply(2, true, 1))
    ensures var t := HandleAppendEntriesReply(s, m).node;
      t.commitIndex == 1 && t.role.Leader? && t.currentTerm == 2 && t.log == [Y]
  {
    var t := s.(matchIndex := s.matchIndex[1 := 1], nextIndex := s.nextIndex[1 := 2]);
    assert [1, 2][..1] == [1] && [1][..0] == [];
    assert CountAtLeast(t.matchIndex, [1], 1) == 1;
    assert CountAtLeast(t.matchIndex, [1, 2], 1) >= 1;
    assert Committable(t, 1);
  }

  predicate Rest(c: Cluster) {
    && |c.nodes| == 3
    && c.nodes[1].currentTerm == 2 && c.nodes[1].log == [X]
    && c.nodes[2].currentTerm == 2 && c.nodes[2].log == []
  }

  /** The empty heartbeat is taken, and its reply, of length 1, is on its way to a leader that has one entry. */
  lemma WrongReplySent() returns (r: Run)
    ensures ValidRun(3, r) && Always(r, VotesFresh) && Always(r, AcksFresh) && Rest(Last(r))
    ensures LeadsWith(Last(r).nodes[0], [Y])
    ensures Message(1, 0, AppendEntriesReply(2, true, 1)) in Last(r).net
  {
    var r1 := SecondLeaderEmpty();
    var s, t := Last(r1).nodes[0], Last(r1).nodes[1];
    EmptyHeartbeat(s, t);
    hide ValidRun, Always, AppendFor, HandleAppendEntries, Accepts, ExactGuard;
    var r2 := Take(3, r1, 1, AppendFor(s, 1));
    assert Rest(Last(r2));
    r := Propose(3, r2, 0, "y");
  }

  /** The leader commits its entry. */
  lemma WronglyCommitted() returns (r: Run)
    ensures ValidRun(3, r) && Always(r, VotesFresh) && Always(r, AcksFresh) && Rest(Last(r))
    ensures LeadsIn(Last(r), 0, 2) && Last(r).nodes[0].log == [Y] && Last(r).nodes[0].commitIndex == 1
  {
    var r1 := WrongReplySent();
    var ack := Message(1, 0, AppendEntriesReply(2, true, 1));
    CommitsFirst(Last(r1).nodes[0], ack);
    hide ValidRun, Always, HandleAppendEntriesReply, LeadsWith;
    r := Act(3, r1, 0, Deliver(ack));
  }

  /**
   * Without ExactAck a committed entry is lost, and Leader Completeness fails: node 1 still has an uncommitted
   * entry of term 1, accepts an empty heartbeat of term 2 and reports the length of its whole log. The leader
   * takes that for its own entry, commits it, and node 1 wins term 3 without it.
   */
  lemma CommittedEntryLost() returns (r: Run, j: nat)
    ensures ValidRun(3, r) && Always(r, VotesFresh) && Always(r, AcksFresh)
    ensures j < |r.states| && |r.states[j].nodes| == |Last(r).nodes| == 3
    ensures LeadsIn(r.states[j], 0, 2) && LeadsIn(Last(r), 1, 3)
    ensures !Agree(r.states[j].nodes[0].log, Last(r).nodes[1].log, r.states[j].nodes[0].commitIndex)
  {
    var r1 := WronglyCommitted();
    j := |r1.states| - 1;
    hide ValidRun, Always, AppendFor;
    r := ElectOfThree(r1, 1, 2);
    assert r.states[j] == Last(r1);
    assert Last(r).nodes[1].log == [X];
    var first := Last(r).nodes[1].log[..1];
    assert first[0] == X && r.states[j].nodes[0].log[..1][0] == Y;
  }

  // ---------------------------------------------------------------- without FreshAcks

  /** What winning with the votes of `u` and `w` makes of a node. */
  function WinnerOfFive(s: NodeState, u: int, w: int): NodeState {
    BecomeLeader(StartElection(s).node.(votesReceived := {s.id, u, w})).node
  }

  /** `v` won an election with the votes of `u` and `w`, and nobody else moved. */
  predicate WonByTwo(c: Cluster, c': Cluster, v: nat, u: nat, w: nat) {
    && |c.nodes| == |c'.nodes| && v < |c.nodes| && u < |c.nodes| && w < |c.nodes|
    && c'.nodes[v] == WinnerOfFive(c.nodes[v], u, w)
    && c'.nodes[u] == Voted(c.nodes[u], c.nodes[v].currentTerm + 1, v)
    && c'.nodes[w] == Voted(c.nodes[w], c.nodes[v].currentTerm + 1, v)
    && forall x | 0 <= x < |c.nodes| && x != v && x != u && x != w :: c'.nodes[x] == c.nodes[x]
  }

  lemma TwoVotesCounted(s: NodeState, u: int, w: int)
    requires |s.peers| == 4 && u != s.id && w != s.id && u != w
    ensures var c := StartElection(s).node;
      && Counted(c, u) == c.(votesReceived := {s.id, u})
      && Counted(Counted(c, u), w) == WinnerOfFive(s, u, w) && WinnerOfFive(s, u, w).role.Leader?
  {
    hide AppendsToPeers, ToPeers;
    assert {s.id} + {u} == {s.id, u} && {s.id, u} + {w} == {s.id, u, w};
    assert |{s.id, u}| == 2 && |{s.id, u, w}| == 3;
  }

  lemma ThenWonByTwo(c: Cluster, c1: Cluster, c2: Cluster, c': Cluster, v: nat, u: nat, w: nat)
    requires v < |c.nodes| && u < |c.nodes| && w < |c.nodes| && u != v && w != v && u != w
    requires c1.nodes == c.nodes[v := StartElection(c.nodes[v]).node]
    requires c2.nodes == c1.nodes[u := Voted(c1.nodes[u], c1.nodes[v].currentTerm, v)][v := Counted(c1.nodes[v], u)]
    requires c'.nodes == c2.nodes[w := Voted(c2.nodes[w], c2.nodes[v].currentTerm, v)][v := WinnerOfFive(c.nodes[v], u, w)]
    requires c2.nodes[v].currentTerm == c.nodes[v].currentTerm + 1
    ensures WonByTwo(c, c', v, u, w)
  {
    hide WinnerOfFive, Voted, Counted;
  }

  /** In a cluster of five, `v` wins the next term with the votes of `u` and `w`. */
  lemma ElectOfFive(r: Run, v: nat, u: nat, w: nat) returns (r': Run)
    requires ValidRun(5, r) && v < 5 && u < 5 && w < 5 && u != v && w != v && u != w && |Last(r).nodes| == 5
    requires Last(r).nodes[u].currentTerm <= Last(r).nodes[v].currentTerm
    requires Last(r).nodes[w].currentTerm <= Last(r).nodes[v].currentTerm
    requires UpToDate(|Last(r).nodes[v].log|, LastTerm(Last(r).nodes[v].log), Last(r).nodes[u].log)
    requires UpToDate(|Last(r).nodes[v].log|, LastTerm(Last(r).nodes[v].log), Last(r).nodes[w].log)
    ensures Continues(5, r, r') && WonByTwo(Last(r), Last(r'), v, u, w)
    ensures forall p | p in PeersOf(5, v) :: AppendFor(Last(r').nodes[v], p) in Last(r').net
  {
    PeersOfMembers(5, v, u);
    PeersOfMembers(5, v, w);
    NodeAt(5, r, v);
    var s := Last(r).nodes[v];
    Started(s);
    TwoVotesCounted(s, u, w);
    hide ValidRun, Always, UpToDate, AppendFor, NodeWf, Counted, PeersOf, WinnerOfFive, ToPeers, LastTerm, StartElection, Voted, WonByTwo;
    var r1 := Stand(5, r, v);
    var r2 := Ballot(5, r1, v, u);
    ContinuesTwice(5, r, r1, r2);
    assert BidOf(Last(r2).nodes[v]) == BidOf(Last(r1).nodes[v]);
    r' := Ballot(5, r2, v, w);
    ContinuesTwice(5, r, r2, r');
    hide Continues, BidOf;
    ThenWonByTwo(Last(r), Last(r1), Last(r2), Last(r'), v, u, w);
  }

  const A1 := Entry(1, 1, "a")
  const A2 := Entry(2, 1, "a")
  const B := Entry(1, 2, "b")
  const C := Entry(2, 3, "c")

  /** Terms and logs of the five nodes, none of which has committed anything. */
  predicate Five(c: Cluster, terms: seq<nat>, logs: seq<Log>)
    requires |terms| == |logs| == 5
  {
    |c.nodes| == 5 && forall i | 0 <= i < 5 ::
      c.nodes[i].currentTerm == terms[i] && c.nodes[i].log == logs[i] && c.nodes[i].commitIndex == 0
  }

  /** `s` has just won an election in a cluster of five. */
  predicate FreshLeader(s: NodeState, v: nat, term: nat, log: Log) {
    && v < 5 && s.role.Leader? && s.id == v && s.peers == PeersOf(5, v) && s.currentTerm == term && s.log == log
    && s.commitIndex == 0
  }

  /** The same, before anything was appended or acknowledged: it takes every peer to hold `next - 1` entries. */
  predicate Knows(s: NodeState, next: nat, matched: map<int, nat>) {
    s.nextIndex == (map p | p in s.peers :: next) && s.matchIndex == matched
  }

  lemma WinnerIsFresh(c: Cluster, v: nat, u: nat, w: nat)
    requires |c.nodes| == 5 && v < 5 && c.nodes[v].id == v && c.nodes[v].peers == PeersOf(5, v) && c.nodes[v].commitIndex == 0
    ensures var s := WinnerOfFive(c.nodes[v], u, w);
      && FreshLeader(s, v, c.nodes[v].currentTerm + 1, c.nodes[v].log)
      && Knows(s, |s.log| + 1, map p | p in s.peers :: 0)
  {
    hide AppendsToPeers, ToPeers, PeersOf;
  }

  /** An election, in terms of what the run needs of it. */
  lemma Rise(r: Run, v: nat, u: nat, w: nat, terms: seq<nat>, logs: seq<Log>, terms': seq<nat>) returns (r': Run)
    requires ValidRun(5, r) && |terms| == |logs| == 5 && Five(Last(r), terms, logs)
    requires v < 5 && u < 5 && w < 5 && u != v && w != v && u != w && terms[u] <= terms[v] && terms[w] <= terms[v]
    requires UpToDate(|logs[v]|, LastTerm(logs[v]), logs[u]) && UpToDate(|logs[v]|, LastTerm(logs[v]), logs[w])
    requires terms' == terms[v := terms[v] + 1][u := terms[v] + 1][w := terms[v] + 1]
    ensures Continues(5, r, r') && Five(Last(r'), terms', logs)
    ensures var s := Last(r').nodes[v];
      FreshLeader(s, v, terms'[v], logs[v]) && Knows(s, |s.log| + 1, map p | p in s.peers :: 0)
  {
    NodeAt(5, r, v);
    WinnerIsFresh(Last(r), v, u, w);
    hide ValidRun, Always, UpToDate, AppendFor, NodeWf, PeersOf, WinnerOfFive, LastTerm, Knows;
    r' := ElectOfFive(r, v, u, w);
    hide Continues;
    FiveAfter(Last(r), Last(r'), v, u, w, terms, logs, terms');
    hide Five, WonByTwo, FreshLeader;
  }

  lemma FiveAfter(c: Cluster, c': Cluster, v: nat, u: nat, w: nat, terms: seq<nat>, logs: seq<Log>, terms': seq<nat>)
    requires |terms| == |logs| == 5 && Five(c, terms, logs) && WonByTwo(c, c', v, u, w)
    requires v < 5 && u < 5 && w < 5 && u != v && w != v && u != w
    requires terms' == terms[v := terms[v] + 1][u := terms[v] + 1][w := terms[v] + 1]
    requires FreshLeader(WinnerOfFive(c.nodes[v], u, w), v, terms[v] + 1, logs[v])
    ensures Five(c', terms', logs) && c'.nodes[v] == WinnerOfFive(c.nodes[v], u, w)
    ensures FreshLeader(c'.nodes[v], v, terms'[v], logs[v])
  {
    hide WinnerOfFive, PeersOf;
  }

  lemma Bide(r: Run, v: nat, terms: seq<nat>, logs: seq<Log>) returns (r': Run)
    requires ValidRun(5, r) && |terms| == |logs| == 5 && Five(Last(r), terms, logs) && v < 5
    ensures Continues(5, r, r') && Five(Last(r'), terms[v := terms[v] + 1], logs)
  {
    Started(Last(r).nodes[v]);
    CommitKept(Last(r).nodes[v]);
    hide ValidRun, Always, StartElection, BidOf, PeersOf;
    r' := Stand(5, r, v);
    hide Continues;
  }

  lemma CommitKept(s: NodeState)
    ensures StartElection(s).node.commitIndex == s.commitIndex
  {}

  lemma PeersOfFive()
    ensures PeersOf(5, 0) == [1, 2, 3, 4] && PeersOf(5, 4) == [0, 1, 2, 3]
  {}

  lemma ProposeFive(r: Run, v: nat, command: string, terms: seq<nat>, logs: seq<Log>, logs': seq<Log>) returns (r': Run)
    requires ValidRun(5, r) && |terms| == |logs| == 5 && Five(Last(r), terms, logs)
    requires v < 5 && FreshLeader(Last(r).nodes[v], v, terms[v], logs[v])
    requires logs' == logs[v := logs[v] + [Entry(|logs[v]| + 1, terms[v], command)]]
    ensures Continues(5, r, r')
    ensures Five(Last(r'), terms, logs') && FreshLeader(Last(r').nodes[v], v, terms[v], logs'[v])
    ensures var s, t := Last(r).nodes[v], Last(r').nodes[v]; t.nextIndex == s.nextIndex && t.matchIndex == s.matchIndex
    ensures forall p | p in PeersOf(5, v) :: AppendFor(Last(r').nodes[v], p) in Last(r').net
  {
    hide ValidRun, Always, AppendFor, PeersOf;
    r' := Propose(5, r, v, command);
    hide Continues;
  }

  /** What accepting `m` makes of a node that has committed nothing. */
  lemma TakenFields(s: NodeState, m: Message)
    requires m.payload.AppendEntries? && Accepts(s, m.payload) && m.payload.leaderCommit == 0
    ensures var t := HandleAppendEntries(s, m).node;
      && t.log == Merged(s.log, m.payload.prevLogIndex, m.payload.entries)
      && t.currentTerm == m.payload.term && t.commitIndex == s.commitIndex
  {
    hide Merged;
  }

  lemma TakeFive(r: Run, u: nat, m: Message, terms: seq<nat>, logs: seq<Log>, terms': seq<nat>, logs': seq<Log>) returns (r': Run)
    requires ValidRun(5, r) && |terms| == |logs| == 5 && Five(Last(r), terms, logs) && u < 5 && m.receiver == u
    requires m in Last(r).net && m.payload.AppendEntries? && m.payload.leaderCommit == 0 && m.payload.term >= terms[u]
    requires Fits(logs[u], m.payload.prevLogIndex, m.payload.prevLogTerm)
    requires terms' == terms[u := m.payload.term]
    requires logs' == logs[u := Merged(logs[u], m.payload.prevLogIndex, m.payload.entries)]
    requires |logs[u]| <= m.payload.prevLogIndex + |m.payload.entries| || Conflicts(logs[u], m.payload.prevLogIndex, m.payload.entries)
    ensures Continues(5, r, r') && Five(Last(r'), terms', logs')
    ensures forall x | 0 <= x < 5 && x != u :: Last(r').nodes[x] == Last(r).nodes[x]
    ensures Message(u, m.sender, AppendEntriesReply(m.payload.term, true, |logs'[u]|)) in Last(r').net
  {
    TakenFields(Last(r).nodes[u], m);
    hide ValidRun, Always, Merged, HandleAppendEntries, Conflicts;
    r' := Take(5, r, u, m);
  }

  lemma FiveNodes(c: Cluster, terms: seq<nat>, logs: seq<Log>)
    requires |terms| == |logs| == 5 && Five(c, terms, logs)
    ensures |c.nodes| == 5
  {}

  lemma FiveAtStart() returns (r: Run)
    ensures ValidRun(5, r) && Always(r, VotesFresh) && Always(r, AcksExact)
    ensures Five(Last(r), [0, 0, 0, 0, 0], [[], [], [], [], []])
  {
    r := Start(5);
  }

  /** Term 1: node 0 leads, appends two entries and sends them to node 1. */
  lemma TermOneLed() returns (r: Run)
    ensures ValidRun(5, r) && Always(r, VotesFresh) && Always(r, AcksExact)
    ensures Five(Last(r), [1, 1, 1, 0, 0], [AA, [], [], [], []])
    ensures OldUnderWay(Last(r))
  {
    PeersOfFive();
    hide ValidRun, Always, AppendFor, PeersOf, Five;
    assert [] + [Entry(1, 1, "a")] == [A1] && [A1] + [Entry(2, 1, "a")] == [A1, A2];
    var r0 := FiveAtStart();
    var r1 := Rise(r0, 0, 1, 2, [0, 0, 0, 0, 0], [[], [], [], [], []], [1, 1, 1, 0, 0]);
    var r2 := ProposeFive(r1, 0, "a", [1, 1, 1, 0, 0], [[], [], [], [], []], [[A1], [], [], [], []]);
    r := ProposeFive(r2, 0, "a", [1, 1, 1, 0, 0], [[A1], [], [], [], []], [AA, [], [], [], []]);
    hide Continues;
    assert |Last(r).nodes| == 5 by { FiveNodes(Last(r), [1, 1, 1, 0, 0], [AA, [], [], [], []]); }
    WholeLog(Last(r).nodes[0], 1);
  }

  /** A leader that takes a peer to hold nothing sends it everything. */
  lemma WholeLog(s: NodeState, p: int)
    requires p in s.nextIndex && s.nextIndex[p] == 1 && s.commitIndex == 0
    ensures AppendFor(s, p) == Message(s.id, p, AppendEntries(s.currentTerm, s.id, 0, 0, s.log, 0))
  {}

  lemma IntoEmpty(log: Log)
    ensures Merged([], 0, log) == log
  {}

  const AA := [A1, A2]

  const TERM_ONE := Message(0, 1, AppendEntries(1, 0, 0, 0, AA, 0))

  /** What node 0 sent to node 1 in term 1 is still under way. */
  predicate OldUnderWay(c: Cluster) {
    TERM_ONE in c.net
  }

  lemma Bided(r: Run, v: nat, terms: seq<nat>, logs: seq<Log>, terms': seq<nat>) returns (r': Run)
    requires ValidRun(5, r) && |terms| == |logs| == 5 && Five(Last(r), terms, logs) && v < 5
    requires terms' == terms[v := terms[v] + 1]
    ensures Continues(5, r, r') && Five(Last(r'), terms', logs)
  {
    hide Five, Continues, ValidRun;
    r' := Bide(r, v, terms, logs);
  }

  /** Term 2: node 4 leads with an empty log and appends one entry. */
  lemma TermTwoLed() returns (r: Run)
    ensures ValidRun(5, r) && Always(r, VotesFresh) && Always(r, AcksExact) && OldUnderWay(Last(r))
    ensures Five(Last(r), [1, 1, 2, 2, 2], [AA, [], [], [], [B]])
    ensures Message(4, 0, AppendEntries(2, 4, 0, 0, [B], 0)) in Last(r).net
    ensures Message(4, 3, AppendEntries(2, 4, 0, 0, [B], 0)) in Last(r).net
  {
    PeersOfFive();
    assert [] + [Entry(1, 2, "b")] == [B];
    hide ValidRun, Always, AppendFor, PeersOf, Five;
    var r0 := TermOneLed();
    var r1 := Bided(r0, 4, [1, 1, 1, 0, 0], [AA, [], [], [], []], [1, 1, 1, 0, 1]);
    var r2 := Rise(r1, 4, 2, 3, [1, 1, 1, 0, 1], [AA, [], [], [], []], [1, 1, 2, 2, 2]);
    r := ProposeFive(r2, 4, "b", [1, 1, 2, 2, 2], [AA, [], [], [], []], [AA, [], [], [], [B]]);
    FiveNodes(Last(r), [1, 1, 2, 2, 2], [AA, [], [], [], [B]]);
    WholeLog(Last(r).nodes[4], 0);
    WholeLog(Last(r).nodes[4], 3);
  }

  lemma Replaced(log: Log, entries: Log)
    requires log != [] && entries != [] && log[0].term != entries[0].term
    ensures Merged(log, 0, entries) == entries && Conflicts(log, 0, entries)
  {
    assert log[0 + 0].term != entries[0].term;
  }

  /** The entry replaces the two of node 0. */
  lemma TermTwoTaken() returns (r: Run)
    ensures ValidRun(5, r) && Always(r, VotesFresh) && Always(r, AcksExact) && OldUnderWay(Last(r))
    ensures Five(Last(r), [2, 1, 2, 2, 2], [[B], [], [], [], [B]])
    ensures Message(4, 3, AppendEntries(2, 4, 0, 0, [B], 0)) in Last(r).net
  {
    Replaced(AA, [B]);
    hide ValidRun, Always, Merged, Five, Conflicts;
    var r0 := TermTwoLed();
    var m := Message(4, 0, AppendEntries(2, 4, 0, 0, [B], 0));
    r := TakeFive(r0, 0, m, [1, 1, 2, 2, 2], [AA, [], [], [], [B]], [2, 1, 2, 2, 2], [[B], [], [], [], [B]]);
  }

  /** It reaches node 3 as well. */
  lemma TermTwo() returns (r: Run)
    ensures ValidRun(5, r) && Always(r, VotesFresh) && Always(r, AcksExact) && OldUnderWay(Last(r))
    ensures Five(Last(r), [2, 1, 2, 2, 2], [[B], [], [], [B], [B]])
  {
    IntoEmpty([B]);
    hide ValidRun, Always, Merged, Five, Conflicts;
    var r0 := TermTwoTaken();
    var m := Message(4, 3, AppendEntries(2, 4, 0, 0, [B], 0));
    r := TakeFive(r0, 3, m, [2, 1, 2, 2, 2], [[B], [], [], [], [B]], [2, 1, 2, 2, 2], [[B], [], [], [B], [B]]);
  }

  lemma NextEntry(s: NodeState, p: int)
    requires p in s.nextIndex && s.nextIndex[p] == 2 && s.commitIndex == 0 && s.log == [B, C] && s.currentTerm == 3
    ensures AppendFor(s, p) == Message(s.id, p, AppendEntries(3, s.id, 1, 2, [C], 0))
  {}

  /** Node 0 leads term 3 and takes every peer to hold one entry and to have acknowledged none. */
  predicate LeadsThird(s: NodeState) {
    && FreshLeader(s, 0, 3, [B, C])
    && s.nextIndex == (map p | p in s.peers :: 2) && s.matchIndex == map p | p in s.peers :: 0
  }

  /** Term 3: node 0 leads again and appends a second entry. */
  lemma TermThreeLed() returns (r: Run)
    ensures ValidRun(5, r) && Always(r, VotesFresh) && Always(r, AcksExact) && OldUnderWay(Last(r))
    ensures Five(Last(r), [3, 1, 3, 3, 2], [[B, C], [], [], [B], [B]]) && LeadsThird(Last(r).nodes[0])
    ensures Message(0, 3, AppendEntries(3, 0, 1, 2, [C], 0)) in Last(r).net
  {
    PeersOfFive();
    assert [B] + [Entry(2, 3, "c")] == [B, C];
    hide ValidRun, Always, AppendFor, PeersOf, Five;
    var r0 := TermTwo();
    var r1 := Rise(r0, 0, 2, 3, [2, 1, 2, 2, 2], [[B], [], [], [B], [B]], [3, 1, 3, 3, 2]);
    r := ProposeFive(r1, 0, "c", [3, 1, 3, 3, 2], [[B], [], [], [B], [B]], [[B, C], [], [], [B], [B]]);
    FiveNodes(Last(r), [3, 1, 3, 3, 2], [[B, C], [], [], [B], [B]]);
    NextEntry(Last(r).nodes[0], 3);
  }

  lemma OneMore()
    ensures Merged([B], 1, [C]) == [B, C]
  {
    assert MatchLen([B], 1, [C]) == 0;
    assert [B] + [C] == [B, C];
  }

  /** Node 3 takes it and acknowledges it. */
  lemma TermThree() returns (r: Run)
    ensures ValidRun(5, r) && Always(r, VotesFresh) && Always(r, AcksExact) && OldUnderWay(Last(r))
    ensures Five(Last(r), [3, 1, 3, 3, 2], [[B, C], [], [], [B, C], [B]]) && LeadsThird(Last(r).nodes[0])
    ensures Message(3, 0, AppendEntriesReply(3, true, 2)) in Last(r).net
  {
    OneMore();
    var r0 := TermThreeLed();
    FiveNodes(Last(r0), [3, 1, 3, 3, 2], [[B, C], [], [], [B], [B]]);
    hide ValidRun, Always, Merged, Five, LeadsThird;
    var m := Message(0, 3, AppendEntries(3, 0, 1, 2, [C], 0));
    r := TakeFive(r0, 3, m, [3, 1, 3, 3, 2], [[B, C], [], [], [B], [B]], [3, 1, 3, 3, 2], [[B, C], [], [], [B, C], [B]]);
    FiveNodes(Last(r), [3, 1, 3, 3, 2], [[B, C], [], [], [B, C], [B]]);
  }

  /** Only now node 1 takes what node 0 sent it in term 1, and acknowledges it. */
  lemma LateTake() returns (r: Run)
    ensures ValidRun(5, r) && Always(r, VotesFresh) && Always(r, AcksExact)
    ensures Five(Last(r), [3, 1, 3, 3, 2], [[B, C], AA, [], [B, C], [B]]) && LeadsThird(Last(r).nodes[0])
    ensures Message(3, 0, AppendEntriesReply(3, true, 2)) in Last(r).net
    ensures Message(1, 0, AppendEntriesReply(1, true, 2)) in Last(r).net
  {
    IntoEmpty(AA);
    var r0 := TermThree();
    FiveNodes(Last(r0), [3, 1, 3, 3, 2], [[B, C], [], [], [B, C], [B]]);
    hide ValidRun, Always, Merged, Five, LeadsThird;
    r := TakeFive(r0, 1, TERM_ONE, [3, 1, 3, 3, 2], [[B, C], [], [], [B, C], [B]], [3, 1, 3, 3, 2], [[B, C], AA, [], [B, C], [B]]);
    FiveNodes(Last(r), [3, 1, 3, 3, 2], [[B, C], AA, [], [B, C], [B]]);
  }

  /** Acknowledgements of index 2 by the listed peers. */
  predicate AckedBy(s: NodeState, p1: nat, p3: nat) {
    FreshLeader(s.(commitIndex := 0), 0, 3, [B, C]) && s.matchIndex == map[1 := p1, 2 := 0, 3 := p3, 4 := 0]
  }

  lemma CountOfFour(matched: map<int, nat>, index: nat)
    ensures CountAtLeast(matched, [1, 2, 3, 4], index) ==
      (if Lookup(matched, 1) >= index then 1 else 0) + (if Lookup(matched, 2) >= index then 1 else 0) +
      (if Lookup(matched, 3) >= index then 1 else 0) + (if Lookup(matched, 4) >= index then 1 else 0)
  {
    hide Lookup;
    assert [1, 2, 3, 4][..3] == [1, 2, 3] && [1, 2, 3][..2] == [1, 2] && [1, 2][..1] == [1] && [1][..0] == [];
    assert CountAtLeast(matched, [1, 2], index) == CountAtLeast(matched, [1], index) + (if Lookup(matched, 2) >= index then 1 else 0);
    assert CountAtLeast(matched, [1, 2, 3], index) == CountAtLeast(matched, [1, 2], index) + (if Lookup(matched, 3) >= index then 1 else 0);
  }

  /** One true acknowledgement does not commit; the stale one on top of it does. */
  lemma AckEffect(s: NodeState, m: Message)
    requires AckedBy(s, 0, if m.sender == 3 then 0 else 2) && s.commitIndex == 0 && (m.sender == 1 || m.sender == 3)
    requires m.payload == AppendEntriesReply(if m.sender == 1 then 1 else 3, true, 2)
    ensures var t := HandleAppendEntriesReply(s, m).node;
      AckedBy(t, if m.sender == 1 then 2 else 0, 2) && t.commitIndex == if m.sender == 1 then 2 else 0
  {
    PeersOfFive();
    var t := s.(matchIndex := s.matchIndex[m.sender := 2], nextIndex := s.nextIndex[m.sender := 3]);
    CountOfFour(t.matchIndex, 2);
    hide CountAtLeast;
    assert t.matchIndex == map[1 := if m.sender == 1 then 2 else 0, 2 := 0, 3 := 2, 4 := 0];
    assert Committable(t, 2) <==> m.sender == 1;
    assert !Committable(t, 1);
    assert ScanDown(t, 1) == 0;
    assert HandleAppendEntriesReply(s, m).node == AdvanceCommit(t);
  }

  /** The nodes that will make the next election. */
  predicate Electorate(c: Cluster) {
    && |c.nodes| == 5
    && c.nodes[1].currentTerm == 1 && c.nodes[1].log == AA
    && c.nodes[2].currentTerm == 3 && c.nodes[2].log == []
    && c.nodes[4].currentTerm == 2 && c.nodes[4].log == [B]
  }

  /** The leader of term 3 handles an acknowledgement. */
  lemma Credit(r: Run, p: int, m: Message) returns (r': Run)
    requires ValidRun(5, r) && Always(r, VotesFresh) && Always(r, AcksExact) && Electorate(Last(r))
    requires AckedBy(Last(r).nodes[0], 0, if p == 3 then 0 else 2) && Last(r).nodes[0].commitIndex == 0 && (p == 1 || p == 3)
    requires m in Last(r).net && m == Message(p, 0, AppendEntriesReply(if p == 1 then 1 else 3, true, 2))
    ensures ValidRun(5, r') && Always(r', VotesFresh) && Always(r', AcksExact) && Electorate(Last(r'))
    ensures Last(r).net <= Last(r').net
    ensures AckedBy(Last(r').nodes[0], if p == 1 then 2 else 0, 2) && Last(r').nodes[0].commitIndex == if p == 1 then 2 else 0
  {
    AckEffect(Last(r).nodes[0], m);
    hide ValidRun, Always, HandleAppendEntriesReply, AckedBy;
    r' := Act(5, r, 0, Deliver(m));
  }

  /** The leader of term 3 commits on one true acknowledgement and one from its leadership of term 1. */
  lemma StaleCommitted() returns (r: Run)
    ensures ValidRun(5, r) && Always(r, VotesFresh) && Always(r, AcksExact) && Electorate(Last(r))
    ensures LeadsIn(Last(r), 0, 3) && Last(r).nodes[0].log == [B, C] && Last(r).nodes[0].commitIndex == 2
  {
    var r0 := LateTake();
    assert Electorate(Last(r0)) && AckedBy(Last(r0).nodes[0], 0, 0) by { PeersOfFive(); }
    hide ValidRun, Always, Five, AckedBy, LeadsThird;
    var r1 := Credit(r0, 3, Message(3, 0, AppendEntriesReply(3, true, 2)));
    r := Credit(r1, 1, Message(1, 0, AppendEntriesReply(1, true, 2)));
    AckedLeads(Last(r).nodes[0]);
  }

  lemma AckedLeads(s: NodeState)
    requires AckedBy(s, 2, 2)
    ensures s.role.Leader? && s.currentTerm == 3 && s.log == [B, C]
  {}

  /**
   * Without FreshAcks a committed entry is lost too: an acknowledgement from the leader's own earlier term,
   * made for entries long replaced, counts towards the commit of an entry only two of five nodes hold, and a
   * node without it wins the next election.
   */
  lemma StaleAckLosesEntry() returns (r: Run, j: nat)
    ensures ValidRun(5, r) && Always(r, VotesFresh) && Always(r, AcksExact)
    ensures j < |r.states| && |r.states[j].nodes| == |Last(r).nodes| == 5
    ensures LeadsIn(r.states[j], 0, 3) && LeadsIn(Last(r), 4, 4)
    ensures !Agree(r.states[j].nodes[0].log, Last(r).nodes[4].log, r.states[j].nodes[0].commitIndex)
  {
    var r1 := StaleCommitted();
    j := |r1.states| - 1;
    hide ValidRun, Always, AppendFor, ToPeers;
    var r2 := Stand(5, r1, 4);
    assert r2.states[j] == Last(r1) && Last(r2).nodes[4].log == [B];
    r := ElectOfFive(r2, 4, 1, 2);
    assert r.states[j] == r2.states[j];
    assert Last(r).nodes[4].log == [B];
  }
}
