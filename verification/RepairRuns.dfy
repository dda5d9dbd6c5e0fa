/**
 * Repair as a run of the cluster: heartbeats and deliveries alone bring a peer that is not ahead in term the
 * leader's log, and make a leader that is behind in term step down.
 */
module RepairRuns {
  import opened RaftTypes
  import opened NodeSpec
  import opened RaftSystem
  import opened Basics
  import opened Logs
  import opened Safety
  import opened RunSteps
  import opened AppendLoop
  import opened HandlerLaws
  import opened Repair

  // ---------------------------------------------------------------- what a round keeps

  /** What the rounds of a repair leave alone in the leader. */
  predicate SameLeader(s: NodeState, t: NodeState) {
    && t.id == s.id && t.peers == s.peers && t.alive == s.alive && t.log == s.log
    && t.currentTerm == s.currentTerm && t.role.Leader? && t.commitIndex >= s.commitIndex
  }

  lemma ScanOnlyRaises(s: NodeState)
    ensures AdvanceCommit(s).commitIndex >= s.commitIndex
  {
    hide Committable;
  }

  lemma ReplyKeepsLeader(s: NodeState, m: Message)
    requires s.role.Leader? && m.payload.AppendEntriesReply? && m.payload.term <= s.currentTerm
    ensures SameLeader(s, HandleAppendEntriesReply(s, m).node)
    ensures forall u | u != m.sender :: MatchOf(HandleAppendEntriesReply(s, m).node, u) == MatchOf(s, u)
    ensures HandleAppendEntriesReply(s, m).sent == []
  {
    hide ScanDown;
    var known := if m.payload.matchIndex > MatchOf(s, m.sender) then m.payload.matchIndex else MatchOf(s, m.sender);
    var matched := if m.payload.matchIndex > MatchOf(s, m.sender) then s.matchIndex[m.sender := known] else s.matchIndex;
    ScanOnlyRaises(s.(matchIndex := matched, nextIndex := s.nextIndex[m.sender := known + 1]));
  }

  /** The follower after one message of the round, and the reply it sends. */
  lemma FollowerFields(f: NodeState, m: Message)
    requires m.payload.AppendEntries? && f.currentTerm <= m.payload.term
    ensures var out := HandleAppendEntries(f, m);
      && |out.sent| == 1 && out.sent[0].payload.AppendEntriesReply? && out.sent[0].payload.term == m.payload.term
      && out.sent[0].sender == f.id && out.sent[0].receiver == m.sender
      && out.node.id == f.id && out.node.peers == f.peers && out.node.alive == f.alive
      && out.node.currentTerm == m.payload.term && out.node.role.Follower?
  {
    hide Merged, Fits;
  }

  lemma RoundFields(x: Pair)
    requires Repairing(x)
    ensures SameLeader(x.leader, Round(x).leader)
    ensures forall u | u != x.follower.id :: MatchOf(Round(x).leader, u) == MatchOf(x.leader, u)
    ensures var f := Round(x).follower;
      && f.id == x.follower.id && f.peers == x.follower.peers && f.alive == x.follower.alive
      && f.currentTerm == x.leader.currentTerm && f.role.Follower?
  {
    FollowerFields(x.follower, Offer(x));
    hide HandleAppendEntries, HandleAppendEntriesReply;
    ReplyKeepsLeader(x.leader, HandleAppendEntries(x.follower, Offer(x)).sent[0]);
  }

  // ---------------------------------------------------------------- one round as three steps

  predicate TickOrDelivery(a: Action) {
    a.Tick? || a.Deliver?
  }

  /** `r'` goes on from `r` with heartbeats and deliveries alone. */
  ghost predicate Ticking(n: nat, r: Run, r': Run) {
    GoesOn(n, r, r') && forall k | |r.actions| <= k < |r'.actions| :: TickOrDelivery(r'.actions[k])
  }

  lemma TickingTwice(n: nat, r: Run, r': Run, r'': Run)
    requires Ticking(n, r, r') && Ticking(n, r', r'')
    ensures Ticking(n, r, r'')
  {
    GoesOnTwice(n, r, r', r'');
    hide GoesOn;
  }

  lemma OfferSent(n: nat, v: nat, s: NodeState, p: int)
    requires NodeWf(n, v, s) && s.role.Leader? && s.alive && 0 <= p < n && p != v
    ensures AppendFor(s, p) in Effect(s, Tick(v)).sent && Effect(s, Tick(v)).node == s && s.id == v
  {
    PeersOfMembers(n, v, p);
    hide AppendFor, SegmentWf;
    var i :| 0 <= i < |s.peers| && s.peers[i] == p;
    assert AppendsToPeers(s)[i] == AppendFor(s, p);
  }

  /** A heartbeat of `v`. */
  lemma Beat(n: nat, r: Run, v: nat, p: nat) returns (r': Run)
    requires ValidRun(n, r) && v < n && p < n && p != v && |Last(r).nodes| == n
    requires Last(r).nodes[v].role.Leader? && Last(r).nodes[v].alive
    ensures Ticking(n, r, r') && Last(r').nodes == Last(r).nodes && AppendFor(Last(r).nodes[v], p) in Last(r').net
    ensures Last(r).nodes[v].id == v
  {
    assert |r.states| > 0;
    hide ValidRun, NodeWf, FreshVotesRun, Effect, AppendFor;
    NodeAt(n, r, v);
    OfferSent(n, v, Last(r).nodes[v], p);
    r' := Do(n, r, v, Tick(v));
  }

  /** A heartbeat of `v`, and its message to `p` delivered. */
  lemma BeatTaken(n: nat, r: Run, v: nat, p: nat) returns (r': Run)
    requires ValidRun(n, r) && v < n && p < n && p != v && |Last(r).nodes| == n
    requires Last(r).nodes[v].role.Leader? && Last(r).nodes[v].alive
    ensures Ticking(n, r, r') && |Last(r').nodes| == n
    ensures var s, f := Last(r).nodes[v], Last(r).nodes[p];
      && AppendFor(s, p).payload.AppendEntries? && AppendFor(s, p).sender == v
      && Last(r').nodes == Last(r).nodes[p := HandleAppendEntries(f, AppendFor(s, p)).node]
      && forall o | o in HandleAppendEntries(f, AppendFor(s, p)).sent :: o in Last(r').net
  {
    var m := AppendFor(Last(r).nodes[v], p);
    AppendForTerm(Last(r).nodes[v], p);
    hide ValidRun, AppendFor, HandleAppendEntries, FreshVotesRun;
    var r1 := Beat(n, r, v, p);
    r' := Do(n, r1, p, Deliver(m));
    TickingTwice(n, r, r1, r');
  }

  lemma RoundIs(s: NodeState, f: NodeState, m: Message)
    requires m == AppendFor(s, f.id) && f.currentTerm <= s.currentTerm
    ensures m.payload.AppendEntries? && m.payload.term == s.currentTerm && m.sender == s.id && m.receiver == f.id
    ensures var out := HandleAppendEntries(f, m);
      && |out.sent| == 1 && out.sent[0].payload.AppendEntriesReply? && out.sent[0].receiver == s.id
      && Round(Pair(s, f)) == Pair(HandleAppendEntriesReply(s, out.sent[0]).node, out.node)
  {
    AppendForTerm(s, f.id);
    FollowerFields(f, m);
    hide AppendFor, HandleAppendEntries, HandleAppendEntriesReply;
  }

  lemma RoundSteps(n: nat, r: Run, v: nat, p: nat) returns (r': Run)
    requires ValidRun(n, r) && v < n && p < n && p != v && |Last(r).nodes| == n
    requires Last(r).nodes[v].role.Leader? && Last(r).nodes[v].alive
    requires Last(r).nodes[p].currentTerm <= Last(r).nodes[v].currentTerm
    ensures Ticking(n, r, r') && |Last(r').nodes| == n
    ensures var x := Pair(Last(r).nodes[v], Last(r).nodes[p]);
      && x.follower.id == p && Last(r').nodes == Last(r).nodes[p := Round(x).follower][v := Round(x).leader]
  {
    assert |r.states| > 0;
    hide ValidRun, AppendFor, NodeWf, HandleAppendEntries, HandleAppendEntriesReply, FreshVotesRun, Round;
    NodeAt(n, r, p);
    NodeAt(n, r, v);
    var s, f := Last(r).nodes[v], Last(r).nodes[p];
    var m := AppendFor(s, p);
    RoundIs(s, f, m);
    var r1 := BeatTaken(n, r, v, p);
    r' := Do(n, r1, v, Deliver(HandleAppendEntries(f, m).sent[0]));
    TickingTwice(n, r, r1, r');
  }

  lemma AppendForTerm(s: NodeState, p: int)
    ensures AppendFor(s, p).payload.AppendEntries? && AppendFor(s, p).payload.term == s.currentTerm
    ensures AppendFor(s, p).sender == s.id && AppendFor(s, p).receiver == p && AppendFor(s, p).payload.leaderCommit == s.commitIndex
  {}

  // ---------------------------------------------------------------- the last round

  function Smaller(a: nat, b: nat): nat {
    if a < b then a else b
  }

  lemma AcceptedCommit(f: NodeState, m: Message)
    requires m.payload.AppendEntries? && Accepts(f, m.payload)
    ensures var t := HandleAppendEntries(f, m).node;
      t.commitIndex >= Smaller(m.payload.leaderCommit, |t.log|)
  {
    hide Merged;
  }

  /** If a majority holds the whole log and its last entry is of the current term, all of it is committed. */
  predicate Scanned(s: NodeState) {
    s.log != [] && Committable(s, |s.log|) ==> s.commitIndex >= |s.log|
  }

  lemma ScanReachesEnd(s: NodeState)
    ensures Scanned(AdvanceCommit(s))
  {
    hide CountAtLeast, Majority;
  }

  lemma SuccessMatch(s: NodeState, m: Message)
    requires s.role.Leader? && m.payload.AppendEntriesReply? && m.payload.success && m.payload.term <= s.currentTerm
    ensures MatchOf(HandleAppendEntriesReply(s, m).node, m.sender) >= m.payload.matchIndex
    ensures Scanned(HandleAppendEntriesReply(s, m).node)
  {
    hide ScanDown, Scanned;
    var known := if m.payload.matchIndex > MatchOf(s, m.sender) then m.payload.matchIndex else MatchOf(s, m.sender);
    var matched := if m.payload.matchIndex > MatchOf(s, m.sender) then s.matchIndex[m.sender := known] else s.matchIndex;
    ScanReachesEnd(s.(matchIndex := matched, nextIndex := s.nextIndex[m.sender := known + 1]));
  }

  /** The round that succeeds makes the leader know that the follower holds its log, and tells it what is committed. */
  lemma LastRound(x: Pair)
    requires Repairing(x) && Succeeds(x)
    ensures MatchOf(Round(x).leader, x.follower.id) >= |x.leader.log| && Scanned(Round(x).leader)
    ensures Round(x).follower.commitIndex >= Smaller(x.leader.commitIndex, |x.leader.log|)
  {
    var m, q := Offer(x), Next(x) - 1;
    AcceptedRound(x, q);
    MergedOutcome(x.follower.log, q, x.leader.log[q..]);
    HandledLog(x.follower, m);
    AcceptedCommit(x.follower, m);
    AppendForTerm(x.leader, x.follower.id);
    FollowerFields(x.follower, m);
    hide Merged, HandleAppendEntries, HandleAppendEntriesReply, Conflicts, Repairing, Accepts, AppendFor, Scanned;
    SuccessMatch(x.leader, HandleAppendEntries(x.follower, m).sent[0]);
  }

  /** What `rounds` rounds keep. */
  ghost predicate SamePair(x: Pair, y: Pair) {
    && SameLeader(x.leader, y.leader) && y.follower.id == x.follower.id
    && y.follower.peers == x.follower.peers && y.follower.alive == x.follower.alive
    && (forall u | u != x.follower.id :: MatchOf(y.leader, u) == MatchOf(x.leader, u))
  }

  lemma SamePairSelf(x: Pair)
    requires Repairing(x)
    ensures SamePair(x, x) && x.follower.currentTerm <= x.leader.currentTerm
  {}

  lemma SamePairTwice(x: Pair, y: Pair, z: Pair)
    requires SamePair(x, y) && SamePair(y, z)
    ensures SamePair(x, z)
  {
    hide MatchOf;
  }

  lemma RoundKeeps(x: Pair, y: Pair)
    requires Repairing(y) && SamePair(x, y)
    ensures SamePair(x, Round(y))
    ensures Round(y).follower.currentTerm == x.leader.currentTerm && Round(y).follower.role.Follower?
  {
    RoundFields(y);
    hide Round, MatchOf, Repairing;
    assert SamePair(y, Round(y));
    SamePairTwice(x, y, Round(y));
  }

  lemma {:induction false} AfterKeeps(x: Pair, j: nat)
    requires Repairing(x) && j <= RoundsNeeded(x)
    ensures SamePair(x, After(x, j))
    ensures j > 0 ==> After(x, j).follower.currentTerm == x.leader.currentTerm && After(x, j).follower.role.Follower?
  {
    hide Round, Repairing, RoundsNeeded, SamePair, Untouched;
    if j == 0 {
      SamePairSelf(x);
    } else {
      AfterKeeps(x, j - 1);
      WhileRejected(x, j - 1);
      RoundKeeps(x, After(x, j - 1));
    }
  }

  // ---------------------------------------------------------------- the run

  /** The cluster `c` with the pair `y` in place of nodes `v` and `p`. */
  predicate WithPair(c: Cluster, v: nat, p: nat, y: Pair, c': Cluster) {
    v < |c.nodes| && p < |c.nodes| && c'.nodes == c.nodes[p := y.follower][v := y.leader]
  }

  lemma WithPairTwice(c: Cluster, v: nat, p: nat, y: Pair, c1: Cluster, z: Pair, c': Cluster)
    requires v != p && WithPair(c, v, p, y, c1) && WithPair(c1, v, p, z, c')
    ensures WithPair(c, v, p, z, c') && |c1.nodes| == |c.nodes| && Pair(c1.nodes[v], c1.nodes[p]) == y
  {}

  /** After fewer rounds than needed, the pair is one that another round can be played with. */
  lemma StillRepairing(x: Pair, j: nat)
    requires Repairing(x) && j < RoundsNeeded(x)
    ensures var y := After(x, j);
      Repairing(y) && y.follower.currentTerm <= y.leader.currentTerm && y.leader.role.Leader? && y.leader.alive == x.leader.alive
  {
    hide Round, RoundsNeeded, Untouched, MatchOf, NextOf;
    WhileRejected(x, j);
    AfterKeeps(x, j);
    hide After;
  }

  lemma {:induction false} RepairSteps(n: nat, r: Run, v: nat, p: nat, x: Pair, j: nat) returns (r': Run)
    requires ValidRun(n, r) && v < n && p < n && p != v && |Last(r).nodes| == n
    requires x == Pair(Last(r).nodes[v], Last(r).nodes[p]) && Repairing(x) && x.leader.alive && j <= RoundsNeeded(x)
    ensures Ticking(n, r, r') && WithPair(Last(r), v, p, After(x, j), Last(r'))
    decreases j
  {
    hide Round, Repairing, RoundsNeeded, FreshVotesRun, Step;
    if j == 0 {
      r' := r;
    } else {
      var r1 := RepairSteps(n, r, v, p, x, j - 1);
      var y := After(x, j - 1);
      StillRepairing(x, j - 1);
      hide ValidRun;
      r' := RoundSteps(n, r1, v, p);
      TickingTwice(n, r, r1, r');
      hide Ticking, GoesOn;
      WithPairTwice(Last(r), v, p, y, Last(r1), Round(y), Last(r'));
    }
  }

  /** In `c'` the log of `v` has been brought to `p`, `v` knows it, and nobody else has changed. */
  ghost predicate Brought(n: nat, c: Cluster, c': Cluster, v: nat, p: nat) {
    && v < n && p < n && |c.nodes| == |c'.nodes| == n
    && var s, t, f := c.nodes[v], c'.nodes[v], c'.nodes[p];
      && SameLeader(s, t) && (forall u | u != p :: MatchOf(t, u) == MatchOf(s, u)) && MatchOf(t, p) >= |s.log|
      && Scanned(t)
      && Agree(f.log, s.log, |s.log|) && f.currentTerm == s.currentTerm && f.role.Follower?
      && f.alive == c.nodes[p].alive && f.commitIndex >= Smaller(s.commitIndex, |s.log|)
      && forall u | 0 <= u < n && u != v && u != p :: c'.nodes[u] == c.nodes[u]
  }

  lemma AfterLast(x: Pair)
    requires Repairing(x)
    ensures var y := After(x, RoundsNeeded(x));
      && SamePair(x, y) && y.follower.currentTerm == x.leader.currentTerm && y.follower.role.Follower?
      && MatchOf(y.leader, x.follower.id) >= |x.leader.log| && Scanned(y.leader)
      && y.follower.commitIndex >= Smaller(x.leader.commitIndex, |x.leader.log|)
  {
    hide Round, Succeeds, MatchOf, Repairing, NextOf, MeetingPoint, Scanned;
    var k := RoundsNeeded(x);
    AfterKeeps(x, k);
    AfterKeeps(x, k - 1);
    WhileRejected(x, k - 1);
    LastRound(After(x, k - 1));
    assert After(x, k) == Round(After(x, k - 1));
    hide After;
  }

  /**
   * From every state of a run with one leader per term, a live leader and a peer that is not ahead in term: some
   * continuation of heartbeats and deliveries alone ends with the peer holding the leader's whole log, commands
   * included, the leader knowing it and having looked for what to commit, and everyone else as before.
   */
  lemma RepairRun(n: nat, r: Run, v: nat, p: nat) returns (r': Run)
    requires ValidRun(n, r) && OneLeaderPerTerm(n, r) && v < n && p < n && p != v && |Last(r).nodes| == n
    requires Last(r).nodes[v].role.Leader? && Last(r).nodes[v].alive
    requires Last(r).nodes[p].currentTerm <= Last(r).nodes[v].currentTerm
    ensures Ticking(n, r, r') && Brought(n, Last(r), Last(r'), v, p)
  {
    var x := Pair(Last(r).nodes[v], Last(r).nodes[p]);
    NodeAt(n, r, p);
    RepairInRun(n, r, |r.states| - 1, v, p);
    hide ValidRun, OneLeaderPerTerm, Repairing, NodeWf, Agree, After, RoundsNeeded, MatchOf, FreshVotesRun, Scanned;
    r' := RepairSteps(n, r, v, p, x, RoundsNeeded(x));
    hide Ticking;
    AfterLast(x);
  }

  // ---------------------------------------------------------------- a leader that is behind

  /** The reply to an AppendEntries of an earlier term ends the leadership of its sender. */
  lemma BehindRefused(f: NodeState, s: NodeState, m: Message)
    requires m.payload.AppendEntries? && m.payload.term == s.currentTerm < f.currentTerm && m.sender == s.id
    ensures var out := HandleAppendEntries(f, m);
      && out.node == f && |out.sent| == 1 && out.sent[0].receiver == s.id && out.sent[0].payload.AppendEntriesReply?
      && var t := Handle(s, out.sent[0]).node;
        t.role.Follower? && t.currentTerm == f.currentTerm && t.votedFor == NOBODY && t.log == s.log
  {
    StaleIsRefused(f, m);
    RefusalStepsDown(f, m, s);
    assert Handle(f, m) == HandleAppendEntries(f, m);
    hide HandleAppendEntries;
  }

  /**
   * From every state of every run, a live leader and a peer that is ahead in term: some continuation of one
   * heartbeat and two deliveries ends with that leader a follower in the term of the peer, and nobody else moved.
   */
  lemma StaleLeaderStepsDown(n: nat, r: Run, v: nat, p: nat) returns (r': Run)
    requires ValidRun(n, r) && v < n && p < n && p != v && |Last(r).nodes| == n
    requires Last(r).nodes[v].role.Leader? && Last(r).nodes[v].alive
    requires Last(r).nodes[p].currentTerm > Last(r).nodes[v].currentTerm
    ensures Ticking(n, r, r') && |Last(r').nodes| == n
    ensures var t := Last(r').nodes[v];
      && t.role.Follower? && t.currentTerm == Last(r).nodes[p].currentTerm && t.log == Last(r).nodes[v].log
      && forall u | 0 <= u < n && u != v :: Last(r').nodes[u] == Last(r).nodes[u]
  {
    var s, f := Last(r).nodes[v], Last(r).nodes[p];
    var m := AppendFor(s, p);
    NodeAt(n, r, v);
    AppendForTerm(s, p);
    BehindRefused(f, s, m);
    hide ValidRun, AppendFor, NodeWf, HandleAppendEntries, HandleAppendEntriesReply, FreshVotesRun;
    var r1 := BeatTaken(n, r, v, p);
    var o := HandleAppendEntries(f, m).sent[0];
    r' := Do(n, r1, v, Deliver(o));
    TickingTwice(n, r, r1, r');
  }
}
