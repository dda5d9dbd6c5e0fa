/**
 * Whole-run facts that hold with no hypothesis: votes and leaderships are single-use per term, leader logs
 * only grow, every AppendEntries has one of two shapes, and every commit rests on processed acknowledgements.
 */
module RunFacts {
  import opened RaftTypes
  import opened NodeSpec
  import opened RaftSystem
  import opened Basics

  // ---------------------------------------------------------------- one node, one step

  ghost predicate VoteKept(s: NodeState, t: NodeState) {
    && s.currentTerm <= t.currentTerm
    && (s.currentTerm == t.currentTerm && s.votedFor != NOBODY ==> t.votedFor == s.votedFor)
  }

  lemma HandleKeepsVote(s: NodeState, m: Message)
    ensures VoteKept(s, Handle(s, m).node)
  {
    hide Merged, ScanDown, AppendsToPeers, MatchOf;
  }

  lemma EffectKeepsVote(s: NodeState, a: Action)
    requires !a.Network?
    ensures VoteKept(s, Effect(s, a).node)
  {
    hide AppendsToPeers, ToPeers, Handle;
    if a.Deliver? { HandleKeepsVote(s, a.m); }
  }

  /** Candidacy and leadership of a term are each entered once, and a leader's log is never cut. */
  ghost predicate RoleKept(s: NodeState, t: NodeState) {
    && (t.role.Candidate? && t.currentTerm == s.currentTerm ==> s.role.Candidate?)
    && (t.role.Leader? && !s.role.Leader? ==> s.role.Candidate? && t.currentTerm == s.currentTerm)
    && (t.role.Leader? && s.role.Leader? ==> t.currentTerm == s.currentTerm && s.log <= t.log)
  }

  lemma ReplyKeepsRole(s: NodeState, m: Message)
    requires m.payload.RequestVoteReply? || m.payload.AppendEntriesReply?
    ensures RoleKept(s, Handle(s, m).node)
  {
    hide ScanDown, AppendsToPeers, MatchOf, NextOf, Majority;
  }

  lemma HandleKeepsRole(s: NodeState, m: Message)
    ensures RoleKept(s, Handle(s, m).node)
  {
    if m.payload.RequestVoteReply? || m.payload.AppendEntriesReply? {
      ReplyKeepsRole(s, m);
    }
    hide Merged, HandleRequestVoteReply, HandleAppendEntriesReply, Grants, Fits;
  }

  lemma EffectKeepsRole(s: NodeState, a: Action)
    requires !a.Network?
    ensures RoleKept(s, Effect(s, a).node)
  {
    hide AppendsToPeers, ToPeers, Handle;
    if a.Deliver? { HandleKeepsRole(s, a.m); }
  }

  lemma StepKeeps(n: nat, c: Cluster, a: Action, v: nat)
    requires |c.nodes| == n && Enabled(c, a) && v < n
    ensures |Apply(c, a).nodes| == n
    ensures VoteKept(c.nodes[v], Apply(c, a).nodes[v])
    ensures RoleKept(c.nodes[v], Apply(c, a).nodes[v])
  {
    hide Effect;
    if !a.Network? && Actor(a) == v {
      EffectKeepsVote(c.nodes[v], a);
      EffectKeepsRole(c.nodes[v], a);
    }
  }

  lemma {:induction false} NodeCount(n: nat, r: Run, k: nat)
    requires ValidRun(n, r) && k < |r.states|
    ensures |r.states[k].nodes| == n
  {
    hide Effect, NewNode, PeersOf;
    if k > 0 {
      NodeCount(n, r, k - 1);
      assert Step(r, k - 1);
    }
  }

  lemma RunStepKeeps(n: nat, r: Run, k: nat, v: nat)
    requires ValidRun(n, r) && k < |r.actions| && v < n
    ensures |r.states[k].nodes| == |r.states[k + 1].nodes| == n
    ensures VoteKept(r.states[k].nodes[v], r.states[k + 1].nodes[v])
    ensures RoleKept(r.states[k].nodes[v], r.states[k + 1].nodes[v])
  {
    hide Apply, VoteKept, RoleKept;
    NodeCount(n, r, k);
    assert Step(r, k);
    StepKeeps(n, r.states[k], r.actions[k], v);
  }

  // ---------------------------------------------------------------- votes

  /** Section 5.2: a term never falls, and a vote once cast in a term stays, through crashes and restarts. */
  lemma {:induction false} OneVotePerTerm(n: nat, r: Run, j: nat, k: nat, v: nat)
    requires ValidRun(n, r) && j <= k < |r.states| && v < n
    ensures |r.states[j].nodes| == |r.states[k].nodes| == n
    ensures VoteKept(r.states[j].nodes[v], r.states[k].nodes[v])
    decreases k
  {
    NodeCount(n, r, j);
    if j < k {
      OneVotePerTerm(n, r, j, k - 1, v);
      RunStepKeeps(n, r, k - 1, v);
    }
  }

  /** In a cluster of two or more a candidate that stays one has not counted a majority. */
  predicate Short(n: nat, s: NodeState) {
    s.role.Candidate? ==> |s.votesReceived| < Majority(n)
  }

  lemma EffectKeepsShort(n: nat, v: nat, s: NodeState, a: Action)
    requires n >= 2 && NodeWf(n, v, s) && !a.Network? && Short(n, s)
    ensures Short(n, Effect(s, a).node)
  {
    hide Merged, ScanDown, AppendsToPeers, ToPeers, MatchOf, SegmentWf;
  }

  lemma {:induction false} CandidateIsShort(n: nat, r: Run, k: nat, v: nat)
    requires ValidRun(n, r) && k < |r.states| && v < n && n >= 2
    ensures |r.states[k].nodes| == n && Short(n, r.states[k].nodes[v])
  {
    hide Effect, NodeWf;
    NodeCount(n, r, k);
    if k > 0 {
      CandidateIsShort(n, r, k - 1, v);
      NodeIdentity(n, r, k - 1, v);
      assert Step(r, k - 1);
      var c, a := r.states[k - 1], r.actions[k - 1];
      if !a.Network? && Actor(a) == v { EffectKeepsShort(n, v, c.nodes[v], a); }
    }
  }

  predicate Granted(m: Message) {
    m.payload.RequestVoteReply? && m.payload.voteGranted
  }

  /** The granted reply `m` is the vote its sender holds, or a vote from an earlier term of the sender. */
  predicate VoteBacked(c: Cluster, m: Message) {
    && 0 <= m.sender < |c.nodes|
    && var s := c.nodes[m.sender];
      m.payload.term <= s.currentTerm && (m.payload.term == s.currentTerm ==> s.votedFor == m.receiver)
  }

  ghost predicate VotesSent(c: Cluster) {
    && (forall m | m in c.net && Granted(m) :: VoteBacked(c, m))
    && (forall x, y | x in c.net && y in c.net && Granted(x) && Granted(y) ::
          x.sender == y.sender && x.payload.term == y.payload.term ==> x.receiver == y.receiver)
  }

  lemma EffectGrants(n: nat, s: NodeState, a: Action, v: nat, m: Message)
    requires !a.Network? && NodeWf(n, v, s) && (a.Deliver? ==> MessageWf(n, a.m))
    requires m in Effect(s, a).sent && Granted(m)
    ensures var t := Effect(s, a).node;
      m.sender == v && m.payload.term == t.currentTerm && t.votedFor == m.receiver && m.receiver != NOBODY
  {
    hide Merged, ScanDown, SegmentWf, MatchOf, Lookup, NextOf, Majority, Fits, UpToDate;
  }

  lemma VotesSentStep(n: nat, c: Cluster, a: Action)
    requires Wf(n, c) && Enabled(c, a) && VotesSent(c)
    ensures VotesSent(Apply(c, a))
  {
    if a.Network? { return; }
    var d := Apply(c, a);
    var v: nat := Actor(a);
    var out := Effect(c.nodes[v], a);
    assert NodeWf(n, v, c.nodes[v]);
    EffectKeepsVote(c.nodes[v], a);
    forall m | m in out.sent && Granted(m)
      ensures m.sender == v && m.payload.term == out.node.currentTerm && out.node.votedFor == m.receiver != NOBODY
    {
      EffectGrants(n, c.nodes[v], a, v, m);
    }
    hide Effect, NodeWf;
  }

  /** All granted replies a node ever sends with one term go to one candidate. */
  lemma {:induction false} GrantsAreUnique(n: nat, r: Run, k: nat)
    requires ValidRun(n, r) && k < |r.states|
    ensures VotesSent(r.states[k])
  {
    hide Wf, VotesSent, Apply;
    if k == 0 {
      EmptyNet(n);
    } else {
      GrantsAreUnique(n, r, k - 1);
      WellFormedRun(n, r, k - 1);
      assert Step(r, k - 1);
      VotesSentStep(n, r.states[k - 1], r.actions[k - 1]);
    }
  }

  lemma EmptyNet(n: nat)
    ensures VotesSent(Init(n))
  {}

  // ---------------------------------------------------------------- leaderships

  lemma {:induction false} NoSecondCandidacy(n: nat, r: Run, j: nat, k: nat, v: nat)
    requires ValidRun(n, r) && j <= k < |r.states| && v < n
    requires |r.states[j].nodes| == |r.states[k].nodes| == n
    requires r.states[j].nodes[v].role.Leader? && r.states[k].nodes[v].currentTerm == r.states[j].nodes[v].currentTerm
    ensures !r.states[k].nodes[v].role.Candidate?
    decreases k
  {
    if j < k {
      OneVotePerTerm(n, r, j, k - 1, v);
      RunStepKeeps(n, r, k - 1, v);
      NoSecondCandidacy(n, r, j, k - 1, v);
    }
  }

  /** Section 5.3: between two moments of one leadership the node leads throughout and its log only grows. */
  lemma {:induction false} LeaderAppendOnly(n: nat, r: Run, j: nat, k: nat, v: nat, term: nat)
    requires ValidRun(n, r) && j <= k < |r.states| && v < n
    requires |r.states[j].nodes| == |r.states[k].nodes| == n
    requires LeadsIn(r.states[j], v, term) && LeadsIn(r.states[k], v, term)
    ensures forall i | j <= i <= k :: |r.states[i].nodes| == n && LeadsIn(r.states[i], v, term)
    ensures r.states[j].nodes[v].log <= r.states[k].nodes[v].log
    decreases k
  {
    if j < k {
      OneVotePerTerm(n, r, j, k - 1, v);
      RunStepKeeps(n, r, k - 1, v);
      if !r.states[k - 1].nodes[v].role.Leader? { NoSecondCandidacy(n, r, j, k - 1, v); }
      LeaderAppendOnly(n, r, j, k - 1, v, term);
    }
  }

  ghost predicate EntersLeadership(n: nat, r: Run, k: nat, v: nat, term: nat) {
    && k + 1 < |r.states| && |r.states[k].nodes| == |r.states[k + 1].nodes| == n && v < n
    && !r.states[k].nodes[v].role.Leader? && LeadsIn(r.states[k + 1], v, term)
  }

  lemma LeadershipEnteredOnce(n: nat, r: Run, j: nat, k: nat, v: nat, term: nat)
    requires ValidRun(n, r) && EntersLeadership(n, r, j, v, term) && EntersLeadership(n, r, k, v, term)
    ensures j == k
  {
    if j < k { LeaderAppendOnly(n, r, j + 1, k + 1, v, term); }
    if k < j { LeaderAppendOnly(n, r, k + 1, j + 1, v, term); }
  }

  // ---------------------------------------------------------------- the two shapes of AppendEntries

  /** `m` carries the sender's log from a correctly termed predecessor to its very end. */
  predicate CarriesSuffix(m: Message, s: NodeState) {
    && m.payload.AppendEntries?
    && Fits(s.log, m.payload.prevLogIndex, m.payload.prevLogTerm)
    && m.payload.entries == s.log[m.payload.prevLogIndex..]
  }

  /** `m` points past the end of the sender's log and carries nothing. */
  predicate PointsPastEnd(m: Message, s: NodeState) {
    && m.payload.AppendEntries?
    && m.payload.prevLogIndex > |s.log| && m.payload.prevLogTerm == 0 && m.payload.entries == []
  }

  predicate ShapedBy(m: Message, s: NodeState) {
    && s.role.Leader? && m.payload.AppendEntries? && m.payload.term == s.currentTerm
    && m.payload.leaderCommit == s.commitIndex
    && (CarriesSuffix(m, s) || PointsPastEnd(m, s))
  }

  lemma AppendForShaped(s: NodeState, p: int)
    requires s.role.Leader?
    ensures ShapedBy(AppendFor(s, p), s)
  {}

  lemma EffectShapes(s: NodeState, a: Action, m: Message)
    requires !a.Network? && m in Effect(s, a).sent && m.payload.AppendEntries?
    ensures m.sender == s.id && ShapedBy(m, Effect(s, a).node)
  {
    hide Merged, ScanDown, AppendFor, ShapedBy;
    forall p | Effect(s, a).node.role.Leader?
      ensures ShapedBy(AppendFor(Effect(s, a).node, p), Effect(s, a).node)
    {
      AppendForShaped(Effect(s, a).node, p);
    }
    AppendForAddress(Effect(s, a).node);
  }

  lemma AppendForAddress(s: NodeState)
    ensures forall p :: AppendFor(s, p).sender == s.id
  {}

  ghost predicate SentAt(r: Run, j: nat, m: Message) {
    j < |r.states| && 0 <= m.sender < |r.states[j].nodes| && ShapedBy(m, r.states[j].nodes[m.sender])
  }

  /** Every AppendEntries ever sent was, at some earlier moment of the run, of one of the two shapes for its sender. */
  lemma {:induction false} AppendShapes(n: nat, r: Run, k: nat, m: Message)
    requires ValidRun(n, r) && k < |r.states| && m in r.states[k].net && m.payload.AppendEntries?
    ensures exists j: nat :: j <= k && SentAt(r, j, m)
  {
    hide ShapedBy, Effect;
    if k > 0 {
      assert Step(r, k - 1);
      var c, a := r.states[k - 1], r.actions[k - 1];
      if m in c.net {
        AppendShapes(n, r, k - 1, m);
      } else {
        NodeCount(n, r, k - 1);
        NodeIdentity(n, r, k - 1, Actor(a));
        EffectShapes(c.nodes[Actor(a)], a, m);
        assert SentAt(r, k, m);
      }
    }
  }

  lemma NodeIdentity(n: nat, r: Run, k: nat, v: nat)
    requires ValidRun(n, r) && k < |r.states| && v < n
    ensures |r.states[k].nodes| == n && r.states[k].nodes[v].id == v && NodeWf(n, v, r.states[k].nodes[v])
  {
    WellFormedRun(n, r, k);
  }

  /** The second shape is rejected by every node in every reachable state, whatever its log. */
  lemma PastEndRejected(n: nat, r: Run, k: nat, v: nat, m: Message, s: NodeState)
    requires ValidRun(n, r) && k < |r.states| && v < n && PointsPastEnd(m, s)
    ensures |r.states[k].nodes| == n
    ensures !Accepts(r.states[k].nodes[v], m.payload)
    ensures HandleAppendEntries(r.states[k].nodes[v], m).node.log == r.states[k].nodes[v].log
    ensures !HandleAppendEntries(r.states[k].nodes[v], m).sent[0].payload.success
  {
    NodeIdentity(n, r, k, v);
    var log := r.states[k].nodes[v].log;
    assert m.payload.prevLogIndex <= |log| ==> log[m.payload.prevLogIndex - 1].term >= 1;
  }

  // ---------------------------------------------------------------- commits rest on acknowledgements

  predicate Acknowledges(m: Message, p: int, v: int, index: nat) {
    && m.sender == p && m.receiver == v && m.payload.AppendEntriesReply? && m.payload.success
    && m.payload.matchIndex >= index
  }

  lemma HandleMatch(s: NodeState, m: Message, p: int)
    requires !m.payload.AppendEntriesReply? && Handle(s, m).node.role.Leader?
    ensures var t := Handle(s, m).node;
      if !s.role.Leader? then MatchOf(t, p) == 0 else t.matchIndex == s.matchIndex
  {
    hide Merged, AppendsToPeers;
  }

  lemma ReplyMatch(s: NodeState, m: Message, p: int)
    requires m.payload.AppendEntriesReply? && Handle(s, m).node.role.Leader?
    ensures var t := Handle(s, m).node;
      s.role.Leader? && (MatchOf(t, p) == MatchOf(s, p) || Acknowledges(m, p, m.receiver, MatchOf(t, p)))
  {
    hide ScanDown;
  }

  lemma EffectMatch(s: NodeState, a: Action, p: int)
    requires !a.Network? && Effect(s, a).node.role.Leader?
    ensures var t := Effect(s, a).node;
      if !s.role.Leader? then MatchOf(t, p) == 0
      else MatchOf(t, p) == MatchOf(s, p) || (a.Deliver? && Acknowledges(a.m, p, a.m.receiver, MatchOf(t, p)))
  {
    hide Handle, Acknowledges, AppendsToPeers, ToPeers;
    if a.Deliver? {
      if a.m.payload.AppendEntriesReply? { ReplyMatch(s, a.m, p); } else { HandleMatch(s, a.m, p); }
    }
  }

  ghost predicate LeadsFrom(n: nat, r: Run, i: nat, k: nat, v: nat, term: nat) {
    k < |r.states| && forall x: nat | i <= x <= k :: |r.states[x].nodes| == n && v < n && LeadsIn(r.states[x], v, term)
  }

  ghost predicate AckProcessed(n: nat, r: Run, i: nat, k: nat, v: nat, term: nat, p: int, index: nat) {
    && i < k < |r.states| <= |r.actions| + 1
    && r.actions[i].Deliver? && Acknowledges(r.actions[i].m, p, v, index) && LeadsFrom(n, r, i, k, v, term)
  }

  /** During this leadership of `v`, before step `k`, a success reply of `p` for at least `index` was handled. */
  ghost predicate AckedDuring(n: nat, r: Run, k: nat, v: nat, term: nat, p: int, index: nat) {
    exists i: nat :: AckProcessed(n, r, i, k, v, term, p, index)
  }

  /** A leader's matchIndex is a number some success reply carried, handled since this leadership began. */
  lemma {:induction false} MatchIsAcked(n: nat, r: Run, k: nat, v: nat, term: nat, p: int)
    requires ValidRun(n, r) && k < |r.states| && v < n && |r.states[k].nodes| == n
    requires LeadsIn(r.states[k], v, term) && MatchOf(r.states[k].nodes[v], p) > 0
    ensures AckedDuring(n, r, k, v, term, p, MatchOf(r.states[k].nodes[v], p))
  {
    if k > 0 {
      var c, a := r.states[k - 1], r.actions[k - 1];
      var index := MatchOf(r.states[k].nodes[v], p);
      assert Step(r, k - 1);
      RunStepKeeps(n, r, k - 1, v);
      if a.Network? || Actor(a) != v {
        MatchIsAcked(n, r, k - 1, v, term, p);
        AckedLater(n, r, k, v, term, p, index);
      } else {
        EffectMatch(c.nodes[v], a, p);
        hide Effect, Acknowledges;
        if MatchOf(c.nodes[v], p) == index {
          MatchIsAcked(n, r, k - 1, v, term, p);
          AckedLater(n, r, k, v, term, p, index);
        } else {
          assert AckProcessed(n, r, k - 1, k, v, term, p, index);
        }
      }
    }
  }

  lemma AckedLower(n: nat, r: Run, k: nat, v: nat, term: nat, p: int, index: nat, lower: nat)
    requires AckedDuring(n, r, k, v, term, p, index) && lower <= index
    ensures AckedDuring(n, r, k, v, term, p, lower)
  {
    var i: nat :| AckProcessed(n, r, i, k, v, term, p, index);
    assert AckProcessed(n, r, i, k, v, term, p, lower);
  }

  lemma AckedLater(n: nat, r: Run, k: nat, v: nat, term: nat, p: int, index: nat)
    requires 0 < k < |r.states| && AckedDuring(n, r, k - 1, v, term, p, index)
    requires |r.states[k].nodes| == n && v < n && LeadsIn(r.states[k], v, term)
    ensures AckedDuring(n, r, k, v, term, p, index)
  {
    var i: nat :| AckProcessed(n, r, i, k - 1, v, term, p, index);
    assert AckProcessed(n, r, i, k, v, term, p, index);
  }

  /** The peers a leader knows to hold `index` entries. */
  function Holders(s: NodeState, index: nat): set<int> {
    set p | p in s.peers && MatchOf(s, p) >= index
  }

  lemma {:induction false} CountIsCardinality(matched: map<int, nat>, peers: seq<int>, index: nat)
    requires forall i, j | 0 <= i < j < |peers| :: peers[i] != peers[j]
    ensures CountAtLeast(matched, peers, index) == |set p | p in peers && Lookup(matched, p) >= index|
  {
    if peers == [] {
      assert (set p | p in peers && Lookup(matched, p) >= index) == {};
    } else {
      CountIsCardinality(matched, peers[..|peers| - 1], index);
      OneMoreHolder(matched, peers[..|peers| - 1], peers[|peers| - 1], index);
      assert peers == peers[..|peers| - 1] + [peers[|peers| - 1]];
    }
  }

  lemma OneMoreHolder(matched: map<int, nat>, rest: seq<int>, last: int, index: nat)
    requires last !in rest
    ensures |set p | p in rest + [last] && Lookup(matched, p) >= index| ==
            |set p | p in rest && Lookup(matched, p) >= index| + (if Lookup(matched, last) >= index then 1 else 0)
  {
    var holders := set p | p in rest + [last] && Lookup(matched, p) >= index;
    var others := set p | p in rest && Lookup(matched, p) >= index;
    assert holders == if Lookup(matched, last) >= index then others + {last} else others;
  }

  lemma PeersDistinct(n: nat, v: nat)
    requires v < n
    ensures forall i, j | 0 <= i < j < n - 1 :: PeersOf(n, v)[i] != PeersOf(n, v)[j]
  {}

  lemma HoldersCounted(n: nat, v: nat, s: NodeState, index: nat)
    requires v < n && s.peers == PeersOf(n, v)
    ensures |Holders(s, index)| == CountAtLeast(s.matchIndex, s.peers, index)
  {
    PeersDistinct(n, v);
    CountIsCardinality(s.matchIndex, s.peers, index);
    assert Holders(s, index) == set p | p in s.peers && Lookup(s.matchIndex, p) >= index;
  }

  lemma ScanCommits(s: NodeState)
    ensures var t := AdvanceCommit(s);
      t.commitIndex != s.commitIndex ==> s.commitIndex < t.commitIndex <= |s.log| && Committable(t, t.commitIndex)
  {
    hide CountAtLeast;
  }

  lemma ReplyCommits(s: NodeState, m: Message)
    requires m.payload.AppendEntriesReply? && s.commitIndex != Handle(s, m).node.commitIndex
    ensures var t := Handle(s, m).node;
      s.role.Leader? && s.commitIndex < t.commitIndex <= |t.log| && Committable(t, t.commitIndex)
  {
    hide ScanDown, Committable;
    var s1 := MaybeStepDown(s, m.payload.term);
    var known := if m.payload.matchIndex > MatchOf(s1, m.sender) then m.payload.matchIndex else MatchOf(s1, m.sender);
    var matched := if m.payload.matchIndex > MatchOf(s1, m.sender) then s1.matchIndex[m.sender := known] else s1.matchIndex;
    ScanCommits(s1.(matchIndex := matched, nextIndex := s1.nextIndex[m.sender := known + 1]));
    hide AdvanceCommit;
  }

  lemma HandleCommits(s: NodeState, m: Message)
    requires Handle(s, m).node.role.Leader? && s.commitIndex != Handle(s, m).node.commitIndex
    ensures m.payload.AppendEntriesReply?
  {
    hide Merged, AppendsToPeers, AdvanceCommit;
  }

  /** A leader that stays a leader moves its commitIndex only by the quorum scan of its post-state. */
  lemma EffectCommits(s: NodeState, a: Action)
    requires !a.Network? && Effect(s, a).node.role.Leader? && s.commitIndex != Effect(s, a).node.commitIndex
    ensures var t := Effect(s, a).node;
      s.role.Leader? && s.commitIndex < t.commitIndex <= |t.log| && Committable(t, t.commitIndex)
  {
    hide Handle, Committable, AppendsToPeers, ToPeers;
    if a.Deliver? {
      HandleCommits(s, a.m);
      ReplyCommits(s, a.m);
    }
  }

  /**
   * Sections 5.3 and 5.4.2: whenever a leader's scan moves commitIndex to an index, the entry there is of the
   * leader's own term, and a majority less one of distinct peers have each acknowledged that index during
   * this leadership.
   */
  lemma QuorumOfAcknowledgements(n: nat, r: Run, k: nat, v: nat)
    requires ValidRun(n, r) && k < |r.actions| && v < n
    requires |r.states[k].nodes| == |r.states[k + 1].nodes| == n
    requires r.states[k + 1].nodes[v].role.Leader?
    requires r.states[k].nodes[v].commitIndex != r.states[k + 1].nodes[v].commitIndex
    ensures var t := r.states[k + 1].nodes[v];
      && r.states[k].nodes[v].commitIndex < t.commitIndex <= |t.log|
      && t.log[t.commitIndex - 1].term == t.currentTerm
      && |Holders(t, t.commitIndex)| + 1 >= Majority(n)
      && forall p | p in Holders(t, t.commitIndex) ::
        0 <= p < n && p != v && AckedDuring(n, r, k + 1, v, t.currentTerm, p, t.commitIndex)
  {
    assert Step(r, k);
    NodeIdentity(n, r, k + 1, v);
    var t := r.states[k + 1].nodes[v];
    EffectCommits(r.states[k].nodes[v], r.actions[k]);
    HoldersCounted(n, v, t, t.commitIndex);
    hide Effect, NodeWf, Step, CountAtLeast, AckedDuring;
    forall p | p in Holders(t, t.commitIndex)
      ensures 0 <= p < n && p != v && AckedDuring(n, r, k + 1, v, t.currentTerm, p, t.commitIndex)
    {
      PeersOfMembers(n, v, p);
      MatchIsAcked(n, r, k + 1, v, t.currentTerm, p);
      AckedLower(n, r, k + 1, v, t.currentTerm, p, MatchOf(t, p), t.commitIndex);
    }
  }
}
