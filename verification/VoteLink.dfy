/**
 * Votes and elections of the handlers as protocol events: with FreshVotes every counted vote is a vote for
 * the candidate in its own term, so no term gets a second leader (Section 5.2).
 */
module VoteLink {
  import opened RaftTypes
  import opened NodeSpec
  import opened RaftSystem
  import opened Basics
  import opened Logs
  import opened Protocol
  import opened LogLink

  predicate VotedFor(h: History, term: nat, u: int, v: int) {
    Key(term, u) in h.votes && h.votes[Key(term, u)] == v
  }

  ghost predicate NodeVote(h: History, v: int, s: NodeState) {
    && (if s.votedFor == NOBODY then Key(s.currentTerm, v) !in h.votes
        else VotedFor(h, s.currentTerm, v, s.votedFor))
    && (s.role.Candidate? ==> forall u | u in s.votesReceived :: VotedFor(h, s.currentTerm, u, v))
  }

  predicate AsksWithBid(h: History, m: Message)
    requires m.payload.RequestVote?
  {
    var k := Key(m.payload.term, m.sender);
    k in h.bids && m.payload.lastLogIndex == |h.bids[k]| && m.payload.lastLogTerm == LastTerm(h.bids[k])
  }

  ghost predicate MessageVote(h: History, m: Message) {
    && (m.payload.RequestVote? ==> AsksWithBid(h, m))
    && (m.payload.RequestVoteReply? && m.payload.voteGranted ==>
          VotedFor(h, m.payload.term, m.sender, m.receiver))
  }

  ghost predicate VotesAdvance(h: History, h': History, v: int) {
    && (forall k | k in h.votes :: k in h'.votes && h'.votes[k] == h.votes[k])
    && (forall k | k in h'.votes && k !in h.votes :: k.node == v)
    && (forall k | k in h.bids :: k in h'.bids && h'.bids[k] == h.bids[k])
  }

  lemma AdvanceVotesTwice(h: History, h': History, h'': History, v: int)
    requires VotesAdvance(h, h', v) && VotesAdvance(h', h'', v)
    ensures VotesAdvance(h, h'', v)
  {}

  lemma OtherNodeVote(h: History, h': History, v: int, u: int, s: NodeState)
    requires NodeVote(h, u, s) && VotesAdvance(h, h', v) && u != v
    ensures NodeVote(h', u, s)
  {}

  lemma OldMessageVote(h: History, h': History, v: int, m: Message)
    requires MessageVote(h, m) && VotesAdvance(h, h', v)
    ensures MessageVote(h', m)
  {
    hide LastTerm;
  }

  // ---------------------------------------------------------------- handlers as events

  ghost predicate Voting(n: nat, h: History, v: nat, s: NodeState) {
    Local(n, h, v, s) && VotesInv(h) && NodeVote(h, v, s) && |h.terms| == n
  }

  ghost predicate VotesTo(h: History, h': History, v: nat, t: NodeState) {
    VotesInv(h') && VotesAdvance(h, h', v) && NodeVote(h', v, t)
  }

  lemma NoFutureVote(h: History, v: nat, term: nat)
    requires VotesInv(h) && Member(h, v) && term > h.terms[v]
    ensures Key(term, v) !in h.votes
  {
    assert Key(term, v) in h.votes ==> VoteInv(h, Key(term, v));
  }

  lemma BumpVotesTo(h: History, v: nat, s: NodeState, term: nat)
    requires Member(h, v) && VotesInv(h) && NodeVote(h, v, s) && h.terms[v] == s.currentTerm
    ensures VotesTo(h, Bump(h, v, Higher(s.currentTerm, term)), v, MaybeStepDown(s, term))
  {
    hide UpToDate, LastTerm;
    BumpVotes(h, v, Higher(s.currentTerm, term));
    if term > s.currentTerm { NoFutureVote(h, v, term); }
    hide VotesInv;
  }

  lemma OwnBidUpToDate(h: History, v: nat)
    requires Member(h, v) && Key(h.terms[v], v) !in h.votes
    requires Key(h.terms[v], v) in h.bids && h.bids[Key(h.terms[v], v)] == h.logs[v]
    ensures CanVote(h, v, v)
  {}

  lemma CastVote(h: History, v: nat, s: NodeState, c: int)
    requires CanVote(h, v, c) && VotesInv(h) && NodeVote(h, v, s) && h.terms[v] == s.currentTerm && c != NOBODY
    ensures VotesTo(h, Vote(h, v, c), v, s.(votedFor := c))
  {
    VoteVotes(h, v, c);
    hide VotesInv;
    assert VotesAdvance(h, Vote(h, v, c), v);
    hide VotesAdvance, UpToDate, LastTerm;
  }

  lemma StandVotesTo(h: History, v: nat, s: NodeState)
    requires CanStand(h, v) && VotesInv(h) && NodeVote(h, v, s)
    ensures VotesTo(h, Stand(h, v), v, s)
  {
    StandVotes(h, v);
    hide VotesInv, AllBelow;
  }

  lemma CandidateVote(h: History, v: nat, s: NodeState)
    requires s.id == v && VotedFor(h, s.currentTerm + 1, v, v)
    ensures NodeVote(h, v, StartElection(s).node)
  {}

  lemma StandAndVote(h: History, v: nat, s: NodeState)
    requires CanStand(h, v) && VotesInv(h) && NodeVote(h, v, s) && h.terms[v] == s.currentTerm && s.votedFor == NOBODY
    ensures VotesTo(h, Vote(Stand(h, v), v, v), v, s.(votedFor := v))
  {
    hide VotesInv, VotesAdvance;
    StandVotesTo(h, v, s);
    OwnBidUpToDate(Stand(h, v), v);
    CastVote(Stand(h, v), v, s, v);
    AdvanceVotesTwice(h, Stand(h, v), Vote(Stand(h, v), v, v), v);
    hide CanVote, NodeVote;
  }

  lemma TimeoutVotesAt(h: History, v: nat, s: NodeState)
    requires Member(h, v) && VotesInv(h) && NodeVote(h, v, s) && h.terms[v] == s.currentTerm && s.id == v
    requires CanStand(Bump(h, v, s.currentTerm + 1), v)
    ensures VotesTo(h, Vote(Stand(Bump(h, v, s.currentTerm + 1), v), v, v), v, StartElection(s).node)
  {
    hide VotesInv, VotesAdvance, AllBelow, StartElection;
    var b, s1 := Bump(h, v, s.currentTerm + 1), MaybeStepDown(s, s.currentTerm + 1);
    BumpVotesTo(h, v, s, s.currentTerm + 1);
    StandAndVote(b, v, s1);
    var h' := Vote(Stand(b, v), v, v);
    AdvanceVotesTwice(h, b, h', v);
    CandidateVote(h', v, s);
  }

  lemma TimeoutVotes(n: nat, h: History, v: nat, s: NodeState)
    requires Member(h, v) && Voting(n, h, v, s)
    ensures VotesTo(h, Track(h, s, Timeout(v)), v, StartElection(s).node)
  {
    BidIsNew(n, h, v, s);
    IdOf(n, v, s);
    TimeoutVotesAt(h, v, s);
    hide LogsInv, NodeWf, VotesInv, VotesTo, AllBelow, StartElection;
  }

  lemma RequestsCarryBid(n: nat, h: History, v: nat, s: NodeState)
    requires Member(h, v) && h.logs[v] == s.log && s.id == v
    ensures forall m | m in StartElection(s).sent :: MessageVote(Track(h, s, Timeout(v)), m)
  {}

  lemma AskedCanVote(h: History, v: nat, s: NodeState, m: Message)
    requires m.payload.RequestVote? && m.payload.candidateId == m.sender && AsksWithBid(h, m)
    requires Member(h, v) && h.terms[v] == s.currentTerm && h.logs[v] == s.log && NodeVote(h, v, s)
    requires Grants(s, m.payload) && s.votedFor == NOBODY && m.payload.term == s.currentTerm
    ensures CanVote(h, v, m.sender)
  {}

  lemma VoteRequestVotes(n: nat, h: History, v: nat, s: NodeState, m: Message)
    requires Member(h, v) && Voting(n, h, v, s) && m.payload.RequestVote? && m.receiver == v && MessageWf(n, m) && MessageVote(h, m)
    ensures VotesTo(h, TrackMessage(h, s, m), v, HandleRequestVote(s, m).node)
    ensures forall o | o in HandleRequestVote(s, m).sent :: MessageVote(TrackMessage(h, s, m), o)
  {
    hide UpToDate, LastTerm, LogsInv, NodeWf, VotesInv;
    assert s.id == v by { IdOf(n, v, s); }
    var b, s1 := Bump(h, v, Higher(s.currentTerm, m.payload.term)), MaybeStepDown(s, m.payload.term);
    BumpVotesTo(h, v, s, m.payload.term);
    if Grants(s1, m.payload) && s1.votedFor == NOBODY {
      AskedCanVote(b, v, s1, m);
      CastVote(b, v, s1, m.sender);
      AdvanceVotesTwice(h, b, Vote(b, v, m.sender), v);
    }
  }

  lemma VotersAreQuorum(n: nat, h: History, v: nat, s: NodeState)
    requires NodeWf(n, v, s) && |h.terms| == n && Member(h, v) && h.terms[v] == s.currentTerm
    requires s.role.Candidate? && NodeVote(h, v, s) && |s.votesReceived| >= Majority(ClusterSize(s))
    ensures Elected(h, v, s.votesReceived)
  {
    hide SegmentWf;
  }

  /** The candidate that reaches a majority is the first leader of its term. */
  lemma WinnerIsFirst(n: nat, h: History, v: nat, s: NodeState)
    requires Member(h, v) && Voting(n, h, v, s) && s.role.Candidate? && |s.votesReceived| >= Majority(ClusterSize(s))
    ensures s.currentTerm !in h.leaders && Elected(h, v, s.votesReceived)
  {
    VotersAreQuorum(n, h, v, s);
    hide VotesInv, LogsInv, Elected;
    if s.currentTerm in h.leaders {
      OneWinner(h, v, s.votesReceived);
      assert false;
    }
  }

  lemma LeadVotesTo(h: History, v: nat, s: NodeState)
    requires VotesInv(h) && NodeVote(h, v, s) && CanLead(h, v) && Elected(h, v, s.votesReceived)
    ensures VotesTo(h, Lead(h, v, s.votesReceived), v, BecomeLeader(s).node)
  {
    LeadVotes(h, v, s.votesReceived);
    hide VotesInv, Elected, AppendsToPeers;
  }

  lemma WinnerVotes(n: nat, h: History, v: nat, s: NodeState)
    requires Member(h, v) && Voting(n, h, v, s) && s.role.Candidate? && |s.votesReceived| >= Majority(ClusterSize(s))
    ensures s.currentTerm !in h.leaders && CanLead(h, v) && Elected(h, v, s.votesReceived)
    ensures VotesTo(h, Lead(h, v, s.votesReceived), v, BecomeLeader(s).node)
  {
    WinnerIsFirst(n, h, v, s);
    WinnerLink(h, v, s, s.votesReceived);
    LeadVotesTo(h, v, s);
    hide VotesInv, LogsInv, StepsTo, Elected, VotesTo, NodeWf, NodeVote;
  }

  predicate CountsFresh(s: NodeState, m: Message)
    requires m.payload.RequestVoteReply?
  {
    m.payload.voteGranted && MaybeStepDown(s, m.payload.term).role.Candidate? ==>
      m.payload.term == MaybeStepDown(s, m.payload.term).currentTerm
  }

  lemma AppendsAreAppends()
    ensures forall s: NodeState, m | m in AppendsToPeers(s) :: m.payload.AppendEntries?
  {}

  lemma VoteReplyVotes(n: nat, h: History, v: nat, s: NodeState, m: Message)
    requires Member(h, v) && Voting(n, h, v, s) && m.payload.RequestVoteReply? && m.receiver == v && MessageWf(n, m)
    requires MessageVote(h, m) && CountsFresh(s, m)
    ensures FirstOfItsTerm(h, s, m)
    ensures VotesTo(h, TrackMessage(h, s, m), v, HandleRequestVoteReply(s, m).node)
    ensures forall o | o in HandleRequestVoteReply(s, m).sent :: o.payload.AppendEntries?
  {
    AppendsAreAppends();
    hide UpToDate, LastTerm, LogsInv, VotesInv, SegmentWf, LogsAdvance, AppendsToPeers;
    var b, s1 := Bump(h, v, Higher(s.currentTerm, m.payload.term)), MaybeStepDown(s, m.payload.term);
    BumpVotesTo(h, v, s, m.payload.term);
    StepDownLogs(n, h, v, s, m.payload.term);
    assert NodeWf(n, v, s1) by { StepDownWf(n, v, s, m.payload.term); }
    if s1.role.Candidate? {
      var s2 := if m.payload.voteGranted then s1.(votesReceived := s1.votesReceived + {m.sender}) else s1;
      assert NodeVote(b, v, s2) && NodeWf(n, v, s2) && NodeLog(b, v, s2);
      hide NodeWf, NodeLog, NodeVote, MessageVote;
      if |s2.votesReceived| >= Majority(ClusterSize(s2)) {
        WinnerVotes(n, b, v, s2);
        AdvanceVotesTwice(h, b, Lead(b, v, s2.votesReceived), v);
      }
      hide VotesAdvance;
    }
  }

  lemma SameVotesTo(h: History, h': History, v: nat, s: NodeState, t: NodeState)
    requires VotesInv(h) && NodeVote(h, v, s)
    requires h'.terms == h.terms && h'.votes == h.votes && h'.voteLogs == h.voteLogs && h'.bids == h.bids
    requires h'.leaders == h.leaders && h'.quorums == h.quorums
    requires t.currentTerm == s.currentTerm && t.votedFor == s.votedFor
    requires t.role.Candidate? ==> s.role.Candidate? && t.votesReceived == s.votesReceived
    ensures VotesTo(h, h', v, t)
  {
    FrameVotes(h, h');
    hide VotesInv;
  }

  lemma AppendEntriesFrame(s: NodeState, m: Message)
    requires m.payload.AppendEntries?
    ensures var s1, t := MaybeStepDown(s, m.payload.term), HandleAppendEntries(s, m).node;
      t.currentTerm == s1.currentTerm && t.votedFor == s1.votedFor &&
      (t.role.Candidate? ==> s1.role.Candidate? && t.votesReceived == s1.votesReceived)
  {
    hide Merged;
  }

  lemma AcceptVotesTo(h: History, v: nat, log: Log, ack: nat, s: NodeState, t: NodeState)
    requires Member(h, v) && VotesInv(h) && NodeVote(h, v, s)
    requires t.currentTerm == s.currentTerm && t.votedFor == s.votedFor
    requires t.role.Candidate? ==> s.role.Candidate? && t.votesReceived == s.votesReceived
    ensures VotesTo(h, Accept(h, v, log, ack), v, t) && VotesTo(h, h, v, t)
  {
    hide VotesInv, NodeVote;
    SameVotesTo(h, Accept(h, v, log, ack), v, s, t);
    SameVotesTo(h, h, v, s, t);
  }

  lemma AppendEntriesVotes(n: nat, h: History, v: nat, s: NodeState, m: Message)
    requires Member(h, v) && Voting(n, h, v, s) && m.payload.AppendEntries? && m.receiver == v
    ensures VotesTo(h, TrackMessage(h, s, m), v, HandleAppendEntries(s, m).node)
  {
    hide VotesInv, LogsInv, NodeWf, Accepts;
    AppendEntriesFrame(s, m);
    hide HandleAppendEntries;
    var b, s1 := Bump(h, v, Higher(s.currentTerm, m.payload.term)), MaybeStepDown(s, m.payload.term);
    var t := HandleAppendEntries(s, m).node;
    BumpVotesTo(h, v, s, m.payload.term);
    AcceptVotesTo(b, v, t.log, |t.log|, s1, t);
    hide NodeVote, MaybeStepDown;
    AdvanceVotesTwice(h, b, TrackMessage(h, s, m), v);
  }

  lemma AppendReplyVotes(n: nat, h: History, v: nat, s: NodeState, m: Message)
    requires Member(h, v) && Voting(n, h, v, s) && m.payload.AppendEntriesReply? && m.receiver == v
    ensures VotesTo(h, TrackMessage(h, s, m), v, HandleAppendEntriesReply(s, m).node)
  {
    hide VotesInv, LogsInv, NodeWf, ScanDown;
    var b, s1 := Bump(h, v, Higher(s.currentTerm, m.payload.term)), MaybeStepDown(s, m.payload.term);
    var t := HandleAppendEntriesReply(s, m).node;
    BumpVotesTo(h, v, s, m.payload.term);
    SameVotesTo(b, b, v, s1, t);
    hide NodeVote;
    AdvanceVotesTwice(h, b, b, v);
  }

  lemma MessageVotes(n: nat, h: History, v: nat, s: NodeState, m: Message)
    requires Member(h, v) && Voting(n, h, v, s) && m.receiver == v && MessageWf(n, m) && MessageVote(h, m)
    requires m.payload.RequestVoteReply? ==> CountsFresh(s, m)
    ensures m.payload.RequestVoteReply? ==> FirstOfItsTerm(h, s, m)
    ensures VotesTo(h, TrackMessage(h, s, m), v, Handle(s, m).node)
    ensures forall o | o in Handle(s, m).sent :: MessageVote(TrackMessage(h, s, m), o)
  {
    hide VotesTo, Voting, TrackMessage, AdvanceCommit, Merged, FollowerCommit, Fits, FirstOfItsTerm, CountsFresh;
    match m.payload
    case RequestVote(_, _, _, _) => VoteRequestVotes(n, h, v, s, m); hide HandleRequestVote, MessageVote;
    case RequestVoteReply(_, _) => VoteReplyVotes(n, h, v, s, m); hide HandleRequestVoteReply;
    case AppendEntries(_, _, _, _, _, _) => AppendEntriesVotes(n, h, v, s, m);
    case AppendEntriesReply(_, _, _) => AppendReplyVotes(n, h, v, s, m);
  }

  ghost predicate ActsFresh(s: NodeState, a: Action) {
    a.Deliver? && a.m.payload.RequestVoteReply? ==> CountsFresh(s, a.m)
  }

  lemma EffectVotes(n: nat, h: History, v: nat, s: NodeState, a: Action)
    requires Member(h, v) && Voting(n, h, v, s) && !a.Network? && Actor(a) == v && ActsFresh(s, a)
    requires a.Deliver? ==> MessageWf(n, a.m) && MessageVote(h, a.m)
    ensures ElectsFirst(h, s, a)
    ensures VotesTo(h, Track(h, s, a), v, Effect(s, a).node)
    ensures forall m | m in Effect(s, a).sent :: MessageVote(Track(h, s, a), m)
  {
    hide VotesInv, LogsInv, NodeWf, FirstOfItsTerm, CountsFresh, TrackMessage;
    match a
    case Timeout(_) =>
      TimeoutVotes(n, h, v, s);
      IdOf(n, v, s);
      RequestsCarryBid(n, h, v, s);
      hide VotesTo, Voting, Track, MessageVote;
    case Deliver(m) => MessageVotes(n, h, v, s, m); hide VotesTo, Voting, Handle, MessageVote;
    case Client(_, command) => SameVotesTo(h, Track(h, s, a), v, s, Submit(s, command).node); hide VotesTo, AppendFor;
    case Tick(_) => SameVotesTo(h, h, v, s, s); hide VotesTo;
    case Crash(_) => SameVotesTo(h, h, v, s, Kill(s).node); hide VotesTo;
    case Recover(_) => SameVotesTo(h, h, v, s, Restart(s).node); hide VotesTo;
  }

  // ---------------------------------------------------------------- the whole cluster

  ghost predicate VoteLinked(n: nat, h: History, c: Cluster) {
    && VotesInv(h) && |h.terms| == |c.nodes| == n
    && (forall v: nat | v < n :: NodeVote(h, v, c.nodes[v]))
    && (forall m | m in c.net :: MessageVote(h, m))
  }

  lemma SpreadVotes(n: nat, h: History, h': History, c: Cluster, v: nat, out: Outcome)
    requires VoteLinked(n, h, c) && v < n && |h'.terms| == n
    requires VotesTo(h, h', v, out.node) && forall m | m in out.sent :: MessageVote(h', m)
    ensures VoteLinked(n, h', Cluster(c.nodes[v := out.node], c.net + set m | m in out.sent))
  {
    hide VotesInv, NodeVote, MessageVote, VotesAdvance;
    forall u: nat | u < n && u != v ensures NodeVote(h', u, c.nodes[u]) { OtherNodeVote(h, h', v, u, c.nodes[u]); }
    forall m | m in c.net ensures MessageVote(h', m) { OldMessageVote(h, h', v, m); }
  }

  lemma VoteLinkedStep(n: nat, h: History, c: Cluster, a: Action)
    requires Wf(n, c) && LogLinked(n, h, c) && VoteLinked(n, h, c) && Enabled(c, a) && FreshVotes(c, a)
    ensures !a.Network? ==> ElectsFirst(h, c.nodes[Actor(a)], a)
    ensures VoteLinked(n, TrackStep(h, c, a), Apply(c, a))
  {
    if a.Network? { return; }
    var v: nat := Actor(a);
    assert NodeWf(n, v, c.nodes[v]) && NodeLog(h, v, c.nodes[v]) && NodeVote(h, v, c.nodes[v]);
    assert a.Deliver? ==> MessageWf(n, a.m) && MessageVote(h, a.m);
    hide LogsInv, VotesInv, MessageWf, NodeWf, Effect, Track, NodeLog, MessageLog, MessageVote, NodeVote;
    EffectVotes(n, h, v, c.nodes[v], a);
    hide ElectsFirst, VotesTo;
    LinkedStep(n, h, c, a);
    SpreadVotes(n, h, TrackStep(h, c, a), c, v, Effect(c.nodes[v], a));
  }
}
