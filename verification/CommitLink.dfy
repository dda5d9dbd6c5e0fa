/**
 * Each handler, under the three hypotheses, keeps every acknowledgement true and every commit covered by a
 * majority of acknowledgements.
 */
module CommitLink {
  import opened RaftTypes
  import opened NodeSpec
  import opened RaftSystem
  import opened Basics
  import opened RunFacts
  import opened Logs
  import opened Protocol
  import opened Completeness
  import opened LogLink
  import opened VoteLink
  import opened AckLink

  ghost predicate Acking(n: nat, h: History, v: nat, s: NodeState) {
    Member(h, v) && Voting(n, h, v, s) && FullInv(h) && NodeAck(h, v, s)
  }

  ghost predicate AcksTo(h: History, h': History, v: nat, t: NodeState) {
    FullStep(h, h') && NodeAck(h', v, t)
  }

  lemma AcksToTwice(h: History, h': History, h'': History, v: nat, s: NodeState, t: NodeState)
    requires AcksTo(h, h', v, s) && AcksTo(h', h'', v, t)
    ensures AcksTo(h, h'', v, t)
  {
    hide FullInv, NodeAck;
    AcksAdvanceTwice(h, h', h'');
  }

  /** A step that leaves log and commitIndex alone, into any role but leader. */
  lemma QuietNodeAck(h: History, h': History, v: nat, s: NodeState, t: NodeState)
    requires NodeAck(h, v, s) && AcksAdvance(h, h') && !t.role.Leader?
    requires t.log == s.log && t.commitIndex == s.commitIndex && t.lastApplied == s.lastApplied
    requires s.currentTerm <= t.currentTerm
    ensures NodeAck(h', v, t)
  {
    CoveredOnLater(h, h', s.log, s.log, s.currentTerm, t.currentTerm, s.commitIndex);
    hide CoveredOn;
  }

  lemma SameNodeAck(h: History, v: nat, s: NodeState, t: NodeState)
    requires NodeAck(h, v, s) && t.log == s.log && t.commitIndex == s.commitIndex && t.lastApplied == s.lastApplied
    requires t.currentTerm == s.currentTerm && t.matchIndex == s.matchIndex && t.nextIndex == s.nextIndex
    requires t.role.Leader? ==> s.role.Leader?
    ensures NodeAck(h, v, t)
  {
    hide CoveredOn, Holds;
    assert forall p :: MatchOf(t, p) == MatchOf(s, p);
  }

  lemma StepDownAcks(h: History, v: nat, s: NodeState, term: nat)
    requires Member(h, v) && FullInv(h) && NodeAck(h, v, s) && h.terms[v] == s.currentTerm
    ensures AcksTo(h, Bump(h, v, Higher(s.currentTerm, term)), v, MaybeStepDown(s, term))
  {
    hide FullInv, NodeAck, AcksAdvance;
    var b := Bump(h, v, Higher(s.currentTerm, term));
    BumpFull(h, v, Higher(s.currentTerm, term));
    if term > s.currentTerm {
      QuietNodeAck(h, b, v, s, MaybeStepDown(s, term));
    } else {
      OtherNodeAck(h, b, v, s);
    }
  }

  lemma VotingAfterStepDown(n: nat, h: History, v: nat, s: NodeState, term: nat)
    requires Member(h, v) && Voting(n, h, v, s)
    ensures Member(Bump(h, v, Higher(s.currentTerm, term)), v)
    ensures Voting(n, Bump(h, v, Higher(s.currentTerm, term)), v, MaybeStepDown(s, term))
  {
    StepDownWf(n, v, s, term);
    StepDownLogs(n, h, v, s, term);
    BumpVotesTo(h, v, s, term);
    hide NodeWf, LogsInv, VotesInv, NodeVote, LogsAdvance, VotesAdvance;
  }

  // ---------------------------------------------------------------- elections

  lemma StandAndVoteFull(h: History, v: nat)
    requires FullInv(h) && CanStand(h, v) && Key(h.terms[v], v) !in h.votes
    ensures FullStep(h, Vote(Stand(h, v), v, v))
  {
    StandFull(h, v);
    OwnBidUpToDate(Stand(h, v), v);
    hide FullInv, AcksAdvance;
    VoteFull(Stand(h, v), v, v);
    AcksAdvanceTwice(h, Stand(h, v), Vote(Stand(h, v), v, v));
  }

  lemma TimeoutAcksAt(h: History, v: nat, s: NodeState)
    requires Member(h, v) && FullInv(h) && NodeAck(h, v, s) && h.terms[v] == s.currentTerm
    requires CanStand(Bump(h, v, s.currentTerm + 1), v) && Key(s.currentTerm + 1, v) !in h.votes
    ensures AcksTo(h, Vote(Stand(Bump(h, v, s.currentTerm + 1), v), v, v), v, StartElection(s).node)
  {
    hide FullInv, NodeAck, AcksAdvance, ToPeers, CanStand;
    var b := Bump(h, v, s.currentTerm + 1);
    BumpFull(h, v, s.currentTerm + 1);
    StandAndVoteFull(b, v);
    var h' := Vote(Stand(b, v), v, v);
    AcksAdvanceTwice(h, b, h');
    QuietNodeAck(h, h', v, s, StartElection(s).node);
  }

  lemma TimeoutAcks(n: nat, h: History, v: nat, s: NodeState)
    requires Acking(n, h, v, s)
    ensures AcksTo(h, Track(h, s, Timeout(v)), v, StartElection(s).node)
  {
    BidIsNew(n, h, v, s);
    NoFutureVote(h, v, s.currentTerm + 1);
    TimeoutAcksAt(h, v, s);
    hide FullInv, VotesInv, LogsInv, NodeAck, AcksTo, NodeWf, NodeVote, StartElection, CanStand;
  }

  lemma CastVoteFull(h: History, v: nat, s: NodeState, c: int)
    requires FullInv(h) && CanVote(h, v, c) && NodeAck(h, v, s)
    ensures AcksTo(h, Vote(h, v, c), v, s.(votedFor := c))
  {
    VoteFull(h, v, c);
    hide FullInv, AcksAdvance, CanVote, NodeAck;
    OtherNodeAck(h, Vote(h, v, c), v, s);
    SameNodeAck(Vote(h, v, c), v, s, s.(votedFor := c));
  }

  lemma AckingAfterStepDown(n: nat, h: History, v: nat, s: NodeState, term: nat)
    requires Acking(n, h, v, s)
    ensures var b, s1 := Bump(h, v, Higher(s.currentTerm, term)), MaybeStepDown(s, term);
      AcksTo(h, b, v, s1) && Acking(n, b, v, s1) && VotesAdvance(h, b, v)
  {
    hide FullInv, LogsInv, VotesInv, NodeWf, NodeVote, NodeAck, AcksAdvance, VotesAdvance;
    StepDownAcks(h, v, s, term);
    VotingAfterStepDown(n, h, v, s, term);
    BumpVotesTo(h, v, s, term);
  }

  lemma AskedVoteAcks(n: nat, h: History, v: nat, s: NodeState, m: Message)
    requires Acking(n, h, v, s) && m.payload.RequestVote? && MessageWf(n, m) && MessageVote(h, m)
    requires Grants(s, m.payload) && s.votedFor == NOBODY && m.payload.term == s.currentTerm
    ensures AcksTo(h, Vote(h, v, m.sender), v, s.(votedFor := m.sender))
  {
    hide FullInv, LogsInv, VotesInv, NodeWf, NodeAck, UpToDate, LastTerm;
    AskedCanVote(h, v, s, m);
    CastVoteFull(h, v, s, m.sender);
  }

  lemma VoteRequestAcks(n: nat, h: History, v: nat, s: NodeState, m: Message)
    requires Acking(n, h, v, s) && m.payload.RequestVote? && m.receiver == v && MessageWf(n, m) && MessageVote(h, m)
    ensures AcksTo(h, TrackMessage(h, s, m), v, HandleRequestVote(s, m).node)
  {
    hide Voting, FullInv, NodeAck, AcksAdvance, VotesAdvance, MessageVote, UpToDate;
    var b, s1 := Bump(h, v, Higher(s.currentTerm, m.payload.term)), MaybeStepDown(s, m.payload.term);
    AckingAfterStepDown(n, h, v, s, m.payload.term);
    OldMessageVote(h, b, v, m);
    if Grants(s1, m.payload) {
      if s1.votedFor == NOBODY {
        AskedVoteAcks(n, b, v, s1, m);
        AcksToTwice(h, b, Vote(b, v, m.sender), v, s1, s1.(votedFor := m.sender));
      } else {
        assert s1.(votedFor := m.payload.candidateId) == s1;
      }
    }
    hide MessageWf;
  }

  /** Every AppendEntries a leader builds announces a covered commitIndex within what it carries. */
  lemma SentAck(h: History, v: nat, s: NodeState, p: int)
    requires NodeLog(h, v, s) && NodeAck(h, v, s) && s.role.Leader?
    ensures MessageAck(h, AppendFor(s, p))
  {
    hide Committed, Holds;
    if s.commitIndex > 0 {
      var t: nat, i: nat :| Covers(h, t, i, s.currentTerm, s.commitIndex) && SameThrough(h, t, s.log, s.commitIndex);
      assert Covered(h, s.currentTerm, s.commitIndex);
      assert s.commitIndex <= |s.log|;
    }
    hide Covered, CoveredOn, SameThrough;
  }

  lemma AllSentAck(h: History, v: nat, s: NodeState)
    requires NodeLog(h, v, s) && NodeAck(h, v, s) && s.role.Leader?
    ensures forall m | m in AppendsToPeers(s) :: MessageAck(h, m)
  {
    hide MessageAck, NodeLog, NodeAck;
    forall p ensures MessageAck(h, AppendFor(s, p)) { SentAck(h, v, s, p); }
    hide AppendFor;
  }

  lemma NewLeaderAck(h: History, v: nat, s: NodeState)
    requires Holds(h, v, s.currentTerm, |s.log|) && CoveredOn(h, s.log, s.currentTerm, s.commitIndex)
    requires s.lastApplied == s.commitIndex
    ensures NodeAck(h, v, BecomeLeader(s).node)
  {
    hide CoveredOn, Holds, AppendsToPeers;
  }

  lemma LeaderAck(h: History, v: nat, s: NodeState, q: set<int>)
    requires FullInv(h) && CanLead(h, v) && Elected(h, v, q) && NodeAck(h, v, s)
    requires h.terms[v] == s.currentTerm && h.logs[v] == s.log
    ensures AcksTo(h, Lead(h, v, q), v, BecomeLeader(s).node)
  {
    LeadFull(h, v, q);
    hide FullInv, Elected, BecomeLeader, CoveredOn, AcksAdvance;
    CoveredOnLater(h, Lead(h, v, q), s.log, s.log, s.currentTerm, s.currentTerm, s.commitIndex);
    NewLeaderAck(Lead(h, v, q), v, s);
    hide NodeAck, CanLead;
  }

  lemma VotingAfterCount(n: nat, h: History, v: nat, s: NodeState, m: Message)
    requires Member(h, v) && Voting(n, h, v, s) && MessageWf(n, m) && m.receiver == v && MessageVote(h, m)
    requires m.payload.RequestVoteReply? && m.payload.voteGranted && m.payload.term == s.currentTerm
    ensures Voting(n, h, v, s.(votesReceived := s.votesReceived + {m.sender}))
  {
    hide LogsInv, VotesInv, SegmentWf;
  }

  lemma WinnerAcks(n: nat, h: History, v: nat, s: NodeState)
    requires Acking(n, h, v, s) && s.role.Candidate? && |s.votesReceived| >= Majority(ClusterSize(s))
    ensures AcksTo(h, Lead(h, v, s.votesReceived), v, BecomeLeader(s).node)
    ensures forall m | m in BecomeLeader(s).sent :: MessageAck(Lead(h, v, s.votesReceived), m)
  {
    WinnerVotes(n, h, v, s);
    WinnerLink(h, v, s, s.votesReceived);
    hide LogsInv, VotesInv, NodeWf, NodeVote, FullInv, VotesTo, LogsAdvance;
    LeaderAck(h, v, s, s.votesReceived);
    hide NodeAck, CanLead, Elected;
    AllSentAck(Lead(h, v, s.votesReceived), v, BecomeLeader(s).node);
    hide AppendsToPeers, MessageAck;
  }

  lemma CountedAcks(n: nat, h: History, v: nat, s: NodeState, m: Message)
    requires Acking(n, h, v, s) && s.role.Candidate? && m.receiver == v && MessageWf(n, m) && MessageVote(h, m)
    requires m.payload.RequestVoteReply? && (m.payload.voteGranted ==> m.payload.term == s.currentTerm)
    ensures var s2 := if m.payload.voteGranted then s.(votesReceived := s.votesReceived + {m.sender}) else s;
      Acking(n, h, v, s2)
  {
    if m.payload.voteGranted {
      VotingAfterCount(n, h, v, s, m);
      SameNodeAck(h, v, s, s.(votesReceived := s.votesReceived + {m.sender}));
    }
    hide Voting, FullInv, NodeAck, MessageVote, MessageWf;
  }

  lemma TallyAcks(n: nat, h: History, v: nat, s: NodeState, m: Message, s2: NodeState)
    requires Acking(n, h, v, s) && s.role.Candidate? && m.receiver == v && MessageWf(n, m) && MessageVote(h, m)
    requires m.payload.RequestVoteReply? && (m.payload.voteGranted ==> m.payload.term == s.currentTerm)
    requires s2 == if m.payload.voteGranted then s.(votesReceived := s.votesReceived + {m.sender}) else s
    ensures NodeAck(h, v, s2)
    ensures |s2.votesReceived| >= Majority(ClusterSize(s2)) ==>
      && AcksTo(h, Lead(h, v, s2.votesReceived), v, BecomeLeader(s2).node)
      && forall o | o in BecomeLeader(s2).sent :: MessageAck(Lead(h, v, s2.votesReceived), o)
  {
    hide Voting, FullInv, NodeAck, MessageVote, MessageWf, BecomeLeader, AcksTo, MessageAck;
    CountedAcks(n, h, v, s, m);
    if |s2.votesReceived| >= Majority(ClusterSize(s2)) { WinnerAcks(n, h, v, s2); }
  }

  lemma VoteReplyAcks(n: nat, h: History, v: nat, s: NodeState, m: Message)
    requires Acking(n, h, v, s) && m.payload.RequestVoteReply? && m.receiver == v && MessageWf(n, m)
    requires MessageVote(h, m) && CountsFresh(s, m)
    ensures AcksTo(h, TrackMessage(h, s, m), v, HandleRequestVoteReply(s, m).node)
    ensures forall o | o in HandleRequestVoteReply(s, m).sent :: MessageAck(TrackMessage(h, s, m), o)
  {
    hide Voting, FullInv, NodeAck, AcksAdvance, VotesAdvance, MessageVote, MessageWf, BecomeLeader, MessageAck;
    var b, s1 := Bump(h, v, Higher(s.currentTerm, m.payload.term)), MaybeStepDown(s, m.payload.term);
    AckingAfterStepDown(n, h, v, s, m.payload.term);
    OldMessageVote(h, b, v, m);
    if s1.role.Candidate? {
      var s2 := if m.payload.voteGranted then s1.(votesReceived := s1.votesReceived + {m.sender}) else s1;
      TallyAcks(n, b, v, s1, m, s2);
      LeaderFields(s2);
      if |s2.votesReceived| >= Majority(ClusterSize(s2)) {
        AcksToTwice(h, b, Lead(b, v, s2.votesReceived), v, s1, BecomeLeader(s2).node);
      }
    }
  }

  lemma LeaderFields(s: NodeState)
    ensures BecomeLeader(s).node.role.Leader? && BecomeLeader(s).node.votesReceived == s.votesReceived
  {}

  // ---------------------------------------------------------------- accepted entries

  predicate LeavesOwnTerm(s: NodeState, m: Message)
    requires m.payload.AppendEntries?
  {
    Accepts(s, m.payload) ==>
      var log := HandleAppendEntries(s, m).node.log;
      forall i | m.payload.prevLogIndex + |m.payload.entries| <= i < |log| :: log[i].term == m.payload.term
  }

  /** With no foreign entry past what the message vouches for, the whole new log is the leader's. */
  lemma ExactAgrees(leaders: LeaderLogs, log: Log, term: nat, end: nat, after: Log)
    requires term in leaders && Genuine(leaders, after) && Absorbs(log, leaders[term], end, after)
    requires forall i | end <= i < |after| :: after[i].term == term
    ensures Agree(after, leaders[term], |after|)
  {
    AbsorbReaches(log, leaders[term], end, after);
    if end < |after| { assert Backed(leaders, after, |after| - 1); }
  }

  /** Accepted entries never disturb a covered prefix. */
  lemma CoveredSurvives(h: History, log: Log, term: nat, end: nat, after: Log, k: nat)
    requires CoreInv(h) && term in h.leaderLogs && Absorbs(log, h.leaderLogs[term], end, after)
    requires CoveredOn(h, log, term, k)
    ensures CoveredOn(h, after, term, k)
  {
    hide LogsInv, VotesInv, ChoiceInv, Committed, Absorbs;
    if k > 0 {
      var t: nat, i: nat :| Covers(h, t, i, term, k) && SameThrough(h, t, log, k);
      CommittedInLeader(h, t, i, term);
      AgreeShorter(h.leaderLogs[t], h.leaderLogs[term], i, k);
      AgreeSymmetric(h.leaderLogs[t], log, k);
      AgreeThrough(log, h.leaderLogs[t], h.leaderLogs[term], k);
      AbsorbKeeps(log, h.leaderLogs[term], end, after, k);
      AgreeSymmetric(after, h.leaderLogs[term], k);
      AgreeThrough(h.leaderLogs[t], h.leaderLogs[term], after, k);
      assert Covers(h, t, i, term, k);
    }
  }

  /** The leader's commitIndex is covered on the follower's new log, within what the message carried. */
  lemma AnnouncedCovered(h: History, log: Log, term: nat, end: nat, after: Log, k: nat)
    requires CoreInv(h) && term in h.leaderLogs && Absorbs(log, h.leaderLogs[term], end, after)
    requires Covered(h, term, k) && k <= end
    ensures CoveredOn(h, after, term, k) && k <= |after|
  {
    hide LogsInv, VotesInv, ChoiceInv, Committed;
    AbsorbReaches(log, h.leaderLogs[term], end, after);
    hide Absorbs;
    if k > 0 {
      var t: nat, i: nat :| Covers(h, t, i, term, k);
      CommittedInLeader(h, t, i, term);
      AgreeShorter(h.leaderLogs[t], h.leaderLogs[term], i, k);
      AgreeShorter(after, h.leaderLogs[term], end, k);
      AgreeSymmetric(after, h.leaderLogs[term], k);
      AgreeThrough(h.leaderLogs[t], h.leaderLogs[term], after, k);
      assert Covers(h, t, i, term, k);
    }
  }

  /** What an accepted AppendEntries makes of the node, in terms of the stepped-down state. */
  lemma AcceptedFields(s: NodeState, m: Message)
    requires m.payload.AppendEntries? && Accepts(s, m.payload)
    ensures var s1, t := MaybeStepDown(s, m.payload.term), HandleAppendEntries(s, m).node;
      && t.role.Follower? && t.currentTerm == s1.currentTerm == m.payload.term && s1.log == s.log
      && t.log == Merged(s.log, m.payload.prevLogIndex, m.payload.entries)
      && (if m.payload.leaderCommit > s.commitIndex
          then t.commitIndex == (if m.payload.leaderCommit > |t.log| then |t.log| else m.payload.leaderCommit)
          else t.commitIndex == s.commitIndex)
      && (s.lastApplied == s.commitIndex && s.commitIndex <= t.commitIndex ==> t.lastApplied == t.commitIndex)
  {
    hide Merged;
  }

  lemma RejectedFields(s: NodeState, m: Message)
    requires m.payload.AppendEntries? && !Accepts(s, m.payload)
    ensures var s1, out := MaybeStepDown(s, m.payload.term), HandleAppendEntries(s, m);
      && (out.node == s1 || out.node == s1.(role := Follower))
      && forall o | o in out.sent :: o.payload.AppendEntriesReply? && !o.payload.success
  {}

  lemma AcceptedExact(h: History, v: nat, log: Log, end: nat)
    requires LogsInv(h) && CanAccept(h, v, log, end)
    requires forall i | end <= i < |log| :: log[i].term == h.terms[v]
    ensures AcksExactly(h, v, log, |log|)
  {
    AcceptLogs(h, v, log, |log|, end);
    hide Absorbs;
    assert Genuine(h.leaderLogs, Accept(h, v, log, |log|).logs[v]);
    ExactAgrees(h.leaderLogs, h.logs[v], h.terms[v], end, log);
  }

  /** The accepting step on the history, after the term bump. */
  lemma AcceptAcksAt(h: History, v: nat, s: NodeState, log: Log, ack: nat, end: nat, k: nat, t: NodeState)
    requires Member(h, v) && LogsInv(h) && FullInv(h) && NodeAck(h, v, s)
    requires h.terms[v] == s.currentTerm && h.logs[v] == s.log && CanAccept(h, v, log, end)
    requires AcksExactly(h, v, log, ack)
    requires Covered(h, s.currentTerm, k) && k <= end
    requires t.role.Follower? && t.currentTerm == s.currentTerm && t.log == log
    requires if k > s.commitIndex then t.commitIndex == (if k > |log| then |log| else k) else t.commitIndex == s.commitIndex
    requires s.lastApplied == s.commitIndex && s.commitIndex <= t.commitIndex ==> t.lastApplied == t.commitIndex
    ensures AcksTo(h, Accept(h, v, log, ack), v, t) && Holds(Accept(h, v, log, ack), v, s.currentTerm, ack)
    ensures s.commitIndex <= t.commitIndex && t.commitIndex == if k > s.commitIndex then k else s.commitIndex
  {
    hide LogsInv, VotesInv, ChoiceInv, HeldInv, Absorbs, CoveredOn, Covered, AcksAdvance;
    AcceptFull(h, v, log, ack, end);
    CoveredSurvives(h, s.log, s.currentTerm, end, log, s.commitIndex);
    AnnouncedCovered(h, s.log, s.currentTerm, end, log, k);
    var h' := Accept(h, v, log, ack);
    CoveredOnLater(h, h', log, log, s.currentTerm, s.currentTerm, s.commitIndex);
    CoveredOnLater(h, h', log, log, s.currentTerm, s.currentTerm, k);
    hide Agree, CoreInv;
  }

  lemma AppendEntriesAcks(n: nat, h: History, v: nat, s: NodeState, m: Message)
    requires Acking(n, h, v, s) && m.payload.AppendEntries? && m.receiver == v && MessageWf(n, m)
    requires MessageLog(h, m) && MessageAck(h, m) && LeavesOwnTerm(s, m)
    ensures AcksTo(h, TrackMessage(h, s, m), v, HandleAppendEntries(s, m).node)
    ensures forall o | o in HandleAppendEntries(s, m).sent :: MessageAck(TrackMessage(h, s, m), o)
  {
    var a, b, s1 := m.payload, Bump(h, v, Higher(s.currentTerm, m.payload.term)), MaybeStepDown(s, m.payload.term);
    if Accepts(s, a) {
      AcceptedAcks(n, h, v, s, m);
    } else {
      hide FullInv, Voting, NodeAck, VotesAdvance, AcksAdvance, MessageWf, MessageLog, MessageAck;
      AckingAfterStepDown(n, h, v, s, a.term);
      RejectedFields(s, m);
      SameNodeAck(b, v, s1, s1.(role := Follower));
      hide HandleAppendEntries;
      assert forall o | o in HandleAppendEntries(s, m).sent :: MessageAck(b, o) by { RejectionsAck(b); }
    }
  }

  lemma RejectionsAck(h: History)
    ensures forall o: Message | o.payload.AppendEntriesReply? && !o.payload.success :: MessageAck(h, o)
  {}

  lemma AcceptedAcks(n: nat, h: History, v: nat, s: NodeState, m: Message)
    requires Acking(n, h, v, s) && m.payload.AppendEntries? && m.receiver == v && MessageWf(n, m)
    requires MessageLog(h, m) && MessageAck(h, m) && LeavesOwnTerm(s, m) && Accepts(s, m.payload)
    ensures AcksTo(h, TrackMessage(h, s, m), v, HandleAppendEntries(s, m).node)
    ensures forall o | o in HandleAppendEntries(s, m).sent :: MessageAck(TrackMessage(h, s, m), o)
    ensures s.commitIndex <= HandleAppendEntries(s, m).node.commitIndex
    ensures m.payload.leaderCommit > s.commitIndex ==> HandleAppendEntries(s, m).node.commitIndex == m.payload.leaderCommit
  {
    hide FullInv, LogsInv, VotesInv, NodeWf, NodeVote, NodeAck, VotesAdvance, AcksAdvance, LogsAdvance, Merged;
    var a, b, s1 := m.payload, Bump(h, v, Higher(s.currentTerm, m.payload.term)), MaybeStepDown(s, m.payload.term);
    var t, end := HandleAppendEntries(s, m).node, a.prevLogIndex + |a.entries|;
    AckingAfterStepDown(n, h, v, s, a.term);
    AcceptedFields(s, m);
    AcceptedAbsorbs(n, h, v, s, m);
    hide HandleAppendEntries, Absorbs;
    assert m.sender != v by { SenderDiffers(n, m); }
    AcceptedWithin(n, h, v, s, m);
    CoveredLater(h, b, a.term, a.term, a.leaderCommit);
    AcceptedExact(b, v, t.log, end);
    AcceptAcksAt(b, v, s1, t.log, |t.log|, end, a.leaderCommit, t);
    AcksToTwice(h, b, Accept(b, v, t.log, |t.log|), v, s1, t);
    AcceptedReply(s, m);
    IdOf(n, v, s);
    hide AcksTo, MessageLog, Covered;
  }

  lemma SenderDiffers(n: nat, m: Message)
    requires MessageWf(n, m)
    ensures m.sender != m.receiver
  {}

  lemma AcceptedWithin(n: nat, h: History, v: nat, s: NodeState, m: Message)
    requires NodeWf(n, v, s) && m.payload.AppendEntries? && MessageAck(h, m) && Accepts(s, m.payload)
    ensures m.payload.leaderCommit <= m.payload.prevLogIndex + |m.payload.entries|
    ensures Covered(h, m.payload.term, m.payload.leaderCommit)
  {
    hide Covered, SegmentWf;
    if PointsNowhere(m.payload) { NowhereRejected(s.log, s.currentTerm, m.payload); }
  }

  lemma AcceptedReply(s: NodeState, m: Message)
    requires m.payload.AppendEntries? && Accepts(s, m.payload)
    ensures var out := HandleAppendEntries(s, m);
      out.sent == [Message(s.id, m.sender, AppendEntriesReply(m.payload.term, true, |out.node.log|))]
  {
    hide Merged;
  }

  // ---------------------------------------------------------------- acknowledgements and the quorum scan

  predicate UsesFresh(s: NodeState, m: Message)
    requires m.payload.AppendEntriesReply?
  {
    m.payload.success && MaybeStepDown(s, m.payload.term).role.Leader? ==>
      m.payload.term == MaybeStepDown(s, m.payload.term).currentTerm
  }

  /** The scan commits only what a majority, the leader included, has acknowledged. */
  lemma ScanCovered(n: nat, h: History, v: nat, s: NodeState, index: nat)
    requires NodeWf(n, v, s) && |h.terms| == n && NodeLog(h, v, s) && NodeAck(h, v, s) && s.role.Leader?
    requires 1 <= index <= |s.log| && Committable(s, index)
    ensures CoveredOn(h, s.log, s.currentTerm, index)
  {
    hide SegmentWf, CoveredOn;
    var q := Holders(s, index) + {v as int};
    HoldersCounted(n, v, s, index);
    PeersOfMembers(n, v, v);
    forall p | p in s.peers ensures 0 <= p < n { PeersOfMembers(n, v, p); }
    assert |q| == |Holders(s, index)| + 1 by { assert v !in Holders(s, index); }
    hide CountAtLeast;
    assert HeldBy(h, q, s.currentTerm, index) by {
      forall u | u in q ensures Holds(h, u, s.currentTerm, index) {
        if u != v { assert MatchOf(s, u) > 0; }
      }
    }
    OwnPrefix(h, s.log, s.currentTerm, index);
    CoveredNow(h, s.log, s.currentTerm, index);
  }

  lemma OwnPrefix(h: History, log: Log, term: nat, index: nat)
    requires term in h.leaderLogs && h.leaderLogs[term] == log && index <= |log|
    ensures SameThrough(h, term, log, index)
  {}

  lemma CoveredNow(h: History, log: Log, term: nat, index: nat)
    requires OwnEntry(h, term, index) && SameThrough(h, term, log, index) && exists q :: HeldBy(h, q, term, index)
    ensures CoveredOn(h, log, term, index)
  {
    assert Committed(h, term, index);
    assert Covers(h, term, index, term, index);
  }

  lemma CommitAck(h: History, v: nat, s: NodeState, index: nat)
    requires NodeAck(h, v, s) && CoveredOn(h, s.log, s.currentTerm, index) && index > s.commitIndex
    ensures NodeAck(h, v, Commit(s, index))
  {
    hide CoveredOn, Holds;
    assert forall p :: MatchOf(Commit(s, index), p) == MatchOf(s, p);
  }

  lemma ScanAcks(n: nat, h: History, v: nat, s: NodeState)
    requires NodeWf(n, v, s) && |h.terms| == n && NodeLog(h, v, s) && NodeAck(h, v, s) && s.role.Leader?
    ensures NodeAck(h, v, AdvanceCommit(s))
  {
    hide NodeWf, NodeLog, NodeAck, Committable;
    var index := ScanDown(s, |s.log|);
    if index > s.commitIndex {
      ScanCovered(n, h, v, s, index);
      CommitAck(h, v, s, index);
    }
  }

  lemma AckedWithin(h: History, v: nat, s: NodeState, p: int, k: nat)
    requires NodeLog(h, v, s) && AcksInv(h) && s.role.Leader? && Holds(h, p, s.currentTerm, k)
    ensures k <= |s.log|
  {}

  /** The leader's bookkeeping for a success reply, before its quorum scan. */
  function Recorded(s: NodeState, p: int, index: nat): NodeState {
    var known := if index > MatchOf(s, p) then index else MatchOf(s, p);
    s.(matchIndex := if index > MatchOf(s, p) then s.matchIndex[p := known] else s.matchIndex,
    nextIndex := s.nextIndex[p := known + 1])
  }

  /** A true acknowledgement may be recorded. */
  lemma RecordAck(h: History, v: nat, s: NodeState, p: int, index: nat)
    requires NodeLog(h, v, s) && AcksInv(h) && NodeAck(h, v, s) && s.role.Leader?
    requires index > 0 ==> Holds(h, p, s.currentTerm, index)
    ensures NodeAck(h, v, Recorded(s, p, index))
  {
    var t, known := Recorded(s, p, index), if index > MatchOf(s, p) then index else MatchOf(s, p);
    if known > 0 { AckedWithin(h, v, s, p, known); }
    hide CoveredOn, Holds, NodeLog, AcksInv;
    forall u | MatchOf(t, u) > 0
      ensures Holds(h, u, t.currentTerm, MatchOf(t, u))
    {
      if u != p { assert MatchOf(t, u) == MatchOf(s, u); }
    }
  }

  lemma RecordedWf(n: nat, h: History, v: nat, s: NodeState, p: int, index: nat)
    requires NodeWf(n, v, s) && NodeLog(h, v, s)
    ensures NodeWf(n, v, Recorded(s, p, index)) && NodeLog(h, v, Recorded(s, p, index))
  {
    hide SegmentWf;
  }

  lemma SuccessFields(s: NodeState, m: Message)
    requires s.role.Leader? && m.payload.AppendEntriesReply? && m.payload.success && m.payload.term == s.currentTerm
    ensures HandleAppendEntriesReply(s, m).node == AdvanceCommit(Recorded(s, m.sender, m.payload.matchIndex))
  {
    hide AdvanceCommit;
  }

  lemma BackOffAck(h: History, v: nat, s: NodeState, p: int)
    requires NodeAck(h, v, s) && s.role.Leader?
    ensures NextOf(s, p) > 1 ==> NodeAck(h, v, s.(nextIndex := s.nextIndex[p := NextOf(s, p) - 1]))
  {
    hide CoveredOn, Holds;
    var t := s.(nextIndex := s.nextIndex[p := NextOf(s, p) - 1]);
    assert forall u :: MatchOf(t, u) == MatchOf(s, u);
  }

  lemma SuccessAcks(n: nat, h: History, v: nat, s: NodeState, m: Message)
    requires Acking(n, h, v, s) && s.role.Leader? && m.payload.AppendEntriesReply? && m.payload.success
    requires m.payload.term == s.currentTerm && ReplyAck(h, m)
    ensures NodeAck(h, v, HandleAppendEntriesReply(s, m).node)
  {
    AcksOf(h);
    hide CoreInv, HeldInv, LogsInv, VotesInv, NodeVote, NodeAck, NodeWf, AcksInv, Holds;
    RecordAck(h, v, s, m.sender, m.payload.matchIndex);
    RecordedWf(n, h, v, s, m.sender, m.payload.matchIndex);
    hide NodeLog;
    SuccessFields(s, m);
    ScanAcks(n, h, v, Recorded(s, m.sender, m.payload.matchIndex));
    hide HandleAppendEntriesReply, AdvanceCommit;
  }

  lemma AppendReplyAcks(n: nat, h: History, v: nat, s: NodeState, m: Message)
    requires Acking(n, h, v, s) && m.payload.AppendEntriesReply? && m.receiver == v
    requires MessageAck(h, m) && UsesFresh(s, m)
    ensures AcksTo(h, TrackMessage(h, s, m), v, HandleAppendEntriesReply(s, m).node)
  {
    hide FullInv, Voting, NodeAck, VotesAdvance, AdvanceCommit;
    var b, s1 := Bump(h, v, Higher(s.currentTerm, m.payload.term)), MaybeStepDown(s, m.payload.term);
    AckingAfterStepDown(n, h, v, s, m.payload.term);
    OldMessageAck(h, b, m);
    hide AcksAdvance;
    if s1.role.Leader? {
      if m.payload.success {
        SuccessAcks(n, b, v, s1, m);
        SteppedDownReply(s, m);
        hide HandleAppendEntriesReply;
      } else {
        BackOffAck(b, v, s1, m.sender);
      }
    }
    hide MessageAck;
  }

  /** Handling a reply after stepping down is handling it. */
  lemma SteppedDownReply(s: NodeState, m: Message)
    requires m.payload.AppendEntriesReply?
    ensures HandleAppendEntriesReply(MaybeStepDown(s, m.payload.term), m) == HandleAppendEntriesReply(s, m)
  {
    assert MaybeStepDown(MaybeStepDown(s, m.payload.term), m.payload.term) == MaybeStepDown(s, m.payload.term);
    hide AdvanceCommit;
  }

  // ---------------------------------------------------------------- clients and dispatch

  lemma ClientAcks(n: nat, h: History, h': History, v: nat, s: NodeState, command: string)
    requires Acking(n, h, v, s) && h' == Track(h, s, Client(v, command))
    ensures AcksTo(h, h', v, Submit(s, command).node)
    ensures forall m | m in Submit(s, command).sent :: MessageAck(h', m)
  {
    hide FullInv, LogsInv, VotesInv, NodeWf, NodeVote, AppendsToPeers;
    if s.role.Leader? {
      var e := Entry(|s.log| + 1, s.currentTerm, command);
      SubmittedAck(h, v, s, e);
      ClientLogs(n, h, v, s, command);
      hide NodeAck, AcksTo, LogsAdvance;
      AllSentAck(Extend(h, v, e), v, Submit(s, command).node);
    } else {
      AcksAdvanceSelf(h);
    }
    hide MessageAck, MessageLog;
  }

  lemma AcksAdvanceSelf(h: History)
    ensures AcksAdvance(h, h)
  {}

  lemma SubmittedAck(h: History, v: nat, s: NodeState, e: Entry)
    requires Member(h, v) && FullInv(h) && NodeLog(h, v, s) && NodeAck(h, v, s) && s.role.Leader?
    requires e.term == s.currentTerm
    ensures AcksTo(h, Extend(h, v, e), v, s.(log := s.log + [e]))
  {
    hide FullInv, CoveredOn, AcksAdvance;
    assert CanExtend(h, v, e);
    ExtendFull(h, v, e);
    var h', t := Extend(h, v, e), s.(log := s.log + [e]);
    CoveredOnLater(h, h', s.log, t.log, s.currentTerm, s.currentTerm, s.commitIndex);
    forall p | MatchOf(t, p) > 0
      ensures Holds(h', p, t.currentTerm, MatchOf(t, p))
    {
      assert MatchOf(t, p) == MatchOf(s, p);
      HoldsLater(h, h', p, s.currentTerm, MatchOf(s, p));
    }
    assert Holds(h', v, t.currentTerm, |t.log|);
    hide Holds;
  }

  ghost predicate ActsCarefully(s: NodeState, a: Action) {
    && ActsFresh(s, a)
    && (a.Deliver? && a.m.payload.AppendEntries? ==> LeavesOwnTerm(s, a.m))
    && (a.Deliver? && a.m.payload.AppendEntriesReply? ==> UsesFresh(s, a.m))
  }

  lemma RepliesAck(h: History)
    ensures forall o: Message | o.payload.RequestVote? || o.payload.RequestVoteReply? :: MessageAck(h, o)
  {}

  lemma MessageAcks(n: nat, h: History, v: nat, s: NodeState, m: Message)
    requires Acking(n, h, v, s) && m.receiver == v && MessageWf(n, m)
    requires MessageLog(h, m) && MessageVote(h, m) && MessageAck(h, m) && ActsCarefully(s, Deliver(m))
    ensures AcksTo(h, TrackMessage(h, s, m), v, Handle(s, m).node)
    ensures forall o | o in Handle(s, m).sent :: MessageAck(TrackMessage(h, s, m), o)
  {
    hide Voting, FullInv, NodeAck, AcksTo, TrackMessage, MessageWf, MessageLog, MessageVote, MessageAck;
    hide Merged, Fits, FollowerCommit, AdvanceCommit, LeavesOwnTerm, UsesFresh, CountsFresh;
    RepliesAck(TrackMessage(h, s, m));
    match m.payload
    case RequestVote(_, _, _, _) => VoteRequestAcks(n, h, v, s, m);
    case RequestVoteReply(_, _) => VoteReplyAcks(n, h, v, s, m); hide HandleRequestVoteReply;
    case AppendEntries(_, _, _, _, _, _) => AppendEntriesAcks(n, h, v, s, m); hide HandleAppendEntries;
    case AppendEntriesReply(_, _, _) => AppendReplyAcks(n, h, v, s, m);
  }

  lemma TickAcks(n: nat, h: History, v: nat, s: NodeState)
    requires Acking(n, h, v, s)
    ensures forall m | m in Heartbeat(s).sent :: MessageAck(h, m)
  {
    hide FullInv, LogsInv, VotesInv, NodeWf, NodeVote, NodeAck, MessageAck;
    if s.role.Leader? { AllSentAck(h, v, s); }
    hide AppendsToPeers;
  }

  lemma EffectAcks(n: nat, h: History, v: nat, s: NodeState, a: Action)
    requires Acking(n, h, v, s) && !a.Network? && Actor(a) == v && ActsCarefully(s, a)
    requires a.Deliver? ==> MessageWf(n, a.m) && MessageLog(h, a.m) && MessageVote(h, a.m) && MessageAck(h, a.m)
    ensures AcksTo(h, Track(h, s, a), v, Effect(s, a).node)
    ensures forall m | m in Effect(s, a).sent :: MessageAck(Track(h, s, a), m)
  {
    hide Voting, FullInv, NodeAck, MessageWf, MessageLog, MessageVote, TrackMessage;
    AcksAdvanceSelf(h);
    hide AcksAdvance;
    match a
    case Timeout(_) =>
      TimeoutAcks(n, h, v, s);
      hide AcksTo, Acking;
      RepliesAck(Track(h, s, a));
      hide Track, MessageAck;
    case Client(_, command) => ClientAcks(n, h, Track(h, s, a), v, s, command); hide AcksTo, Track, Submit, MessageAck;
    case Deliver(m) => MessageAcks(n, h, v, s, m); hide AcksTo, Handle, MessageAck;
    case Tick(_) => TickAcks(n, h, v, s); hide MessageAck;
    case Crash(_) => SameNodeAck(h, v, s, Kill(s).node);
    case Recover(_) => SameNodeAck(h, v, s, Restart(s).node);
  }

  // ---------------------------------------------------------------- the whole cluster

  ghost predicate AckLinked(n: nat, h: History, c: Cluster) {
    && FullInv(h) && |h.terms| == |c.nodes| == n
    && (forall v: nat | v < n :: NodeAck(h, v, c.nodes[v]))
    && (forall m | m in c.net :: MessageAck(h, m))
  }

  /** Everything known of a run in which the three hypotheses held so far. */
  ghost predicate Linked(n: nat, h: History, c: Cluster) {
    Wf(n, c) && LogLinked(n, h, c) && VoteLinked(n, h, c) && AckLinked(n, h, c)
  }

  lemma SpreadAcks(n: nat, h: History, h': History, c: Cluster, v: nat, out: Outcome)
    requires AckLinked(n, h, c) && v < n && |h'.terms| == n
    requires AcksTo(h, h', v, out.node) && forall m | m in out.sent :: MessageAck(h', m)
    ensures AckLinked(n, h', Cluster(c.nodes[v := out.node], c.net + set m | m in out.sent))
  {
    hide FullInv, NodeAck, MessageAck, AcksAdvance;
    forall u: nat | u < n ensures NodeAck(h', u, c.nodes[u]) { OtherNodeAck(h, h', u, c.nodes[u]); }
    forall m | m in c.net ensures MessageAck(h', m) { OldMessageAck(h, h', m); }
  }

  lemma ActingNode(n: nat, h: History, c: Cluster, a: Action)
    requires Linked(n, h, c) && Enabled(c, a) && !a.Network?
    ensures Acking(n, h, Actor(a), c.nodes[Actor(a)])
    ensures a.Deliver? ==> MessageWf(n, a.m) && MessageLog(h, a.m) && MessageVote(h, a.m) && MessageAck(h, a.m)
  {
    hide FullInv, LogsInv, VotesInv, NodeWf, NodeVote, NodeAck, MessageWf, MessageLog, MessageVote, MessageAck;
    assert NodeWf(n, Actor(a), c.nodes[Actor(a)]) && NodeLog(h, Actor(a), c.nodes[Actor(a)]);
  }

  lemma Careful(c: Cluster, a: Action)
    requires Enabled(c, a) && !a.Network? && FreshVotes(c, a) && FreshAcks(c, a) && ExactAck(c, a)
    ensures ActsCarefully(c.nodes[Actor(a)], a)
  {
    hide HandleAppendEntries;
  }

  lemma FullyLinkedStep(n: nat, h: History, c: Cluster, a: Action)
    requires Linked(n, h, c) && Enabled(c, a) && FreshVotes(c, a) && FreshAcks(c, a) && ExactAck(c, a)
    ensures Linked(n, TrackStep(h, c, a), Apply(c, a))
  {
    hide FreshVotes, FreshAcks, ExactAck, Wf, LogLinked, VoteLinked, AckLinked, Effect, Track;
    StepWf(n, c, a);
    VoteLinkedStep(n, h, c, a);
    LinkedStep(n, h, c, a);
    if !a.Network? {
      var v: nat := Actor(a);
      ActingNode(n, h, c, a);
      Careful(c, a);
      hide Acking, ActsCarefully, MessageAck;
      EffectAcks(n, h, v, c.nodes[v], a);
      LinkedSize(n, TrackStep(h, c, a), Apply(c, a));
      SpreadAcks(n, h, TrackStep(h, c, a), c, v, Effect(c.nodes[v], a));
    }
  }

  lemma LinkedSize(n: nat, h: History, c: Cluster)
    requires LogLinked(n, h, c)
    ensures |h.terms| == |h.logs| == |h.accepted| == |c.nodes| == n
  {}
}
