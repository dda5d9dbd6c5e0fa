/**
 * Which protocol events each handler performs, and that they keep every log genuine as long as no term gets
 * a second leader.
 */
module LogLink {
  import opened RaftTypes
  import opened NodeSpec
  import opened RaftSystem
  import opened Basics
  import opened Logs
  import opened Protocol

  // ---------------------------------------------------------------- the history of a run

  function Higher(a: nat, b: nat): nat {
    if a > b then a else b
  }

  function TrackMessage(h: History, s: NodeState, m: Message): History
    requires Member(h, m.receiver)
  {
    var v := m.receiver;
    var b := Bump(h, v, Higher(s.currentTerm, m.payload.term));
    var s1 := MaybeStepDown(s, m.payload.term);
    match m.payload
    case RequestVote(_, _, _, _) =>
      if Grants(s1, m.payload) && s1.votedFor == NOBODY then Vote(b, v, m.payload.candidateId) else b
    case RequestVoteReply(_, _) =>
      var t := HandleRequestVoteReply(s, m).node;
      if t.role.Leader? && !s1.role.Leader? then Lead(b, v, t.votesReceived) else b
    case AppendEntries(_, _, _, _, _, _) =>
      if Accepts(s, m.payload) then
        var log := HandleAppendEntries(s, m).node.log; Accept(b, v, log, |log|)
      else b
    case AppendEntriesReply(_, _, _) => b
  }

  function Track(h: History, s: NodeState, a: Action): History
    requires a.Network? || Member(h, Actor(a))
  {
    match a
    case Timeout(v) => Vote(Stand(Bump(h, v, s.currentTerm + 1), v), v, v)
    case Client(v, command) =>
      if s.role.Leader? then Extend(h, v, Entry(|s.log| + 1, s.currentTerm, command)) else h
    case Deliver(m) => TrackMessage(h, s, m)
    case _ => h
  }

  function NoHistory(n: nat): History {
    History(seq(n, _ => 0), seq(n, _ => []), map[], map[], map[], map[], map[], map[], map[], seq(n, _ => 0))
  }

  // ---------------------------------------------------------------- what ties a history to the nodes and messages

  ghost predicate NodeLog(h: History, v: int, s: NodeState) {
    && Member(h, v) && h.terms[v] == s.currentTerm && h.logs[v] == s.log
    && (s.role.Candidate? ==>
          Key(s.currentTerm, v) in h.bids && h.bids[Key(s.currentTerm, v)] == s.log &&
          (s.currentTerm in h.leaders ==> h.leaders[s.currentTerm] != v))
    && (s.role.Leader? ==> LeadsOn(h, v, s.currentTerm, s.log))
  }

  predicate LeadsOn(h: History, v: int, term: nat, log: Log) {
    term in h.leaders && h.leaders[term] == v && term in h.leaderLogs && h.leaderLogs[term] == log
  }

  predicate CarriesPart(l: Log, a: Payload)
    requires a.AppendEntries?
  {
    && a.prevLogIndex + |a.entries| <= |l| && Fits(l, a.prevLogIndex, a.prevLogTerm)
    && a.entries == l[a.prevLogIndex..a.prevLogIndex + |a.entries|]
  }

  predicate PointsNowhere(a: Payload)
    requires a.AppendEntries?
  {
    a.prevLogIndex > 0 && a.prevLogTerm == 0 && a.entries == []
  }

  ghost predicate MessageLog(h: History, m: Message) {
    m.payload.AppendEntries? ==>
      var t := m.payload.term;
      && t in h.leaders && h.leaders[t] == m.sender && t in h.leaderLogs
      && (CarriesPart(h.leaderLogs[t], m.payload) || PointsNowhere(m.payload))
  }

  /** Event steps of node `v` leave everything recorded about the other nodes alone. */
  ghost predicate LogsAdvance(h: History, h': History, v: int) {
    && |h.terms| == |h'.terms| && |h.logs| == |h'.logs| && |h.accepted| == |h'.accepted|
    && (forall u | 0 <= u < |h.terms| && u != v :: h'.terms[u] == h.terms[u])
    && (forall u | 0 <= u < |h.logs| && u != v :: h'.logs[u] == h.logs[u])
    && (forall k | k in h.bids :: k in h'.bids && h'.bids[k] == h.bids[k])
    && (forall t | t in h.leaders :: t in h'.leaders && h'.leaders[t] == h.leaders[t])
    && (forall t | t in h'.leaders && t !in h.leaders :: h'.leaders[t] == v)
    && Grown(h.leaderLogs, h'.leaderLogs)
    && (forall t | t in h.leaderLogs && t in h.leaders && h.leaders[t] != v :: h'.leaderLogs[t] == h.leaderLogs[t])
  }

  lemma AdvanceTwice(h: History, h': History, h'': History, v: int)
    requires LogsAdvance(h, h', v) && LogsAdvance(h', h'', v)
    ensures LogsAdvance(h, h'', v)
  {
    GrownTwice(h.leaderLogs, h'.leaderLogs, h''.leaderLogs);
    assert forall t | t in h.leaderLogs :: t in h'.leaderLogs;
    hide Appended;
  }

  lemma OtherNodeLog(h: History, h': History, v: int, u: int, s: NodeState)
    requires NodeLog(h, u, s) && LogsAdvance(h, h', v) && u != v
    ensures NodeLog(h', u, s)
  {}

  lemma OldMessageLog(h: History, h': History, v: int, m: Message)
    requires MessageLog(h, m) && LogsAdvance(h, h', v)
    ensures MessageLog(h', m)
  {
    if m.payload.AppendEntries? {
      var a := m.payload;
      var l, l' := h.leaderLogs[a.term], h'.leaderLogs[a.term];
      if CarriesPart(l, a) {
        assert l[a.prevLogIndex..a.prevLogIndex + |a.entries|] == l'[a.prevLogIndex..a.prevLogIndex + |a.entries|];
      }
    }
  }

  // ---------------------------------------------------------------- each event advances the history

  lemma BumpAdvances(h: History, v: int, term: nat)
    requires Member(h, v)
    ensures LogsAdvance(h, Bump(h, v, term), v)
  {}

  lemma StandAdvances(h: History, v: int)
    requires CanStand(h, v)
    ensures LogsAdvance(h, Stand(h, v), v)
  {}

  lemma VoteAdvances(h: History, v: int, c: int)
    requires Member(h, v)
    ensures LogsAdvance(h, Vote(h, v, c), v)
  {}

  lemma LeadAdvances(h: History, v: int, q: set<int>)
    requires CanLead(h, v)
    ensures LogsAdvance(h, Lead(h, v, q), v)
  {}

  lemma ExtendAdvances(h: History, v: int, e: Entry)
    requires CanExtend(h, v, e)
    ensures LogsAdvance(h, Extend(h, v, e), v)
  {}

  lemma AcceptAdvances(h: History, v: int, log: Log, ack: nat)
    requires Member(h, v)
    ensures LogsAdvance(h, Accept(h, v, log, ack), v)
  {}

  // ---------------------------------------------------------------- handlers as events

  ghost predicate Local(n: nat, h: History, v: nat, s: NodeState) {
    NodeWf(n, v, s) && LogsInv(h) && NodeLog(h, v, s)
  }

  /** `h'` and `t` are what a step of node `v` makes of `h`, with every log still genuine. */
  ghost predicate StepsTo(h: History, h': History, v: nat, t: NodeState) {
    LogsInv(h') && LogsAdvance(h, h', v) && NodeLog(h', v, t)
  }

  lemma BidIsNew(n: nat, h: History, v: nat, s: NodeState)
    requires Local(n, h, v, s)
    ensures CanStand(Bump(h, v, s.currentTerm + 1), v)
  {
    hide Genuine, MonotoneUpTo;
  }

  lemma CandidateLink(n: nat, h: History, v: nat, s: NodeState)
    requires Local(n, h, v, s)
    ensures NodeLog(Track(h, s, Timeout(v)), v, StartElection(s).node)
  {
    hide Genuine, MonotoneUpTo, AllBelow, SegmentWf, ToPeers;
  }

  lemma StandAndVoteLogs(h: History, v: nat)
    requires LogsInv(h) && CanStand(h, v)
    ensures LogsInv(Vote(Stand(h, v), v, v)) && LogsAdvance(h, Vote(Stand(h, v), v, v), v)
  {
    StandLogs(h, v);
    StandAdvances(h, v);
    hide LogsInv, LogsAdvance;
    VoteLogs(Stand(h, v), v, v);
    VoteAdvances(Stand(h, v), v, v);
    AdvanceTwice(h, Stand(h, v), Vote(Stand(h, v), v, v), v);
  }

  lemma TimeoutLogs(n: nat, h: History, v: nat, s: NodeState)
    requires Local(n, h, v, s)
    ensures StepsTo(h, Track(h, s, Timeout(v)), v, StartElection(s).node)
  {
    hide Genuine, MonotoneUpTo, AllBelow, SegmentWf, LogsInv, LogsAdvance, NodeWf, StartElection, CanStand;
    var b := Bump(h, v, s.currentTerm + 1);
    BidIsNew(n, h, v, s);
    CandidateLink(n, h, v, s);
    BumpLogs(h, v, s.currentTerm + 1);
    BumpAdvances(h, v, s.currentTerm + 1);
    hide NodeLog;
    StandAndVoteLogs(b, v);
    AdvanceTwice(h, b, Vote(Stand(b, v), v, v), v);
  }

  lemma StepDownLogs(n: nat, h: History, v: nat, s: NodeState, term: nat)
    requires Local(n, h, v, s)
    ensures StepsTo(h, Bump(h, v, Higher(s.currentTerm, term)), v, MaybeStepDown(s, term))
  {
    hide Genuine, MonotoneUpTo, AllBelow, SegmentWf, LogsAdvance;
    BumpLogs(h, v, Higher(s.currentTerm, term));
    BumpAdvances(h, v, Higher(s.currentTerm, term));
    hide LogsInv;
  }

  lemma VoterLink(h: History, v: nat, c: int, s: NodeState)
    requires NodeLog(h, v, s)
    ensures NodeLog(Vote(h, v, c), v, s.(votedFor := c)) && NodeLog(Vote(h, v, c), v, s)
    ensures NodeLog(h, v, s.(votedFor := c))
  {}

  lemma VoteRequestLogs(n: nat, h: History, v: nat, s: NodeState, m: Message)
    requires Local(n, h, v, s) && m.payload.RequestVote? && m.receiver == v
    ensures StepsTo(h, TrackMessage(h, s, m), v, HandleRequestVote(s, m).node)
  {
    hide LogsInv, LogsAdvance, NodeWf, Grants;
    var b, c := Bump(h, v, Higher(s.currentTerm, m.payload.term)), m.payload.candidateId;
    StepDownLogs(n, h, v, s, m.payload.term);
    VoterLink(b, v, c, MaybeStepDown(s, m.payload.term));
    VoteLogs(b, v, c);
    VoteAdvances(b, v, c);
    AdvanceTwice(h, b, Vote(b, v, c), v);
    hide NodeLog, Bump, Vote;
  }

  /** Every AppendEntries a leader builds from its own log is backed by that log. */
  lemma SentMatches(h: History, v: nat, s: NodeState, p: int)
    requires NodeLog(h, v, s) && s.role.Leader? && s.id == v
    ensures MessageLog(h, AppendFor(s, p))
  {}

  lemma AllSentMatch(h: History, v: nat, s: NodeState)
    requires NodeLog(h, v, s) && s.role.Leader? && s.id == v
    ensures forall m | m in AppendsToPeers(s) :: MessageLog(h, m)
  {
    hide MessageLog;
    forall p ensures MessageLog(h, AppendFor(s, p)) { SentMatches(h, v, s, p); }
    hide AppendFor;
  }

  /** The candidate becomes the first leader of its term. */
  predicate FirstOfItsTerm(h: History, s: NodeState, m: Message)
    requires m.payload.RequestVoteReply?
  {
    var t := HandleRequestVoteReply(s, m).node;
    t.role.Leader? && !MaybeStepDown(s, m.payload.term).role.Leader? ==> t.currentTerm !in h.leaders
  }

  lemma WinnerLink(h: History, v: nat, s: NodeState, q: set<int>)
    requires LogsInv(h) && NodeLog(h, v, s) && s.role.Candidate? && s.currentTerm !in h.leaders
    ensures CanLead(h, v) && StepsTo(h, Lead(h, v, q), v, BecomeLeader(s).node)
  {
    hide Genuine, MonotoneUpTo, AllBelow, LogsAdvance, AppendsToPeers;
    assert CanLead(h, v);
    LeadLogs(h, v, q);
    LeadAdvances(h, v, q);
    hide LogsInv;
  }

  lemma VoteReplyLogs(n: nat, h: History, v: nat, s: NodeState, m: Message)
    requires Local(n, h, v, s) && m.payload.RequestVoteReply? && m.receiver == v
    requires FirstOfItsTerm(h, s, m)
    ensures StepsTo(h, TrackMessage(h, s, m), v, HandleRequestVoteReply(s, m).node)
    ensures forall o | o in HandleRequestVoteReply(s, m).sent :: MessageLog(TrackMessage(h, s, m), o)
  {
    hide LogsInv, LogsAdvance, NodeWf, MessageLog, AppendsToPeers;
    var b := Bump(h, v, Higher(s.currentTerm, m.payload.term));
    var s1 := MaybeStepDown(s, m.payload.term);
    StepDownLogs(n, h, v, s, m.payload.term);
    if s1.role.Candidate? {
      var s2 := if m.payload.voteGranted then s1.(votesReceived := s1.votesReceived + {m.sender}) else s1;
      assert NodeLog(b, v, s2);
      if |s2.votesReceived| >= Majority(ClusterSize(s2)) {
        assert s2.id == v by { IdOf(n, v, s); }
        WinnerLink(b, v, s2, s2.votesReceived);
        AdvanceTwice(h, b, Lead(b, v, s2.votesReceived), v);
        AllSentMatch(Lead(b, v, s2.votesReceived), v, BecomeLeader(s2).node);
      }
    }
    hide NodeLog;
  }

  /** A message that points past its sender's log is rejected by any well-formed log. */
  lemma NowhereRejected(log: Log, cap: nat, a: Payload)
    requires SegmentWf(log, 0, cap) && a.AppendEntries? && PointsNowhere(a)
    ensures !Fits(log, a.prevLogIndex, a.prevLogTerm)
  {
    assert a.prevLogIndex <= |log| ==> log[a.prevLogIndex - 1].term >= 1;
  }

  /** An accepted message carries part of the leader's log, and merging it absorbs that part. */
  lemma AcceptedAbsorbs(n: nat, h: History, v: nat, s: NodeState, m: Message)
    requires Local(n, h, v, s) && m.payload.AppendEntries? && MessageLog(h, m) && Accepts(s, m.payload)
    ensures var a := m.payload;
      CarriesPart(h.leaderLogs[a.term], a) &&
      Absorbs(s.log, h.leaderLogs[a.term], a.prevLogIndex + |a.entries|, Merged(s.log, a.prevLogIndex, a.entries))
  {
    hide Genuine, Matching, MonotoneUpTo, AllBelow, SegmentWf, Merged, Absorbs;
    var a := m.payload;
    if PointsNowhere(a) { NowhereRejected(s.log, s.currentTerm, a); }
    GenuineMatching(h.leaderLogs, s.log, h.leaderLogs[a.term]);
    SegmentAbsorbed(s.log, h.leaderLogs[a.term], a.prevLogIndex, a.prevLogTerm, a.prevLogIndex + |a.entries|);
  }

  lemma AcceptLink(h: History, v: nat, s: NodeState, log: Log, ack: nat, t: NodeState)
    requires NodeLog(h, v, s) && t.currentTerm == s.currentTerm && t.log == log && t.role.Follower?
    ensures NodeLog(Accept(h, v, log, ack), v, t)
  {}

  lemma AppendEntriesLogs(n: nat, h: History, v: nat, s: NodeState, m: Message)
    requires Local(n, h, v, s) && m.payload.AppendEntries? && m.receiver == v && m.sender != v && MessageLog(h, m)
    ensures StepsTo(h, TrackMessage(h, s, m), v, HandleAppendEntries(s, m).node)
  {
    hide LogsInv, LogsAdvance, NodeWf, Merged, Fits, FollowerCommit;
    var a, b := m.payload, Bump(h, v, Higher(s.currentTerm, m.payload.term));
    var s1, t := MaybeStepDown(s, a.term), HandleAppendEntries(s, m).node;
    StepDownLogs(n, h, v, s, a.term);
    if Accepts(s, a) {
      AcceptedAbsorbs(n, h, v, s, m);
      assert CanAccept(b, v, t.log, a.prevLogIndex + |a.entries|) by { FollowerCommitKeeps(); }
      AcceptLogs(b, v, t.log, |t.log|, a.prevLogIndex + |a.entries|);
      AcceptAdvances(b, v, t.log, |t.log|);
      AdvanceTwice(h, b, Accept(b, v, t.log, |t.log|), v);
      FollowerCommitKeeps();
      AcceptLink(b, v, s1, t.log, |t.log|, t);
    } else {
      assert NodeLog(b, v, s1.(role := Follower));
    }
  }

  lemma FollowerCommitKeeps()
    ensures forall x: NodeState, c: nat ::
      FollowerCommit(x, c).log == x.log && FollowerCommit(x, c).role == x.role && FollowerCommit(x, c).currentTerm == x.currentTerm
  {}

  lemma AppendReplyLogs(n: nat, h: History, v: nat, s: NodeState, m: Message)
    requires Local(n, h, v, s) && m.payload.AppendEntriesReply? && m.receiver == v
    ensures StepsTo(h, TrackMessage(h, s, m), v, HandleAppendEntriesReply(s, m).node)
  {
    StepDownLogs(n, h, v, s, m.payload.term);
    hide LogsInv, LogsAdvance, NodeWf, ScanDown;
    var b := Bump(h, v, Higher(s.currentTerm, m.payload.term));
    SameCoreLink(b, v, MaybeStepDown(s, m.payload.term), HandleAppendEntriesReply(s, m).node);
  }

  lemma SameCoreLink(h: History, v: nat, s: NodeState, t: NodeState)
    requires NodeLog(h, v, s) && t.currentTerm == s.currentTerm && t.log == s.log
    requires t.role == s.role || t.role.Follower?
    ensures NodeLog(h, v, t)
  {}

  lemma ClientLogs(n: nat, h: History, v: nat, s: NodeState, command: string)
    requires Local(n, h, v, s)
    ensures StepsTo(h, Track(h, s, Client(v, command)), v, Submit(s, command).node)
    ensures forall m | m in Submit(s, command).sent :: MessageLog(Track(h, s, Client(v, command)), m)
  {
    hide LogsInv, LogsAdvance, SegmentWf, AppendsToPeers;
    if s.role.Leader? {
      var e := Entry(|s.log| + 1, s.currentTerm, command);
      assert CanExtend(h, v, e);
      ExtendLogs(h, v, e);
      ExtendAdvances(h, v, e);
      AllSentMatch(Extend(h, v, e), v, Submit(s, command).node);
    } else {
      assert LogsAdvance(h, h, v) by { AdvancesSelf(h, v); }
    }
  }

  lemma AdvancesSelf(h: History, v: nat)
    ensures LogsAdvance(h, h, v)
  {}

  ghost predicate ElectsFirst(h: History, s: NodeState, a: Action) {
    a.Deliver? && a.m.payload.RequestVoteReply? ==> FirstOfItsTerm(h, s, a.m)
  }

  lemma MessageLogs(n: nat, h: History, v: nat, s: NodeState, m: Message)
    requires Local(n, h, v, s) && m.receiver == v && m.sender != v && MessageLog(h, m)
    requires m.payload.RequestVoteReply? ==> FirstOfItsTerm(h, s, m)
    ensures StepsTo(h, TrackMessage(h, s, m), v, Handle(s, m).node)
    ensures forall o | o in Handle(s, m).sent :: MessageLog(TrackMessage(h, s, m), o)
  {
    hide StepsTo, Local, TrackMessage, Grants, AdvanceCommit, Merged, FollowerCommit, Fits;
    match m.payload
    case RequestVote(_, _, _, _) => VoteRequestLogs(n, h, v, s, m);
    case RequestVoteReply(_, _) => VoteReplyLogs(n, h, v, s, m); hide HandleRequestVoteReply, MessageLog;
    case AppendEntries(_, _, _, _, _, _) => AppendEntriesLogs(n, h, v, s, m);
    case AppendEntriesReply(_, _, _) => AppendReplyLogs(n, h, v, s, m);
  }

  lemma EffectLogs(n: nat, h: History, v: nat, s: NodeState, a: Action)
    requires Local(n, h, v, s) && !a.Network? && Actor(a) == v && ElectsFirst(h, s, a)
    requires a.Deliver? ==> a.m.sender != v && MessageLog(h, a.m)
    ensures StepsTo(h, Track(h, s, a), v, Effect(s, a).node)
    ensures forall m | m in Effect(s, a).sent :: MessageLog(Track(h, s, a), m)
  {
    AdvancesSelf(h, v);
    match a
    case Timeout(_) => TimeoutLogs(n, h, v, s); hide StepsTo, Local, Track, NodeLog;
    case Client(_, command) => ClientLogs(n, h, v, s, command); hide StepsTo, Local, Track, Submit, MessageLog;
    case Deliver(m) => MessageLogs(n, h, v, s, m); hide StepsTo, Local, TrackMessage, Handle, MessageLog;
    case Tick(_) =>
      hide LogsInv, LogsAdvance, NodeWf;
      if s.role.Leader? { IdOf(n, v, s); AllSentMatch(h, v, s); }
      hide MessageLog, NodeLog;
    case Crash(_) => hide LogsInv, LogsAdvance, NodeWf;
    case Recover(_) => hide LogsInv, LogsAdvance, NodeWf;
  }

  lemma IdOf(n: nat, v: nat, s: NodeState)
    requires NodeWf(n, v, s)
    ensures s.id == v
  {}

  // ---------------------------------------------------------------- the whole cluster

  ghost predicate LogLinked(n: nat, h: History, c: Cluster) {
    && LogsInv(h) && |h.terms| == |c.nodes| == n
    && (forall v: nat | v < n :: NodeLog(h, v, c.nodes[v]))
    && (forall m | m in c.net :: MessageLog(h, m))
  }

  ghost function TrackStep(h: History, c: Cluster, a: Action): History
    requires Enabled(c, a) && |h.terms| == |h.logs| == |h.accepted| == |c.nodes|
  {
    if a.Network? then h else Track(h, c.nodes[Actor(a)], a)
  }

  lemma LinkedStep(n: nat, h: History, c: Cluster, a: Action)
    requires Wf(n, c) && LogLinked(n, h, c) && Enabled(c, a)
    requires !a.Network? ==> ElectsFirst(h, c.nodes[Actor(a)], a)
    ensures LogLinked(n, TrackStep(h, c, a), Apply(c, a))
    ensures a.Network? || LogsAdvance(h, TrackStep(h, c, a), Actor(a))
  {
    if a.Network? { return; }
    var v: nat := Actor(a);
    var h', c' := TrackStep(h, c, a), Apply(c, a);
    assert NodeWf(n, v, c.nodes[v]) && NodeLog(h, v, c.nodes[v]);
    assert a.Deliver? ==> MessageWf(n, a.m) && MessageLog(h, a.m);
    EffectLogs(n, h, v, c.nodes[v], a);
    hide LogsInv, MessageWf, NodeWf, Effect, Track, ElectsFirst, NodeLog;
    forall u: nat | u < n && u != v
      ensures NodeLog(h', u, c'.nodes[u])
    {
      OtherNodeLog(h, h', v, u, c.nodes[u]);
    }
    hide LogsAdvance;
    forall m | m in c.net
      ensures MessageLog(h', m)
    {
      OldMessageLog(h, h', v, m);
    }
    hide MessageLog;
  }
}
