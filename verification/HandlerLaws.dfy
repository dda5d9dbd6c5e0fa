/**
 * What each handler does, said on the fields and messages themselves: whom a node votes for, what it answers when
 * it refuses, what a heartbeat sends.
 */
module HandlerLaws {
  import opened RaftTypes
  import opened NodeSpec
  import opened RaftSystem
  import opened Basics
  import opened RunFacts

  // ---------------------------------------------------------------- votes

  /** `log` ends earlier than, or together with, a log with the given last term and length (Section 5.4.1). */
  predicate EndsNoLater(log: Log, lastTerm: nat, length: nat) {
    log == [] ||
    log[|log| - 1].term < lastTerm ||
    (log[|log| - 1].term == lastTerm && |log| <= length)
  }

  /**
   * A vote is granted exactly when the bid is not behind in term, the vote of its term is free or already this
   * candidate's, and the voter's log ends no later than the candidate's. The one reply says so in the later of
   * the two terms, a granted vote stays with the voter, and only a later term changes the role.
   */
  lemma GrantedIff(s: NodeState, m: Message)
    requires m.payload.RequestVote?
    ensures var a, out := m.payload, HandleRequestVote(s, m);
      && |out.sent| == 1 && out.sent[0].sender == s.id && out.sent[0].receiver == m.sender
      && out.sent[0].payload.RequestVoteReply?
      && out.sent[0].payload.term == out.node.currentTerm == (if a.term > s.currentTerm then a.term else s.currentTerm)
      && (Granted(out.sent[0]) <==>
            && a.term >= s.currentTerm
            && (a.term > s.currentTerm || s.votedFor == NOBODY || s.votedFor == a.candidateId)
            && EndsNoLater(s.log, a.lastLogTerm, a.lastLogIndex))
      && (out.node.votedFor ==
            if Granted(out.sent[0]) then a.candidateId else if a.term > s.currentTerm then NOBODY else s.votedFor)
      && out.node.role == (if a.term > s.currentTerm then Follower else s.role)
      && out.node.log == s.log && out.node.commitIndex == s.commitIndex && out.node.alive == s.alive
  {}

  lemma BidSays(s: NodeState, m: Message)
    requires m in StartElection(s).sent
    ensures m.payload == RequestVote(s.currentTerm + 1, s.id, |s.log|, if s.log == [] then 0 else s.log[|s.log| - 1].term)
    ensures m.sender == s.id && m.receiver in s.peers
  {}

  /** Of any two nodes one grants the other's bid of a term that is new to it. */
  lemma OneGrantsTheOther(s: NodeState, t: NodeState, bid: Message, rival: Message)
    requires bid in StartElection(s).sent && bid.payload.term > t.currentTerm
    requires rival in StartElection(t).sent && rival.payload.term > s.currentTerm
    ensures bid.payload.RequestVote? && rival.payload.RequestVote?
    ensures Granted(HandleRequestVote(t, bid).sent[0]) || Granted(HandleRequestVote(s, rival).sent[0])
  {
    BidSays(s, bid);
    BidSays(t, rival);
    GrantedIff(t, bid);
    GrantedIff(s, rival);
    hide HandleRequestVote, StartElection;
  }

  /** The holder of a prefix grants the bid of a holder of the whole, of a term that is new to it. */
  lemma PrefixHolderGrants(s: NodeState, t: NodeState, bid: Message, cap: nat)
    requires SegmentWf(s.log, 0, cap) && t.log <= s.log
    requires bid in StartElection(s).sent && bid.payload.term > t.currentTerm
    ensures bid.payload.RequestVote? && Granted(HandleRequestVote(t, bid).sent[0])
  {
    BidSays(s, bid);
    GrantedIff(t, bid);
    hide HandleRequestVote, StartElection;
    if t.log != [] && |t.log| < |s.log| { Ordered(s.log, 0, cap, |t.log| - 1, |s.log| - 1); }
  }

  // ---------------------------------------------------------------- refusals

  predicate Asks(m: Message) {
    m.payload.RequestVote? || m.payload.AppendEntries?
  }

  /** Whoever is behind is told the term it is behind of, and nothing else happens. */
  lemma StaleIsRefused(s: NodeState, m: Message)
    requires Asks(m) && m.payload.term < s.currentTerm
    ensures var out := Handle(s, m);
      && out.node == s && |out.sent| == 1
      && out.sent[0].sender == s.id && out.sent[0].receiver == m.sender && out.sent[0].payload.term == s.currentTerm
      && (if m.payload.RequestVote?
          then out.sent[0].payload.RequestVoteReply? && !out.sent[0].payload.voteGranted
          else out.sent[0].payload.AppendEntriesReply? && !out.sent[0].payload.success)
  {
    hide Merged, Fits, UpToDate;
  }

  /** And the answer makes the one who is behind a follower of that term, without a vote. */
  lemma RefusalStepsDown(s: NodeState, m: Message, t: NodeState)
    requires Asks(m) && m.payload.term < s.currentTerm && t.currentTerm < s.currentTerm
    ensures |Handle(s, m).sent| == 1
    ensures var u := Handle(t, Handle(s, m).sent[0]);
      && u.node.role.Follower? && u.node.currentTerm == s.currentTerm && u.node.votedFor == NOBODY && u.sent == []
      && u.node.log == t.log && u.node.commitIndex == t.commitIndex
  {
    StaleIsRefused(s, m);
    var o := Handle(s, m).sent[0];
    LaterReply(t, o);
    hide Handle;
  }

  lemma LaterReply(t: NodeState, o: Message)
    requires o.payload.RequestVoteReply? || o.payload.AppendEntriesReply?
    requires o.payload.term > t.currentTerm
    ensures var u := Handle(t, o);
      && u.node.role.Follower? && u.node.currentTerm == o.payload.term && u.node.votedFor == NOBODY && u.sent == []
      && u.node.log == t.log && u.node.commitIndex == t.commitIndex
  {
    hide ScanDown, AppendsToPeers;
  }

  /** A message that does not fit is answered with its own term; the receiver follows that term and keeps its log. */
  lemma UnfitIsRefused(s: NodeState, m: Message)
    requires m.payload.AppendEntries? && m.payload.term >= s.currentTerm && m.payload.prevLogIndex > 0
    requires m.payload.prevLogIndex <= |s.log| ==> s.log[m.payload.prevLogIndex - 1].term != m.payload.prevLogTerm
    ensures var out := Handle(s, m);
      && out.sent == [Message(s.id, m.sender, AppendEntriesReply(m.payload.term, false, 0))]
      && out.node.role.Follower? && out.node.currentTerm == m.payload.term
      && out.node.log == s.log && out.node.commitIndex == s.commitIndex
      && (m.payload.term == s.currentTerm ==> out.node.votedFor == s.votedFor)
  {}

  // ---------------------------------------------------------------- heartbeats

  /** `m` is an AppendEntries of the leader `s` to its peer `p`. */
  predicate RoundMessage(s: NodeState, p: int, m: Message) {
    && m.sender == s.id && m.receiver == p && m.payload.AppendEntries?
    && m.payload.term == s.currentTerm && m.payload.leaderId == s.id && m.payload.leaderCommit == s.commitIndex
  }

  predicate Reaches(s: NodeState, p: int, sent: seq<Message>) {
    exists i :: 0 <= i < |sent| && RoundMessage(s, p, sent[i])
  }

  /** Every peer of `v` gets exactly one such message, and nobody else gets any. */
  predicate FullRound(n: nat, v: nat, s: NodeState, sent: seq<Message>) {
    && |sent| == n - 1
    && (forall p | 0 <= p < n && p != v :: Reaches(s, p, sent))
    && (forall i, j | 0 <= i < j < |sent| :: sent[i].receiver != sent[j].receiver)
  }

  lemma RoundIsFull(n: nat, v: nat, s: NodeState)
    requires v < n && s.id == v && s.peers == PeersOf(n, v)
    ensures FullRound(n, v, s, AppendsToPeers(s))
  {
    PeersDistinct(n, v);
    hide NextOf;
    var sent := AppendsToPeers(s);
    forall p | 0 <= p < n && p != v
      ensures Reaches(s, p, sent)
    {
      PeersOfMembers(n, v, p);
      var i :| 0 <= i < |s.peers| && s.peers[i] == p;
      assert RoundMessage(s, p, sent[i]);
    }
  }

  /**
   * The tick of a live leader sends every peer exactly one AppendEntries of its current term and commitIndex, and
   * that of any other node sends nothing. No tick changes the node.
   */
  lemma TickSends(n: nat, v: nat, s: NodeState)
    requires NodeWf(n, v, s)
    ensures var out := Effect(s, Tick(v));
      out.node == s && if s.role.Leader? && s.alive then FullRound(n, v, s, out.sent) else out.sent == []
  {
    PeersIn(n, v, s);
    RoundIsFull(n, v, s);
    hide NodeWf, FullRound, AppendsToPeers;
  }

  /** A command given to a leader is its next entry, of its term, and goes out to every peer at once. */
  lemma SubmitSends(n: nat, v: nat, s: NodeState, command: string)
    requires NodeWf(n, v, s) && s.role.Leader?
    ensures var out := Effect(s, Client(v, command));
      && out.node == s.(log := s.log + [Entry(|s.log| + 1, s.currentTerm, command)])
      && FullRound(n, v, out.node, out.sent)
  {
    PeersIn(n, v, s);
    RoundIsFull(n, v, Effect(s, Client(v, command)).node);
    hide NodeWf, FullRound, AppendsToPeers;
  }

  /** A candidate that wins takes every peer to hold its whole log and to have acknowledged nothing, and tells them all. */
  lemma WinnerStarts(n: nat, v: nat, s: NodeState, m: Message)
    requires NodeWf(n, v, s) && s.role.Candidate? && Handle(s, m).node.role.Leader?
    ensures var out := Handle(s, m);
      && out.node.currentTerm == s.currentTerm && out.node.log == s.log
      && (forall p | p in s.peers :: NextOf(out.node, p) == |s.log| + 1 && MatchOf(out.node, p) == 0)
      && FullRound(n, v, out.node, out.sent)
  {
    PeersIn(n, v, s);
    OnlyVotesWin(s, m);
    var t := Handle(s, m).node;
    assert t.id == s.id && t.peers == s.peers && Handle(s, m).sent == AppendsToPeers(t) by {
      hide AppendsToPeers, Majority;
    }
    RoundIsFull(n, v, t);
    hide NodeWf, FullRound, AppendsToPeers, Majority;
  }

  lemma OnlyVotesWin(s: NodeState, m: Message)
    requires s.role.Candidate? && Handle(s, m).node.role.Leader?
    ensures m.payload.RequestVoteReply?
  {
    hide Merged, ScanDown, Grants, Fits, Majority, AppendsToPeers;
  }

  /** A node that stands votes for itself alone and asks every peer exactly once. */
  lemma StandingAsks(n: nat, v: nat, s: NodeState)
    requires NodeWf(n, v, s)
    ensures var out := Effect(s, Timeout(v));
      var t := out.node;
      && t == s.(role := Candidate, currentTerm := s.currentTerm + 1, votedFor := v, votesReceived := {v})
      && |out.sent| == n - 1
      && (forall i | 0 <= i < n - 1 :: out.sent[i].sender == v && 0 <= out.sent[i].receiver < n && out.sent[i].receiver != v)
      && (forall i | 0 <= i < n - 1 ::
            out.sent[i].payload ==
            RequestVote(t.currentTerm, v, |s.log|, if s.log == [] then 0 else s.log[|s.log| - 1].term))
      && (forall i, j | 0 <= i < j < n - 1 :: out.sent[i].receiver != out.sent[j].receiver)
  {
    PeersIn(n, v, s);
    PeersDistinct(n, v);
    hide NodeWf;
  }

  lemma PeersIn(n: nat, v: nat, s: NodeState)
    requires NodeWf(n, v, s)
    ensures s.id == v && s.peers == PeersOf(n, v)
  {}

  // ---------------------------------------------------------------- replies to a leader

  /** What a leader makes of an answer of its own term, for that peer and for the others. */
  lemma LeaderLearns(s: NodeState, m: Message)
    requires s.role.Leader? && m.payload.AppendEntriesReply? && m.payload.term == s.currentTerm
    ensures var out := Handle(s, m);
      var t, p := out.node, m.sender;
      && out.sent == [] && t.role.Leader? && t.currentTerm == s.currentTerm && t.log == s.log
      && (forall u | u != p :: MatchOf(t, u) == MatchOf(s, u) && NextOf(t, u) == NextOf(s, u))
      && (if m.payload.success
          then && MatchOf(t, p) >= m.payload.matchIndex && MatchOf(t, p) >= MatchOf(s, p)
               && (MatchOf(t, p) == m.payload.matchIndex || MatchOf(t, p) == MatchOf(s, p))
               && NextOf(t, p) == MatchOf(t, p) + 1
          else && MatchOf(t, p) == MatchOf(s, p) && t.commitIndex == s.commitIndex
               && NextOf(t, p) == if NextOf(s, p) > 1 then NextOf(s, p) - 1 else 1)
  {
    hide ScanDown;
  }

  // ---------------------------------------------------------------- what each handler may touch

  /** The fields a message of this kind may change; every other field of `t` is that of `s`. */
  predicate TouchedBy(m: Message, s: NodeState, t: NodeState) {
    match m.payload
    case RequestVote(_, _, _, _) => t == s.(currentTerm := t.currentTerm, role := t.role, votedFor := t.votedFor)
    case RequestVoteReply(_, _) =>
      t == s.(currentTerm := t.currentTerm, role := t.role, votedFor := t.votedFor, votesReceived := t.votesReceived,
              nextIndex := t.nextIndex, matchIndex := t.matchIndex)
    case AppendEntries(_, _, _, _, _, _) =>
      t == s.(currentTerm := t.currentTerm, role := t.role, votedFor := t.votedFor, log := t.log,
              commitIndex := t.commitIndex, lastApplied := t.lastApplied)
    case AppendEntriesReply(_, _, _) =>
      t == s.(currentTerm := t.currentTerm, role := t.role, votedFor := t.votedFor, nextIndex := t.nextIndex,
              matchIndex := t.matchIndex, commitIndex := t.commitIndex, lastApplied := t.lastApplied)
  }

  lemma VotesTouch(s: NodeState, m: Message)
    requires m.payload.RequestVote? || m.payload.RequestVoteReply?
    ensures TouchedBy(m, s, Handle(s, m).node)
  {
    hide AppendsToPeers, Majority, Grants;
  }

  lemma AppendsTouch(s: NodeState, m: Message)
    requires m.payload.AppendEntries?
    ensures TouchedBy(m, s, Handle(s, m).node)
  {
    hide Merged, Fits;
  }

  lemma RepliesTouch(s: NodeState, m: Message)
    requires m.payload.AppendEntriesReply?
    ensures TouchedBy(m, s, Handle(s, m).node)
  {
    hide ScanDown, Lookup, NextOf;
  }

  /** A handler changes no more than that. */
  lemma HandleTouches(s: NodeState, m: Message)
    ensures TouchedBy(m, s, Handle(s, m).node)
  {
    hide Handle, TouchedBy;
    match m.payload
    case RequestVote(_, _, _, _) => VotesTouch(s, m);
    case RequestVoteReply(_, _) => VotesTouch(s, m);
    case AppendEntries(_, _, _, _, _, _) => AppendsTouch(s, m);
    case AppendEntriesReply(_, _, _) => RepliesTouch(s, m);
  }

  /** A message of a later term makes its receiver a follower of that term, whatever it was, unless it votes in it. */
  lemma LaterTermFollows(s: NodeState, m: Message)
    requires m.payload.term > s.currentTerm
    ensures var t := Handle(s, m).node;
      t.role.Follower? && t.currentTerm == m.payload.term && (!m.payload.RequestVote? ==> t.votedFor == NOBODY)
  {
    hide Merged, ScanDown, AppendsToPeers, Lookup, NextOf, Majority, Grants, Fits;
  }
}
