/**
 * Acknowledgements and commits of the handlers as protocol events. With FreshVotes, FreshAcks and ExactAck
 * every matchIndex is a true acknowledgement and every commitIndex is covered by a majority of them.
 */
module AckLink {
  import opened RaftTypes
  import opened NodeSpec
  import opened Logs
  import opened Protocol
  import opened Completeness
  import opened LogLink

  // ---------------------------------------------------------------- commits

  /** A majority has held the leader's log of `term` through `i`, an entry of that term. */
  ghost predicate Committed(h: History, term: nat, i: nat) {
    OwnEntry(h, term, i) && exists q :: HeldBy(h, q, term, i)
  }

  ghost predicate HeldBy(h: History, q: set<int>, term: nat, i: nat) {
    IsQuorum(|h.terms|, q) && forall v | v in q :: Holds(h, v, term, i)
  }

  /** The commit of `i` in `term` covers index `k`, as known to a node in term `now`. */
  ghost predicate Covers(h: History, term: nat, i: nat, now: nat, k: nat) {
    term <= now && k <= i && Committed(h, term, i)
  }

  ghost predicate Covered(h: History, now: nat, k: nat) {
    k == 0 || exists t: nat, i: nat :: Covers(h, t, i, now, k)
  }

  ghost predicate CoveredOn(h: History, log: Log, now: nat, k: nat) {
    k == 0 || exists t: nat, i: nat :: Covers(h, t, i, now, k) && SameThrough(h, t, log, k)
  }

  lemma CommittedChoosable(h: History, term: nat, i: nat)
    requires Committed(h, term, i)
    ensures Choosable(h, term, i)
  {
    hide IsQuorum, Holds;
    var q :| HeldBy(h, q, term, i);
    assert SupportedBy(h, q, term, i) by {
      assert forall v | v in q :: 0 <= v < |h.terms| by { QuorumMembers(h, q); }
    }
  }

  lemma QuorumMembers(h: History, q: set<int>)
    requires IsQuorum(|h.terms|, q)
    ensures forall v | v in q :: 0 <= v < |h.terms|
  {}

  /** Leader Completeness: a committed entry is in the log of every leader of a term at least as late. */
  lemma CommittedInLeader(h: History, term: nat, i: nat, later: nat)
    requires CoreInv(h) && Committed(h, term, i) && term <= later && later in h.leaderLogs
    ensures SameThrough(h, term, h.leaderLogs[later], i)
  {
    hide LogsInv, VotesInv;
    CommittedChoosable(h, term, i);
    hide Choosable, Committed;
    assert Complete(h, term, later, i);
  }

  // ---------------------------------------------------------------- what ties acknowledgements to the cluster

  ghost predicate NodeAck(h: History, v: int, s: NodeState) {
    && s.lastApplied == s.commitIndex
    && CoveredOn(h, s.log, s.currentTerm, s.commitIndex)
    && (s.role.Leader? ==>
          && Holds(h, v, s.currentTerm, |s.log|)
          && (forall p :: MatchOf(s, p) > 0 ==> Holds(h, p, s.currentTerm, MatchOf(s, p)))
          && (forall p | p in s.nextIndex :: s.nextIndex[p] <= |s.log| + 1))
  }

  ghost predicate ReplyAck(h: History, m: Message)
    requires m.payload.AppendEntriesReply?
  {
    var t := m.payload.term;
    t in h.leaders && h.leaders[t] == m.receiver
    && (m.payload.matchIndex > 0 ==> Holds(h, m.sender, t, m.payload.matchIndex))
  }

  ghost predicate MessageAck(h: History, m: Message) {
    && (m.payload.AppendEntriesReply? && m.payload.success ==> ReplyAck(h, m))
    && (m.payload.AppendEntries? ==>
          && Covered(h, m.payload.term, m.payload.leaderCommit)
          && (PointsNowhere(m.payload) ||
              m.payload.leaderCommit <= m.payload.prevLogIndex + |m.payload.entries|))
  }

  /** Every node holds what it acknowledged until it accepts entries of a later leader. */
  ghost predicate HeldInv(h: History) {
    && |h.accepted| == |h.terms| == |h.logs|
    && (forall v | 0 <= v < |h.accepted| :: h.accepted[v] <= h.terms[v])
    && (forall k | k in h.acks :: StillHeld(h, k))
  }

  ghost predicate StillHeld(h: History, k: Key) {
    k in h.acks && 0 <= k.node < |h.accepted| && k.node < |h.logs| &&
    (h.accepted[k.node] <= k.term ==> SameThrough(h, k.term, h.logs[k.node], h.acks[k]))
  }

  // ---------------------------------------------------------------- histories only grow

  ghost predicate AcksAdvance(h: History, h': History) {
    && |h.terms| == |h'.terms| && Grown(h.leaderLogs, h'.leaderLogs)
    && (forall k | k in h.acks :: k in h'.acks && h.acks[k] <= h'.acks[k])
    && (forall t | t in h.leaders :: t in h'.leaders && h'.leaders[t] == h.leaders[t])
  }

  lemma HoldsLater(h: History, h': History, v: int, term: nat, i: nat)
    requires AcksAdvance(h, h') && Holds(h, v, term, i)
    ensures Holds(h', v, term, i)
  {}

  lemma SameThroughLater(h: History, h': History, term: nat, log: Log, i: nat)
    requires AcksAdvance(h, h') && SameThrough(h, term, log, i)
    ensures SameThrough(h', term, log, i)
  {
    AgreeSymmetric(h.leaderLogs[term], log, i);
    AgreeExtended(log, h.leaderLogs[term], h'.leaderLogs[term], i);
    AgreeSymmetric(h'.leaderLogs[term], log, i);
  }

  lemma CoversLater(h: History, h': History, term: nat, i: nat, now: nat, k: nat)
    requires AcksAdvance(h, h') && Covers(h, term, i, now, k)
    ensures Covers(h', term, i, now, k)
  {
    hide IsQuorum;
    var q :| HeldBy(h, q, term, i);
    assert HeldBy(h', q, term, i);
    assert h.leaderLogs[term] <= h'.leaderLogs[term];
  }

  lemma CoveredLater(h: History, h': History, now: nat, later: nat, k: nat)
    requires AcksAdvance(h, h') && Covered(h, now, k) && now <= later
    ensures Covered(h', later, k)
  {
    hide Committed;
    if k > 0 {
      var t: nat, i: nat :| Covers(h, t, i, now, k);
      CoversLater(h, h', t, i, now, k);
      assert Covers(h', t, i, later, k);
    }
  }

  lemma CoveredOnLater(h: History, h': History, log: Log, log': Log, now: nat, later: nat, k: nat)
    requires AcksAdvance(h, h') && CoveredOn(h, log, now, k) && now <= later && log <= log'
    ensures CoveredOn(h', log', later, k)
  {
    hide Committed;
    if k > 0 {
      var t: nat, i: nat :| Covers(h, t, i, now, k) && SameThrough(h, t, log, k);
      CoversLater(h, h', t, i, now, k);
      AgreeExtended(h.leaderLogs[t], log, log', k);
      SameThroughLater(h, h', t, log', k);
      assert Covers(h', t, i, later, k);
    }
  }

  lemma OtherNodeAck(h: History, h': History, v: int, s: NodeState)
    requires NodeAck(h, v, s) && AcksAdvance(h, h')
    ensures NodeAck(h', v, s)
  {
    CoveredOnLater(h, h', s.log, s.log, s.currentTerm, s.currentTerm, s.commitIndex);
    hide CoveredOn, Grown;
  }

  lemma OldMessageAck(h: History, h': History, m: Message)
    requires MessageAck(h, m) && AcksAdvance(h, h')
    ensures MessageAck(h', m)
  {
    if m.payload.AppendEntries? { CoveredLater(h, h', m.payload.term, m.payload.term, m.payload.leaderCommit); }
    hide Covered, Grown;
  }

  lemma AcksAdvanceTwice(h: History, h': History, h'': History)
    requires AcksAdvance(h, h') && AcksAdvance(h', h'')
    ensures AcksAdvance(h, h'')
  {
    GrownTwice(h.leaderLogs, h'.leaderLogs, h''.leaderLogs);
    hide Grown;
  }

  // ---------------------------------------------------------------- events

  /** Everything the three hypotheses buy, on the history alone. */
  ghost predicate FullInv(h: History) {
    CoreInv(h) && HeldInv(h)
  }

  ghost predicate FullStep(h: History, h': History) {
    FullInv(h') && AcksAdvance(h, h')
  }

  lemma AcksOf(h: History)
    requires CoreInv(h)
    ensures AcksInv(h)
  {
    hide LogsInv, VotesInv;
  }

  /** Events that touch no log, acknowledgement or acceptance. */
  lemma QuietHeld(h: History, h': History)
    requires HeldInv(h) && h'.acks == h.acks && h'.logs == h.logs && h'.leaderLogs == h.leaderLogs
    requires h'.accepted == h.accepted && h'.leaders == h.leaders && |h'.terms| == |h.terms|
    requires forall v | 0 <= v < |h.terms| :: h.terms[v] <= h'.terms[v]
    ensures HeldInv(h') && AcksAdvance(h, h')
  {
    hide Agree;
    assert forall k | k in h'.acks :: StillHeld(h, k);
  }

  lemma BumpFull(h: History, v: int, term: nat)
    requires FullInv(h) && CanBump(h, v, term)
    ensures FullStep(h, Bump(h, v, term))
  {
    BumpCore(h, v, term);
    QuietHeld(h, Bump(h, v, term));
    hide CoreInv, HeldInv, AcksAdvance;
  }

  lemma StandFull(h: History, v: int)
    requires FullInv(h) && CanStand(h, v)
    ensures FullStep(h, Stand(h, v))
  {
    StandCore(h, v);
    QuietHeld(h, Stand(h, v));
    hide CoreInv, HeldInv, AcksAdvance, CanStand;
  }

  lemma VoteFull(h: History, v: int, c: int)
    requires FullInv(h) && CanVote(h, v, c)
    ensures FullStep(h, Vote(h, v, c))
  {
    VoteCore(h, v, c);
    QuietHeld(h, Vote(h, v, c));
    hide CoreInv, HeldInv, AcksAdvance, CanVote;
  }

  lemma LeadHeld(h: History, v: int, q: set<int>)
    requires HeldInv(h) && AcksInv(h) && CanLead(h, v)
    ensures HeldInv(Lead(h, v, q)) && AcksAdvance(h, Lead(h, v, q))
  {
    var h' := Lead(h, v, q);
    forall k | k in h'.acks
      ensures StillHeld(h', k)
    {
      if k != Key(h.terms[v], v) { assert StillHeld(h, k); }
    }
    hide StillHeld, Agree;
  }

  lemma LeadFull(h: History, v: int, q: set<int>)
    requires FullInv(h) && CanLead(h, v) && Elected(h, v, q)
    ensures FullStep(h, Lead(h, v, q))
  {
    LeadCore(h, v, q);
    AcksOf(h);
    LeadHeld(h, v, q);
    hide CoreInv, HeldInv, AcksAdvance, CanLead, Elected;
  }

  lemma ExtendStillHeld(h: History, v: int, e: Entry, k: Key)
    requires HeldInv(h) && AcksInv(h) && CanExtend(h, v, e) && k in Extend(h, v, e).acks
    ensures StillHeld(Extend(h, v, e), k)
  {
    if k != Key(h.terms[v], v) {
      assert StillHeld(h, k);
      if h.accepted[k.node] <= k.term {
        ExtendSameThrough(h, v, e, k.term, h.logs[k.node], Extend(h, v, e).logs[k.node], h.acks[k]);
      }
    }
  }

  lemma ExtendHeld(h: History, v: int, e: Entry)
    requires HeldInv(h) && AcksInv(h) && CanExtend(h, v, e)
    ensures HeldInv(Extend(h, v, e)) && AcksAdvance(h, Extend(h, v, e))
  {
    var h' := Extend(h, v, e);
    forall k | k in h'.acks ensures StillHeld(h', k) { ExtendStillHeld(h, v, e, k); }
    hide StillHeld;
  }

  lemma ExtendFull(h: History, v: int, e: Entry)
    requires FullInv(h) && CanExtend(h, v, e)
    ensures FullStep(h, Extend(h, v, e))
  {
    ExtendCore(h, v, e);
    AcksOf(h);
    ExtendHeld(h, v, e);
    hide CoreInv, HeldInv, AcksAdvance, CanExtend;
  }

  lemma AcceptStillHeld(h: History, v: int, log: Log, ack: nat, end: nat, k: Key)
    requires HeldInv(h) && AcksInv(h) && CanAccept(h, v, log, end) && AcksExactly(h, v, log, ack)
    requires k in Accept(h, v, log, ack).acks
    ensures StillHeld(Accept(h, v, log, ack), k)
  {
    var term, h' := h.terms[v], Accept(h, v, log, ack);
    if k == Key(term, v) {
      var source := h.leaderLogs[term];
      AgreeSymmetric(log, source, h'.acks[k]);
      if ack <= Acked(h, v) && k in h.acks {
        assert StillHeld(h, k);
        AgreeSymmetric(h.logs[v], source, h.acks[k]);
        AbsorbKeeps(h.logs[v], source, end, log, h.acks[k]);
        AgreeSymmetric(log, source, h.acks[k]);
      }
    } else {
      assert StillHeld(h, k);
    }
  }

  lemma AcceptHeld(h: History, v: int, log: Log, ack: nat, end: nat)
    requires HeldInv(h) && AcksInv(h) && CanAccept(h, v, log, end) && AcksExactly(h, v, log, ack)
    ensures HeldInv(Accept(h, v, log, ack)) && AcksAdvance(h, Accept(h, v, log, ack))
  {
    var h' := Accept(h, v, log, ack);
    forall k | k in h'.acks ensures StillHeld(h', k) { AcceptStillHeld(h, v, log, ack, end, k); }
    hide StillHeld, Absorbs, Agree;
  }

  lemma AcceptFull(h: History, v: int, log: Log, ack: nat, end: nat)
    requires FullInv(h) && CanAccept(h, v, log, end) && AcksExactly(h, v, log, ack)
    ensures FullStep(h, Accept(h, v, log, ack))
  {
    AcceptCore(h, v, log, ack, end);
    AcksOf(h);
    AcceptHeld(h, v, log, ack, end);
    hide CoreInv, HeldInv, AcksAdvance, CanAccept, AcksExactly;
  }
}
