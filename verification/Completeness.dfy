/**
 * Leader Completeness (Section 5.4.3 of the Raft paper) on histories: each of the six events keeps the
 * invariant that every later leader holds whatever may still be committed.
 */
module Completeness {
  import opened RaftTypes
  import opened NodeSpec
  import opened Logs
  import opened Protocol

  ghost predicate CoreInv(h: History) {
    LogsInv(h) && VotesInv(h) && ChoiceInv(h)
  }

  // ---------------------------------------------------------------- terms, candidacies and votes

  /** Events that touch no log, no vote log and no acknowledgement. */
  lemma QuietChoice(h: History, h': History)
    requires ChoiceInv(h) && NoNewSupport(h, h')
    requires h'.acks == h.acks && h'.logs == h.logs && h'.leaderLogs == h.leaderLogs && h'.voteLogs == h.voteLogs
    ensures ChoiceInv(h')
  {
    hide Agree, Choosable, NoNewSupport;
    forall t: nat, i: nat | Choosable(h', t, i) ensures Choosable(h, t, i) { ChoosableBefore(h, h', t, i); }
    forall t: nat, u: nat, i: nat ensures Complete(h', t, u, i) { assert Complete(h, t, u, i); }
    forall t: nat, v: int, i: nat ensures Retained(h', t, v, i) { assert Retained(h, t, v, i); }
    forall t: nat, k: Key, i: nat ensures HeldAtVote(h', t, k, i) { assert HeldAtVote(h, t, k, i); }
    assert AcksInv(h') by { QuietAcks(h, h'); }
  }

  lemma QuietAcks(h: History, h': History)
    requires AcksInv(h) && NoNewSupport(h, h') && h'.acks == h.acks && h'.leaderLogs == h.leaderLogs
    ensures AcksInv(h')
  {}

  lemma BumpCore(h: History, v: int, term: nat)
    requires CoreInv(h) && CanBump(h, v, term)
    ensures CoreInv(Bump(h, v, term))
  {
    BumpLogs(h, v, term);
    BumpVotes(h, v, term);
    QuietChoice(h, Bump(h, v, term));
  }

  lemma StandCore(h: History, v: int)
    requires CoreInv(h) && CanStand(h, v)
    ensures CoreInv(Stand(h, v))
  {
    StandLogs(h, v);
    StandVotes(h, v);
    QuietChoice(h, Stand(h, v));
  }

  lemma VoteChoice(h: History, v: int, c: int)
    requires ChoiceInv(h) && CanVote(h, v, c)
    ensures ChoiceInv(Vote(h, v, c))
  {
    hide Agree, Choosable, UpToDate, LastTerm;
    var h' := Vote(h, v, c);
    assert NoNewSupport(h, h');
    forall t: nat, i: nat | Choosable(h', t, i) ensures Choosable(h, t, i) { ChoosableBefore(h, h', t, i); }
    forall t: nat, u: nat, i: nat ensures Complete(h', t, u, i) { assert Complete(h, t, u, i); }
    forall t: nat, u: int, i: nat ensures Retained(h', t, u, i) { assert Retained(h, t, u, i); }
    forall t: nat, k: Key, i: nat
      ensures HeldAtVote(h', t, k, i)
    {
      assert HeldAtVote(h, t, k, i);
      assert Retained(h, t, v, i);
    }
  }

  lemma VoteCore(h: History, v: int, c: int)
    requires CoreInv(h) && CanVote(h, v, c)
    ensures CoreInv(Vote(h, v, c))
  {
    VoteLogs(h, v, c);
    VoteVotes(h, v, c);
    VoteChoice(h, v, c);
  }

  // ---------------------------------------------------------------- elections

  /** A bid at least as up to date as a log holding the entry, in either case of the comparison. */
  lemma UpToDateContains(h: History, term: nat, i: nat, bid: Log, voter: Log, later: nat)
    requires LogsInv(h) && OwnEntry(h, term, i) && SameThrough(h, term, voter, i)
    requires Genuine(h.leaderLogs, bid) && Genuine(h.leaderLogs, voter) && AllBelow(bid, later)
    requires UpToDate(|bid|, LastTerm(bid), voter)
    requires forall u: nat | term < u < later && u in h.leaderLogs :: SameThrough(h, term, h.leaderLogs[u], i)
    ensures SameThrough(h, term, bid, i)
  {
    var own := h.leaderLogs[term];
    AgreeEntry(own, voter, i, i - 1);
    GenuineMonotone(h.leaderLogs, voter, i - 1, |voter| - 1);
    if LastTerm(bid) == LastTerm(voter) {
      assert bid != [];
      assert Backed(h.leaderLogs, bid, |bid| - 1) && Backed(h.leaderLogs, voter, |voter| - 1);
      var top := h.leaderLogs[LastTerm(bid)];
      AgreeShorter(bid, top, |bid|, i);
      AgreeShorter(voter, top, |voter|, i);
    } else {
      NewerBidContains(h, term, i, bid, later);
    }
  }

  lemma NewerBidContains(h: History, term: nat, i: nat, bid: Log, later: nat)
    requires LogsInv(h) && OwnEntry(h, term, i)
    requires Genuine(h.leaderLogs, bid) && AllBelow(bid, later) && LastTerm(bid) > term
    requires forall u: nat | term < u < later && u in h.leaderLogs :: SameThrough(h, term, h.leaderLogs[u], i)
    ensures SameThrough(h, term, bid, i)
  {
    hide MonotoneUpTo;
    var own, u := h.leaderLogs[term], LastTerm(bid);
    assert Backed(h.leaderLogs, bid, |bid| - 1);
    var top := h.leaderLogs[u];
    assert SameThrough(h, term, top, i);
    AgreeEntry(own, top, i, i - 1);
    AgreeEntry(bid, top, |bid|, |bid| - 1);
    if |bid| < i {
      GenuineMonotone(h.leaderLogs, top, |bid| - 1, i - 1);
      assert false;
    }
    AgreeShorter(bid, top, |bid|, i);
  }

  /** The new leader already holds whatever may still be committed from an earlier term. */
  lemma ElectionContains(h: History, v: int, q: set<int>, term: nat, i: nat)
    requires CoreInv(h) && CanLead(h, v) && Elected(h, v, q) && term < h.terms[v]
    requires OwnEntry(h, term, i) && Choosable(h, term, i)
    ensures SameThrough(h, term, h.logs[v], i)
  {
    hide IsQuorum, Agree, UpToDate, LastTerm, Genuine, MonotoneUpTo, AllBelow;
    var later := h.terms[v];
    var q' :| SupportedBy(h, q', term, i);
    var u := QuorumsMeet(|h.terms|, q, q');
    var k := Key(later, u);
    assert VoteInv(h, k);
    assert Supports(h, u, term, i);
    assert HeldAtVote(h, term, k, i);
    forall t: nat | term < t < later && t in h.leaderLogs
      ensures SameThrough(h, term, h.leaderLogs[t], i)
    {
      assert Complete(h, term, t, i);
    }
    UpToDateContains(h, term, i, h.logs[v], h.voteLogs[k], later);
  }

  lemma LeadOwnEntries(h: History, v: int, q: set<int>, term: nat, i: nat)
    requires LogsInv(h) && CanLead(h, v)
    ensures OwnEntry(Lead(h, v, q), term, i) ==> term != h.terms[v] && OwnEntry(h, term, i)
  {}

  lemma LeadSupport(h: History, v: int, q: set<int>)
    requires CanLead(h, v)
    ensures NoNewSupport(h, Lead(h, v, q))
  {}

  lemma LeadChoice(h: History, v: int, q: set<int>)
    requires CoreInv(h) && CanLead(h, v) && Elected(h, v, q)
    ensures ChoiceInv(Lead(h, v, q))
  {
    hide Agree, Choosable, Elected, VotesInv, LogsInv, NoNewSupport;
    var h' := Lead(h, v, q);
    LeadSupport(h, v, q);
    forall t: nat, i: nat | Choosable(h', t, i) ensures Choosable(h, t, i) { ChoosableBefore(h, h', t, i); }
    forall t: nat, i: nat | OwnEntry(h', t, i)
      ensures t != h.terms[v] && OwnEntry(h, t, i)
    {
      LeadOwnEntries(h, v, q, t, i);
    }
    forall t: nat, u: nat, i: nat
      ensures Complete(h', t, u, i)
    {
      assert Complete(h, t, u, i);
      if u == h.terms[v] && t < u && OwnEntry(h', t, i) && Choosable(h', t, i) {
        ElectionContains(h, v, q, t, i);
      }
    }
    forall t: nat, u: int, i: nat ensures Retained(h', t, u, i) { assert Retained(h, t, u, i); }
    forall t: nat, k: Key, i: nat ensures HeldAtVote(h', t, k, i) { assert HeldAtVote(h, t, k, i); }
  }

  lemma LeadCore(h: History, v: int, q: set<int>)
    requires CoreInv(h) && CanLead(h, v) && Elected(h, v, q)
    ensures CoreInv(Lead(h, v, q))
  {
    LeadLogs(h, v, q);
    LeadVotes(h, v, q);
    LeadChoice(h, v, q);
  }

  // ---------------------------------------------------------------- appends

  lemma ExtendSupport(h: History, v: int, e: Entry)
    requires AcksInv(h) && CanExtend(h, v, e)
    ensures NoNewSupport(h, Extend(h, v, e))
  {}

  lemma ExtendAcks(h: History, v: int, e: Entry)
    requires AcksInv(h) && CanExtend(h, v, e)
    ensures AcksInv(Extend(h, v, e))
  {}

  /** The appended entry is held by nobody else yet, so no later leader can be bound by it. */
  lemma FreshEntryHeld(h: History, v: int, e: Entry, u: int, i: nat)
    requires AcksInv(h) && CanExtend(h, v, e) && i == |h.logs[v]| + 1
    requires Holds(Extend(h, v, e), u, h.terms[v], i)
    ensures u == v
  {}

  lemma FreshEntryOpen(h: History, v: int, e: Entry, later: nat, i: nat)
    requires CoreInv(h) && CanExtend(h, v, e) && i == |h.logs[v]| + 1
    requires h.terms[v] < later && later in h.leaders
    ensures !Choosable(Extend(h, v, e), h.terms[v], i)
  {
    hide IsQuorum, Holds, UpToDate, LastTerm, Genuine, Agree;
    var h' := Extend(h, v, e);
    if Choosable(h', h.terms[v], i) {
      ExtendVotes(h, v, e);
      var u := ChosenIsHeld(h', h.terms[v], later, i);
      FreshEntryHeld(h, v, e, u, i);
      assert false;
    }
  }

  lemma ExtendVotes(h: History, v: int, e: Entry)
    requires VotesInv(h) && CanExtend(h, v, e)
    ensures VotesInv(Extend(h, v, e))
  {
    FrameVotes(h, Extend(h, v, e));
  }

  /** Below the appended entry nothing changed: agreement with any log is as before. */
  lemma ExtendSameThrough(h: History, v: int, e: Entry, t: nat, log: Log, log': Log, i: nat)
    requires CanExtend(h, v, e) && SameThrough(h, t, log, i) && log <= log'
    ensures SameThrough(Extend(h, v, e), t, log', i)
  {
    var own, own' := h.leaderLogs[t], Extend(h, v, e).leaderLogs[t];
    assert own[..i] == own'[..i] && log[..i] == log'[..i];
  }

  lemma ExtendOwnEntry(h: History, v: int, e: Entry, t: nat, i: nat)
    requires CanExtend(h, v, e) && OwnEntry(Extend(h, v, e), t, i)
    ensures OwnEntry(h, t, i) || (t == h.terms[v] && i == |h.logs[v]| + 1)
  {}

  lemma ExtendHolds(h: History, v: int, e: Entry, t: nat, u: int, i: nat)
    requires AcksInv(h) && CanExtend(h, v, e) && Holds(Extend(h, v, e), u, t, i)
    ensures Holds(h, u, t, i) || (u == v && t == h.terms[v])
  {}

  lemma ExtendChoosable(h: History, v: int, e: Entry, t: nat, i: nat)
    requires AcksInv(h) && CanExtend(h, v, e) && Choosable(Extend(h, v, e), t, i)
    ensures Choosable(h, t, i)
  {
    ExtendSupport(h, v, e);
    ChoosableBefore(h, Extend(h, v, e), t, i);
  }

  lemma ExtendComplete(h: History, v: int, e: Entry, t: nat, u: nat, i: nat)
    requires CoreInv(h) && CanExtend(h, v, e)
    ensures Complete(Extend(h, v, e), t, u, i)
  {
    var h' := Extend(h, v, e);
    if t < u && u in h'.leaderLogs && OwnEntry(h', t, i) && Choosable(h', t, i) {
      ExtendOwnEntry(h, v, e, t, i);
      if OwnEntry(h, t, i) {
        ExtendChoosable(h, v, e, t, i);
        assert Complete(h, t, u, i);
        ExtendSameThrough(h, v, e, t, h.leaderLogs[u], h'.leaderLogs[u], i);
      } else {
        FreshEntryOpen(h, v, e, u, i);
      }
    }
  }

  lemma ExtendRetained(h: History, v: int, e: Entry, t: nat, u: int, i: nat)
    requires CoreInv(h) && CanExtend(h, v, e)
    ensures Retained(Extend(h, v, e), t, u, i)
  {
    hide VotesInv, LogsInv, Choosable;
    var h' := Extend(h, v, e);
    if 0 <= u < |h'.logs| && OwnEntry(h', t, i) && Holds(h', u, t, i) && Choosable(h', t, i) {
      if u == v && t == h.terms[v] {
        assert h'.leaderLogs[t] == h'.logs[v];
      } else {
        ExtendOwnEntry(h, v, e, t, i);
        ExtendHolds(h, v, e, t, u, i);
        ExtendChoosable(h, v, e, t, i);
        assert Retained(h, t, u, i);
        ExtendSameThrough(h, v, e, t, h.logs[u], h'.logs[u], i);
      }
    }
  }

  lemma ExtendHeldAtVote(h: History, v: int, e: Entry, t: nat, k: Key, i: nat)
    requires CoreInv(h) && CanExtend(h, v, e)
    ensures HeldAtVote(Extend(h, v, e), t, k, i)
  {
    hide LogsInv, Choosable, UpToDate, LastTerm;
    var h' := Extend(h, v, e);
    if t < k.term && k in h'.voteLogs && OwnEntry(h', t, i) && Holds(h', k.node, t, i) && Choosable(h', t, i) {
      assert VoteInv(h, k);
      ExtendOwnEntry(h, v, e, t, i);
      ExtendHolds(h, v, e, t, k.node, i);
      ExtendChoosable(h, v, e, t, i);
      assert HeldAtVote(h, t, k, i);
      ExtendSameThrough(h, v, e, t, h.voteLogs[k], h.voteLogs[k], i);
    }
  }

  lemma ExtendCore(h: History, v: int, e: Entry)
    requires CoreInv(h) && CanExtend(h, v, e)
    ensures CoreInv(Extend(h, v, e))
  {
    ExtendLogs(h, v, e);
    ExtendVotes(h, v, e);
    ExtendAcks(h, v, e);
    forall t: nat, u: nat, i: nat ensures Complete(Extend(h, v, e), t, u, i) { ExtendComplete(h, v, e, t, u, i); }
    forall t: nat, u: int, i: nat ensures Retained(Extend(h, v, e), t, u, i) { ExtendRetained(h, v, e, t, u, i); }
    forall t: nat, k: Key, i: nat ensures HeldAtVote(Extend(h, v, e), t, k, i) { ExtendHeldAtVote(h, v, e, t, k, i); }
  }

  // ---------------------------------------------------------------- accepted entries

  lemma AcceptSupport(h: History, v: int, log: Log, ack: nat)
    requires Member(h, v)
    ensures NoNewSupport(h, Accept(h, v, log, ack))
  {}

  lemma AcceptAcks(h: History, v: int, log: Log, ack: nat, end: nat)
    requires AcksInv(h) && CanAccept(h, v, log, end) && AcksExactly(h, v, log, ack)
    ensures AcksInv(Accept(h, v, log, ack))
  {
    hide Absorbs;
  }

  lemma AcceptChoosable(h: History, v: int, log: Log, ack: nat, t: nat, i: nat)
    requires Member(h, v) && Choosable(Accept(h, v, log, ack), t, i)
    ensures Choosable(h, t, i)
  {
    AcceptSupport(h, v, log, ack);
    ChoosableBefore(h, Accept(h, v, log, ack), t, i);
  }

  lemma AcceptHolds(h: History, v: int, log: Log, ack: nat, t: nat, u: int, i: nat)
    requires Member(h, v) && Holds(Accept(h, v, log, ack), u, t, i)
    ensures Holds(h, u, t, i) || (u == v && t == h.terms[v] && i <= ack)
  {}

  /** Whatever the node must retain, from this term or an earlier one, the accepted entries leave in place. */
  lemma AcceptRetains(h: History, v: int, log: Log, end: nat, t: nat, i: nat)
    requires CoreInv(h) && CanAccept(h, v, log, end)
    requires OwnEntry(h, t, i) && Choosable(h, t, i) && SameThrough(h, t, h.logs[v], i) && t <= h.terms[v]
    ensures SameThrough(h, t, log, i)
  {
    hide Genuine, VotesInv, LogsInv, Choosable;
    var source := h.leaderLogs[h.terms[v]];
    assert Complete(h, t, h.terms[v], i);
    assert Agree(h.logs[v], source, i);
    AbsorbKeeps(h.logs[v], source, end, log, i);
  }

  lemma AcceptRetained(h: History, v: int, log: Log, ack: nat, end: nat, t: nat, u: int, i: nat)
    requires CoreInv(h) && CanAccept(h, v, log, end) && AcksExactly(h, v, log, ack)
    ensures Retained(Accept(h, v, log, ack), t, u, i)
  {
    hide VotesInv, LogsInv, Choosable, Absorbs;
    var h' := Accept(h, v, log, ack);
    if 0 <= u < |h'.logs| && OwnEntry(h', t, i) && Holds(h', u, t, i) && Choosable(h', t, i) {
      AcceptChoosable(h, v, log, ack, t, i);
      AcceptHolds(h, v, log, ack, t, u, i);
      assert Retained(h, t, u, i);
      if u == v {
        if Holds(h, u, t, i) {
          AcceptRetains(h, v, log, end, t, i);
        } else {
          AgreeShorter(log, h.leaderLogs[t], ack, i);
        }
      }
    }
  }

  lemma AcceptChoice(h: History, v: int, log: Log, ack: nat, end: nat)
    requires CoreInv(h) && CanAccept(h, v, log, end) && AcksExactly(h, v, log, ack)
    ensures ChoiceInv(Accept(h, v, log, ack))
  {
    var h' := Accept(h, v, log, ack);
    AcceptAcks(h, v, log, ack, end);
    forall t: nat, u: int, i: nat ensures Retained(h', t, u, i) { AcceptRetained(h, v, log, ack, end, t, u, i); }
    forall t: nat, u: nat, i: nat ensures Complete(h', t, u, i) { AcceptComplete(h, v, log, ack, t, u, i); }
    forall t: nat, k: Key, i: nat ensures HeldAtVote(h', t, k, i) { AcceptHeldAtVote(h, v, log, ack, t, k, i); }
  }

  lemma AcceptComplete(h: History, v: int, log: Log, ack: nat, t: nat, u: nat, i: nat)
    requires ChoiceInv(h) && Member(h, v)
    ensures Complete(Accept(h, v, log, ack), t, u, i)
  {
    hide Agree, Choosable;
    var h' := Accept(h, v, log, ack);
    if t < u && u in h'.leaderLogs && OwnEntry(h', t, i) && Choosable(h', t, i) {
      AcceptChoosable(h, v, log, ack, t, i);
      assert Complete(h, t, u, i);
    }
  }

  lemma AcceptHeldAtVote(h: History, v: int, log: Log, ack: nat, t: nat, k: Key, i: nat)
    requires CoreInv(h) && Member(h, v)
    ensures HeldAtVote(Accept(h, v, log, ack), t, k, i)
  {
    hide Agree, Choosable, LogsInv, UpToDate, LastTerm;
    var h' := Accept(h, v, log, ack);
    if t < k.term && k in h'.voteLogs && OwnEntry(h', t, i) && Holds(h', k.node, t, i) && Choosable(h', t, i) {
      assert VoteInv(h, k);
      AcceptChoosable(h, v, log, ack, t, i);
      AcceptHolds(h, v, log, ack, t, k.node, i);
      assert HeldAtVote(h, t, k, i);
    }
  }

  lemma AcceptCore(h: History, v: int, log: Log, ack: nat, end: nat)
    requires CoreInv(h) && CanAccept(h, v, log, end) && AcksExactly(h, v, log, ack)
    ensures CoreInv(Accept(h, v, log, ack))
  {
    AcceptLogs(h, v, log, ack, end);
    FrameVotes(h, Accept(h, v, log, ack));
    AcceptChoice(h, v, log, ack, end);
  }
}
