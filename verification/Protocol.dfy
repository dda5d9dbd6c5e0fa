/**
 * The bookkeeping behind the safety argument of the Raft paper (Section 5.4.3), as an abstract protocol.
 * A History records every vote, candidacy, election and acknowledgement of a run; six events extend it.
 * Nothing here is state of the program: LogLink shows which events each handler performs.
 */
module Protocol {
  import opened RaftTypes
  import opened NodeSpec
  import opened Logs

  datatype Key = Key(term: nat, node: int)

  datatype History = History(
    terms: seq<nat>,               // currentTerm of every node
    logs: seq<Log>,                // log of every node
    votes: map<Key, int>,          // whom a node voted for in a term
    voteLogs: map<Key, Log>,       // the voter's log when it voted
    bids: map<Key, Log>,           // a candidate's log when it stood for a term
    leaders: map<nat, int>,        // the node elected in a term
    quorums: map<nat, set<int>>,   // the votes it counted
    leaderLogs: map<nat, Log>,     // its log, as far as it has grown in that term
    acks: map<Key, nat>,           // how much of that log a node has held while in that term
    accepted: seq<nat>)            // the highest term whose leader a node accepted entries from

  // ---------------------------------------------------------------- quorums

  predicate IsQuorum(n: nat, q: set<int>) {
    (forall v | v in q :: 0 <= v < n) && |q| >= Majority(n)
  }

  lemma {:induction false} SetBound(n: nat, q: set<int>)
    requires forall v | v in q :: 0 <= v < n
    ensures |q| <= n
  {
    if n == 0 {
      assert forall v :: v !in q;
    } else {
      SetBound(n - 1, q - {n - 1});
      assert |q| <= |q - {n - 1}| + 1 by {
        if n - 1 in q { assert q == (q - {n - 1}) + {n - 1}; } else { assert q == q - {n - 1}; }
      }
    }
  }

  /** Section 5.2: two majorities share a node. */
  lemma QuorumsMeet(n: nat, q: set<int>, q': set<int>) returns (v: int)
    requires IsQuorum(n, q) && IsQuorum(n, q')
    ensures v in q && v in q'
  {
    if forall u :: u in q ==> u !in q' {
      assert |q + q'| == |q| + |q'|;
      SetBound(n, q + q');
      assert false;
    }
    v :| v in q && v in q';
  }

  // ---------------------------------------------------------------- events

  predicate Member(h: History, v: int) {
    0 <= v < |h.terms| == |h.logs| == |h.accepted|
  }

  /** `v` moves to a term at least its own. */
  predicate CanBump(h: History, v: int, term: nat) {
    Member(h, v) && h.terms[v] <= term
  }

  function Bump(h: History, v: int, term: nat): History
    requires Member(h, v)
  {
    h.(terms := h.terms[v := term])
  }

  /** `v` becomes a candidate in its current term. */
  predicate CanStand(h: History, v: int) {
    Member(h, v) && Key(h.terms[v], v) !in h.bids && AllBelow(h.logs[v], h.terms[v])
  }

  function Stand(h: History, v: int): History
    requires Member(h, v)
  {
    h.(bids := h.bids[Key(h.terms[v], v) := h.logs[v]])
  }

  /** `v` votes in its current term for `c`, whose bid is up to date with the log of `v`. */
  predicate CanVote(h: History, v: int, c: int) {
    && Member(h, v) && Key(h.terms[v], v) !in h.votes && Key(h.terms[v], c) in h.bids
    && var bid := h.bids[Key(h.terms[v], c)]; UpToDate(|bid|, LastTerm(bid), h.logs[v])
  }

  function Vote(h: History, v: int, c: int): History
    requires Member(h, v)
  {
    var key := Key(h.terms[v], v);
    h.(votes := h.votes[key := c], voteLogs := h.voteLogs[key := h.logs[v]])
  }

  /** `v` becomes the first leader of its current term, on the log it stood with. */
  predicate CanLead(h: History, v: int) {
    && Member(h, v) && h.terms[v] !in h.leaders && h.terms[v] !in h.leaderLogs
    && Key(h.terms[v], v) in h.bids && h.bids[Key(h.terms[v], v)] == h.logs[v]
  }

  /** The votes it counted are a majority of votes for it in this term. */
  predicate Elected(h: History, v: int, q: set<int>)
    requires Member(h, v)
  {
    IsQuorum(|h.terms|, q) && forall u | u in q :: Key(h.terms[v], u) in h.votes && h.votes[Key(h.terms[v], u)] == v
  }

  function Lead(h: History, v: int, q: set<int>): History
    requires Member(h, v)
  {
    var term := h.terms[v];
    h.(leaders := h.leaders[term := v], quorums := h.quorums[term := q],
    leaderLogs := h.leaderLogs[term := h.logs[v]],
    acks := h.acks[Key(term, v) := |h.logs[v]|])
  }

  /** The leader `v` appends an entry of its term. */
  predicate CanExtend(h: History, v: int, e: Entry) {
    && Member(h, v) && e.term == h.terms[v]
    && h.terms[v] in h.leaders && h.leaders[h.terms[v]] == v
    && h.terms[v] in h.leaderLogs && h.leaderLogs[h.terms[v]] == h.logs[v]
  }

  function Extend(h: History, v: int, e: Entry): History
    requires Member(h, v)
  {
    var term, log := h.terms[v], h.logs[v] + [e];
    h.(logs := h.logs[v := log], leaderLogs := h.leaderLogs[term := log], acks := h.acks[Key(term, v) := |log|])
  }

  /** `v` accepts entries from the leader of its current term, and its log becomes `log`. */
  ghost predicate CanAccept(h: History, v: int, log: Log, end: nat) {
    && Member(h, v)
    && h.terms[v] in h.leaders && h.leaders[h.terms[v]] != v && h.terms[v] in h.leaderLogs
    && Absorbs(h.logs[v], h.leaderLogs[h.terms[v]], end, log)
  }

  /** The first `ack` entries of the new log are the leader's, so acknowledging them is sound. */
  predicate AcksExactly(h: History, v: int, log: Log, ack: nat)
    requires Member(h, v) && h.terms[v] in h.leaderLogs
  {
    Agree(log, h.leaderLogs[h.terms[v]], ack)
  }

  function Acked(h: History, v: int): nat
    requires Member(h, v)
  {
    if Key(h.terms[v], v) in h.acks then h.acks[Key(h.terms[v], v)] else 0
  }

  /** The log of `v` becomes `log`, and `v` acknowledges its first `ack` entries. */
  function Accept(h: History, v: int, log: Log, ack: nat): History
    requires Member(h, v)
  {
    var term := h.terms[v];
    h.(logs := h.logs[v := log], accepted := h.accepted[v := term],
    acks := h.acks[Key(term, v) := if ack > Acked(h, v) then ack else Acked(h, v)])
  }

  // ---------------------------------------------------------------- log invariants

  ghost predicate LogsInv(h: History) {
    && |h.terms| == |h.logs| == |h.accepted|
    && h.leaders.Keys == h.leaderLogs.Keys
    && (forall v | 0 <= v < |h.logs| :: Genuine(h.leaderLogs, h.logs[v]))
    && (forall t | t in h.leaderLogs :: Genuine(h.leaderLogs, h.leaderLogs[t]) && MonotoneUpTo(h.leaderLogs[t], t))
    && (forall k | k in h.voteLogs :: Genuine(h.leaderLogs, h.voteLogs[k]))
    && (forall k | k in h.bids :: Genuine(h.leaderLogs, h.bids[k]) && AllBelow(h.bids[k], k.term))
    && (forall k | k in h.bids :: 0 <= k.node < |h.terms| && k.term <= h.terms[k.node])
    && (forall t | t in h.leaders :: 0 <= h.leaders[t] < |h.terms| && t <= h.terms[h.leaders[t]])
  }

  lemma BumpLogs(h: History, v: int, term: nat)
    requires LogsInv(h) && CanBump(h, v, term)
    ensures LogsInv(Bump(h, v, term))
  {
    hide Genuine, MonotoneUpTo, AllBelow;
  }

  lemma StandLogs(h: History, v: int)
    requires LogsInv(h) && CanStand(h, v)
    ensures LogsInv(Stand(h, v))
  {
    hide Genuine, MonotoneUpTo, AllBelow;
  }

  lemma VoteLogs(h: History, v: int, c: int)
    requires LogsInv(h) && Member(h, v)
    ensures LogsInv(Vote(h, v, c))
  {
    hide Genuine, MonotoneUpTo, AllBelow, UpToDate, LastTerm;
  }

  /** Every recorded log stays genuine while the leaders' logs grow. */
  lemma GrownLogs(h: History, h': History)
    requires LogsInv(h) && Grown(h.leaderLogs, h'.leaderLogs)
    ensures forall v | 0 <= v < |h.logs| :: Genuine(h'.leaderLogs, h.logs[v])
    ensures forall t | t in h.leaderLogs :: Genuine(h'.leaderLogs, h.leaderLogs[t])
    ensures forall k | k in h.voteLogs :: Genuine(h'.leaderLogs, h.voteLogs[k])
    ensures forall k | k in h.bids :: Genuine(h'.leaderLogs, h.bids[k])
  {
    hide Genuine, Grown, MonotoneUpTo, AllBelow;
    forall log: Log | Genuine(h.leaderLogs, log) ensures Genuine(h'.leaderLogs, log) {
      GenuineGrown(h.leaderLogs, h'.leaderLogs, log);
    }
  }

  lemma BidMonotone(h: History, v: int)
    requires LogsInv(h) && Member(h, v) && AllBelow(h.logs[v], h.terms[v])
    ensures MonotoneUpTo(h.logs[v], h.terms[v])
  {
    hide Genuine;
    forall i, j | 0 <= i <= j < |h.logs[v]|
      ensures h.logs[v][i].term <= h.logs[v][j].term
    {
      GenuineMonotone(h.leaderLogs, h.logs[v], i, j);
    }
  }

  lemma LeadLogs(h: History, v: int, q: set<int>)
    requires LogsInv(h) && CanLead(h, v)
    ensures LogsInv(Lead(h, v, q))
  {
    var h' := Lead(h, v, q);
    assert Grown(h.leaderLogs, h'.leaderLogs);
    GrownLogs(h, h');
    BidMonotone(h, v);
    hide Genuine, MonotoneUpTo, AllBelow, Grown;
  }

  lemma ExtendedGenuine(leaders: LeaderLogs, term: nat, e: Entry)
    requires term in leaders && Genuine(leaders, leaders[term]) && MonotoneUpTo(leaders[term], term) && e.term == term
    ensures var log := leaders[term] + [e];
      Genuine(leaders[term := log], log) && MonotoneUpTo(log, term) && Grown(leaders, leaders[term := log])
  {
    var log := leaders[term] + [e];
    var leaders' := leaders[term := log];
    assert Grown(leaders, leaders');
    GenuineGrown(leaders, leaders', leaders[term]);
    forall i: nat | i < |log|
      ensures Backed(leaders', log, i)
    {
      if i < |leaders[term]| {
        assert Backed(leaders', leaders[term], i);
        assert leaders[term][..i + 1] == log[..i + 1];
      }
    }
  }

  lemma ExtendLogs(h: History, v: int, e: Entry)
    requires LogsInv(h) && CanExtend(h, v, e)
    ensures LogsInv(Extend(h, v, e))
  {
    var h' := Extend(h, v, e);
    ExtendedGenuine(h.leaderLogs, h.terms[v], e);
    GrownLogs(h, h');
    hide Genuine, MonotoneUpTo, AllBelow, Grown;
  }

  lemma AcceptLogs(h: History, v: int, log: Log, ack: nat, end: nat)
    requires LogsInv(h) && CanAccept(h, v, log, end)
    ensures LogsInv(Accept(h, v, log, ack))
  {
    GenuinePrefix(h.leaderLogs, h.leaderLogs[h.terms[v]], end);
    hide Genuine, MonotoneUpTo, AllBelow, Agree;
  }

  // ---------------------------------------------------------------- vote invariants

  ghost predicate VoteInv(h: History, k: Key) {
    && 0 <= k.node < |h.terms| && k.term <= h.terms[k.node]
    && k in h.votes && k in h.voteLogs && Key(k.term, h.votes[k]) in h.bids
    && var bid := h.bids[Key(k.term, h.votes[k])]; UpToDate(|bid|, LastTerm(bid), h.voteLogs[k])
  }

  ghost predicate QuorumInv(h: History, term: nat) {
    && term in h.quorums && term in h.leaders
    && IsQuorum(|h.terms|, h.quorums[term])
    && forall v | v in h.quorums[term] :: Key(term, v) in h.votes && h.votes[Key(term, v)] == h.leaders[term]
  }

  ghost predicate VotesInv(h: History) {
    && h.votes.Keys == h.voteLogs.Keys
    && (forall k | k in h.voteLogs :: VoteInv(h, k))
    && (forall t | t in h.leaders :: QuorumInv(h, t))
  }

  lemma BumpVotes(h: History, v: int, term: nat)
    requires VotesInv(h) && CanBump(h, v, term)
    ensures VotesInv(Bump(h, v, term))
  {
    hide UpToDate, LastTerm, IsQuorum;
    var h' := Bump(h, v, term);
    assert forall k | k in h'.voteLogs :: VoteInv(h, k);
    assert forall t | t in h'.leaders :: QuorumInv(h, t);
  }

  lemma StandVotes(h: History, v: int)
    requires VotesInv(h) && CanStand(h, v)
    ensures VotesInv(Stand(h, v))
  {
    hide UpToDate, LastTerm, IsQuorum, AllBelow;
    var h' := Stand(h, v);
    assert forall k | k in h'.voteLogs :: VoteInv(h, k);
    assert forall t | t in h'.leaders :: QuorumInv(h, t);
  }

  lemma VoteVotes(h: History, v: int, c: int)
    requires VotesInv(h) && CanVote(h, v, c)
    ensures VotesInv(Vote(h, v, c))
  {
    hide UpToDate, LastTerm, IsQuorum;
    var h' := Vote(h, v, c);
    assert forall k | k in h.voteLogs :: VoteInv(h, k);
    assert forall t | t in h'.leaders :: QuorumInv(h, t);
  }

  lemma LeadVotes(h: History, v: int, q: set<int>)
    requires VotesInv(h) && CanLead(h, v) && Elected(h, v, q)
    ensures VotesInv(Lead(h, v, q))
  {
    hide UpToDate, LastTerm, IsQuorum;
    var h' := Lead(h, v, q);
    assert forall k | k in h'.voteLogs :: VoteInv(h, k);
    assert forall t | t in h.leaders :: QuorumInv(h, t);
  }

  lemma FrameVotes(h: History, h': History)
    requires VotesInv(h)
    requires h'.terms == h.terms && h'.votes == h.votes && h'.voteLogs == h.voteLogs && h'.bids == h.bids
    requires h'.leaders == h.leaders && h'.quorums == h.quorums
    ensures VotesInv(h')
  {
    hide UpToDate, LastTerm, IsQuorum;
    assert forall k | k in h'.voteLogs :: VoteInv(h, k);
    assert forall t | t in h'.leaders :: QuorumInv(h, t);
  }

  /** Election Safety (Section 5.2): whoever holds a majority of votes in a term already led is its leader. */
  lemma OneWinner(h: History, v: int, q: set<int>)
    requires VotesInv(h) && Member(h, v) && Elected(h, v, q) && h.terms[v] in h.leaders
    ensures h.leaders[h.terms[v]] == v
  {
    hide IsQuorum;
    assert QuorumInv(h, h.terms[v]);
    var u := QuorumsMeet(|h.terms|, q, h.quorums[h.terms[v]]);
  }

  // ---------------------------------------------------------------- what may still be committed

  ghost predicate AcksInv(h: History) {
    forall k | k in h.acks ::
      && 0 <= k.node < |h.terms| && k.term <= h.terms[k.node]
      && k.term in h.leaderLogs && h.acks[k] <= |h.leaderLogs[k.term]|
  }

  predicate Holds(h: History, v: int, term: nat, i: nat) {
    Key(term, v) in h.acks && h.acks[Key(term, v)] >= i
  }

  /** `v` has held the leader's log of `term` through `i`, or may still come to hold it in that term. */
  predicate Supports(h: History, v: int, term: nat, i: nat) {
    0 <= v < |h.terms| && (h.terms[v] <= term || Holds(h, v, term, i))
  }

  ghost predicate SupportedBy(h: History, q: set<int>, term: nat, i: nat) {
    IsQuorum(|h.terms|, q) && forall v | v in q :: Supports(h, v, term, i)
  }

  /** Some majority may yet acknowledge index `i` in `term`. Once false it stays false. */
  ghost predicate Choosable(h: History, term: nat, i: nat) {
    exists q :: SupportedBy(h, q, term, i)
  }

  /** The leader of `term` holds at `i` an entry of its own term. */
  predicate OwnEntry(h: History, term: nat, i: nat) {
    term in h.leaderLogs && 0 < i <= |h.leaderLogs[term]| && h.leaderLogs[term][i - 1].term == term
  }

  predicate SameThrough(h: History, term: nat, log: Log, i: nat) {
    term in h.leaderLogs && Agree(h.leaderLogs[term], log, i)
  }

  /** Later leaders hold whatever may still be committed. */
  ghost predicate Complete(h: History, term: nat, later: nat, i: nat) {
    term < later && later in h.leaderLogs && OwnEntry(h, term, i) && Choosable(h, term, i) ==>
      SameThrough(h, term, h.leaderLogs[later], i)
  }

  /** A node that acknowledged what may still be committed still holds it. */
  ghost predicate Retained(h: History, term: nat, v: int, i: nat) {
    0 <= v < |h.logs| && OwnEntry(h, term, i) && Holds(h, v, term, i) && Choosable(h, term, i) ==>
      SameThrough(h, term, h.logs[v], i)
  }

  /** And it held it whenever it voted in a later term. */
  ghost predicate HeldAtVote(h: History, term: nat, k: Key, i: nat) {
    term < k.term && k in h.voteLogs && OwnEntry(h, term, i) && Holds(h, k.node, term, i) && Choosable(h, term, i) ==>
      SameThrough(h, term, h.voteLogs[k], i)
  }

  ghost predicate ChoiceInv(h: History) {
    && AcksInv(h)
    && (forall t: nat, u: nat, i: nat :: Complete(h, t, u, i))
    && (forall t: nat, v: int, i: nat :: Retained(h, t, v, i))
    && (forall t: nat, k: Key, i: nat :: HeldAtVote(h, t, k, i))
  }

  /** Time only takes support away. */
  ghost predicate NoNewSupport(h: History, h': History) {
    && |h.terms| == |h'.terms|
    && (forall v | 0 <= v < |h.terms| :: h.terms[v] <= h'.terms[v])
    && (forall v, t: nat, i: nat | 0 <= v < |h.terms| && Holds(h', v, t, i) :: h.terms[v] <= t || Holds(h, v, t, i))
  }

  lemma ChoosableBefore(h: History, h': History, term: nat, i: nat)
    requires NoNewSupport(h, h') && Choosable(h', term, i)
    ensures Choosable(h, term, i)
  {
    hide IsQuorum, Holds;
    var q :| SupportedBy(h', q, term, i);
    forall v | v in q
      ensures Supports(h, v, term, i)
    {
      assert Supports(h', v, term, i);
    }
    assert SupportedBy(h, q, term, i);
  }

  /** Once a later term has a leader, an index nobody has acknowledged can no longer be chosen. */
  lemma ChosenIsHeld(h: History, term: nat, later: nat, i: nat)
    returns (v: int)
    requires VotesInv(h) && later in h.leaders && term < later && Choosable(h, term, i)
    ensures Holds(h, v, term, i) && Key(later, v) in h.votes && h.votes[Key(later, v)] == h.leaders[later]
  {
    hide IsQuorum, Holds;
    var q :| SupportedBy(h, q, term, i);
    assert QuorumInv(h, later);
    v := QuorumsMeet(|h.terms|, q, h.quorums[later]);
    assert Supports(h, v, term, i);
    assert VoteInv(h, Key(later, v));
  }
}
