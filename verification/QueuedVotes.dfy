/**
 * When an election behind a cut does follow from what was under way. What a candidate makes of a queue of
 * messages is characterised exactly, and from every state of the bus in which the votes it still lacks are
 * queued, or asked for by bids that are next to be handled and will be granted, a run is built that elects it
 * with no link mended and no other node taking part.
 */
module QueuedVotes {
  import opened RaftTypes
  import opened NodeSpec
  import opened Basics
  import opened RunFacts
  import opened SimulatorBus
  import opened BusRuns
  import opened MinorityFreeze

  // ---------------------------------------------------------------- a candidate and its queue

  /** The node after handling the messages of `q` in order. */
  function HandleAll(s: NodeState, q: seq<Message>): NodeState {
    if q == [] then s else Handle(HandleAll(s, q[..|q| - 1]), q[|q| - 1]).node
  }

  /** `m` does not end a candidacy of the given term. */
  predicate Harmless(term: nat, m: Message) {
    m.payload.term <= term && (m.payload.AppendEntries? ==> m.payload.term < term)
  }

  predicate AllHarmless(term: nat, q: seq<Message>) {
    forall m | m in q :: Harmless(term, m)
  }

  /** Who votes in `q`. */
  function Voters(q: seq<Message>): set<int> {
    set m | m in q && Granted(m) :: m.sender
  }

  /** The first `p` messages of `q` leave the candidacy alone and complete its majority. */
  predicate Wins(s: NodeState, q: seq<Message>, p: nat) {
    && p <= |q| && AllHarmless(s.currentTerm, q[..p])
    && |s.votesReceived + Voters(q[..p])| >= Majority(ClusterSize(s))
  }

  predicate LeadsAfter(s: NodeState, q: seq<Message>, p: nat) {
    p <= |q| && HandleAll(s, q[..p]).role.Leader?
  }

  predicate Running(s: NodeState) {
    s.role.Candidate? && |s.votesReceived| < Majority(ClusterSize(s))
  }

  lemma RunningCounts(s: NodeState, m: Message)
    requires Running(s) && m.payload.RequestVoteReply? && m.payload.term <= s.currentTerm
    ensures var t := Handle(s, m).node;
      var votes := s.votesReceived + (if m.payload.voteGranted then {m.sender} else {});
      && t.peers == s.peers && t.currentTerm == s.currentTerm && t.votesReceived == votes
      && if |votes| >= Majority(ClusterSize(s)) then t.role.Leader? else t.role.Candidate?
  {
    hide AppendsToPeers, Majority;
  }

  lemma RunningKeeps(s: NodeState, m: Message)
    requires Running(s) && !(m.payload.RequestVoteReply? && m.payload.term <= s.currentTerm)
    ensures var t := Handle(s, m).node;
      && t.peers == s.peers
      && if Harmless(s.currentTerm, m)
         then t.role.Candidate? && t.currentTerm == s.currentTerm && t.votesReceived == s.votesReceived + {}
         else t.role.Follower?
  {
    hide Merged, ScanDown, AppendsToPeers, MatchOf, Majority, UpToDate;
  }

  lemma OneVoter(m: Message)
    ensures Voters([m]) == if Granted(m) then {m.sender} else {}
  {
    assert m in [m];
  }

  lemma RunningHandles(s: NodeState, m: Message)
    requires Running(s)
    ensures var t, votes := Handle(s, m).node, s.votesReceived + Voters([m]);
      && t.peers == s.peers
      && (!Harmless(s.currentTerm, m) ==> t.role.Follower?)
      && (Harmless(s.currentTerm, m) ==> t.currentTerm == s.currentTerm && t.votesReceived == votes)
      && (Harmless(s.currentTerm, m) ==> if |votes| >= Majority(ClusterSize(s)) then t.role.Leader? else t.role.Candidate?)
  {
    OneVoter(m);
    hide Handle, Voters, Majority, ClusterSize;
    if m.payload.RequestVoteReply? && m.payload.term <= s.currentTerm {
      RunningCounts(s, m);
    } else {
      RunningKeeps(s, m);
    }
  }

  lemma NoneAtFirst(s: NodeState, q: seq<Message>)
    requires Running(s)
    ensures !Wins(s, q, 0)
  {
    assert s.votesReceived + Voters(q[..0]) == s.votesReceived;
  }

  lemma PeersKept(s: NodeState, m: Message)
    ensures Handle(s, m).node.peers == s.peers
  {
    hide Merged, ScanDown, AppendsToPeers, Lookup, Grants, Fits, Majority, NextOf, MatchOf;
  }

  lemma FollowerHandles(s: NodeState, m: Message)
    requires s.role.Follower?
    ensures Handle(s, m).node.role.Follower?
  {
    hide Merged, ScanDown, AppendsToPeers, Lookup, Grants, Fits, Majority, NextOf, MatchOf;
  }

  lemma UnionAssociates(a: set<int>, b: set<int>, c: set<int>)
    ensures a + (b + c) == a + b + c
  {}

  lemma OneFurther(q: seq<Message>, p: nat, term: nat)
    requires p < |q|
    ensures q[..p + 1][..p] == q[..p] && q[..p + 1] == q[..p] + [q[p]]
    ensures Voters(q[..p + 1]) == Voters(q[..p]) + Voters([q[p]])
    ensures AllHarmless(term, q[..p + 1]) <==> AllHarmless(term, q[..p]) && Harmless(term, q[p])
  {
    assert q[..p + 1] == q[..p] + [q[p]];
    assert q[p] in q[..p + 1] && q[p] in [q[p]];
  }

  /** `t` has counted the votes of `q` and no others in its candidacy, unless something in `q` ended that. */
  predicate CountedSoFar(s: NodeState, q: seq<Message>, t: NodeState) {
    && t.peers == s.peers
    && if AllHarmless(s.currentTerm, q)
       then t.role.Candidate? && t.currentTerm == s.currentTerm && t.votesReceived == s.votesReceived + Voters(q)
       else t.role.Follower?
  }

  lemma CountedNext(s: NodeState, q: seq<Message>, p: nat, t: NodeState)
    requires 0 < p <= |q| && CountedSoFar(s, q[..p - 1], t) && !Wins(s, q, p - 1) && !Wins(s, q, p)
    ensures CountedSoFar(s, q[..p], Handle(t, q[p - 1]).node)
  {
    var m := q[p - 1];
    OneFurther(q, p - 1, s.currentTerm);
    UnionAssociates(s.votesReceived, Voters(q[..p - 1]), Voters([m]));
    hide Handle, Harmless, AllHarmless, Voters, Majority;
    PeersKept(t, m);
    if AllHarmless(s.currentTerm, q[..p - 1]) { RunningHandles(t, m); } else { FollowerHandles(t, m); }
  }

  /** While no prefix wins, the candidate counts the queued votes and nothing else. */
  lemma {:induction false} Undecided(s: NodeState, q: seq<Message>, p: nat)
    requires Running(s) && p <= |q| && forall i: nat | i <= p :: !Wins(s, q, i)
    ensures CountedSoFar(s, q[..p], HandleAll(s, q[..p]))
  {
    if p == 0 {
      assert s.votesReceived + Voters(q[..0]) == s.votesReceived;
    } else {
      Undecided(s, q, p - 1);
      assert q[..p][..p - 1] == q[..p - 1] && !Wins(s, q, p - 1) && !Wins(s, q, p);
      hide CountedSoFar, Handle, Wins;
      CountedNext(s, q, p, HandleAll(s, q[..p - 1]));
    }
  }

  lemma WinsLast(s: NodeState, q: seq<Message>, p: nat)
    requires 0 < p && Wins(s, q, p) && !Wins(s, q, p - 1)
    ensures p <= |q| && AllHarmless(s.currentTerm, q[..p - 1]) && Harmless(s.currentTerm, q[p - 1])
    ensures var votes := s.votesReceived + Voters(q[..p - 1]);
      |votes| < Majority(ClusterSize(s)) && |votes + Voters([q[p - 1]])| >= Majority(ClusterSize(s))
  {
    hide AllHarmless, Harmless, Voters, Majority, ClusterSize;
    OneFurther(q, p - 1, s.currentTerm);
    UnionAssociates(s.votesReceived, Voters(q[..p - 1]), Voters([q[p - 1]]));
  }

  /** The first winning prefix makes the candidate leader. */
  lemma Decided(s: NodeState, q: seq<Message>, p: nat)
    requires Running(s) && Wins(s, q, p) && forall i: nat | i < p :: !Wins(s, q, i)
    ensures p > 0 && !LeadsAfter(s, q, p - 1) && LeadsAfter(s, q, p)
  {
    NoneAtFirst(s, q);
    assert p > 0 && !Wins(s, q, p - 1);
    WinsLast(s, q, p);
    hide Handle, Harmless, Voters, Majority;
    var t, m := HandleAll(s, q[..p - 1]), q[p - 1];
    Undecided(s, q, p - 1);
    hide Wins, AllHarmless;
    RunningHandles(t, m);
    assert q[..p][..p - 1] == q[..p - 1] && q[..p][p - 1] == m;
  }

  lemma LeadsNext(s: NodeState, q: seq<Message>, p: nat)
    requires 0 < p && LeadsAfter(s, q, p)
    ensures p <= |q| && Handle(HandleAll(s, q[..p - 1]), q[p - 1]).node.role.Leader?
  {
    OneFurther(q, p - 1, s.currentTerm);
    hide Handle;
  }

  lemma {:induction false} FirstWin(s: NodeState, q: seq<Message>, p: nat) returns (first: nat)
    requires Wins(s, q, p)
    ensures first <= p && Wins(s, q, first) && forall i: nat | i < first :: !Wins(s, q, i)
  {
    hide Wins;
    if i: nat :| i < p && Wins(s, q, i) { first := FirstWin(s, q, i); } else { first := p; }
  }

  /**
   * A candidate that handles a queue leads at some moment exactly when some prefix of the queue holds nothing
   * of a later term and no AppendEntries of its own term, and brings the votes for a majority.
   */
  lemma QueueElectsIff(s: NodeState, q: seq<Message>)
    requires Running(s)
    ensures (exists p: nat :: LeadsAfter(s, q, p)) <==> (exists p: nat :: Wins(s, q, p))
  {
    if p: nat :| LeadsAfter(s, q, p) {
      if forall i: nat | i <= p :: !Wins(s, q, i) { Undecided(s, q, p); }
    }
    if p: nat :| Wins(s, q, p) {
      var first := FirstWin(s, q, p);
      hide Wins, LeadsAfter;
      Decided(s, q, first);
    }
  }

  // ---------------------------------------------------------------- building runs

  /** A step of one of the nodes `who`: it handles a message or hands one over. */
  predicate StepOf(x: BusAction, who: set<int>) {
    (x.Receive? || x.Test? || x.Push?) && x.node in who
  }

  /** Run `r'` goes on from `r` with steps of `who` alone, so it mends no link and gives no node a timeout. */
  ghost predicate ContinuedBy(n: nat, r: BusRun, r': BusRun, who: set<int>) {
    && ValidBusRun(n, r) && ValidBusRun(n, r') && r.states <= r'.states && r.actions <= r'.actions
    && forall x | |r.actions| <= x < |r'.actions| :: StepOf(r'.actions[x], who)
  }

  lemma Again(n: nat, r: BusRun, r': BusRun, r'': BusRun, who: set<int>)
    requires ContinuedBy(n, r, r', who) && ContinuedBy(n, r', r'', who)
    ensures ContinuedBy(n, r, r'', who)
  {
    hide ValidBusRun, StepOf;
  }

  lemma GoBy(n: nat, r: BusRun, x: BusAction, who: set<int>) returns (r': BusRun)
    requires ValidBusRun(n, r) && BusEnabled(Last(r), x) && StepOf(x, who)
    ensures ContinuedBy(n, r, r', who) && r'.actions == r.actions + [x]
    ensures Last(r') == BusApply(Last(r), x)
  {
    r' := Go(n, r, x);
    hide ValidBusRun, BusApply, BusEnabled;
  }

  /** What the last state of a run keeps. */
  lemma LastWf(n: nat, r: BusRun)
    requires ValidBusRun(n, r)
    ensures var b := Last(r);
      && |b.nodes| == |b.pending| == |b.inboxes| == n
      && (forall i: nat | i < n :: NodeWf(n, i, b.nodes[i]))
      && (forall i, m | 0 <= i < n && m in b.pending[i] :: m.sender == i && MessageWf(n, m))
      && (forall i | i in b.passed :: 0 <= i < n && b.pending[i] != [])
      && (forall i | 0 <= i < n :: |b.inboxes[i]| <= INBOX_CAPACITY + 1)
  {
    BusNodes(n, r, |r.states| - 1);
    hide ValidBusRun, NodeWf, MessageWf;
  }

  /** `b'` is `b` with some messages more in the inboxes, none of them in that of `i`, and nothing left to send at `i`. */
  predicate FlushedTo(b: Bus, i: nat, b': Bus) {
    && b'.nodes == b.nodes && b'.cut == b.cut
    && i < |b.pending| && b'.pending == b.pending[i := []]
    && i < |b.inboxes| == |b'.inboxes| && b'.inboxes[i] == b.inboxes[i]
  }

  lemma FirstSent(n: nat, r: BusRun, i: nat)
    requires ValidBusRun(n, r) && i < n
    ensures Indexed(Last(r), i)
    ensures Last(r).pending[i] != [] ==> Sending(Last(r), i) && Last(r).pending[i][0].receiver != i
  {
    LastWf(n, r);
    hide ValidBusRun, NodeWf;
    if Last(r).pending[i] != [] { assert Last(r).pending[i][0] in Last(r).pending[i]; }
  }

  /** A node hands over everything it still has to send. */
  lemma {:induction false} Flush(n: nat, r: BusRun, i: nat, who: set<int>) returns (r': BusRun)
    requires ValidBusRun(n, r) && i < n && i in who
    ensures ContinuedBy(n, r, r', who) && FlushedTo(Last(r), i, Last(r'))
    decreases if i < |Last(r).pending| then |Last(r).pending[i]| else 0, if i in Last(r).passed then 0 else 1
  {
    FirstSent(n, r, i);
    var b := Last(r);
    if b.pending[i] == [] {
      r' := r;
      assert b.pending == b.pending[i := []];
    } else {
      var x := if i in b.passed then Push(i, |b.inboxes[b.pending[i][0].receiver]| <= INBOX_CAPACITY) else Test(i);
      hide ValidBusRun;
      var r1 := GoBy(n, r, x, who);
      r' := Flush(n, r1, i, who);
      Again(n, r, r1, r', who);
    }
  }

  /** A node handles the first `i` messages of its inbox. */
  lemma {:induction false} Drain(n: nat, r: BusRun, v: nat, i: nat, who: set<int>) returns (r': BusRun)
    requires ValidBusRun(n, r) && v < n && v in who && Ready(Last(r), v) && i <= |Last(r).inboxes[v]|
    ensures ContinuedBy(n, r, r', who) && Ready(Last(r'), v)
    ensures var b, b' := Last(r), Last(r');
      b'.nodes[v] == HandleAll(b.nodes[v], b.inboxes[v][..i]) && b'.inboxes[v] == b.inboxes[v][i..]
    decreases i
  {
    var q := Last(r).inboxes[v];
    if i == 0 {
      r' := r;
    } else {
      var r1 := Drain(n, r, v, i - 1, who);
      assert q[..i][..i - 1] == q[..i - 1] && q[i - 1..][0] == q[i - 1] && q[i - 1..][1..] == q[i..];
      hide ValidBusRun, Handle;
      var r2 := GoBy(n, r1, Receive(v), who);
      r' := Flush(n, r2, v, who);
      hide ContinuedBy;
      Again(n, r, r1, r2, who);
      Again(n, r, r2, r', who);
    }
  }

  // ---------------------------------------------------------------- bids that will be granted

  /** The bid of `v` is the next message of `u`, and `u` will grant it and may answer. */
  predicate Willing(b: Bus, v: int, u: int) {
    && Indexed(b, v) && Ready(b, u) && u != v && b.nodes[u].alive && (u, v) !in b.cut && b.inboxes[u] != []
    && var m := b.inboxes[u][0];
      && m.payload.RequestVote? && m.sender == v && m.payload.term <= b.nodes[v].currentTerm
      && Grants(MaybeStepDown(b.nodes[u], m.payload.term), m.payload)
  }

  lemma Granting(s: NodeState, m: Message)
    requires m.payload.RequestVote? && Grants(MaybeStepDown(s, m.payload.term), m.payload)
    ensures Handle(s, m).sent == [Message(s.id, m.sender, RequestVoteReply(m.payload.term, true))]
  {}

  /** `u` has handled a message and voted for `v`, and nothing else has changed. */
  ghost predicate Answered(b: Bus, v: int, u: int, vote: Message, b': Bus) {
    && Indexed(b, v) && Indexed(b, u) && u != v && |b'.nodes| == |b.nodes| && b.inboxes[u] != []
    && b'.nodes == b.nodes[u := b'.nodes[u]] && b'.cut == b.cut && b'.pending == b.pending
    && b'.inboxes == b.inboxes[u := b.inboxes[u][1..]][v := b.inboxes[v] + [vote]]
    && Granted(vote) && vote.sender == u && vote.payload.term <= b.nodes[v].currentTerm
  }

  lemma StillWilling(b: Bus, v: int, u: int, vote: Message, b': Bus, w: int)
    requires Answered(b, v, u, vote, b') && Willing(b, v, w) && w != u
    ensures Willing(b', v, w)
  {
    hide Grants;
  }

  /** A willing node votes, and its vote arrives. */
  lemma Answer(n: nat, r: BusRun, v: nat, u: nat, who: set<int>) returns (r': BusRun, vote: Message)
    requires ValidBusRun(n, r) && v < n && u < n && u in who && Willing(Last(r), v, u)
    requires |Last(r).inboxes[v]| <= INBOX_CAPACITY
    ensures ContinuedBy(n, r, r', who) && Answered(Last(r), v, u, vote, Last(r'))
  {
    LastWf(n, r);
    var b := Last(r);
    var m := b.inboxes[u][0];
    Granting(b.nodes[u], m);
    vote := Message(u, v, RequestVoteReply(m.payload.term, true));
    hide ValidBusRun, Handle, NodeWf, MessageWf, Grants;
    var r1 := GoBy(n, r, Receive(u), who);
    assert Last(r1).pending == b.pending[u := [vote]] && [vote][1..] == [];
    var r2 := GoBy(n, r1, Test(u), who);
    r' := GoBy(n, r2, Push(u, true), who);
    assert b.pending[u := [vote]][u := []] == b.pending;
    hide ContinuedBy;
    Again(n, r, r1, r2, who);
    Again(n, r, r2, r', who);
  }

  /** The votes `q` of `willing` have arrived at `v`, whose state has not changed. */
  ghost predicate Collected(b: Bus, v: int, willing: set<int>, q: seq<Message>, b': Bus) {
    && Indexed(b, v) && Indexed(b', v) && b'.nodes[v] == b.nodes[v] && b'.inboxes[v] == b.inboxes[v] + q
    && Voters(q) == willing && AllHarmless(b.nodes[v].currentTerm, q)
  }

  lemma CollectedMore(b: Bus, v: int, u: int, vote: Message, b1: Bus, willing: set<int>, q: seq<Message>, b': Bus)
    requires Answered(b, v, u, vote, b1) && u in willing && Collected(b1, v, willing - {u}, q, b')
    ensures Collected(b, v, willing, [vote] + q, b')
  {
    hide Voters, AllHarmless;
    AddVote(vote, q, b.nodes[v].currentTerm);
    assert willing == willing - {u} + {u};
    assert b.inboxes[v] + [vote] + q == b.inboxes[v] + ([vote] + q);
  }

  /** All of `willing` vote, and their votes arrive. */
  lemma {:induction false} Collect(n: nat, r: BusRun, v: nat, willing: set<int>, who: set<int>)
    returns (r': BusRun, q: seq<Message>)
    requires ValidBusRun(n, r) && v < n && willing <= who && forall u | u in willing :: 0 <= u < n && Willing(Last(r), v, u)
    requires Indexed(Last(r), v) && |Last(r).inboxes[v]| + |willing| <= INBOX_CAPACITY + 1
    ensures ContinuedBy(n, r, r', who) && Collected(Last(r), v, willing, q, Last(r'))
    decreases |willing|
  {
    if willing == {} {
      r', q := r, [];
    } else {
      var u: nat := OneOf(n, willing);
      var r1, vote := Answer(n, r, v, u, who);
      forall w | w in willing - {u as int}
        ensures Willing(Last(r1), v, w)
      {
        StillWilling(Last(r), v, u, vote, Last(r1), w);
      }
      hide Willing, BusStep, Collected;
      var q1;
      r', q1 := Collect(n, r1, v, willing - {u as int}, who);
      q := [vote] + q1;
      Again(n, r, r1, r', who);
      CollectedMore(Last(r), v, u, vote, Last(r1), willing, q1, Last(r'));
    }
  }

  lemma {:induction false} OneOf(n: nat, a: set<int>) returns (x: nat)
    requires a != {} && forall u | u in a :: 0 <= u < n
    ensures x in a
  {
    if n == 0 {
      assert forall u :: u !in a;
      assert false;
    } else if n - 1 in a {
      x := n - 1;
    } else {
      x := OneOf(n - 1, a);
    }
  }

  lemma AddVote(vote: Message, q: seq<Message>, term: nat)
    requires Granted(vote)
    ensures Voters([vote] + q) == Voters(q) + {vote.sender}
    ensures AllHarmless(term, q) && vote.payload.term <= term ==> AllHarmless(term, [vote] + q)
  {
    assert vote in [vote] + q;
    forall m | m in q ensures m in [vote] + q {}
  }

  lemma JoinQueues(s: NodeState, a: seq<Message>, b: seq<Message>)
    requires AllHarmless(s.currentTerm, a) && AllHarmless(s.currentTerm, b)
    requires |s.votesReceived + Voters(a) + Voters(b)| >= Majority(ClusterSize(s))
    ensures Wins(s, a + b, |a + b|)
  {
    assert (a + b)[..|a + b|] == a + b;
    assert Voters(a + b) == Voters(a) + Voters(b);
    assert s.votesReceived + Voters(a + b) == s.votesReceived + Voters(a) + Voters(b);
  }

  // ---------------------------------------------------------------- elections that can happen

  lemma Elect(n: nat, r: BusRun, v: nat, who: set<int>) returns (r': BusRun)
    requires ValidBusRun(n, r) && v < n && v in who && Ready(Last(r), v) && Last(r).inboxes[v] != []
    requires !Last(r).nodes[v].role.Leader? && Handle(Last(r).nodes[v], Last(r).inboxes[v][0]).node.role.Leader?
    ensures ContinuedBy(n, r, r', who) && |r'.actions| == |r.actions| + 1 && TakesOver(r', |r.actions|, v)
  {
    hide Handle;
    r' := GoBy(n, r, Receive(v), who);
    assert r'.states[|r.actions|] == Last(r) && r'.states[|r.actions| + 1] == Last(r');
  }

  /** If the candidate `v` has a winning queue in its inbox, it is elected by handling it. */
  lemma InboxElects(n: nat, r: BusRun, v: nat, p: nat, who: set<int>) returns (r': BusRun, k: nat)
    requires ValidBusRun(n, r) && v < n && n >= 2 && v in who && Indexed(Last(r), v)
    requires Last(r).nodes[v].role.Candidate? && Wins(Last(r).nodes[v], Last(r).inboxes[v], p)
    ensures ContinuedBy(n, r, r', who) && |r.actions| <= k < |r'.actions| && TakesOver(r', k, v)
  {
    var s, q := Last(r).nodes[v], Last(r).inboxes[v];
    RunningOnBus(n, r, v);
    hide Wins, Running, HandleAll, Handle, TakesOver, BusStep;
    var first := FirstWin(s, q, p);
    Decided(s, q, first);
    LeadsNext(s, q, first);
    var r1 := Flush(n, r, v, who);
    var r2 := Drain(n, r1, v, first - 1, who);
    k := |r2.actions|;
    r' := Elect(n, r2, v, who);
    Again(n, r, r1, r2, who);
    Again(n, r, r2, r', who);
  }

  lemma RunningOnBus(n: nat, r: BusRun, v: nat)
    requires ValidBusRun(n, r) && v < n && n >= 2
    ensures Indexed(Last(r), v) && ClusterSize(Last(r).nodes[v]) == n
    ensures Last(r).nodes[v].role.Candidate? ==> Running(Last(r).nodes[v])
  {
    ShortOnBus(n, r, |r.states| - 1, v);
    LastWf(n, r);
    hide ValidBusRun, MessageWf, SegmentWf;
  }

  /**
   * An election that can happen: the votes a live candidate has counted, those waiting in its inbox and those of
   * nodes whose next message is its bid, which they will grant, make a majority, and nothing in its inbox ends its
   * candidacy. Then, by handling and handing over what is queued, these nodes alone elect it, whatever links are
   * cut elsewhere.
   */
  lemma BidsElect(n: nat, r: BusRun, v: nat, willing: set<int>) returns (r': BusRun, k: nat)
    requires ValidBusRun(n, r) && v < n && n >= 2 && Indexed(Last(r), v)
    requires Last(r).nodes[v].role.Candidate? && Last(r).nodes[v].alive
    requires forall u | u in willing :: 0 <= u < n && Willing(Last(r), v, u)
    requires |Last(r).inboxes[v]| + |willing| <= INBOX_CAPACITY + 1
    requires AllHarmless(Last(r).nodes[v].currentTerm, Last(r).inboxes[v])
    requires |Last(r).nodes[v].votesReceived + Voters(Last(r).inboxes[v]) + willing| >= Majority(n)
    ensures ContinuedBy(n, r, r', willing + {v}) && |r.actions| <= k < |r'.actions| && TakesOver(r', k, v)
  {
    var who := willing + {v as int};
    LastWf(n, r);
    hide Wins, Willing, NodeWf, MessageWf, AllHarmless, Voters, TakesOver;
    var r1, q := Collect(n, r, v, willing, who);
    JoinQueues(Last(r).nodes[v], Last(r).inboxes[v], q);
    r', k := InboxElects(n, r1, v, |Last(r).inboxes[v] + q|, who);
    hide ValidBusRun;
    Again(n, r, r1, r', who);
  }

  /** `r'` goes on from `r` and has `v` take over at step `k`, before any Heal. */
  ghost predicate ElectsBeforeHeal(n: nat, r: BusRun, r': BusRun, k: nat, v: nat) {
    && ValidBusRun(n, r') && r.states <= r'.states && r.actions <= r'.actions
    && |r.actions| <= k < |r'.actions| && NoHeal(r', |r.actions|, k) && TakesOver(r', k, v)
  }

  ghost predicate CanTakeOver(n: nat, r: BusRun, v: nat) {
    exists r': BusRun, k: nat :: ElectsBeforeHeal(n, r, r', k, v)
  }

  /** Everyone whose vote for `v` is under way has sent it, or has the bid of `v` next to handle and will grant it. */
  ghost predicate Settled(side: set<int>, b: Bus, v: int) {
    && Indexed(b, v) && b.nodes[v].alive && |b.inboxes[v]| + |side| <= INBOX_CAPACITY + 1
    && AllHarmless(b.nodes[v].currentTerm, b.inboxes[v])
    && forall u | u in Sympathizers(side, b, v) :: u in Voters(b.inboxes[v]) || Willing(b, v, u)
  }

  /**
   * Where that is settled the condition of NoMinorityElection is exact: a node of a cut-off minority can be
   * elected before Heal if and only if it is a candidate and its votes and its sympathizers make a majority.
   */
  lemma ElectableIff(n: nat, r: BusRun, side: set<int>, v: nat)
    requires ValidBusRun(n, r) && Side(n, side) && |side| < Majority(n) && v in side
    requires CutOff(n, side, Last(r)) && Drained(n, side, Last(r)) && Settled(side, Last(r), v)
    ensures CanTakeOver(n, r, v) <==>
      Last(r).nodes[v].role.Candidate?
      && |Last(r).nodes[v].votesReceived + Sympathizers(side, Last(r), v)| >= Majority(n)
  {
    if r': BusRun, k: nat :| ElectsBeforeHeal(n, r, r', k, v) {
      assert r'.states[|r.actions|] == Last(r);
      hide Sympathizers, CutOff, Drained, Settled, TakesOver;
      NoMinorityElection(n, r', side, |r.actions|, k, v);
    }
    if Last(r).nodes[v].role.Candidate? && |Last(r).nodes[v].votesReceived + Sympathizers(side, Last(r), v)| >= Majority(n) {
      var k, r' := SympathizersElect(n, r, side, v);
      assert ElectsBeforeHeal(n, r, r', k, v);
    }
  }

  lemma SympathizersElect(n: nat, r: BusRun, side: set<int>, v: nat) returns (k: nat, r': BusRun)
    requires ValidBusRun(n, r) && Side(n, side) && |side| < Majority(n) && v in side && v < n
    requires Settled(side, Last(r), v) && Last(r).nodes[v].role.Candidate?
    requires |Last(r).nodes[v].votesReceived + Sympathizers(side, Last(r), v)| >= Majority(n)
    ensures ElectsBeforeHeal(n, r, r', k, v)
  {
    var s, sent := Last(r).nodes[v], Voters(Last(r).inboxes[v]);
    var symp := Sympathizers(side, Last(r), v);
    assert symp <= side;
    hide Sympathizers;
    SubsetSize({v as int}, side);
    SubsetSize(symp - sent, side);
    SubsetSize(s.votesReceived + symp, s.votesReceived + sent + (symp - sent));
    hide ValidBusRun, Voters, Willing, AllHarmless, TakesOver;
    r', k := BidsElect(n, r, v, symp - sent);
    NoneMended(n, r, r', symp - sent + {v as int});
  }

  /** Such a continuation mends no link. */
  lemma NoneMended(n: nat, r: BusRun, r': BusRun, who: set<int>)
    requires ContinuedBy(n, r, r', who)
    ensures NoHeal(r', |r.actions|, |r'.actions|)
  {
    hide ValidBusRun;
    forall x | |r.actions| <= x < |r'.actions| ensures !r'.actions[x].Heal? { assert StepOf(r'.actions[x], who); }
  }
}
