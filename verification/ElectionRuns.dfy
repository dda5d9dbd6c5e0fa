/**
 * An election can always be won: from every state of every run of two or more nodes, restarting the dead nodes
 * and letting the timer of one well-chosen node fire leads to a leader that all nodes have voted for.
 */
module ElectionRuns {
  import opened RaftTypes
  import opened NodeSpec
  import opened RaftSystem
  import opened Basics
  import opened RunFacts
  import opened RunSteps
  import opened HandlerLaws

  // ---------------------------------------------------------------- the node to stand

  predicate NoLater(a: Log, b: Log) {
    EndsNoLater(a, if b == [] then 0 else b[|b| - 1].term, |b|)
  }

  /** The order of Section 5.4.1 is total and transitive. */
  lemma OrderOfLogs(a: Log, b: Log, c: Log)
    ensures NoLater(a, b) || NoLater(b, a)
    ensures NoLater(a, b) && NoLater(b, c) ==> NoLater(a, c)
  {}

  /** Some node's log ends no earlier than that of any other. */
  lemma {:induction false} Longest(nodes: seq<NodeState>, k: nat) returns (v: nat)
    requires 0 < k <= |nodes|
    ensures v < k && forall u | 0 <= u < k :: NoLater(nodes[u].log, nodes[v].log)
  {
    hide EndsNoLater;
    if k == 1 {
      v := 0;
      OrderOfLogs(nodes[0].log, nodes[0].log, nodes[0].log);
    } else {
      var w := Longest(nodes, k - 1);
      OrderOfLogs(nodes[k - 1].log, nodes[w].log, nodes[w].log);
      v := if NoLater(nodes[k - 1].log, nodes[w].log) then w else k - 1;
      forall u | 0 <= u < k
        ensures NoLater(nodes[u].log, nodes[v].log)
      {
        OrderOfLogs(nodes[v].log, nodes[v].log, nodes[v].log);
        if u < k - 1 { OrderOfLogs(nodes[u].log, nodes[w].log, nodes[v].log); }
      }
    }
  }

  lemma {:induction false} LatestTerm(nodes: seq<NodeState>, k: nat) returns (term: nat)
    requires k <= |nodes|
    ensures forall u | 0 <= u < k :: nodes[u].currentTerm <= term
  {
    if k == 0 {
      term := 0;
    } else {
      var t := LatestTerm(nodes, k - 1);
      term := if nodes[k - 1].currentTerm > t then nodes[k - 1].currentTerm else t;
    }
  }

  // ---------------------------------------------------------------- restarts and timeouts

  /** No log and no commitIndex has changed. */
  predicate SameLogs(c: Cluster, c': Cluster) {
    |c.nodes| == |c'.nodes| &&
    forall u | 0 <= u < |c.nodes| :: c'.nodes[u].log == c.nodes[u].log && c'.nodes[u].commitIndex == c.nodes[u].commitIndex
  }

  /** The dead among the first `k` nodes are restarted. */
  lemma {:induction false} Revive(n: nat, r: Run, k: nat) returns (r': Run)
    requires ValidRun(n, r) && k <= n && |Last(r).nodes| == n
    ensures GoesOn(n, r, r') && SameLogs(Last(r), Last(r'))
    ensures forall u | 0 <= u < k :: Last(r').nodes[u].alive
  {
    hide FreshVotesRun;
    if k == 0 {
      r' := r;
    } else {
      var r1 := Revive(n, r, k - 1);
      hide ValidRun;
      if Last(r1).nodes[k - 1].alive {
        r' := r1;
      } else {
        r' := Do(n, r1, k - 1, Recover(k - 1));
        GoesOnTwice(n, r, r1, r');
      }
    }
  }

  lemma StandingKeeps(s: NodeState)
    ensures var t := StartElection(s).node;
      && t.id == s.id && t.peers == s.peers && t.log == s.log && t.commitIndex == s.commitIndex && t.alive == s.alive
      && t.role.Candidate? && t.currentTerm == s.currentTerm + 1 && t.votesReceived == {s.id}
  {
    hide ToPeers;
  }

  /** The timer of `v` fires until its term is at least `term`. */
  lemma {:induction false} RaisedTo(n: nat, r: Run, v: nat, term: nat) returns (r': Run)
    requires ValidRun(n, r) && v < n && |Last(r).nodes| == n
    ensures GoesOn(n, r, r') && SameLogs(Last(r), Last(r')) && Last(r').nodes[v].currentTerm >= term
    ensures Last(r').nodes == Last(r).nodes[v := Last(r').nodes[v]]
    ensures Last(r').nodes[v].alive == Last(r).nodes[v].alive
    decreases term - Last(r).nodes[v].currentTerm
  {
    hide FreshVotesRun;
    if Last(r).nodes[v].currentTerm >= term {
      r' := r;
    } else {
      StandingKeeps(Last(r).nodes[v]);
      hide ValidRun, StartElection;
      var r1 := Do(n, r, v, Timeout(v));
      r' := RaisedTo(n, r1, v, term);
      GoesOnTwice(n, r, r1, r');
    }
  }

  // ---------------------------------------------------------------- the vote

  function BidTo(s: NodeState, u: int): Message {
    Message(s.id, u, RequestVote(s.currentTerm, s.id, |s.log|, if s.log == [] then 0 else s.log[|s.log| - 1].term))
  }

  function Ballot(u: int, v: int, term: nat): Message {
    Message(u, v, RequestVoteReply(term, true))
  }

  /** `v` stands in `term`, and of the others the first `k` have voted for it. */
  ghost predicate Canvassing(n: nat, c: Cluster, v: nat, term: nat, k: nat) {
    && v < n && |c.nodes| == n
    && c.nodes[v].role.Candidate? && c.nodes[v].currentTerm == term && c.nodes[v].id == v && v in c.nodes[v].votesReceived
    && (forall u | 0 <= u < n && u != v :: BidTo(c.nodes[v], u) in c.net && NoLater(c.nodes[u].log, c.nodes[v].log))
    && (forall u | 0 <= u < k && u < n && u != v :: c.nodes[u].currentTerm == term && Ballot(u, v, term) in c.net)
    && (forall u | k <= u < n && u != v :: c.nodes[u].currentTerm < term)
    && (forall u | 0 <= u < n :: c.nodes[u].alive)
  }

  lemma BidsSent(n: nat, v: nat, s: NodeState, u: int)
    requires NodeWf(n, v, s) && 0 <= u < n && u != v
    ensures BidTo(StartElection(s).node, u) in StartElection(s).sent
  {
    PeersOfMembers(n, v, u);
    hide SegmentWf;
    var i :| 0 <= i < |s.peers| && s.peers[i] == u;
    assert StartElection(s).sent[i] == BidTo(StartElection(s).node, u);
  }

  lemma Stands(n: nat, r: Run, v: nat) returns (r': Run)
    requires ValidRun(n, r) && v < n && |Last(r).nodes| == n && forall u | 0 <= u < n :: Last(r).nodes[u].alive
    requires forall u | 0 <= u < n :: Last(r).nodes[u].currentTerm <= Last(r).nodes[v].currentTerm
    requires forall u | 0 <= u < n :: NoLater(Last(r).nodes[u].log, Last(r).nodes[v].log)
    ensures GoesOn(n, r, r') && SameLogs(Last(r), Last(r'))
    ensures Canvassing(n, Last(r'), v, Last(r).nodes[v].currentTerm + 1, 0)
  {
    var s := Last(r).nodes[v];
    NodeAt(n, r, v);
    StandingKeeps(s);
    forall u | 0 <= u < n && u != v ensures BidTo(StartElection(s).node, u) in StartElection(s).sent { BidsSent(n, v, s, u); }
    hide ValidRun, FreshVotesRun, StartElection, NodeWf, NoLater, BidTo;
    r' := Do(n, r, v, Timeout(v));
  }

  /** A node of an earlier term grants a bid whose log ends no earlier than its own. */
  lemma GrantsLater(s: NodeState, m: Message)
    requires m.payload.RequestVote? && m.payload.term > s.currentTerm
    requires EndsNoLater(s.log, m.payload.lastLogTerm, m.payload.lastLogIndex)
    ensures var out := HandleRequestVote(s, m);
      && out.sent == [Ballot(s.id, m.sender, m.payload.term)]
      && out.node.currentTerm == m.payload.term && out.node.log == s.log && out.node.commitIndex == s.commitIndex
      && out.node.alive == s.alive
  {
    GrantedIff(s, m);
    hide HandleRequestVote, EndsNoLater;
    assert HandleRequestVote(s, m).sent == [HandleRequestVote(s, m).sent[0]];
  }

  lemma AskNext(n: nat, r: Run, v: nat, term: nat, k: nat) returns (r': Run)
    requires ValidRun(n, r) && k < n && Canvassing(n, Last(r), v, term, k)
    ensures GoesOn(n, r, r') && SameLogs(Last(r), Last(r')) && Canvassing(n, Last(r'), v, term, k + 1)
  {
    if k == v {
      r' := r;
    } else {
      var s, m := Last(r).nodes[k], BidTo(Last(r).nodes[v], k);
      NodeAt(n, r, k);
      GrantsLater(s, m);
      assert Effect(s, Deliver(m)) == HandleRequestVote(s, m);
      hide ValidRun, FreshVotesRun, HandleRequestVote, NodeWf, NoLater, EndsNoLater;
      r' := Do(n, r, k, Deliver(m));
      assert HandleRequestVote(s, m).sent[0] == Ballot(k, v, term);
    }
  }

  lemma {:induction false} Canvass(n: nat, r: Run, v: nat, term: nat, k: nat) returns (r': Run)
    requires ValidRun(n, r) && k <= n && Canvassing(n, Last(r), v, term, 0)
    ensures GoesOn(n, r, r') && SameLogs(Last(r), Last(r')) && Canvassing(n, Last(r'), v, term, k)
  {
    hide FreshVotesRun;
    if k == 0 {
      r' := r;
    } else {
      var r1 := Canvass(n, r, v, term, k - 1);
      hide Canvassing, ValidRun;
      r' := AskNext(n, r1, v, term, k - 1);
      GoesOnTwice(n, r, r1, r');
    }
  }

  // ---------------------------------------------------------------- the count

  /** Everyone has voted for `v`; it leads, or has counted itself and those of the first `k`. */
  ghost predicate Counting(n: nat, c: Cluster, v: nat, term: nat, k: nat) {
    && v < n && |c.nodes| == n && c.nodes[v].currentTerm == term
    && (forall u | 0 <= u < n && u != v :: Ballot(u, v, term) in c.net)
    && (forall u | 0 <= u < n :: c.nodes[u].alive && c.nodes[u].currentTerm == term)
    && (c.nodes[v].role.Leader? || (
          && c.nodes[v].role.Candidate? && v in c.nodes[v].votesReceived
          && forall u | 0 <= u < k :: u in c.nodes[v].votesReceived))
  }

  lemma CountsOrLeads(s: NodeState, m: Message)
    requires s.role.Candidate? && m.payload.RequestVoteReply? && m.payload.voteGranted && m.payload.term == s.currentTerm
    ensures var t := HandleRequestVoteReply(s, m).node;
      && t.currentTerm == s.currentTerm && t.log == s.log && t.commitIndex == s.commitIndex && t.alive == s.alive
      && (t.role.Leader? || (t.role.Candidate? && t.votesReceived == s.votesReceived + {m.sender}))
  {
    hide AppendsToPeers, Majority;
  }

  lemma CountNext(n: nat, r: Run, v: nat, term: nat, k: nat) returns (r': Run)
    requires ValidRun(n, r) && k < n && Counting(n, Last(r), v, term, k)
    ensures GoesOn(n, r, r') && SameLogs(Last(r), Last(r')) && Counting(n, Last(r'), v, term, k + 1)
  {
    if k == v || Last(r).nodes[v].role.Leader? {
      r' := r;
    } else {
      var s, m := Last(r).nodes[v], Ballot(k, v, term);
      CountsOrLeads(s, m);
      assert Effect(s, Deliver(m)) == HandleRequestVoteReply(s, m);
      hide ValidRun, FreshVotesRun, HandleRequestVoteReply;
      r' := Do(n, r, v, Deliver(m));
    }
  }

  lemma {:induction false} Count(n: nat, r: Run, v: nat, term: nat, k: nat) returns (r': Run)
    requires ValidRun(n, r) && k <= n && Counting(n, Last(r), v, term, 0)
    ensures GoesOn(n, r, r') && SameLogs(Last(r), Last(r')) && Counting(n, Last(r'), v, term, k)
  {
    hide FreshVotesRun;
    if k == 0 {
      r' := r;
    } else {
      var r1 := Count(n, r, v, term, k - 1);
      hide Counting, ValidRun;
      r' := CountNext(n, r1, v, term, k - 1);
      GoesOnTwice(n, r, r1, r');
    }
  }

  lemma {:induction false} AllOf(n: nat, q: set<int>)
    requires forall u | 0 <= u < n :: u in q
    ensures |q| >= n
  {
    if n > 0 {
      AllOf(n - 1, q - {n - 1});
      assert |q| == |q - {n - 1}| + 1 by { assert q == (q - {n - 1}) + {n - 1}; }
    }
  }

  /** With every vote counted there is no candidate left. */
  lemma Won(n: nat, r: Run, v: nat, term: nat)
    requires ValidRun(n, r) && n >= 2 && Counting(n, Last(r), v, term, n)
    ensures Last(r).nodes[v].role.Leader?
  {
    CandidateIsShort(n, r, |r.states| - 1, v);
    hide ValidRun;
    if !Last(r).nodes[v].role.Leader? {
      AllOf(n, Last(r).nodes[v].votesReceived);
      assert false;
    }
  }

  // ---------------------------------------------------------------- the election

  /** `v` leads in `c'` a term later than any in `c`; all nodes are live and in that term, with the logs they had. */
  predicate ElectedAnew(n: nat, c: Cluster, c': Cluster, v: nat) {
    && v < n && |c.nodes| == |c'.nodes| == n && SameLogs(c, c') && c'.nodes[v].role.Leader?
    && (forall u | 0 <= u < n :: c'.nodes[u].alive && c'.nodes[u].currentTerm == c'.nodes[v].currentTerm)
    && (forall u | 0 <= u < n :: c.nodes[u].currentTerm < c'.nodes[v].currentTerm)
    && (forall u | 0 <= u < n :: NoLater(c.nodes[u].log, c.nodes[v].log))
  }

  lemma LogsTwice(c: Cluster, c1: Cluster, c': Cluster)
    requires SameLogs(c, c1) && SameLogs(c1, c')
    ensures SameLogs(c, c')
  {}

  /** The choice of the candidate, and its last timeout. */
  lemma Candidacy(n: nat, r: Run) returns (r': Run, v: nat, term: nat)
    requires ValidRun(n, r) && n > 0 && |Last(r).nodes| == n
    ensures GoesOn(n, r, r') && SameLogs(Last(r), Last(r')) && Canvassing(n, Last(r'), v, term, 0)
    ensures forall u | 0 <= u < n :: Last(r).nodes[u].currentTerm < term && NoLater(Last(r).nodes[u].log, Last(r).nodes[v].log)
  {
    hide FreshVotesRun, EndsNoLater, NoLater;
    v := Longest(Last(r).nodes, n);
    var latest := LatestTerm(Last(r).nodes, n);
    var r1 := Revive(n, r, n);
    var later := LatestTerm(Last(r1).nodes, n);
    hide ValidRun;
    var r2 := RaisedTo(n, r1, v, if later > latest then later else latest);
    term := Last(r2).nodes[v].currentTerm + 1;
    r' := Stands(n, r2, v);
    GoesOnTwice(n, r, r1, r2);
    GoesOnTwice(n, r, r2, r');
  }

  /**
   * From every state of every run of two or more nodes some continuation, which counts no stale vote, restarts the
   * dead nodes and elects a leader of a new term, on the votes of all and with every log as it was.
   */
  lemma AlwaysElectable(n: nat, r: Run) returns (r': Run, v: nat)
    requires ValidRun(n, r) && n >= 2 && |Last(r).nodes| == n
    ensures GoesOn(n, r, r') && ElectedAnew(n, Last(r), Last(r'), v)
  {
    hide FreshVotesRun, NoLater;
    var r1, w, term := Candidacy(n, r);
    v := w;
    hide ValidRun;
    var r2 := Canvass(n, r1, v, term, n);
    assert Counting(n, Last(r2), v, term, 0);
    hide Canvassing;
    r' := Count(n, r2, v, term, n);
    Won(n, r', v, term);
    GoesOnTwice(n, r, r1, r2);
    GoesOnTwice(n, r, r2, r');
    hide GoesOn;
    LogsTwice(Last(r), Last(r1), Last(r2));
    LogsTwice(Last(r), Last(r2), Last(r'));
  }
}
