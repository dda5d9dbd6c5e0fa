/**
 * No state is a dead end: from every state of every run that counts no stale vote, some continuation commits a
 * new command on every node.
 */
module ProgressRuns {
  import opened RaftTypes
  import opened NodeSpec
  import opened RaftSystem
  import opened Basics
  import opened Logs
  import opened Safety
  import opened RunSteps
  import opened RepairRuns
  import opened ElectionRuns

  /** `v` leads in `term` with `log`; all nodes are live, in that term, and no other node leads. */
  predicate Led(n: nat, c: Cluster, v: nat, term: nat, log: Log) {
    && v < n && |c.nodes| == n && c.nodes[v].role.Leader? && c.nodes[v].currentTerm == term && c.nodes[v].log == log
    && forall u | 0 <= u < n :: c.nodes[u].alive && c.nodes[u].currentTerm == term
  }

  // ---------------------------------------------------------------- the command

  lemma Propose(n: nat, r: Run, v: nat, term: nat, log: Log, command: string) returns (r': Run)
    requires ValidRun(n, r) && Led(n, Last(r), v, term, log)
    ensures GoesOn(n, r, r') && Led(n, Last(r'), v, term, log + [Entry(|log| + 1, term, command)])
  {
    var s := Last(r).nodes[v];
    SubmitFields(s, command);
    assert Effect(s, Client(v, command)) == Submit(s, command);
    hide ValidRun, FreshVotesRun, Submit;
    r' := Do(n, r, v, Client(v, command));
  }

  lemma SubmitFields(s: NodeState, command: string)
    requires s.role.Leader?
    ensures var t := Submit(s, command).node;
      && t.log == s.log + [Entry(|s.log| + 1, s.currentTerm, command)] && t.role.Leader?
      && t.currentTerm == s.currentTerm && t.alive == s.alive
  {
    hide AppendsToPeers;
  }

  // ---------------------------------------------------------------- the log brought to everyone

  /** The first `k` nodes hold the log of `v` and are known to, and have committed what `done` says. */
  ghost predicate HeldByFirst(n: nat, c: Cluster, v: nat, log: Log, k: nat, done: nat) {
    && v < n && |c.nodes| == n
    && forall u | 0 <= u < k && u < n && u != v ::
      Agree(c.nodes[u].log, log, |log|) && MatchOf(c.nodes[v], u) >= |log| && c.nodes[u].commitIndex >= done
  }

  lemma BroughtKeeps(n: nat, c: Cluster, c': Cluster, v: nat, term: nat, log: Log, k: nat, done: nat)
    requires Led(n, c, v, term, log) && k < n && k != v && Brought(n, c, c', v, k)
    requires HeldByFirst(n, c, v, log, k, done) && done <= c.nodes[v].commitIndex && done <= |log|
    ensures Led(n, c', v, term, log) && HeldByFirst(n, c', v, log, k + 1, done)
    ensures c'.nodes[v].commitIndex >= c.nodes[v].commitIndex && Scanned(c'.nodes[v])
  {
    hide Agree, MatchOf, Scanned;
  }

  lemma {:induction false} BringToFirst(n: nat, r: Run, v: nat, term: nat, log: Log, k: nat, done: nat) returns (r': Run)
    requires ValidRun(n, r) && FreshVotesRun(n, r) && k <= n && Led(n, Last(r), v, term, log)
    requires done <= Last(r).nodes[v].commitIndex && done <= |log|
    ensures GoesOn(n, r, r') && Led(n, Last(r'), v, term, log) && HeldByFirst(n, Last(r'), v, log, k, done)
    ensures Last(r').nodes[v].commitIndex >= Last(r).nodes[v].commitIndex
    ensures k >= (if v == 0 then 2 else 1) ==> Scanned(Last(r').nodes[v])
  {
    if k == 0 {
      r' := r;
    } else {
      hide HeldByFirst, Scanned;
      var r1 := BringToFirst(n, r, v, term, log, k - 1, done);
      if k - 1 == v {
        r' := r1;
        SkipLeader(n, Last(r1), v, log, done);
      } else {
        assert |Last(r1).nodes| == n;
        FreshVotesOneLeader(n, r1);
        hide ValidRun, FreshVotesRun, OneLeaderPerTerm;
        r' := RepairRun(n, r1, v, k - 1);
        hide Brought;
        BroughtKeeps(n, Last(r1), Last(r'), v, term, log, k - 1, done);
        GoesOnTwice(n, r, r1, r');
      }
    }
  }

  lemma SkipLeader(n: nat, c: Cluster, v: nat, log: Log, done: nat)
    requires HeldByFirst(n, c, v, log, v, done)
    ensures HeldByFirst(n, c, v, log, v + 1, done)
  {
    hide Agree, MatchOf;
  }

  // ---------------------------------------------------------------- the commit

  lemma {:induction false} EveryoneCounts(matched: map<int, nat>, peers: seq<int>, index: nat)
    requires forall p | p in peers :: Lookup(matched, p) >= index
    ensures CountAtLeast(matched, peers, index) == |peers|
  {
    if peers != [] { EveryoneCounts(matched, peers[..|peers| - 1], index); }
  }

  /** A leader whose whole log everyone holds has committed it, if the last entry is its own. */
  lemma AllCommitted(n: nat, c: Cluster, v: nat, term: nat, log: Log)
    requires n >= 2 && Led(n, c, v, term, log) && HeldByFirst(n, c, v, log, n, 0) && Scanned(c.nodes[v])
    requires NodeWf(n, v, c.nodes[v]) && log != [] && log[|log| - 1].term == term
    ensures c.nodes[v].commitIndex >= |log|
  {
    var s := c.nodes[v];
    hide SegmentWf, Agree;
    forall p | p in s.peers
      ensures Lookup(s.matchIndex, p) >= |log|
    {
      PeersOfMembers(n, v, p);
      assert MatchOf(s, p) >= |log|;
    }
    EveryoneCounts(s.matchIndex, s.peers, |log|);
    assert |s.peers| == n - 1;
    hide CountAtLeast;
    assert Committable(s, |log|);
  }

  lemma BothTimes(n: nat, r: Run, v: nat, term: nat, log: Log) returns (r': Run)
    requires ValidRun(n, r) && FreshVotesRun(n, r) && n >= 2 && Led(n, Last(r), v, term, log)
    requires log != [] && log[|log| - 1].term == term
    ensures GoesOn(n, r, r') && Led(n, Last(r'), v, term, log) && HeldByFirst(n, Last(r'), v, log, n, |log|)
    ensures Last(r').nodes[v].commitIndex >= |log|
  {
    assert |r.states| > 0;
    hide ValidRun, FreshVotesRun, HeldByFirst, Scanned, NodeWf;
    var r1 := BringToFirst(n, r, v, term, log, n, 0);
    NodeAt(n, r1, v);
    AllCommitted(n, Last(r1), v, term, log);
    r' := BringToFirst(n, r1, v, term, log, n, |log|);
    GoesOnTwice(n, r, r1, r');
  }

  /** Every node has committed `log`. */
  predicate CommittedByAll(n: nat, c: Cluster, log: Log) {
    |c.nodes| == n && forall u | 0 <= u < n :: c.nodes[u].commitIndex >= |log| && Agree(c.nodes[u].log, log, |log|)
  }

  lemma EveryoneHas(n: nat, c: Cluster, v: nat, term: nat, log: Log)
    requires Led(n, c, v, term, log) && HeldByFirst(n, c, v, log, n, |log|) && c.nodes[v].commitIndex >= |log|
    ensures CommittedByAll(n, c, log)
  {
    assert Agree(log, log, |log|);
    hide Agree, MatchOf;
  }

  /**
   * From every state of every run of two or more nodes that counts no stale vote, some continuation commits a
   * given new command on every node: its leader's log is one that some node held before, which ends no earlier
   * than that of any other, followed by the command.
   */
  lemma AlwaysCommits(n: nat, r: Run, command: string) returns (r': Run, v: nat, e: Entry)
    requires ValidRun(n, r) && FreshVotesRun(n, r) && n >= 2 && |Last(r).nodes| == n
    ensures GoesOn(n, r, r') && v < n && e.command == command
    ensures forall u | 0 <= u < n :: NoLater(Last(r).nodes[u].log, Last(r).nodes[v].log)
    ensures CommittedByAll(n, Last(r'), Last(r).nodes[v].log + [e])
  {
    hide FreshVotesRun, NoLater, Agree;
    var r1, w := AlwaysElectable(n, r);
    v := w;
    var log, term := Last(r).nodes[v].log, Last(r1).nodes[v].currentTerm;
    e := Entry(|log| + 1, term, command);
    hide ValidRun;
    assert Led(n, Last(r1), v, term, log);
    var r2 := Propose(n, r1, v, term, log, command);
    hide ElectedAnew, Led, HeldByFirst;
    r' := BothTimes(n, r2, v, term, log + [e]);
    EveryoneHas(n, Last(r'), v, term, log + [e]);
    GoesOnTwice(n, r, r1, r2);
    GoesOnTwice(n, r, r2, r');
  }
}
