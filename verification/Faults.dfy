/** Crashes and restarts over whole runs: when a node is down, and what a restart takes from it. */
module Faults {
  import opened RaftTypes
  import opened NodeSpec
  import opened RaftSystem
  import opened RunFacts

  // ---------------------------------------------------------------- one action

  lemma HandleKeepsAlive(s: NodeState, m: Message)
    ensures Handle(s, m).node.alive == s.alive
  {
    hide Merged, ScanDown, AppendsToPeers, Lookup, NextOf, Majority, Grants, Fits;
  }

  lemma EffectAlive(s: NodeState, a: Action)
    requires !a.Network?
    ensures Effect(s, a).node.alive == if a.Crash? then false else if a.Recover? then true else s.alive
  {
    hide AppendsToPeers, ToPeers, Handle;
    if a.Deliver? { HandleKeepsAlive(s, a.m); }
  }

  lemma StepAlive(n: nat, r: Run, k: nat, v: nat)
    requires ValidRun(n, r) && k < |r.actions| && v < n
    ensures |r.states[k].nodes| == |r.states[k + 1].nodes| == n
    ensures r.states[k + 1].nodes[v].alive ==
      if r.actions[k] == Crash(v) then false else if r.actions[k] == Recover(v) then true else r.states[k].nodes[v].alive
  {
    NodeCount(n, r, k);
    NodeCount(n, r, k + 1);
    assert Step(r, k);
    var a := r.actions[k];
    if !a.Network? { EffectAlive(r.states[k].nodes[Actor(a)], a); }
    hide Effect, ValidRun;
  }

  // ---------------------------------------------------------------- down and up

  /** Step `j` crashed `v`, and no step since has restarted it. */
  predicate CrashedAt(r: Run, j: nat, k: nat, v: nat) {
    j < k <= |r.actions| && r.actions[j] == Crash(v) && forall i | j < i < k :: r.actions[i] != Recover(v)
  }

  /** A node is down exactly from a crash to the next restart. */
  lemma {:induction false} DownIff(n: nat, r: Run, k: nat, v: nat)
    requires ValidRun(n, r) && k < |r.states| && v < n
    ensures |r.states[k].nodes| == n
    ensures !r.states[k].nodes[v].alive <==> exists j: nat :: CrashedAt(r, j, k, v)
  {
    if k > 0 {
      DownIff(n, r, k - 1, v);
      StepAlive(n, r, k - 1, v);
      hide ValidRun;
      if r.actions[k - 1] == Crash(v) { assert CrashedAt(r, k - 1, k, v); }
      var before: nat := k - 1;
      if j: nat :| CrashedAt(r, j, before, v) {
        if r.actions[before] != Recover(v) { assert CrashedAt(r, j, k, v); }
      }
      if j: nat :| CrashedAt(r, j, k, v) {
        if j < before { assert CrashedAt(r, j, before, v); }
      }
    }
  }

  // ---------------------------------------------------------------- what is kept and what is lost

  /** All that survives a crash and a restart, and all there is to the node but its role and whether it is up. */
  predicate SameMemory(s: NodeState, t: NodeState) {
    && t.id == s.id && t.peers == s.peers && t.currentTerm == s.currentTerm && t.votedFor == s.votedFor
    && t.log == s.log && t.commitIndex == s.commitIndex && t.lastApplied == s.lastApplied
    && t.nextIndex == s.nextIndex && t.matchIndex == s.matchIndex && t.votesReceived == s.votesReceived
  }

  /** A node that follows in a term neither stands nor leads in it any more. */
  lemma {:induction false} FollowsForGood(n: nat, r: Run, j: nat, k: nat, v: nat)
    requires ValidRun(n, r) && j <= k < |r.states| && v < n
    requires |r.states[j].nodes| == |r.states[k].nodes| == n
    requires r.states[j].nodes[v].role.Follower? && r.states[k].nodes[v].currentTerm == r.states[j].nodes[v].currentTerm
    ensures r.states[k].nodes[v].role.Follower?
    decreases k
  {
    if j < k {
      OneVotePerTerm(n, r, j, k - 1, v);
      RunStepKeeps(n, r, k - 1, v);
      FollowsForGood(n, r, j, k - 1, v);
    }
  }

  /** The crash of a node takes nothing but its life. */
  lemma CrashKeeps(n: nat, r: Run, k: nat, v: nat)
    requires ValidRun(n, r) && k < |r.actions| && v < n && r.actions[k] == Crash(v)
    ensures |r.states[k].nodes| == |r.states[k + 1].nodes| == n
    ensures r.states[k + 1].nodes[v] == r.states[k].nodes[v].(alive := false)
  {
    NodeCount(n, r, k);
    assert Step(r, k);
  }

  /**
   * A restarted node is a live follower with the term, vote, log and commitIndex it had, and in the term it had it
   * never again stands or leads.
   */
  lemma RestartFollows(n: nat, r: Run, k: nat, v: nat)
    requires ValidRun(n, r) && k < |r.actions| && v < n && r.actions[k] == Recover(v)
    ensures |r.states[k].nodes| == |r.states[k + 1].nodes| == n
    ensures var s, t := r.states[k].nodes[v], r.states[k + 1].nodes[v]; t.alive && t.role.Follower? && SameMemory(s, t)
    ensures forall j | k < j < |r.states| ::
      |r.states[j].nodes| == n &&
      (r.states[j].nodes[v].currentTerm == r.states[k].nodes[v].currentTerm ==> r.states[j].nodes[v].role.Follower?)
  {
    NodeCount(n, r, k);
    NodeCount(n, r, k + 1);
    assert Step(r, k);
    assert r.states[k + 1].nodes[v] == Restart(r.states[k].nodes[v]).node;
    hide ValidRun, Apply;
    forall j | k < j < |r.states|
      ensures |r.states[j].nodes| == n
      ensures r.states[j].nodes[v].currentTerm == r.states[k].nodes[v].currentTerm ==> r.states[j].nodes[v].role.Follower?
    {
      NodeCount(n, r, j);
      if r.states[j].nodes[v].currentTerm == r.states[k].nodes[v].currentTerm { FollowsForGood(n, r, k + 1, j, v); }
    }
  }
}
