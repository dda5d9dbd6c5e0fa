/**
 * Repair of a diverged follower: send, handle, reply, back off by one, send again. For a fixed leader log and
 * any follower of no later term the loop ends, at an exactly known round, and leaves the leader's log in place.
 */
module Repair {
  import opened RaftTypes
  import opened NodeSpec
  import opened Logs
  import opened AppendLoop
  import opened RaftSystem
  import opened Basics
  import opened Safety

  datatype Pair = Pair(leader: NodeState, follower: NodeState)

  /** A leader and one of its peers, which has not moved past the leader's term. */
  predicate Repairing(x: Pair) {
    && x.leader.role.Leader? && x.follower.currentTerm <= x.leader.currentTerm
    && x.follower.id in x.leader.nextIndex && x.leader.nextIndex[x.follower.id] >= 1
    && (forall i | 0 <= i < |x.leader.log| :: x.leader.log[i].term >= 1)
    && (forall i | 0 <= i < |x.follower.log| :: x.follower.log[i].term >= 1)
  }

  function Next(x: Pair): Position {
    NextOf(x.leader, x.follower.id)
  }

  function Offer(x: Pair): (m: Message)
    ensures m.payload.AppendEntries?
  {
    AppendFor(x.leader, x.follower.id)
  }

  predicate Succeeds(x: Pair) {
    Accepts(x.follower, Offer(x).payload)
  }

  /** One AppendEntries to the follower and its reply back to the leader. */
  function Round(x: Pair): Pair {
    var out := HandleAppendEntries(x.follower, Offer(x));
    Pair(HandleAppendEntriesReply(x.leader, out.sent[0]).node, out.node)
  }

  function After(x: Pair, rounds: nat): Pair {
    if rounds == 0 then x else Round(After(x, rounds - 1))
  }

  /** The two logs carry the same term at the 1-based index `i`, or `i` is the start of both. */
  predicate Common(a: Log, b: Log, i: nat) {
    i == 0 || (i <= |a| && i <= |b| && a[i - 1].term == b[i - 1].term)
  }

  /** The last index up to `top` at which the two logs carry the same term. */
  function Meeting(a: Log, b: Log, top: nat): (i: nat)
    ensures i <= top && Common(a, b, i) && forall j | i < j <= top :: !Common(a, b, j)
  {
    if Common(a, b, top) then top else Meeting(a, b, top - 1)
  }

  predicate SameTerms(a: Log, b: Log, k: nat) {
    k <= |a| && k <= |b| && forall i | 0 <= i < k :: a[i].term == b[i].term
  }

  /** Where repair will end: the last index below nextIndex at which the logs of the pair carry the same term. */
  function MeetingPoint(x: Pair): nat {
    Meeting(x.leader.log, x.follower.log, Next(x) - 1)
  }

  function RoundsNeeded(x: Pair): (rounds: nat)
    ensures 1 <= rounds <= Next(x)
  {
    Next(x) - MeetingPoint(x)
  }

  /** After `j` rounds nothing but nextIndex has moved, and the next round succeeds just when it is the last. */
  ghost predicate Untouched(x: Pair, j: nat, y: Pair) {
    && y.follower.log == x.follower.log && y.leader.log == x.leader.log && y.follower.id == x.follower.id
    && Next(y) == Next(x) - j
    && (Succeeds(y) <==> j == RoundsNeeded(x) - 1)
  }

  // ---------------------------------------------------------------- one round

  lemma SucceedsIff(x: Pair)
    requires Repairing(x)
    ensures Succeeds(x) <==> Common(x.leader.log, x.follower.log, Next(x) - 1)
  {}

  lemma RejectedRound(x: Pair)
    requires Repairing(x) && !Succeeds(x)
    ensures Repairing(Round(x)) && Next(Round(x)) == Next(x) - 1 && Round(x).follower.id == x.follower.id
    ensures Round(x).follower.log == x.follower.log && Round(x).leader.log == x.leader.log
  {
    SucceedsIff(x);
    hide Merged, AdvanceCommit;
  }

  lemma AcceptedRound(x: Pair, q: nat)
    requires Repairing(x) && Succeeds(x) && q == Next(x) - 1
    ensures q <= |x.leader.log| && q <= |x.follower.log|
    ensures Round(x).follower.log == Merged(x.follower.log, q, x.leader.log[q..])
    ensures Round(x).leader.log == x.leader.log && Round(x).leader.role.Leader?
  {
    SucceedsIff(x);
    hide Merged, ScanDown;
    var m := Offer(x);
    HandledLog(x.follower, m);
    assert m.payload.entries == x.leader.log[q..];
  }

  // ---------------------------------------------------------------- all rounds

  lemma {:induction false} WhileRejected(x: Pair, j: nat)
    requires Repairing(x) && j < RoundsNeeded(x)
    ensures Repairing(After(x, j)) && Untouched(x, j, After(x, j))
  {
    hide Succeeds, Round, Repairing, NextOf;
    if j > 0 {
      WhileRejected(x, j - 1);
      RejectedRound(After(x, j - 1));
    }
    SucceedsIff(After(x, j));
  }

  lemma MeetingBounds(x: Pair)
    ensures MeetingPoint(x) <= |x.leader.log| && MeetingPoint(x) <= |x.follower.log|
    ensures Common(x.leader.log, x.follower.log, MeetingPoint(x))
  {}

  /**
   * Repair needs exactly nextIndex - q rounds, where q is the last index below nextIndex at which the two logs
   * carry the same term. Every earlier round is rejected and leaves the follower's log alone; the last one
   * merges everything the leader has past q.
   */
  lemma RepairTerminates(x: Pair)
    requires Repairing(x)
    ensures forall j: nat | j < RoundsNeeded(x) :: Untouched(x, j, After(x, j))
    ensures MeetingPoint(x) <= |x.leader.log| && MeetingPoint(x) <= |x.follower.log|
    ensures Repaired(x) == Merged(x.follower.log, MeetingPoint(x), x.leader.log[MeetingPoint(x)..])
  {
    MeetingBounds(x);
    hide MeetingPoint, Round, Succeeds, Merged, Repairing, NextOf;
    forall j: nat | j < RoundsNeeded(x)
      ensures Untouched(x, j, After(x, j))
    {
      WhileRejected(x, j);
    }
    var last := After(x, RoundsNeeded(x) - 1);
    WhileRejected(x, RoundsNeeded(x) - 1);
    AcceptedRound(last, MeetingPoint(x));
    assert After(x, RoundsNeeded(x)) == Round(last);
  }

  /** The follower's log after the last round of repair. */
  function Repaired(x: Pair): Log {
    After(x, RoundsNeeded(x)).follower.log
  }

  lemma MergedTerms(log: Log, source: Log, q: nat)
    requires q <= |source| && q <= |log|
    ensures var z := Merged(log, q, source[q..]);
      |z| >= |source| && forall i | 0 <= i < |source| :: if i < q then z[i] == log[i] else z[i].term == source[i].term
  {
    MergedOutcome(log, q, source[q..]);
    hide Merged, Conflicts;
    var z := Merged(log, q, source[q..]);
    forall i | 0 <= i < |source|
      ensures if i < q then z[i] == log[i] else z[i].term == source[i].term
    {
      if i < q { assert z[i] == z[..q][i] == log[..q][i]; } else { assert z[q + (i - q)].term == source[q..][i - q].term; }
    }
  }

  /**
   * After repair the follower carries the terms of the whole leader log exactly when the two logs carried the
   * same terms up to the meeting point, which is what Log Matching gives.
   */
  lemma RepairedTerms(x: Pair)
    requires Repairing(x)
    ensures SameTerms(Repaired(x), x.leader.log, |x.leader.log|)
       <==> SameTerms(x.follower.log, x.leader.log, MeetingPoint(x))
  {
    RepairTerminates(x);
    MergedTerms(x.follower.log, x.leader.log, MeetingPoint(x));
    hide Repaired, MeetingPoint, Merged, Untouched, Repairing;
    var z, b, a := Repaired(x), x.follower.log, x.leader.log;
    assert forall i | 0 <= i < MeetingPoint(x) :: z[i] == b[i];
  }

  /** With Log Matching between the two logs, the follower ends with the whole leader log, commands included. */
  lemma RepairedLog(x: Pair)
    requires Repairing(x) && Matching(x.follower.log, x.leader.log)
    ensures Agree(Repaired(x), x.leader.log, |x.leader.log|)
  {
    RepairTerminates(x);
    MeetingBounds(x);
    var a, b, q := x.leader.log, x.follower.log, MeetingPoint(x);
    hide Repaired, MeetingPoint, Untouched, Repairing, Matching, Merged;
    assert a[q..|a|] == a[q..];
    SegmentAbsorbed(b, a, q, if q == 0 then 0 else a[q - 1].term, |a|);
    AbsorbReaches(b, a, |a|, Merged(b, q, a[q..]));
  }

  lemma PairOfNodes(n: nat, v: nat, p: nat, x: Pair)
    requires NodeWf(n, v, x.leader) && NodeWf(n, p, x.follower) && p != v
    requires x.leader.role.Leader? && x.follower.currentTerm <= x.leader.currentTerm
    ensures Repairing(x)
  {
    PeersOfMembers(n, v, p);
  }

  /**
   * In every state of every run with one leader per term, repair of any peer that is not ahead in term brings
   * it the whole log of the leader.
   */
  lemma RepairInRun(n: nat, r: Run, k: nat, v: nat, p: nat)
    requires ValidRun(n, r) && OneLeaderPerTerm(n, r) && k < |r.states| && v < n && p < n && v != p
    requires |r.states[k].nodes| == n && r.states[k].nodes[v].role.Leader?
    requires r.states[k].nodes[p].currentTerm <= r.states[k].nodes[v].currentTerm
    ensures var x := Pair(r.states[k].nodes[v], r.states[k].nodes[p]);
      Repairing(x) && Agree(Repaired(x), x.leader.log, |x.leader.log|)
  {
    var x := Pair(r.states[k].nodes[v], r.states[k].nodes[p]);
    WellFormedRun(n, r, k);
    hide ValidRun, OneLeaderPerTerm, MessageWf, NodeWf, Repairing, Repaired, Agree;
    PairOfNodes(n, v, p, x);
    forall i: nat | i < |x.follower.log| && i < |x.leader.log| && x.follower.log[i].term == x.leader.log[i].term
      ensures Agree(x.follower.log, x.leader.log, i + 1)
    {
      LogMatching(n, r, k, k, p, v, i);
    }
    RepairedLog(x);
  }

  /** After a success reply the leader resumes right after what it then takes the peer to hold. */
  lemma ResumesAfterMatch(s: NodeState, m: Message)
    requires m.payload.AppendEntriesReply? && m.payload.success && s.role.Leader? && m.payload.term <= s.currentTerm
    ensures var t, p := HandleAppendEntriesReply(s, m).node, m.sender;
      && MatchOf(t, p) >= m.payload.matchIndex && MatchOf(t, p) >= MatchOf(s, p)
      && AppendFor(t, p).payload.prevLogIndex == MatchOf(t, p)
      && (MatchOf(t, p) <= |t.log| ==> t.log == t.log[..MatchOf(t, p)] + AppendFor(t, p).payload.entries)
  {
    hide ScanDown;
  }

  /** Without Log Matching the claim fails: equal last terms hide a difference below them. */
  lemma RepairNeedsMatching() returns (x: Pair)
    ensures Repairing(x) && !SameTerms(Repaired(x), x.leader.log, |x.leader.log|)
  {
    var f := NewNode(1, [0]).(currentTerm := 2, log := [Entry(1, 2, ""), Entry(2, 2, "")]);
    var l := NewNode(0, [1]).(currentTerm := 2, log := [Entry(1, 1, ""), Entry(2, 2, "")], role := Leader, nextIndex := map[1 := 3]);
    x := Pair(l, f);
    RepairedTerms(x);
    assert Next(x) - 1 == 2 && Common(l.log, f.log, 2);
    assert f.log[0].term != l.log[0].term;
  }
}
