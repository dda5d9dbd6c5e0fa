/**
 * The cluster with the three missing checks put in: replies of an earlier term are ignored, and an accepted
 * AppendEntries is acknowledged through the last entry it vouches for instead of the end of the log. Election
 * Safety, Leader Completeness and State Machine Safety hold of every run of it, with no hypothesis.
 */
module RepairedCluster {
  import opened RaftTypes
  import opened NodeSpec
  import opened RaftSystem
  import opened Basics
  import opened Logs
  import opened Protocol
  import opened Completeness
  import opened LogLink
  import opened VoteLink
  import opened AckLink
  import opened CommitLink
  import opened Safety
  import opened Guards

  // ---------------------------------------------------------------- the repaired handlers

  predicate Takes(s: NodeState, m: Message) {
    m.payload.AppendEntries? && Accepts(s, m.payload)
  }

  /** The last index that an AppendEntries vouches for. */
  function End(m: Message): nat
    requires m.payload.AppendEntries?
  {
    m.payload.prevLogIndex + |m.payload.entries|
  }

  /** The node does what it did; only the number in the success reply differs. */
  function RepairedHandle(s: NodeState, m: Message): Outcome {
    var out := GuardedHandle(s, m);
    if Takes(s, m) then
      Outcome(out.node, [Message(s.id, m.sender, AppendEntriesReply(out.node.currentTerm, true, End(m)))])
    else out
  }

  function RepairedApply(c: Cluster, a: Action): Cluster
    requires Enabled(c, a)
  {
    if !a.Deliver? then Apply(c, a)
    else
      var out := RepairedHandle(c.nodes[a.m.receiver], a.m);
      Cluster(c.nodes[a.m.receiver := out.node], c.net + set m | m in out.sent)
  }

  predicate RepairedStep(r: Run, k: nat)
    requires k < |r.actions| && k + 1 < |r.states|
  {
    Enabled(r.states[k], r.actions[k]) && r.states[k + 1] == RepairedApply(r.states[k], r.actions[k])
  }

  predicate RepairedRun(n: nat, r: Run) {
    && |r.states| == |r.actions| + 1
    && r.states[0] == Init(n)
    && forall k | 0 <= k < |r.actions| :: RepairedStep(r, k)
  }

  // ---------------------------------------------------------------- an accepted message on the history

  /** As TrackMessage has it, but for the number acknowledged. */
  function TrackTaken(h: History, s: NodeState, m: Message): History
    requires Member(h, m.receiver) && Takes(s, m)
  {
    var b := Bump(h, m.receiver, Higher(s.currentTerm, m.payload.term));
    Accept(b, m.receiver, HandleAppendEntries(s, m).node.log, End(m))
  }

  lemma OnlyAcksDiffer(h: History, s: NodeState, m: Message)
    requires Member(h, m.receiver) && Takes(s, m)
    ensures TrackTaken(h, s, m) == TrackMessage(h, s, m).(acks := TrackTaken(h, s, m).acks)
  {
    hide HandleAppendEntries, Accepts;
  }

  /** What an accepted message vouches for is the leader's, whatever the log held past it. */
  lemma VouchedExactly(h: History, v: int, log: Log, end: nat)
    requires CanAccept(h, v, log, end)
    ensures AcksExactly(h, v, log, end)
  {
    AbsorbReaches(h.logs[v], h.leaderLogs[h.terms[v]], end, log);
    hide Absorbs;
  }

  lemma TakenAcks(n: nat, h: History, v: nat, s: NodeState, m: Message)
    requires Acking(n, h, v, s) && Takes(s, m) && m.receiver == v && MessageWf(n, m)
    requires MessageLog(h, m) && MessageAck(h, m)
    ensures AcksTo(h, TrackTaken(h, s, m), v, HandleAppendEntries(s, m).node)
    ensures forall o | o in RepairedHandle(s, m).sent :: MessageAck(TrackTaken(h, s, m), o)
  {
    hide FullInv, LogsInv, VotesInv, NodeWf, NodeVote, NodeAck, VotesAdvance, AcksAdvance, LogsAdvance, Merged;
    var a, b, s1 := m.payload, Bump(h, v, Higher(s.currentTerm, m.payload.term)), MaybeStepDown(s, m.payload.term);
    var t := HandleAppendEntries(s, m).node;
    AckingAfterStepDown(n, h, v, s, a.term);
    AcceptedFields(s, m);
    AcceptedAbsorbs(n, h, v, s, m);
    hide HandleAppendEntries, Absorbs;
    assert m.sender != v by { SenderDiffers(n, m); }
    AcceptedWithin(n, h, v, s, m);
    CoveredLater(h, b, a.term, a.term, a.leaderCommit);
    VouchedExactly(b, v, t.log, End(m));
    AcceptAcksAt(b, v, s1, t.log, End(m), End(m), a.leaderCommit, t);
    AcksToTwice(h, b, TrackTaken(h, s, m), v, s1, t);
    IdOf(n, v, s);
    hide AcksTo, MessageLog, Covered;
  }

  // ---------------------------------------------------------------- one step of the cluster

  ghost function RepairedTrack(h: History, c: Cluster, a: Action): History
    requires Enabled(c, a) && |h.terms| == |h.logs| == |h.accepted| == |c.nodes|
  {
    if a.Deliver? && Takes(c.nodes[a.m.receiver], a.m) then TrackTaken(h, c.nodes[a.m.receiver], a.m)
    else TrackStep(h, c, Filtered(c, a))
  }

  /** Where nothing is accepted the repaired step is a step of the code under the three hypotheses. */
  lemma OtherwiseAsBefore(c: Cluster, a: Action)
    requires Enabled(c, a) && !(a.Deliver? && Takes(c.nodes[a.m.receiver], a.m))
    ensures var f := Filtered(c, a);
      && Enabled(c, f) && RepairedApply(c, a) == Apply(c, f)
      && FreshVotes(c, f) && FreshAcks(c, f) && ExactAck(c, f)
  {
    GuardedIsFiltered(c, a);
    hide GuardedHandle, Apply, FreshVotes, FreshAcks, Handle, HandleAppendEntries, Accepts;
  }

  /** Logs and votes do not depend on what is acknowledged. */
  lemma AcksDoNotMatter(n: nat, h: History, h': History, c: Cluster, c': Cluster)
    requires Wf(n, c) && LogLinked(n, h, c) && VoteLinked(n, h, c) && h' == h.(acks := h'.acks) && c'.nodes == c.nodes
    requires forall m | m in c'.net && m !in c.net :: MessageWf(n, m) && m.payload.AppendEntriesReply?
    ensures Wf(n, c') && LogLinked(n, h', c') && VoteLinked(n, h', c')
  {
    hide NodeWf, MessageWf, Genuine, MonotoneUpTo, AllBelow, IsQuorum, UpToDate, LastTerm;
    assert LogsInv(h');
    FrameVotes(h, h');
    hide LogsInv, VotesInv;
    forall v: nat | v < n ensures NodeLog(h', v, c'.nodes[v]) { assert NodeLog(h, v, c.nodes[v]); }
    forall v: nat | v < n ensures NodeVote(h', v, c'.nodes[v]) { assert NodeVote(h, v, c.nodes[v]); }
    forall m | m in c'.net
      ensures MessageLog(h', m) && MessageVote(h', m)
    {
      assert m in c.net ==> MessageLog(h, m) && MessageVote(h, m);
    }
  }

  lemma RepliesTo(n: nat, v: nat, s: NodeState, m: Message)
    requires NodeWf(n, v, s) && MessageWf(n, m) && m.receiver == v && Takes(s, m)
    ensures RepairedHandle(s, m).node == HandleAppendEntries(s, m).node
    ensures forall o | o in RepairedHandle(s, m).sent :: MessageWf(n, o) && o.payload.AppendEntriesReply?
  {
    hide HandleAppendEntries, Accepts, SegmentWf;
  }

  lemma TakenLogsAndVotes(n: nat, h: History, c: Cluster, a: Action)
    requires Linked(n, h, c) && Enabled(c, a) && a.Deliver? && Takes(c.nodes[a.m.receiver], a.m)
    requires |h.terms| == |h.logs| == |h.accepted| == |c.nodes|
    ensures var h', c' := RepairedTrack(h, c, a), RepairedApply(c, a);
      Wf(n, c') && LogLinked(n, h', c') && VoteLinked(n, h', c')
  {
    var v: nat, s := a.m.receiver, c.nodes[a.m.receiver];
    hide Wf, LogLinked, VoteLinked, AckLinked, Accepts, HandleAppendEntries, GuardedHandle;
    ActingNode(n, h, c, a);
    StepWf(n, c, a);
    VoteLinkedStep(n, h, c, a);
    LinkedStep(n, h, c, a);
    LinkedNode(n, h, c, v);
    OnlyAcksDiffer(h, s, a.m);
    RepliesTo(n, v, s, a.m);
    hide FullInv, CoreInv, HeldInv, Acking, NodeWf, NodeLog, NodeAck, RepairedHandle, TrackMessage, TrackTaken;
    hide MessageLog, MessageVote, MessageAck, MessageWf;
    AcksDoNotMatter(n, TrackStep(h, c, a), RepairedTrack(h, c, a), Apply(c, a), RepairedApply(c, a));
  }

  lemma TakenLinked(n: nat, h: History, c: Cluster, a: Action)
    requires Linked(n, h, c) && Enabled(c, a) && a.Deliver? && Takes(c.nodes[a.m.receiver], a.m)
    requires |h.terms| == |h.logs| == |h.accepted| == |c.nodes|
    ensures Linked(n, RepairedTrack(h, c, a), RepairedApply(c, a)) && AcksAdvance(h, RepairedTrack(h, c, a))
  {
    var v: nat, s := a.m.receiver, c.nodes[a.m.receiver];
    hide Accepts, HandleAppendEntries, RepairedHandle, TrackTaken, Wf, LogLinked, VoteLinked, AckLinked;
    TakenLogsAndVotes(n, h, c, a);
    ActingNode(n, h, c, a);
    LinkedNode(n, h, c, v);
    hide Acking, NodeWf, MessageWf, MessageLog, MessageVote, MessageAck, FullInv, NodeAck, AcksAdvance;
    TakenAcks(n, h, v, s, a.m);
    RepliesTo(n, v, s, a.m);
    LinkedSize(n, RepairedTrack(h, c, a), RepairedApply(c, a));
    SpreadAcks(n, h, RepairedTrack(h, c, a), c, v, RepairedHandle(s, a.m));
  }

  lemma RepairedLinkedStep(n: nat, h: History, c: Cluster, a: Action)
    requires Linked(n, h, c) && Enabled(c, a) && |h.terms| == |h.logs| == |h.accepted| == |c.nodes|
    ensures Linked(n, RepairedTrack(h, c, a), RepairedApply(c, a)) && AcksAdvance(h, RepairedTrack(h, c, a))
  {
    hide Linked, Takes, AcksAdvance, RepairedApply, Filtered, TrackTaken;
    if a.Deliver? && Takes(c.nodes[a.m.receiver], a.m) {
      TakenLinked(n, h, c, a);
    } else {
      var f := Filtered(c, a);
      OtherwiseAsBefore(c, a);
      hide FreshVotes, FreshAcks, ExactAck, Apply, TrackStep;
      FullyLinkedStep(n, h, c, f);
      StepAdvances(n, h, c, f);
    }
  }

  lemma StepAdvances(n: nat, h: History, c: Cluster, a: Action)
    requires Linked(n, h, c) && Enabled(c, a) && FreshVotes(c, a) && FreshAcks(c, a) && ExactAck(c, a)
    requires |h.terms| == |h.logs| == |h.accepted| == |c.nodes|
    ensures AcksAdvance(h, TrackStep(h, c, a))
  {
    hide Effect, Track, FreshVotes, FreshAcks, ExactAck, Linked, AcksAdvance, ActsCarefully, Acking;
    if a.Network? {
      AcksAdvanceSelf(h);
    } else {
      ActingNode(n, h, c, a);
      Careful(c, a);
      EffectAcks(n, h, Actor(a), c.nodes[Actor(a)], a);
      hide FullInv, NodeAck;
    }
  }

  // ---------------------------------------------------------------- runs

  lemma StartsLinked(n: nat)
    ensures Linked(n, NoHistory(n), Init(n))
  {
    var r := Run([Init(n)], []);
    StartLinked(n, r);
    assert r.states[0] == Init(n) && HistoryAt(n, r, 0) == NoHistory(n);
    hide Linked, Init, NoHistory;
  }

  ghost function RepairedHistory(n: nat, r: Run, k: nat): (h: History)
    requires RepairedRun(n, r) && k < |r.states|
    ensures Linked(n, h, r.states[k])
  {
    if k == 0 then
      StartsLinked(n);
      NoHistory(n)
    else
      var c, a, h := r.states[k - 1], r.actions[k - 1], RepairedHistory(n, r, k - 1);
      assert RepairedStep(r, k - 1);
      LinkedSize(n, h, c);
      RepairedLinkedStep(n, h, c, a);
      RepairedTrack(h, c, a)
  }

  lemma NextHistory(n: nat, r: Run, k: nat)
    requires RepairedRun(n, r) && k < |r.actions|
    ensures AcksAdvance(RepairedHistory(n, r, k), RepairedHistory(n, r, k + 1))
  {
    assert RepairedStep(r, k);
    var c, a, h := r.states[k], r.actions[k], RepairedHistory(n, r, k);
    hide RepairedTrack, RepairedApply, AcksAdvance, LogLinked, Wf, VoteLinked, AckLinked;
    LinkedSize(n, h, c);
    hide Linked;
    RepairedLinkedStep(n, h, c, a);
  }

  lemma {:induction false} HistoriesAdvance(n: nat, r: Run, j: nat, k: nat)
    requires RepairedRun(n, r) && j <= k < |r.states|
    ensures AcksAdvance(RepairedHistory(n, r, j), RepairedHistory(n, r, k))
    decreases k
  {
    hide AcksAdvance, RepairedHistory, RepairedStep, Linked;
    if j == k {
      AcksAdvanceSelf(RepairedHistory(n, r, j));
    } else {
      HistoriesAdvance(n, r, j, k - 1);
      NextHistory(n, r, k - 1);
      AcksAdvanceTwice(RepairedHistory(n, r, j), RepairedHistory(n, r, k - 1), RepairedHistory(n, r, k));
    }
  }

  /** What node `v` had at state `j` is still on record at state `k`. */
  lemma OnRecord(n: nat, r: Run, j: nat, k: nat, v: nat)
    requires RepairedRun(n, r) && j <= k < |r.states| && v < n
    ensures |r.states[j].nodes| == n
    ensures var h, s := RepairedHistory(n, r, k), r.states[j].nodes[v];
      && CoreInv(h) && CoveredOn(h, s.log, s.currentTerm, s.commitIndex)
      && (s.role.Leader? ==>
            s.currentTerm in h.leaders && h.leaders[s.currentTerm] == v && s.currentTerm in h.leaderLogs
            && Appended(s.log, h.leaderLogs[s.currentTerm], s.currentTerm))
  {
    HistoriesAdvance(n, r, j, k);
    hide RepairedStep, Linked, AcksAdvance, CoveredOn, CoreInv, HeldInv;
    var h0, h, s := RepairedHistory(n, r, j), RepairedHistory(n, r, k), r.states[j].nodes[v];
    LinkedNode(n, h0, r.states[j], v);
    LinkedNode(n, h, r.states[k], v);
    CoveredOnLater(h0, h, s.log, s.log, s.currentTerm, s.currentTerm, s.commitIndex);
    if s.role.Leader? { LeaderOnRecord(h0, h, v, s); }
  }

  lemma LeaderOnRecord(h: History, h': History, v: nat, s: NodeState)
    requires NodeLog(h, v, s) && s.role.Leader? && AcksAdvance(h, h')
    ensures s.currentTerm in h'.leaders && h'.leaders[s.currentTerm] == v && s.currentTerm in h'.leaderLogs
    ensures Appended(s.log, h'.leaderLogs[s.currentTerm], s.currentTerm)
  {}

  /** Election Safety (Section 5.2) of every run of the repaired cluster. */
  lemma RepairedElectionSafety(n: nat, r: Run, j: nat, k: nat, a: nat, b: nat, term: nat)
    requires RepairedRun(n, r) && j < |r.states| && k < |r.states| && a < n && b < n
    requires |r.states[j].nodes| == |r.states[k].nodes| == n
    requires LeadsIn(r.states[j], a, term) && LeadsIn(r.states[k], b, term)
    ensures a == b
  {
    var last := if j < k then k else j;
    hide RepairedRun, CoreInv, CoveredOn, RepairedHistory, Linked;
    OnRecord(n, r, j, last, a);
    OnRecord(n, r, k, last, b);
  }

  /** Leader Completeness (Section 5.4.3) of every run of the repaired cluster. */
  lemma RepairedLeaderCompleteness(n: nat, r: Run, j: nat, k: nat, a: nat, b: nat, term: nat, later: nat)
    requires RepairedRun(n, r) && j < |r.states| && k < |r.states| && a < n && b < n
    requires |r.states[j].nodes| == |r.states[k].nodes| == n && term < later
    requires LeadsIn(r.states[j], a, term) && LeadsIn(r.states[k], b, later)
    ensures Agree(r.states[j].nodes[a].log, r.states[k].nodes[b].log, r.states[j].nodes[a].commitIndex)
  {
    var last := if j < k then k else j;
    hide RepairedRun, CoreInv, CoveredOn, RepairedHistory, Linked, Appended;
    OnRecord(n, r, j, last, a);
    OnRecord(n, r, k, last, b);
    var s := r.states[j].nodes[a];
    CoveredByLaterLeader(RepairedHistory(n, r, last), s.log, s.commitIndex, s.currentTerm, later, r.states[k].nodes[b].log);
  }

  /**
   * State Machine Safety (Section 5.4.3) of every run of the repaired cluster, whatever is delivered when, lost
   * or repeated, and whoever crashes and restarts.
   */
  lemma RepairedStateMachineSafety(n: nat, r: Run, j: nat, k: nat, a: nat, b: nat)
    requires RepairedRun(n, r) && j < |r.states| && k < |r.states| && a < n && b < n
    ensures |r.states[j].nodes| == |r.states[k].nodes| == n
    ensures var s, t := r.states[j].nodes[a], r.states[k].nodes[b];
      Agree(s.log, t.log, if s.commitIndex < t.commitIndex then s.commitIndex else t.commitIndex)
  {
    var last := if j < k then k else j;
    hide RepairedRun, CoreInv, CoveredOn, RepairedHistory, Linked, Appended, Agree;
    OnRecord(n, r, j, last, a);
    OnRecord(n, r, k, last, b);
    var s, t := r.states[j].nodes[a], r.states[k].nodes[b];
    CoveredLogsAgree(RepairedHistory(n, r, last), s.log, s.commitIndex, s.currentTerm, t.log, t.commitIndex, t.currentTerm);
  }
}
