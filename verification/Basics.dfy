/** What every run of the code keeps, with no hypothesis at all: well-formed nodes, logs and messages. */
module Basics {
  import opened RaftTypes
  import opened NodeSpec
  import opened RaftSystem

  // ---------------------------------------------------------------- well-formedness

  /** `log` may sit in a node's log from 0-based position `at` on, in a cluster that has reached term `cap`. */
  predicate SegmentWf(log: Log, at: nat, cap: nat) {
    && (forall i | 0 <= i < |log| :: log[i].index == at + i + 1 && 1 <= log[i].term <= cap)
    && (forall i, j | 0 <= i < j < |log| :: log[i].term <= log[j].term)
  }

  predicate NodeWf(n: nat, v: nat, s: NodeState) {
    && v < n && s.id == v && s.peers == PeersOf(n, v)
    && SegmentWf(s.log, 0, s.currentTerm)
    && (!s.role.Follower? ==> s.currentTerm >= 1)
    && (s.role.Candidate? ==> s.votedFor == v && v in s.votesReceived)
    && (forall u | u in s.votesReceived :: 0 <= u < n)
    && (s.role.Leader? ==> forall p | p in s.peers :: p in s.nextIndex && s.nextIndex[p] >= 1)
  }

  predicate AppendWf(a: Payload)
    requires a.AppendEntries?
  {
    && SegmentWf(a.entries, a.prevLogIndex, a.term)
    && (a.entries != [] ==> a.prevLogTerm <= a.entries[0].term)
    && a.term >= 1
  }

  predicate MessageWf(n: nat, m: Message) {
    && 0 <= m.sender < n && 0 <= m.receiver < n && m.sender != m.receiver
    && (m.payload.RequestVote? ==> m.payload.candidateId == m.sender && m.payload.term >= 1)
    && (m.payload.AppendEntries? ==> m.payload.leaderId == m.sender && AppendWf(m.payload))
  }

  predicate Wf(n: nat, c: Cluster) {
    && |c.nodes| == n
    && (forall v: nat | v < n :: NodeWf(n, v, c.nodes[v]))
    && (forall m | m in c.net :: MessageWf(n, m))
  }

  lemma PeersOfMembers(n: nat, v: nat, p: int)
    requires v < n
    ensures p in PeersOf(n, v) <==> 0 <= p < n && p != v
  {
    if 0 <= p < n && p != v {
      assert PeersOf(n, v)[if p < v then p else p - 1] == p;
    }
  }

  lemma PrefixWf(log: Log, k: nat, cap: nat)
    requires SegmentWf(log, 0, cap) && k <= |log|
    ensures SegmentWf(log[..k], 0, cap)
  {
    forall i, j | 0 <= i < j < k
      ensures log[..k][i].term <= log[..k][j].term
    {
      assert log[i].term <= log[j].term;
    }
  }

  lemma SuffixWf(log: Log, at: nat, k: nat, cap: nat)
    requires SegmentWf(log, at, cap) && k <= |log|
    ensures SegmentWf(log[k..], at + k, cap)
  {
    forall i, j | 0 <= i < j < |log| - k
      ensures log[k..][i].term <= log[k..][j].term
    {
      assert log[k + i].term <= log[k + j].term;
    }
  }

  lemma JoinWf(a: Log, b: Log, cap: nat)
    requires SegmentWf(a, 0, cap) && SegmentWf(b, |a|, cap)
    requires a != [] && b != [] ==> a[|a| - 1].term <= b[0].term
    ensures SegmentWf(a + b, 0, cap)
  {
    forall i, j | 0 <= i < j < |a + b|
      ensures (a + b)[i].term <= (a + b)[j].term
    {
      if i < |a| <= j {
        assert i < |a| - 1 ==> a[i].term <= a[|a| - 1].term;
        assert 0 < j - |a| ==> b[0].term <= b[j - |a|].term;
      }
    }
  }

  lemma Ordered(log: Log, at: nat, cap: nat, i: nat, j: nat)
    requires SegmentWf(log, at, cap) && i < j < |log|
    ensures log[i].term <= log[j].term
  {}

  lemma MergeSeam(log: Log, at: nat, prevTerm: nat, entries: Log, cap: nat, k: nat)
    requires k < |entries| && 0 < at + k <= |log| && SegmentWf(entries, at, cap) && prevTerm <= entries[0].term
    requires if k == 0 then log[at - 1].term == prevTerm else log[at + k - 1].term == entries[k - 1].term
    ensures log[at + k - 1].term <= entries[k].term
  {
    if k > 0 { Ordered(entries, at, cap, k - 1, k); }
  }

  lemma MergedWf(log: Log, at: nat, prevTerm: nat, entries: Log, cap: nat)
    requires SegmentWf(log, 0, cap) && SegmentWf(entries, at, cap) && Fits(log, at, prevTerm)
    requires entries != [] ==> prevTerm <= entries[0].term
    ensures SegmentWf(Merged(log, at, entries), 0, cap)
  {
    hide SegmentWf, MatchLen;
    var k := MatchLen(log, at, entries);
    if k < |entries| {
      if at + k > 0 {
        assert k > 0 ==> log[at + (k - 1)].term == entries[k - 1].term;
        MergeSeam(log, at, prevTerm, entries, cap, k);
      }
      PrefixWf(log, at + k, cap);
      SuffixWf(entries, at, k, cap);
      JoinWf(log[..at + k], entries[k..], cap);
    }
  }

  lemma AppendForWf(n: nat, s: NodeState, v: nat, p: int)
    requires NodeWf(n, v, s) && p in s.peers && s.currentTerm >= 1
    ensures MessageWf(n, AppendFor(s, p))
  {
    PeersOfMembers(n, v, p);
  }

  lemma AppendsWf(n: nat, s: NodeState, v: nat)
    requires NodeWf(n, v, s) && s.currentTerm >= 1
    ensures forall m | m in AppendsToPeers(s) :: MessageWf(n, m)
  {
    forall p | p in s.peers
      ensures MessageWf(n, AppendFor(s, p))
    {
      AppendForWf(n, s, v, p);
    }
  }

  lemma StepDownWf(n: nat, v: nat, s: NodeState, term: nat)
    requires NodeWf(n, v, s)
    ensures NodeWf(n, v, MaybeStepDown(s, term))
  {}

  lemma TimeoutWf(n: nat, v: nat, s: NodeState)
    requires NodeWf(n, v, s)
    ensures NodeWf(n, v, StartElection(s).node)
    ensures forall m | m in StartElection(s).sent :: MessageWf(n, m)
  {
    forall p | p in s.peers ensures 0 <= p < n && p != v { PeersOfMembers(n, v, p); }
  }

  lemma SubmitWf(n: nat, v: nat, s: NodeState, command: string)
    requires NodeWf(n, v, s)
    ensures NodeWf(n, v, Submit(s, command).node)
    ensures forall m | m in Submit(s, command).sent :: MessageWf(n, m)
  {
    if s.role.Leader? {
      JoinWf(s.log, [Entry(|s.log| + 1, s.currentTerm, command)], s.currentTerm);
      AppendsWf(n, Submit(s, command).node, v);
    }
  }

  lemma VoteReplyWf(n: nat, v: nat, s: NodeState, m: Message)
    requires NodeWf(n, v, s) && MessageWf(n, m) && m.payload.RequestVoteReply?
    ensures NodeWf(n, v, HandleRequestVoteReply(s, m).node)
    ensures forall o | o in HandleRequestVoteReply(s, m).sent :: MessageWf(n, o)
  {
    StepDownWf(n, v, s, m.payload.term);
    var out := HandleRequestVoteReply(s, m);
    if MaybeStepDown(s, m.payload.term).role.Candidate? && out.node.role.Leader? {
      AppendsWf(n, out.node, v);
    }
  }

  lemma AppendEntriesWf(n: nat, v: nat, s: NodeState, m: Message)
    requires NodeWf(n, v, s) && MessageWf(n, m) && m.payload.AppendEntries?
    ensures NodeWf(n, v, HandleAppendEntries(s, m).node)
  {
    hide SegmentWf, Merged;
    var a := m.payload;
    var s1 := MaybeStepDown(s, a.term);
    StepDownWf(n, v, s, a.term);
    if a.term >= s1.currentTerm && Fits(s1.log, a.prevLogIndex, a.prevLogTerm) {
      MergedWf(s1.log, a.prevLogIndex, a.prevLogTerm, a.entries, s1.currentTerm);
    }
  }

  lemma HandleWf(n: nat, v: nat, s: NodeState, m: Message)
    requires NodeWf(n, v, s) && MessageWf(n, m) && m.receiver == v
    ensures NodeWf(n, v, Handle(s, m).node)
    ensures forall o | o in Handle(s, m).sent :: MessageWf(n, o)
  {
    hide SegmentWf, AppendWf, Merged, ScanDown;
    match m.payload
    case RequestVote(_, _, _, _) => StepDownWf(n, v, s, m.payload.term);
    case RequestVoteReply(_, _) => VoteReplyWf(n, v, s, m);
    case AppendEntries(_, _, _, _, _, _) => AppendEntriesWf(n, v, s, m);
    case AppendEntriesReply(_, _, _) => StepDownWf(n, v, s, m.payload.term);
  }

  lemma EffectWf(n: nat, v: nat, s: NodeState, a: Action)
    requires NodeWf(n, v, s) && !a.Network? && Actor(a) == v
    requires a.Deliver? ==> MessageWf(n, a.m)
    ensures NodeWf(n, v, Effect(s, a).node)
    ensures forall m | m in Effect(s, a).sent :: MessageWf(n, m)
  {
    hide SegmentWf, AppendWf, MessageWf, Handle;
    match a
    case Timeout(_) => TimeoutWf(n, v, s);
    case Tick(_) => if s.role.Leader? { AppendsWf(n, s, v); }
    case Client(_, command) => SubmitWf(n, v, s, command);
    case Crash(_) =>
    case Recover(_) =>
    case Deliver(m) => HandleWf(n, v, s, m);
  }

  lemma StepWf(n: nat, c: Cluster, a: Action)
    requires Wf(n, c) && Enabled(c, a)
    ensures Wf(n, Apply(c, a))
  {
    if !a.Network? {
      EffectWf(n, Actor(a), c.nodes[Actor(a)], a);
    }
  }

  /** Section 5.3: log indices are positions, terms start at 1, never fall and never pass the holder's term. */
  lemma {:induction false} WellFormedRun(n: nat, r: Run, k: nat)
    requires ValidRun(n, r) && k < |r.states|
    ensures Wf(n, r.states[k])
  {
    if k > 0 {
      WellFormedRun(n, r, k - 1);
      assert Step(r, k - 1);
      StepWf(n, r.states[k - 1], r.actions[k - 1]);
    }
  }
}
