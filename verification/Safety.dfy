/** The safety theorems of the Raft paper (Figure 3) over whole runs of the code. */
module Safety {
  import opened RaftTypes
  import opened NodeSpec
  import opened RaftSystem
  import opened Basics
  import opened RunFacts
  import opened Logs
  import opened Protocol
  import opened Completeness
  import opened LogLink
  import opened VoteLink
  import opened AckLink
  import opened CommitLink

  // ---------------------------------------------------------------- the history of a run

  predicate Sized(n: nat, h: History) {
    |h.terms| == |h.logs| == |h.accepted| == n
  }

  lemma EventsSized(n: nat, h: History, v: int)
    requires Sized(n, h) && Member(h, v)
    ensures forall t: nat :: Sized(n, Bump(h, v, t))
    ensures forall c: int :: Sized(n, Vote(h, v, c))
    ensures forall q: set<int> :: Sized(n, Lead(h, v, q))
    ensures forall e: Entry :: Sized(n, Extend(h, v, e))
    ensures forall log: Log, ack: nat :: Sized(n, Accept(h, v, log, ack))
    ensures Sized(n, Stand(h, v))
  {}

  lemma TrackSized(n: nat, h: History, s: NodeState, a: Action)
    requires Sized(n, h) && (a.Network? || 0 <= Actor(a) < n)
    ensures Sized(n, Track(h, s, a))
  {
    hide HandleRequestVoteReply, HandleAppendEntries, Grants, Accepts, Bump, Vote, Lead, Extend, Accept, Stand;
    if !a.Network? {
      EventsSized(n, h, Actor(a));
      if a.Timeout? {
        EventsSized(n, Bump(h, a.node, s.currentTerm + 1), a.node);
        EventsSized(n, Stand(Bump(h, a.node, s.currentTerm + 1), a.node), a.node);
      } else if a.Deliver? {
        EventsSized(n, Bump(h, a.m.receiver, Higher(s.currentTerm, a.m.payload.term)), a.m.receiver);
      }
    }
  }

  ghost function HistoryAt(n: nat, r: Run, k: nat): (h: History)
    requires ValidRun(n, r) && k < |r.states|
    ensures Sized(n, h)
  {
    if k == 0 then NoHistory(n)
    else
      NodeCount(n, r, k - 1);
      assert Step(r, k - 1);
      var a, c, h := r.actions[k - 1], r.states[k - 1], HistoryAt(n, r, k - 1);
      TrackSized(n, h, if a.Network? then NewNode(0, []) else c.nodes[Actor(a)], a);
      TrackStep(h, c, a)
  }

  lemma HistoryStep(n: nat, r: Run, k: nat)
    requires ValidRun(n, r) && k < |r.actions|
    ensures Step(r, k) && |r.states[k].nodes| == n
    ensures HistoryAt(n, r, k + 1) == TrackStep(HistoryAt(n, r, k), r.states[k], r.actions[k])
  {
    assert Step(r, k);
    NodeCount(n, r, k);
    hide TrackStep, Apply;
  }

  lemma StartLinked(n: nat, r: Run)
    requires ValidRun(n, r)
    ensures Linked(n, HistoryAt(n, r, 0), r.states[0])
  {
    WellFormedRun(n, r, 0);
    hide Wf;
  }

  // ---------------------------------------------------------------- Election Safety

  ghost predicate ElectionLinked(n: nat, h: History, c: Cluster) {
    Wf(n, c) && LogLinked(n, h, c) && VoteLinked(n, h, c)
  }

  lemma {:induction false} ElectionsLinked(n: nat, r: Run, k: nat)
    requires ValidRun(n, r) && FreshVotesRun(n, r) && k < |r.states|
    ensures ElectionLinked(n, HistoryAt(n, r, k), r.states[k])
  {
    hide Wf, LogLinked, VoteLinked, Apply, TrackStep, AckLinked, FreshVotes;
    if k == 0 {
      StartLinked(n, r);
    } else {
      ElectionsLinked(n, r, k - 1);
      HistoryStep(n, r, k - 1);
      StepWf(n, r.states[k - 1], r.actions[k - 1]);
      VoteLinkedStep(n, HistoryAt(n, r, k - 1), r.states[k - 1], r.actions[k - 1]);
      LinkedStep(n, HistoryAt(n, r, k - 1), r.states[k - 1], r.actions[k - 1]);
    }
  }

  /** What later histories keep of earlier ones. */
  ghost predicate Remembers(h: History, h': History) {
    && Grown(h.leaderLogs, h'.leaderLogs)
    && (forall t | t in h.leaders :: t in h'.leaders && h'.leaders[t] == h.leaders[t])
  }

  lemma RemembersTwice(h: History, h': History, h'': History)
    requires Remembers(h, h') && Remembers(h', h'')
    ensures Remembers(h, h'')
  {
    GrownTwice(h.leaderLogs, h'.leaderLogs, h''.leaderLogs);
    hide Grown;
  }

  lemma RemembersItself(h: History)
    ensures Remembers(h, h)
  {}

  /** A run in which every state is linked to its history by genuine logs. */
  ghost predicate GenuineRun(n: nat, r: Run)
    requires ValidRun(n, r)
  {
    && (forall k: nat | k < |r.states| :: Wf(n, r.states[k]) && LogLinked(n, HistoryAt(n, r, k), r.states[k]))
    && (forall k: nat | k < |r.actions| :: Remembers(HistoryAt(n, r, k), HistoryAt(n, r, k + 1)))
  }

  lemma StepRemembers(n: nat, h: History, c: Cluster, a: Action)
    requires Wf(n, c) && LogLinked(n, h, c) && Enabled(c, a)
    requires !a.Network? ==> ElectsFirst(h, c.nodes[Actor(a)], a)
    ensures Remembers(h, TrackStep(h, c, a))
  {
    hide Wf, LogLinked, ElectsFirst, Track;
    LinkedSize(n, h, c);
    LinkedStep(n, h, c, a);
  }

  lemma FreshVotesGenuine(n: nat, r: Run)
    requires ValidRun(n, r) && FreshVotesRun(n, r)
    ensures GenuineRun(n, r)
  {
    hide Wf, LogLinked, VoteLinked, Apply, TrackStep, Remembers, FreshVotes;
    forall k: nat | k < |r.states| ensures Wf(n, r.states[k]) && LogLinked(n, HistoryAt(n, r, k), r.states[k]) {
      ElectionsLinked(n, r, k);
    }
    forall k: nat | k < |r.actions| ensures Remembers(HistoryAt(n, r, k), HistoryAt(n, r, k + 1)) {
      ElectionsLinked(n, r, k);
      HistoryStep(n, r, k);
      VoteLinkedStep(n, HistoryAt(n, r, k), r.states[k], r.actions[k]);
      StepRemembers(n, HistoryAt(n, r, k), r.states[k], r.actions[k]);
    }
  }

  lemma {:induction false} RemembersAll(n: nat, r: Run, j: nat, k: nat)
    requires ValidRun(n, r) && GenuineRun(n, r) && j <= k < |r.states|
    ensures Remembers(HistoryAt(n, r, j), HistoryAt(n, r, k))
    decreases k
  {
    hide HistoryAt, Wf, LogLinked;
    if j == k {
      RemembersItself(HistoryAt(n, r, j));
    } else {
      hide Remembers;
      RemembersAll(n, r, j, k - 1);
      assert Remembers(HistoryAt(n, r, k - 1), HistoryAt(n, r, k - 1 + 1));
      RemembersTwice(HistoryAt(n, r, j), HistoryAt(n, r, k - 1), HistoryAt(n, r, k));
    }
  }

  lemma NodeLinked(n: nat, r: Run, k: nat, v: nat)
    requires ValidRun(n, r) && GenuineRun(n, r) && k < |r.states| && v < n
    ensures |r.states[k].nodes| == n && NodeLog(HistoryAt(n, r, k), v, r.states[k].nodes[v])
    ensures NodeWf(n, v, r.states[k].nodes[v])
  {
    hide LogsInv, NodeWf, MessageWf, MessageLog;
    assert Wf(n, r.states[k]) && LogLinked(n, HistoryAt(n, r, k), r.states[k]);
  }

  lemma LedBy(n: nat, r: Run, j: nat, k: nat, a: nat, term: nat)
    requires ValidRun(n, r) && GenuineRun(n, r) && j <= k < |r.states| && a < n
    requires |r.states[j].nodes| == n && LeadsIn(r.states[j], a, term)
    ensures term in HistoryAt(n, r, k).leaders && HistoryAt(n, r, k).leaders[term] == a
    ensures term in HistoryAt(n, r, k).leaderLogs
    ensures Appended(r.states[j].nodes[a].log, HistoryAt(n, r, k).leaderLogs[term], term)
  {
    NodeLinked(n, r, j, a);
    RemembersAll(n, r, j, k);
    hide GenuineRun, ValidRun;
  }

  /**
   * Election Safety (Section 5.2): under FreshVotes at most one node ever leads in a term, over the whole
   * run, through crashes, restarts and leaders whose own timer fires.
   */
  lemma ElectionSafety(n: nat, r: Run, j: nat, k: nat, a: nat, b: nat, term: nat)
    requires ValidRun(n, r) && FreshVotesRun(n, r) && j < |r.states| && k < |r.states| && a < n && b < n
    requires |r.states[j].nodes| == |r.states[k].nodes| == n
    requires LeadsIn(r.states[j], a, term) && LeadsIn(r.states[k], b, term)
    ensures a == b
  {
    FreshVotesGenuine(n, r);
    hide GenuineRun, FreshVotesRun, ValidRun;
    var last := if j < k then k else j;
    LedBy(n, r, j, last, a, term);
    LedBy(n, r, k, last, b, term);
  }

  /** So the branch of handleAppendEntries that meets a leader of the same term is never taken. */
  lemma SameTermLeaderUnreachable(n: nat, r: Run, k: nat, m: Message)
    requires ValidRun(n, r) && FreshVotesRun(n, r) && k < |r.states|
    requires m in r.states[k].net && m.payload.AppendEntries?
    ensures |r.states[k].nodes| == n && 0 <= m.receiver < n
    ensures !LeadsIn(r.states[k], m.receiver, m.payload.term)
  {
    FreshVotesGenuine(n, r);
    var c, h := r.states[k], HistoryAt(n, r, k);
    assert Wf(n, c) && LogLinked(n, h, c);
    assert MessageWf(n, m) && MessageLog(h, m);
    NodeLinked(n, r, k, m.receiver);
    hide LogsInv, NodeWf, GenuineRun;
  }

  // ---------------------------------------------------------------- Log Matching

  predicate LedAt(n: nat, r: Run, k: nat, v: nat, term: nat) {
    k < |r.states| && v < n && |r.states[k].nodes| == n && LeadsIn(r.states[k], v, term)
  }

  ghost predicate OneLeaderPerTerm(n: nat, r: Run) {
    forall j: nat, k: nat, a: nat, b: nat, term: nat :: LedAt(n, r, j, a, term) && LedAt(n, r, k, b, term) ==> a == b
  }

  /** The recorded leaders of terms did lead at some state up to `k`. */
  ghost predicate LeadersSeen(n: nat, r: Run, k: nat, h: History) {
    forall t | t in h.leaders :: SeenLeading(n, r, k, h.leaders[t], t)
  }

  ghost predicate SeenLeading(n: nat, r: Run, k: nat, v: int, term: nat) {
    0 <= v < n && exists j: nat :: j <= k && LedAt(n, r, j, v, term)
  }

  lemma TrackedLeader(h: History, s: NodeState, a: Action, t: nat)
    requires !a.Network? && Member(h, Actor(a)) && t in Track(h, s, a).leaders && t !in h.leaders
    ensures h.terms[Actor(a)] == s.currentTerm ==>
      Effect(s, a).node.role.Leader? && Effect(s, a).node.currentTerm == t && Track(h, s, a).leaders[t] == Actor(a)
  {
    hide AppendsToPeers, Grants, Accepts, HandleAppendEntries, Submit, UpToDate;
    if a.Deliver? { TrackedElection(h, s, a.m, t); }
    hide TrackMessage, Handle;
  }

  lemma QuietEvents(h: History, v: int)
    requires Member(h, v)
    ensures forall t: nat :: Member(Bump(h, v, t), v) && Bump(h, v, t).leaders == h.leaders
    ensures forall c: int :: Vote(h, v, c).leaders == h.leaders
    ensures forall log: Log, ack: nat :: Accept(h, v, log, ack).leaders == h.leaders
  {}

  lemma OnlyVotesElect(h: History, s: NodeState, m: Message)
    requires Member(h, m.receiver) && !m.payload.RequestVoteReply?
    ensures TrackMessage(h, s, m).leaders == h.leaders
  {
    hide Grants, Accepts, HandleAppendEntries, Bump, Vote, Accept, MaybeStepDown;
    QuietEvents(h, m.receiver);
    QuietEvents(Bump(h, m.receiver, Higher(s.currentTerm, m.payload.term)), m.receiver);
  }

  lemma TrackedElection(h: History, s: NodeState, m: Message, t: nat)
    requires Member(h, m.receiver) && t in TrackMessage(h, s, m).leaders && t !in h.leaders
    ensures h.terms[m.receiver] == s.currentTerm ==>
      Handle(s, m).node.role.Leader? && Handle(s, m).node.currentTerm == t && TrackMessage(h, s, m).leaders[t] == m.receiver
  {
    if !m.payload.RequestVoteReply? {
      OnlyVotesElect(h, s, m);
      assert false;
    } else {
      ReplyTerm(s, m);
      hide HandleRequestVoteReply;
    }
  }

  lemma ReplyTerm(s: NodeState, m: Message)
    requires m.payload.RequestVoteReply?
    ensures HandleRequestVoteReply(s, m).node.currentTerm == Higher(s.currentTerm, m.payload.term)
  {
    hide AppendsToPeers;
  }

  lemma SeenLater(n: nat, r: Run, k: nat, v: int, term: nat)
    requires SeenLeading(n, r, k, v, term)
    ensures SeenLeading(n, r, k + 1, v, term)
  {
    var j: nat :| j <= k && LedAt(n, r, j, v, term);
    assert j <= k + 1 && LedAt(n, r, j, v, term);
  }

  lemma LeadersSeenStep(n: nat, r: Run, k: nat)
    requires ValidRun(n, r) && k < |r.actions| && LeadersSeen(n, r, k, HistoryAt(n, r, k))
    requires LogLinked(n, HistoryAt(n, r, k), r.states[k])
    requires Remembers(HistoryAt(n, r, k), HistoryAt(n, r, k + 1))
    ensures LeadersSeen(n, r, k + 1, HistoryAt(n, r, k + 1))
  {
    HistoryStep(n, r, k);
    var h, h', c, a := HistoryAt(n, r, k), HistoryAt(n, r, k + 1), r.states[k], r.actions[k];
    NodeCount(n, r, k + 1);
    hide LogsInv, Grown, Effect, Track, MessageLog, ValidRun;
    forall t | t in h'.leaders
      ensures SeenLeading(n, r, k + 1, h'.leaders[t], t)
    {
      if t in h.leaders {
        SeenLater(n, r, k, h.leaders[t], t);
      } else {
        assert NodeLog(h, Actor(a), c.nodes[Actor(a)]);
        TrackedLeader(h, c.nodes[Actor(a)], a, t);
        assert LedAt(n, r, k + 1, h'.leaders[t], t);
      }
    }
  }

  /** A second leader of a term would have to be the first one, standing again in a term it already led. */
  lemma NoSecondLeader(n: nat, r: Run, k: nat)
    requires ValidRun(n, r) && OneLeaderPerTerm(n, r) && k < |r.actions|
    requires LogLinked(n, HistoryAt(n, r, k), r.states[k]) && LeadersSeen(n, r, k, HistoryAt(n, r, k))
    ensures Step(r, k) && |r.states[k].nodes| == n
    ensures !r.actions[k].Network? ==> ElectsFirst(HistoryAt(n, r, k), r.states[k].nodes[Actor(r.actions[k])], r.actions[k])
  {
    HistoryStep(n, r, k);
    NodeCount(n, r, k + 1);
    var h, c, a := HistoryAt(n, r, k), r.states[k], r.actions[k];
    if a.Deliver? && a.m.payload.RequestVoteReply? {
      var v: nat, s := Actor(a), c.nodes[Actor(a)];
      var t := HandleRequestVoteReply(s, a.m).node;
      assert NodeLog(h, v, s);
      hide LogsInv, NodeLog, MessageLog, TrackStep, ValidRun, HandleRequestVoteReply;
      if t.role.Leader? && !MaybeStepDown(s, a.m.payload.term).role.Leader? && t.currentTerm in h.leaders {
        var u := h.leaders[t.currentTerm];
        assert LedAt(n, r, k + 1, v, t.currentTerm);
        assert SeenLeading(n, r, k, u, t.currentTerm);
        var j: nat :| j <= k && LedAt(n, r, j, u, t.currentTerm);
        ElectedCandidate(h, v, s, a.m);
        assert false;
      }
    }
  }

  lemma ElectedCandidate(h: History, v: nat, s: NodeState, m: Message)
    requires NodeLog(h, v, s) && m.payload.RequestVoteReply?
    requires HandleRequestVoteReply(s, m).node.role.Leader? && !MaybeStepDown(s, m.payload.term).role.Leader?
    ensures var t := HandleRequestVoteReply(s, m).node;
      t.currentTerm in h.leaders ==> h.leaders[t.currentTerm] != v
  {
    hide AppendsToPeers;
  }

  lemma {:induction false} OneLeaderLinked(n: nat, r: Run, k: nat)
    requires ValidRun(n, r) && OneLeaderPerTerm(n, r) && k < |r.states|
    ensures Wf(n, r.states[k]) && LogLinked(n, HistoryAt(n, r, k), r.states[k])
    ensures LeadersSeen(n, r, k, HistoryAt(n, r, k))
    ensures k > 0 ==> Remembers(HistoryAt(n, r, k - 1), HistoryAt(n, r, k))
  {
    hide Wf, LogLinked, VoteLinked, AckLinked, Apply, TrackStep, Remembers, ElectsFirst, OneLeaderPerTerm;
    if k == 0 {
      StartLinked(n, r);
    } else {
      OneLeaderLinked(n, r, k - 1);
      HistoryStep(n, r, k - 1);
      NoSecondLeader(n, r, k - 1);
      StepWf(n, r.states[k - 1], r.actions[k - 1]);
      LinkedStep(n, HistoryAt(n, r, k - 1), r.states[k - 1], r.actions[k - 1]);
      StepRemembers(n, HistoryAt(n, r, k - 1), r.states[k - 1], r.actions[k - 1]);
      LeadersSeenStep(n, r, k - 1);
    }
  }

  lemma OneLeaderRemembers(n: nat, r: Run, k: nat)
    requires ValidRun(n, r) && OneLeaderPerTerm(n, r) && k < |r.actions|
    ensures Remembers(HistoryAt(n, r, k), HistoryAt(n, r, k + 1))
  {
    hide Wf, LogLinked, Remembers, OneLeaderPerTerm, LeadersSeen, HistoryAt, Step;
    OneLeaderLinked(n, r, k + 1);
  }

  lemma OneLeaderGenuine(n: nat, r: Run)
    requires ValidRun(n, r) && OneLeaderPerTerm(n, r)
    ensures GenuineRun(n, r)
  {
    RunLength(n, r);
    hide Wf, LogLinked, Remembers, OneLeaderPerTerm, LeadersSeen, ValidRun, HistoryAt;
    forall k: nat | k < |r.states| ensures Wf(n, r.states[k]) && LogLinked(n, HistoryAt(n, r, k), r.states[k]) {
      OneLeaderLinked(n, r, k);
    }
    forall k: nat | k < |r.actions| ensures Remembers(HistoryAt(n, r, k), HistoryAt(n, r, k + 1)) {
      OneLeaderRemembers(n, r, k);
    }
  }

  lemma RunLength(n: nat, r: Run)
    requires ValidRun(n, r)
    ensures |r.states| == |r.actions| + 1
  {}

  lemma GenuineAt(n: nat, r: Run, j: nat, k: nat, v: nat)
    requires ValidRun(n, r) && GenuineRun(n, r) && j <= k < |r.states| && v < n
    ensures |r.states[j].nodes| == n
    ensures Genuine(HistoryAt(n, r, k).leaderLogs, r.states[j].nodes[v].log)
  {
    NodeLinked(n, r, j, v);
    RemembersAll(n, r, j, k);
    assert LogLinked(n, HistoryAt(n, r, j), r.states[j]);
    hide GenuineRun, ValidRun, Genuine, MessageLog;
    GenuineGrown(HistoryAt(n, r, j).leaderLogs, HistoryAt(n, r, k).leaderLogs, r.states[j].nodes[v].log);
  }

  /**
   * Log Matching (Section 5.3): on a run with at most one leader per term, two logs held by any two nodes at
   * any two moments that have the same term at a position are the same, commands included, through it.
   */
  lemma LogMatching(n: nat, r: Run, j: nat, k: nat, a: nat, b: nat, i: nat)
    requires ValidRun(n, r) && OneLeaderPerTerm(n, r) && j < |r.states| && k < |r.states| && a < n && b < n
    requires |r.states[j].nodes| == |r.states[k].nodes| == n
    requires i < |r.states[j].nodes[a].log| && i < |r.states[k].nodes[b].log|
    requires r.states[j].nodes[a].log[i].term == r.states[k].nodes[b].log[i].term
    ensures Agree(r.states[j].nodes[a].log, r.states[k].nodes[b].log, i + 1)
  {
    OneLeaderGenuine(n, r);
    hide GenuineRun, ValidRun, OneLeaderPerTerm, Genuine;
    var last := if j < k then k else j;
    GenuineAt(n, r, j, last, a);
    GenuineAt(n, r, k, last, b);
    SameTermAgree(HistoryAt(n, r, last).leaderLogs, r.states[j].nodes[a].log, r.states[k].nodes[b].log, i);
  }

  /** FreshVotes is enough for that. */
  lemma FreshVotesOneLeader(n: nat, r: Run)
    requires ValidRun(n, r) && FreshVotesRun(n, r)
    ensures OneLeaderPerTerm(n, r)
  {
    forall j: nat, k: nat, a: nat, b: nat, term: nat | LedAt(n, r, j, a, term) && LedAt(n, r, k, b, term)
      ensures a == b
    {
      ElectionSafety(n, r, j, k, a, b, term);
    }
  }

  // ---------------------------------------------------------------- runs under the three hypotheses

  lemma {:induction false} CarefullyLinked(n: nat, r: Run, k: nat)
    requires ValidRun(n, r) && CarefulRun(n, r) && k < |r.states|
    ensures Linked(n, HistoryAt(n, r, k), r.states[k])
  {
    hide Linked, Apply, TrackStep, FreshVotes, FreshAcks, ExactAck;
    if k == 0 {
      StartLinked(n, r);
    } else {
      CarefullyLinked(n, r, k - 1);
      HistoryStep(n, r, k - 1);
      FullyLinkedStep(n, HistoryAt(n, r, k - 1), r.states[k - 1], r.actions[k - 1]);
    }
  }

  lemma LinkedNode(n: nat, h: History, c: Cluster, v: nat)
    requires Linked(n, h, c) && v < n
    ensures |c.nodes| == n && NodeLog(h, v, c.nodes[v]) && NodeAck(h, v, c.nodes[v]) && NodeWf(n, v, c.nodes[v])
    ensures FullInv(h) && CoreInv(h) && HeldInv(h)
  {
    hide CoreInv, HeldInv, LogsInv, VotesInv, NodeWf, NodeVote, NodeAck, MessageWf, MessageLog, MessageVote, MessageAck;
    assert NodeWf(n, v, c.nodes[v]) && NodeLog(h, v, c.nodes[v]);
  }

  lemma CarefulNode(n: nat, r: Run, k: nat, v: nat)
    requires ValidRun(n, r) && CarefulRun(n, r) && k < |r.states| && v < n
    ensures |r.states[k].nodes| == n
    ensures NodeLog(HistoryAt(n, r, k), v, r.states[k].nodes[v]) && NodeAck(HistoryAt(n, r, k), v, r.states[k].nodes[v])
    ensures CoreInv(HistoryAt(n, r, k)) && HeldInv(HistoryAt(n, r, k))
  {
    hide Linked, ValidRun, CarefulRun, HistoryAt;
    CarefullyLinked(n, r, k);
    LinkedNode(n, HistoryAt(n, r, k), r.states[k], v);
  }

  lemma StepAcksAdvance(n: nat, r: Run, k: nat)
    requires ValidRun(n, r) && CarefulRun(n, r) && k < |r.actions|
    ensures AcksAdvance(HistoryAt(n, r, k), HistoryAt(n, r, k + 1))
  {
    CarefullyLinked(n, r, k);
    HistoryStep(n, r, k);
    var h, c, a := HistoryAt(n, r, k), r.states[k], r.actions[k];
    hide HistoryAt, Effect, Track, FreshVotes, FreshAcks, ExactAck, Linked, AcksAdvance, ActsCarefully, Acking;
    if a.Network? {
      AcksAdvanceSelf(h);
    } else {
      ActingNode(n, h, c, a);
      Careful(c, a);
      EffectAcks(n, h, Actor(a), c.nodes[Actor(a)], a);
      hide FullInv, NodeAck;
    }
  }

  lemma {:induction false} AcksAdvanceAll(n: nat, r: Run, j: nat, k: nat)
    requires ValidRun(n, r) && CarefulRun(n, r) && j <= k < |r.states|
    ensures AcksAdvance(HistoryAt(n, r, j), HistoryAt(n, r, k))
    decreases k
  {
    hide AcksAdvance, HistoryAt, CarefulRun, Step;
    if j == k {
      AcksAdvanceSelf(HistoryAt(n, r, j));
    } else {
      AcksAdvanceAll(n, r, j, k - 1);
      StepAcksAdvance(n, r, k - 1);
      AcksAdvanceTwice(HistoryAt(n, r, j), HistoryAt(n, r, k - 1), HistoryAt(n, r, k));
    }
  }

  lemma CommitCovered(n: nat, r: Run, j: nat, k: nat, v: nat)
    requires ValidRun(n, r) && CarefulRun(n, r) && j <= k < |r.states| && v < n
    ensures |r.states[j].nodes| == n
    ensures var s := r.states[j].nodes[v]; CoveredOn(HistoryAt(n, r, k), s.log, s.currentTerm, s.commitIndex)
  {
    CarefulNode(n, r, j, v);
    AcksAdvanceAll(n, r, j, k);
    hide AcksAdvance, HistoryAt, CarefulRun, ValidRun, CoveredOn, CoreInv, HeldInv;
    var s := r.states[j].nodes[v];
    CoveredOnLater(HistoryAt(n, r, j), HistoryAt(n, r, k), s.log, s.log, s.currentTerm, s.currentTerm, s.commitIndex);
  }

  // ---------------------------------------------------------------- State Machine Safety

  lemma CoveredLogsAgree(h: History, a: Log, x: nat, now: nat, b: Log, y: nat, now': nat)
    requires CoreInv(h) && CoveredOn(h, a, now, x) && CoveredOn(h, b, now', y)
    ensures Agree(a, b, if x < y then x else y)
  {
    hide CoreInv, Committed, Agree;
    if x == 0 || y == 0 {
      NothingAgrees(a, b);
    } else {
      var t: nat, i: nat :| Covers(h, t, i, now, x) && SameThrough(h, t, a, x);
      var u: nat, j: nat :| Covers(h, u, j, now', y) && SameThrough(h, u, b, y);
      if t <= u {
        OrderedCertificates(h, t, i, a, x, u, b, y);
      } else {
        OrderedCertificates(h, u, j, b, y, t, a, x);
        AgreeSymmetric(b, a, if x < y then x else y);
      }
    }
  }

  lemma NothingAgrees(a: Log, b: Log)
    ensures Agree(a, b, 0)
  {}

  lemma OrderedCertificates(h: History, t: nat, i: nat, a: Log, x: nat, u: nat, b: Log, y: nat)
    requires CoreInv(h) && Committed(h, t, i) && x <= i && t <= u && u in h.leaderLogs
    requires SameThrough(h, t, a, x) && SameThrough(h, u, b, y)
    ensures Agree(a, b, if x < y then x else y)
  {
    var z := if x < y then x else y;
    CommittedInLeader(h, t, i, u);
    hide CoreInv, Committed, Agree;
    AgreeShorter(h.leaderLogs[t], h.leaderLogs[u], i, z);
    AgreeShorter(h.leaderLogs[t], a, x, z);
    AgreeShorter(h.leaderLogs[u], b, y, z);
    AgreeSymmetric(h.leaderLogs[t], a, z);
    AgreeThrough(a, h.leaderLogs[t], h.leaderLogs[u], z);
    AgreeThrough(a, h.leaderLogs[u], b, z);
  }

  /**
   * State Machine Safety (Section 5.4.3): under the three hypotheses the logs of any two nodes at any two
   * moments are the same up to the smaller of their commitIndex values. With one node at two moments this
   * says that a committed entry never changes.
   */
  lemma StateMachineSafety(n: nat, r: Run, j: nat, k: nat, a: nat, b: nat)
    requires ValidRun(n, r) && CarefulRun(n, r) && j < |r.states| && k < |r.states| && a < n && b < n
    ensures |r.states[j].nodes| == |r.states[k].nodes| == n
    ensures var s, t := r.states[j].nodes[a], r.states[k].nodes[b];
      Agree(s.log, t.log, if s.commitIndex < t.commitIndex then s.commitIndex else t.commitIndex)
  {
    hide HistoryAt, CarefulRun, ValidRun, CoveredOn, CoreInv, HeldInv, NodeLog, NodeAck, Agree;
    var last := if j < k then k else j;
    CommitCovered(n, r, j, last, a);
    CommitCovered(n, r, k, last, b);
    CarefulNode(n, r, last, a);
    var s, t := r.states[j].nodes[a], r.states[k].nodes[b];
    CoveredLogsAgree(HistoryAt(n, r, last), s.log, s.commitIndex, s.currentTerm, t.log, t.commitIndex, t.currentTerm);
  }

  // ---------------------------------------------------------------- Leader Completeness

  /** A leader's log as of an earlier moment already held every older entry it ever held. */
  lemma OlderEntriesFirst(h: History, term: nat, early: Log, i: nat)
    requires LogsInv(h) && term in h.leaderLogs && Appended(early, h.leaderLogs[term], term)
    requires 0 < i <= |h.leaderLogs[term]| && h.leaderLogs[term][i - 1].term < term
    ensures i <= |early|
  {
    hide Genuine, AllBelow;
    assert MonotoneUpTo(h.leaderLogs[term], term);
  }

  lemma CoveredByLaterLeader(h: History, a: Log, x: nat, now: nat, later: nat, early: Log)
    requires CoreInv(h) && CoveredOn(h, a, now, x) && now < later && later in h.leaderLogs
    requires Appended(early, h.leaderLogs[later], later)
    ensures Agree(a, early, x)
  {
    if x > 0 {
      var t: nat, i: nat :| Covers(h, t, i, now, x) && SameThrough(h, t, a, x);
      CommittedInLeader(h, t, i, later);
      assert LogsInv(h);
      AgreeEntry(h.leaderLogs[t], h.leaderLogs[later], i, i - 1);
      OlderEntriesFirst(h, later, early, i);
      hide CoreInv, LogsInv;
      AgreeShorter(h.leaderLogs[t], h.leaderLogs[later], i, x);
      AgreeSymmetric(h.leaderLogs[t], a, x);
      AgreeThrough(a, h.leaderLogs[t], h.leaderLogs[later], x);
      assert h.leaderLogs[later][..x] == early[..x];
    }
  }

  lemma CarefulGenuine(n: nat, r: Run)
    requires ValidRun(n, r) && CarefulRun(n, r)
    ensures GenuineRun(n, r)
  {
    FreshVotesGenuine(n, r);
    hide GenuineRun;
  }

  /**
   * Leader Completeness (Section 5.4.3): under the three hypotheses, whatever a leader of one term has
   * committed at any moment stands unchanged in the log of every leader of a later term, at every moment it
   * leads, before or after.
   */
  lemma LeaderCompleteness(n: nat, r: Run, j: nat, k: nat, a: nat, b: nat, term: nat, later: nat)
    requires ValidRun(n, r) && CarefulRun(n, r) && j < |r.states| && k < |r.states| && a < n && b < n
    requires |r.states[j].nodes| == |r.states[k].nodes| == n && term < later
    requires LeadsIn(r.states[j], a, term) && LeadsIn(r.states[k], b, later)
    ensures Agree(r.states[j].nodes[a].log, r.states[k].nodes[b].log, r.states[j].nodes[a].commitIndex)
  {
    CarefulGenuine(n, r);
    hide HistoryAt, CarefulRun, ValidRun, CoveredOn, CoreInv, HeldInv, NodeLog, NodeAck, GenuineRun;
    var last := if j < k then k else j;
    LedBy(n, r, k, last, b, later);
    CommitCovered(n, r, j, last, a);
    CarefulNode(n, r, last, a);
    var s := r.states[j].nodes[a];
    CoveredByLaterLeader(HistoryAt(n, r, last), s.log, s.commitIndex, s.currentTerm, later, r.states[k].nodes[b].log);
  }
}
