/** What a committed prefix and a recorded acknowledgement are worth while a careful run goes on. */
module Stability {
  import opened RaftTypes
  import opened NodeSpec
  import opened RaftSystem
  import opened Basics
  import opened RunFacts
  import opened Logs
  import opened Protocol
  import opened Completeness
  import opened LogLink
  import opened VoteLink
  import opened AckLink
  import opened CommitLink
  import opened Safety

  // ---------------------------------------------------------------- commitIndex never falls

  lemma QuietCommit(s: NodeState, a: Action)
    requires !a.Network? && !(a.Deliver? && a.m.payload.AppendEntries?)
    ensures s.commitIndex <= Effect(s, a).node.commitIndex
  {
    hide AppendsToPeers, ToPeers, CountAtLeast, Committable;
  }

  lemma AcceptedCommit(n: nat, h: History, v: nat, s: NodeState, m: Message)
    requires Acking(n, h, v, s) && m.payload.AppendEntries? && m.receiver == v && MessageWf(n, m)
    requires MessageLog(h, m) && MessageAck(h, m) && LeavesOwnTerm(s, m)
    ensures s.commitIndex <= HandleAppendEntries(s, m).node.commitIndex
    ensures Accepts(s, m.payload) ==>
      var t := HandleAppendEntries(s, m).node;
      && m.payload.leaderCommit <= |t.log|
      && t.commitIndex == if m.payload.leaderCommit > s.commitIndex then m.payload.leaderCommit else s.commitIndex
  {
    hide Acking, MessageLog, LeavesOwnTerm, AcksTo;
    if Accepts(s, m.payload) {
      AcceptedAcks(n, h, v, s, m);
      AcceptedFields(s, m);
      AcceptedReach(n, h, v, s, m);
      hide HandleAppendEntries, MessageAck;
    } else {
      RejectedFields(s, m);
    }
  }

  lemma AcceptedReach(n: nat, h: History, v: nat, s: NodeState, m: Message)
    requires Acking(n, h, v, s) && m.payload.AppendEntries? && MessageLog(h, m) && MessageAck(h, m) && Accepts(s, m.payload)
    ensures m.payload.leaderCommit <= |HandleAppendEntries(s, m).node.log|
  {
    hide FullInv, LogsInv, VotesInv, NodeWf, NodeVote, NodeAck, MessageAck, Merged;
    AcceptedAbsorbs(n, h, v, s, m);
    AcceptedWithin(n, h, v, s, m);
    AcceptedFields(s, m);
    hide HandleAppendEntries, Absorbs;
    AbsorbReaches(s.log, h.leaderLogs[m.payload.term], m.payload.prevLogIndex + |m.payload.entries|,
                  HandleAppendEntries(s, m).node.log);
  }

  /** The actor of step `k` with everything known about it and its message. */
  lemma Actors(n: nat, r: Run, k: nat)
    requires ValidRun(n, r) && CarefulRun(n, r) && k < |r.actions| && !r.actions[k].Network?
    ensures |r.states[k].nodes| == |r.states[k + 1].nodes| == n && 0 <= Actor(r.actions[k]) < n
    ensures var h, s, a := HistoryAt(n, r, k), r.states[k].nodes[Actor(r.actions[k])], r.actions[k];
      && Acking(n, h, Actor(a), s) && ActsCarefully(s, a)
      && r.states[k + 1].nodes == r.states[k].nodes[Actor(a) := Effect(s, a).node]
      && (a.Deliver? ==> MessageWf(n, a.m) && MessageLog(h, a.m) && MessageVote(h, a.m) && MessageAck(h, a.m))
  {
    CarefullyLinked(n, r, k);
    HistoryStep(n, r, k);
    hide HistoryAt, FreshVotes, FreshAcks, ExactAck, Linked, Acking, ActsCarefully, MessageLog, MessageAck, MessageVote, Effect;
    ActingNode(n, HistoryAt(n, r, k), r.states[k], r.actions[k]);
    Careful(r.states[k], r.actions[k]);
  }

  lemma CommitStep(n: nat, r: Run, k: nat, v: nat)
    requires ValidRun(n, r) && CarefulRun(n, r) && k < |r.actions| && v < n
    ensures |r.states[k].nodes| == |r.states[k + 1].nodes| == n
    ensures r.states[k].nodes[v].commitIndex <= r.states[k + 1].nodes[v].commitIndex
  {
    NodeCount(n, r, k);
    HistoryStep(n, r, k);
    var a, s := r.actions[k], r.states[k].nodes[v];
    if !a.Network? {
      Actors(n, r, k);
      hide HistoryAt, Acking, ValidRun, CarefulRun, MessageLog, MessageAck, MessageVote, MessageWf;
      if Actor(a) == v {
        if a.Deliver? && a.m.payload.AppendEntries? {
          AcceptedCommit(n, HistoryAt(n, r, k), v, s, a.m);
          hide HandleAppendEntries, LeavesOwnTerm;
        } else {
          QuietCommit(s, a);
          hide Effect;
        }
      }
    }
  }

  lemma {:induction false} CommitMonotone(n: nat, r: Run, j: nat, k: nat, v: nat)
    requires ValidRun(n, r) && CarefulRun(n, r) && j <= k < |r.states| && v < n
    ensures |r.states[j].nodes| == |r.states[k].nodes| == n
    ensures r.states[j].nodes[v].commitIndex <= r.states[k].nodes[v].commitIndex
    decreases k
  {
    hide CarefulRun, Step;
    NodeCount(n, r, j);
    if j < k {
      CommitMonotone(n, r, j, k - 1, v);
      CommitStep(n, r, k - 1, v);
    }
  }

  /**
   * A committed prefix is stable: commitIndex stays within the log, equals lastApplied and never falls, and
   * no later state of the node has another entry at or below it, so nothing is ever cut there.
   */
  lemma CommittedPrefixStable(n: nat, r: Run, j: nat, k: nat, v: nat)
    requires ValidRun(n, r) && CarefulRun(n, r) && j <= k < |r.states| && v < n
    ensures |r.states[j].nodes| == |r.states[k].nodes| == n
    ensures var s, t := r.states[j].nodes[v], r.states[k].nodes[v];
      && s.lastApplied == s.commitIndex <= |s.log|
      && s.commitIndex <= t.commitIndex
      && Agree(s.log, t.log, s.commitIndex)
  {
    CommitMonotone(n, r, j, k, v);
    StateMachineSafety(n, r, j, k, v, v);
    CarefulNode(n, r, j, v);
    hide HistoryAt, ValidRun, CarefulRun, CoreInv, HeldInv, NodeLog, CoveredOn;
  }

  /** The follower's clamp to its own last index never lowers the leader's commitIndex. */
  lemma ClampNeverLowers(n: nat, r: Run, k: nat)
    requires ValidRun(n, r) && CarefulRun(n, r) && k < |r.actions|
    requires r.actions[k].Deliver? && r.actions[k].m.payload.AppendEntries?
    ensures var m := r.actions[k].m;
      && |r.states[k].nodes| == |r.states[k + 1].nodes| == n && 0 <= m.receiver < n
      && var s, t := r.states[k].nodes[m.receiver], r.states[k + 1].nodes[m.receiver];
        Accepts(s, m.payload) ==>
          && m.payload.leaderCommit <= |t.log|
          && t.commitIndex == if m.payload.leaderCommit > s.commitIndex then m.payload.leaderCommit else s.commitIndex
  {
    var m := r.actions[k].m;
    Actors(n, r, k);
    hide HistoryAt, ValidRun, CarefulRun, Acking, MessageWf, MessageLog, MessageVote, MessageAck;
    AcceptedCommit(n, HistoryAt(n, r, k), m.receiver, r.states[k].nodes[m.receiver], m);
    hide HandleAppendEntries, LeavesOwnTerm;
  }

  // ---------------------------------------------------------------- acknowledgements

  /** Before step `k`, node `p` accepted no entries of a leader later than `term`. */
  ghost predicate NoLaterAccept(n: nat, r: Run, k: nat, p: nat, term: nat) {
    forall x: nat | x < k && x < |r.actions| && x < |r.states| ::
      !LateAccept(n, r.states[x], r.actions[x], p, term)
  }

  predicate LateAccept(n: nat, c: Cluster, a: Action, p: nat, term: nat) {
    && p < n && |c.nodes| == n && a.Deliver? && a.m.receiver == p && a.m.payload.AppendEntries?
    && Accepts(c.nodes[p], a.m.payload) && a.m.payload.term > term
  }

  /** Only accepting entries changes what a node has accepted; acknowledgements change only in its current term. */
  lemma EventsAccepted(h: History, v: int)
    requires Member(h, v)
    ensures forall t: nat :: Bump(h, v, t).accepted == h.accepted && Bump(h, v, t).acks == h.acks
    ensures forall t: nat :: Member(Bump(h, v, t), v) && Bump(h, v, t).terms[v] == t
    ensures forall c: int :: Vote(h, v, c).accepted == h.accepted
    ensures Member(Stand(h, v), v) && Stand(h, v).accepted == h.accepted && Stand(h, v).acks == h.acks
    ensures forall q: set<int> :: Lead(h, v, q).accepted == h.accepted
    ensures forall e: Entry :: Extend(h, v, e).accepted == h.accepted
    ensures forall log: Log, ack: nat :: Accept(h, v, log, ack).accepted == h.accepted[v := h.terms[v]]
  {}

  lemma TrackMessageAccepted(h: History, s: NodeState, m: Message)
    requires Member(h, m.receiver)
    ensures var h' := TrackMessage(h, s, m);
      if m.payload.AppendEntries? && Accepts(s, m.payload)
      then h'.accepted == h.accepted[m.receiver := Higher(s.currentTerm, m.payload.term)]
      else h'.accepted == h.accepted
  {
    hide HandleRequestVoteReply, HandleAppendEntries, Grants, Accepts, Bump, Vote, Accept, Lead;
    EventsAccepted(h, m.receiver);
    EventsAccepted(Bump(h, m.receiver, Higher(s.currentTerm, m.payload.term)), m.receiver);
  }

  lemma TrackAccepted(n: nat, h: History, c: Cluster, a: Action, p: nat, term: nat)
    requires Enabled(c, a) && Sized(n, h) && |c.nodes| == n && p < n && h.accepted[p] <= term
    requires !LateAccept(n, c, a, p, term)
    ensures |TrackStep(h, c, a).accepted| == n && TrackStep(h, c, a).accepted[p] <= term
  {
    hide TrackMessage, Fits, Bump, Vote, Stand, Extend;
    if !a.Network? {
      var v := Actor(a);
      EventsAccepted(h, v);
      match a
      case Timeout(_) =>
        var b := Bump(h, v, c.nodes[v].currentTerm + 1);
        EventsAccepted(b, v);
        EventsAccepted(Stand(b, v), v);
      case Deliver(m) => TrackMessageAccepted(h, c.nodes[v], m);
      case _ =>
    }
  }

  lemma {:induction false} AcceptedBound(n: nat, r: Run, k: nat, p: nat, term: nat)
    requires ValidRun(n, r) && k < |r.states| && p < n && NoLaterAccept(n, r, k, p, term)
    ensures HistoryAt(n, r, k).accepted[p] <= term
  {
    if k > 0 {
      assert NoLaterAccept(n, r, k - 1, p, term);
      AcceptedBound(n, r, k - 1, p, term);
      HistoryStep(n, r, k - 1);
      hide HistoryAt, TrackStep, LateAccept, Step, Enabled;
      assert !LateAccept(n, r.states[k - 1], r.actions[k - 1], p, term);
      TrackAccepted(n, HistoryAt(n, r, k - 1), r.states[k - 1], r.actions[k - 1], p, term);
    }
  }

  /** What the leader knows of `p` was true of the log of `p` at some moment up to `k`. */
  ghost predicate HeldOnce(n: nat, r: Run, k: nat, p: int, log: Log, index: nat) {
    exists j: nat :: j <= k && HeldThen(n, r, j, p, log, index)
  }

  ghost predicate HeldThen(n: nat, r: Run, j: nat, p: int, log: Log, index: nat) {
    j < |r.states| && 0 <= p < n == |r.states[j].nodes| && Agree(log, r.states[j].nodes[p].log, index)
  }

  ghost predicate AcksNow(h: History, h': History, v: int) {
    && Member(h', v)
    && forall k | k in h'.acks && (k !in h.acks || h.acks[k] != h'.acks[k]) :: k == Key(h'.terms[v], v)
  }

  lemma EventsAckNow(h: History, v: int)
    requires Member(h, v)
    ensures forall t: nat :: AcksNow(h, Bump(h, v, t), v)
    ensures forall c: int :: AcksNow(h, Vote(h, v, c), v)
    ensures AcksNow(h, Stand(h, v), v)
    ensures forall q: set<int> :: AcksNow(h, Lead(h, v, q), v)
    ensures forall e: Entry :: AcksNow(h, Extend(h, v, e), v)
    ensures forall log: Log, ack: nat :: AcksNow(h, Accept(h, v, log, ack), v)
  {}

  /** An acknowledgement changes only in the acting node's own current term. */
  lemma TrackAcksNow(h: History, s: NodeState, a: Action)
    requires !a.Network? && Member(h, Actor(a))
    ensures AcksNow(h, Track(h, s, a), Actor(a))
  {
    hide HandleRequestVoteReply, HandleAppendEntries, Grants, Accepts, Bump, Vote, Stand, Extend, Accept, Lead, Member;
    var v := Actor(a);
    EventsAccepted(h, v);
    EventsAckNow(h, v);
    if a.Timeout? {
      var b := Bump(h, v, s.currentTerm + 1);
      EventsAccepted(b, v);
      EventsAccepted(Stand(b, v), v);
      EventsAckNow(Stand(b, v), v);
    } else if a.Deliver? {
      var b := Bump(h, v, Higher(s.currentTerm, a.m.payload.term));
      EventsAckNow(b, v);
    }
  }

  lemma HeldNow(n: nat, r: Run, k: nat, key: Key)
    requires ValidRun(n, r) && CarefulRun(n, r) && k < |r.states|
    requires key in HistoryAt(n, r, k).acks
    requires 0 <= key.node < n && HistoryAt(n, r, k).accepted[key.node] <= key.term
    ensures key.term in HistoryAt(n, r, k).leaderLogs
    ensures HeldThen(n, r, k, key.node, HistoryAt(n, r, k).leaderLogs[key.term], HistoryAt(n, r, k).acks[key])
  {
    CarefulNode(n, r, k, key.node);
    hide HistoryAt, ValidRun, CarefulRun, CoreInv, NodeAck, Agree;
    assert StillHeld(HistoryAt(n, r, k), key);
  }

  lemma HeldOnceLater(n: nat, r: Run, k: nat, h: History, h': History, term: nat, p: int, index: nat)
    requires AcksAdvance(h, h') && term in h.leaderLogs && HeldOnce(n, r, k, p, h.leaderLogs[term], index)
    ensures term in h'.leaderLogs && HeldOnce(n, r, k + 1, p, h'.leaderLogs[term], index)
  {
    var j: nat :| j <= k && HeldThen(n, r, j, p, h.leaderLogs[term], index);
    SameThroughLater(h, h', term, r.states[j].nodes[p].log, index);
    assert j <= k + 1 && HeldThen(n, r, j, p, h'.leaderLogs[term], index);
  }

  /** An acknowledgement made in this step is of the node's current term, so the node holds it now. */
  lemma NewAckHeld(n: nat, r: Run, k: nat, key: Key)
    requires ValidRun(n, r) && CarefulRun(n, r) && k < |r.actions|
    requires var h, h' := HistoryAt(n, r, k), HistoryAt(n, r, k + 1);
      key in h'.acks && (key !in h.acks || h.acks[key] != h'.acks[key])
    ensures key.term in HistoryAt(n, r, k + 1).leaderLogs
    ensures HeldThen(n, r, k + 1, key.node, HistoryAt(n, r, k + 1).leaderLogs[key.term], HistoryAt(n, r, k + 1).acks[key])
  {
    HistoryStep(n, r, k);
    hide Track, HistoryAt, CarefulRun, Step, Agree, HeldThen;
    var a := r.actions[k];
    TrackAcksNow(HistoryAt(n, r, k), r.states[k].nodes[Actor(a)], a);
    hide ValidRun;
    CarefulNode(n, r, k + 1, Actor(a));
    hide CoreInv, NodeLog, NodeAck;
    HeldNow(n, r, k + 1, key);
  }

  /** Whatever `key` had acknowledged by step `k`, as recorded in `h`, it held at that step or before. */
  ghost predicate AckHeld(n: nat, r: Run, k: nat, h: History, key: Key) {
    key in h.acks ==> key.term in h.leaderLogs && HeldOnce(n, r, k, key.node, h.leaderLogs[key.term], h.acks[key])
  }

  lemma OldAckHeld(n: nat, r: Run, k: nat, h: History, h': History, key: Key)
    requires AcksAdvance(h, h') && key in h.acks && key in h'.acks && h.acks[key] == h'.acks[key]
    requires AckHeld(n, r, k, h, key)
    ensures AckHeld(n, r, k + 1, h', key)
  {
    hide AcksAdvance, HeldOnce;
    HeldOnceLater(n, r, k, h, h', key.term, key.node, h.acks[key]);
  }

  lemma AckHeldNow(n: nat, r: Run, k: nat, key: Key)
    requires ValidRun(n, r) && CarefulRun(n, r) && k < |r.actions|
    requires var h, h' := HistoryAt(n, r, k), HistoryAt(n, r, k + 1);
      key in h'.acks && (key !in h.acks || h.acks[key] != h'.acks[key])
    ensures k + 1 < |r.states| && AckHeld(n, r, k + 1, HistoryAt(n, r, k + 1), key)
  {
    hide HistoryAt, ValidRun, CarefulRun, HeldThen, HeldOnce, Step;
    RunLength(n, r);
    NewAckHeld(n, r, k, key);
    var h' := HistoryAt(n, r, k + 1);
    HeldOnceNow(n, r, k + 1, key.node, h'.leaderLogs[key.term], h'.acks[key]);
  }

  lemma AckHeldStep(n: nat, r: Run, k: nat, key: Key)
    requires ValidRun(n, r) && CarefulRun(n, r) && k < |r.actions| && k + 1 < |r.states|
    requires AckHeld(n, r, k, HistoryAt(n, r, k), key)
    ensures AckHeld(n, r, k + 1, HistoryAt(n, r, k + 1), key)
  {
    hide HistoryAt, ValidRun, CarefulRun, HeldOnce, AcksAdvance, Step;
    var h, h' := HistoryAt(n, r, k), HistoryAt(n, r, k + 1);
    if key in h'.acks {
      if key in h.acks && h.acks[key] == h'.acks[key] {
        StepAcksAdvance(n, r, k);
        OldAckHeld(n, r, k, h, h', key);
      } else {
        AckHeldNow(n, r, k, key);
      }
    }
  }

  lemma {:induction false} AckHeldOnce(n: nat, r: Run, k: nat, key: Key)
    requires ValidRun(n, r) && CarefulRun(n, r) && k < |r.states|
    ensures AckHeld(n, r, k, HistoryAt(n, r, k), key)
    decreases k
  {
    RunLength(n, r);
    if k == 0 {
      EmptyHistory(n, r);
      hide HistoryAt, HeldOnce;
    } else {
      hide HistoryAt, ValidRun, CarefulRun, AckHeld;
      AckHeldOnce(n, r, k - 1, key);
      AckHeldStep(n, r, k - 1, key);
    }
  }

  lemma HeldOnceNow(n: nat, r: Run, k: nat, p: int, log: Log, index: nat)
    requires HeldThen(n, r, k, p, log, index)
    ensures HeldOnce(n, r, k, p, log, index)
  {
    assert k <= k && HeldThen(n, r, k, p, log, index);
  }

  lemma EmptyHistory(n: nat, r: Run)
    requires ValidRun(n, r)
    ensures HistoryAt(n, r, 0).acks == map[]
  {}

  /**
   * Acknowledgement soundness: while a node leads a term, matchIndex[p] = i > 0 means that p has held the
   * leader's first i entries, and still holds them unless it has accepted entries of a later leader since;
   * nextIndex stays within 1..len(log)+1.
   */
  lemma AcknowledgementSound(n: nat, r: Run, k: nat, v: nat, p: int, term: nat)
    requires ValidRun(n, r) && CarefulRun(n, r) && k < |r.states| && v < n
    requires |r.states[k].nodes| == n && LeadsIn(r.states[k], v, term)
    ensures 1 <= NextOf(r.states[k].nodes[v], p) <= |r.states[k].nodes[v].log| + 1
    ensures MatchOf(r.states[k].nodes[v], p) > 0 ==>
      && 0 <= p < n && MatchOf(r.states[k].nodes[v], p) <= |r.states[k].nodes[v].log|
      && HeldOnce(n, r, k, p, r.states[k].nodes[v].log, MatchOf(r.states[k].nodes[v], p))
      && (NoLaterAccept(n, r, k, p, term) ==>
            Agree(r.states[k].nodes[v].log, r.states[k].nodes[p].log, MatchOf(r.states[k].nodes[v], p)))
  {
    CarefulNode(n, r, k, v);
    var h, s := HistoryAt(n, r, k), r.states[k].nodes[v];
    var i := MatchOf(s, p);
    hide HistoryAt, ValidRun, CarefulRun, CoveredOn, Agree, NoLaterAccept;
    if i > 0 {
      var key := Key(term, p);
      assert Holds(h, p, term, i);
      AcksOf(h);
      hide CoreInv;
      AckHeldOnce(n, r, k, key);
      var j: nat :| j <= k && HeldThen(n, r, j, p, h.leaderLogs[term], h.acks[key]);
      AgreeShorter(s.log, r.states[j].nodes[p].log, h.acks[key], i);
      assert HeldThen(n, r, j, p, s.log, i);
      if NoLaterAccept(n, r, k, p, term) {
        AcceptedBound(n, r, k, p, term);
        HeldNow(n, r, k, key);
        AgreeShorter(s.log, r.states[k].nodes[p].log, h.acks[key], i);
      }
    }
  }
}
