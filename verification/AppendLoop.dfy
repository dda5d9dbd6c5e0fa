/**
 * The truncate-or-append loop of handleAppendEntries: what it leaves, when it cuts, and that redelivered or
 * reordered segments of one leader's log do no harm. Also the exact condition under which the length it
 * reports is the length the leader vouched for.
 */
module AppendLoop {
  import opened RaftTypes
  import opened NodeSpec
  import opened RaftSystem
  import opened Logs

  /** Some carried entry disagrees in term with the entry the log already has at its place. */
  predicate Conflicts(log: Log, at: nat, entries: Log) {
    exists j | 0 <= j < |entries| && at + j < |log| :: log[at + j].term != entries[j].term
  }

  lemma ConflictAtMatch(log: Log, at: nat, entries: Log)
    requires at <= |log|
    ensures var k := MatchLen(log, at, entries);
      Conflicts(log, at, entries) <==> k < |entries| && at + k < |log|
  {
    var k := MatchLen(log, at, entries);
    if k < |entries| && at + k < |log| {
      assert log[at + k].term != entries[k].term;
    }
    if Conflicts(log, at, entries) {
      var j :| 0 <= j < |entries| && at + j < |log| && log[at + j].term != entries[j].term;
      hide MatchLen;
      assert !(j < k);
    }
  }

  /**
   * The carried entries end up in place term by term; without a conflict nothing is cut, and with one the
   * log ends with the last carried entry.
   */
  lemma MergedOutcome(log: Log, at: nat, entries: Log)
    requires at <= |log|
    ensures var merged := Merged(log, at, entries);
      && |merged| >= at + |entries| && merged[..at] == log[..at]
      && (forall j | 0 <= j < |entries| :: merged[at + j].term == entries[j].term)
      && (if Conflicts(log, at, entries) then |merged| == at + |entries| else log <= merged)
  {
    ConflictAtMatch(log, at, entries);
    hide MatchLen, Conflicts;
    var k, merged := MatchLen(log, at, entries), Merged(log, at, entries);
    if k < |entries| {
      forall j | 0 <= j < |entries|
        ensures merged[at + j].term == entries[j].term
      {
        if j < k { assert merged[at + j] == log[at + j]; } else { assert merged[at + j] == entries[j]; }
      }
      if at + k == |log| { assert log[..at + k] == log; }
    }
  }

  lemma FullMatch(log: Log, at: nat, entries: Log)
    requires at + |entries| <= |log| && forall j | 0 <= j < |entries| :: log[at + j].term == entries[j].term
    ensures Merged(log, at, entries) == log
  {
    ConflictAtMatch(log, at, entries);
    hide MatchLen;
  }

  lemma MergedAgain(log: Log, at: nat, entries: Log)
    requires at <= |log|
    ensures at <= |Merged(log, at, entries)|
    ensures Merged(log, at, entries)[..at] == log[..at]
    ensures Merged(Merged(log, at, entries), at, entries) == Merged(log, at, entries)
  {
    MergedOutcome(log, at, entries);
    hide Merged, Conflicts;
    FullMatch(Merged(log, at, entries), at, entries);
  }

  lemma StillFits(log: Log, after: Log, at: nat, prevTerm: nat)
    requires at <= |log| && at <= |after| && after[..at] == log[..at] && Fits(log, at, prevTerm)
    ensures Fits(after, at, prevTerm)
  {
    if at > 0 { assert after[..at][at - 1] == log[..at][at - 1]; }
  }

  lemma CommitTwice(s: NodeState, leaderCommit: nat)
    ensures var t := FollowerCommit(s, leaderCommit);
      && FollowerCommit(t, leaderCommit) == t && t.log == s.log && t.role == s.role && t.currentTerm == s.currentTerm
      && t.id == s.id
  {}

  lemma AcceptedAgain(s: NodeState, m: Message)
    requires m.payload.AppendEntries? && Accepts(s, m.payload)
    ensures var once := HandleAppendEntries(s, m);
      HandleAppendEntries(once.node, m) == once
  {
    var a := m.payload;
    var merged := Merged(s.log, a.prevLogIndex, a.entries);
    MergedAgain(s.log, a.prevLogIndex, a.entries);
    StillFits(s.log, merged, a.prevLogIndex, a.prevLogTerm);
    var s2 := MaybeStepDown(s, a.term).(role := Follower, log := merged);
    CommitTwice(s2, a.leaderCommit);
    hide Merged, Fits, FollowerCommit;
    assert HandleAppendEntries(s, m).node == FollowerCommit(s2, a.leaderCommit);
    assert s2.(role := Follower, log := merged) == s2;
  }

  lemma RefusedAgain(s: NodeState, m: Message)
    requires m.payload.AppendEntries? && !Accepts(s, m.payload)
    ensures var once := HandleAppendEntries(s, m);
      HandleAppendEntries(once.node, m) == once
  {
    hide Merged, Fits, FollowerCommit;
  }

  /** Delivering the same AppendEntries again, accepted or not, changes nothing in the node and brings the same reply. */
  lemma RedeliveryIsNoOp(s: NodeState, m: Message)
    requires m.payload.AppendEntries?
    ensures var once := HandleAppendEntries(s, m);
      HandleAppendEntries(once.node, m) == once
  {
    hide HandleAppendEntries;
    if Accepts(s, m.payload) { AcceptedAgain(s, m); } else { RefusedAgain(s, m); }
  }

  // ---------------------------------------------------------------- reordered segments

  lemma AbsorbedMatches(log: Log, source: Log, end: nat, after: Log)
    requires Matching(log, source) && Absorbs(log, source, end, after)
    ensures Matching(after, source)
  {
    if after != log {
      forall i: nat | i < |after| && i < |source| && after[i].term == source[i].term
        ensures Agree(after, source, i + 1)
      {
        assert source[..end][..i + 1] == source[..i + 1];
      }
    }
  }

  /** Absorbing is determined by its arguments, and absorbing twice reaches the farther end either way. */
  lemma AbsorbTwice(log: Log, source: Log, e: nat, f: nat, one: Log, both: Log)
    requires Absorbs(log, source, e, one) && Absorbs(one, source, f, both)
    ensures both == if Agree(log, source, if e < f then f else e) then log else source[..if e < f then f else e]
  {
    var far := if e < f then f else e;
    if one == log && Agree(log, source, e) {
      if e >= f { AgreeShorter(log, source, e, f); }
    } else {
      assert !Agree(log, source, far) by { if Agree(log, source, far) { AgreeShorter(log, source, far, e); } }
      if f <= e {
        assert source[..e][..f] == source[..f];
        assert Agree(one, source, f);
      } else {
        assert !Agree(one, source, f);
      }
    }
  }

  /**
   * Two accepted segments of one leader's growing log give the same log in either order: the old log if it
   * held both, else the leader's log through the farther end.
   */
  lemma SegmentsCommute(log: Log, source: Log, p: nat, pTerm: nat, e: nat, q: nat, qTerm: nat, f: nat)
    requires Matching(log, source)
    requires p <= e <= |source| && Fits(log, p, pTerm) && Fits(source, p, pTerm)
    requires q <= f <= |source| && Fits(log, q, qTerm) && Fits(source, q, qTerm)
    ensures var one, other := Merged(log, p, source[p..e]), Merged(log, q, source[q..f]);
      && q <= |one| && p <= |other| && Fits(one, q, qTerm) && Fits(other, p, pTerm)
      && Merged(one, q, source[q..f]) == Merged(other, p, source[p..e])
  {
    hide Merged, Absorbs, Matching;
    var one, other := Merged(log, p, source[p..e]), Merged(log, q, source[q..f]);
    SegmentAbsorbed(log, source, p, pTerm, e);
    SegmentAbsorbed(log, source, q, qTerm, f);
    OtherStillFits(log, source, e, one, q, qTerm);
    OtherStillFits(log, source, f, other, p, pTerm);
    AbsorbedMatches(log, source, e, one);
    AbsorbedMatches(log, source, f, other);
    SegmentAbsorbed(one, source, q, qTerm, f);
    SegmentAbsorbed(other, source, p, pTerm, e);
    hide Fits, Agree;
    AbsorbTwice(log, source, e, f, one, Merged(one, q, source[q..f]));
    AbsorbTwice(log, source, f, e, other, Merged(other, p, source[p..e]));
  }

  lemma OtherStillFits(log: Log, source: Log, end: nat, after: Log, q: nat, qTerm: nat)
    requires Matching(log, source) && Absorbs(log, source, end, after) && Fits(log, q, qTerm) && Fits(source, q, qTerm)
    ensures q <= |after| && Fits(after, q, qTerm)
  {
    if q > 0 {
      assert Agree(log, source, q - 1 + 1);
      AbsorbKeeps(log, source, end, after, q);
      hide Absorbs;
      AgreeEntry(after, source, q, q - 1);
    }
  }

  // ---------------------------------------------------------------- what the reply may claim

  /** The follower's log length is the length the leader vouched for. */
  predicate ReportsVouched(log: Log, at: nat, entries: Log)
    requires at <= |log|
  {
    |Merged(log, at, entries)| == at + |entries|
  }

  /** Exactly when: the log did not reach past the carried entries, or one of them cut it. */
  lemma ReportsVouchedIff(log: Log, at: nat, entries: Log)
    requires at <= |log|
    ensures ReportsVouched(log, at, entries) <==> |log| <= at + |entries| || Conflicts(log, at, entries)
  {
    MergedOutcome(log, at, entries);
    ConflictAtMatch(log, at, entries);
    hide MatchLen, Conflicts;
  }

  /** The guard a caller could check beforehand for the hypothesis ExactAck. */
  predicate ExactGuard(s: NodeState, a: Payload)
    requires a.AppendEntries?
  {
    var end := a.prevLogIndex + |a.entries|;
    |s.log| <= end || Conflicts(s.log, a.prevLogIndex, a.entries) || forall i | end <= i < |s.log| :: s.log[i].term == a.term
  }

  lemma TailOf(log: Log, at: nat, entries: Log)
    requires at <= |log|
    ensures var merged, end := Merged(log, at, entries), at + |entries|;
      if |log| <= end || Conflicts(log, at, entries) then |merged| == end else merged == log
  {
    ReportsVouchedIff(log, at, entries);
    ConflictAtMatch(log, at, entries);
    hide MatchLen, Conflicts;
  }

  /** ExactAck holds of a delivery if and only if the guard holds before it. */
  lemma ExactAckIff(c: Cluster, a: Action)
    requires Enabled(c, a) && a.Deliver? && a.m.payload.AppendEntries? && Accepts(c.nodes[a.m.receiver], a.m.payload)
    ensures ExactAck(c, a) <==> ExactGuard(c.nodes[a.m.receiver], a.m.payload)
  {
    var s, p := c.nodes[a.m.receiver], a.m.payload;
    TailOf(s.log, p.prevLogIndex, p.entries);
    HandledLog(s, a.m);
    hide Merged, Conflicts, HandleAppendEntries;
  }

  lemma HandledLog(s: NodeState, m: Message)
    requires m.payload.AppendEntries? && Accepts(s, m.payload)
    ensures HandleAppendEntries(s, m).node.log == Merged(s.log, m.payload.prevLogIndex, m.payload.entries)
    ensures HandleAppendEntries(s, m).sent ==
      [Message(s.id, m.sender, AppendEntriesReply(m.payload.term, true, |HandleAppendEntries(s, m).node.log|))]
  {
    hide Merged;
  }
}
