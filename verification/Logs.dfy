/**
 * Logs relative to the logs of the leaders: a log is genuine when each of its entries, with everything before
 * it, stands in the log of the leader of that entry's term. Two genuine logs satisfy Log Matching.
 */
module Logs {
  import opened RaftTypes
  import opened NodeSpec

  type LeaderLogs = map<nat, Log>

  /** The two logs are the same, commands included, through their first `k` entries. */
  predicate Agree(a: Log, b: Log, k: nat) {
    k <= |a| && k <= |b| && a[..k] == b[..k]
  }

  /** Log Matching between one log and another. */
  predicate Matching(log: Log, source: Log) {
    forall i: nat | i < |log| && i < |source| && log[i].term == source[i].term :: Agree(log, source, i + 1)
  }

  predicate Backed(leaders: LeaderLogs, log: Log, i: nat) {
    i < |log| && log[i].term in leaders && Agree(log, leaders[log[i].term], i + 1)
  }

  ghost predicate Genuine(leaders: LeaderLogs, log: Log) {
    forall i: nat | i < |log| :: Backed(leaders, log, i)
  }

  predicate MonotoneUpTo(log: Log, cap: nat) {
    && (forall i, j | 0 <= i <= j < |log| :: log[i].term <= log[j].term)
    && (forall i | 0 <= i < |log| :: log[i].term <= cap)
  }

  predicate AllBelow(log: Log, term: nat) {
    forall i | 0 <= i < |log| :: log[i].term < term
  }

  // ---------------------------------------------------------------- agreement

  lemma AgreeSymmetric(a: Log, b: Log, k: nat)
    ensures Agree(a, b, k) <==> Agree(b, a, k)
  {}

  lemma AgreeShorter(a: Log, b: Log, k: nat, i: nat)
    requires Agree(a, b, k) && i <= k
    ensures Agree(a, b, i)
  {
    assert a[..i] == a[..k][..i] && b[..i] == b[..k][..i];
  }

  lemma AgreeThrough(a: Log, b: Log, c: Log, k: nat)
    requires Agree(a, b, k) && Agree(b, c, k)
    ensures Agree(a, c, k)
  {}

  lemma AgreeEntry(a: Log, b: Log, k: nat, i: nat)
    requires Agree(a, b, k) && i < k
    ensures a[i] == b[i]
  {
    assert a[i] == a[..k][i] && b[i] == b[..k][i];
  }

  lemma AgreeWithin(a: Log, b: Log, k: nat, i: nat)
    requires Agree(a, b, k)
    ensures i < k ==> i < |a| && i < |b| && a[i] == b[i]
  {
    if i < k { AgreeEntry(a, b, k, i); }
  }

  lemma AgreeExtended(a: Log, b: Log, b': Log, k: nat)
    requires Agree(a, b, k) && b <= b'
    ensures Agree(a, b', k)
  {
    assert b[..k] == b'[..k];
  }

  // ---------------------------------------------------------------- genuine logs

  /** Log Matching (Section 5.3): the same term at a position means the same log through that position. */
  lemma SameTermAgree(leaders: LeaderLogs, a: Log, b: Log, i: nat)
    requires Genuine(leaders, a) && Genuine(leaders, b)
    requires i < |a| && i < |b| && a[i].term == b[i].term
    ensures Agree(a, b, i + 1)
  {
    assert Backed(leaders, a, i) && Backed(leaders, b, i);
  }

  lemma GenuineMatching(leaders: LeaderLogs, a: Log, b: Log)
    requires Genuine(leaders, a) && Genuine(leaders, b)
    ensures Matching(a, b)
  {
    hide Genuine, Agree;
    forall i: nat | i < |a| && i < |b| && a[i].term == b[i].term
      ensures Agree(a, b, i + 1)
    {
      SameTermAgree(leaders, a, b, i);
    }
  }

  lemma GenuineMonotone(leaders: LeaderLogs, log: Log, i: nat, j: nat)
    requires Genuine(leaders, log) && i <= j < |log|
    requires forall t | t in leaders :: MonotoneUpTo(leaders[t], t)
    ensures log[i].term <= log[j].term
  {
    var t := log[j].term;
    assert Backed(leaders, log, j) && MonotoneUpTo(leaders[t], t);
    AgreeEntry(log, leaders[t], j + 1, i);
    AgreeEntry(log, leaders[t], j + 1, j);
  }

  lemma GenuinePrefix(leaders: LeaderLogs, log: Log, k: nat)
    requires Genuine(leaders, log) && k <= |log|
    ensures Genuine(leaders, log[..k])
  {
    forall i: nat | i < k
      ensures Backed(leaders, log[..k], i)
    {
      assert Backed(leaders, log, i);
      assert log[..k][..i + 1] == log[..i + 1];
    }
  }

  /** A leader only appends, and only entries of its own term. */
  predicate Appended(log: Log, log': Log, term: nat) {
    log <= log' && forall i | |log| <= i < |log'| :: log'[i].term == term
  }

  ghost predicate Grown(leaders: LeaderLogs, leaders': LeaderLogs) {
    forall t | t in leaders :: t in leaders' && Appended(leaders[t], leaders'[t], t)
  }

  lemma GrownTwice(leaders: LeaderLogs, leaders': LeaderLogs, leaders'': LeaderLogs)
    requires Grown(leaders, leaders') && Grown(leaders', leaders'')
    ensures Grown(leaders, leaders'')
  {
    forall t | t in leaders
      ensures t in leaders'' && Appended(leaders[t], leaders''[t], t)
    {
      assert Appended(leaders[t], leaders'[t], t) && Appended(leaders'[t], leaders''[t], t);
    }
  }

  lemma GenuineGrown(leaders: LeaderLogs, leaders': LeaderLogs, log: Log)
    requires Genuine(leaders, log) && Grown(leaders, leaders')
    ensures Genuine(leaders', log)
  {
    forall i: nat | i < |log|
      ensures Backed(leaders', log, i)
    {
      assert Backed(leaders, log, i);
      AgreeExtended(log, leaders[log[i].term], leaders'[log[i].term], i + 1);
    }
  }

  // ---------------------------------------------------------------- what a follower's merge can do

  /**
   * `after` is `log` with the first `end` entries of `source` absorbed: unchanged if they were all there,
   * else cut back to exactly those entries, which loses nothing that agreed with `source`.
   */
  ghost predicate Absorbs(log: Log, source: Log, end: nat, after: Log) {
    && end <= |source|
    && ((after == log && Agree(log, source, end))
        || (after == source[..end] && forall i: nat | Agree(log, source, i) :: i < end))
  }

  lemma AbsorbKeeps(log: Log, source: Log, end: nat, after: Log, i: nat)
    requires Absorbs(log, source, end, after) && Agree(log, source, i)
    ensures Agree(after, source, i)
  {
    if after == source[..end] && i <= end {
      assert source[..end][..i] == source[..i];
    }
  }

  lemma AbsorbReaches(log: Log, source: Log, end: nat, after: Log)
    requires Absorbs(log, source, end, after)
    ensures Agree(after, source, end)
  {}

  lemma SegmentAgrees(log: Log, source: Log, at: nat, atTerm: nat, end: nat)
    requires Matching(log, source) && at <= end <= |source| && Fits(log, at, atTerm) && Fits(source, at, atTerm)
    ensures Agree(log, source, at + MatchLen(log, at, source[at..end]))
  {
    hide MatchLen;
    var k := MatchLen(log, at, source[at..end]);
    if k > 0 {
      assert log[at + (k - 1)].term == source[at..end][k - 1].term == source[at + k - 1].term;
    }
  }

  /** A segment of a log that matches ours is absorbed. */
  lemma SegmentAbsorbed(log: Log, source: Log, at: nat, atTerm: nat, end: nat)
    requires Matching(log, source) && at <= end <= |source| && Fits(log, at, atTerm) && Fits(source, at, atTerm)
    ensures Absorbs(log, source, end, Merged(log, at, source[at..end]))
  {
    SegmentAgrees(log, source, at, atTerm, end);
    hide MatchLen, Matching, Fits;
    var k := MatchLen(log, at, source[at..end]);
    if k < |source[at..end]| {
      JoinedSegment(log, source, at, end, k);
      hide Agree;
      forall i: nat | Agree(log, source, i)
        ensures i < end
      {
        AgreeWithin(log, source, i, at + k);
      }
    }
  }

  lemma JoinedSegment(log: Log, source: Log, at: nat, end: nat, k: nat)
    requires Agree(log, source, at + k) && at + k < end <= |source|
    ensures log[..at + k] + source[at..end][k..] == source[..end] && source[at + k] == source[at..end][k]
  {
    assert source[at..end][k..] == source[at + k..end];
  }
}
