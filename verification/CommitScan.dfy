/** The backward commit scan as an order statistic of the leader's knowledge of its peers. */
module CommitScan {
  import opened RaftTypes
  import opened NodeSpec
  import opened Basics

  function CountGE(vals: seq<nat>, x: nat): (count: nat)
    ensures count <= |vals|
  {
    if vals == [] then 0 else CountGE(vals[..|vals| - 1], x) + (if vals[|vals| - 1] >= x then 1 else 0)
  }

  /** `x` is the k-th largest of `vals`: at least `k` of them reach it and fewer than `k` exceed it. */
  predicate IsKthLargest(vals: seq<nat>, k: nat, x: nat) {
    x in vals && CountGE(vals, x) >= k && CountGE(vals, x + 1) < k
  }

  lemma {:induction false} CountAntitone(vals: seq<nat>, x: nat, y: nat)
    requires x <= y
    ensures CountGE(vals, y) <= CountGE(vals, x)
  {
    if vals != [] { CountAntitone(vals[..|vals| - 1], x, y); }
  }

  lemma {:induction false} CountAtZero(vals: seq<nat>)
    ensures CountGE(vals, 0) == |vals|
  {
    if vals != [] { CountAtZero(vals[..|vals| - 1]); }
  }

  lemma {:induction false} CountAboveAll(vals: seq<nat>, x: nat)
    requires forall i | 0 <= i < |vals| :: vals[i] < x
    ensures CountGE(vals, x) == 0
  {
    if vals != [] { CountAboveAll(vals[..|vals| - 1], x); }
  }

  lemma {:induction false} CountDrops(vals: seq<nat>, x: nat)
    requires CountGE(vals, x + 1) < CountGE(vals, x)
    ensures x in vals
  {
    if vals[|vals| - 1] != x { CountDrops(vals[..|vals| - 1], x); }
  }

  lemma {:induction false} Bounded(vals: seq<nat>) returns (top: nat)
    ensures forall i | 0 <= i < |vals| :: vals[i] < top
  {
    if vals == [] {
      top := 0;
    } else {
      var t := Bounded(vals[..|vals| - 1]);
      var last := vals[|vals| - 1];
      top := if last < t then t else last + 1;
      assert forall i | 0 <= i < |vals| - 1 :: vals[i] == vals[..|vals| - 1][i];
    }
  }

  lemma {:induction false} KthBelow(vals: seq<nat>, k: nat, top: nat) returns (x: nat)
    requires CountGE(vals, top) < k <= |vals|
    ensures IsKthLargest(vals, k, x)
    decreases top
  {
    CountAtZero(vals);
    if CountGE(vals, top - 1) < k {
      x := KthBelow(vals, k, top - 1);
    } else {
      x := top - 1;
      CountDrops(vals, x);
    }
  }

  /** Every nonempty choice of rank has exactly one k-th largest value. */
  lemma KthLargestExists(vals: seq<nat>, k: nat) returns (x: nat)
    requires 1 <= k <= |vals|
    ensures IsKthLargest(vals, k, x)
    ensures forall y: nat :: IsKthLargest(vals, k, y) ==> y == x
  {
    var top := Bounded(vals);
    CountAboveAll(vals, top);
    x := KthBelow(vals, k, top);
    forall y: nat | IsKthLargest(vals, k, y)
      ensures y == x
    {
      if x < y { CountAntitone(vals, x + 1, y); }
      if y < x { CountAntitone(vals, y + 1, x); }
    }
  }

  // ---------------------------------------------------------------- the leader's values

  function MatchValues(matched: map<int, nat>, peers: seq<int>): (vals: seq<nat>)
    ensures |vals| == |peers|
  {
    seq(|peers|, i requires 0 <= i < |peers| => Lookup(matched, peers[i]))
  }

  /** The matchIndex of every peer and, for the leader itself, the length of its log. */
  function Progress(s: NodeState): (vals: seq<nat>)
    ensures |vals| == ClusterSize(s)
  {
    MatchValues(s.matchIndex, s.peers) + [|s.log|]
  }

  lemma {:induction false} CountMatches(matched: map<int, nat>, peers: seq<int>, x: nat)
    ensures CountGE(MatchValues(matched, peers), x) == CountAtLeast(matched, peers, x)
  {
    if peers != [] {
      var rest := peers[..|peers| - 1];
      CountMatches(matched, rest, x);
      assert MatchValues(matched, peers)[..|peers| - 1] == MatchValues(matched, rest);
    }
  }

  lemma CountProgress(s: NodeState, index: nat)
    requires index <= |s.log|
    ensures CountGE(Progress(s), index) == 1 + CountAtLeast(s.matchIndex, s.peers, index)
  {
    CountMatches(s.matchIndex, s.peers, index);
    assert Progress(s)[..|s.peers|] == MatchValues(s.matchIndex, s.peers);
  }

  /** A majority is known to hold an index exactly when the index is at most the majority-th largest value. */
  lemma MajorityHolds(s: NodeState, x: nat, index: nat)
    requires IsKthLargest(Progress(s), Majority(ClusterSize(s)), x) && 1 <= index <= |s.log|
    ensures 1 + CountAtLeast(s.matchIndex, s.peers, index) >= Majority(ClusterSize(s)) <==> index <= x
  {
    CountProgress(s, index);
    hide CountGE, CountAtLeast;
    if index <= x { CountAntitone(Progress(s), index, x); } else { CountAntitone(Progress(s), x + 1, index); }
  }

  function Capped(x: nat, cap: nat): nat {
    if x < cap then x else cap
  }

  /** Below the length of the log, the scan's test on one index in terms of the majority-th largest value. */
  lemma CommittableIff(s: NodeState, x: nat)
    requires IsKthLargest(Progress(s), Majority(ClusterSize(s)), x)
    ensures forall i | 1 <= i <= |s.log| :: Committable(s, i) <==> s.log[i - 1].term == s.currentTerm && i <= x
  {
    forall i | 1 <= i <= |s.log|
      ensures Committable(s, i) <==> s.log[i - 1].term == s.currentTerm && i <= x
    {
      MajorityHolds(s, x, i);
    }
  }

  lemma CurrentTermTail(n: nat, v: nat, s: NodeState)
    requires NodeWf(n, v, s)
    ensures forall i, j | 0 <= i < j < |s.log| && s.log[i].term == s.currentTerm :: s.log[j].term == s.currentTerm
  {
    forall i, j | 0 <= i < j < |s.log| && s.log[i].term == s.currentTerm
      ensures s.log[j].term == s.currentTerm
    {
      Ordered(s.log, 0, s.currentTerm, i, j);
    }
  }

  /**
   * The scan takes the majority-th largest among len(log) and all matchIndex values, capped at len(log), and
   * commits it exactly when it exceeds commitIndex and its entry is of the current term (Section 5.4.2).
   */
  lemma ScanIsOrderStatistic(n: nat, v: nat, s: NodeState, x: nat)
    requires NodeWf(n, v, s) && IsKthLargest(Progress(s), Majority(ClusterSize(s)), x)
    ensures var c := Capped(x, |s.log|);
      AdvanceCommit(s).commitIndex ==
      if c > s.commitIndex && s.log[c - 1].term == s.currentTerm then c else s.commitIndex
  {
    var c, i := Capped(x, |s.log|), ScanDown(s, |s.log|);
    CommittableIff(s, x);
    CurrentTermTail(n, v, s);
    hide NodeWf, IsKthLargest, Committable, Progress;
    assert i > s.commitIndex ==> Committable(s, i);
    assert c > s.commitIndex ==> (Committable(s, c) <==> s.log[c - 1].term == s.currentTerm);
  }
}
