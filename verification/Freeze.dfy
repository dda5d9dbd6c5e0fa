/**
 * What a partition freezes. While every link into a minority of the nodes is cut, that side elects nobody and
 * commits nothing, apart from what was already under way when the links were cut: a candidate may still win on
 * the votes it had counted together with those its queued bids and queued replies may bring, and a leader may
 * still commit on what nodes outside had acknowledged to it.
 */
module MinorityFreeze {
  import opened RaftTypes
  import opened NodeSpec
  import opened RaftSystem
  import opened Basics
  import opened RunFacts
  import opened SimulatorBus

  // ---------------------------------------------------------------- the cut

  /** Every link from outside `side` into it is cut. */
  predicate CutOff(n: nat, side: set<int>, b: Bus) {
    forall p, v | 0 <= p < n && p !in side && v in side :: (p, v) in b.cut
  }

  /** No message that has passed its link test is on its way from outside into an inbox of `side`. */
  predicate NothingPassed(n: nat, side: set<int>, b: Bus) {
    && |b.pending| == |b.inboxes| == n
    && forall p | p in b.passed && 0 <= p < n && p !in side && b.pending[p] != [] :: b.pending[p][0].receiver !in side
  }

  /** Nothing from outside is waiting in the inboxes of `side` or on its way into them. */
  predicate Drained(n: nat, side: set<int>, b: Bus) {
    NothingPassed(n, side, b) && forall v, m | v in side && 0 <= v < n && m in b.inboxes[v] :: m.sender in side
  }

  /** The nodes of `side` have nothing left to handle and nothing left to send. */
  predicate Quiet(n: nat, side: set<int>, b: Bus) {
    NothingPassed(n, side, b) && forall v | v in side && 0 <= v < n :: b.inboxes[v] == b.pending[v] == []
  }

  predicate Side(n: nat, side: set<int>) {
    forall v | v in side :: 0 <= v < n
  }

  /** No Heal from state `j` to state `k`. */
  predicate NoHeal(r: BusRun, j: nat, k: nat) {
    forall x | j <= x < k && x < |r.actions| :: !r.actions[x].Heal?
  }

  /** Partition with two groups that cover the cluster cuts every link into either of them. */
  lemma PartitionCutsOff(n: nat, b: Bus, groupA: seq<int>, groupB: seq<int>)
    requires forall p | 0 <= p < n :: p in groupA || p in groupB
    ensures var b' := BusApply(b, Partition(groupA, groupB));
      CutOff(n, (set v | v in groupA), b') && CutOff(n, (set v | v in groupB), b')
  {
    var b' := BusApply(b, Partition(groupA, groupB));
    forall p, v | 0 <= p < n && p !in groupA && v in groupA ensures (p, v) in b'.cut { assert p in groupB; }
    forall p, v | 0 <= p < n && p !in groupB && v in groupB ensures (p, v) in b'.cut { assert p in groupA; }
  }

  // ---------------------------------------------------------------- votes under way

  /** `m` is a bid of `v` to `u`, or the vote of `u` for `v`. */
  predicate Speaks(m: Message, v: int, u: int) {
    || (m.payload.RequestVote? && m.sender == v && m.receiver == u)
    || (Granted(m) && m.sender == u && m.receiver == v)
  }

  predicate UnderWay(b: Bus, m: Message) {
    || (0 <= m.sender < |b.pending| && m in b.pending[m.sender])
    || (0 <= m.receiver < |b.inboxes| && m in b.inboxes[m.receiver])
  }

  /** A bid of `v` to `u` or the vote of `u` for `v` is queued or still to be sent. */
  ghost predicate HasSay(b: Bus, v: int, u: int) {
    exists m :: UnderWay(b, m) && Speaks(m, v, u)
  }

  /** The nodes of the side whose vote `v` may still get on what is under way. */
  ghost function Sympathizers(side: set<int>, b: Bus, v: int): set<int> {
    set u | u in side && HasSay(b, v, u)
  }

  lemma UnderWayStep(n: nat, b: Bus, net: set<Message>, x: BusAction, m: Message)
    requires BusWf(n, b, net) && BusEnabled(b, x) && UnderWay(BusApply(b, x), m)
    ensures UnderWay(b, m) || m in Emitted(b, x)
  {
    hide Effect;
    if x.Test? || x.Push? { assert b.pending[x.node][0] in b.pending[x.node]; }
  }

  // ---------------------------------------------------------------- one handler

  /** A vote enters a candidacy only with a granted reply of its term or an earlier one. */
  lemma HandleVotes(s: NodeState, m: Message)
    requires !Handle(s, m).node.role.Follower? && !s.role.Leader?
    ensures var t := Handle(s, m).node;
      && s.role.Candidate? && t.currentTerm == s.currentTerm
      && t.votesReceived <= s.votesReceived + (if Granted(m) && m.payload.term <= s.currentTerm then {m.sender} else {})
      && (t.role.Leader? ==> |t.votesReceived| >= Majority(ClusterSize(t)))
  {
    hide Merged, ScanDown, AppendsToPeers, MatchOf;
  }

  /** The vote that handling `a` may add in the given term. */
  function VoteOf(a: Action, term: nat): set<int> {
    if a.Deliver? && Granted(a.m) && a.m.payload.term <= term then {a.m.sender} else {}
  }

  lemma EffectVotesFrom(s: NodeState, a: Action)
    requires !a.Network? && !Effect(s, a).node.role.Follower? && !(s.role.Leader? && Effect(s, a).node.role.Leader?)
    ensures var t := Effect(s, a).node;
      || (a.Timeout? && t.role.Candidate? && t.votesReceived == {s.id} && t.currentTerm > s.currentTerm)
      || (&& s.role.Candidate? && t.currentTerm == s.currentTerm
          && t.votesReceived <= s.votesReceived + VoteOf(a, s.currentTerm)
          && (t.role.Leader? ==> a.Deliver? && |t.votesReceived| >= Majority(ClusterSize(t))))
  {
    hide AppendsToPeers, ToPeers, Handle;
    EffectKeepsRole(s, a);
    if a.Deliver? {
      LeaderStays(s, a.m);
      if !s.role.Leader? { HandleVotes(s, a.m); }
    }
  }

  lemma LeaderStays(s: NodeState, m: Message)
    ensures s.role.Leader? ==> !Handle(s, m).node.role.Candidate?
  {
    hide Merged, ScanDown, AppendsToPeers, MatchOf;
  }

  /** A bid is of a new term; a vote answers a bid of the same term. */
  lemma EffectSpeaks(s: NodeState, a: Action, m: Message, v: int, u: int)
    requires !a.Network? && m in Effect(s, a).sent && Speaks(m, v, u) && (a.Deliver? ==> a.m.receiver == s.id)
    ensures
      || (v == s.id && m.payload.term > s.currentTerm)
      || (a.Deliver? && Speaks(a.m, v, u) && a.m.payload.term == m.payload.term)
  {
    hide Merged, ScanDown, MatchOf;
  }

  // ---------------------------------------------------------------- what the cut keeps

  /** What `v` knew of `p` at the cut, if this is still the same leadership. */
  function OldMatch(s0: NodeState, term: nat, p: int): nat {
    if s0.role.Leader? && s0.currentTerm == term then MatchOf(s0, p) else 0
  }

  /**
   * Node `v` of the side, in state `s0` at the cut and `s` now, where `symp` are its sympathizers at the cut: a
   * candidacy that is older than the cut has gained none but their votes, a later one has votes of the side only.
   */
  ghost predicate Frozen(side: set<int>, symp: set<int>, s0: NodeState, s: NodeState) {
    && s0.currentTerm <= s.currentTerm
    && (s.role.Candidate? && s.currentTerm == s0.currentTerm ==>
          s0.role.Candidate? && s.votesReceived <= s0.votesReceived + symp)
    && (s.role.Candidate? && s.currentTerm > s0.currentTerm ==> s.votesReceived <= side)
    && (s.role.Leader? ==> forall p | p !in side :: MatchOf(s, p) == OldMatch(s0, s.currentTerm, p))
  }

  /** What `m` says about a candidacy of the side is of a later term than the cut, or was under way at the cut. */
  ghost predicate FrozenMail(side: set<int>, b0: Bus, m: Message) {
    forall v, u | v in side && u in side && 0 <= v < |b0.nodes| && Speaks(m, v, u) ::
      m.payload.term > b0.nodes[v].currentTerm || HasSay(b0, v, u)
  }

  lemma FrozenVotes(side: set<int>, b0: Bus, v: int, s: NodeState, a: Action)
    requires 0 <= v < |b0.nodes| && Frozen(side, Sympathizers(side, b0, v), b0.nodes[v], s)
    requires !a.Network? && s.id == v && v in side
    requires a.Deliver? ==> a.m.receiver == v && a.m.sender in side && FrozenMail(side, b0, a.m)
    requires !s.role.Leader? && !Effect(s, a).node.role.Follower?
    ensures var s0, t := b0.nodes[v], Effect(s, a).node;
      && s0.currentTerm <= t.currentTerm
      && (t.currentTerm == s0.currentTerm ==>
            s0.role.Candidate? && t.votesReceived <= s0.votesReceived + Sympathizers(side, b0, v))
      && (t.currentTerm > s0.currentTerm ==> t.votesReceived <= side)
      && (t.role.Leader? ==> |t.votesReceived| >= Majority(ClusterSize(t)))
  {
    EffectVotesFrom(s, a);
    hide Effect, HasSay;
    if a.Deliver? && Granted(a.m) { assert Speaks(a.m, v, a.m.sender); }
  }

  lemma FrozenEffect(side: set<int>, b0: Bus, v: int, s: NodeState, a: Action)
    requires 0 <= v < |b0.nodes| && Frozen(side, Sympathizers(side, b0, v), b0.nodes[v], s)
    requires !a.Network? && s.id == v && v in side
    requires a.Deliver? ==> a.m.receiver == v && a.m.sender in side && FrozenMail(side, b0, a.m)
    ensures Frozen(side, Sympathizers(side, b0, v), b0.nodes[v], Effect(s, a).node)
  {
    var t := Effect(s, a).node;
    EffectKeepsVote(s, a);
    EffectKeepsRole(s, a);
    if !t.role.Follower? && !s.role.Leader? { FrozenVotes(side, b0, v, s, a); }
    if t.role.Candidate? && s.role.Leader? { EffectVotesFrom(s, a); }
    hide Effect, Sympathizers, FrozenMail;
    if t.role.Leader? {
      forall p | p !in side
        ensures MatchOf(t, p) == OldMatch(b0.nodes[v], t.currentTerm, p)
      {
        EffectMatch(s, a, p);
      }
    }
  }

  lemma FrozenSent(side: set<int>, b0: Bus, s: NodeState, a: Action, m: Message)
    requires 0 <= s.id < |b0.nodes| && (s.id in side ==> b0.nodes[s.id].currentTerm <= s.currentTerm)
    requires !a.Network? && m in Effect(s, a).sent
    requires a.Deliver? ==> a.m.receiver == s.id && FrozenMail(side, b0, a.m)
    ensures FrozenMail(side, b0, m)
  {
    hide Effect, HasSay;
    forall v, u | v in side && u in side && 0 <= v < |b0.nodes| && Speaks(m, v, u)
      ensures m.payload.term > b0.nodes[v].currentTerm || HasSay(b0, v, u)
    {
      EffectSpeaks(s, a, m, v, u);
    }
  }

  /** Everything the cut keeps, from its state `b0` on. */
  ghost predicate FrozenBus(n: nat, side: set<int>, b0: Bus, b: Bus) {
    && CutOff(n, side, b) && Drained(n, side, b) && |b.nodes| == |b0.nodes| == n
    && (forall v | v in side && 0 <= v < n :: Frozen(side, Sympathizers(side, b0, v), b0.nodes[v], b.nodes[v]))
    && (forall m | UnderWay(b, m) :: FrozenMail(side, b0, m))
  }

  lemma FrozenAtCut(n: nat, side: set<int>, b: Bus)
    requires CutOff(n, side, b) && Drained(n, side, b) && |b.nodes| == n
    ensures FrozenBus(n, side, b, b)
  {
    hide CutOff, Drained, UnderWay, Speaks;
  }

  lemma DrainedStep(n: nat, side: set<int>, b: Bus, net: set<Message>, x: BusAction)
    requires BusWf(n, b, net) && BusEnabled(b, x) && !x.Heal? && CutOff(n, side, b) && Drained(n, side, b)
    ensures CutOff(n, side, BusApply(b, x)) && Drained(n, side, BusApply(b, x))
  {
    hide Effect;
    if x.Test? || x.Push? { assert b.pending[x.node][0] in b.pending[x.node]; }
  }

  lemma FrozenStep(n: nat, side: set<int>, b0: Bus, b: Bus, net: set<Message>, x: BusAction)
    requires BusWf(n, b, net) && BusEnabled(b, x) && !x.Heal? && FrozenBus(n, side, b0, b)
    ensures FrozenBus(n, side, b0, BusApply(b, x))
  {
    DrainedStep(n, side, b, net, x);
    var a := Shadow(b, x);
    if x.Receive? {
      assert b.inboxes[x.node][0] in b.inboxes[x.node];
      assert UnderWay(b, b.inboxes[x.node][0]);
    }
    hide Effect, CutOff, Frozen, FrozenMail, Sympathizers;
    if !a.Network? && Actor(a) in side {
      FrozenEffect(side, b0, Actor(a), b.nodes[Actor(a)], a);
    }
    forall m | UnderWay(BusApply(b, x), m)
      ensures FrozenMail(side, b0, m)
    {
      UnderWayStep(n, b, net, x, m);
      if !UnderWay(b, m) { FrozenSent(side, b0, b.nodes[Actor(a)], a, m); }
    }
  }

  lemma {:induction false} FrozenThroughout(n: nat, r: BusRun, side: set<int>, j: nat, k: nat)
    requires ValidBusRun(n, r) && j <= k < |r.states| && NoHeal(r, j, k)
    requires CutOff(n, side, r.states[j]) && Drained(n, side, r.states[j])
    ensures FrozenBus(n, side, r.states[j], r.states[k])
    decreases k
  {
    hide BusWf, NodeWf, MessageWf, FrozenBus, BusEnabled, BusApply, CutOff, Drained, EverSent;
    if j == k {
      BusNodes(n, r, j);
      FrozenAtCut(n, side, r.states[j]);
    } else {
      FrozenThroughout(n, r, side, j, k - 1);
      BusNodes(n, r, k - 1);
      assert BusStep(r, k - 1);
      hide ValidBusRun;
      FrozenStep(n, side, r.states[j], r.states[k - 1], EverSent(r, k - 1), r.actions[k - 1]);
    }
  }

  // ---------------------------------------------------------------- elections behind the cut

  /** Node `v` starts to lead at step `k`. */
  predicate TakesOver(r: BusRun, k: nat, v: nat) {
    && k + 1 < |r.states| && v < |r.states[k].nodes| && v < |r.states[k + 1].nodes|
    && !r.states[k].nodes[v].role.Leader? && r.states[k + 1].nodes[v].role.Leader?
  }

  lemma SubsetSize(a: set<int>, b: set<int>)
    requires a <= b
    ensures |a| <= |b|
  {
    assert b == a + (b - a);
    assert |b| == |a| + |b - a|;
  }

  lemma UnionSize(a: set<int>, b: set<int>)
    ensures |a + b| <= |a| + |b|
  {
    assert a + b == a + (b - a);
    SubsetSize(b - a, b);
  }


  lemma ElectionVotes(n: nat, side: set<int>, b0: Bus, v: nat, s: NodeState, a: Action)
    requires v < |b0.nodes| && Frozen(side, Sympathizers(side, b0, v), b0.nodes[v], s)
    requires NodeWf(n, v, s) && v in side && !a.Network? && |side| < Majority(n)
    requires a.Deliver? ==> a.m.receiver == v && a.m.sender in side && FrozenMail(side, b0, a.m)
    requires !s.role.Leader? && Effect(s, a).node.role.Leader? && Effect(s, a).node.peers == s.peers
    ensures var s0 := b0.nodes[v];
      && s0.role.Candidate? && s0.currentTerm == Effect(s, a).node.currentTerm
      && |s0.votesReceived + Sympathizers(side, b0, v)| >= Majority(n)
  {
    FrozenVotes(side, b0, v, s, a);
    hide Effect, SegmentWf, Frozen, FrozenMail, Sympathizers;
    var t := Effect(s, a).node;
    if t.currentTerm > b0.nodes[v].currentTerm {
      SubsetSize(t.votesReceived, side);
    } else {
      SubsetSize(t.votesReceived, b0.nodes[v].votesReceived + Sympathizers(side, b0, v));
    }
  }

  /** A bus step that changes a node is the effect of the action it amounts to, with a message waiting for it. */
  lemma ActedOn(n: nat, r: BusRun, k: nat, v: nat)
    requires ValidBusRun(n, r) && k < |r.actions| && v < n
    ensures |r.states[k].nodes| == |r.states[k + 1].nodes| == |r.states[k].inboxes| == n
    ensures var b, a, t := r.states[k], Shadow(r.states[k], r.actions[k]), r.states[k + 1].nodes[v];
      || t == b.nodes[v]
      || (!a.Network? && t == Effect(b.nodes[v], a).node
          && (a.Deliver? ==> a.m.receiver == v && a.m in b.inboxes[v] && UnderWay(b, a.m)))
  {
    BusNodes(n, r, k);
    BusNodes(n, r, k + 1);
    assert BusStep(r, k);
    var b, x := r.states[k], r.actions[k];
    if x.Receive? { assert b.inboxes[x.node][0] in b.inboxes[x.node]; }
    hide Effect, NodeWf, MessageWf;
  }

  /**
   * An election behind the cut rests on what was under way: a node of the side that becomes leader before Heal
   * had been a candidate in that very term when the links were cut, and the votes it had counted by then make a
   * majority together with the nodes of the side that a bid of it, or from which a vote for it, was under way.
   */
  lemma NoMinorityElection(n: nat, r: BusRun, side: set<int>, j: nat, k: nat, v: nat)
    requires ValidBusRun(n, r) && j <= k < |r.actions| && Side(n, side) && NoHeal(r, j, k)
    requires CutOff(n, side, r.states[j]) && Drained(n, side, r.states[j])
    requires |side| < Majority(n) && v in side && TakesOver(r, k, v)
    ensures |r.states[j].nodes| == |r.states[k + 1].nodes| == n && v < n
    ensures var s0, t := r.states[j].nodes[v], r.states[k + 1].nodes[v];
      && s0.role.Candidate? && s0.currentTerm == t.currentTerm
      && |s0.votesReceived + Sympathizers(side, r.states[j], v)| >= Majority(n)
  {
    FrozenThroughout(n, r, side, j, k);
    BusNodes(n, r, j);
    ActedOn(n, r, k, v);
    var b, a := r.states[k], Shadow(r.states[k], r.actions[k]);
    BusNodesAt(n, r, k, v);
    BusNodesAt(n, r, k + 1, v);
    hide ValidBusRun, BusWf, MessageWf, SegmentWf, Frozen, FrozenMail, Effect, CutOff, UnderWay, Sympathizers;
    ElectionVotes(n, side, r.states[j], v, b.nodes[v], a);
  }

  /**
   * The freeze: once the nodes of a cut-off minority have nothing left to handle and nothing left to send, no
   * node there becomes leader until Heal, whatever votes its candidates had counted, from either side.
   */
  lemma FreezeHolds(n: nat, r: BusRun, side: set<int>, j: nat, k: nat)
    requires ValidBusRun(n, r) && j <= k < |r.actions| && Side(n, side) && NoHeal(r, j, k)
    requires CutOff(n, side, r.states[j]) && Quiet(n, side, r.states[j]) && |side| < Majority(n)
    ensures forall v: nat | v in side :: !TakesOver(r, k, v)
  {
    var b := r.states[j];
    assert Drained(n, side, b);
    forall v: nat | v in side
      ensures !TakesOver(r, k, v)
    {
      if TakesOver(r, k, v) {
        NoMinorityElection(n, r, side, j, k, v);
        NobodySpeaks(n, side, b, v);
        assert b.nodes[v].votesReceived + {} == b.nodes[v].votesReceived;
        assert {v as int} <= side;
        SubsetSize({v as int}, side);
        ShortOnBus(n, r, j, v);
      }
    }
  }

  lemma NobodySpeaks(n: nat, side: set<int>, b: Bus, v: int)
    requires Quiet(n, side, b) && Side(n, side) && v in side
    ensures Sympathizers(side, b, v) == {}
  {
    hide NothingPassed;
  }

  lemma ShortOnBus(n: nat, r: BusRun, k: nat, v: nat)
    requires ValidBusRun(n, r) && k < |r.states| && v < n && n >= 2
    ensures |r.states[k].nodes| == n
    ensures r.states[k].nodes[v].role.Candidate? ==> |r.states[k].nodes[v].votesReceived| < Majority(n)
  {
    BusRefines(n, r);
    CandidateIsShort(n, Abstracted(r), k, v);
    hide ValidBusRun, ValidRun;
  }

  // ---------------------------------------------------------------- commits behind the cut

  /** The peers outside the side that `v` knew, at the cut, to hold `index` entries. */
  function OutsideHolders(side: set<int>, s0: NodeState, index: nat): set<int> {
    set p | p in s0.peers && p !in side && MatchOf(s0, p) >= index
  }

  /** The holders a leader of the side can count are members of the side and holders known before the cut. */
  lemma HoldersBehindCut(n: nat, side: set<int>, symp: set<int>, s0: NodeState, t: NodeState, v: nat, index: nat)
    requires Frozen(side, symp, s0, t) && t.role.Leader? && v in side && index > 0
    requires NodeWf(n, v, t) && s0.peers == t.peers
    ensures |Holders(t, index)| + 1 <= |side| + |OutsideHolders(side, s0, index)|
    ensures |Holders(t, index)| + 1 > |side| ==> s0.role.Leader? && s0.currentTerm == t.currentTerm
  {
    hide SegmentWf;
    PeersOfMembers(n, v, v);
    var inside, outside := side - {v as int}, OutsideHolders(side, s0, index);
    assert |side| == |inside| + 1 by { assert side == inside + {v as int}; }
    if s0.role.Leader? && s0.currentTerm == t.currentTerm {
      assert Holders(t, index) <= inside + outside;
      SubsetSize(Holders(t, index), inside + outside);
      UnionSize(inside, outside);
    } else {
      assert Holders(t, index) <= inside;
      SubsetSize(Holders(t, index), inside);
    }
  }

  /**
   * No commit behind the cut beyond what it had let through: when the quorum scan of a leader on the minority
   * side moves commitIndex before Heal, that leader was leading the same term when the links were cut, and so
   * many nodes outside had by then acknowledged the new index that these and the whole side make a majority.
   */
  lemma NoMinorityCommit(n: nat, r: BusRun, side: set<int>, j: nat, k: nat, v: nat)
    requires ValidBusRun(n, r) && j <= k < |r.actions| && Side(n, side) && NoHeal(r, j, k)
    requires CutOff(n, side, r.states[j]) && Drained(n, side, r.states[j])
    requires |side| < Majority(n) && v in side && v < n
    requires |r.states[j].nodes| == |r.states[k].nodes| == |r.states[k + 1].nodes| == n
    requires r.states[k + 1].nodes[v].role.Leader?
    requires r.states[k].nodes[v].commitIndex != r.states[k + 1].nodes[v].commitIndex
    ensures var s0, t := r.states[j].nodes[v], r.states[k + 1].nodes[v];
      && s0.role.Leader? && s0.currentTerm == t.currentTerm
      && |side| + |OutsideHolders(side, s0, t.commitIndex)| >= Majority(n)
  {
    BusNodes(n, r, j);
    BusNodes(n, r, k + 1);
    assert NoHeal(r, j, k);
    FrozenThroughout(n, r, side, j, k);
    ActedOn(n, r, k, v);
    var a := Shadow(r.states[k], r.actions[k]);
    var s0, s, t := r.states[j].nodes[v], r.states[k].nodes[v], r.states[k + 1].nodes[v];
    var symp := Sympathizers(side, r.states[j], v);
    hide ValidBusRun, BusWf, MessageWf, SegmentWf, Frozen, FrozenMail, CutOff, UnderWay, Sympathizers;
    BusNodesAt(n, r, k, v);
    FrozenEffect(side, r.states[j], v, s, a);
    EffectCommits(s, a);
    hide Effect, Committable, Holders;
    HoldersCounted(n, v, t, t.commitIndex);
    HoldersBehindCut(n, side, symp, s0, t, v, t.commitIndex);
  }

  lemma BusNodesAt(n: nat, r: BusRun, k: nat, v: nat)
    requires ValidBusRun(n, r) && k < |r.states| && v < n
    ensures |r.states[k].nodes| == n && NodeWf(n, v, r.states[k].nodes[v])
  {
    BusNodes(n, r, k);
  }
}
