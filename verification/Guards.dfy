/**
 * When the three hypotheses hold of a delivery, in terms of what the receiver can check beforehand, and what
 * the missing checks would buy: with replies of an earlier term ignored, the first two hypotheses need no
 * mention, and Election Safety holds of every run.
 */
module Guards {
  import opened RaftTypes
  import opened NodeSpec
  import opened RaftSystem
  import opened Logs
  import opened AppendLoop
  import opened Safety

  predicate IsReply(m: Message) {
    m.payload.RequestVoteReply? || m.payload.AppendEntriesReply?
  }

  predicate Stale(s: NodeState, m: Message) {
    m.payload.term < s.currentTerm
  }

  /** FreshVotes fails exactly when a candidate is handed a granted vote of an earlier term. */
  lemma FreshVotesIff(c: Cluster, a: Action)
    requires Enabled(c, a) && a.Deliver? && a.m.payload.RequestVoteReply? && a.m.payload.voteGranted
    ensures FreshVotes(c, a) <==> !(c.nodes[a.m.receiver].role.Candidate? && Stale(c.nodes[a.m.receiver], a.m))
  {}

  /** FreshAcks fails exactly when a leader is handed a success reply of an earlier term. */
  lemma FreshAcksIff(c: Cluster, a: Action)
    requires Enabled(c, a) && a.Deliver? && a.m.payload.AppendEntriesReply? && a.m.payload.success
    ensures FreshAcks(c, a) <==> !(c.nodes[a.m.receiver].role.Leader? && Stale(c.nodes[a.m.receiver], a.m))
  {}

  // ---------------------------------------------------------------- the guarded cluster

  /** The handlers with a return right after the step-down when a reply is not of the current term. */
  function GuardedHandle(s: NodeState, m: Message): Outcome {
    var s1 := MaybeStepDown(s, m.payload.term);
    if IsReply(m) && m.payload.term != s1.currentTerm then Outcome(s1, []) else Handle(s, m)
  }

  function GuardedApply(c: Cluster, a: Action): Cluster
    requires Enabled(c, a)
  {
    if !a.Deliver? then Apply(c, a)
    else
      var out := GuardedHandle(c.nodes[a.m.receiver], a.m);
      Cluster(c.nodes[a.m.receiver := out.node], c.net + set m | m in out.sent)
  }

  predicate GuardedStep(r: Run, k: nat)
    requires k < |r.actions| && k + 1 < |r.states|
  {
    Enabled(r.states[k], r.actions[k]) && r.states[k + 1] == GuardedApply(r.states[k], r.actions[k])
  }

  predicate GuardedRun(n: nat, r: Run) {
    && |r.states| == |r.actions| + 1
    && r.states[0] == Init(n)
    && forall k | 0 <= k < |r.actions| :: GuardedStep(r, k)
  }

  /** A delivery the guards ignore is a message lost. */
  function Filtered(c: Cluster, a: Action): Action {
    if a.Deliver? && IsReply(a.m) && 0 <= a.m.receiver < |c.nodes| && Stale(c.nodes[a.m.receiver], a.m) then Network else a
  }

  function FilteredRun(r: Run): Run
    requires |r.states| == |r.actions| + 1
  {
    Run(r.states, seq(|r.actions|, k requires 0 <= k < |r.actions| => Filtered(r.states[k], r.actions[k])))
  }

  lemma GuardedIsFiltered(c: Cluster, a: Action)
    requires Enabled(c, a)
    ensures Enabled(c, Filtered(c, a)) && GuardedApply(c, a) == Apply(c, Filtered(c, a))
    ensures FreshVotes(c, Filtered(c, a)) && FreshAcks(c, Filtered(c, a))
  {
    hide Handle;
    if a.Deliver? && Filtered(c, a).Network? {
      assert c.nodes[a.m.receiver := c.nodes[a.m.receiver]] == c.nodes;
      assert c.net + (set m | m in []) == c.net;
    }
  }

  /** Every run of the guarded cluster is, state for state, a run of the code in which both hypotheses hold. */
  lemma GuardedRefines(n: nat, r: Run)
    requires GuardedRun(n, r)
    ensures ValidRun(n, FilteredRun(r)) && FreshVotesRun(n, FilteredRun(r))
    ensures forall k: nat | k < |r.actions| :: FreshAcks(r.states[k], FilteredRun(r).actions[k])
  {
    hide GuardedApply, Apply, FreshVotes, FreshAcks, Filtered, Enabled;
    forall k: nat | k < |r.actions|
      ensures Step(FilteredRun(r), k)
      ensures FreshVotes(r.states[k], FilteredRun(r).actions[k]) && FreshAcks(r.states[k], FilteredRun(r).actions[k])
    {
      assert GuardedStep(r, k);
      GuardedIsFiltered(r.states[k], r.actions[k]);
    }
  }

  /** Election Safety of the guarded cluster, whatever is delivered when. */
  lemma GuardedElectionSafety(n: nat, r: Run, j: nat, k: nat, a: nat, b: nat, term: nat)
    requires GuardedRun(n, r) && j < |r.states| && k < |r.states| && a < n && b < n
    requires |r.states[j].nodes| == |r.states[k].nodes| == n
    requires LeadsIn(r.states[j], a, term) && LeadsIn(r.states[k], b, term)
    ensures a == b
  {
    GuardedRefines(n, r);
    hide GuardedRun, ValidRun, FreshVotesRun;
    ElectionSafety(n, FilteredRun(r), j, k, a, b, term);
  }

  /** No accepted AppendEntries meets a log whose further entries, of another term, it would vouch for. */
  ghost predicate ExactGuards(r: Run) {
    forall k: nat | k < |r.actions| && k < |r.states| && r.actions[k].Deliver? && r.actions[k].m.payload.AppendEntries? ::
      var m := r.actions[k].m;
      0 <= m.receiver < |r.states[k].nodes| && Accepts(r.states[k].nodes[m.receiver], m.payload) ==>
        ExactGuard(r.states[k].nodes[m.receiver], m.payload)
  }

  /** State Machine Safety of the guarded cluster, under the one remaining hypothesis as a check before each call. */
  lemma GuardedStateMachineSafety(n: nat, r: Run, j: nat, k: nat, a: nat, b: nat)
    requires GuardedRun(n, r) && ExactGuards(r) && j < |r.states| && k < |r.states| && a < n && b < n
    ensures |r.states[j].nodes| == |r.states[k].nodes| == n
    ensures var s, t := r.states[j].nodes[a], r.states[k].nodes[b];
      Agree(s.log, t.log, if s.commitIndex < t.commitIndex then s.commitIndex else t.commitIndex)
  {
    GuardedRefines(n, r);
    var q := FilteredRun(r);
    hide Apply, GuardedApply, ExactGuard, Accepts, FreshVotes, FreshAcks;
    forall x: nat | x < |q.actions|
      ensures ExactAck(q.states[x], q.actions[x])
    {
      assert Step(q, x);
      ExactFiltered(q.states[x], q.actions[x], r.actions[x]);
    }
    hide GuardedRun, ValidRun, ExactGuards, ExactAck, FilteredRun, Agree;
    StateMachineSafety(n, q, j, k, a, b);
  }

  lemma ExactFiltered(c: Cluster, a: Action, x: Action)
    requires Enabled(c, a) && a == Filtered(c, x)
    requires x.Deliver? && x.m.payload.AppendEntries? && 0 <= x.m.receiver < |c.nodes| ==>
      Accepts(c.nodes[x.m.receiver], x.m.payload) ==> ExactGuard(c.nodes[x.m.receiver], x.m.payload)
    ensures ExactAck(c, a)
  {
    hide ExactGuard, Accepts, HandleAppendEntries;
    if a.Deliver? && a.m.payload.AppendEntries? && Accepts(c.nodes[a.m.receiver], a.m.payload) {
      ExactAckIff(c, a);
    }
  }
}
