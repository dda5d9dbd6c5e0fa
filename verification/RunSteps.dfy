/** Runs built one action at a time. */
module RunSteps {
  import opened RaftSystem
  import opened Basics

  function Last(r: Run): Cluster
    requires |r.states| > 0
  {
    r.states[|r.states| - 1]
  }

  predicate Extends(r: Run, r': Run) {
    r.states <= r'.states && r.actions <= r'.actions
  }

  function Start(n: nat): Run {
    Run([Init(n)], [])
  }

  function Longer(r: Run, a: Action): Run
    requires |r.states| > 0 && Enabled(Last(r), a)
  {
    Run(r.states + [Apply(Last(r), a)], r.actions + [a])
  }

  lemma LongerValid(n: nat, r: Run, a: Action)
    requires ValidRun(n, r) && Enabled(Last(r), a)
    ensures ValidRun(n, Longer(r, a)) && Extends(r, Longer(r, a)) && Last(Longer(r, a)) == Apply(Last(r), a)
    ensures forall k | 0 <= k < |r.actions| :: Step(r, k) && Longer(r, a).states[k] == r.states[k] && Longer(r, a).actions[k] == r.actions[k]
    ensures var r' := Longer(r, a);
      |r'.actions| == |r.actions| + 1 && r'.states[|r.actions|] == Last(r) && r'.actions[|r.actions|] == a
  {
    hide Apply, Enabled;
    var r' := Longer(r, a);
    assert forall k | 0 <= k < |r.actions| :: Step(r, k);
    forall k | 0 <= k < |r'.actions|
      ensures Step(r', k)
    {
      if k < |r.actions| { assert Step(r, k); }
    }
  }

  lemma NodeAt(n: nat, r: Run, v: nat)
    requires ValidRun(n, r) && v < n
    ensures |Last(r).nodes| == n && NodeWf(n, v, Last(r).nodes[v])
    ensures Last(r).nodes[v].id == v && Last(r).nodes[v].peers == PeersOf(n, v)
  {
    WellFormedRun(n, r, |r.states| - 1);
  }

  // ---------------------------------------------------------------- runs that keep FreshVotes

  /** Run `r'` goes on from `r` and counts no stale vote that `r` had not counted. */
  ghost predicate GoesOn(n: nat, r: Run, r': Run) {
    && ValidRun(n, r) && ValidRun(n, r') && Extends(r, r') && Last(r).net <= Last(r').net
    && (FreshVotesRun(n, r) ==> FreshVotesRun(n, r'))
  }

  lemma GoesOnTwice(n: nat, r: Run, r': Run, r'': Run)
    requires GoesOn(n, r, r') && GoesOn(n, r', r'')
    ensures GoesOn(n, r, r'')
  {
    hide ValidRun, FreshVotesRun;
  }

  predicate FreshStep(r: Run, k: nat) {
    k < |r.actions| && k < |r.states| && Enabled(r.states[k], r.actions[k]) && FreshVotes(r.states[k], r.actions[k])
  }

  lemma FreshAt(n: nat, r: Run, k: nat)
    requires ValidRun(n, r) && FreshVotesRun(n, r) && k < |r.actions|
    ensures FreshStep(r, k)
  {
    assert Step(r, k);
    hide FreshVotes;
  }

  lemma FreshEverywhere(n: nat, r: Run)
    requires ValidRun(n, r) && forall k: nat | k < |r.actions| :: FreshStep(r, k)
    ensures FreshVotesRun(n, r)
  {
    assert |r.states| == |r.actions| + 1;
    hide FreshVotes, Enabled, Apply, ValidRun;
    forall k | 0 <= k < |r.actions| && Step(r, k)
      ensures FreshVotes(r.states[k], r.actions[k])
    {
      assert FreshStep(r, k);
    }
  }

  lemma FreshStepLonger(r: Run, a: Action, k: nat)
    requires |r.states| == |r.actions| + 1 && Enabled(Last(r), a)
    requires if k < |r.actions| then FreshStep(r, k) else k == |r.actions| && FreshVotes(Last(r), a)
    ensures FreshStep(Longer(r, a), k)
  {
    hide FreshVotes, Enabled, Apply;
  }

  lemma FreshLonger(n: nat, r: Run, a: Action)
    requires ValidRun(n, r) && FreshVotesRun(n, r) && Enabled(Last(r), a) && FreshVotes(Last(r), a)
    ensures ValidRun(n, Longer(r, a)) && FreshVotesRun(n, Longer(r, a))
  {
    assert |r.states| == |r.actions| + 1;
    hide Apply, Enabled, FreshVotes, ValidRun, FreshVotesRun, Step, FreshStep;
    LongerValid(n, r, a);
    forall k: nat | k < |Longer(r, a).actions|
      ensures FreshStep(Longer(r, a), k)
    {
      if k < |r.actions| { FreshAt(n, r, k); }
      FreshStepLonger(r, a, k);
    }
    FreshEverywhere(n, Longer(r, a));
  }

  /** One more action of node `v`. */
  lemma Do(n: nat, r: Run, v: nat, a: Action) returns (r': Run)
    requires ValidRun(n, r) && v < n && !a.Network? && Actor(a) == v && (a.Deliver? ==> a.m in Last(r).net)
    requires |Last(r).nodes| == n ==> Enabled(Last(r), a) && FreshVotes(Last(r), a)
    ensures GoesOn(n, r, r') && r'.actions == r.actions + [a] && |Last(r).nodes| == |Last(r').nodes| == n
    ensures Last(r').nodes == Last(r).nodes[v := Effect(Last(r).nodes[v], a).node]
    ensures forall m | m in Effect(Last(r).nodes[v], a).sent :: m in Last(r').net
  {
    NodeAt(n, r, v);
    LongerValid(n, r, a);
    r' := Longer(r, a);
    hide ValidRun, Effect, FreshVotes, FreshVotesRun;
    if FreshVotesRun(n, r) { FreshLonger(n, r, a); }
  }
}
