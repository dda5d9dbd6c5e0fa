/** Runs of the bus, one step or one message at a time. */
module BusRuns {
  import opened RaftTypes
  import opened NodeSpec
  import opened SimulatorBus

  function Last(r: BusRun): Bus
    requires |r.states| > 0
  {
    r.states[|r.states| - 1]
  }

  lemma Go(n: nat, r: BusRun, x: BusAction) returns (r': BusRun)
    requires ValidBusRun(n, r) && BusEnabled(Last(r), x)
    ensures ValidBusRun(n, r') && r.states <= r'.states && r'.actions == r.actions + [x]
    ensures Last(r') == BusApply(Last(r), x)
  {
    r' := BusRun(r.states + [BusApply(Last(r), x)], r.actions + [x]);
    hide BusApply, BusEnabled;
    forall k | 0 <= k < |r'.actions|
      ensures BusStep(r', k)
    {
      if k < |r.actions| { assert BusStep(r, k); }
    }
  }

  /** Node `i` hands over its next message `m` to a node with an empty inbox, over a link that is not cut. */
  lemma HandOver(n: nat, r: BusRun, i: nat, m: Message, rest: seq<Message>, b': Bus) returns (r': BusRun)
    requires ValidBusRun(n, r) && Indexed(Last(r), i) && 0 <= m.receiver < |Last(r).inboxes|
    requires Last(r).pending[i] == [m] + rest && Last(r).passed == {} && !Severed(Last(r).cut, m)
    requires Last(r).inboxes[m.receiver] == []
    requires b'.nodes == Last(r).nodes && b'.cut == Last(r).cut && b'.pending == Last(r).pending[i := rest]
    requires b'.inboxes == Last(r).inboxes[m.receiver := [m]] && b'.passed == {}
    ensures ValidBusRun(n, r') && r.states <= r'.states && Last(r') == b'
    ensures r'.actions == r.actions + [Test(i), Push(i, true)]
  {
    assert Last(r).pending[i][0] == m && Last(r).pending[i][1..] == rest && [] + [m] == [m];
    hide ValidBusRun;
    var r1 := Go(n, r, Test(i));
    assert Last(r1) == Last(r).(passed := {i as int}) && {i as int} - {i as int} == {};
    r' := Go(n, r1, Push(i, true));
  }

  /** Node `i` sends its next message `m` over a cut link. */
  lemma Lose(n: nat, r: BusRun, i: nat, m: Message, rest: seq<Message>, b': Bus) returns (r': BusRun)
    requires ValidBusRun(n, r) && Indexed(Last(r), i) && 0 <= m.receiver < |Last(r).inboxes|
    requires Last(r).pending[i] == [m] + rest && Last(r).passed == {} && Severed(Last(r).cut, m)
    requires b' == Last(r).(pending := Last(r).pending[i := rest])
    ensures ValidBusRun(n, r') && r.states <= r'.states && r'.actions == r.actions + [Test(i)] && Last(r') == b'
  {
    assert Last(r).pending[i][0] == m && Last(r).pending[i][1..] == rest;
    hide ValidBusRun;
    r' := Go(n, r, Test(i));
  }

  /** Node `i` handles the only message in its inbox. */
  lemma TakeIn(n: nat, r: BusRun, i: nat, m: Message, out: Outcome, b': Bus) returns (r': BusRun)
    requires ValidBusRun(n, r) && Ready(Last(r), i)
    requires Last(r).inboxes[i] == [m] && out == Handle(Last(r).nodes[i], m)
    requires b'.nodes == Last(r).nodes[i := out.node] && b'.pending == Last(r).pending[i := out.sent]
    requires b'.inboxes == Last(r).inboxes[i := []] && b'.cut == Last(r).cut && b'.passed == Last(r).passed
    ensures ValidBusRun(n, r') && r.states <= r'.states && r'.actions == r.actions + [Receive(i)] && Last(r') == b'
  {
    assert Last(r).inboxes[i][0] == m && Last(r).inboxes[i][1..] == [];
    hide ValidBusRun, Handle;
    r' := Go(n, r, Receive(i));
  }
}
