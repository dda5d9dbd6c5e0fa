/**
 * Two leaders in one term, on the bus of the simulator: a run step by step through inboxes and cut links. Node 0
 * is elected in term 2 with a vote it was granted in term 1, while node 1 wins term 2.
 */
module BusCounterexample {
  import opened RaftTypes
  import opened NodeSpec
  import opened RaftSystem
  import opened SimulatorBus
  import opened BusRuns
  import Counterexamples

  function Bid(v: int, u: int, term: nat): Message {
    Message(v, u, RequestVote(term, v, 0, 0))
  }

  function VoteOf(u: int, v: int, term: nat): Message {
    Message(u, v, RequestVoteReply(term, true))
  }

  function Others(i: int): seq<int> {
    if i == 0 then [1, 2] else if i == 1 then [0, 2] else [0, 1]
  }

  function Fresh(i: int): NodeState {
    NewNode(i, Others(i))
  }

  function Standing(i: int, term: nat): NodeState {
    Fresh(i).(role := Candidate, currentTerm := term, votedFor := i, votesReceived := {i})
  }

  function Voter(i: int, term: nat, v: int): NodeState {
    Fresh(i).(currentTerm := term, votedFor := v)
  }

  const SILENT: seq<seq<Message>> := [[], [], []]
  const CUT_ONE: set<Link> := CutLinks([0], [2])
  const CUT_TWO: set<Link> := CUT_ONE + CutLinks([0], [1])

  lemma Cuts()
    ensures (0, 1) !in CUT_ONE && (1, 0) !in CUT_ONE && (0, 2) in CUT_ONE
    ensures (0, 1) in CUT_TWO && (0, 2) in CUT_TWO && (1, 0) in CUT_TWO && (1, 2) !in CUT_TWO && (2, 1) !in CUT_TWO
  {}

  // ---------------------------------------------------------------- handlers

  lemma Stands(s: NodeState, i: int)
    requires s.id == i && s.peers == Others(i) && s.log == []
    ensures StartElection(s).sent == [Bid(i, Others(i)[0], s.currentTerm + 1), Bid(i, Others(i)[1], s.currentTerm + 1)]
  {}

  lemma FirstBid()
    ensures StartElection(Fresh(0)) == Outcome(Standing(0, 1), [Bid(0, 1, 1), Bid(0, 2, 1)])
  {
    Stands(Fresh(0), 0);
  }

  lemma LaterBids()
    ensures StartElection(Standing(0, 1)) == Outcome(Standing(0, 2), [Bid(0, 1, 2), Bid(0, 2, 2)])
    ensures StartElection(Voter(1, 1, 0)) == Outcome(Standing(1, 2), [Bid(1, 0, 2), Bid(1, 2, 2)])
  {
    Stands(Standing(0, 1), 0);
    Stands(Voter(1, 1, 0), 1);
  }

  lemma Votes(v: int, u: int, term: nat)
    requires term > 0
    ensures Handle(Fresh(u), Bid(v, u, term)) == Outcome(Voter(u, term, v), [VoteOf(u, v, term)])
  {}

  /** The handler does not ask which term the vote was granted in. */
  lemma AnyVoteWins(v: int, u: int, term: nat)
    requires u != v && 0 < term <= 2
    ensures var t := Handle(Standing(v, 2), VoteOf(u, v, term)).node; t.role.Leader? && t.currentTerm == 2
  {
    assert {v} + {u} == {v, u} && |{v, u}| == 2;
    hide AppendsToPeers;
  }

  // ---------------------------------------------------------------- only votes are handled

  predicate AboutVotes(m: Message) {
    m.payload.RequestVote? || m.payload.RequestVoteReply?
  }

  predicate HandlesVotes(b: Bus, x: BusAction) {
    x.Receive? ==> 0 <= x.node < |b.inboxes| && b.inboxes[x.node] != [] && AboutVotes(b.inboxes[x.node][0])
  }

  predicate VotesOnly(r: BusRun) {
    |r.states| == |r.actions| + 1 && forall k | 0 <= k < |r.actions| :: HandlesVotes(r.states[k], r.actions[k])
  }

  /** `r'` goes on from `r`, and handles nothing but bids and votes if `r` did. */
  ghost predicate Follows(r: BusRun, r': BusRun) {
    ValidBusRun(3, r) && ValidBusRun(3, r') && (VotesOnly(r) ==> VotesOnly(r'))
  }

  lemma Silently(r: BusRun, r': BusRun, tail: seq<BusAction>)
    requires |r.states| == |r.actions| + 1 && |r'.states| == |r'.actions| + 1
    requires r.states <= r'.states && r'.actions == r.actions + tail && forall x | x in tail :: !x.Receive?
    ensures VotesOnly(r) ==> VotesOnly(r')
  {
    hide HandlesVotes;
    forall k | VotesOnly(r) && 0 <= k < |r'.actions|
      ensures HandlesVotes(r'.states[k], r'.actions[k])
    {
      if k < |r.actions| {
        assert HandlesVotes(r.states[k], r.actions[k]);
      } else {
        NoneReceived(r'.states[k], tail, k - |r.actions|);
      }
    }
  }

  lemma NoneReceived(b: Bus, tail: seq<BusAction>, k: nat)
    requires k < |tail| && forall x | x in tail :: !x.Receive?
    ensures HandlesVotes(b, tail[k])
  {}

  lemma Act(r: BusRun, x: BusAction, b': Bus) returns (r': BusRun)
    requires ValidBusRun(3, r) && BusEnabled(Last(r), x) && !x.Receive? && b' == BusApply(Last(r), x)
    ensures Follows(r, r') && Last(r') == b'
  {
    r' := Go(3, r, x);
    Silently(r, r', [x]);
  }

  lemma Hand(r: BusRun, i: nat, m: Message, rest: seq<Message>, b': Bus) returns (r': BusRun)
    requires ValidBusRun(3, r) && Indexed(Last(r), i) && 0 <= m.receiver < |Last(r).inboxes|
    requires Last(r).pending[i] == [m] + rest && Last(r).passed == {} && !Severed(Last(r).cut, m)
    requires Last(r).inboxes[m.receiver] == []
    requires b' == Last(r).(pending := Last(r).pending[i := rest], inboxes := Last(r).inboxes[m.receiver := [m]])
    ensures Follows(r, r') && Last(r') == b'
  {
    r' := HandOver(3, r, i, m, rest, b');
    Silently(r, r', [Test(i), Push(i, true)]);
  }

  lemma Drop(r: BusRun, i: nat, m: Message, rest: seq<Message>, b': Bus) returns (r': BusRun)
    requires ValidBusRun(3, r) && Indexed(Last(r), i) && 0 <= m.receiver < |Last(r).inboxes|
    requires Last(r).pending[i] == [m] + rest && Last(r).passed == {} && Severed(Last(r).cut, m)
    requires b' == Last(r).(pending := Last(r).pending[i := rest])
    ensures Follows(r, r') && Last(r') == b'
  {
    r' := Lose(3, r, i, m, rest, b');
    Silently(r, r', [Test(i)]);
  }

  lemma Take(r: BusRun, i: nat, m: Message, out: Outcome, b': Bus) returns (r': BusRun)
    requires ValidBusRun(3, r) && Ready(Last(r), i) && AboutVotes(m)
    requires Last(r).inboxes[i] == [m] && out == Handle(Last(r).nodes[i], m)
    requires b' == Last(r).(nodes := Last(r).nodes[i := out.node], pending := Last(r).pending[i := out.sent],
                            inboxes := Last(r).inboxes[i := []])
    ensures Follows(r, r') && Last(r') == b'
  {
    hide Handle;
    r' := TakeIn(3, r, i, m, out, b');
    hide AboutVotes;
    forall k | VotesOnly(r) && 0 <= k < |r'.actions|
      ensures HandlesVotes(r'.states[k], r'.actions[k])
    {
      if k < |r.actions| { assert HandlesVotes(r.states[k], r.actions[k]); } else { assert r'.states[k] == Last(r); }
    }
  }

  // ---------------------------------------------------------------- the run

  lemma AtFirst() returns (r: BusRun)
    ensures ValidBusRun(3, r) && VotesOnly(r)
    ensures Last(r) == Bus([Fresh(0), Fresh(1), Fresh(2)], SILENT, {}, SILENT, CUT_ONE)
  {
    var r0 := BusRun([InitBus(3)], []);
    assert PeersOf(3, 0) == Others(0) && PeersOf(3, 1) == Others(1) && PeersOf(3, 2) == Others(2);
    assert Init(3).nodes == [Fresh(0), Fresh(1), Fresh(2)];
    assert Last(r0) == Bus([Fresh(0), Fresh(1), Fresh(2)], SILENT, {}, SILENT, {});
    assert {} + CutLinks([0], [2]) == CUT_ONE;
    hide CutLinks;
    r := Act(r0, Partition([0], [2]), Bus([Fresh(0), Fresh(1), Fresh(2)], SILENT, {}, SILENT, CUT_ONE));
  }

  /** With the link between 0 and 2 cut, node 0 stands in term 1 and asks node 1. */
  lemma FirstStand() returns (r: BusRun)
    ensures ValidBusRun(3, r) && VotesOnly(r)
    ensures Last(r) == Bus([Standing(0, 1), Fresh(1), Fresh(2)], SILENT, {}, [[], [Bid(0, 1, 1)], []], CUT_ONE)
  {
    Cuts();
    FirstBid();
    hide ValidBusRun, StartElection, CutLinks, VotesOnly, Fresh, Standing;
    var nodes := [Standing(0, 1), Fresh(1), Fresh(2)];
    var r1 := AtFirst();
    var r2 := Act(r1, Local(Timeout(0)), Bus(nodes, [[Bid(0, 1, 1), Bid(0, 2, 1)], [], []], {}, SILENT, CUT_ONE));
    var boxes := [[], [Bid(0, 1, 1)], []];
    var r3 := Hand(r2, 0, Bid(0, 1, 1), [Bid(0, 2, 1)], Bus(nodes, [[Bid(0, 2, 1)], [], []], {}, boxes, CUT_ONE));
    r := Drop(r3, 0, Bid(0, 2, 1), [], Bus(nodes, SILENT, {}, boxes, CUT_ONE));
  }

  /** Node 1 votes, and its vote waits at node 0, which is then cut off altogether. */
  lemma VoteWaits() returns (r: BusRun)
    ensures ValidBusRun(3, r) && VotesOnly(r)
    ensures Last(r) == Bus([Standing(0, 1), Voter(1, 1, 0), Fresh(2)], SILENT, {}, [[VoteOf(1, 0, 1)], [], []], CUT_TWO)
  {
    Cuts();
    Votes(0, 1, 1);
    hide ValidBusRun, Handle, CutLinks, VotesOnly, Fresh, Standing, Voter;
    var nodes := [Standing(0, 1), Voter(1, 1, 0), Fresh(2)];
    var r1 := FirstStand();
    var r2 := Take(r1, 1, Bid(0, 1, 1), Outcome(Voter(1, 1, 0), [VoteOf(1, 0, 1)]),
                   Bus(nodes, [[], [VoteOf(1, 0, 1)], []], {}, SILENT, CUT_ONE));
    var r3 := Hand(r2, 1, VoteOf(1, 0, 1), [], Bus(nodes, SILENT, {}, [[VoteOf(1, 0, 1)], [], []], CUT_ONE));
    r := Act(r3, Partition([0], [1]), Bus(nodes, SILENT, {}, [[VoteOf(1, 0, 1)], [], []], CUT_TWO));
  }

  /** Node 0 stands again, in term 2, and its bids are lost. */
  lemma SecondStand() returns (r: BusRun)
    ensures ValidBusRun(3, r) && VotesOnly(r)
    ensures Last(r) == Bus([Standing(0, 2), Voter(1, 1, 0), Fresh(2)], SILENT, {}, [[VoteOf(1, 0, 1)], [], []], CUT_TWO)
  {
    Cuts();
    LaterBids();
    hide ValidBusRun, StartElection, CutLinks, VotesOnly, Fresh, Standing, Voter;
    var nodes, boxes := [Standing(0, 2), Voter(1, 1, 0), Fresh(2)], [[VoteOf(1, 0, 1)], [], []];
    var r1 := VoteWaits();
    var r2 := Act(r1, Local(Timeout(0)), Bus(nodes, [[Bid(0, 1, 2), Bid(0, 2, 2)], [], []], {}, boxes, CUT_TWO));
    var r3 := Drop(r2, 0, Bid(0, 1, 2), [Bid(0, 2, 2)], Bus(nodes, [[Bid(0, 2, 2)], [], []], {}, boxes, CUT_TWO));
    r := Drop(r3, 0, Bid(0, 2, 2), [], Bus(nodes, SILENT, {}, boxes, CUT_TWO));
  }

  /** Node 1 stands in term 2 as well and asks node 2. */
  lemma RivalStands() returns (r: BusRun)
    ensures ValidBusRun(3, r) && VotesOnly(r)
    ensures Last(r) ==
      Bus([Standing(0, 2), Standing(1, 2), Fresh(2)], SILENT, {}, [[VoteOf(1, 0, 1)], [], [Bid(1, 2, 2)]], CUT_TWO)
  {
    Cuts();
    LaterBids();
    hide ValidBusRun, StartElection, CutLinks, VotesOnly, Fresh, Standing, Voter;
    var nodes, boxes := [Standing(0, 2), Standing(1, 2), Fresh(2)], [[VoteOf(1, 0, 1)], [], []];
    var r1 := SecondStand();
    var r2 := Act(r1, Local(Timeout(1)), Bus(nodes, [[], [Bid(1, 0, 2), Bid(1, 2, 2)], []], {}, boxes, CUT_TWO));
    var r3 := Drop(r2, 1, Bid(1, 0, 2), [Bid(1, 2, 2)], Bus(nodes, [[], [Bid(1, 2, 2)], []], {}, boxes, CUT_TWO));
    r := Hand(r3, 1, Bid(1, 2, 2), [], Bus(nodes, SILENT, {}, [[VoteOf(1, 0, 1)], [], [Bid(1, 2, 2)]], CUT_TWO));
  }

  /** Node 2 votes for node 1. */
  lemma RivalGranted() returns (r: BusRun)
    ensures ValidBusRun(3, r) && VotesOnly(r)
    ensures Last(r) ==
      Bus([Standing(0, 2), Standing(1, 2), Voter(2, 2, 1)], SILENT, {}, [[VoteOf(1, 0, 1)], [VoteOf(2, 1, 2)], []], CUT_TWO)
  {
    Cuts();
    Votes(1, 2, 2);
    hide ValidBusRun, Handle, CutLinks, VotesOnly, Fresh, Standing, Voter;
    var nodes := [Standing(0, 2), Standing(1, 2), Voter(2, 2, 1)];
    var r1 := RivalStands();
    var r2 := Take(r1, 2, Bid(1, 2, 2), Outcome(Voter(2, 2, 1), [VoteOf(2, 1, 2)]),
                   Bus(nodes, [[], [], [VoteOf(2, 1, 2)]], {}, [[VoteOf(1, 0, 1)], [], []], CUT_TWO));
    r := Hand(r2, 2, VoteOf(2, 1, 2), [], Bus(nodes, SILENT, {}, [[VoteOf(1, 0, 1)], [VoteOf(2, 1, 2)], []], CUT_TWO));
  }

  lemma BothCount() returns (r: BusRun)
    ensures ValidBusRun(3, r) && VotesOnly(r)
    ensures |Last(r).nodes| == 3
    ensures forall v | 0 <= v < 2 :: Last(r).nodes[v].role.Leader? && Last(r).nodes[v].currentTerm == 2
  {
    AnyVoteWins(1, 2, 2);
    AnyVoteWins(0, 1, 1);
    hide ValidBusRun, Handle, VotesOnly, Standing, Voter;
    var r1 := RivalGranted();
    var b := Last(r1);
    var one, zero := Handle(Standing(1, 2), VoteOf(2, 1, 2)), Handle(Standing(0, 2), VoteOf(1, 0, 1));
    var b2 := b.(nodes := b.nodes[1 := one.node], pending := b.pending[1 := one.sent], inboxes := b.inboxes[1 := []]);
    var r2 := Take(r1, 1, VoteOf(2, 1, 2), one, b2);
    r := Take(r2, 0, VoteOf(1, 0, 1), zero,
              b2.(nodes := b2.nodes[0 := zero.node], pending := b2.pending[0 := zero.sent], inboxes := b2.inboxes[0 := []]));
  }

  /** Handling bids and votes alone never breaks the hypotheses on acknowledgements. */
  lemma NothingAcknowledged(r: BusRun)
    requires ValidBusRun(3, r) && VotesOnly(r)
    ensures Counterexamples.Always(Abstracted(r), Counterexamples.AcksFresh)
    ensures Counterexamples.Always(Abstracted(r), Counterexamples.AcksExact)
  {
    BusRefines(3, r);
    var q := Abstracted(r);
    forall k | 0 <= k < |q.actions|
      ensures Counterexamples.AcksFresh(q.states[k], q.actions[k]) && Counterexamples.AcksExact(q.states[k], q.actions[k])
    {
      assert Step(q, k) && BusStep(r, k) && HandlesVotes(r.states[k], r.actions[k]);
      hide ValidRun, ValidBusRun, Apply, BusApply, HandleAppendEntries, EverSent;
    }
  }

  /**
   * Without FreshVotes two nodes of the simulator can lead one term: node 0 counts in term 2 a vote it was
   * granted in term 1, while node 1 wins term 2. The other two hypotheses hold throughout.
   */
  lemma TwoLeadersInOneTerm() returns (r: BusRun)
    ensures ValidBusRun(3, r) && |Last(r).nodes| == 3
    ensures ValidRun(3, Abstracted(r))
    ensures Counterexamples.Always(Abstracted(r), Counterexamples.AcksFresh)
    ensures Counterexamples.Always(Abstracted(r), Counterexamples.AcksExact)
    ensures forall v | 0 <= v < 2 :: Last(r).nodes[v].role.Leader? && Last(r).nodes[v].currentTerm == 2
  {
    r := BothCount();
    BusRefines(3, r);
    NothingAcknowledged(r);
  }
}
