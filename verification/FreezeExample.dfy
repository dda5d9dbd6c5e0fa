/**
 * Why the freeze of a minority needs it to be quiet: a candidate that had counted a vote from the other side
 * before the cut can still win behind it on a bid that was queued there.
 */
module FreezeExample {
  import opened RaftTypes
  import opened NodeSpec
  import opened RaftSystem
  import opened SimulatorBus
  import opened BusRuns
  import opened MinorityFreeze
  import opened QueuedVotes

  function Ask(u: int): Message {
    Message(0, u, RequestVote(1, 0, 0, 0))
  }

  function Yes(u: int): Message {
    Message(u, 0, RequestVoteReply(1, true))
  }

  /** The candidate of term 1 with the given votes. */
  function Candidate0(votes: set<int>): NodeState {
    NewNode(0, [1, 2, 3, 4]).(role := Candidate, currentTerm := 1, votedFor := 0, votesReceived := votes)
  }

  function Voter(u: nat): NodeState
    requires u < 5
  {
    NewNode(u, PeersOf(5, u)).(currentTerm := 1, votedFor := 0)
  }

  function Fresh(): seq<NodeState> {
    Init(5).nodes
  }

  const SILENT: seq<seq<Message>> := [[], [], [], [], []]

  lemma FirstBid()
    ensures StartElection(Fresh()[0]) == Outcome(Candidate0({0}), [Ask(1), Ask(2), Ask(3), Ask(4)])
  {
    assert PeersOf(5, 0) == [1, 2, 3, 4];
  }

  /** Node 0 stands. */
  lemma Stood() returns (r: BusRun)
    ensures ValidBusRun(5, r)
    ensures Last(r) == Bus(Fresh()[0 := Candidate0({0})], [[Ask(1), Ask(2), Ask(3), Ask(4)], [], [], [], []], {}, SILENT, {})
  {
    var r0 := BusRun([InitBus(5)], []);
    assert Last(r0) == Bus(Fresh(), SILENT, {}, SILENT, {});
    FirstBid();
    hide ValidBusRun, StartElection;
    r := Go(5, r0, Local(Timeout(0)));
    assert SILENT[0 := [Ask(1), Ask(2), Ask(3), Ask(4)]] == [[Ask(1), Ask(2), Ask(3), Ask(4)], [], [], [], []];
  }

  /** Its four requests arrive. */
  lemma Asked() returns (r: BusRun)
    ensures ValidBusRun(5, r)
    ensures Last(r) == Bus(Fresh()[0 := Candidate0({0})], SILENT, {}, [[], [Ask(1)], [Ask(2)], [Ask(3)], [Ask(4)]], {})
  {
    var nodes := Fresh()[0 := Candidate0({0})];
    var r0 := Stood();
    hide ValidBusRun, Fresh, Candidate0;
    var r1 := HandOver(5, r0, 0, Ask(1), [Ask(2), Ask(3), Ask(4)],
                       Bus(nodes, [[Ask(2), Ask(3), Ask(4)], [], [], [], []], {}, [[], [Ask(1)], [], [], []], {}));
    var r2 := HandOver(5, r1, 0, Ask(2), [Ask(3), Ask(4)],
                       Bus(nodes, [[Ask(3), Ask(4)], [], [], [], []], {}, [[], [Ask(1)], [Ask(2)], [], []], {}));
    var r3 := HandOver(5, r2, 0, Ask(3), [Ask(4)],
                       Bus(nodes, [[Ask(4)], [], [], [], []], {}, [[], [Ask(1)], [Ask(2)], [Ask(3)], []], {}));
    r := HandOver(5, r3, 0, Ask(4), [], Bus(nodes, SILENT, {}, [[], [Ask(1)], [Ask(2)], [Ask(3)], [Ask(4)]], {}));
  }

  lemma Answers(u: nat)
    requires 0 < u < 5
    ensures Handle(Fresh()[u], Ask(u)) == Outcome(Voter(u), [Yes(u)])
  {}

  lemma Counts()
    ensures Handle(Candidate0({0}), Yes(2)) == Outcome(Candidate0({0, 2}), [])
  {
    assert {0} + {2} == {0, 2} && |{0, 2}| == 2;
    hide AppendsToPeers;
  }

  const AT_CUT: seq<NodeState> := Fresh()[0 := Candidate0({0, 2})][2 := Voter(2)]

  /** Node 2 votes, and node 0 counts it, before any link is cut. */
  lemma CountedBefore() returns (r: BusRun)
    ensures ValidBusRun(5, r)
    ensures Last(r) == Bus(AT_CUT, SILENT, {}, [[], [Ask(1)], [], [Ask(3)], [Ask(4)]], {})
  {
    var r0 := Asked();
    Answers(2);
    Counts();
    var nodes := Fresh()[0 := Candidate0({0})][2 := Voter(2)];
    assert nodes[0] == Candidate0({0}) && nodes[0 := Candidate0({0, 2})] == AT_CUT;
    hide ValidBusRun, Fresh, Candidate0, Voter, Handle;
    var boxes := [[], [Ask(1)], [], [Ask(3)], [Ask(4)]];
    var r1 := TakeIn(5, r0, 2, Ask(2), Outcome(Voter(2), [Yes(2)]), Bus(nodes, [[], [], [Yes(2)], [], []], {}, boxes, {}));
    var r2 := HandOver(5, r1, 2, Yes(2), [], Bus(nodes, SILENT, {}, [[Yes(2)], [Ask(1)], [], [Ask(3)], [Ask(4)]], {}));
    r := TakeIn(5, r2, 0, Yes(2), Outcome(Candidate0({0, 2}), []), Bus(AT_CUT, SILENT, {}, boxes, {}));
  }

  /** The links between {0, 1} and the other three are cut. */
  lemma CutThen() returns (r: BusRun)
    ensures ValidBusRun(5, r) && CutOff(5, {0, 1}, Last(r)) && Drained(5, {0, 1}, Last(r)) && (1, 0) !in Last(r).cut
    ensures Last(r).nodes == AT_CUT && Last(r).pending == SILENT && Last(r).passed == {}
    ensures Last(r).inboxes == [[], [Ask(1)], [], [Ask(3)], [Ask(4)]]
  {
    var r0 := CountedBefore();
    PartitionCutsOff(5, Last(r0), [0, 1], [2, 3, 4]);
    assert (set v | v in [0, 1]) == {0, 1};
    hide ValidBusRun, CutOff;
    r := Go(5, r0, Partition([0, 1], [2, 3, 4]));
  }

  /**
   * Two of five nodes are cut off with nothing from outside under way to them, and still one of them is elected
   * before Heal: it had counted the vote of node 2 before the cut, and its bid was waiting at node 1.
   */
  lemma ElectedBehindCut() returns (r: BusRun, j: nat, k: nat)
    ensures ValidBusRun(5, r) && j <= k < |r.actions| && NoHeal(r, j, k)
    ensures CutOff(5, {0, 1}, r.states[j]) && Drained(5, {0, 1}, r.states[j]) && |{0, 1}| < Majority(5)
    ensures TakesOver(r, k, 0)
  {
    var r0 := CutThen();
    j := |r0.actions|;
    Asker(Last(r0));
    hide ValidBusRun, CutOff, Drained, Willing, TakesOver, Fresh, Candidate0, Voter;
    r, k := BidsElect(5, r0, 0, {1});
    NoneMended(5, r0, r, {1} + {0});
    assert r.states[j] == Last(r0) && |{0, 1}| == 2;
  }

  lemma Asker(b: Bus)
    requires b.nodes == AT_CUT && b.pending == SILENT && (1, 0) !in b.cut
    requires b.inboxes == [[], [Ask(1)], [], [Ask(3)], [Ask(4)]]
    ensures Indexed(b, 0) && Willing(b, 0, 1) && b.nodes[0].role.Candidate? && b.nodes[0].alive
    ensures |b.nodes[0].votesReceived + Voters(b.inboxes[0]) + {1}| == Majority(5)
  {
    assert {0, 2} + Voters([]) + {1} == {0, 1, 2} && |{0, 1, 2}| == 3;
  }
}
