/**
 * The simulator as an object (backend/simulator/cluster.go): the cut links, the inboxes, the window of recent
 * messages and the routing of client commands. Its methods compute the functions SimulatorBus and
 * InFlightWindow reason about.
 */
module RaftSimulator {
  import opened RaftTypes
  import opened NodeSpec
  import opened RaftSystem
  import opened RaftNode
  import opened InFlightWindow
  import opened SimulatorBus

  function KindName(p: Payload): string {
    match p
    case RequestVote(_, _, _, _) => "RequestVote"
    case RequestVoteReply(_, _) => "RequestVoteReply"
    case AppendEntries(_, _, _, _, _, _) => "AppendEntries"
    case AppendEntriesReply(_, _, _) => "AppendEntriesReply"
  }

  function Arrow(m: Message, sentAt: int): Shown {
    Shown(m.sender, m.receiver, KindName(m.payload), m.payload.term, sentAt)
  }

  /** `e` records that `m` was sent at that time, by whom, to whom, what kind of message and of which term. */
  predicate Records(e: Shown, m: Message, sentAt: int) {
    && e.sender == m.sender && e.receiver == m.receiver && e.term == m.payload.term && e.sentAt == sentAt
    && (e.kind == "RequestVote" <==> m.payload.RequestVote?)
    && (e.kind == "RequestVoteReply" <==> m.payload.RequestVoteReply?)
    && (e.kind == "AppendEntries" <==> m.payload.AppendEntries?)
    && (e.kind == "AppendEntriesReply" <==> m.payload.AppendEntriesReply?)
  }

  /** The last record of the window is that of `m`. */
  predicate RecordedLast(window: seq<Shown>, m: Message, sentAt: int) {
    window != [] && Records(window[|window| - 1], m, sentAt)
  }

  lemma ArrowRecords(m: Message, sentAt: int)
    ensures Records(Arrow(m, sentAt), m, sentAt)
  {
    assert |"RequestVote"| == 11 && |"RequestVoteReply"| == 16 && |"AppendEntries"| == 13 && |"AppendEntriesReply"| == 18;
  }

  lemma PrunedEndsWith(s: seq<Shown>, e: Shown, now: int)
    requires now - e.sentAt < TTL
    ensures Pruned(s + [e], now) != [] && Pruned(s + [e], now)[|Pruned(s + [e], now)| - 1] == e
  {
    LiveSnoc(s + [e], |s|, now);
    assert (s + [e])[..|s| + 1] == s + [e];
    hide Live;
  }

  class Simulator {
    const nodes: seq<Node>
    var inboxes: seq<seq<Message>>
    /** The links marked true; a missing link reads as false. */
    var partitioned: map<Link, bool>
    const window: Window

    ghost predicate Valid()
      reads this, nodes, window
    {
      && |inboxes| == |nodes| && window.Valid()
      && (forall i, j | 0 <= i < j < |nodes| :: nodes[i] != nodes[j])
      && (forall v | v in nodes :: v.Valid())
      && (forall l | l in partitioned :: partitioned[l])
    }

    ghost function Cut(): set<Link>
      reads this
    {
      partitioned.Keys
    }

    constructor (n: nat)
      ensures Valid() && |nodes| == n && fresh(nodes) && fresh(window) && fresh(window.buf)
      ensures forall i | 0 <= i < n :: nodes[i].State() == Init(n).nodes[i] && nodes[i].sent == []
      ensures Cut() == {} && inboxes == InitBus(n).inboxes && window.Contents() == []
    {
      var all: seq<Node> := [];
      for i := 0 to n
        invariant |all| == i && fresh(all)
        invariant forall v | v in all :: v.Valid()
        invariant forall j, k | 0 <= j < k < i :: all[j] != all[k]
        invariant forall j | 0 <= j < i :: all[j].State() == NewNode(j, PeersOf(n, j)) && all[j].sent == []
      {
        var node := new Node(i, PeersOf(n, i));
        all := all + [node];
      }
      nodes := all;
      inboxes := seq(n, _ => []);
      partitioned := map[];
      window := new Window();
    }

    // ------------------------------------------------------------ links

    method Partition(groupA: seq<int>, groupB: seq<int>)
      requires Valid()
      modifies this`partitioned
      ensures Valid() && Cut() == old(Cut()) + CutLinks(groupA, groupB)
    {
      for i := 0 to |groupA|
        invariant forall l | l in partitioned :: partitioned[l]
        invariant Cut() == old(Cut()) + CutLinks(groupA[..i], groupB)
      {
        var a := groupA[i];
        for j := 0 to |groupB|
          invariant forall l | l in partitioned :: partitioned[l]
          invariant Cut() == old(Cut()) + CutLinks(groupA[..i], groupB) + CutLinks([a], groupB[..j])
        {
          partitioned := partitioned[(a, groupB[j]) := true];
          partitioned := partitioned[(groupB[j], a) := true];
          CutOneMore(a, groupB, j);
        }
        assert groupB[..|groupB|] == groupB;
        CutOneGroup(groupA, i, groupB);
      }
      assert groupA[..|groupA|] == groupA;
    }

    method Heal()
      requires Valid()
      modifies this`partitioned
      ensures Valid() && Cut() == {}
    {
      partitioned := map[];
    }

    // ------------------------------------------------------------ messages

    /** The part of route under the bus lock: the link is tested and the message recorded in the window either way. */
    method TestLink(m: Message, sentAt: int, now: int) returns (dropped: bool)
      requires Valid()
      modifies window, window.buf
      ensures Valid() && dropped == Severed(Cut(), m)
      ensures window.Contents() == Pruned(old(window.Contents()) + [Arrow(m, sentAt)], now)
      ensures now - sentAt < TTL ==> RecordedLast(window.Contents(), m, sentAt)
    {
      var link := (m.sender, m.receiver);
      dropped := link in partitioned && partitioned[link];
      ghost var before := window.Contents();
      window.Note(Arrow(m, sentAt), now);
      ArrowRecords(m, sentAt);
      if now - sentAt < TTL { PrunedEndsWith(before, Arrow(m, sentAt), now); }
    }

    /** The part after it: the message is queued unless the channel is full. */
    method Offer(m: Message)
      requires Valid() && 0 <= m.receiver < |inboxes|
      modifies this`inboxes
      ensures Valid()
      ensures inboxes == if |old(inboxes)[m.receiver]| < INBOX_CAPACITY then Enqueued(old(inboxes), m) else old(inboxes)
    {
      if |inboxes[m.receiver]| < INBOX_CAPACITY {
        inboxes := inboxes[m.receiver := inboxes[m.receiver] + [m]];
      }
    }

    /** Both parts with nothing in between; SimulatorBus has them as two steps, Test and Push. */
    method Route(m: Message, sentAt: int, now: int)
      requires Valid() && 0 <= m.receiver < |inboxes|
      modifies this`inboxes, window, window.buf
      ensures Valid() && Cut() == old(Cut())
      ensures inboxes ==
        if Severed(Cut(), m) || |old(inboxes)[m.receiver]| >= INBOX_CAPACITY then old(inboxes) else Enqueued(old(inboxes), m)
      ensures window.Contents() == Pruned(old(window.Contents()) + [Arrow(m, sentAt)], now)
      ensures now - sentAt < TTL ==> RecordedLast(window.Contents(), m, sentAt)
    {
      var dropped := TestLink(m, sentAt, now);
      if dropped { return; }
      Offer(m);
    }

    // ------------------------------------------------------------ clients

    /**
     * The command goes to the first node whose role is leader, alive or not, and to no other; it is refused
     * exactly when there is none.
     */
    method SubmitCommand(command: string) returns (accepted: bool, taker: nat)
      requires Valid()
      modifies nodes
      ensures Valid() && taker <= |nodes| && accepted == (taker < |nodes|)
      ensures forall i | 0 <= i < taker :: !old(nodes[i].role.Leader?)
      ensures forall i | 0 <= i < |nodes| && i != taker ::
        nodes[i].State() == old(nodes[i].State()) && nodes[i].sent == old(nodes[i].sent)
      ensures accepted ==>
        && old(nodes[taker].role.Leader?)
        && nodes[taker].State() == Submit(old(nodes[taker].State()), command).node
        && nodes[taker].sent == old(nodes[taker].sent) + Submit(old(nodes[taker].State()), command).sent
    {
      for i := 0 to |nodes|
        modifies nodes
        invariant Valid()
        invariant forall j | 0 <= j < |nodes| :: nodes[j].State() == old(nodes[j].State()) && nodes[j].sent == old(nodes[j].sent)
        invariant forall j | 0 <= j < i :: !old(nodes[j].role.Leader?)
      {
        hide Submit;
        accepted := nodes[i].SubmitCommand(command);
        if accepted { return true, i; }
      }
      return false, |nodes|;
    }
  }

  lemma CutOneMore(a: int, groupB: seq<int>, j: nat)
    requires j < |groupB|
    ensures CutLinks([a], groupB[..j + 1]) == CutLinks([a], groupB[..j]) + {(a, groupB[j]), (groupB[j], a)}
  {
    var more, less := CutLinks([a], groupB[..j + 1]), CutLinks([a], groupB[..j]) + {(a, groupB[j]), (groupB[j], a)};
    assert groupB[..j + 1] == groupB[..j] + [groupB[j]];
    forall l: Link ensures l in more <==> l in less {
      CutLink([a], groupB[..j + 1], l.0, l.1);
      CutLink([a], groupB[..j], l.0, l.1);
    }
  }

  lemma CutLink(groupA: seq<int>, groupB: seq<int>, x: int, y: int)
    ensures (x, y) in CutLinks(groupA, groupB) <==> (x in groupA && y in groupB) || (x in groupB && y in groupA)
  {}

  lemma CutOneGroup(groupA: seq<int>, i: nat, groupB: seq<int>)
    requires i < |groupA|
    ensures CutLinks(groupA[..i + 1], groupB) == CutLinks(groupA[..i], groupB) + CutLinks([groupA[i]], groupB)
  {}
}
