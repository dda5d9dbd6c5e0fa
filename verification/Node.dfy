/**
 * The node as an object whose methods update its fields in place (backend/raft/node.go, election.go and
 * replication.go). Every method is proved to compute the handler of NodeSpec of the same name.
 */
module RaftNode {
  import opened RaftTypes
  import opened NodeSpec

  lemma AppendForFields(s: NodeState, peer: int, prevTerm: nat, entries: Log)
    requires peer in s.nextIndex && s.nextIndex[peer] > 0
    requires var prev := s.nextIndex[peer] - 1;
      && prevTerm == (if 0 < prev <= |s.log| then s.log[prev - 1].term else 0)
      && entries == (if prev < |s.log| then s.log[prev..] else [])
    ensures AppendFor(s, peer) ==
      Message(s.id, peer, AppendEntries(s.currentTerm, s.id, s.nextIndex[peer] - 1, prevTerm, entries, s.commitIndex))
  {}

  class Node {
    const id: int
    const peers: seq<int>
    var currentTerm: nat
    var votedFor: int
    var log: Log
    var commitIndex: nat
    var lastApplied: nat
    var nextIndex: map<int, nat>
    var matchIndex: map<int, nat>
    var role: Role
    var votesReceived: set<int>
    var alive: bool
    /** Everything handed to the `send` callback so far, in order. */
    var sent: seq<Message>

    ghost function State(): NodeState
      reads `currentTerm, `votedFor, `log, `commitIndex, `lastApplied, `nextIndex, `matchIndex, `role, `votesReceived, `alive
    {
      NodeState(id, peers, currentTerm, votedFor, log, commitIndex, lastApplied, nextIndex, matchIndex,
                role, votesReceived, alive)
    }

    /** What becomeLeader leaves behind: every peer has a positive nextIndex while the node leads. */
    ghost predicate Valid()
      reads this
    {
      role.Leader? ==> forall p | p in peers :: p in nextIndex && nextIndex[p] > 0
    }

    constructor (id: int, peers: seq<int>)
      ensures Valid() && State() == NewNode(id, peers) && sent == []
    {
      this.id, this.peers := id, peers;
      currentTerm, votedFor, log := 0, NOBODY, [];
      commitIndex, lastApplied, nextIndex, matchIndex := 0, 0, map[], map[];
      role, votesReceived, alive := Follower, {}, true;
      sent := [];
    }

    method StepDownIfStale(term: nat)
      requires Valid()
      modifies this`currentTerm, this`role, this`votedFor
      ensures Valid() && State() == MaybeStepDown(old(State()), term)
    {
      if term > currentTerm {
        currentTerm := term;
        role := Follower;
        votedFor := NOBODY;
      }
    }

    method LastLogTerm() returns (term: nat)
      ensures term == LastTerm(log)
    {
      if |log| == 0 { return 0; }
      return log[|log| - 1].term;
    }

    // ------------------------------------------------------------ elections

    method BeginElection()
      requires Valid()
      modifies this
      ensures Valid()
      ensures State() == StartElection(old(State())).node && sent == old(sent) + StartElection(old(State())).sent
    {
      role := Candidate;
      currentTerm := currentTerm + 1;
      votedFor := id;
      votesReceived := {id};
      var lastTerm := LastLogTerm();
      var args := RequestVote(currentTerm, id, |log|, lastTerm);
      for i := 0 to |peers|
        modifies this`sent
        invariant sent == old(sent) + ToPeers(State(), args)[..i]
      {
        sent := sent + [Message(id, peers[i], args)];
      }
    }

    method CandidateLogUpToDate(lastIndex: nat, lastTerm: nat) returns (ok: bool)
      ensures ok == UpToDate(lastIndex, lastTerm, log)
    {
      var myLastTerm := LastLogTerm();
      if lastTerm != myLastTerm { return lastTerm > myLastTerm; }
      return lastIndex >= |log|;
    }

    method OnRequestVote(m: Message)
      requires Valid() && m.payload.RequestVote?
      modifies this
      ensures Valid()
      ensures State() == HandleRequestVote(old(State()), m).node && sent == old(sent) + HandleRequestVote(old(State()), m).sent
    {
      var args := m.payload;
      StepDownIfStale(args.term);
      var grant := false;
      var upToDate := CandidateLogUpToDate(args.lastLogIndex, args.lastLogTerm);
      if args.term >= currentTerm && (votedFor == NOBODY || votedFor == args.candidateId) && upToDate {
        grant := true;
        votedFor := args.candidateId;
      }
      sent := sent + [Message(id, m.sender, RequestVoteReply(currentTerm, grant))];
    }

    method OnRequestVoteReply(m: Message)
      requires Valid() && m.payload.RequestVoteReply?
      modifies this
      ensures Valid()
      ensures State() == HandleRequestVoteReply(old(State()), m).node
      ensures sent == old(sent) + HandleRequestVoteReply(old(State()), m).sent
    {
      StepDownIfStale(m.payload.term);
      if role != Candidate { return; }
      if m.payload.voteGranted {
        votesReceived := votesReceived + {m.sender};
      }
      var clusterSize := |peers| + 1;
      var majority := clusterSize / 2 + 1;
      if |votesReceived| >= majority {
        TakeLeadership();
      }
    }

    method TakeLeadership()
      modifies this
      ensures Valid()
      ensures State() == BecomeLeader(old(State())).node && sent == old(sent) + BecomeLeader(old(State())).sent
    {
      role := Leader;
      nextIndex := FreshPeerMap(|log| + 1);
      matchIndex := FreshPeerMap(0);
      SendToAllPeers();
    }

    method FreshPeerMap(value: nat) returns (values: map<int, nat>)
      ensures values == map p | p in peers :: value
    {
      values := map[];
      for i := 0 to |peers|
        invariant values == map p | p in peers[..i] :: value
      {
        values := values[peers[i] := value];
      }
      assert peers[..|peers|] == peers;
    }

    // ------------------------------------------------------------ replication

    method SendAppendEntries(peer: int)
      requires peer in nextIndex && nextIndex[peer] > 0
      modifies this`sent
      ensures sent == old(sent) + [AppendFor(State(), peer)]
    {
      hide AppendFor;
      var next := nextIndex[peer];
      var prevIndex := next - 1;
      var prevTerm: nat := 0;
      if prevIndex > 0 && prevIndex <= |log| {
        prevTerm := log[prevIndex - 1].term;
      }
      var entries: Log := [];
      if next <= |log| {
        entries := log[next - 1..];
      }
      AppendForFields(State(), peer, prevTerm, entries);
      sent := sent + [Message(id, peer, AppendEntries(currentTerm, id, prevIndex, prevTerm, entries, commitIndex))];
    }

    method SendToAllPeers()
      requires forall p | p in peers :: p in nextIndex && nextIndex[p] > 0
      modifies this`sent
      ensures sent == old(sent) + AppendsToPeers(State())
    {
      for i := 0 to |peers|
        invariant sent == old(sent) + AppendsToPeers(State())[..i]
      {
        SendAppendEntries(peers[i]);
      }
    }

    method HeartbeatTick()
      requires Valid()
      modifies this`sent
      ensures sent == old(sent) + Heartbeat(old(State())).sent
    {
      if role == Leader && alive {
        SendToAllPeers();
      }
    }

    method SubmitCommand(command: string) returns (accepted: bool)
      requires Valid()
      modifies this`log, this`sent
      ensures Valid() && accepted == old(role.Leader?)
      ensures State() == Submit(old(State()), command).node && sent == old(sent) + Submit(old(State()), command).sent
    {
      if role != Leader { return false; }
      log := log + [Entry(|log| + 1, currentTerm, command)];
      SendToAllPeers();
      return true;
    }

    /** The truncate-or-append loop: it re-reads the log it is changing, and ends at the one-shot merge. */
    method AppendLoop(prev: nat, entries: Log)
      requires prev <= |log|
      modifies this`log
      ensures log == Merged(old(log), prev, entries)
    {
      ghost var k := MatchLen(log, prev, entries);
      for i := 0 to |entries|
        invariant log == if i <= k then old(log) else old(log)[..prev + k] + entries[k..i]
      {
        var pos := prev + i;
        if pos < |log| {
          if log[pos].term != entries[i].term {
            log := log[..pos] + [entries[i]];
          }
        } else {
          log := log + [entries[i]];
        }
      }
    }

    method ApplyCommitted()
      modifies this`lastApplied
      ensures lastApplied == if commitIndex > old(lastApplied) then commitIndex else old(lastApplied)
    {
      if commitIndex > lastApplied {
        lastApplied := commitIndex;
      }
    }

    method OnAppendEntries(m: Message)
      requires Valid() && m.payload.AppendEntries?
      modifies this
      ensures Valid()
      ensures State() == HandleAppendEntries(old(State()), m).node
      ensures sent == old(sent) + HandleAppendEntries(old(State()), m).sent
    {
      hide Merged;
      var args := m.payload;
      StepDownIfStale(args.term);
      var reply := AppendEntriesReply(currentTerm, false, 0);
      if args.term < currentTerm {
        sent := sent + [Message(id, m.sender, reply)];
        return;
      }
      role := Follower;
      if args.prevLogIndex > 0 {
        if args.prevLogIndex > |log| {
          sent := sent + [Message(id, m.sender, reply)];
          return;
        }
        if log[args.prevLogIndex - 1].term != args.prevLogTerm {
          sent := sent + [Message(id, m.sender, reply)];
          return;
        }
      }
      AppendLoop(args.prevLogIndex, args.entries);
      if args.leaderCommit > commitIndex {
        var newCommit := args.leaderCommit;
        if newCommit > |log| { newCommit := |log|; }
        commitIndex := newCommit;
        ApplyCommitted();
      }
      reply := AppendEntriesReply(reply.term, true, |log|);
      sent := sent + [Message(id, m.sender, reply)];
    }

    method OnAppendEntriesReply(m: Message)
      requires Valid() && m.payload.AppendEntriesReply?
      modifies this
      ensures Valid()
      ensures State() == HandleAppendEntriesReply(old(State()), m).node
      ensures sent == old(sent) + HandleAppendEntriesReply(old(State()), m).sent
    {
      hide AdvanceCommit;
      StepDownIfStale(m.payload.term);
      if role != Leader { return; }
      var peer := m.sender;
      if m.payload.success {
        var known := if peer in matchIndex then matchIndex[peer] else 0;
        if m.payload.matchIndex > known {
          known := m.payload.matchIndex;
          matchIndex := matchIndex[peer := known];
        }
        nextIndex := nextIndex[peer := known + 1];
        ScanForCommit();
      } else if peer in nextIndex && nextIndex[peer] > 1 {
        nextIndex := nextIndex[peer := nextIndex[peer] - 1];
      }
    }

    /** The backward scan with its inner counting loop. */
    method ScanForCommit()
      modifies this`commitIndex, this`lastApplied
      ensures State() == AdvanceCommit(old(State()))
    {
      var idx := |log|;
      while idx > commitIndex
        invariant 0 <= idx <= |log| && State() == old(State())
        invariant ScanDown(State(), |log|) == ScanDown(State(), idx)
      {
        if log[idx - 1].term == currentTerm {
          var count := 1;
          for i := 0 to |peers|
            invariant count == 1 + CountAtLeast(matchIndex, peers[..i], idx)
          {
            assert peers[..i + 1][..i] == peers[..i];
            if (if peers[i] in matchIndex then matchIndex[peers[i]] else 0) >= idx {
              count := count + 1;
            }
          }
          assert peers[..|peers|] == peers;
          var clusterSize := |peers| + 1;
          if count >= clusterSize / 2 + 1 {
            commitIndex := idx;
            ApplyCommitted();
            return;
          }
        }
        idx := idx - 1;
      }
    }

    // ------------------------------------------------------------ faults and dispatch

    method Crash()
      requires Valid()
      modifies this`alive
      ensures Valid() && State() == Kill(old(State())).node
    {
      alive := false;
    }

    method Recover()
      requires Valid()
      modifies this`alive, this`role
      ensures Valid() && State() == Restart(old(State())).node
    {
      alive := true;
      role := Follower;
    }

    method HandleMessage(m: Message)
      requires Valid()
      modifies this
      ensures Valid()
      ensures State() == Handle(old(State()), m).node && sent == old(sent) + Handle(old(State()), m).sent
    {
      match m.payload
      case RequestVote(_, _, _, _) => OnRequestVote(m);
      case RequestVoteReply(_, _) => OnRequestVoteReply(m);
      case AppendEntries(_, _, _, _, _, _) => OnAppendEntries(m);
      case AppendEntriesReply(_, _, _) => OnAppendEntriesReply(m);
    }
  }
}
