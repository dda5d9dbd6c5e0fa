/**
 * The handlers of one node as functions from its state to its next state and the messages it sends.
 * Every handler holds the node's lock, so each is one atomic step.
 */
module NodeSpec {
  import opened RaftTypes

  // ---------------------------------------------------------------- small reads

  function LastTerm(log: Log): nat {
    if log == [] then 0 else log[|log| - 1].term
  }

  /** A Go map read: a missing peer counts as 0. */
  function Lookup(m: map<int, nat>, peer: int): nat {
    if peer in m then m[peer] else 0
  }

  function MatchOf(s: NodeState, peer: int): nat {
    Lookup(s.matchIndex, peer)
  }

  /** A leader holds a positive nextIndex for every peer (Basics.NodeWf), so it never takes the second branch. */
  function NextOf(s: NodeState, peer: int): Position {
    if peer in s.nextIndex && s.nextIndex[peer] > 0 then s.nextIndex[peer] else 1
  }

  function ClusterSize(s: NodeState): nat {
    |s.peers| + 1
  }

  function Majority(size: nat): nat {
    size / 2 + 1
  }

  /** Section 5.4.1 of the Raft paper: later last term wins, then the longer log. */
  predicate UpToDate(lastIndex: nat, lastTerm: nat, log: Log) {
    if lastTerm != LastTerm(log) then lastTerm > LastTerm(log) else lastIndex >= |log|
  }

  // ---------------------------------------------------------------- terms and elections

  function MaybeStepDown(s: NodeState, term: nat): NodeState {
    if term > s.currentTerm
    then s.(currentTerm := term, role := Follower, votedFor := NOBODY)
    else s
  }

  function ToPeers(s: NodeState, payload: Payload): seq<Message> {
    seq(|s.peers|, i requires 0 <= i < |s.peers| => Message(s.id, s.peers[i], payload))
  }

  function StartElection(s: NodeState): Outcome {
    var c := s.(role := Candidate, currentTerm := s.currentTerm + 1, votedFor := s.id, votesReceived := {s.id});
    Outcome(c, ToPeers(c, RequestVote(c.currentTerm, c.id, |c.log|, LastTerm(c.log))))
  }

  predicate Grants(s: NodeState, ask: Payload)
    requires ask.RequestVote?
  {
    && ask.term >= s.currentTerm
    && (s.votedFor == NOBODY || s.votedFor == ask.candidateId)
    && UpToDate(ask.lastLogIndex, ask.lastLogTerm, s.log)
  }

  function HandleRequestVote(s: NodeState, m: Message): Outcome
    requires m.payload.RequestVote?
  {
    var s1 := MaybeStepDown(s, m.payload.term);
    var granted := Grants(s1, m.payload);
    var s2 := if granted then s1.(votedFor := m.payload.candidateId) else s1;
    Outcome(s2, [Message(s.id, m.sender, RequestVoteReply(s2.currentTerm, granted))])
  }

  function HandleRequestVoteReply(s: NodeState, m: Message): Outcome
    requires m.payload.RequestVoteReply?
  {
    var s1 := MaybeStepDown(s, m.payload.term);
    if !s1.role.Candidate? then Outcome(s1, [])
    else
      var s2 := if m.payload.voteGranted then s1.(votesReceived := s1.votesReceived + {m.sender}) else s1;
      if |s2.votesReceived| >= Majority(ClusterSize(s2)) then BecomeLeader(s2) else Outcome(s2, [])
  }

  function BecomeLeader(s: NodeState): Outcome {
    var l := s.(role := Leader,
    nextIndex := map p | p in s.peers :: |s.log| + 1,
    matchIndex := map p | p in s.peers :: 0);
    Outcome(l, AppendsToPeers(l))
  }

  // ---------------------------------------------------------------- replication

  /** The AppendEntries a leader sends to one peer: everything from nextIndex on, or an empty heartbeat. */
  function AppendFor(s: NodeState, peer: int): Message {
    var next := NextOf(s, peer);
    var prevTerm := if 0 < next - 1 <= |s.log| then s.log[next - 2].term else 0;
    var entries := if next <= |s.log| then s.log[next - 1..] else [];
    Message(s.id, peer, AppendEntries(s.currentTerm, s.id, next - 1, prevTerm, entries, s.commitIndex))
  }

  function AppendsToPeers(s: NodeState): seq<Message> {
    seq(|s.peers|, i requires 0 <= i < |s.peers| => AppendFor(s, s.peers[i]))
  }

  /** One tick of the heartbeat loop. */
  function Heartbeat(s: NodeState): Outcome {
    Outcome(s, if s.role.Leader? && s.alive then AppendsToPeers(s) else [])
  }

  function Submit(s: NodeState, command: string): Outcome {
    if !s.role.Leader? then Outcome(s, [])
    else
      var l := s.(log := s.log + [Entry(|s.log| + 1, s.currentTerm, command)]);
      Outcome(l, AppendsToPeers(l))
  }

  /** How many of the carried entries the log already holds, term by term, from 0-based position `at` on. */
  function MatchLen(log: Log, at: nat, entries: Log): (k: nat)
    requires at <= |log|
    ensures k <= |entries| && at + k <= |log|
    ensures forall j {:trigger entries[j]} | 0 <= j < k :: log[at + j].term == entries[j].term
    ensures k < |entries| ==> at + k == |log| || log[at + k].term != entries[k].term
    decreases |entries|
  {
    if entries == [] || at == |log| || log[at].term != entries[0].term then 0
    else
      var rest := entries[1..];
      var k := MatchLen(log, at + 1, rest);
      assert forall j {:trigger entries[j]} | 0 < j <= k :: entries[j] == rest[j - 1] && log[at + 1 + (j - 1)].term == rest[j - 1].term;
      k + 1
  }

  /** Keep the log if it holds every carried entry; otherwise cut it at the first conflict and append the rest. */
  function Merged(log: Log, at: nat, entries: Log): Log
    requires at <= |log|
  {
    var k := MatchLen(log, at, entries);
    if k == |entries| then log else log[..at + k] + entries[k..]
  }

  /** The consistency check on PrevLogIndex and PrevLogTerm. */
  predicate Fits(log: Log, prevLogIndex: nat, prevLogTerm: nat) {
    prevLogIndex == 0 || (prevLogIndex <= |log| && log[prevLogIndex - 1].term == prevLogTerm)
  }

  predicate Accepts(s: NodeState, a: Payload)
    requires a.AppendEntries?
  {
    a.term >= s.currentTerm && Fits(s.log, a.prevLogIndex, a.prevLogTerm)
  }

  function Commit(s: NodeState, index: nat): NodeState {
    s.(commitIndex := index, lastApplied := if index > s.lastApplied then index else s.lastApplied)
  }

  function FollowerCommit(s: NodeState, leaderCommit: nat): NodeState {
    if leaderCommit > s.commitIndex
    then Commit(s, if leaderCommit > |s.log| then |s.log| else leaderCommit)
    else s
  }

  function HandleAppendEntries(s: NodeState, m: Message): Outcome
    requires m.payload.AppendEntries?
  {
    var a := m.payload;
    var s1 := MaybeStepDown(s, a.term);
    if a.term < s1.currentTerm then
      Outcome(s1, [Message(s.id, m.sender, AppendEntriesReply(s1.currentTerm, false, 0))])
    else if !Fits(s1.log, a.prevLogIndex, a.prevLogTerm) then
      Outcome(s1.(role := Follower), [Message(s.id, m.sender, AppendEntriesReply(s1.currentTerm, false, 0))])
    else
      var s2 := s1.(role := Follower, log := Merged(s1.log, a.prevLogIndex, a.entries));
      Outcome(FollowerCommit(s2, a.leaderCommit),
      [Message(s.id, m.sender, AppendEntriesReply(s1.currentTerm, true, |s2.log|))])
  }

  function HandleAppendEntriesReply(s: NodeState, m: Message): Outcome
    requires m.payload.AppendEntriesReply?
  {
    var s1 := MaybeStepDown(s, m.payload.term);
    var peer := m.sender;
    if !s1.role.Leader? then Outcome(s1, [])
    else if m.payload.success then
      var known := if m.payload.matchIndex > MatchOf(s1, peer) then m.payload.matchIndex else MatchOf(s1, peer);
      var matched := if m.payload.matchIndex > MatchOf(s1, peer) then s1.matchIndex[peer := known] else s1.matchIndex;
      Outcome(AdvanceCommit(s1.(matchIndex := matched, nextIndex := s1.nextIndex[peer := known + 1])), [])
    else
      Outcome(if NextOf(s1, peer) > 1 then s1.(nextIndex := s1.nextIndex[peer := NextOf(s1, peer) - 1]) else s1, [])
  }

  // ---------------------------------------------------------------- the commit scan

  /** How many of the listed peers are known to hold `index` entries. */
  function CountAtLeast(matched: map<int, nat>, peers: seq<int>, index: nat): (count: nat)
    ensures count <= |peers|
  {
    if peers == [] then 0
    else
      var last := |peers| - 1;
      CountAtLeast(matched, peers[..last], index) + (if Lookup(matched, peers[last]) >= index then 1 else 0)
  }

  /** The entry at `index` is of the current term and the leader counts a majority of holders, itself included. */
  predicate Committable(s: NodeState, index: nat)
    requires 1 <= index <= |s.log|
  {
    && s.log[index - 1].term == s.currentTerm
    && 1 + CountAtLeast(s.matchIndex, s.peers, index) >= Majority(ClusterSize(s))
  }

  /** The highest committable index above commitIndex and at most `top`, or commitIndex when there is none. */
  function ScanDown(s: NodeState, top: nat): (index: nat)
    requires top <= |s.log|
    ensures index == s.commitIndex || (s.commitIndex < index <= top && Committable(s, index))
    ensures forall i | s.commitIndex < i <= top && index < i :: !Committable(s, i)
  {
    if top <= s.commitIndex then s.commitIndex
    else if Committable(s, top) then top
    else ScanDown(s, top - 1)
  }

  function AdvanceCommit(s: NodeState): NodeState {
    var index := ScanDown(s, |s.log|);
    if index > s.commitIndex then Commit(s, index) else s
  }

  // ---------------------------------------------------------------- faults and dispatch

  function Kill(s: NodeState): Outcome {
    Outcome(s.(alive := false), [])
  }

  function Restart(s: NodeState): Outcome {
    Outcome(s.(alive := true, role := Follower), [])
  }

  function Handle(s: NodeState, m: Message): Outcome {
    match m.payload
    case RequestVote(_, _, _, _) => HandleRequestVote(s, m)
    case RequestVoteReply(_, _) => HandleRequestVoteReply(s, m)
    case AppendEntries(_, _, _, _, _, _) => HandleAppendEntries(s, m)
    case AppendEntriesReply(_, _, _) => HandleAppendEntriesReply(s, m)
  }

  function NewNode(id: int, peers: seq<int>): NodeState {
    NodeState(id, peers, 0, NOBODY, [], 0, 0, map[], map[], Follower, {}, true)
  }
}
