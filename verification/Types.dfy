/** The values that nodes store and exchange (backend/raft/types.go). */
module RaftTypes {

  datatype Role = Follower | Candidate | Leader

  /** One command in the replicated log; `index` is the 1-based position. */
  datatype Entry = Entry(index: nat, term: nat, command: string)

  type Log = seq<Entry>

  /** A 1-based log position. */
  type Position = i: int | 1 <= i witness 1

  datatype Payload =
    | RequestVote(term: nat, candidateId: int, lastLogIndex: nat, lastLogTerm: nat)
    | RequestVoteReply(term: nat, voteGranted: bool)
    | AppendEntries(term: nat, leaderId: int, prevLogIndex: nat, prevLogTerm: nat,
                    entries: Log, leaderCommit: nat)
    | AppendEntriesReply(term: nat, success: bool, matchIndex: nat)

  datatype Message = Message(sender: int, receiver: int, payload: Payload)

  const NOBODY: int := -1

  /**
   * The fields of one node. `votedFor` is NOBODY when no vote was cast in the current term.
   * `votesReceived` holds the keys of the source's map, whose values are always true.
   */
  datatype NodeState = NodeState(
    id: int,
    peers: seq<int>,
    currentTerm: nat,
    votedFor: int,
    log: Log,
    commitIndex: nat,
    lastApplied: nat,
    nextIndex: map<int, nat>,
    matchIndex: map<int, nat>,
    role: Role,
    votesReceived: set<int>,
    alive: bool)

  /** What one atomic handler does: the node afterwards and the messages it handed to `send`. */
  datatype Outcome = Outcome(node: NodeState, sent: seq<Message>)
}
