# Verification of the Raft core and the simulator bus

This project models the Raft nodes of `backend/raft` and the message bus of `backend/simulator/cluster.go`, and
proves the safety theorems of the Raft paper (Ongaro and Ousterhout, *In Search of an Understandable Consensus
Algorithm*, extended version, 2014) over whole runs of that code. `dafny verify dfyconfig.toml` checks everything.

## How it is built

- **The node.** `Node.dfy` has the class with the source's fields and methods that update them in place, loops
  included. Every method is proved to compute the handler of the same name in `NodeSpec.dfy`, a function from the
  node's state to its next state and the messages it sends. Each handler runs under the node's lock, so it is one
  atomic step. `HandlerLaws.dfy` says what the handlers do on the fields and messages themselves: whom a node votes
  for, what it answers when it refuses, what a heartbeat sends, and what each message may change.
- **The cluster.** `System.dfy` runs these steps over everything ever sent: a message may be delivered late, out of
  order, many times or never. Timeouts fire in every role, a killed node may still handle what reached it, a dead
  leader still appends commands, and a restart keeps term, vote, log and commitIndex, all as in the source.
- **The bus.** `SimulatorBus.dfy` has the FIFO inboxes of capacity 128 and the cut links. Sending takes two steps, as
  in the source: the link is tested under the bus lock, and the inbox is written after that lock is released, so a
  message that has passed its test may arrive after the link is cut. An inbox here includes the message its node has
  taken out and not yet handled, because the node may still be waiting for its own lock. Every run of the bus is a run
  of the cluster (`BusRefines`), so every theorem about the cluster holds of the simulator. `Simulator.dfy` has the
  corresponding class, `InFlight.dfy` the window of recent messages over its growing array.
- **Progress.** `RepairRuns.dfy`, `ElectionRuns.dfy` and `ProgressRuns.dfy` build continuations of arbitrary runs: a
  leader can always bring its log to a peer, some node can always be elected, and a new command can always be committed
  on every node. `Faults.dfy` says when a node is down and what a restart takes from it.
- **The argument.** `Protocol.dfy` and `Completeness.dfy` carry the inductive argument for Leader Completeness on a
  history of votes, elections and acknowledgements; `LogLink.dfy`, `VoteLink.dfy`, `AckLink.dfy` and `CommitLink.dfy`
  show that each handler performs its events; `Safety.dfy` and `Stability.dfy` state the theorems over runs.

## What the handlers do not enforce

Three facts the comments of the source rely on are not checked by its handlers. They are named predicates on steps
in `System.dfy`, and the theorems say which of them they need:

| hypothesis | where the check is missing | fails exactly when | run that breaks safety without it |
|---|---|---|---|
| FreshVotes | backend/raft/election.go:81-92 | a candidate handles a granted vote of an earlier term (`FreshVotesIff`) | two leaders in one term (`TwoLeadersInOneTerm`) |
| FreshAcks | backend/raft/replication.go:95-113 | a leader handles a success reply of an earlier term (`FreshAcksIff`) | a committed entry is lost (`StaleAckLosesEntry`) |
| ExactAck | backend/raft/replication.go:80 | the accepting log reaches past the carried entries, none of them cuts it, and what it keeps there is not all of the sender's term (`ExactAckIff`) | a committed entry is lost (`CommittedEntryLost`) |

Each of these runs keeps the other two hypotheses at every step, so each hypothesis is needed; the first is a run of
the bus, step by step. The comment at
backend/raft/election.go:84-85 says that replies from an older term are ignored, and backend/raft/node.go:47 says
that matchIndex is what is known to be replicated; the code does neither, and the model follows the code.
`Guards.dfy` adds the two term checks and proves that they discharge FreshVotes and FreshAcks on every run.
`RepairedCluster.dfy` also has the success reply report PrevLogIndex+len(Entries) instead of the log length, and proves
Election Safety, Leader Completeness and State Machine Safety of every run of that cluster, with no hypothesis.

A minority cut off by a partition elects nobody until Heal once its nodes have nothing left to handle and nothing left
to send, whatever votes its candidates had counted (`FreezeHolds`). It is not enough that nothing from outside is under
way to it: a candidate that had counted a vote of the other side can still win on a bid that was queued inside
(`ElectedBehindCut`). `NoMinorityElection` states what every such election needs, read off the bus at the cut: the
votes counted by then, with the nodes of the side to which a bid or from which a vote was under way, make a majority.
`ElectableIff` shows that this is exact where each such vote is already in the candidate's inbox or the bid is the next
message of a node that will grant it, and nothing in that inbox ends the candidacy.

## Model

| member | source | states |
|---|---|---|
| `Safety.ElectionSafety` | backend/raft/election.go:77-103 | Election Safety (5.2): under FreshVotes at most one node ever leads in a term over the whole run, through kills, restarts and leaders whose own timer fires |
| `Safety.SameTermLeaderUnreachable` | backend/raft/replication.go:27-29 | under FreshVotes no AppendEntries ever meets a leader of its own term, so that defensive branch is never taken for one |
| `Safety.LogMatching` | backend/raft/replication.go:36-66 | Log Matching (5.3): with one leader per term, two logs held by any nodes at any moments with the same term at a position are identical, commands included, through it |
| `Safety.FreshVotesOneLeader` | backend/raft/election.go:77-103 | FreshVotes gives one leader per term, so Log Matching holds under it |
| `Safety.LeaderCompleteness` | backend/raft/replication.go:134-159 | Leader Completeness (5.4.3): under the three hypotheses what a leader of one term has committed stands in the log of every leader of every later term, whenever either is looked at |
| `Safety.StateMachineSafety` | backend/raft/replication.go:53-77 | State Machine Safety (5.4.3): under the three hypotheses any two nodes at any two moments agree up to the smaller commitIndex; with one node twice, a committed entry never changes |
| `Stability.CommittedPrefixStable` | backend/raft/replication.go:165-169 | commitIndex stays within the log, equals lastApplied, never falls, and nothing at or below it is ever cut or replaced |
| `Stability.ClampNeverLowers` | backend/raft/replication.go:69-77 | the clamp of a follower's new commitIndex to its own last index never lowers the LeaderCommit it was sent |
| `Stability.AcknowledgementSound` | backend/raft/replication.go:104-121 | while a node leads a term, matchIndex[p] = i means p has held the leader's first i entries and still holds them unless it accepted entries of a later leader; nextIndex stays within 1..len(log)+1 |
| `Completeness.ElectionContains` | backend/raft/election.go:111-119 | a node elected on up-to-date votes of a majority already holds every entry that may still be committed from an earlier term |
| `Completeness.UpToDateContains` | backend/raft/election.go:111-119 | a bid at least as up to date (5.4.1) as a log that holds an entry of a term holds it too, when later leaders do |
| `Completeness.AcceptCore` | backend/raft/replication.go:53-66 | accepting entries of a leader keeps the whole invariant: nothing that may be committed is dropped by the truncation |
| `Completeness.ExtendCore` | backend/raft/node.go:298-303 | a leader's own append keeps it as well |
| `AckLink.CommittedInLeader` | backend/raft/replication.go:152-153 | an index held by a majority with an entry of the term it was acknowledged in is in the log of every leader of a term at least as late |
| `Protocol.QuorumsMeet` | backend/raft/election.go:94-97 | any two sets of n/2+1 of n nodes share a node |
| `Protocol.OneWinner` | backend/raft/election.go:51-62 | whoever holds a majority of votes in a term that has a leader is that leader |
| `LogLink.AcceptedAbsorbs` | backend/raft/replication.go:36-66 | an accepted AppendEntries carries part of its leader's log, and the follower's log becomes the leader's through the end of it, or stays as it was if it held all of it |
| `VoteLink.WinnerIsFirst` | backend/raft/election.go:94-102 | a candidate that reaches a majority is the first leader of its term |
| `CommitLink.ScanCovered` | backend/raft/replication.go:137-157 | what the quorum scan commits has truly been held by a majority in the current term |
| `CommitLink.FullyLinkedStep` | backend/raft/node.go:161-172 | every handler, under the hypotheses, keeps logs, votes, acknowledgements and commits true to the history of the run |
| `RunFacts.OneVotePerTerm` | backend/raft/election.go:51-62 | currentTerm never falls, and a vote cast in a term stays as it is for that term, through Kill and Restart |
| `RunFacts.CandidateIsShort` | backend/raft/election.go:94-102 | in a cluster of two or more, a node that is still a candidate has never counted a majority of votes |
| `RunFacts.GrantsAreUnique` | backend/raft/election.go:64-72 | all granted replies a node ever sends with one term go to one candidate |
| `RunFacts.LeaderAppendOnly` | backend/raft/node.go:290-311 | Leader Append-Only (5.3): between two moments of one leadership the node leads throughout and its log only grows |
| `RunFacts.LeadershipEnteredOnce` | backend/raft/node.go:193-194 | a node becomes leader of a term at most once in a run |
| `RunFacts.AppendShapes` | backend/raft/node.go:257-285 | every AppendEntries ever sent either carried its sender's whole suffix after a correctly termed predecessor, or pointed past the sender's log with term 0 and nothing |
| `RunFacts.PastEndRejected` | backend/raft/replication.go:36-48 | the second shape is rejected by every node in every reachable state and changes no log |
| `RunFacts.MatchIsAcked` | backend/raft/replication.go:104-113 | a positive matchIndex is a number that a success reply of that peer carried, handled since this leadership began |
| `RunFacts.QuorumOfAcknowledgements` | backend/raft/replication.go:137-157 | when the scan moves commitIndex, the new entry is of the leader's term (5.4.2) and at least a majority less one of distinct other nodes acknowledged it during this leadership |
| `HandlerLaws.GrantedIff` | backend/raft/election.go:44-73 | a vote is granted exactly when the bid is not behind in term, the vote of that term is free or already this candidate's, and the bid's last term and length are lexicographically at least the voter's; term, vote, role and reply afterwards |
| `HandlerLaws.OneGrantsTheOther` | backend/raft/election.go:111-119 | of any two nodes one grants the other's bid of a new term |
| `HandlerLaws.PrefixHolderGrants` | backend/raft/election.go:111-119 | the holder of a prefix grants the bid of the holder of the whole log |
| `HandlerLaws.StaleIsRefused` | backend/raft/replication.go:16-22 | a RequestVote or AppendEntries of an earlier term changes nothing and is refused with the receiver's own term |
| `HandlerLaws.RefusalStepsDown` | backend/raft/node.go:179-189 | that refusal makes a sender of an earlier term a follower of the later term, without a vote |
| `HandlerLaws.UnfitIsRefused` | backend/raft/replication.go:30-48 | an AppendEntries whose predecessor is missing or of another term is refused in its own term, makes the receiver a follower of it and leaves the log alone |
| `HandlerLaws.TickSends` | backend/raft/node.go:224-251 | a live leader's tick sends every peer exactly one AppendEntries of its current term and commitIndex, any other node's sends nothing |
| `HandlerLaws.SubmitSends` | backend/raft/node.go:290-311 | a command given to a leader is its next entry, of its term, and goes out to every peer in one AppendEntries each |
| `HandlerLaws.WinnerStarts` | backend/raft/node.go:193-214 | a candidate that wins starts every peer's nextIndex after its own log and matchIndex at 0, and sends every peer one AppendEntries |
| `HandlerLaws.StandingAsks` | backend/raft/election.go:8-33 | a node that stands raises its term by one, votes for itself alone and asks every peer exactly once, with its last term and length |
| `HandlerLaws.LeaderLearns` | backend/raft/replication.go:91-123 | a success reply of the current term raises that peer's matchIndex to the number reported if it is larger and puts nextIndex right after it; a refusal lowers nextIndex by one, down to 1; no other peer's numbers move |
| `HandlerLaws.LaterTermFollows` | backend/raft/node.go:179-189 | any message of a later term makes its receiver a follower of that term, with no vote but one it casts in handling it |
| `HandlerLaws.HandleTouches` | backend/raft/node.go:161-172 | the fields each kind of message may change; all others stay |
| `Faults.DownIff` | backend/raft/node.go:315-339 | in every state of every run a node is down exactly if it has been killed and not restarted since |
| `Faults.CrashKeeps` | backend/raft/node.go:315-323 | a kill changes nothing but alive |
| `Faults.RestartFollows` | backend/raft/node.go:328-339 | a restarted node is a live follower with its term, vote, log and commitIndex, and never again stands or leads in that term |
| `ElectionRuns.AlwaysElectable` | backend/raft/election.go:8-103 | from every state of every run of two or more nodes some continuation, which counts no stale vote, restarts the dead nodes and elects a leader of a new term with the votes of all, every log as it was |
| `ProgressRuns.AlwaysCommits` | backend/raft/replication.go:134-159 | from every state of every run under FreshVotes some continuation commits a given new command on every node, on top of a log that ends no earlier than any other |
| `Basics.WellFormedRun` | backend/raft/node.go:298-303 | in every state of every run each log entry's index is its position and terms are at least 1, nondecreasing and at most the holder's term; the same for every segment in flight |
| `Basics.MergedWf` | backend/raft/replication.go:53-66 | the truncate-or-append loop keeps a log well formed |
| `Basics.EffectWf` | backend/raft/node.go:161-172 | every handler keeps its node well formed and sends only well-formed messages |
| `NodeSpec.MatchLen` | backend/raft/replication.go:53-63 | the number of carried entries the log already holds: all of those match, and the next one is missing or conflicts |
| `NodeSpec.ScanDown` | backend/raft/replication.go:137-157 | the scan yields the highest committable index above commitIndex, or commitIndex if there is none |
| `AppendLoop.MergedOutcome` | backend/raft/replication.go:53-66 | all carried terms end up in place; without a conflict nothing is cut, with one the log ends at the last carried entry |
| `AppendLoop.RedeliveryIsNoOp` | backend/raft/replication.go:9-83 | handling the same AppendEntries again, accepted or not, leaves the whole node as it is and sends the same reply |
| `AppendLoop.SegmentsCommute` | backend/raft/replication.go:53-66 | two accepted segments of one leader's log give the same log in either order, when the logs satisfy Log Matching |
| `AppendLoop.ReportsVouchedIff` | backend/raft/replication.go:80 | the reported length is PrevLogIndex+len(Entries) exactly when the log did not reach past the carried entries or one of them cut it |
| `AppendLoop.ExactAckIff` | backend/raft/replication.go:79-82 | ExactAck holds of a delivery exactly when the guard on the log and the message holds before it |
| `CommitScan.ScanIsOrderStatistic` | backend/raft/replication.go:134-159 | the scan takes the majority-th largest among len(log) and all matchIndex values, capped at len(log), and commits it exactly when it exceeds commitIndex and its entry is of the current term |
| `CommitScan.KthLargestExists` | backend/raft/replication.go:143-152 | the k-th largest of a nonempty list of values exists and is unique |
| `Repair.RepairTerminates` | backend/raft/replication.go:116-121 | repeated send, handle, reply and back-off succeeds after exactly nextIndex minus the last common index rounds; until then the follower's log is untouched |
| `Repair.RepairedTerms` | backend/raft/replication.go:36-66 | the repaired follower carries the terms of the whole leader log exactly when the logs agreed in terms up to the meeting point |
| `Repair.RepairedLog` | backend/raft/replication.go:36-66 | with Log Matching the repaired follower holds the whole leader log, commands included |
| `Repair.RepairInRun` | backend/raft/node.go:257-285 | in every state of every run with one leader per term, repair brings any peer not ahead in term the leader's whole log |
| `RepairRuns.RepairRun` | backend/raft/node.go:224-285 | from every state of a run with one leader per term, a live leader and a peer not ahead in term, a continuation of ticks and deliveries alone ends with the peer holding the leader's whole log and the leader knowing it |
| `RepairRuns.StaleLeaderStepsDown` | backend/raft/replication.go:91-98 | from every state of every run, one tick of a live leader that is behind a peer in term and two deliveries make it a follower of that peer's term, and move nobody else |
| `Repair.RepairNeedsMatching` | backend/raft/replication.go:42-48 | two logs without Log Matching on which repair stops too early |
| `Repair.ResumesAfterMatch` | backend/raft/replication.go:110-113 | after a success reply the leader resumes right after the peer's matchIndex, with everything from there on |
| `Guards.FreshVotesIff` | backend/raft/election.go:81-92 | FreshVotes fails exactly when a candidate is handed a granted vote of an earlier term |
| `Guards.FreshAcksIff` | backend/raft/replication.go:95-113 | FreshAcks fails exactly when a leader is handed a success reply of an earlier term |
| `Guards.GuardedRefines` | backend/raft/election.go:84-88 | with replies of an earlier term ignored, as the comment intends, every run is a run of the code in which FreshVotes and FreshAcks hold |
| `Guards.GuardedElectionSafety` | backend/raft/election.go:84-88 | Election Safety of that cluster with no hypothesis |
| `Guards.GuardedStateMachineSafety` | backend/raft/replication.go:79-82 | State Machine Safety of that cluster, under a check of each accepted AppendEntries beforehand |
| `RepairedCluster.TakenAcks` | backend/raft/replication.go:79-82 | acknowledging an accepted AppendEntries through PrevLogIndex+len(Entries) is true of the follower's log, whatever that held past it |
| `RepairedCluster.RepairedElectionSafety` | backend/raft/election.go:77-103 | Election Safety with the two term checks and the repaired reply, no hypothesis |
| `RepairedCluster.RepairedLeaderCompleteness` | backend/raft/replication.go:134-159 | Leader Completeness of that cluster, no hypothesis |
| `RepairedCluster.RepairedStateMachineSafety` | backend/raft/replication.go:53-82 | State Machine Safety of that cluster, no hypothesis |
| `BusCounterexample.TwoLeadersInOneTerm` | backend/raft/election.go:90-92 | a run of the bus with three nodes that keeps FreshAcks and ExactAck and ends with two leaders of term 2 |
| `Counterexamples.CommittedEntryLost` | backend/raft/replication.go:80 | a run of three nodes that keeps FreshVotes and FreshAcks, in which a leader of term 3 lacks an entry committed in term 2 |
| `Counterexamples.StaleAckLosesEntry` | backend/raft/replication.go:95-113 | a run of five nodes that keeps FreshVotes and ExactAck, in which a leader of term 4 lacks an entry committed in term 3 |
| `SimulatorBus.BusRefines` | backend/simulator/cluster.go:250-275 | every run of the bus, with bounded inboxes, cut links and a link test that is separate from the push, is a run of the cluster over everything ever sent |
| `SimulatorBus.AlwaysRoutable` | backend/simulator/cluster.go:268-269 | a node only ever addresses another node of the cluster, so route always finds the inbox it indexes |
| `SimulatorBus.SimulatorSafety` | backend/simulator/cluster.go:250-275 | State Machine Safety of the simulator |
| `BusLaws.SentIsLeft` | backend/simulator/cluster.go:250-275 | at every moment what a node has sent is what has left it, in that order and once each, followed by what it still holds |
| `BusLaws.QueuedIsTaken` | backend/simulator/cluster.go:268-274 | at every moment what has been queued for a node is what it has taken out, in that order and once each, followed by what waits in its inbox |
| `BusLaws.LostOnlyWhenFull` | backend/simulator/cluster.go:268-274 | no message is lost at an inbox that holds fewer than 128, and none ever holds more than that besides the message its node has taken out |
| `BusLaws.CutIff` | backend/simulator/cluster.go:186-204 | a link is cut, in either direction, exactly from a Partition that separates its ends to the next Heal |
| `MinorityFreeze.PartitionCutsOff` | backend/simulator/cluster.go:186-196 | Partition with two groups that cover the cluster cuts every link into either |
| `MinorityFreeze.FreezeHolds` | backend/raft/election.go:94-102 | once the nodes of a cut-off minority have nothing left to handle or send and nothing is on its way into their inboxes, none of them becomes leader until Heal, whatever votes they had counted |
| `MinorityFreeze.NoMinorityElection` | backend/raft/election.go:94-102 | a node that becomes leader behind the cut had been a candidate of that term at the cut, and the votes it had counted make a majority with the nodes of the side to which its bid or from which a vote for it was then under way |
| `MinorityFreeze.NoMinorityCommit` | backend/raft/replication.go:137-157 | when a minority leader's scan moves commitIndex behind the cut, it was leading that term at the cut, and the outside nodes that had acknowledged the new index by then make a majority with its side |
| `QueuedVotes.QueueElectsIff` | backend/raft/election.go:77-103 | a candidate that handles a queue of messages leads at some moment exactly when a prefix of the queue has nothing of a later term and no AppendEntries of its own term, and completes its majority |
| `QueuedVotes.BidsElect` | backend/raft/election.go:44-103 | from every state of the bus in which votes counted, votes queued and nodes about to grant a bid make a majority, these nodes alone can elect the candidate, with no link mended |
| `QueuedVotes.ElectableIff` | backend/raft/election.go:94-102 | where every vote under way has arrived or is about to be granted and nothing in the inbox, which has room for them, ends the candidacy, a live node of a cut-off minority can be elected before Heal if and only if it is a candidate and the condition of NoMinorityElection holds |
| `FreezeExample.ElectedBehindCut` | backend/raft/election.go:94-102 | a run of five nodes in which one of the two cut off is elected before Heal |
| `InFlightWindow.WindowShowsHistory` | backend/simulator/cluster.go:316-328 | after any sequence of route and snapshot calls with a clock that never runs backwards, the window is the last 256 of the live messages of the whole send history |
| `InFlightWindow.WindowExactly` | backend/simulator/cluster.go:316-328 | under that clock the window is the end of the send history, holds at most 256 records, all less than 150 ms old, and if it holds fewer the record before them is at least 150 ms old |
| `InFlightWindow.PrunedTail` | backend/simulator/cluster.go:316-328 | pruning a tail that is long enough or misses only expired messages gives what pruning the whole would give |
| `InFlightWindow.ClockMustNotRunBack` | backend/simulator/cluster.go:319 | two calls with a clock that runs backwards after which the window is not that |
| `InFlightWindow.Window.KeepLive` | backend/simulator/cluster.go:317-323 | the aliasing filter over the shared array yields exactly the live messages in order |
| `InFlightWindow.Window.Prune` | backend/simulator/cluster.go:316-328 | pruning leaves the last 256 of the live messages |
| `InFlightWindow.Window.Append` | backend/simulator/cluster.go:254-260 | append adds one message at the end, in place or in a larger array |
| `InFlightWindow.Window.Note` | backend/simulator/cluster.go:254-261 | recording a message appends it and prunes |
| `InFlightWindow.Window.Snapshot` | backend/simulator/cluster.go:292-298 | a snapshot prunes and returns a copy of what is left |
| `RaftSimulator.Simulator.constructor` | backend/simulator/cluster.go:92-129 | n fresh nodes, each with all the others as peers, empty inboxes, no cut link |
| `RaftSimulator.Simulator.Partition` | backend/simulator/cluster.go:186-196 | the nested loops add exactly the links between the two groups, in both directions |
| `RaftSimulator.Simulator.Heal` | backend/simulator/cluster.go:199-204 | no link stays cut |
| `RaftSimulator.Simulator.TestLink` | backend/simulator/cluster.go:251-262 | the link is tested and the message recorded either way, with its sender, receiver, kind, term and sending time, as the last record unless it has already expired; nothing is queued yet |
| `RaftSimulator.Simulator.Offer` | backend/simulator/cluster.go:268-274 | the message is queued at the end unless the inbox is full |
| `RaftSimulator.Simulator.Route` | backend/simulator/cluster.go:250-275 | both together: recorded as TestLink does either way, and queued unless its link is cut or the inbox is full |
| `RaftSimulator.Simulator.SubmitCommand` | backend/simulator/cluster.go:150-161 | the command goes to the first node whose role is leader, dead or alive, and to no other; it is refused exactly when there is none |
| `RaftNode.Node.constructor` | backend/raft/node.go:99-113 | a new node is a live follower of term 0 with an empty log and no vote |
| `RaftNode.Node.StepDownIfStale` | backend/raft/node.go:179-189 | a higher term makes the node a follower of that term without a vote |
| `RaftNode.Node.BeginElection` | backend/raft/election.go:8-33 | the method computes StartElection and sends its bid to every peer |
| `RaftNode.Node.OnRequestVote` | backend/raft/election.go:44-73 | the method computes HandleRequestVote |
| `RaftNode.Node.OnRequestVoteReply` | backend/raft/election.go:77-103 | the method computes HandleRequestVoteReply |
| `RaftNode.Node.CandidateLogUpToDate` | backend/raft/election.go:111-119 | the comparison of Section 5.4.1 of the Raft paper |
| `RaftNode.Node.TakeLeadership` | backend/raft/node.go:193-214 | the method computes BecomeLeader and sends the first round |
| `RaftNode.Node.SendAppendEntries` | backend/raft/node.go:257-285 | the method sends AppendFor: everything from nextIndex on after its predecessor |
| `RaftNode.Node.HeartbeatTick` | backend/raft/node.go:224-251 | a live leader sends to every peer, any other node sends nothing |
| `RaftNode.Node.SubmitCommand` | backend/raft/node.go:290-311 | the method computes Submit and accepts exactly when the role is leader |
| `RaftNode.Node.AppendLoop` | backend/raft/replication.go:53-66 | the loop that re-reads the log it is changing ends at the one-shot merge |
| `RaftNode.Node.OnAppendEntries` | backend/raft/replication.go:9-83 | the method computes HandleAppendEntries |
| `RaftNode.Node.OnAppendEntriesReply` | backend/raft/replication.go:91-123 | the method computes HandleAppendEntriesReply |
| `RaftNode.Node.ScanForCommit` | backend/raft/replication.go:134-159 | the backward loop with its counting loop computes AdvanceCommit |
| `RaftNode.Node.Crash` | backend/raft/node.go:315-323 | only `alive` changes |
| `RaftNode.Node.Recover` | backend/raft/node.go:328-339 | the node is a live follower; term, vote, log and commitIndex stay |
| `RaftNode.Node.HandleMessage` | backend/raft/node.go:161-172 | dispatch on the kind of message |

## Left out

- MinorityFreeze.NoMinorityElection: its condition is necessary everywhere and exact under the condition of QueuedVotes.ElectableIff; still open is the other half for bids that wait behind other messages, or at a node that would not grant them as it is, since whether those are granted depends on how the messages ahead change that node's term, vote and log.
- Guards.GuardedStateMachineSafety: keeps the third hypothesis as a check on each delivery, since its replies are those of the source; RepairedCluster repairs the reply and needs no check.
- The two runs that lose a committed entry are given over everything ever sent, each node taking its messages in the order they were sent to it; only TwoLeadersInOneTerm is spelled out through inboxes and cut links.
- ProgressRuns.AlwaysCommits: a commit is always possible from where the cluster is; that it happens depends on timers and scheduling, which are not modelled. The same holds of RepairRun and AlwaysElectable.
- RaftNode.Node.Crash: timers and the heartbeat channel are not modelled, so closing the channel and stopping the timer are not stated.
- InFlightWindow.Window.Append: the new capacity is taken to be twice the length plus one; Go's growth policy differs and nothing depends on it.
- SimulatorBus.SimulatorSafety: a message handed over after its node has been killed is sent as in the source; a killed node may handle or discard what reaches it, since `alive` is read outside the lock, and only a killed node discards.
- Timers, goroutines, tickers, mutexes and notification channels: replaced by timeouts and heartbeat ticks that may happen at any time and by atomic handlers; nothing about real time is stated.
- The claim that one heartbeat loop runs per leader: it does not hold of the source, because a leader that times out never closes its channel.
- Node identifiers are 0..n-1 as the simulator assigns them, and integers are unbounded.
- Snapshots of nodes, JSON, the WebSocket hub, the HTTP server and the frontend: copying and display.
- Membership change, log compaction and durable storage: the repository does not implement them.
