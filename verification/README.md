# A verified model of the vosfs metadata cluster

vosfs keeps a file-system namespace on a small Raft cluster and file blocks on data nodes. This
project models the hard core of it and proves what it guarantees:

- the **namespace** every node replicates: a map from paths to directory entries, a map from inos to
  inodes and the listing inside each directory, with mkdir, upload, reservation, `ls`, looking up a
  file's blocks, snapshot and load;
- **elections**: terms, votes, vote counting and stepping down, with lost messages and restarts;
- **replication** in one leader epoch: requests built, sent, handled, answered and lost in any order,
  next and match indices, back-off, batches of 64, the sorted-middle commit rule, applying, ino
  reservations on the leader, and every node's store;
- **successions** of epochs: who can win the next election, what its log then holds, and what stays
  applied when an old leader remains or comes back from a restart;
- the **durable log and hard state**, and what a restart reads back;
- **answers to clients** that wait for their log index to be applied;
- the **chunked snapshot transfer**, the **placement** of block replicas and the **block store**.

How it is built. The program works by changing fields, so it appears as classes whose methods update
fields, sequences and maps in the order the program does: `RaftNode`, `StateMachine`, `RaftLog`,
`Persister`, `Snapshotter`, `DataNode`. Every method is proved against a function on values (in
`Namespace`, `Snapshots`, `Answers`, `Logs`, `Persistence`, `Ballots`, `Replication`, `Epoch`,
`SnapshotTransfer`, `BlockStore`). The theorems are about those functions, over every run of a
transition system with the same steps. Each locked section is one step. In an epoch the only restriction on their order is that
a follower is not sent a second request while one to it is under way. Clock readings, hash values,
map iteration orders and the outcomes of file operations are parameters, so a theorem holds for all of
them.

| file | content |
|---|---|
| Basics, Decimal | shared vocabulary; decimal printing and keys built from it |
| Paths, Namespace, Listing, Integrity, Snapshots, Clocks, Reservations, Placement | the namespace and its theorems |
| Operations | what clients can rely on: when an operation succeeds, what it leaves, why it refuses |
| Answers | pending requests, their answers and what an answer means |
| StateMachine, Logs, Persister | the state machine, the log and the store, as objects and as functions |
| Ballots, Elections, Polls | one node's votes; the cluster's elections; what votes rest on |
| Quorum, Replication, Epoch, Accounts, Agreement, Convergence, Durability | one leader epoch |
| Electability, Succession, Restarts | the next election, epochs that follow one another, and their stores |
| Scenarios | runs from fresh clusters: an ordinary tick, damage in ordinary use, how a stale node comes about |
| RaftNode | the node's handlers, refining all of the above |
| SnapshotTransfer, BlockStore | chunked transfer; the data node |

Where the program departs from the Raft paper (Ongaro and Ousterhout, "In Search of an Understandable
Consensus Algorithm (Extended Version)"), the model follows the program. For most departures a theorem
says exactly when the paper's property survives:

- Winning an election erases the winner's vote (src/raft/node.cpp:353), and a granted vote is not saved
  (src/raft/node.cpp:400-403), so a leader may vote again in the term it leads and a restarted node in
  the term it voted in. One vote per term holds exactly when neither happens (`OneVoteExactly`); two
  leaders in one term are possible otherwise (`TwoLeadersInOneTerm`, `TwoLeadersAfterRestart`).
- The up-to-date test compares the index before the term (src/raft/node.cpp:392-395), unlike section
  5.4.1. An electable node is never shorter than what is committed, and holds it exactly when its entry
  at the commit index has the leader's term (`ElectableHoldsCommitExactly`); a node without any of it
  can win (`StaleNodeIsElectable`).
- A batch is appended whole (src/raft/node.cpp:463-465). It agrees with section 5.3 exactly when its
  first entry is missing or conflicts (`FollowsPaperExactly`).
- A success reply reports the follower's whole last index (src/raft/node.cpp:473-474), which is the end
  of the batch exactly when the follower lacked or conflicted at its start (`ReportIsExactly`).
- Commit needs n - n/2 followers besides the leader (src/raft/node.cpp:757-768): one node more than a
  majority when n is odd, and a single node never commits.
- The leader does not save its own entries (src/raft/node.cpp:581), so its store mirrors its log exactly
  while it has appended nothing (`LeaderAppendIsNotDurable`). Following later, it reads back what lies
  below the first of them until a batch closes that gap or cuts below it (`SavedExactly`).
- A reservation moves the next ino on the leader only (src/raft/state_machine.cpp:189). Leader and
  followers keep equal maps exactly until the leader creates a directory after reserving
  (`ReservationSplitsReplicas`, `ReplicaAgreement`). A follower's namespace is integral exactly while
  every upload it applies has an ino below its own next ino, which a reserved one has not
  (`CommandsAreIntegralExactly`, `FollowerLosesIntegrity`).
- A snapshot forgets inos that are reserved but unused (src/raft/state_machine.cpp:58-62). Inos handed
  out increase exactly when nothing is handed out after such a loss (`InosIncreaseExactly`).

For one departure there is no such theorem: commit has no current-term test (src/raft/node.cpp:765-766),
unlike section 5.4.2. What it would protect, committed entries across terms, is a hypothesis here
(`Succeeds`).

## Model

| member | source | states |
|---|---|---|
| Paths.LastSlash | src/raft/state_machine.cpp:403 | the position of the last slash, or -1 when there is none: a slash stands there and none after it |
| Paths.SplitOfJoin | src/raft/state_machine.cpp:264-270 | splitting the path mkdir joins gives back the name, and the parent exactly when that is not empty |
| Paths.JoinOfSplit | src/raft/state_machine.cpp:403-409 | joining a split path restores it exactly when it is not of the form `//name` |
| Paths.JoinInjective | src/raft/state_machine.cpp:264-270 | different parents or names never join to one path |
| Paths.ParentIsShorter | src/raft/state_machine.cpp:403-415 | the split parent of a path with a legal name is strictly shorter |
| Listing.NextIsListed | src/raft/state_machine.cpp:235-298 | every command, reservation and reload keeps paths, inodes and listings in agreement, whatever inos clients choose |
| Listing.RunIsListed | src/raft/state_machine.cpp:111-132 | the same agreement after every run from the root |
| Listing.LsAgreesWithPaths | src/raft/state_machine.cpp:140-173 | after every run `ls` of a directory returns exactly the stored entries with that split parent, each once, in creation order |
| Integrity.ApplyKeepsIntegralExactly | src/raft/state_machine.cpp:379-447 | an accepted command keeps the namespace integral exactly when it is a mkdir or its ino was handed out |
| Integrity.FreshRunIsIntegral | src/raft/state_machine.cpp:235-298 | every run on one node, with reservations and reloads, leaves an integral namespace if each accepted upload uses an ino below that node's own next ino |
| Integrity.CommandsAreIntegralExactly | src/raft/state_machine.cpp:379-447 | a node that only applies commands, as a follower does, has an integral namespace exactly when each accepted upload used an ino below its own next ino; a reservation on the leader does not make it so |
| Integrity.NamespaceIntegrity | src/raft/state_machine.cpp:235-447 | after such a run paths and inodes are in bijection, `is_dir` agrees, the next ino exceeds all, and every path climbs to the root |
| Integrity.EveryPathClimbs | src/raft/state_machine.cpp:403-427 | every stored path reaches the root through stored directories with strictly shorter paths |
| Integrity.OkExactlyWhenGained | src/raft/state_machine.cpp:300-377 | on every reachable namespace a command succeeds exactly when the state changes; then one path is gained and no other entry changes, and one inode exactly when it is an upload or the next ino is free |
| Integrity.UnreservedInoBreaksMkdir | src/raft/state_machine.cpp:277-297 | an upload with an ino the node has not reached itself, then a mkdir: it succeeds with an entry on the file's inode; a follower does just this when the leader reserved the ino |
| Integrity.InosIncreaseExactly | src/raft/state_machine.cpp:187-189 | the inos handed out by reservations and mkdir are strictly increasing over a run exactly when nothing is handed out after a reload that happened while an ino was handed out above all those in use |
| Integrity.InosDistinctExactly | src/raft/state_machine.cpp:187-189 | no ino is handed out twice over a run under exactly the same condition |
| Integrity.InosIncrease | src/raft/state_machine.cpp:187-189 | over every run whose reloads happen when every ino handed out is at most the largest in use, the inos handed out are strictly increasing, positive and below the next ino |
| Integrity.ReloadRepeatsExactly | src/raft/state_machine.cpp:58-62 | after such a run, a reload and one more reservation keep the inos increasing exactly when all handed out before the reload were covered by the largest in use |
| Integrity.ReloadRepeatsAnIno | src/raft/state_machine.cpp:58-62 | the shortest run that hands one ino out twice: reserve, reload, reserve |
| Snapshots.LoadOfSnapshot | src/raft/state_machine.cpp:32-72 | in whatever order the maps are listed, loading restores both and recomputes the next ino |
| Snapshots.LoadOfNothing | src/raft/state_machine.cpp:42-62 | an empty snapshot restores a new namespace, an empty root directory |
| Snapshots.SnapshotIsLosslessExactly | src/raft/state_machine.cpp:32-72 | a snapshot restores the state exactly when the highest ino handed out is in use |
| Snapshots.MkdirSnapshotIsLossless | src/raft/state_machine.cpp:32-72 | a snapshot of a namespace built without uploads restores it wholly |
| Snapshots.SnapshotPlusSuffix | src/raft/state_machine.cpp:32-132 | an instance: cuts before which nothing was uploaded |
| Reservations.SnapshotPlusSuffixExactly | src/raft/state_machine.cpp:32-132 | for every log and every cut, loading the snapshot and applying the rest equals the full replay exactly when the highest ino handed out was in use at the cut |
| Clocks.EraseApply | src/raft/state_machine.cpp:379-447 | apart from the stamps of files, what a command does depends neither on the clock nor on earlier stamps |
| Clocks.ReplicasDifferOnlyInStamps | src/raft/state_machine.cpp:111-132 | one log under two clocks gives equal namespaces up to file stamps, and equal ones without uploads |
| Reservations.ReservationSplitsReplicas | src/raft/state_machine.cpp:175-207 | over every sequence of commands and reservations, a node that reserves and one that only applies the commands have equal paths and inodes up to file stamps exactly when no directory was created after an accepted reservation; otherwise some path leads to two inos; while they agree the next inos differ exactly when something was reserved |
| Placement.FirstLap | src/raft/state_machine.cpp:197-202 | the i-th replica's position in closed form, for one lap around the nodes |
| Placement.ReplicasDistinctExactly | src/raft/state_machine.cpp:190-203 | replicas of one block are pairwise distinct exactly when there are at least as many nodes, for any start |
| Placement.BlockIsSpread | src/raft/state_machine.cpp:190-203 | a block without replicas gets REPLICA_NODE_SIZE consecutive ones from the node its hash selects, distinct exactly when there are enough nodes |
| Placement.PlacedKeepsBlock | src/raft/state_machine.cpp:195-203 | a placed block keeps id, offset, size and the replicas it had, carries the reserved ino and gains REPLICA_NODE_SIZE replicas |
| Operations.ReadIsHandedOut | src/raft/state_machine.cpp:181-205 | every block a client reads from a reservation carries the one ino handed out for it, and is otherwise the client's own |
| Operations.ReadInosAreDistinct | src/raft/state_machine.cpp:187-195 | over every run in which nothing is handed out after an uncovered reload, two reservations never give the same ino, and every ino read is below the next ino unless the last reload was uncovered |
| Operations.AnswersExactly | src/raft/state_machine.cpp:300-345 | an operation is refused with a reason exactly when that reason holds of the stored paths and inodes, and succeeds exactly when none does |
| Operations.MkdirAnswersExactly | src/raft/state_machine.cpp:300-345 | mkdir's reasons: no such parent, no inode for it, not a directory, an empty name or one with a slash, a stored path |
| Operations.UploadAnswersExactly | src/raft/state_machine.cpp:449-510 | upload's reasons: ino or path taken, no slash, and then those of the part before the last slash and the name after it |
| Operations.MkdirSucceedsExactly | src/raft/state_machine.cpp:300-377 | after every run mkdir succeeds exactly under a listed directory with a nonempty slash-free name whose path is not stored; then the directory lists one entry more with that name, path, size 4096 and stamp, the new one lists nothing, and all else is unchanged |
| Operations.UploadSucceedsExactly | src/raft/state_machine.cpp:449-532 | after every run upload succeeds exactly with a free ino and path under a listed directory; then the parent lists one file more with name, total size and local stamp, its inode holds exactly the blocks, and all else is unchanged |
| Operations.StartsWithEmptyRoot | src/raft/state_machine.cpp:11-29 | a new namespace is an empty root directory with ino 0, and the next ino is 1 |
| Operations.LsAnswersExactly | src/raft/state_machine.cpp:144-155 | after every run `ls` says no such path, not a directory or a listing exactly when the path is not stored, a file's or a directory's |
| Operations.TotalSizeAdds | src/raft/state_machine.cpp:388-391 | the size of two sequences of blocks behind each other is the sum of their sizes modulo 2^64 |
| Operations.TotalSizeOfFew | src/raft/state_machine.cpp:388-391 | no blocks have size 0, one block has its own |
| Operations.UploadedFileStays | src/raft/state_machine.cpp:449-532 | over every run with any later commands, reservations and reloads, the path of an accepted upload leads to an inode with exactly its blocks and their size, and a download is told exactly those |
| Operations.EveryFileWasUploaded | src/raft/state_machine.cpp:449-532 | every stored file was put there by an accepted upload to its path |
| Answers.FiledExactlyWhenFree | src/raft/state_machine.cpp:134-138 | a request is filed under its index exactly when nothing was filed there before |
| Answers.AppliedIndexIsTaken | src/raft/state_machine.cpp:74-76 | applying an index takes it for ever, even if nobody was filed there, and touches no other |
| Answers.AnswerMatchesPosition | src/raft/node.cpp:560-593 | in every run of a leadership each request stays filed at its own index and is resumed when that index is applied, in order, with the answer computed for it, and not otherwise |
| Answers.ResumedAtMostOnce | src/raft/state_machine.cpp:74-109 | over every run of a leadership with requests from new clients, no client is on file twice at the end, none is resumed twice, and each one resumed was filed at an index applied in the run |
| Answers.OutcomesFollowTheLog | src/raft/node.cpp:315-323 | without reservations, the answer for index i is that of its command on the state after the i - 1 entries before it |
| Answers.AnswerIsTold | src/raft/state_machine.cpp:86-108 | an answer is kOk exactly when the command changed the namespace, a reason exactly when that reason held before, and nothing exactly for a payload that does not parse |
| Answers.AnswersAreTrue | src/raft/state_machine.cpp:74-109 | over every run of a leadership, reservations included, all answers are so true of the log entries they belong to, with the states before and after them |
| Answers.ClientsReadTheTruth | src/raft/state_machine.cpp:74-109 | over every such run each resumed client reads a true answer about the entry under whose index it was filed |
| Answers.FiledClientsAreResumed | src/raft/state_machine.cpp:74-109 | and each client filed under an index that was applied is resumed so |
| StateMachines.LargestIno | src/raft/state_machine.cpp:25-29 | the largest ino of the inodes, 0 when there are none |
| StateMachines.ValuesOf | src/raft/state_machine.cpp:65-72 | the values of a map, each key visited once, in any order |
| StateMachines.EmplaceAll | src/raft/state_machine.cpp:35-40 | emplacing in sequence keeps the first value of every key |
| StateMachines.SumSizes | src/raft/state_machine.cpp:388-391 | the sum of block sizes modulo 2^64 |
| StateMachines.WalkReplicas | src/raft/state_machine.cpp:197-202 | the loop visits exactly the cyclically consecutive nodes |
| StateMachines.StateMachine.constructor | src/raft/state_machine.cpp:6-30 | a new state machine holds the root only, with next ino 1 |
| StateMachines.StateMachine.TakeSnapshot | src/raft/state_machine.cpp:65-72 | the snapshot lists both maps completely |
| StateMachines.StateMachine.LoadSnapshot | src/raft/state_machine.cpp:32-63 | the state becomes what the snapshot describes, or the root for an empty one |
| StateMachines.StateMachine.MakeDir | src/raft/state_machine.cpp:300-377 | answers and changes the state as the laws of mkdir in Operations say |
| StateMachines.StateMachine.MakeDirNoResponse | src/raft/state_machine.cpp:235-298 | the follower copy changes the state exactly as the leader copy |
| StateMachines.StateMachine.UploadFile | src/raft/state_machine.cpp:449-532 | answers and changes the state as the laws of upload in Operations say |
| StateMachines.StateMachine.UploadFileNoResponse | src/raft/state_machine.cpp:379-447 | the follower copy changes the state exactly as the leader copy, for equal clock readings |
| StateMachines.StateMachine.ApplyEntry | src/raft/state_machine.cpp:74-109 | the state moves by the command; a waiting client is resumed with an answer that is true of the states before and after |
| StateMachines.StateMachine.ApplyEntryNoResponse | src/raft/state_machine.cpp:111-132 | the state moves by the same command, and pending requests are untouched |
| StateMachines.StateMachine.AppendRequest | src/raft/state_machine.cpp:134-138 | files the request unless its index is taken |
| StateMachines.StateMachine.ListDir | src/raft/state_machine.cpp:140-173 | the listing, or which of the three checks failed |
| StateMachines.StateMachine.PrepareDownload | src/raft/state_machine.cpp:209-233 | the blocks of the path's inode, or which of the two checks failed |
| StateMachines.StateMachine.PrepareUpload | src/raft/state_machine.cpp:175-207 | refuses an existing path; otherwise takes one ino and returns every block placed, kept as it was and under that ino |
| Logs.MergeAlignedExactly | src/raft/node.cpp:448-466 | a batch leaves the log aligned exactly when its first entry is missing or conflicts, and then it is the log up to there plus the batch |
| Logs.FollowsPaperExactly | src/raft/node.cpp:448-466 | the program and section 5.3 of the Raft paper agree on a batch exactly under that condition |
| Logs.RaftLog.constructor | include/vosfs/raft/log.hpp:8-14 | a log holds the given base and entries |
| Logs.RaftLog.LoadSnapshot | src/raft/log.cpp:11-14 | moves the base and leaves the entries |
| Logs.RaftLog.GetEntries | src/raft/log.cpp:45-58 | up to `size` entries from an index on, fewer at the end of the log |
| Logs.RaftLog.AppendEntry | src/raft/log.cpp:67-69 | one entry at the end |
| Logs.RaftLog.AppendEntries | src/raft/log.cpp:71-75 | the whole batch at the end |
| Logs.RaftLog.TruncateFrom | src/raft/log.cpp:77-81 | keeps exactly the entries below the index |
| Persistence.KeysDistinct | include/vosfs/raft/persister.hpp:32-34 | entry keys differ for different indices and never equal the hard-state key |
| Persistence.MirrorReadsBack | src/raft/persister.cpp:68-88 | of a store that mirrors a log, scanning up from the base finds exactly that log |
| Persistence.BatchMirrorsExactly | src/raft/node.cpp:448-466 | after a batch the store still mirrors memory exactly when the first entry is missing or conflicts |
| Persistence.BackedReadsBack | src/raft/persister.cpp:68-88 | of a store that holds the first entries of a log and then has a gap, a restart reads exactly those |
| Persistence.BatchBacks | src/raft/node.cpp:448-466 | a batch whose first entry is news on such a store: all is saved if it closes the gap or cuts below it, otherwise as much as before |
| Persistence.LeftoversResurfaceExactly | src/raft/persister.cpp:68-88 | after a restart, a batch that closes the gap is read back alone exactly when no old entry lies right above it |
| Persistence.DurableLogMirrorsMemory | src/raft/persister.cpp:56-100 | after any run of such batches a restart reads exactly the entries in memory, entry k with index base + k + 1 |
| Persistence.Persister.SaveHardState | src/raft/persister.cpp:18-23 | replaces the stored hard state and nothing else |
| Persistence.Persister.LoadHardState | src/raft/persister.cpp:25-47 | reads the stored one; a first start stores and returns term 0; an unreadable one is an error |
| Persistence.Persister.SaveEntries | src/raft/persister.cpp:56-66 | every entry of the batch is stored under its index |
| Persistence.Persister.TruncateEntries | src/raft/persister.cpp:90-100 | deletes exactly the indices of the closed range |
| Persistence.Persister.LoadEntries | src/raft/persister.cpp:68-88 | the entries up to the first gap, or an error when an unreadable one lies above the base |
| Elections.TermsNeverGoBack | src/raft/node.cpp:342-355 | over any run with any restarts the stored term equals the one in memory, so no node's term decreases |
| Elections.RunIsOrderly | src/raft/node.cpp:702-721 | every win in every run is backed by recorded votes of a majority, however calls and replies interleave or are lost |
| Elections.OneVoteExactly | src/raft/node.cpp:379-405 | in every run with any restarts, each node votes once per term exactly when no node grants a vote in a term it has won and none grants one in a term in which a restart lost its vote for another |
| Elections.QuorumsMeet | src/raft/node.cpp:717 | two majorities of one cluster share a node |
| Elections.ElectionSafety | src/raft/node.cpp:177-192 | under that condition each term has at most one leader, over every run |
| Elections.WonTermMeansLeading | src/raft/node.cpp:351-356 | without restarts a node has won its current term exactly when it is leader, so the condition can be tested by the handler |
| Polls.GrantsExactly | src/raft/node.cpp:379-405 | a vote is granted exactly when the term is not behind, the candidate's log ends at a larger index or at the same one with the same term, and no other was voted for in that term; the reply's term is the higher one |
| Polls.VotesRestOnLogs | src/raft/node.cpp:389-398 | over every run, with logs changing and nodes restarting at any time, every vote for another node went to a candidate whose log, as the call told of it, ended so compared with the voter's at that moment |
| Polls.WinnersAreBacked | src/raft/node.cpp:389-398 | hence every win is backed by a majority that found it so |
| Polls.WinnersAreElectable | src/raft/node.cpp:389-398 | whoever wins among the nodes of an epoch while their logs stand still is electable in the sense of the electability theorems |
| Polls.LoneNodeLeads | src/raft/node.cpp:177-192 | in a cluster of one a timeout makes the node leader of the next term |
| Polls.TimeoutStands | src/raft/node.cpp:177-192 | in a larger one it makes it candidate of the next term with its own vote counted and saved |
| Polls.MajorityWins | src/raft/node.cpp:716-721 | a candidate whose grants, with the votes it has, make a majority is leader once they are processed |
| Polls.CandidatesLackMajority | src/raft/node.cpp:716-721 | over every run no candidate sits on a majority without having become leader |
| Polls.HigherTermStepsDown | src/raft/node.cpp:707-710 | a message of a higher term makes any node a follower of that term without a vote, saved |
| Polls.OtherAnswersChangeNothing | src/raft/node.cpp:703-714 | a late or refusing answer, or one to a leader, changes nothing |
| Elections.GrantInWonTermSplitsTheVote | src/raft/node.cpp:398-403 | every grant in a won term gives two candidates a vote of one node in one term |
| Elections.TwoLeadersInOneTerm | src/raft/node.cpp:351-355 | a run of any three fresh nodes, without restarts, in which two win term 1 |
| Elections.GrantAfterLossSplitsTheVote | src/raft/node.cpp:400-403 | every grant to another candidate in a term in which a restart lost a vote gives two candidates a vote of one node |
| Elections.TwoLeadersAfterRestart | src/raft/node.cpp:400-403 | a run of any three fresh nodes in which a voter restarts, forgets its vote and two nodes win term 1 |
| Quorum.MiddleIsQuorumIndex | src/raft/node.cpp:759-766 | the element at n/2 of the sorted match indices is the highest index that n - n/2 slots have reached, in whatever order the map is listed |
| Quorum.QuorumIndexCovers | src/raft/node.cpp:764-766 | an index is at or below it exactly when n - n/2 slots have reached it |
| Quorum.CommitHasMajority | src/raft/node.cpp:757-768 | as the leader's slot stays 0, a committed index is held by n - n/2 followers, with the leader a strict majority |
| Replication.RequestTracks | src/raft/node.cpp:435-474 | a request handled when the leader's log has grown since: refused, it changes nothing and the follower still lacks or conflicts one index lower; accepted, the follower's log is the leader's up to the reported index, the end of the batch |
| Replication.RoundTracks | src/raft/node.cpp:435-474 | the same for a request handled as soon as it is built |
| Replication.AcceptedBatch | src/raft/node.cpp:448-466 | an accepted batch makes the follower's log a prefix of the leader's that ends with the batch |
| Replication.LostReplyExactly | src/raft/node.cpp:750-758 | the leader's bookkeeping of one follower survives a lost reply exactly when the request was refused or empty |
| Replication.ResendDuplicates | src/raft/node.cpp:463-465 | the resend after such a loss appends every entry of the batch a second time |
| Replication.ReportIsExactly | src/raft/node.cpp:468-474 | an accepted request reports at least the end of its batch, and exactly that when the follower lacked or conflicted at next; for a batch that reaches the end of the leader's log this is exactly when the match lies within that log |
| Replication.LongerFollowerOvershoots | src/raft/node.cpp:473-474 | an instance: a follower that extends the leader's log makes it record a match beyond its own end |
| Epoch.RunIsSound | src/raft/node.cpp:226-275 | at every point of every epoch run, with requests and replies to all followers under way at once, any request lost and any reply that is a refusal or says nothing new, match is within the leader's log, the follower agrees up to it, next is at least 1, and the follower lacks or conflicts there or has a reply under way that says where it does |
| Epoch.TickSendsAll | src/raft/node.cpp:236-265 | the requests of one tick are all built from one state, in whatever order they are sent |
| Epoch.RoundIsSound | src/raft/node.cpp:236-265 | sending, handling and replying in sequence, with any follower that has nothing under way, keeps all of that for all followers |
| Epoch.LostReplyIsSoundExactly | src/raft/node.cpp:750-758 | losing a reply keeps the whole epoch sound exactly when it is a refusal or reports nothing above what the leader expected |
| Agreement.CommitQuorum | src/raft/node.cpp:757-768 | in every epoch run whatever was committed lies in the leader's log and is held by n - n/2 followers, a strict majority with the leader, and what so many confirmed is committed |
| Accounts.StepIsExplained | src/raft/node.cpp:315-323 | every step of an epoch changes a node's namespace by exactly the entries it newly applied, or by the leader's reservation |
| Accounts.AccountTells | src/raft/state_machine.cpp:111-132 | a node's maps are those of the replayed log up to file stamps exactly when no directory was created on it after a reservation, and equal to them without uploads |
| Agreement.RunIsExplained | src/raft/node.cpp:315-323 | at every point of every epoch run each node's namespace is its starting one after the log's entries and its own reservations, in order |
| Agreement.ReplicaAgreement | src/raft/node.cpp:315-323 | in every epoch run, reservations included, what a node applied is a prefix of the leader's log; equally advanced followers have equal maps up to file stamps, leader and follower exactly when the leader created no directory after reserving; wholly equal maps without uploads, and equal next inos without reservations |
| Convergence.StepCosts | src/raft/node.cpp:750-758 | every processed reply of a follower lowers its measure (back-off, then entries remaining) until it is 0, and no other step raises it |
| Convergence.CostFalls | src/raft/node.cpp:236-265 | over any run without client appends the measure falls by the number of its replies processed |
| Convergence.FollowerConverges | src/raft/node.cpp:236-265 | after next - 1 + max(1, ceil(size / 64)) processed replies, one more if something was under way, the follower's log equals the leader's and is recorded so |
| Convergence.EverythingApplied | src/raft/node.cpp:315-323 | with one more reply of each (two, if a request was under way), every node has committed and applied the whole log; all followers' maps agree, and the leader's with them exactly when it created no directory after reserving |
| Electability.ElectableHoldsCommitExactly | src/raft/node.cpp:389-396 | once something was committed in an epoch, a node that a majority finds up to date has at least as many entries, and holds the committed ones exactly when its entry at the commit index has the leader's term |
| Electability.ElectableInRun | src/raft/node.cpp:389-396 | the same at every such point of every epoch run |
| Electability.StaleNodeIsElectable | src/raft/node.cpp:392-395 | in every five-node epoch of a described kind a run commits a whole batch while a node that holds none of it can win the next election |
| Electability.StaleStartExists | src/raft/node.cpp:392-395 | such an epoch exists, with all nodes in agreement |
| Scenarios.StaleStartIsReached | src/raft/node.cpp:351-363 | a history from a fresh cluster of five leads to it, by elections that can be won |
| Succession.FreshClusterBegins | src/raft/node.cpp:351-363 | the first election among new nodes meets everything the epoch and history theorems ask of a start |
| Succession.StartsExactlyWhenComplete | src/raft/node.cpp:351-363 | of the nodes that hold a prefix of the leader's log, exactly those holding all of it start a new epoch when elected |
| Succession.CompleteSucceeds | src/raft/node.cpp:351-363 | a node with the old leader's whole log may always succeed, with the old leader there or restarted |
| Succession.ElectableSucceedsExactly | src/raft/node.cpp:389-396 | when all that was ever applied was committed in the epoch, an electable node than which none is longer may succeed exactly when it holds the committed entries |
| Succession.ElectionIsSafe | src/raft/node.cpp:351-363 | electing a node with no longer log beside it and the right term at the highest applied index starts a sound epoch that keeps everything applied |
| Succession.ElectionIsSafeExactly | src/raft/node.cpp:351-363 | those are exactly the nodes whose election starts an epoch whose leader keeps everything applied |
| Succession.HistoryIsSafe | src/raft/node.cpp:315-323 | over every such history all books stay true and whatever was ever applied stays in every later leader's log |
| Succession.NothingAppliedIsLost | src/raft/node.cpp:315-323 | over every history of epochs, with old leaders staying or restarting from their stores, what was applied anywhere at any time is a prefix of, or extends, what is applied anywhere later; equally advanced nodes have equal maps up to file stamps when neither created a directory after a reservation of its own, and different ones when exactly one did |
| Durability.RequestKeepsBacked | src/raft/node.cpp:448-466 | a request from a leader whose bookkeeping is sound keeps the follower's store in step with its log, as far as it was saved |
| Durability.EpochIsBacked | src/raft/node.cpp:448-466 | at every point of every epoch run every node, the leader included, reads back its log up to the first gap in its store |
| Durability.SavedExactly | src/raft/node.cpp:448-466 | a follower whose store holds a part of its log, as an ex-leader's does that appended, reads back that part until a batch closes the gap or cuts below it, and from then on all |
| Durability.EpochIsDurable | src/raft/node.cpp:448-466 | a follower whose store mirrors its log when the epoch starts reads back exactly its log at every point of every run |
| Restarts.HistoryIsBacked | src/raft/node.cpp:448-466 | over every history of epochs every node reads back its log up to the first gap in its store, if restarted leaders read theirs and nothing was left above the gap |
| Durability.LeaderAppendIsNotDurable | src/raft/node.cpp:576-581 | over every epoch run the leader's store mirrors its log exactly when no request was appended, and a restart reads back the log it was elected with |
| Scenarios.TickTellsOldCommit | src/raft/node.cpp:226-275 | in a tick, all requests being sent before any reply is processed, no follower applies beyond what was committed when it began |
| Scenarios.FollowerLosesIntegrity | src/raft/state_machine.cpp:187-189 | a run of a fresh cluster of two: reserve, upload, mkdir; the leader's namespace stays integral, the follower gets a directory entry on the file's inode, and their maps disagree |
| RaftNodes.RaftNode.constructor | src/raft/node.cpp:7-22 | a node starts as follower with the stored hard state and entries, nothing committed or applied |
| RaftNodes.RaftNode.IncreaseTermTo | src/raft/node.cpp:342-349 | follower of the new term, no vote, saved; entries on disk untouched |
| RaftNodes.RaftNode.BecomeLeader | src/raft/node.cpp:351-366 | leader with the vote erased and saved, every peer's indices and every snapshot cursor reset |
| RaftNodes.RaftNode.ResetProgress | src/raft/node.cpp:359-363 | next is last index + 1 and match is 0 for every peer |
| RaftNodes.RaftNode.ElectionTimeout | src/raft/node.cpp:169-200 | a non-leader votes for itself in the next term, saves that and asks with its last index and term; alone it wins at once |
| RaftNodes.RaftNode.CountVote | src/raft/node.cpp:717-720 | one more vote, and a candidate with more than half of them becomes leader with its indices reset |
| RaftNodes.RaftNode.HandleVoteRequest | src/raft/node.cpp:368-406 | the ballot, the reply's term and the grant are those of the election model |
| RaftNodes.RaftNode.HandleVoteResponse | src/raft/node.cpp:689-722 | the ballot is that of the election model; indices are reset exactly on a win |
| RaftNodes.RaftNode.ApplyEntries | src/raft/node.cpp:315-340 | log, indices and namespace advance as in the replication model, and a leader's clients are answered as in the answer model |
| RaftNodes.RaftNode.ApplyNext | src/raft/node.cpp:318-338 | exactly the next entry is applied, with an answer on the leader and without one on a follower; every tenth one is followed by a snapshot and no other |
| RaftNodes.RaftNode.SnapshotNow | src/raft/node.cpp:324-338 | the file gets a snapshot of the current namespace with the index and term of the last applied entry, and the log's base stays 0 |
| RaftNodes.RaftNode.DropConflict | src/raft/node.cpp:450-461 | memory and disk lose the first conflicting entry and all above it, the hard state stays |
| RaftNodes.RaftNode.AppendBatch | src/raft/node.cpp:448-466 | log and store after a batch are those the durability theorems are about |
| RaftNodes.RaftNode.HandleAppendEntries | src/raft/node.cpp:408-475 | stale terms are refused unchanged; otherwise reply, log, indices, namespace, ballot and store are those of the models |
| RaftNodes.RaftNode.FollowCommit | src/raft/node.cpp:468-471 | the commit index follows the leader's as far as the log goes, and everything up to it is applied |
| RaftNodes.RaftNode.BuildRequest | src/raft/node.cpp:241-262 | the request holds the previous index and term, at most 64 entries from next on, and the commit index |
| RaftNodes.RaftNode.Heartbeat | src/raft/node.cpp:219-265 | a leader builds exactly one such request for each other member, anyone else none |
| RaftNodes.RaftNode.CommitCandidate | src/raft/node.cpp:759-766 | collecting, sorting and taking the middle gives the highest index n - n/2 slots have reached |
| RaftNodes.RaftNode.RaiseCommit | src/raft/node.cpp:759-768 | commits and applies up to that index, never lowering the commit index |
| RaftNodes.RaftNode.HandleAppendResponse | src/raft/node.cpp:724-769 | indices, commit and application are those of the epoch model; other terms and roles change nothing else |
| RaftNodes.RaftNode.RequestMkdir | src/raft/node.cpp:560-593 | a leader stamps, appends and files the request under the new index; anyone else refuses and changes nothing |
| RaftNodes.RaftNode.RequestUpload | src/raft/node.cpp:630-661 | the same for an upload, which is not stamped |
| RaftNodes.RaftNode.RequestPrepareUpload | src/raft/node.cpp:606-618 | on the leader the reservation step of the epoch model and the placed blocks, each under the reserved ino; anyone else refuses and changes nothing |
| RaftNodes.RaftNode.HandleInstallSnapshot | src/raft/node.cpp:477-525 | accumulates chunks; a complete readable buffer replaces the namespace and moves the base, an unreadable one is dropped |
| RaftNodes.StoreIgnoresHardState | src/raft/persister.cpp:18-23 | saving the hard state and storing a batch do not interfere |
| SnapshotTransfer.NextInStep | src/raft/snapshotter.cpp:93-99 | every step keeps each moved cursor equal to what its member has received |
| SnapshotTransfer.DoneMeansWhole | src/raft/node.cpp:504-512 | in every run with any failures and resets, whoever is told done holds exactly the file |
| SnapshotTransfer.TransferLength | src/raft/snapshotter.cpp:64-103 | an undisturbed transfer is done exactly after max(1, ceil(size / 4096)) chunks, whatever happens to other members |
| SnapshotTransfer.WholeExactlyWhenNoneLost | src/raft/node.cpp:504-508 | as offsets are not checked: with the first chunk received, the buffer is the file exactly when no chunk was lost; with only the first lost, exactly when the buffer held those bytes before; with less in the buffer than the first chunk, never |
| SnapshotTransfer.Snapshotter.ResetOffsets | src/raft/snapshotter.cpp:11-15 | every known member's cursor becomes 0 |
| SnapshotTransfer.Snapshotter.LoadSnapshotData | src/raft/snapshotter.cpp:64-103 | the chunk at the cursor and the advanced cursor, or on any failure the cursor back at 0 |
| BlockStore.BlockPathInjective | src/storage/node.cpp:113-122 | two blocks share a file name exactly when ino and block id are equal |
| BlockStore.StoreRefinesMap | src/storage/node.cpp:25-79 | over every run of uploads the file of a block holds what its own last upload wrote |
| BlockStore.DownloadReturnsUpload | src/storage/node.cpp:44-51 | after an acknowledged upload a download returns its bytes exactly when the write was complete |
| BlockStore.DataNode.UploadBlock | src/storage/node.cpp:25-52 | the block's file is replaced by what was written and no other changes; acknowledged unless creating or writing failed |
| BlockStore.DataNode.DownloadBlock | src/storage/node.cpp:54-79 | the bytes of that block's file, or a failure when it is missing or cannot be read |

## Left out

- Leader Completeness and commit safety across terms (sections 5.4.1 to 5.4.3 of the Raft paper): the vote comparison and the missing current-term rule do not establish them.
- Succession.NothingAppliedIsLost: takes it as a hypothesis that each new leader has the right term at the highest applied index and that no remaining log is longer; the vote comparison ensures neither, as StaleNodeIsElectable and StaleStartIsReached show. Of two nodes that both created a directory after a reservation nothing is said.
- Restarts.HistoryIsBacked: asks that a restarting leader's store holds nothing above its gap; LeftoversResurfaceExactly says what happens otherwise.
- Several requests to one follower under way at once, and epochs that start with a follower longer than the leader: the program duplicates entries or overshoots there, which is shown by lemmas, and the epoch theorems exclude both.
- Messages of one epoch that arrive in the next: an election ends what was under way.
- Log compaction and a log base other than 0 in the protocol: loading a snapshot does not trim the entries, and the snapshot handed to the log has been moved from.
- Starting from a snapshot file, `send_snapshot` and its guard, the locking of `offset_at`, `save_snapshot` and `save_snapshot_data`.
- Restarts inside an epoch; elections do cover restarts at any time.
- Equality of the time stamps of uploaded files between nodes: false of the program, since each node reads its own clock.
- Wrap-around of 64-bit indices, terms and inos; only the sum of block sizes wraps.
- The text of response messages and the echoed request fields; outcomes distinguish the checks instead.
- Coroutines, mutexes, timers, random timeouts, RPC transport and shutdown: each locked section is one step.
- RocksDB, the file system and protobuf encoding: a map, byte sequences, and decoded values with a case for what cannot be decoded.
- Users, tokens, the user interface, configuration.
- Elections.ElectionSafety: its condition is sufficient only; the exact equivalence is stated for votes in OneVoteExactly.
- RaftNodes.RaftNode.ApplyEntries: asks that the commit index lie within the log, which `get_entry` asserts.
- RaftNodes.RaftNode.HandleAppendEntries: asks that entries carry indices above the base 0, as every leader's do.
- RaftNodes.RaftNode.HandleAppendResponse: asks that reported and recorded indices lie within the log, which Epoch.RunIsSound proves of every epoch run; `get_entry` would assert otherwise.
- RaftNodes.RaftNode.Heartbeat: asks that next indices lie between 1 and the last index + 1, which Epoch.RunIsSound proves of every epoch run; the branch that sends a snapshot instead needs a base above 0.
- RaftNodes.RaftNode.constructor: covers a start without a snapshot file.
- RaftNodes.RaftNode.RequestPrepareUpload: asks for a data node when a block has to be placed, like PrepareUpload.
- SnapshotTransfer.Snapshotter.LoadSnapshotData: asks that the recorded size be the file's and the cursor lie within it, so a file replaced during a transfer is not covered.
- StateMachines.StateMachine.PrepareUpload: asks for a data node when a block has to be placed, since the program would divide by zero.
- BlockStore.DataNode.UploadBlock: two uploads of one block at the same time are not covered.
