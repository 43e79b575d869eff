# raftengine: a verified model

raftengine is a Raft library: a `Deck` holds one role object (follower, candidate or leader), a log store, and the
membership operations. This project models its hard core in Dafny and proves properties over every input, every run
or every reachable state.

## What is modelled

**The consensus core.** `Handlers.dfy` gives one function per message handler and timer of the three role classes,
with the code's own rules: `voted_for` dropped on every role change, an unsaved self-vote, a componentwise log test in
voting, `ceil(n/2)` replies to commit, a "log is junk" branch ahead of the term test, a follower commit index taken from
its own last index. `Replica.dfy` is the same node as an object with fields and loops, each method proved equal to its
function. `Cluster.dfy` puts all nodes of a fixed voter list together with the set of all messages ever sent, so loss,
delay, reordering and duplication are all covered. `Ledger.dfy`, `Network.dfy` and the `*Steps.dfy` files hold the
inductive invariant and show that every handler keeps it; `Safety.dfy` and `Progress.dfy` state the theorems.

That something happens at all is stated too, over messages and not over a node's bookkeeping. `Counting.dfy` says when a
series of replies elects a candidate and when it commits a record; `Answering.dfy` says how every vote request and every
append_entries is answered, that a yes follows the leader's commit index, and what commit index a leader tells. By
`Safety.ExactlyOnceApply` every committed command has been executed, at leaders and followers alike. With two voters half
of the list is the leader alone, so there any reply commits, a refusal included.

The theorems hold for runs that meet two hypotheses on deliveries. H1: a follower is not handed a `request_vote` below
its own term (`on_vote_request` has no term test). H2: the junk branch fires only for a message of the current term whose
first record differs in term from the follower's first record. Election safety and log matching (`Elections.dfy`) need
H1 and only a part of H2: a message of an earlier term does not empty the log of a node that holds a record of its own
term. Election safety does not hold under H1 alone: a demoted leader has no vote on file and refuses the other candidates of its term
only because of its own term-start record. Three runs show what each hypothesis is for, each with a single delivery that
breaks it: two leaders in a term without H1 (`Counterexamples.dfy`), two leaders in a term without that part of H2
(`WipeCounterexample.dfy`), and a committed record lost without the rest of H2 (`JunkCounterexample.dfy`).

**The resync conversation** (`Resync.dfy`, `ResyncRuns.dfy`): heartbeat, backdown and catch-up between the handler
functions of one leader and one follower, until the follower has the leader's log, has committed as far as the leader,
and has executed the commands in that part.

**Membership** (`Membership.dfy`, `Catchup.dfy`, `ClusterOps.dfy`, `Quorums.dfy`): the one-change-at-a-time machine, its
stored form, its relation to the log, and which vote sets must meet.

**The stores and the tiered log** (`Stores.dfy`, `StoreObjects.dfy`, `TieredLog.dfy`, `TieredProof.dfy`,
`TieredExact.dfy`, `TieredCopy.dfy`, `TieredMarks.dfy`, `HybridObjects.dfy`). A log object caches the stats row and writes it back whole; the
main process and the writer process have one SQLite object each on the same file. The model keeps the two caches apart,
because the code does, and this matters. The tiered log reads like one simple log in every careful run. What a careful
run must respect (`TieredLog.Careful`), and what `TieredExact.dfy` proves happens otherwise:

- an insert replaces a record above the application snapshot, by a different one, only if it lies above every archive
  snapshot offered and is not below the last index of the SQLite file (or of a running copy); otherwise the two processes
  can go on so that the old record is read, unless the writer is dead or its copy loop never ends. LogAPI promises
  replacement everywhere;
- an application snapshot stays within the log and goes forward; one that goes back leaves all reads right exactly when
  every record it brings back is still held by the log that the read goes to;
- a term or a vote is saved only while the main process's cached SQLite last index covers every archive snapshot offered
  and, once a copy loop is over, every record the writer can still offer, because saving writes the cached index into the
  shared file and the writer does not save again; otherwise the two processes can go on so that some record is not found
  at all. The cache is refreshed only when a snapshot is handled;
- a delete does not lie between the cached last index and the real one; otherwise the deleted record can come back in
  place of its successor. Beyond that, deletes lie above every archive snapshot offered and outside a copy, as the
  refinement is promised only for those;
- archive snapshots are installed in order; installing an older one after a newer one, which happens when a copy task
  starts before the previous offers are installed, hides the records in between.

Careful runs that come to each of these situations are given.

The copy loop, left alone, ends if and only if it has reached its limit, or the limit lies within the LMDB log as the
writer opened it and every row still to be copied is in LMDB. In reachable states two things can go wrong. A limit can
outlive a delete that cuts the log below it, since neither the delete nor its note lowers it; then the loop spins. And an
application snapshot can overtake a running copy and prune rows that have yet to be copied; then the loop spins or the
writer dies, depending on the block size. Careful runs come to all three. A writer also dies when it offers a record
pruned from SQLite, which needs an application snapshot at or beyond the first offer of the task.

The hybrid log answers with the highest commit and applied index ever marked, because the LMDB half does not lower its
marks on a delete, as the SQLite log does; the archive follows as far as it has copied.

The writer process takes no message while its copy loop runs, since nothing in the loop suspends; between the offers it
may. Main process steps may fall between any two steps of the writer.

**Smaller machines**: the message gate of `Deck.inner_on_message` (`Serializer.dfy`), snapshot transfer
(`SnapshotTransfer.dfy`) and serial numbers (`Serials.dfy`).

Where code and documentation disagree the code is followed. `get_commit_index` is documented to fall back to the
snapshot index; the stores answer the stored mark. The catch-up comment speaks of an inclusive maximum of entries; a
block holds one more than `max_entries_per_message`. A snapshot chunk is meant to hold two items and holds three.

`dafny verify dfyconfig.toml` checks the project.

## Model

| member | source | states |
|---|---|---|
| Elections.ElectionSafety | raftengine/deck/deck.py:424-488 | under H1 and the part of H2 that protects own-term records, over any two moments of any run, two leaders of one term are the same node, although role changes erase the vote and the self-vote is unsaved |
| Elections.LogMatching | raftengine/roles/follower.py:51-104 | under the same hypotheses, over any nodes and moments, logs that agree on the term at an index agree on all records up to it, across wipe, truncate-and-refuse, conflict rewrite and the aborted multi-entry case |
| Elections.NextPolls | raftengine/roles/base_role.py:91-106 | every step under those hypotheses keeps the election invariant: the ledger, ballots behind votes, and messages that are slices of the log of their term's leader |
| Elections.WipedLeaderVotesAgain | raftengine/roles/follower.py:204-224 | a demoted leader refuses every candidate of its term while it holds a record of the term, and emptied by a junk message it grants the first request that fits what is left |
| Safety.NextInv | raftengine/roles/base_role.py:91-106 | every step of every node under H1 and H2 keeps the global invariant, and the history of elections, ballots and acknowledgements only grows |
| Safety.LeaderCompleteness | raftengine/roles/leader.py:387-418 | what any node has committed at any moment is in the log of every leader of a later term |
| Safety.CommittedAgree | raftengine/roles/follower.py:124-145 | committed prefixes of any two nodes at any two moments never disagree |
| Safety.ExactlyOnceApply | raftengine/roles/leader.py:415-434 | every node, leader or follower, has executed exactly the client commands among what it has committed, in order, none twice and none skipped; what it has committed and not marked applied are term starts alone, which a leader never marks |
| Safety.StateMachineSafety | raftengine/roles/follower.py:146-161 | of the command sequences executed by any two nodes at any two moments, one is a prefix of the other |
| Safety.FollowerCommitSoundness | raftengine/roles/follower.py:78-145 | up to its commit index a node's log is that of every leader, present or later, whose term is not below its own, and that of every earlier one as far as its log went then |
| Progress.ProgressIsPermanent | raftengine/roles/follower.py:124-183 | over a run a node's term, commit and applied index never fall, executed commands only grow, committed records stay in place |
| Progress.YesIsExecuted | raftengine/roles/follower.py:95-161 | in a run under H1 and H2, whenever a node says yes to an append_entries it has then committed all that the leader says is committed, as far as its own log goes, and executed exactly the client commands among what it has committed |
| Progress.SentWithCommit | raftengine/roles/leader.py:141-184 | in every run, each append_entries carries its sender's commit index after the step that sent it |
| Counting.ElectedByReplies | raftengine/roles/candidate.py:32-89 | a node that stands sends one request with its last index and term to every other voter; after any series of replies of its term, whatever their number and repetition, it is leader if and only if at some point it and the voters whose latest reply was yes were more than half of the list |
| Counting.ProposalReaches | raftengine/roles/leader.py:99-135 | a new record goes at the end of the leader's log and, with the index and term before it and the commit index, out to every other voter under a serial of its own |
| Counting.CommittedByReplies | raftengine/roles/leader.py:387-418 | after any series of replies to the broadcast of a record its leader has committed it if and only if at some point it and the voters whose first reply was yes were at least half of the list, rounded up; its commit index is then exactly that record, and otherwise unchanged |
| Counting.FullTallyDropped | raftengine/roles/leader.py:397-405 | a tally is dropped exactly when the reply makes it complete |
| Counting.RemembersReported | raftengine/roles/leader.py:302-310 | after any series of replies a leader remembers of every follower the last index it reported, and still leads |
| Counting.GuessedTally | raftengine/roles/leader.py:186-201 | a record without a tally gets one in which the leader and exactly the voters known to reach it say yes; an existing one is left alone |
| Counting.ResentAreTallied | raftengine/roles/leader.py:203-283 | after a catch-up block every uncommitted record in it has a tally, and after a backdown the record sent if it lies below the commit index |
| Answering.VoteAnsweredExactly | raftengine/roles/follower.py:195-224 | every vote request is answered once, yes exactly when the node past the term gate is a follower without a vote and the candidate's last index and last term are both at least its own; a yes is recorded and nothing else changes |
| Answering.OneVotePerTerm | raftengine/roles/follower.py:195-224 | of any series of requests of its term a follower without a vote grants exactly the first that is up to date |
| Answering.AppendAnsweredExactly | raftengine/roles/follower.py:51-109 | every append_entries with consecutive entries is answered once, yes exactly when the node takes it and it fits, with the last index it then has; there is no answer exactly when the comparison reaches past the end of the log or past a conflict |
| Answering.YesFollowsCommit | raftengine/roles/follower.py:95-161 | whatever the node and the message, after a yes the commit and applied indexes reach the leader's commit index as far as the log goes |
| Answering.StepTells | raftengine/roles/leader.py:99-300 | every append_entries that any step sends names its sender and carries its term and commit index after the step |
| Answering.StepKeepsMarks | raftengine/roles/follower.py:226-234 | whatever is delivered, without any hypothesis, every step keeps the commit and applied indexes within the log, truncations included |
| Ledger.FirstWinner | raftengine/roles/candidate.py:79-89 | a candidate that has gathered a winning set of ballots is the first to win its term |
| Ledger.LaterLeaderHas | raftengine/roles/follower.py:204-224 | a record stored by half of the voters, rounded up, is in the log of every later elected leader, by the componentwise log test |
| ElectionSteps.TimeoutInv | raftengine/roles/candidate.py:32-50 | standing for election keeps the invariant |
| ElectionSteps.VoteRequestInv | raftengine/roles/follower.py:195-224 | granting or refusing a vote of the node's own term keeps the invariant |
| ElectionSteps.ExpireInv | raftengine/roles/base_role.py:94-99 | the term gate keeps the invariant |
| ElectionSteps.DemoteInv | raftengine/deck/deck.py:474-488 | stepping down, which forgets the vote, keeps the invariant |
| BroadcastSteps.VoteResponseInv | raftengine/roles/candidate.py:71-96 | counting a vote, winning, and the term-start broadcast keep the invariant |
| BroadcastSteps.ProposeInv | raftengine/roles/leader.py:99-135 | appending and broadcasting a record keeps the invariant |
| BroadcastSteps.HeartbeatInv | raftengine/roles/leader.py:141-184 | a heartbeat to everybody keeps the invariant |
| FollowerSteps.AppendVerdict | raftengine/roles/follower.py:51-104 | whatever the branch, a follower's new log is a merge of its old log with its leader's, refused, aborted or accepted |
| FollowerSteps.FollowerAppendInv | raftengine/roles/follower.py:36-109 | handling append_entries keeps the invariant |
| LeaderSteps.BackdownInv | raftengine/roles/leader.py:203-248 | the record chosen after a refusal is safe to send: no follower record past it can conflict unseen |
| LeaderSteps.CatchupInv | raftengine/roles/leader.py:250-300 | the block chosen after a success is safe to send |
| LeaderSteps.AppendResponseInv | raftengine/roles/leader.py:302-382 | handling a reply, counting it and resending keep the invariant |
| Blocks.BlockIsSlice | raftengine/roles/leader.py:256-283 | a catch-up block is a contiguous slice of the leader's log |
| Blocks.CatchupBlockIsFull | raftengine/roles/leader.py:256-283 | a catch-up block holds one record more than the setting, or all that is left, unless a second configuration record cuts it short |
| Blocks.BlockOneConfig | raftengine/roles/leader.py:262-283 | a catch-up block has at most one configuration record |
| Counterexamples.StaleVoteRequestElectsTwo | raftengine/roles/follower.py:195-224 | a run in which one vote request below the follower's term breaks H1, no other delivery breaks a hypothesis, and a term has two leaders |
| WipeCounterexample.StaleJunkElectsTwo | raftengine/roles/follower.py:52-54 | a run in which one junk delivery of an earlier term empties a demoted leader, no other delivery breaks a hypothesis, and a term has two leaders |
| JunkCounterexample.JunkMessageLosesCommitted | raftengine/roles/follower.py:52-54 | a run in which one junk delivery of the current term with a matching first record breaks H2, no other delivery breaks a hypothesis, and a later leader lacks a committed record |
| Replicas.Replica.DeleteLogFrom | raftengine/roles/follower.py:226-234 | deleting record by record from the end leaves exactly the prefix, with commit and applied lowered to it |
| Replicas.Replica.DropConflicting | raftengine/roles/follower.py:69-77 | the comparison loop computes the conflict scan, including its abort on a missing record |
| Replicas.Replica.AppendRecords | raftengine/roles/follower.py:88-94 | the insertion loop computes the insertion scan, including its abort past the end |
| Replicas.Replica.ApplyRange | raftengine/roles/follower.py:146-161 | the apply loop executes exactly the client commands of the range and marks every record |
| Replicas.Replica.NewLeaderCommitIndex | raftengine/roles/follower.py:124-161 | the commit and apply sweep computes its specification, for which Answering.YesFollowsCommit and Progress.YesIsExecuted say how far it gets |
| Replicas.Replica.FollowerOnAppendEntries | raftengine/roles/follower.py:36-109 | the handler computes its specification: new node state and reply |
| Replicas.Replica.OnVoteRequest | raftengine/roles/follower.py:195-224 | the handler computes its specification |
| Replicas.Replica.StartCampaign | raftengine/roles/candidate.py:32-50 | the campaign loop computes its specification: blank votes and one request per other voter |
| Replicas.Replica.Tally | raftengine/roles/candidate.py:79-82 | the tally loop counts exactly the voters that said yes |
| Replicas.Replica.OnVoteResponse | raftengine/roles/candidate.py:71-89 | the handler computes its specification, for which Counting.ElectedByReplies says when a series of replies elects |
| Replicas.Replica.Broadcast | raftengine/roles/leader.py:99-135 | the broadcast loop computes its specification: one tracked message per other voter, with the commit index that Answering.StepTells demands |
| Replicas.Replica.SendBackdown | raftengine/roles/leader.py:203-248 | the handler computes its specification |
| Replicas.Replica.CollectBlock | raftengine/roles/leader.py:256-283 | the block loop computes the specified slice |
| Replicas.Replica.SendCatchup | raftengine/roles/leader.py:250-300 | the handler computes its specification |
| Replicas.Replica.CountYes | raftengine/roles/leader.py:406-411 | the loop counts exactly the listed voters whose reply was yes |
| Replicas.Replica.ProcessReadyLogRecord | raftengine/roles/leader.py:415-434 | the leader's commit and apply loop computes its specification, which Safety.ExactlyOnceApply ties to every committed command |
| Replicas.Replica.OnAppendResponse | raftengine/roles/leader.py:302-382 | the handler computes its specification |
| Replicas.Replica.OnMessage | raftengine/roles/base_role.py:91-106 | term gate and routing by role compute the step of the distributed model |
| Resync.BackdownAnswer | raftengine/roles/follower.py:51-104 | a backdown message that fits leaves exactly the leader's records up to the one sent; a refusal leaves a prefix whose last term differs when it reaches the probed index |
| Resync.LeaderBacksDown | raftengine/roles/leader.py:203-248 | every refusal is answered by exactly one tracked message, with the record just behind the follower's last index when that is below the refused one and else the refused one, and with the leader's commit index |
| Resync.LeaderCatchesUp | raftengine/roles/leader.py:250-300 | every success short of the end is answered by exactly one non-empty slice that follows the follower's last index, with the leader's commit index |
| Resync.RoundAdvances | raftengine/roles/leader.py:336-382 | each round ends the conversation with the logs and the commit indexes in sync, or continues it with a smaller measure (prevLogIndex plus follower last while backing down, missing records while catching up) |
| Resync.ResyncConverges | raftengine/roles/leader.py:203-300 | every conversation over matching logs ends within its budget of rounds with the leader's log a prefix of the follower's, the follower's commit index at least the leader's, and the client commands of the leader's committed prefix executed |
| Resync.HeartbeatStarts | raftengine/roles/leader.py:141-184 | a heartbeat, broadcast or targeted, starts such a conversation |
| Resync.BroadcastReplyStarts | raftengine/roles/leader.py:360-382 | a reply to a broadcast record from a follower that is behind starts such a conversation exactly when nothing that would take the follower further is still under way to it |
| ResyncRuns.ReachableResync | raftengine/roles/leader.py:203-300 | from every reachable state, a leader's heartbeat to a follower of its term brings that follower's log into sync, its commit index up to the leader's, and executes the commands of the leader's committed prefix |
| Quorums.SameList | raftengine/roles/leader.py:397-413 | for every list size, replies that commit and votes that elect share a node |
| Quorums.ElectionsMeet | raftengine/roles/candidate.py:79-89 | election sets of two lists that differ by one node share a node |
| Quorums.ReplicationMeetsExactly | raftengine/roles/leader.py:397-413 | commits of a list reach every election of a neighbouring list if and only if the list has odd size |
| Quorums.EvenListSplits | raftengine/roles/leader.py:403-413 | for every list of even size and every neighbour, a commit and an election that share no node |
| Quorums.LeavingMeets | raftengine/roles/leader.py:397-413 | while the leader leaves, the ayes with the leader meet every election of the old list, and without it every election of the new one |
| Quorums.TallyElects | raftengine/roles/candidate.py:79-89 | a reply makes a candidate leader if and only if the yes votes are more than half of the list |
| Quorums.CountCommits | raftengine/roles/leader.py:397-418 | a counted reply commits the record if and only if the yes replies in the tally are at least half of the list, rounded up; Counting.CommittedByReplies says it of whole series of replies |
| Membership.OneChange | raftengine/deck/cluster_ops.py:264-469 | a change starts if and only if it is applicable; truncating it restores the configuration; committing it changes the membership by exactly that node |
| Membership.CommitExactly | raftengine/deck/cluster_ops.py:437-469 | committing in any well-formed configuration: settings always, the open change, and nothing for a node's own addition with nothing open; an addition of a node whose removal is open leaves a member still marked for removal; everything else raises |
| Membership.ReverseExactly | raftengine/deck/cluster_ops.py:397-416 | reversing in any well-formed configuration leaves nothing open and every member as it was; the pending node is a member again exactly when its removal is reversed; the outcome is well-formed unless its addition was open then |
| Membership.TruncateFollows | raftengine/roles/follower.py:226-234 | truncation with reversal leaves the configuration that the shorter log stands for |
| Membership.ConfigFollowsLog | raftengine/deck/cluster_ops.py:397-469 | over every orderly run the stored configuration is the fold of the applied changes plus the one open change |
| Membership.StoreFollowsExactly | raftengine/deck/cluster_ops.py:418-435 | storing a record keeps the configuration in step if and only if it is orderly: plain, or nothing open and its change applicable |
| Catchup.BlockOnCourse | raftengine/roles/follower.py:88-108 | a catch-up block brings a follower on course forward, and keeps it on course (configuration in step, an open change the leader's last) if and only if the change in it is applicable where it stands |
| Catchup.CatchUpOneChangeAtATime | raftengine/roles/leader.py:256-300 | if every configuration record but the last is committed at the leader, successive blocks keep the follower on course up to the leader's whole log, never starting a change while another is pending, if and only if every change still to come is applicable where it stands |
| Catchup.InvalidChainStalls | raftengine/deck/cluster_ops.py:120-130 | with a committed removal of a stranger in the leader's log, which a leader logs before testing it, the follower raises on it, never applies anything again, and raises on the next change but one |
| ClusterObjects.RoundTripExactly | raftengine/extras/sqlite_log/sqlite_log.py:293-352 | saving and loading is exact if and only if members carry no flag and the pending node carries one |
| ClusterObjects.ConfigTable.Save | raftengine/extras/sqlite_log/sqlite_log.py:293-320 | the insertion loop leaves exactly the rows of the configuration; it raises exactly when the pending node is a member, leaving the members without settings |
| ClusterObjects.ConfigTable.Load | raftengine/extras/sqlite_log/sqlite_log.py:322-352 | whatever the row order, members are the unflagged rows and the pending node is some flagged row |
| ClusterObjects.ClusterOps.GetClusterConfig | raftengine/deck/cluster_ops.py:66-86 | the stored configuration comes back exactly; an empty store is filled with the initial one |
| ClusterObjects.ClusterOps.StartNodeAdd | raftengine/deck/cluster_ops.py:322-342 | the stored configuration becomes the specified one, or the call raises and nothing changes |
| ClusterObjects.ClusterOps.FinishNodeAdd | raftengine/deck/cluster_ops.py:344-359 | the stored configuration becomes the specified one, or the call raises and nothing changes |
| ClusterObjects.ClusterOps.StartNodeRemove | raftengine/deck/cluster_ops.py:361-379 | the stored configuration becomes the specified one, or the call raises and nothing changes |
| ClusterObjects.ClusterOps.FinishNodeRemove | raftengine/deck/cluster_ops.py:381-395 | the stored configuration becomes the specified one, or the call raises and nothing changes |
| ClusterObjects.ClusterOps.ReverseConfigChange | raftengine/deck/cluster_ops.py:397-416 | the stored configuration becomes the reversed one; a node that stays after all is told so |
| ClusterObjects.ClusterOps.HandleLogUpdate | raftengine/deck/cluster_ops.py:418-435 | storing a configuration record starts its change; a settings record changes nothing yet |
| ClusterObjects.ClusterOps.HandleLogCommit | raftengine/deck/cluster_ops.py:437-469 | committing a configuration record makes its change permanent; a removed node is told to leave; a settings record raises on an empty store |
| Stores.StepRefines | raftengine/extras/sqlite_log/sqlite_log.py:151-291 | on a table that holds exactly the indexes above the snapshot up to the last, each legal call raises when the simple log raises and otherwise stores what the simple log becomes |
| Stores.CutKeepingMarks | raftengine/extras/lmdb_log/lmdb_log.py:233-253 | a delete of the LMDB log raises, keeps and drops exactly as the simple log does, and leaves the commit and applied indexes where they were |
| Stores.LegalExactly | raftengine/extras/sqlite_log/sqlite_log.py:394-410 | a call that does not raise keeps the table exact if and only if it inserts above the snapshot and does not move the snapshot back |
| Stores.ExactReads | raftengine/extras/sqlite_log/sqlite_log.py:478-489 | reads agree with the simple log for every index |
| Stores.ExactIndexes | raftengine/extras/sqlite_log/sqlite_log.py:354-370 | first index, last index and last term agree with the simple log, empty and snapshot-only cases included |
| Stores.TableRefinesSimpleLog | raftengine/api/log_api.py:106-152 | over every legal run of appends, inserts, deletes, snapshot installs and marks the table stores the simple log |
| StoreObjects.SqliteLog.Put | raftengine/extras/sqlite_log/sqlite_log.py:464-473 | insert computes the specified rows and head |
| StoreObjects.SqliteLog.DeleteAllFrom | raftengine/extras/sqlite_log/sqlite_log.py:273-291 | delete computes the specified rows and head, marks lowered |
| StoreObjects.SqliteLog.SpecialInstallSnapshot | raftengine/extras/sqlite_log/sqlite_log.py:372-392 | the unvalidated install computes the specified rows and head |
| StoreObjects.SqliteLog.GetLastTerm | raftengine/extras/sqlite_log/sqlite_log.py:494-501 | the term of the highest row, else of the snapshot, else 0 |
| StoreObjects.LmdbLog.DeleteAllFrom | raftengine/extras/lmdb_log/lmdb_log.py:233-253 | the row-by-row loop deletes exactly the rows from the index on, marks kept |
| StoreObjects.LmdbLog.DeleteBatch | raftengine/extras/lmdb_log/lmdb_log.py:394-405 | one transaction deletes at most a hundred rows, none above the snapshot, and reports zero only when none is left |
| StoreObjects.LmdbLog.InstallSnapshot | raftengine/extras/lmdb_log/lmdb_log.py:368-408 | the batches together drop exactly the rows up to the snapshot |
| StoreObjects.LmdbLog.ClearDespiteSnapshot | raftengine/extras/lmdb_log/lmdb_log.py:627-630 | the snapshot is forgotten and all rows go |
| TieredProof.CopyRange | raftengine/extras/hybrid_log/sqlite_writer.py:293-306 | a copied block leaves SQLite right strictly below its last index, whatever part of the range LMDB still has, even when it raises half way |
| TieredProof.DeleteInv | raftengine/extras/hybrid_log/hybrid_log.py:316-342 | a careful delete keeps agreement below every last index that either process believes in |
| TieredProof.InstallInv | raftengine/extras/hybrid_log/hybrid_log.py:356-373 | an application snapshot keeps the invariant, also during a copy |
| TieredProof.TakeOfferInv | raftengine/extras/hybrid_log/hybrid_log.py:497-509 | installing an archive snapshot in order keeps the invariant |
| TieredProof.PassInv | raftengine/extras/hybrid_log/sqlite_writer.py:320-346 | a turn of the copy loop keeps the invariant |
| TieredProof.OfferStepInv | raftengine/extras/hybrid_log/sqlite_writer.py:358-371 | an offered archive snapshot names a record SQLite has right |
| TieredProof.StepInv | raftengine/extras/hybrid_log/hybrid_log.py:270-373 | every careful step of either process keeps the invariant |
| TieredProof.ReadsLastInserted | raftengine/extras/hybrid_log/hybrid_log.py:307-313 | at every moment of every careful run, a read above the application snapshot returns the record last inserted at that index, and nothing past the end |
| TieredExact.TakeOfferExactly | raftengine/extras/hybrid_log/hybrid_log.py:497-509 | all reads stay right after installing an archive snapshot if and only if it is not older than the last one, or the application snapshot covers that |
| TieredExact.SaveMetaGoesWrong | raftengine/extras/hybrid_log/hybrid_log.py:215-234 | from any invariant state, a save outside the stated condition lets the two processes go on so that some record is not found |
| TieredExact.RewriteGoesWrong | raftengine/extras/hybrid_log/hybrid_log.py:270-294 | from any invariant state whose writer is alive and whose copy loop, if one runs, ends, replacing a record outside the stated condition lets the two processes go on so that the old record is read |
| TieredExact.InstallExactly | raftengine/extras/hybrid_log/hybrid_log.py:356-373 | after an application snapshot within the log all reads above it are right if and only if every record it brings back is still held where reads of it go |
| TieredExact.NewestReadExactly | raftengine/extras/hybrid_log/hybrid_log.py:308-309 | a read without an index answers with the newest record if and only if LMDB still has it, as it does unless that record is archived |
| TieredExact.StaleDeleteResurrects | raftengine/extras/hybrid_log/hybrid_log.py:320-325 | from any invariant state with no copy running, a delete between the cached and the real SQLite last index lets the two processes go on so that the deleted record is read in place of its successor |
| TieredExact.StaleDeleteReached | raftengine/extras/hybrid_log/hybrid_log.py:320-325 | a careful run reaches a state where deleting a record is such a stale delete and replacing it is careless |
| TieredExact.CarelessSaveReached | raftengine/extras/hybrid_log/hybrid_log.py:215-234 | a careful run reaches a state where a save is careless with nothing offered yet |
| TieredExact.BackwardInstallReached | raftengine/extras/hybrid_log/hybrid_log.py:356-373 | a careful run reaches a state where a snapshot that goes back brings back a record no longer held |
| TieredExact.PrunedOfferReached | raftengine/extras/hybrid_log/sqlite_writer.py:362-371 | a careful run in which an application snapshot at LMDB's first index makes the next task, offering every record, die |
| TieredExact.StrandedReached | raftengine/extras/hybrid_log/sqlite_writer.py:251-268 | a careful run in which a delete before the task begins cuts the log below the limit, which nothing lowers, so that the copy loop spins for ever |
| TieredExact.OvertakenSpins | raftengine/extras/hybrid_log/sqlite_writer.py:293-346 | a careful run in which an application snapshot overtakes the copy and the loop spins although its limit lies within the opened log |
| TieredExact.OvertakenDies | raftengine/extras/hybrid_log/sqlite_writer.py:293-306 | a careful run in which an application snapshot overtakes the copy and the writer dies before any offer |
| TieredExact.OffersReached | raftengine/extras/hybrid_log/sqlite_writer.py:362-371 | a careful run reaches two offers under way that the main process does not know of |
| TieredExact.BackwardOfferReached | raftengine/extras/hybrid_log/sqlite_writer.py:355-371 | a careful run reaches an offer older than the last one installed |
| TieredCopy.PassProgress | raftengine/extras/hybrid_log/sqlite_writer.py:320-346 | when the loop can finish, a turn raises nothing, comes closer by exactly a block, moves exactly the LMDB rows of the block and leaves the loop able to finish |
| TieredCopy.CopyLoopEndsExactly | raftengine/extras/hybrid_log/sqlite_writer.py:308-346 | left alone from any place in it, with blocks of at least one record, the loop is left if and only if it has reached its limit, or the limit lies within the opened LMDB log and every row still to be copied is there |
| TieredCopy.ReachableEndsExactly | raftengine/extras/hybrid_log/sqlite_writer.py:308-346 | in reachable states the loop ends if and only if its limit lies within the opened log and within the log itself, and no application snapshot has passed the writer's last index and cut away rows it had yet to copy |
| TieredCopy.CopyLoopEnds | raftengine/extras/hybrid_log/sqlite_writer.py:308-346 | when the loop can finish it ends with SQLite's last index at the limit |
| TieredCopy.CopyLoopNeverEnds | raftengine/extras/hybrid_log/sqlite_writer.py:320-346 | with everything the opened LMDB log knows of copied and the limit beyond it, the loop never ends |
| TieredCopy.ReachableReady | raftengine/extras/hybrid_log/sqlite_writer.py:308-319 | in reachable states a copy task that starts with its limit inside the log can finish if and only if the application snapshot lies at most at SQLite's last index, or one record beyond it that LMDB still has; all its offers can be made if the first lies beyond the application snapshot |
| TieredCopy.OffersIncrease | raftengine/extras/hybrid_log/sqlite_writer.py:362-371 | the offers of one task strictly increase and all lie strictly below SQLite's last index |
| TieredCopy.NewestStayLocal | raftengine/extras/hybrid_log/hybrid_log.py:288-291 | without deletes and application snapshots LMDB always holds the newest hold_count records |
| TieredMarks.AnswersHighestMarks | raftengine/extras/hybrid_log/hybrid_log.py:253-261 | over every run, careful or not, the hybrid log's commit and applied indexes are the highest ever marked, whatever is deleted, pruned or copied |
| TieredMarks.ArchiveMarksFollow | raftengine/extras/hybrid_log/sqlite_writer.py:251-340 | told how far the main process has committed and applied, and then of deletes, the copy task raises the archive's marks to exactly the lowest of those as far as it has copied, and never lowers them |
| HybridObjects.HybridLog.InsertRecord | raftengine/extras/hybrid_log/hybrid_log.py:270-293 | insert is the specified step, and sends a limit exactly under the pressure condition |
| HybridObjects.HybridLog.ReadRecord | raftengine/extras/hybrid_log/hybrid_log.py:307-313 | read with an index is the specified routing |
| HybridObjects.HybridLog.ReadNewest | raftengine/extras/hybrid_log/hybrid_log.py:308-309 | read without an index answers from LMDB alone |
| HybridObjects.HybridLog.DeleteAllFrom | raftengine/extras/hybrid_log/hybrid_log.py:316-342 | delete is the specified step, with its notes, pressure and raising |
| HybridObjects.HybridLog.InstallSnapshot | raftengine/extras/hybrid_log/hybrid_log.py:356-373 | install is the specified step |
| HybridObjects.HybridLog.ProcessSnapshot | raftengine/extras/hybrid_log/hybrid_log.py:497-509 | taking an archive snapshot is the specified step |
| HybridObjects.HybridLog.SaveStatsRow | raftengine/extras/hybrid_log/hybrid_log.py:215-234 | saving a term or vote rewrites the shared stats row from the main process's cache |
| HybridObjects.SqliteWriter.HandleDeletes | raftengine/extras/hybrid_log/sqlite_writer.py:251-258 | a delete note is the specified step |
| HybridObjects.SqliteWriter.CopyRows | raftengine/extras/hybrid_log/sqlite_writer.py:293-306 | the read loop and the insert loop compute the specified block copy |
| HybridObjects.SqliteWriter.CopyTurn | raftengine/extras/hybrid_log/sqlite_writer.py:320-346 | a turn of the loop is the specified step |
| HybridObjects.SqliteWriter.CopyToLimit | raftengine/extras/hybrid_log/sqlite_writer.py:320-346 | the copy loop ends at the limit and has moved exactly the LMDB rows up to it |
| HybridObjects.SqliteWriter.CopyTask | raftengine/extras/hybrid_log/sqlite_writer.py:308-371 | the whole task ends, has moved exactly the LMDB rows between the old last index and the limit, and offers one snapshot per snap_size records, increasing and strictly below SQLite's last index |
| Serializer.OneAtATimeInOrder | raftengine/deck/deck.py:128-172 | in every interleaving at most one message is inside the role, messages enter in arrival order, and no wake-up is lost |
| Serializer.ReentryNeverEnds | raftengine/deck/deck.py:486-488 | a message handed in again from inside while another one waits is never let in, however the run goes on |
| Serializer.ReentryReached | raftengine/deck/deck.py:486-488 | a run reaches that situation |
| SnapshotTransfer.Sender.Send | raftengine/roles/leader.py:615-634 | the next chunk and the moved cursor |
| SnapshotTransfer.Sender.OnResponse | raftengine/roles/leader.py:637-648 | after a success of the last chunk the follower is recorded just behind the snapshot, otherwise the next chunk goes out; a reply with nothing under way raises |
| SnapshotTransfer.Receiver.OnSnapshot | raftengine/roles/follower.py:292-308 | loads the chunk, configures once, installs on the last chunk; the state after a raise, and no effect of a chunk of another term |
| SnapshotTransfer.Transfer | dev_tools/operations.py:55-65 | for every length the exchange ends, loads every item once and in order, says done only on the last chunk, sends one chunk per three items and one more |
| SnapshotTransfer.LoadedExactly | dev_tools/operations.py:55-57 | the follower ends with the leader's totals if and only if it had no total the leader lacks |
| Serials.SerialNumberGenerator.Generate | raftengine/messages/message_codec.py:37-54 | the generator computes the specified serial and counter |
| Serials.IncreasingExactly | raftengine/messages/message_codec.py:37-54 | serials strictly increase over a run if and only if the clock never steps back and no second sees more than a million draws |

## Left out

- Pre-vote, Deck.stop and take_snapshot inside the safety theorems: each can clear the vote without advancing the term, so election safety as stated does not extend to them.
- Voter list changes inside the safety theorems: the list is fixed there; a configuration record in the core stands for a settings update. Membership changes are treated on their own, with the quorum facts they need.
- Failing or raising user commands; timers, futures, check-quorum timing and reply deadlines: timeouts are steps that may happen at any moment.
- MemoryLog: emptying it resets the term; the protocol model uses the SqliteLog rules.
- Power transfer: reduced to a timeout at the receiver; waiting for readiness is left out.
- Broadcast reply counts, message and reply counters, add_loading and note_loading_progress: bookkeeping around rounds of loading a new node, without effect on the log.
- The configuration carried by a term-start record (index 1 at a follower, and its payload) and joining a cluster: term-start commands are empty strings.
- Truncation at follower.py:63 in the configuration theorem: it does not reverse configuration records.
- Serial numbers in the core: a per-node counter; their real form is in Serials.dfy.
- Hybrid log restart, hard_push and deletes inside the archived range: they do not keep the simple-log view (clear_despite_snapshot itself is modelled, but no theorem covers it).
- The commit and applied flags that a read adds to a record, timestamps, the broken flag, uri and statistics of the stores.
- The pressure message of an insert is handed over at once, and a copied block is one step; other interleavings inside those two are not modelled.
- Stale reads of LMDB across processes, cursors, transactions, SQL and key byte order: each table is a finite map.
- JSON encoding, RPC transports, events, logging and tracing.
