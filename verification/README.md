# A verified model of the Raft core, its storage and its metadata state machine

This Dafny project models the deterministic parts of the `cross-platform-raft` library and proves what
they promise: elections, log replication with conflict backtracking, the commit rule, joint-consensus
membership, compaction, durable storage with crash recovery, and the replicated task and store registry
with its byte formats and snapshots.

`dafny verify dfyconfig.toml` checks everything.

## How it is built

Each component has a value that says what it does and, where the code updates fields in place, a class
whose methods are proved to do exactly that to their fields.

- **Raft node.** `LogModel`, `Messages` and `NodeModel` give one node as a value: every public call is a
  function from a node to a status and a node. `RaftLogs.RaftLog` and `RaftCores.RaftCore` are the
  objects, with the source's loops. The log object carries, as a ghost, the log as if nothing had ever
  been compacted.
- **Runs of one node.** `NodeRuns`, `CommitRule`, `NodeMembers` and `Outboxes` prove what holds over every
  sequence of calls with arbitrary arguments.
- **Cluster.** `Clusters` is a step relation over nodes and a network that keeps every message, so that
  delivery may be late, repeated, reordered or never. The environment counts recorded grants, the
  candidate's own vote included, and calls `BecomeLeader` on a majority; a leader is stepped down before
  an append of a higher term reaches it. `ElectionSafety`, `Lineages` and `LogMatching` prove safety over
  all runs, `Backtracking` that conflict hints lead to the end of the common prefix.
- **Commitment.** `AppendReports` says when a success response is a true report of the leader's log.
  `CommitFrames` and `CommitSafety` prove leader completeness and state-machine safety over all runs in
  which vote requests carry the candidate's last entry and leaders handle only true reports.
  `CommitConflicts` tells, call by call, a run without the second condition in which two nodes commit
  different entries.
- **What each call answers.** `Elections`, `Deliveries`, `Replications`, `Reconfigurations` and `Persistences`
  state for every call of the node, on the entries of its log and on sets of ids, exactly when it succeeds and
  what it then leaves. `Elections` also proves that some node can always win an election, and `CatchUps` that
  delivered exchanges bring a follower up to the leader's log.
- **Restarts.** `Restarts` adds crashes to the cluster: a node comes back with the hard state it had last
  confirmed as durable. It proves election safety when only durable votes count; `RestartConflicts` tells a
  run without that condition which ends with two leaders in one term.
- **Departures.** `Departures` collects the other rules of Raft the code does not keep in general, each
  with the exact condition under which it does and an example of what happens otherwise.
- **Membership.** `MembershipRules`, `ActiveMembers`, `MembershipRuns` and `MembershipCodec`.
- **Storage.** `StorageModel` is the specification of both storages. `Records`, `Checksums` and
  `SnapshotCodec` are the formats; `FileStorageModel` gives each operation's list of atomic file
  replacements; `FileRecovery` proves that the files refine the memory storage through crashes and torn
  tails; `StorageAnswers` says which operations are accepted, what they leave and what reopening gives back;
  `MemoryStorages` and `FileStorages` hold the two objects.
- **Metadata.** `Tasks`, `TaskRuns`, `Stores`, `Machines`, `MachineSnapshots` and `Replays` on values, with
  the objects in `TaskManagers`, `StoreRegistries` and `StateMachines`. `AppliedCommands` says what one applied
  entry leaves, `Restorations` what can be restored from lists and bytes that need not be exports. `Fields`, `MetadataCommands` and
  `StoreCommands` are the formats. `SnapshotRefusals` and `OversizedPolls` say exactly when a machine
  cannot be written to a snapshot and tell the runs that get there.

Numbers are unbounded; where a field's width matters (formats, generation and sequence limits) it is
written out. Byte strings stand for `std::string` and for payloads. Enums that are read from a byte
without a check are modelled as bytes.

Where code and documentation disagree the model follows the code. The success response to an append
reports the follower's last index, a leader that hears of a higher term in an append stays leader, a
node that a snapshot lists as a learner keeps its role, the snapshot writer checks neither the number of
members nor the number of records that its reader limits, and a poll whose result is too large to encode
has already assigned its tasks.

## Model

| member | source | states |
|---|---|---|
| ElectionSafety.AtMostOneLeaderPerTerm | cross-platform-raft/src/raft/raft_core.cpp:166-208 | In every run of a cluster with fixed voters, whatever is lost, repeated or reordered, at most one node ever executes `BecomeLeader` in a term |
| LogMatching.LogsMatch | cross-platform-raft/src/raft/raft_core.cpp:942-969 | In every reachable cluster state, two logs with an entry of the same index and term are identical up to it, compacted entries included |
| LogMatching.LogsShareLines | cross-platform-raft/src/raft/raft_core.cpp:737-797 | Two entries of one term, even at different indexes, put both logs on one line, and terms along any reachable log never decrease |
| LogMatching.CommitsAgreeWithSender | cross-platform-raft/src/raft/raft_core.cpp:971-980 | Every built request has `leader_commit <= prev_log_index + entries`; whatever a delivery newly commits is exactly the committed log the sender had when it built the request, even when the follower keeps a longer tail |
| CommitSafety.CommitsAgree | cross-platform-raft/src/raft/raft_core.cpp:1946-2001 | State-machine safety: in every run in which vote requests carry the candidate's last entry and leaders handle only true reports, two committed logs, of any nodes at any times, are one a prefix of the other |
| CommitSafety.CommittedIsHeld | cross-platform-raft/src/raft/raft_core.cpp:1946-2001 | In every state of such a run, whatever any node has committed is in the logs of a majority of the electorate, there and then |
| CommitSafety.LeaderCompleteness | cross-platform-raft/src/raft/raft_core.cpp:2224-2237 | In such a run, what a leader commits is in the log of every leader of a later term, whenever that one leads |
| CommitSafety.LeadersHoldChosen | cross-platform-raft/src/raft/raft_core.cpp:622-656 | A prefix that ends with an entry of its leader's term and that a majority held in that term is in the log of every later leader, whatever was reported |
| CommitSafety.LeadersKnowTruth | cross-platform-raft/src/raft/raft_core.cpp:1048-1064 | In such a run, whatever a leader records of a peer above its commit index, the peer held in the leader's term |
| CommitSafety.LeaderMayTrustIff | cross-platform-raft/src/raft/raft_core.cpp:988-989 | The log behind a success response is the leader's own, as far as it reaches, if and only if the follower's log ended with the request or with an entry of the request's term |
| AppendReports.ReportIsTrueIff | cross-platform-raft/src/raft/raft_core.cpp:988-989 | The same against the log of the term's leader in every later state of every run: an untrue report never becomes true |
| CommitConflicts.CommitsCanConflict | cross-platform-raft/src/raft/raft_core.cpp:988-989 | Without the condition on reports: a run of three nodes, with genuine elections and requests, that ends with two nodes having committed different entries at index 1 |
| CommitConflicts.CommittedWithoutQuorum | cross-platform-raft/src/raft/raft_core.cpp:1058-1073 | The same run half-way: a leader has committed an entry that neither of the other two nodes holds |
| CommitFrames.CallCounts | cross-platform-raft/src/raft/raft_core.cpp:1048-1064 | Whatever a leader counts for a peer was counted before, was just reported in its term, is its own, or is committed already; and outside append delivery only a counted majority moves the commit index |
| Lineages.MergeFollows | cross-platform-raft/src/raft/raft_core.cpp:942-969 | Truncate-then-append after a matching position leaves a log that contains the sender's, and is either the old log or exactly the sender's |
| Backtracking.RejectionNarrows | cross-platform-raft/src/raft/raft_core.cpp:902-930 | A rejection of the current probe strictly lowers `next_index` and keeps it past every index up to which the two logs agree |
| Backtracking.RejectionNarrowsIff | cross-platform-raft/src/raft/raft_core.cpp:915-919 | For logs that agree on the follower's snapshot, a rejection lowers `next_index` if and only if the probe is not below that snapshot |
| Backtracking.BelowSnapshotStalls | cross-platform-raft/src/raft/raft_core.cpp:1076-1086 | A probe below the follower's snapshot never lowers `next_index` |
| Backtracking.BacktrackingFindsCommonPrefix | cross-platform-raft/src/raft/raft_core.cpp:1076-1088 | Retrying after every rejection ends exactly one past the last index up to which the two logs agree |
| Backtracking.RoundLowersNextIndex | cross-platform-raft/src/raft/raft_core.cpp:1002-1089 | On the nodes themselves: build the probe, let the follower answer, handle the answer; the stored next index is the retry and is lower |
| Backtracking.RunStartFacts | cross-platform-raft/src/raft/raft_core.cpp:2239-2257 | The follower's hint starts a stretch of entries of the conflicting term that ends at the probe |
| Backtracking.LastIndexFacts | cross-platform-raft/src/raft/raft_core.cpp:2259-2282 | The leader's search finds its last entry of the conflicting term, at or after its snapshot, or reports that there is none |
| Backtracking.ReachableLogsComparable | cross-platform-raft/src/raft/raft_core.cpp:737-797 | Any two logs of a reachable cluster state meet the conditions of the backtracking results |
| Backtracking.RejectionKeepsOrderIff | cross-platform-raft/src/raft/raft_core.cpp:1076-1086 | A rejection, however late, keeps `next_index` above `match_index` if and only if the leader holds an entry of the conflicting term at or above the match index, or holds none of that term and the conflict index is above it; a match of zero or below the snapshot is never undercut |
| Backtracking.AgreementIsNotUndercut | cross-platform-raft/src/raft/raft_core.cpp:1076-1086 | A rejection never lowers `next_index` to what the two logs agreed on when the follower sent it |
| Backtracking.DelayedRejectionUndercuts | cross-platform-raft/src/raft/raft_core.cpp:1076-1086 | A concrete delayed rejection that lowers `next_index` to `match_index` |
| NodeRuns.RunContinues | cross-platform-raft/src/raft/raft_core.cpp:848-1000 | Over every run of arbitrary calls on one node the committed log, compacted part included, only grows by extension; the term never decreases; the stored commit index is the log's; a learner stays a learner |
| NodeRuns.OneVotePerTerm | cross-platform-raft/src/raft/raft_core.cpp:622-656 | In every run each term has at most one candidate the node ever votes for, self-votes included, although becoming a learner clears the vote |
| NodeRuns.CallContinues | cross-platform-raft/src/raft/raft_core.cpp:1296-1339 | The same as `RunContinues` for each single public call, failing calls included |
| NodeRuns.CallVotesFairly | cross-platform-raft/src/raft/raft_core.cpp:166-187 | A call that casts a vote needs a free vote or repeats it, and a call that casts none keeps the vote within a term |
| NodeRuns.MergeFacts | cross-platform-raft/src/raft/raft_log.cpp:181-203 | Truncate-then-append keeps the log valid and its committed part untouched; when it fails the log is unchanged |
| NodeRuns.AcceptFacts | cross-platform-raft/src/raft/raft_core.cpp:942-1000 | What accepting entries changes: the merged log, and the commit index raised to what the request and the log allow |
| NodeRuns.InitialNodeValid | cross-platform-raft/src/raft/raft_core.cpp:73-110 | A node initialised from valid options satisfies the node invariant |
| CommitRule.LeaderCommitRule | cross-platform-raft/src/raft/raft_core.cpp:1946-2001 | With every voter tracked, the commit index moves to the greatest uncommitted index of the current term that a majority holds (both majorities in a transition), or stays if there is none; nothing else changes |
| CommitRule.CommitFailsIff | cross-platform-raft/src/raft/raft_core.cpp:1972-1984 | The call fails if and only if a voter has no progress entry outside a transition and an uncommitted entry has the current term |
| CommitRule.FailedProposalAppendsIff | cross-platform-raft/src/raft/raft_core.cpp:210-249 | A proposal that fails has changed the leader if and only if its term is not 0 and a voter is untracked; then exactly its entry stays in the log, uncommitted |
| CommitRule.FailedChangeAppendsIff | cross-platform-raft/src/raft/raft_core.cpp:251-445 | The same for a membership proposal that got as far as its encoded entry |
| CommitRule.MatchingCounts | cross-platform-raft/src/raft/raft_core.cpp:2003-2024 | The counting loops count exactly the members of the set of supporters |
| NodeFrames.CallFrame | cross-platform-raft/src/raft/raft_core.cpp:189-208 | Under a fixed membership a role is gained only through an election, and outside append delivery a log grows only by one entry of the leader's own term |
| NodeMembers.RunTracks | cross-platform-raft/src/raft/raft_core.cpp:472-557 | Over every run whose snapshot views keep their target sets apart, the progress keys are exactly the active voters and learners, the two are disjoint and the learner flags are right |
| NodeMembers.ApplyMembershipTracks | cross-platform-raft/src/raft/raft_core.cpp:447-582 | Applying any committed membership entry keeps the progress table exact |
| NodeMembers.SnapshotTracksIff | cross-platform-raft/src/raft/raft_core.cpp:1296-1339 | After a snapshot with a membership the progress table is exact if and only if no target learner is an old voter |
| NodeMembers.InitialTracksIff | cross-platform-raft/src/raft/raft_core.cpp:2135-2162 | A node starts with an exact table if and only if its initial membership has that property |
| Outboxes.RunKeepsOnePerKind | cross-platform-raft/src/raft/raft_core.cpp:2069-2111 | Over every run the two queues together hold at most one message of each kind for each target |
| Outboxes.StageFacts | cross-platform-raft/src/raft/raft_core.cpp:2069-2111 | After staging, the new message is the only one of its kind and target, and the other kinds are untouched |
| Outboxes.ReclassifyConserves | cross-platform-raft/src/raft/raft_core.cpp:2113-2133 | A confirmation loses and duplicates no message, and whatever still waits may not be sent yet |
| Departures.StepsDownUnlessLeader | cross-platform-raft/src/raft/raft_core.cpp:874-896 | An append of a newer term makes a node stop leading if and only if it was not the leader; a leader only takes the term |
| Departures.TwoLeadersShareATerm | cross-platform-raft/src/raft/raft_core.cpp:883-896 | The heartbeat of a newer leader leaves an older leader in the role and in the newer leader's term |
| Departures.ReportIsSharedIff | cross-platform-raft/src/raft/raft_core.cpp:988-989 | The prefix a success response reports is the sender's if and only if the follower did not already hold the sender's whole log and more |
| Departures.ReachableReportIsSharedIff | cross-platform-raft/src/raft/raft_core.cpp:988-989 | The same for every append any node accepts in any run of a cluster |
| Departures.StaleTailIsReported | cross-platform-raft/src/raft/raft_core.cpp:988-989 | A concrete heartbeat whose response reports an entry the leader never had |
| Departures.SharedReportsAreTrue | cross-platform-raft/src/raft/raft_core.cpp:988-989 | What a follower answers that did not already hold the sender's whole log and more is a true report |
| Departures.GrantOvertakesIff | cross-platform-raft/src/raft/raft_core.cpp:658-667 | A grant may be sent before its vote is durable if and only if the request is of the node's own term, repeats one it granted before, and that vote is still not durable |
| Departures.GrantWaitsIff | cross-platform-raft/src/raft/raft_core.cpp:658-667 | A grant waits for the hard state if and only if the hard state it leaves differs both from the one before and from the one on disk; otherwise it is sent at once |
| Departures.RepeatedGrantOvertakes | cross-platform-raft/src/raft/raft_core.cpp:664-666 | A fresh node that gets one request twice: the first grant waits, the second is sent while the disk still has no vote |
| Restarts.AtMostOneLeaderPerTerm | cross-platform-raft/src/raft/raft_core.cpp:73-110 | In every run in which nodes may restart with the hard state last confirmed as durable, and no vote, granted or the candidate's own, counts before it is durable, at most one node ever executes `BecomeLeader` in a term |
| Restarts.OneSavedVote | cross-platform-raft/src/raft/raft_core.cpp:1341-1379 | Over such runs a disk never holds votes for two candidates of one term, not even at different times |
| RestartConflicts.TwoLeadersAfterRestart | cross-platform-raft/src/raft/raft_core.cpp:664-666 | Without that condition: a run with one restart, in which every delivered grant had been released by its voter's outbox, ends with two leaders in one term |
| Departures.AcceptanceOvertakesIff | cross-platform-raft/src/raft/raft_core.cpp:996-999 | An acceptance may be sent before the entries it reports are durable if and only if the merged log is not durable although no longer than before, and the hard state it leaves is unchanged or on disk |
| Departures.OverwriteOvertakes | cross-platform-raft/src/raft/raft_log.cpp:181-203 | A concrete entry overwritten in place is acknowledged at once while only the entry before it is durable |
| Departures.KeepsReportedIff | cross-platform-raft/src/raft/raft_core.cpp:942-969 | A call keeps the log up to an acknowledged index if and only if it does not accept a request whose first new entry is at or below that index |
| Departures.RunKeepsReported | cross-platform-raft/src/raft/raft_core.cpp:2113-2133 | So an acknowledgement that waits still reports what the log holds, as long as no call overwrites any of it |
| Departures.OutdatedAcknowledgementIsReleased | cross-platform-raft/src/raft/raft_core.cpp:2069-2133 | A concrete run in which a waiting acknowledgement is released after the entry it reports was replaced by another leader's |
| Elections.VoteGrantedIff | cross-platform-raft/src/raft/raft_core.cpp:606-667 | A vote is granted if and only if the candidate is named, the node votes, the term is not old, the candidate's last entry is not behind the log's own (a greater last term, or the same and an index at least as great) and the vote of that term is free |
| Elections.RefusalNamesObstacle | cross-platform-raft/src/raft/raft_core.cpp:606-667 | Otherwise the reason is the first obstacle: learner, stale term, outdated log, vote already given |
| Elections.VoteLeaves | cross-platform-raft/src/raft/raft_core.cpp:606-667 | Exactly a newer term, the role and leader it ends, a granted vote and the timer change, and the response is in the outbox |
| Elections.SomeNodeCanLead | cross-platform-raft/src/raft/raft_core.cpp:606-707 | Among any voting nodes one has a log behind none of the others; standing in a term none of them has reached it gets and records the vote of every one of them and becomes leader |
| Elections.ElectionAtTimeout | cross-platform-raft/src/raft/raft_core.cpp:112-140 | A follower or candidate stands at exactly the tick that reaches its timeout, in the next term, with its own vote, and changes nothing but its timers before |
| Elections.NoElectionOtherwise | cross-platform-raft/src/raft/raft_core.cpp:112-140 | Leaders and learners only count ticks |
| Elections.LeaderFacts | cross-platform-raft/src/raft/raft_core.cpp:189-208 | A new leader assumes of every other member that nothing matches and starts at the end of its log |
| Elections.FollowOutcome | cross-platform-raft/src/raft/raft_core.cpp:152-164 | Refused exactly for an older term or a learner; the vote is forgotten exactly in a newer term |
| Elections.VoteResponseOutcome | cross-platform-raft/src/raft/raft_core.cpp:669-707 | Only a candidate records a grant or rejection, only of its own term; a newer term ends any role but learner |
| Deliveries.MergeSucceedsIff | cross-platform-raft/src/raft/raft_core.cpp:942-969 | Truncate-then-append succeeds if and only if the batch is consecutive, past the snapshot, starts no later than right after the log and contradicts no committed entry |
| Deliveries.MergeLeaves | cross-platform-raft/src/raft/raft_core.cpp:942-969 | The merged log is unchanged before the batch, keeps its own entries while the terms agree, has the sender's from the first that differs, and ends with the batch unless it held all of it |
| Deliveries.MergeKeepsDurable | cross-platform-raft/src/raft/raft_log.cpp:181-203 | What counts as durable afterwards is unchanged, and ends right before the first replaced entry or where it did |
| Deliveries.AppendAcceptedIff | cross-platform-raft/src/raft/raft_core.cpp:848-1000 | Entries are accepted if and only if the node hears the sender, its log has the entry before them and they can be merged; the call fails only for a malformed request or entries it cannot merge |
| Deliveries.AppendLeaves | cross-platform-raft/src/raft/raft_core.cpp:848-1000 | Term and vote follow the request's term; leader, timer and candidacy exactly when the sender is heard; the log exactly when the entries are accepted, with the commit index raised to what the leader has committed of it |
| Deliveries.AppendAnswer | cross-platform-raft/src/raft/raft_core.cpp:848-1000 | The response in the outbox reports the length of the log, the old term, or where and with which term the logs part |
| Replications.SuccessOutcome | cross-platform-raft/src/raft/raft_core.cpp:1058-1073 | A success is taken if and only if it reports no more than the leader has, and something unless its log is empty; the match index is then the larger of old and reported, the next index the larger of old and match plus one, no other peer changes, and the commit index is the greatest committable one |
| Replications.RequestAfterSuccess | cross-platform-raft/src/raft/raft_core.cpp:1058-1073 | The request built next starts at or above what was reported, and carries no entries once the whole log was reported |
| Replications.RejectionOutcome | cross-platform-raft/src/raft/raft_core.cpp:1076-1089 | A rejection only lowers the next index of its peer, to the retry |
| Replications.OtherResponseOutcome | cross-platform-raft/src/raft/raft_core.cpp:1002-1089 | A response from a stranger is refused, an old one ignored, and a newer term is taken and ends any role but learner |
| Replications.HeartbeatBuiltIff | cross-platform-raft/src/raft/raft_core.cpp:709-735 | Exactly a leader builds one: its last entry, its commit index, no entries |
| Replications.SnapshotResponseOutcome | cross-platform-raft/src/raft/raft_core.cpp:1091-1139 | Taken if and only if it succeeded, is not beyond the leader's snapshot and the peer is tracked; it counts like a confirmed log |
| Replications.AppendBuiltIff | cross-platform-raft/src/raft/raft_core.cpp:737-797 | A leader builds one if and only if it still holds everything from the peer's next index on, and then it carries all of that; otherwise why not |
| Replications.SnapshotBuiltIff | cross-platform-raft/src/raft/raft_core.cpp:799-846 | A leader builds one if and only if the peer's next index is in its snapshot; otherwise why not |
| Replications.PeerCanBeServed | cross-platform-raft/src/raft/raft_core.cpp:1160-1179 | Of the two requests exactly one can be built for every tracked peer whose record is in range |
| Replications.RunKeepsRange | cross-platform-raft/src/raft/raft_core.cpp:1002-1143 | Over every run in which no append names the leading node as its own leader, a leader's records stay within its log |
| CatchUps.FollowerCatchesUp | cross-platform-raft/src/raft/raft_core.cpp:737-1089 | Build, deliver, answer, handle, again: after no more exchanges than the next index it began with the follower's log contains the leader's whole log, and equals it unless it was longer; the leader then knows the match exactly |
| CatchUps.AcceptedExchange | cross-platform-raft/src/raft/raft_core.cpp:737-1089 | One exchange at a matching position is enough for that |
| CatchUps.RejectedExchange | cross-platform-raft/src/raft/raft_core.cpp:737-1089 | One exchange at another position leaves both logs and lowers the next index to the retry |
| CatchUps.NothingLeftToSend | cross-platform-raft/src/raft/raft_core.cpp:737-797 | A follower known to have everything is sent an empty request |
| CatchUps.NewLeaderCanCatchUp | cross-platform-raft/src/raft/raft_core.cpp:189-208 | A new leader can do this with every member whose log agrees with its own on what is compacted or committed |
| Reconfigurations.EntryAppliesIff | cross-platform-raft/src/raft/raft_core.cpp:447-582 | An entry applies if and only if it decodes to a newer configuration or to the one in force; otherwise nothing changes |
| Reconfigurations.AppliedEntryLeaves | cross-platform-raft/src/raft/raft_core.cpp:447-582 | Voters and learners become those of the decoded configuration, and the node becomes a learner without leader, vote and timer exactly when it is no voter of it, current or target; otherwise role, leader, vote and timer stay |
| Reconfigurations.AppliedEntryCarriesProgress | cross-platform-raft/src/raft/raft_core.cpp:497-560 | Peers that stay keep their progress, new ones start at the end of the log |
| Reconfigurations.BoundaryAcceptedIff | cross-platform-raft/src/raft/raft_core.cpp:1296-1339 | Compaction is accepted if and only if the boundary is applied, not behind, of its entry's term, and the membership, if any, is valid; a bad membership is found after the log was compacted |
| Reconfigurations.BoundaryLeaves | cross-platform-raft/src/raft/raft_core.cpp:1296-1339 | The node takes the voters and learners of the snapshot and steps down exactly when it is neither; unlike after an entry, one listed as a learner keeps its role |
| Reconfigurations.BoundaryCarriesProgress | cross-platform-raft/src/raft/raft_core.cpp:1718-1781 | Peers that stay keep their progress, new ones start at the end of the log |
| Reconfigurations.ChangePossibleIff | cross-platform-raft/src/raft/raft_membership.cpp:528-772 | The four changes are refused exactly by their checks on ids and addresses: taken ids or addresses, no such learner or member, the last voter, a transition or none |
| Reconfigurations.ChangeLeadsTo | cross-platform-raft/src/raft/raft_membership.cpp:528-772 | Which members are voters, learners and targets after each change |
| Reconfigurations.ProposalOutcome | cross-platform-raft/src/raft/raft_core.cpp:210-249 | A command is taken if and only if the node leads in a term and tracks its voters; it is then the last entry, counted for the leader itself, and the greatest committable index is committed |
| Reconfigurations.MayProposeIff | cross-platform-raft/src/raft/raft_core.cpp:251-408 | What the leader checks before it drafts a change: no pending change, an active majority, a learner that is caught up; and which status each failure gives |
| Reconfigurations.ChangeOutcome | cross-platform-raft/src/raft/raft_core.cpp:251-445 | A change is taken if and only if the leader may propose it, the configuration allows it and it can be written down; the last entry then decodes to the configuration the change leads to |
| Reconfigurations.RemovedLeaderStepsDown | cross-platform-raft/src/raft/raft_core.cpp:447-583 | A leader that is removed leads through the joint configuration and steps down when the finalising entry is applied; removing another voter leaves it leading |
| Reconfigurations.InitialNodeOutcome | cross-platform-raft/src/raft/raft_core.cpp:43-110 | Term and vote are kept, nothing is committed, to be saved or to be sent, and the ids are those of the membership or of the options |
| Persistences.ConfirmationOutcome | cross-platform-raft/src/raft/raft_core.cpp:1341-1379 | A good confirmation records what is durable and releases exactly the messages that wait for nothing else; any other changes nothing |
| Persistences.FullConfirmationReleasesAll | cross-platform-raft/src/raft/raft_core.cpp:1341-1379 | Once everything is durable nothing waits |
| Persistences.AppliedOneByOne | cross-platform-raft/src/raft/raft_core.cpp:584-604 | Entries are applied one by one, in order, once committed |
| Persistences.AppendLeavesAtOnceIff | cross-platform-raft/src/raft/raft_core.cpp:737-797 | A leader's append waits unless its hard state, and its log if the append carries entries, are durable |
| Persistences.SnapshotLeavesAtOnceIff | cross-platform-raft/src/raft/raft_core.cpp:799-846 | A snapshot request waits exactly for the hard state |
| MembershipCodec.OldVersionDecodes | cross-platform-raft/src/raft/raft_membership.cpp:1047-1129 | An entry of format version 1 is read as a stable configuration, and is corrupt if it claims a transition |
| StorageAnswers.HardStateSavedIff | cross-platform-raft/src/raft/memory_raft_storage.cpp:58-80 | A hard state is saved if and only if term and commit index do not fall and the log reaches the commit index; the store then holds exactly it, the entries and the snapshot it had |
| StorageAnswers.BatchSavedIff | cross-platform-raft/src/raft/memory_raft_storage.cpp:82-113 | A batch is taken if and only if it is consecutive, starts in the log or right after it and repeats what is there; every entry is then at its index |
| StorageAnswers.SuffixCutIff | cross-platform-raft/src/raft/memory_raft_storage.cpp:115-140 | A suffix is cut if and only if it starts above the commit index and no later than right after the log |
| StorageAnswers.SnapshotSavedIff | cross-platform-raft/src/raft/memory_raft_storage.cpp:142-189 | A snapshot is taken if and only if it ends at a committed entry of its term, not before the last one; exactly the entries after it stay |
| StorageAnswers.OperationReloads | cross-platform-raft/src/raft/file_raft_storage.cpp:489-784 | Within the limits every operation of the durable storage survives: reopening gives what it left |
| StorageAnswers.HardStateReloads | cross-platform-raft/src/raft/file_raft_storage.cpp:489-508 | A saved term, vote or commit index is there after reopening, with the log and the snapshot as before |
| StorageAnswers.NodeStateIsAccepted | cross-platform-raft/src/raft/memory_raft_storage.cpp:58-80 | A storage that holds a node's hard state accepts the one it has after any further run, a new vote in the same term included, as soon as it stores the log up to the commit index |
| Tasks.CreateOutcome | cross-platform-raft/src/store/task_manager.cpp:37-88 | When a task is created, and that a new one waits without owner and result, last in line |
| Tasks.AssignOutcome | cross-platform-raft/src/store/task_manager.cpp:125-183 | A task is handed to a store if and only if it waits or that store runs it, and is then running in generation 2 |
| Tasks.CompleteOutcome | cross-platform-raft/src/store/task_manager.cpp:240-311 | A result is taken if and only if it is well-formed and the reporting store runs the task or repeats its report; the task then has exactly that state and result, in generation 3 |
| Tasks.TaskIsCarriedOut | cross-platform-raft/src/store/task_manager.cpp:37-311 | Create, assign, complete: the finished task has its request, its store and its report; the report may be repeated and any other is refused |
| Stores.RegisterOutcome | cross-platform-raft/src/store/store_registry.cpp:44-81 | A store is registered if and only if it is well-formed and neither its id nor its address is taken; it then runs in generation 1 and is found by its address |
| Stores.UpdateOutcome | cross-platform-raft/src/store/store_registry.cpp:83-141 | When an update is taken and with which status it is refused; exactly the given fields and the generation change |
| Stores.RemoveOutcome | cross-platform-raft/src/store/store_registry.cpp:172-190 | A removed store is found neither by id nor by address, its address is free, and all others are still found |
| Stores.HeartbeatOutcome | cross-platform-raft/src/store/store_registry.cpp:143-170 | Exactly the time of that store changes |
| AppliedCommands.OnlyTheNextEntry | cross-platform-raft/src/metadata/metadata_state_machine.cpp:518-556 | A readable entry that does not follow the last applied one is refused as busy and changes nothing |
| AppliedCommands.OpaqueOutcome | cross-platform-raft/src/metadata/metadata_state_machine.cpp:572-611 | An opaque command is refused exactly for a missing target or another generation than expected; otherwise the target's record has its payload, id, index, term and the next generation, and nothing else changes |
| AppliedCommands.WriteThenWrite | cross-platform-raft/src/metadata/metadata_state_machine.cpp:572-611 | A second write is taken if it expects nothing or the generation of the first; the record holds the payload of the last write taken |
| AppliedCommands.StoreCommandOutcome | cross-platform-raft/src/metadata/metadata_state_machine.cpp:613-714 | A store command succeeds if and only if the operation of its kind does and it is no poll of more than 4096 tasks; the target's record then holds the result, which decodes to what the operation returned |
| Restorations.StoresRestoredIff | cross-platform-raft/src/store/store_registry.cpp:302-333 | A list of stores is restored if and only if each is well-formed and no two share an id or an address; the registry then holds exactly them |
| Restorations.TasksRestoredIff | cross-platform-raft/src/store/task_manager.cpp:319-350 | A list of tasks is restored if and only if each is valid and below the last sequence and no two share an id; the table then holds exactly them |
| Restorations.RestoredHolds | cross-platform-raft/src/metadata/metadata_state_machine.cpp:808-1022 | Whatever bytes a snapshot has, what restores from it is consistent: good records, an exact registry, valid tasks |
| Restorations.LegacyRestores | cross-platform-raft/src/metadata/metadata_state_machine.cpp:808-1022 | A snapshot of format version 1 restores to its records without stores and tasks |
| RaftCores.RaftCore.ValidateOptions | cross-platform-raft/src/raft/raft_core.cpp:1451-1531 | Accepts exactly the valid options: non-zero, distinct ids, the node in the right set, and a membership that lists exactly the given ids |
| RaftCores.RaftCore.Initialize | cross-platform-raft/src/raft/raft_core.cpp:73-110 | The fields after initialisation; the stored commit index restarts at zero with the empty log |
| RaftCores.RaftCore.Tick | cross-platform-raft/src/raft/raft_core.cpp:112-140 | The whole new state and whether the tick started an election |
| RaftCores.RaftCore.UpdateElectionTimeout | cross-platform-raft/src/raft/raft_core.cpp:142-150 | Refuses zero, otherwise only the timeout changes |
| RaftCores.RaftCore.UpdateCurrentTerm | cross-platform-raft/src/raft/raft_core.cpp:1922-1935 | A newer term is taken and clears the vote; an older one is refused |
| RaftCores.RaftCore.BecomeFollowerForRemote | cross-platform-raft/src/raft/raft_core.cpp:1906-1920 | Takes the term and the leader; a learner stays a learner |
| RaftCores.RaftCore.BecomeFollower | cross-platform-raft/src/raft/raft_core.cpp:152-164 | Refuses an older term and a learner |
| RaftCores.RaftCore.StartElection | cross-platform-raft/src/raft/raft_core.cpp:166-187 | Raises the term by one and votes for itself; leaders and learners are refused |
| RaftCores.RaftCore.BecomeLeader | cross-platform-raft/src/raft/raft_core.cpp:189-208 | Only a candidate becomes leader; all progress is reset |
| RaftCores.RaftCore.ResetPeerProgress | cross-platform-raft/src/raft/raft_core.cpp:2135-2162 | The progress table of exactly the two id vectors, all fresh |
| RaftCores.RaftCore.SyncLocalPeerProgress | cross-platform-raft/src/raft/raft_core.cpp:2164-2180 | The node's own entry, if it has one, matches its last index |
| RaftCores.RaftCore.RetargetPeerProgress | cross-platform-raft/src/raft/raft_core.cpp:490-545 | The keep, add and erase loops leave exactly the peers of the two vectors, known ones with their progress |
| RaftCores.RaftCore.UpdatePeerProgressForMembership | cross-platform-raft/src/raft/raft_core.cpp:1718-1781 | The same after a snapshot; an empty table is reset |
| RaftCores.RaftCore.StageMessage | cross-platform-raft/src/raft/raft_core.cpp:2069-2111 | Replaces an older message of the kind and target, and waits exactly for what is not yet durable |
| RaftCores.RaftCore.ReclassifyBlockedMessages | cross-platform-raft/src/raft/raft_core.cpp:2113-2133 | Moves exactly the ready messages to the immediate queue, in order |
| RaftCores.RaftCore.ConfirmPersistence | cross-platform-raft/src/raft/raft_core.cpp:1341-1379 | Refuses an index that moves back, passes the log or exceeds the batch; otherwise records what is durable and releases messages |
| RaftCores.RaftCore.ConfirmApplied | cross-platform-raft/src/raft/raft_core.cpp:584-604 | Only the next committed index is accepted |
| RaftCores.RaftCore.IsCandidateLogUpToDate | cross-platform-raft/src/raft/raft_core.cpp:2224-2237 | Compares last terms, then last indexes; for an equal term the last index decides, for a greater one nothing else |
| RaftCores.RaftCore.HandleRequestVote | cross-platform-raft/src/raft/raft_core.cpp:606-667 | The whole new state, outbox included, and the response, for every request; when the vote is granted is `Elections.VoteGrantedIff` |
| RaftCores.RaftCore.HandleVoteResponse | cross-platform-raft/src/raft/raft_core.cpp:669-707 | The new state and the action the environment counts |
| RaftCores.RaftCore.BuildHeartbeat | cross-platform-raft/src/raft/raft_core.cpp:709-735 | An empty request at the leader's last entry |
| RaftCores.RaftCore.BuildAppendEntries | cross-platform-raft/src/raft/raft_core.cpp:737-797 | Everything after the peer's next index, staged behind its durability |
| RaftCores.RaftCore.BuildInstallSnapshot | cross-platform-raft/src/raft/raft_core.cpp:799-846 | The snapshot request for a peer that needs one, or why there is none |
| RaftCores.RaftCore.FindFirstIndexOfTerm | cross-platform-raft/src/raft/raft_core.cpp:2239-2257 | The descending loop finds the start of the stretch of equal terms |
| RaftCores.RaftCore.FindLastIndexOfTerm | cross-platform-raft/src/raft/raft_core.cpp:2259-2282 | The descending loop finds the last entry of a term, stopping where terms get smaller |
| RaftCores.RaftCore.HandleAppendEntries | cross-platform-raft/src/raft/raft_core.cpp:848-1000 | The whole new state and the response, for every request |
| RaftCores.RaftCore.MergeEntries | cross-platform-raft/src/raft/raft_core.cpp:942-969 | The find-truncate-append sequence on the log object does what the merge of log values says |
| RaftCores.RaftCore.HasJointQuorumAt | cross-platform-raft/src/raft/raft_core.cpp:2003-2024 | Whether both voter sets of a transition support an index |
| RaftCores.RaftCore.TryAdvanceCommitIndex | cross-platform-raft/src/raft/raft_core.cpp:1946-2001 | The descending search over the log object, equal to the search on values |
| RaftCores.RaftCore.ClampPeerNextIndex | cross-platform-raft/src/raft/raft_core.cpp:2284-2299 | Keeps the next index between the snapshot (or the first entry) and the append position |
| RaftCores.RaftCore.HandleAppendResponse | cross-platform-raft/src/raft/raft_core.cpp:1002-1089 | The new progress, commit index and action, for every response; what a success does to the peer is `Replications.SuccessOutcome` |
| RaftCores.RaftCore.HandleSnapshotResponse | cross-platform-raft/src/raft/raft_core.cpp:1091-1139 | The new progress, or why the response is refused |
| RaftCores.RaftCore.Propose | cross-platform-raft/src/raft/raft_core.cpp:210-249 | Appends one command of the current term and commits what it may |
| RaftCores.RaftCore.HasPendingMembershipChange | cross-platform-raft/src/raft/raft_core.cpp:2301-2316 | Whether an unapplied membership entry is in the log |
| RaftCores.RaftCore.HasCommittedVoterQuorum | cross-platform-raft/src/raft/raft_core.cpp:2318-2337 | Whether a majority of the voters is active |
| RaftCores.RaftCore.CheckProposal | cross-platform-raft/src/raft/raft_core.cpp:279-331 | Why a membership proposal is turned down before its entry is built |
| RaftCores.RaftCore.ProposeChange | cross-platform-raft/src/raft/raft_core.cpp:251-445 | The four membership proposals: checks, built entry, encoded payload, appended entry |
| RaftCores.RaftCore.ApplyMembershipEntry | cross-platform-raft/src/raft/raft_core.cpp:447-582 | The whole new state after a committed membership entry, or an unchanged one on error; who steps down is `Reconfigurations.AppliedEntryLeaves` |
| RaftCores.RaftCore.UpdateSnapshotBoundary | cross-platform-raft/src/raft/raft_core.cpp:1296-1339 | The whole new state after compaction, a membership in the snapshot included |
| RaftLogs.RaftLog.ValidateEntries | cross-platform-raft/src/raft/raft_log.cpp:358-388 | Accepts exactly contiguous batches past the snapshot boundary with positive terms |
| RaftLogs.RaftLog.ValidateInvariants | cross-platform-raft/src/raft/raft_log.cpp:390-434 | On a valid log every internal-error branch is unreachable |
| RaftLogs.RaftLog.Append | cross-platform-raft/src/raft/raft_log.cpp:27-43 | Extends the uncompacted log by the batch, or leaves it as it was |
| RaftLogs.RaftLog.GetEntry | cross-platform-raft/src/raft/raft_log.cpp:45-63 | Answers with the entry of the uncompacted log wherever the log still holds it |
| RaftLogs.RaftLog.GetTerm | cross-platform-raft/src/raft/raft_log.cpp:65-93 | Answers with the term of the uncompacted log at zero, at the snapshot and at every held entry |
| RaftLogs.RaftLog.GetEntries | cross-platform-raft/src/raft/raft_log.cpp:95-127 | Answers with the slice of the uncompacted log |
| RaftLogs.RaftLog.Matches | cross-platform-raft/src/raft/raft_log.cpp:299-307 | True exactly where the uncompacted log has that term and the log can answer |
| RaftLogs.RaftLog.FindConflict | cross-platform-raft/src/raft/raft_log.cpp:129-179 | Finds the first entry of the batch the log does not hold, or that there is none |
| RaftLogs.RaftLog.TruncateSuffix | cross-platform-raft/src/raft/raft_log.cpp:181-203 | Cuts the uncompacted log, never at or below the commit index; a failure changes nothing |
| RaftLogs.RaftLog.AdvanceStableTo | cross-platform-raft/src/raft/raft_log.cpp:205-217 | Moves forward only and within the log |
| RaftLogs.RaftLog.AdvanceCommitTo | cross-platform-raft/src/raft/raft_log.cpp:219-231 | Moves forward only and within the log |
| RaftLogs.RaftLog.AdvanceAppliedTo | cross-platform-raft/src/raft/raft_log.cpp:233-245 | Moves forward only and within the committed part |
| RaftLogs.RaftLog.UpdateSnapshotBoundary | cross-platform-raft/src/raft/raft_log.cpp:247-297 | Compaction never changes the uncompacted log, and only an applied index with the right term is accepted |
| MembershipRules.ValidateMembers | cross-platform-raft/src/raft/raft_membership.cpp:58-87 | After sorting, the adjacent check rejects exactly the lists with a repeated id or a bad member |
| MembershipRules.ShareAnId | cross-platform-raft/src/raft/raft_membership.cpp:456-473 | The two-pointer scan finds an overlap of two sorted lists if and only if there is one |
| MembershipRules.ValidateMembership | cross-platform-raft/src/raft/raft_membership.cpp:413-514 | Rejects exactly the views that are not valid, stated without sorting |
| MembershipRules.SortMembersPermutes | cross-platform-raft/src/raft/raft_membership.cpp:18-29 | Sorting permutes the members and orders them by id |
| MembershipRules.SortKeepsDistinct | cross-platform-raft/src/raft/raft_membership.cpp:58-87 | A repeated id is neither hidden nor made by sorting |
| MembershipRules.BuildEntry | cross-platform-raft/src/raft/raft_membership.cpp:528-772 | The four builders: checks, drafted change and normal form |
| MembershipRules.MembershipState.FromView | cross-platform-raft/src/raft/raft_membership.cpp:774-799 | Takes the normal form of a valid view, or changes nothing |
| MembershipRules.MembershipState.ApplyCommitted | cross-platform-raft/src/raft/raft_membership.cpp:840-893 | Refuses older and conflicting configurations without change, is idempotent for the same one, and otherwise takes the entry |
| MembershipRuns.DraftIsValid | cross-platform-raft/src/raft/raft_membership.cpp:528-772 | Whatever a builder drafts from a valid state is a valid membership, whose target learners are no old voters |
| MembershipRuns.ChangeFacts | cross-platform-raft/src/raft/raft_membership.cpp:840-893 | A built and applied change keeps validity, raises the id by one, leaves a joint state only by finalize and keeps the old voters on entry |
| MembershipRuns.ChangeNeverRefusedLater | cross-platform-raft/src/raft/raft_membership.cpp:94-134 | A change is refused by the builder's own checks or not at all |
| MembershipRuns.QuorumsMeetAcrossChange | cross-platform-raft/src/raft/raft_core.cpp:2003-2024 | Any deciding quorum of one configuration meets any deciding quorum of the next |
| MembershipRuns.ChainFacts | cross-platform-raft/src/raft/raft_membership.cpp:528-893 | Along every chain of changes: valid states, voters never empty, ids rising by one, joint states left only by finalize |
| MembershipRuns.ChainQuorumsMeet | cross-platform-raft/src/raft/raft_core.cpp:1946-2024 | The quorum intersection for every step of every chain |
| MembershipRuns.ChainDerivationsAgree | cross-platform-raft/src/raft/raft_core.cpp:2026-2067 | Along every chain the inline learner ids equal `TransitionLearnerIds` and are disjoint from the voters |
| ActiveMembers.DerivationsAgreeIff | cross-platform-raft/src/raft/raft_core.cpp:472-488 | For a valid membership the two derivations agree, and the second is disjoint from the voters, if and only if no target learner is an old voter |
| ActiveMembers.DerivationsCanDisagree | cross-platform-raft/src/raft/raft_core.cpp:2045-2067 | A valid membership for which they do not |
| ActiveMembers.TransitionVoterIds | cross-platform-raft/src/raft/raft_core.cpp:2026-2043 | The sorted ids of old and target voters |
| ActiveMembers.TransitionLearnerIds | cross-platform-raft/src/raft/raft_core.cpp:2045-2067 | The sorted ids of the learners in force, as derived after a snapshot |
| ActiveMembers.AppliedIds | cross-platform-raft/src/raft/raft_core.cpp:472-499 | The sorted ids of voters and learners, as derived when an entry is applied |
| MembershipCodec.RoundTrip | cross-platform-raft/src/raft/raft_membership.cpp:1000-1129 | Decoding an encoded valid entry returns it with voters and learners sorted and targets in their order |
| MembershipCodec.DecodedIsSettled | cross-platform-raft/src/raft/raft_membership.cpp:1047-1129 | Whatever is decoded, from any bytes, is in normal form, fits the fields of the format and survives another round trip |
| MembershipCodec.EncodeEntry | cross-platform-raft/src/raft/raft_membership.cpp:1000-1045 | The version 2 bytes of the normal form, or invalid argument for an invalid or oversized entry |
| MembershipCodec.DecodeEntry | cross-platform-raft/src/raft/raft_membership.cpp:1047-1129 | Reads versions 1 and 2, and reports truncation, trailing bytes, bad flags and invalid memberships as corruption |
| StorageModel.StepValid | cross-platform-raft/src/raft/memory_raft_storage.cpp:58-189 | Every storage operation keeps the store valid, and a refused one changes nothing |
| StorageModel.StepKeepsCommitted | cross-platform-raft/src/raft/memory_raft_storage.cpp:58-189 | No operation rewrites a committed entry; only a snapshot hides one, and then with the right term |
| StorageModel.ExtendedFacts | cross-platform-raft/src/raft/memory_raft_storage.cpp:82-113 | After an accepted batch every entry of it is at its index, the old log is a prefix, and the log ends where the longer of the two ends |
| MemoryStorages.MemoryRaftStorage.Load | cross-platform-raft/src/raft/memory_raft_storage.cpp:34-56 | Returns the state, and whether it is the initial one |
| MemoryStorages.MemoryRaftStorage.SaveHardState | cross-platform-raft/src/raft/memory_raft_storage.cpp:58-80 | Refuses a term or commit index that moves back or passes the log; which hard states are accepted is `StorageAnswers.HardStateSavedIff` |
| MemoryStorages.MemoryRaftStorage.AppendEntries | cross-platform-raft/src/raft/memory_raft_storage.cpp:82-113 | Accepts repeats of what is stored and new entries after it, nothing else |
| MemoryStorages.MemoryRaftStorage.TruncateSuffix | cross-platform-raft/src/raft/memory_raft_storage.cpp:115-140 | Cuts the log above the commit index only |
| MemoryStorages.MemoryRaftStorage.SaveSnapshot | cross-platform-raft/src/raft/memory_raft_storage.cpp:142-189 | Takes a snapshot of a committed entry with its term and drops what it covers |
| StorageChecks.ValidateEntryBatch | cross-platform-raft/src/raft/file_raft_storage.cpp:803-836 | Accepts exactly contiguous batches that start after the snapshot and at most one past the log, within the payload limit |
| StorageChecks.FirstNewEntry | cross-platform-raft/src/raft/file_raft_storage.cpp:510-552 | The overlap loop accepts exactly batches that repeat what is stored, and finds where the new part starts |
| Checksums.Compute | cross-platform-raft/src/common/checksum.cpp:14-24 | The checksum loop computes 64-bit FNV-1a |
| Checksums.ChangedByteDetected | cross-platform-raft/src/common/checksum.cpp:14-24 | Replacing any single byte of any data by another changes the checksum |
| Records.DecodeRecordsBytes | cross-platform-raft/src/raft/file_raft_storage.cpp:221-326 | Decoding encoded records returns them, in either mode |
| Records.DecodePrefix | cross-platform-raft/src/raft/file_raft_storage.cpp:221-326 | Any prefix of encoded records decodes to exactly the whole records in it, and the flag tells whether bytes are left over |
| Records.ChangedByteIsCorruption | cross-platform-raft/src/raft/file_raft_storage.cpp:221-326 | A file in which one byte of one record, outside its length field, was changed is reported as corrupt |
| Records.AppendRecord | cross-platform-raft/src/raft/file_raft_storage.cpp:113-128 | Appends header, checksum and payload |
| Records.DecodeAll | cross-platform-raft/src/raft/file_raft_storage.cpp:221-326 | The decoding loop with its moving offset |
| SnapshotCodec.DecodeEncoded | cross-platform-raft/src/raft/raft_snapshot.cpp:201-350 | Decoding an encoded snapshot gives it back without its target sets, or corruption if a member list is longer than the reader accepts |
| SnapshotCodec.RoundTripIff | cross-platform-raft/src/raft/raft_snapshot.cpp:201-350 | A snapshot survives its file if and only if its lists fit and it has no target sets |
| SnapshotCodec.ChangedByteIsCorruption | cross-platform-raft/src/raft/raft_snapshot.cpp:246-350 | A snapshot file in which any one byte was changed is reported as corrupt |
| SnapshotCodec.EncodeSnapshotData | cross-platform-raft/src/raft/raft_snapshot.cpp:201-244 | The bytes of an encodable snapshot, or invalid argument |
| SnapshotCodec.DecodeSnapshotData | cross-platform-raft/src/raft/raft_snapshot.cpp:246-350 | The snapshot in the bytes, or corruption |
| FileRecovery.SameAsMemory | cross-platform-raft/src/raft/file_raft_storage.cpp:489-637 | Within the limits every operation returns the memory storage's status and reaches its state |
| FileRecovery.RefusesMoreIff | cross-platform-raft/src/raft/file_raft_storage.cpp:803-836 | The statuses differ if and only if the memory storage accepts and the operation exceeds a format limit |
| FileRecovery.LoadRepresented | cross-platform-raft/src/raft/file_raft_storage.cpp:648-784 | Loading files that represent a store returns exactly that store and changes nothing |
| FileRecovery.CrashRepresents | cross-platform-raft/src/raft/file_raft_storage.cpp:623-632 | A crash after any number of an operation's replacements leaves files that represent the old store before the first and the new store after it |
| FileRecovery.RunRefinesMemory | cross-platform-raft/src/raft/file_raft_storage.cpp:489-784 | Over every sequence of operations within the limits, cut by crashes at any replacement and reopened, the storage returns the statuses the memory storage returns and holds what it holds, and its files load as exactly that |
| FileRecovery.NewStorageSound | cross-platform-raft/src/raft/file_raft_storage.cpp:402-455 | A new directory represents the empty store |
| FileRecovery.TornLogRecovers | cross-platform-raft/src/raft/file_raft_storage.cpp:711-783 | A log file cut anywhere loads as its whole records minus those the snapshot covers, or as corrupt if and only if a committed entry is gone; loading the repaired files gives the same result |
| FileRecovery.SnapshotReloadsIff | cross-platform-raft/src/raft/file_raft_storage.cpp:593-637 | An accepted snapshot is given back after reopening if and only if its member lists fit the decoder and it has no target sets |
| FileStorages.LoadedIsValid | cross-platform-raft/src/raft/file_raft_storage.cpp:648-784 | Whatever bytes are on disk, what loads without an error is a valid store |
| FileStorages.EncodeLogFile | cross-platform-raft/src/raft/file_raft_storage.cpp:375-387 | The bytes of all entries, record after record |
| FileStorages.EncodeHardStateFile | cross-platform-raft/src/raft/file_raft_storage.cpp:364-373 | The one record of the hard state |
| FileStorages.CollectEntries | cross-platform-raft/src/raft/file_raft_storage.cpp:648-784 | The loop over the decoded records: skips covered entries, requires the others to follow one another |
| FileStorages.FileRaftStorage.LoadFromDisk | cross-platform-raft/src/raft/file_raft_storage.cpp:648-784 | The result and the disk after loading, the tail repair before the commit check included |
| FileStorages.FileRaftStorage.Open | cross-platform-raft/src/raft/file_raft_storage.cpp:402-455 | Loads the state, or stays closed |
| FileStorages.FileRaftStorage.Load | cross-platform-raft/src/raft/file_raft_storage.cpp:457-487 | Loads again from disk when open |
| FileStorages.FileRaftStorage.SaveHardState | cross-platform-raft/src/raft/file_raft_storage.cpp:489-508 | Status, new state and the one replacement; what is accepted and reloaded is `StorageAnswers.HardStateReloads` |
| FileStorages.FileRaftStorage.AppendEntries | cross-platform-raft/src/raft/file_raft_storage.cpp:510-552 | Status, new state and the replacement, skipped when nothing is new |
| FileStorages.FileRaftStorage.TruncateSuffix | cross-platform-raft/src/raft/file_raft_storage.cpp:554-591 | Status, new state and the replacement, skipped when nothing is cut |
| FileStorages.FileRaftStorage.SaveSnapshot | cross-platform-raft/src/raft/file_raft_storage.cpp:593-637 | Status, new state and the two replacements in their order |
| Tasks.PollTakes | cross-platform-raft/src/store/task_manager.cpp:185-238 | A poll runs exactly the tasks it returns: waiting ones, as many as allowed, in ascending sequence, each changed once; whatever still waits came later |
| Tasks.CreateFacts | cross-platform-raft/src/store/task_manager.cpp:37-88 | Creation keeps the table orderly, changes no existing task, and a refused one changes nothing |
| Tasks.AssignFacts | cross-platform-raft/src/store/task_manager.cpp:125-183 | Assignment keeps the table orderly and never moves a task to another store |
| Tasks.CompleteFacts | cross-platform-raft/src/store/task_manager.cpp:240-311 | Completion keeps the table orderly and never changes a finished task |
| TaskRuns.RunOrderly | cross-platform-raft/src/store/task_manager.cpp:37-350 | Over every run a task once assigned keeps its store, a finished task never changes, generation 1, 2 and 3 mean waiting, running and finished, sequences are distinct and the next one is one more than the largest |
| TaskRuns.OneStorePerTask | cross-platform-raft/src/store/task_manager.cpp:125-238 | No run from empty ever hands one task to two stores |
| TaskRuns.RestoreExport | cross-platform-raft/src/store/task_manager.cpp:313-350 | Restoring an export gives back the identical table |
| TaskRuns.RestoreListing | cross-platform-raft/src/store/task_manager.cpp:319-350 | So does any listing of the records, in any order |
| TaskManagers.TaskManager.CreateTask | cross-platform-raft/src/store/task_manager.cpp:37-88 | Status, new table and created record |
| TaskManagers.TaskManager.GetTask | cross-platform-raft/src/store/task_manager.cpp:90-111 | The record, or why there is none |
| TaskManagers.TaskManager.AssignTask | cross-platform-raft/src/store/task_manager.cpp:125-183 | Status, new table and record |
| TaskManagers.TaskManager.AssignNextWaitingTasks | cross-platform-raft/src/store/task_manager.cpp:185-238 | Collects, sorts, copies and writes back: the poll of the table value |
| TaskManagers.TaskManager.CompleteTask | cross-platform-raft/src/store/task_manager.cpp:240-311 | Status, new table and record |
| TaskManagers.TaskManager.ExportPersistent | cross-platform-raft/src/store/task_manager.cpp:475-485 | All records in first-in-first-out order |
| TaskManagers.TaskManager.RestorePersistent | cross-platform-raft/src/store/task_manager.cpp:319-350 | The rebuilt table, or an error and no change |
| Stores.AddressKeyInjective | cross-platform-raft/src/store/store_registry.cpp:398-401 | Different addresses have different keys, whatever colons and digits the host contains |
| Stores.RegisterFacts | cross-platform-raft/src/store/store_registry.cpp:44-81 | Registration keeps the id map and the address index exact inverses |
| Stores.UpdateFacts | cross-platform-raft/src/store/store_registry.cpp:83-141 | So does an update |
| Stores.RemoveFacts | cross-platform-raft/src/store/store_registry.cpp:172-190 | So does removal |
| Stores.OneStorePerAddress | cross-platform-raft/src/store/store_registry.cpp:44-81 | No two registered stores share an address |
| Stores.LookupIsExact | cross-platform-raft/src/store/store_registry.cpp:215-242 | An address finds exactly the store registered under it; the inconsistent-index error cannot happen |
| Stores.RestoreExport | cross-platform-raft/src/store/store_registry.cpp:283-333 | Restoring an export gives back the registry without heartbeats |
| Stores.RestoredConsistent | cross-platform-raft/src/store/store_registry.cpp:302-333 | Whatever restores is consistent |
| StoreRegistries.StoreRegistry.RegisterStore | cross-platform-raft/src/store/store_registry.cpp:44-81 | Status, both maps and the registered store |
| StoreRegistries.StoreRegistry.UpdateStore | cross-platform-raft/src/store/store_registry.cpp:83-141 | Status, both maps and the updated store |
| StoreRegistries.StoreRegistry.UpdateHeartbeat | cross-platform-raft/src/store/store_registry.cpp:143-170 | Only the heartbeat changes |
| StoreRegistries.StoreRegistry.RemoveStore | cross-platform-raft/src/store/store_registry.cpp:172-190 | Removes the store and its key |
| StoreRegistries.StoreRegistry.GetStore | cross-platform-raft/src/store/store_registry.cpp:192-213 | The store, or why there is none |
| StoreRegistries.StoreRegistry.GetStoreByAddress | cross-platform-raft/src/store/store_registry.cpp:215-242 | The store of the address, never an internal error |
| StoreRegistries.StoreRegistry.ExportPersistent | cross-platform-raft/src/store/store_registry.cpp:283-300 | All stores by ascending id, without heartbeats |
| StoreRegistries.StoreRegistry.RestorePersistent | cross-platform-raft/src/store/store_registry.cpp:302-333 | The rebuilt maps, or an error and no change |
| MetadataCommands.RoundTrip | cross-platform-raft/src/metadata/metadata_command.cpp:600-755 | Decoding the encoding of a valid command returns the command |
| MetadataCommands.EncodeDecoded | cross-platform-raft/src/metadata/metadata_command.cpp:644-755 | Encoding whatever was decoded returns the same bytes |
| MetadataCommands.OnlyTheEncodingDecodes | cross-platform-raft/src/metadata/metadata_command.cpp:644-755 | Every strict prefix and every extension of an encoding is rejected |
| MetadataCommands.EncodeMetadataCommand | cross-platform-raft/src/metadata/metadata_command.cpp:600-642 | The bytes of a valid command, or invalid argument |
| MetadataCommands.DecodeMetadataCommand | cross-platform-raft/src/metadata/metadata_command.cpp:644-755 | The command in the bytes, or why there is none |
| StoreCommands.DecodeEncoded | cross-platform-raft/src/metadata/metadata_command.cpp:757-983 | Decoding an encoded store command gives its normal form, or corruption when the normal form lost a required field |
| StoreCommands.RoundTripIff | cross-platform-raft/src/metadata/metadata_command.cpp:757-983 | A store command survives if and only if no optional field holds the value that means absence and its store has no heartbeat |
| StoreCommands.ResultRoundTrip | cross-platform-raft/src/metadata/metadata_command.cpp:985-1086 | A store result decodes to itself, without the heartbeat of its store |
| StoreCommands.EncodeStoreBusinessCommand | cross-platform-raft/src/metadata/metadata_command.cpp:757-821 | The bytes of a valid command that fits, or invalid argument |
| StoreCommands.DecodeStoreBusinessCommand | cross-platform-raft/src/metadata/metadata_command.cpp:823-983 | The command in the bytes, or corruption |
| StoreCommands.EncodeStoreBusinessResult | cross-platform-raft/src/metadata/metadata_command.cpp:985-1018 | The bytes of a result of at most 4096 tasks, or invalid argument |
| Fields.TakePutAll | cross-platform-raft/src/metadata/metadata_command.cpp:156-286 | Reading written fields returns them and what follows |
| Fields.PutTakeAll | cross-platform-raft/src/metadata/metadata_command.cpp:156-286 | Writing what was read gives back the bytes that were read |
| Fields.AppendBE | cross-platform-raft/src/metadata/metadata_command.cpp:113-134 | The shift-and-push loops write big-endian numbers |
| Fields.Decoder.ReadNumber | cross-platform-raft/src/metadata/metadata_command.cpp:164-231 | Reads a big-endian number and moves past it, or reports truncation without moving |
| Fields.Decoder.ReadData | cross-platform-raft/src/metadata/metadata_command.cpp:233-276 | Reads that many bytes and moves past them, or refuses by limit or truncation without moving |
| Replays.SnapshotAndSuffix | cross-platform-raft/src/metadata/metadata_state_machine.cpp:518-1022 | For every log prefix after which a snapshot of at most 4096 records is written and every suffix: restoring it in a new machine and applying the suffix returns the same statuses and reaches the same machine, heartbeats aside, wherever heartbeats fall |
| Replays.SameEntriesSameOutcome | cross-platform-raft/src/metadata/metadata_state_machine.cpp:1073-1079 | Machines that differ in heartbeats only, given the same entries with heartbeats interleaved anywhere, return the same statuses and still differ in heartbeats only |
| Replays.FailedApplyChangesIff | cross-platform-raft/src/metadata/metadata_state_machine.cpp:661-694 | A failed entry leaves the machine unchanged, unless it is a poll that would take more than 4096 tasks: then, and only then, the tasks have been assigned |
| Replays.ReachedInRange | cross-platform-raft/src/metadata/metadata_state_machine.cpp:572-611 | Over every run generations and progress stay within their 64-bit fields |
| Replays.RejectedEntryBlocks | cross-platform-raft/src/metadata/metadata_state_machine.cpp:531-570 | After an entry that fails, every later entry of the log fails and changes nothing |
| OversizedPolls.TooManyTasksAreTaken | cross-platform-raft/src/metadata/metadata_state_machine.cpp:661-694 | A run that creates 4097 tasks and an entry that polls for all of them: it fails, and the tasks are assigned |
| Machines.ApplySound | cross-platform-raft/src/metadata/metadata_state_machine.cpp:518-570 | Applying any bytes keeps the registry consistent, the task table orderly, the records keyed and the progress paired |
| Machines.ApplyForgets | cross-platform-raft/src/metadata/metadata_state_machine.cpp:613-714 | Applying an entry does the same with and without heartbeats |
| MachineSnapshots.RestoreCreated | cross-platform-raft/src/metadata/metadata_state_machine.cpp:716-1022 | Restoring a written snapshot gives back the machine without heartbeats, or corruption when it has more than 4096 records |
| MachineSnapshots.RestorableIff | cross-platform-raft/src/metadata/metadata_state_machine.cpp:716-1022 | A written snapshot can be restored if and only if the machine has at most 4096 records: the writer does not check their number |
| MachineSnapshots.CreatedIff | cross-platform-raft/src/metadata/metadata_state_machine.cpp:716-806 | A reachable machine's snapshot is refused only for a bad record or for the number of stores or tasks |
| SnapshotRefusals.SnapshotRefusedIff | cross-platform-raft/src/metadata/metadata_state_machine.cpp:716-806 | After any run whose terms never decrease, the snapshot is refused if and only if a record's payload exceeds 4 MiB or there are more than 4096 stores or tasks |
| SnapshotRefusals.OnlyResultsOverflow | cross-platform-raft/src/metadata/metadata_state_machine.cpp:572-611 | Only the recorded result of a store command can be that large |
| OversizedPolls.LargeResultBlocksSnapshots | cross-platform-raft/src/metadata/metadata_state_machine.cpp:661-694 | A run of three entries, two tasks and one poll for both, after which no snapshot can be written |
| SnapshotRefusals.TooManyRecordsAreWritten | cross-platform-raft/src/metadata/metadata_state_machine.cpp:716-806 | A run of 4097 commands whose snapshot is written and cannot be read back |
| StateMachines.MetadataStateMachine.Apply | cross-platform-raft/src/metadata/metadata_state_machine.cpp:518-570 | Status and the whole new state |
| StateMachines.MetadataStateMachine.ApplyOpaqueCommand | cross-platform-raft/src/metadata/metadata_state_machine.cpp:572-611 | Status and the new record, with the generation check; the record field by field is `AppliedCommands.OpaqueOutcome` |
| StateMachines.MetadataStateMachine.ApplyStoreCommand | cross-platform-raft/src/metadata/metadata_state_machine.cpp:613-714 | Status, registry, tasks and record, in the order in which the code changes them |
| StateMachines.MetadataStateMachine.PerformCommand | cross-platform-raft/src/metadata/metadata_state_machine.cpp:626-685 | The switch over the six kinds of store commands |
| StateMachines.MetadataStateMachine.UpdateStoreHeartbeat | cross-platform-raft/src/metadata/metadata_state_machine.cpp:1073-1079 | Only the heartbeat of one store changes |
| StateMachines.MetadataStateMachine.CreateSnapshot | cross-platform-raft/src/metadata/metadata_state_machine.cpp:716-806 | The snapshot bytes, or why there are none |
| StateMachines.MetadataStateMachine.RestoreSnapshot | cross-platform-raft/src/metadata/metadata_state_machine.cpp:808-1022 | The restored state, or an error and no change |
| StateMachines.ReadSnapshot | cross-platform-raft/src/metadata/metadata_state_machine.cpp:808-990 | Decodes a snapshot without touching any state |
| Codec.TakePutLE | cross-platform-raft/src/raft/file_raft_storage.cpp:40-96 | Reading a written little-endian number returns it and what follows |
| Codec.AppendLE | cross-platform-raft/src/raft/file_raft_storage.cpp:40-54 | The shift-and-push loops write little-endian numbers |
| Codec.ReadLE | cross-platform-raft/src/raft/file_raft_storage.cpp:56-96 | The reading loop moves past the number, or reports truncation |

## Left out

- gRPC services, transport, command line tools, configuration, logging and process control: input and output around the core.
- `RaftRuntime` and `MetadataService`: threads, queues and timeouts.
- Failures of file operations: every replacement succeeds or a crash stops the operation; `AtomicReplace` is one step.
- 64-bit wrap-around of terms, indexes, ticks and record generations: the numbers are unbounded in the model, and the formats are proved for values that fit their fields.
- Null output pointers, uninitialised objects, mutexes and message texts.
- Read-only getters of the node (`GetOutput`, `GetLearnerState` beyond its use in a promotion, `GetPeerProgress`), `ListTasks`, `ListStores`, `ListRunningStores`, `GetRecord`: they copy fields.
- `MembershipState::Bootstrap`: a few checks around `FromView`.
- CommitSafety.CommitsAgree: the runs are those in which vote requests carry the candidate's last entry, which the core neither builds nor checks, and leaders handle only true reports. Without the latter it can fail, see `CommitConflicts.CommitsCanConflict`. For a single report the condition is exact; for a run it is sufficient only, because an untrue report may do no harm.
- Durable before sent, as a rule without exception: it does not hold of this code, see `Departures.GrantOvertakesIff` and `Departures.AcceptanceOvertakesIff` for exactly when it does.
- Membership changes and snapshot installation in the cluster model: its electorate is fixed; membership changes are covered for single nodes and chains of configurations.
- Restarts in the results about logs and commits: there a node keeps its memory. `Restarts` covers elections only, whatever log the storage gives back.
- LogMatching.LogsMatch: the runs start from empty logs, as `Initialize` leaves them.
- Liveness: nothing is claimed about timers firing or messages arriving; `Elections.SomeNodeCanLead` and `CatchUps.FollowerCatchesUp` are about messages that are delivered.
- Checksum collisions beyond one changed byte, and one changed byte in a record's length field, which may make the rest of a log look torn.
- Runs of a task table restored from records that are no export: a restored waiting task may carry a result; `Restorations.TasksRestoredIff` says what is accepted, the run results are about tables that grew from empty.
- TaskRuns.RunOrderly: the sequence limit is modelled, but no run reaches it within the claims about it.
- `BoundedQueue` and `SimplePlacementPolicy`: they would only add easy members.
- Composition of membership entries with the metadata machine: the server does not pass them on, so replay is about command entries.
