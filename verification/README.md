# A verified model of the PBFT engine

The repository is a Byzantine-fault-tolerant consensus engine of the Istanbul shape. Each validator
runs one event loop; for every block height ("sequence") the validators go through numbered rounds,
and in each round a proposer's PRE-PREPARE is answered by PREPAREs and COMMITs until a threshold of
them is collected and the block is handed to the backend. This project models that node, clusters of
it, and the algorithms around it, and proves what they guarantee.

## How the files fit together

- `Protocol.dfy` has the data: views, phases, blocks, messages, and the test that decides whether a
  message is early, outdated or acceptable. `Quorum.dfy` has the threshold arithmetic.
- `NodeSpec.dfy` is the node as a value and one function per handler; `Step` is one turn of the event
  loop. `Core.dfy`, `RoundState.dfy` and `MessageSets.dfy` are the node as the engine runs it: objects
  whose methods assign fields, each proved to do to the object's value exactly what the function says,
  with the same message sent and the same call of the backend.
- `Responses.dfy` says what a node does in answer to every event without naming a handler: when it sends
  each kind of message, calls the backend, asks for a round, begins one or moves to another sequence,
  and which error it answers with, each as an equivalence.
- `NodeLaws.dfy` proves the invariant of one node, `NodeMoves.dfy` reduces every step to one of twelve
  flat moves, and `NodeRuns.dfy` proves laws of whole runs of a node.
- `Cluster.dfy` is the transition system: honest nodes take steps, anybody else injects arbitrary
  messages under names that are not honest, and the set of sent messages only grows, so a message may
  be delivered late, repeatedly, in any order or never. `Agreement.dfy`, `RoundBounds.dfy` and
  `Validity.dfy` prove the safety theorems over its reachable states.
- `Scenes.dfy` builds runs within one round: how a group of nodes accepts, votes and commits.
  `Progress.dfy` brings nodes from any rounds, locks and round changes together in one round and proves
  that a commit is always still possible; `LockRuns.dfy` does what can be done without a timeout.
  `Proposers.dfy` shows that honest nodes of one view have one proposer. With the runs `Exactness.dfy` shows that the conditions of
  agreement are exact, for every size of the validator set, and `Limits.dfy` that the bound on rounds is.
- `EventLoop.dfy` puts the node and the backlog together: what becomes of early messages.
- `Backlog.dfy`, `ManagerVotes.dfy`, `Seals.dfy`, `Snapshots.dfy`, `ValidatorSet.dfy`, `Ordering.dfy`
  and `Selector.dfy` are the supporting algorithms.

## What is assumed

- A message attributed to an honest validator was sent by it. The signature callback of the engine
  (core/pbft.go:309-311) returns an empty signer and no error, so this is an assumption on the
  environment and not something the engine checks.
- The validators of a sequence are a function of the sequence; the agreement theorems also take them
  as distinct and non-empty. How many may be faulty is a hypothesis of each theorem; f = ceil(n/3) - 1
  stands for the tolerance the engine computes.
- What the backend answers during a step (`LastProposal`, `Validators`, `Verify`, `Commit`,
  `HasProposal`, the proposer of an old block) is a parameter of the step, the `Oracle`, and is
  arbitrary; only `LastProposal` is fixed within a step. Signing and encoding do not fail.
- The hash of a block is not the zero hash, because the engine uses zero for "unlocked".
- Heights fit 63 bits. Rounds are unbounded as in the source (`big.Int`); where the source narrows
  them to 64 bits, the model does too. Nodes do not stop and restart.
- `reflect.DeepEqual` on two subjects is equality of their sequences, rounds and digests.

## Where the code falls short of what it is for

- Agreement across rounds is not unconditional: a timeout gives up the lock (core/pbft.go:252-255).
  `AgreementExactly` says what remains: the backends of honest nodes take one block at a height if and
  only if the validators that are faulty or drop a lock there are fewer than two quorums share, or a
  single honest node keeps its locks. `TwoDroppersOfFour` and `DroppedLockBreaksAgreement` are instances
  in which nobody is faulty.
- The threshold is 2f+1 (or n when f = 0) and not a function of n that fits every size. With f faults
  honest nodes agree in all runs without dropped locks if and only if n <= 3 or n mod 3 = 1
  (`SafeSizesExactly`); five validators with one faulty, or six with none, can commit two blocks in one
  view.
- An honest proposer sends a PRE-PREPARE for every request it gets while it accepts requests, so two
  requests make it propose two blocks in one view (`TwoRequestsTwoProposals`), and a locked proposer
  proposes another block than its lock exactly on such a request (`LockedProposesOtherExactly`).
- Round changes are grouped by the low 64 bits of the round. Rounds are never skipped by the cluster as
  long as nobody asks for a round above 2^64, and for no greater bound (`RoundsAreNotSkippedExactly`):
  in `WideRoundSkipsRounds` one faulty message about round 2^64 + 1 completes the group of round 1.
- MaxRound reads a 64-bit key as an int64, so a round of 2^63 or more that enough validators ask for is
  not the maximum it should be (`MaxRoundIsGreatestExactly`, with `LargeRoundIsMisread` as an instance).
- The backlog's numeric key orders messages properly for rounds up to 99 and keys up to 2^24, the
  integers a float32 holds exactly. `EarlyStopIsExactIff` gives the exact condition on a queue;
  `FloatTieStrandsRoundChange` (at sequence 16778) and `WideRoundStrandsPrePrepare` (round 100) are
  queues that miss it.
- Proposer rotation is fair in a window of n rounds except when the uint64 seed wraps inside it and n
  does not divide 2^64 (`RotationIsFairExactly`); `RotationWraps` is the case of three validators.
- `applyMVotes` counts the votes of any address, whatever its standing (manange.go:102-156), and keeps
  the votes of a removed manager on other candidates. A change of managers is backed by a majority of
  managers when everybody is a manager when voting and nobody is removed while a vote of theirs stands
  (`BackersAreManagers`; `BackersAreManagersExactly` gives the condition on one state);
  `OutsiderAdmitsItself` and `RemovedManagerStillCounts` show that neither
  condition can be dropped.
- A snapshot request whose height is not that of its hash is answered from the cache, from a stored
  checkpoint or with the genesis snapshot (`MismatchIsAnsweredExactly`, with `MismatchIsAnswered` as an
  instance); the answer is then not stamped as asked.

## Model

| member | source | states |
|---|---|---|
| Agreement.AgreementAcrossRounds | core/commit.go:45-95 | In every reachable state, if the distinct validators that are faulty, dropped a lock at the sequence or sent an old-block reply about it are fewer than two quorums share, any two calls of the backend's Commit by honest nodes at the sequence, taken or refused, are for one digest, whatever their rounds |
| Agreement.AgreementInView | core/prepare.go:28-64 | Timeouts and unlocking allowed, and only faulty and replying validators counted against the bound: two quorums of matching PREPAREs and COMMITs in one view name one digest |
| Agreement.CommitBindsLaterQuorums | core/pre_prepare.go:85-105 | Under the bound of AgreementAcrossRounds a digest with a quorum of COMMITs in one round is the digest of every PREPARE/COMMIT quorum of that and all later rounds of the sequence |
| Agreement.DecisionsInViewAgree | core/commit.go:79-95 | Two calls of Commit by honest nodes in one view are for one digest even when locks were dropped |
| Agreement.CleanMeansTrusted | core/utils.go:85-95 | With n <= 3 or n mod 3 = 1, at most f faults, no lock dropped and no old-block reply at the sequence, the bound of the agreement theorems holds |
| Exactness.AgreementExactly | core/commit.go:45-95 | For every cluster, sequence and set of honest droppers: the backends of honest nodes take one block in all runs in which only those drop a lock and nobody replies to old blocks, if and only if faulty validators and droppers are fewer than two quorums share, or at most one node is honest and it keeps its locks |
| Exactness.AgreementInViewsExactly | core/prepare.go:28-64 | The backends of honest nodes take one block in each view in all runs without old-block replies, whatever locks are dropped, if and only if the faulty validators are fewer than two quorums share or at most one node is honest |
| Exactness.SafeSizesExactly | core/utils.go:85-95 | Clean runs with at most f faults agree for all clusters of n validators if and only if n <= 3 or n mod 3 = 1 |
| Exactness.TwoDroppersOfFour | core/pbft.go:252-255 | Of four validators, none faulty, any two that time out can undo agreement |
| Exactness.TwoCommits | core/pre_prepare.go:85-105 | A run in which two groups, each completed to a quorum by faulty validators, commit two blocks one after the other, locks being dropped only by nodes of both groups |
| Exactness.TwoCommitsInView | core/pre_prepare.go:37-108 | A run in which two disjoint groups commit two blocks in one view |
| Scenes.GroupCommits | core/commit.go:67-95 | Once a block is proposed and faulty validators of a quorum have sent their votes, a group of ready nodes completing the quorum has a run in which all of it votes and a given one of its nodes commits, moving no other node |
| Progress.SomeRunCommits | core/pbft.go:251-276 | From every reachable state in which honest validators that make up a quorum stand at one sequence and follow one policy, some run leads to a commit there, at any of them, of any block and for any last proposer, whatever rounds, locks and round changes they hold |
| Progress.CampCommits | core/round.go:142-219 | The same for a group that is a quorum only with faulty validators beside it: no other node moves, and only nodes of the group that were locked drop a lock |
| LockRuns.LockedQuorumCommits | core/pre_prepare.go:85-93 | Locked nodes that make up a quorum, with faulty validators that have committed, commit their block once it is proposed in a round they have begun: no PREPARE, no lock dropped |
| LockRuns.GroupFollows | core/round.go:205-211 | Waiting nodes below a round that f+1 validators have asked for, and that at most f of them have told the node of, have a run into it on messages alone: no timeout, no lock dropped |
| Scenes.Commits | core/commit.go:68-73 | A node past its PRE-PREPARE commits on the COMMITs of a quorum alone, prepared or not |
| Progress.SomeRoundProposedBy | validator/selector.go:9-50 | For every policy and last proposer each validator proposes in some round from any round on |
| Validity.CommitsWereVerified | core/pre_prepare.go:68-105 | Over every run and for any number of faults, whatever an honest node commits it accepted in that view, from a PRE-PREPARE of the view's proposer that its own backend verified |
| Validity.OneBlockTaken | core/commit.go:79-95 | For any number of faults, the backend of one honest node takes at most one block in a view, and at most one at a sequence at which the node dropped no lock |
| Agreement.LocksComeFromQuorums | core/roundstate.go:119-135 | Whenever an honest node is locked, a quorum of sent PREPAREs/COMMITs for the lock exists in a round of its sequence not above its own |
| Agreement.HonestSealsAreGenuine | core/broadcast.go:38-45 | The COMMITs of an honest node that sent no old-block reply at the sequence carry its seal over exactly their digest |
| Agreement.ReachableIsGrounded | core/commit.go:67-73 | In every reachable state all node invariants hold, what nodes store was sent, every commit has a quorum of sent COMMITs, and every lock a quorum of sent support |
| Agreement.StepDecidesWithQuorum | core/commit.go:98-101 | The backend's Commit is called only with a threshold of sent COMMITs for the block in that view |
| Cluster.NextKeepsSound | core/pbft.go:169-219 | Each action of an honest node or an adversary keeps, for every honest node: one digest supported per view, COMMITs still locked on, later support bound to the committed digest, ROUND CHANGEs only for entered views |
| Cluster.ActKeepsActor | core/pbft.go:223-248 | The node that takes a step stays sound, its validators those of its sequence and its history extended consistently |
| Cluster.RightStepKeepsBinding | core/pre_prepare.go:86-98 | After a COMMIT, a step without a dropped lock supports only the committed digest in later rounds of the sequence |
| RoundBounds.JumpsOnlyToEnteredRounds | core/round.go:180-219 | With at most f faults and no request for a round above 2^64, an honest node moves up by more than one round only into a round an honest node already entered |
| RoundBounds.NewRoundIsNext | core/pbft.go:260-275 | Then no action skips: a round entered for the first time by an honest node has its predecessor already entered |
| RoundBounds.RoundsHaveNoGap | core/round.go:142-177 | The rounds honest nodes have entered at a sequence have no gap |
| RoundBounds.HighestRoundRisesByOne | core/round.go:142-219 | One step of the cluster raises the highest honest round of a sequence by at most one |
| RoundBounds.StepJump | core/round.go:200-211 | A jump of more than one round at one node was asked for by more than f distinct validators |
| RoundBounds.MaxRoundIsGreatestExactly | core/round.go:273-288 | MaxRound is the greatest round asked for by at least k distinct validators, or none if there is no such round, if and only if every round asked for by that many is below 2^63 |
| RoundBounds.StepKeepsKeysCurrent | core/round.go:87-95 | Every step keeps all stored round-change keys at or above the current round, for rounds below 2^64 |
| RoundBounds.RunKeepsKeysCurrent | core/round.go:245-270 | Over every run whose rounds are below 2^64, each stored round change is a member's, of the current sequence, under its own key, and not below the current round |
| NodeLaws.StepKeepsInv | core/roundstate.go:119-155 | Every step keeps lock coherence (locked implies an accepted block with that hash; active and prepared implies locked; active and pre-prepared implies unlocked), homogeneous message sets and keyed round changes |
| NodeLaws.LockedDisjunctIsIdle | core/prepare.go:51-55 | HandlePrepare moves on exactly when the sender set of PREPAREs and COMMITs reaches the threshold in PrePrepared; the "already locked" alternative never decides |
| NodeLaws.StepCommitsWhatItHolds | core/commit.go:67-88 | The COMMITs submitted with a block are members' COMMITs for that block in the current view, were sent, and reach the threshold |
| NodeLaws.StepStoresOnlySent | core/prepare.go:78-86 | A node only ever stores messages that were sent |
| NodeRuns.StepIsMonotone | core/utils.go:74-82 | Every step leaves (sequence, round, phase) lexicographically unchanged or greater, with phase 0 while waiting |
| NodeRuns.RunKeepsInv | core/pbft.go:160-220 | The node invariant holds in every state of every run |
| NodeRuns.OncePerView | core/round.go:60-68 | Over any run each view is activated at most once, accepts at most one PRE-PREPARE and reaches the backend's Commit at most once |
| NodeRuns.StepMovesNoLock | core/round.go:98-110 | Within a sequence a lock is taken, kept or dropped, never moved to another block; a new sequence starts unlocked at round 0 |
| NodeRuns.DropsExactlyOnTimeoutOrRefusal | core/pbft.go:251-276 | A lock held before a step is given up within its sequence if and only if the step is a timeout or a commit the backend refuses; after a refusal the node is unlocked in the next round also when it took the lock in the same step |
| NodeRuns.LockHasOrigin | core/prepare.go:51-55 | Over any run, a lock goes back to an earlier state of the same sequence, at a round not above the present one, in which the node itself held a threshold of matching PREPAREs/COMMITs for it |
| NodeRuns.StepLocksWithQuorum | core/commit.go:68-73 | A lock appears only on a threshold of distinct senders for the accepted block in the current view |
| NodeRuns.StepSendsRightly | core/commit.go:15-42 | What each sent message tells about its sender: PREPAREs only unlocked, COMMITs only when locked on the digest, ROUND CHANGEs about the view just entered, PRE-PREPAREs only as proposer |
| NodeRuns.LockedProposerRepeats | core/round.go:65-76 | A locked node that begins a round sends its locked block if and only if it is the round's proposer and the block has the sequence's height, and sends nothing else |
| NodeRuns.LockedProposesOtherExactly | core/request.go:25-41 | Over all events, a locked node sends a PRE-PREPARE for a block other than its lock if and only if it is requested such a block of its height as the proposer of an active round that still accepts requests |
| NodeRuns.TwoRequestsTwoProposals | core/pre_prepare.go:13-34 | Two requests make an honest proposer send two PRE-PREPAREs in one view |
| NodeMoves.StepMoves | core/pbft.go:169-219 | Every step of a sound node is one of twelve moves with the message and backend call that go with it |
| Responses.StepAnswers | core/pbft.go:169-219 | Every step of a sound node is the answer of a table by event: message sent, backend call and each field of the node, in terms of views, locks, sets of senders and thresholds |
| Responses.SendsPrepareExactly | core/pre_prepare.go:98-105 | A PREPARE is sent if and only if a verified PRE-PREPARE of the view's proposer reaches an active, unlocked node that accepts requests |
| Responses.SendsCommitExactly | core/prepare.go:46-56 | A COMMIT is sent if and only if a known block of a past view is proposed again, the locked block is offered, or a PREPARE completes the threshold |
| Responses.LockedNodeAnswersOffer | core/pre_prepare.go:85-97 | A locked node offered a block of its view becomes prepared and sends its sealed COMMIT if and only if the block is its lock, and asks for the next round if and only if it is not |
| Responses.CallsBackendExactly | core/commit.go:63-73 | The backend is called if and only if a COMMIT for the accepted block reaches a node in PrePrepared or Prepared and with its sender a threshold of members has committed; if the backend agrees the node is committed and locked |
| Responses.AsksForRoundExactly | core/round.go:142-177 | Which round a node asks for and when: timeout, locked node offered another block, refused commit, or a call of f+1 members; it then waits in that round |
| Responses.WaitingNodeJoinsExactly | core/round.go:205-211 | A waiting node follows a call for a later round if and only if with the sender exactly f+1 members, and no threshold, have asked for it |
| Responses.TimeoutAnswer | core/pbft.go:251-276 | On a timeout an active node joins the greatest round that f+1 validators asked for, else follows the chain, else goes up by one, unlocked and without its pending block, keeping exactly the round changes from that round on |
| Responses.AdvancesExactly | core/round.go:30-66 | The sequence changes if and only if the node learns of a block at or above its height; it is then empty, unlocked and active in round 0 of the next one, with the proposer by position |
| Responses.BeginsRoundExactly | core/round.go:36-76 | A node becomes active in a round of its sequence if and only if a threshold calls it; lock and pending block are kept and the proposer repeats the one or sends the other |
| Responses.ProposesExactly | core/pre_prepare.go:13-34 | A PRE-PREPARE for a block is sent if and only if the proposer is requested it or begins a round with it, and it has the node's height |
| Responses.ErrorsExactly | core/pbft.go:223-248 | The error of every event, by a table on views, membership and sender counts |
| Responses.RequestAnswer | core/request.go:25-58 | Old, future or taken by height; taken ones become pending, and are proposed by the active proposer |
| Responses.PickIsByPosition | validator/selector.go:9-50 | The selector picks the r-th member after the last proposer (RoundRobin) or from it on (Sticky), and from the first member if the last proposer is unknown |
| Responses.PositionDecides | validator/validator_set.go:117-122 | Policy, list, last proposer and round leave one proposer |
| Proposers.OneProposerPerView | core/round.go:61-66 | Over every run on one chain under one policy, two honest nodes active in one view, wherever they booted and however they came there, have the proposer that the view has by position after the proposer of the block below |
| NodeSpec.MaxRoundIsUnique | core/round.go:273-288 | The result of MaxRound does not depend on the order in which the map is walked |
| Limits.DroppedLockBreaksAgreement | core/pbft.go:252-255 | A lone honest validator, no fault and no old-block reply, takes two blocks at one sequence after timeouts |
| Limits.CleanRunDecides | core/commit.go:79-95 | Any quorum of honest validators has a run, with no lock dropped and no old-block reply, that commits the block of its choice: the hypotheses of agreement can be met |
| Limits.WideRoundSkipsRounds | core/round.go:245-258 | A reachable state of four validators, one faulty, in which one action takes an honest node to round 2^64 + 1 though no honest node entered round 2^64 |
| Limits.RoundsAreNotSkippedExactly | core/round.go:180-219 | For a bound on the rounds asked for: no cluster with at most f faults ever skips a round, if and only if the bound is at most 2^64 |
| Limits.LargeRoundIsMisread | core/round.go:282-285 | A node that two validators asked for round 2^63 and whose MaxRound is negative |
| CoreEngine.Core.constructor | core/pbft.go:90-143 | A started engine is the booted node: next height, round 0, unlocked, with the first proposer picked |
| CoreEngine.Core.HandleEvent | core/pbft.go:169-219 | One turn of the event loop changes the object's value, the sent messages and the backend calls exactly as Step does |
| CoreEngine.Core.HandleMsg | core/pbft.go:223-248 | Dispatch by message kind, equal to the specification's dispatch with the same error |
| CoreEngine.Core.HandlePrePrepare | core/pre_prepare.go:37-108 | All branches: old-block reply, wrong proposer, refused block, unlocked and locked acceptance, mismatch with the lock |
| CoreEngine.Core.HandlePrepare | core/prepare.go:28-58 | Check, match with the subject, store, lock and COMMIT when ready, with the error of each refusal |
| CoreEngine.Core.HandleCommit | core/commit.go:45-76 | Check, match with the subject, store, lock and commit when ready |
| CoreEngine.Core.Commit | core/commit.go:79-95 | The phase change, the call of the backend with the held COMMITs, and unlocking with a next round change on refusal |
| CoreEngine.Core.CommittedSeals | core/commit.go:83-87 | One seal per stored COMMIT, no sender twice, in whatever order the set lists them |
| CoreEngine.Core.HandleRoundChange | core/round.go:180-219 | Store, then start the round at the threshold, join at exactly f+1 while waiting, or report the message as ignored |
| CoreEngine.Core.HandleTimeoutMsg | core/pbft.go:251-276 | Unlock, forget the pending request, then join the greatest round f+1 asked for, catch up, or go one round up |
| CoreEngine.Core.StartNewRound | core/round.go:19-84 | New sequence, new round with reproposal of the locked or pending block, or nothing |
| CoreEngine.Core.SendRoundChange | core/round.go:149-177 | Only upwards: wait in the round, clear outdated round changes, announce the view |
| CoreEngine.Core.HandleRequest | core/request.go:25-41 | A request of the current height becomes pending and is proposed by an active proposer; others are old or future |
| EventLoops.NothingIsStuck | core/backlog.go:81-135 | No message that could be handled is ever left in the backlog: if that holds of well ranked queues before a turn of the loop it holds after it |
| EventLoops.NothingIsEverStuck | core/pbft.go:169-248 | Over every run of the loop from empty queues, with the keys of arriving messages in range, the queues stay in range and no message in them could be handled |
| EventLoops.TurnIsReckoned | core/backlog.go:114-133 | Told by the node before and after a turn: every queued message that can be handled at the end is posted in full, every early one stays in full, and whatever else leaves unposted is outdated or does not decode |
| EventLoops.NothingIsLost | core/pbft.go:226-232 | Over every run of the loop with keys in range, each copy of a message queued at some point is at every later point queued, posted, or the message is outdated |
| EventLoops.EarlyJoins | core/backlog.go:28-66 | An early message of another node joins its sender's queue |
| EventLoops.StaysOut | core/utils.go:74-82 | A step that does not call setState makes no message acceptable |
| EventLoops.DrainedStaysOut | core/commit.go:79-95 | What is early when the backlog is drained is not acceptable at the end of that step, a refused commit included |
| EventLoops.EarlyChangesNothing | core/pbft.go:226-232 | A message is put aside only by a step that changes nothing in the node |
| EventLoops.EventLoop.Turn | core/pbft.go:169-248 | One event of the loop: the step of the node, then the early message stored or the queues drained, with what is posted; nothing acceptable stays behind |
| RoundStates.RoundState.GetPrepareOrCommitSize | core/roundstate.go:43-56 | The decremented counter equals the size of the union of the senders of PREPAREs and COMMITs |
| RoundStates.RoundState.LockHash | core/roundstate.go:119-127 | The lock becomes the hash of the accepted block, if there is one |
| RoundStates.RoundChangeSet.Add | core/round.go:245-258 | Stored under the low 64 bits of the round, one per sender; the set is created even for a refused sender |
| RoundStates.RoundChangeSet.Clear | core/round.go:261-270 | Exactly the empty sets and those below the round go |
| RoundStates.RoundChangeSet.GreatestRound | core/round.go:273-288 | The loop computes MaxRound, the greatest key with enough messages read as an int64 |
| MessageSets.MessageSet.Add | protocol/message_set.go:40-61 | Members' messages are stored by sender, others refused without a change |
| MessageSets.MessageSet.Values | protocol/message_set.go:64-73 | Every stored message once, no sender twice |
| NodeRuns.VerdictsOnlyAge | core/utils.go:33-71 | Over any run, checkMessage's verdict on a message only goes from early to acceptable to outdated, so a message discarded as old could never have been used later |
| Protocol.View.Cmp | protocol/types.go:39-47 | The comparison's sign is the lexicographic order of views |
| Quorum.OverlapExactlyAtSafeSizes | core/utils.go:85-95 | For every validator set, each two reaching subsets share more than f members if and only if n <= 3 or n mod 3 = 1 |
| Quorum.QuorumsShareGoodExactly | core/utils.go:85-95 | For every size and every set of good members: each two reaching subsets share a good one if and only if the others are fewer than 2q - n, where q is the least reaching number |
| Quorum.QuorumsOverlap | core/utils.go:85-95 | At those sizes any two reaching subsets share more than f members |
| Quorum.ThresholdUpwardClosed | core/utils.go:85-95 | On 0..n a number above a reaching one reaches |
| Quorum.ThresholdIsReachable | validator/validator_set.go:170-173 | n - f validators always reach the threshold, and a reaching number exceeds f |
| Backlogs.EarlyStopIsExactIff | core/backlog.go:81-135 | Stopping at the first future message leaves exactly the future messages, for every state and every order the queue may pop in, if and only if, for any two queued messages, the one whose key is not greater is early only in states in which the other is early too |
| Backlogs.RankMeansEarliness | core/utils.go:33-71 | The rank of two messages, read off the messages, holds if and only if in every state in which the first is early the second is |
| Backlogs.WeightRespectsRank | core/backlog.go:69-78 | With keys up to 2^24, and rounds up to 99 where the key has one, the float32 key order embeds the rank |
| Backlogs.InRangeIsWellRanked | core/backlog.go:75-77 | A queue of such messages meets the condition of the exact early stop |
| Backlogs.FloatTieStrandsRoundChange | core/backlog.go:69-78 | At sequence 16778 a PRE-PREPARE and a ROUND CHANGE have one float32 key, and an acceptable ROUND CHANGE can stay behind |
| Backlogs.WideRoundStrandsPrePrepare | core/backlog.go:75-77 | At round 100 the key runs into the next sequence and an acceptable PRE-PREPARE stays behind a future ROUND CHANGE |
| Backlogs.Drain | core/backlog.go:92-133 | The inner loop ends; every message is kept, posted or discarded once, only acceptable ones posted, only old or invalid ones discarded; on a well ranked queue the kept ones are exactly the future ones |
| Backlogs.Backlog.ProcessBacklog | core/backlog.go:81-135 | The same for the queue of every sender: on a well ranked queue exactly the future messages stay and exactly the acceptable ones are posted |
| Backlogs.Backlog.StoreBacklog | core/backlog.go:28-66 | A message goes into its sender's queue unless it is the node's own or does not decode |
| ManagerVotes.RunIsRecount | manange.go:102-196 | Over every sequence of votes and resets from a sound state, the ballots stay sound and the running tally decides as a recount of the standing votes would; sound means: one vote per pair of voter and candidate, tallies against present standing counting exactly the votes that way and absent at zero, only admissions recorded about outsiders |
| ManagerVotes.ApplyIsRecount | manange.go:102-157 | One application keeps soundness and equals the recount, re-votes, admissions and removals included |
| ManagerVotes.ManagersChangeByMajority | manange.go:129-155 | In every reachable state a vote changes the managers if and only if more than half of them is matched by distinct voters recorded that way, then only by its candidate, and a removal leaves no vote about the candidate |
| ManagerVotes.BackersAreManagers | manange.go:102-157 | The managers change only by a strict majority of managers, when everybody who votes is a manager at that time and nobody is removed while a vote of theirs stands |
| ManagerVotes.BackersAreManagersExactly | manange.go:102-134 | In every state with managers: the votes of managers have only managers behind them if and only if every standing vote that can still count is by a manager |
| ManagerVotes.OutsiderAdmitsItself | manange.go:122-134 | Without the first condition: one vote of an outsider for itself admits it beside a single manager |
| ManagerVotes.RemovedManagerStillCounts | manange.go:137-145 | Without the second: a removed manager's vote admits a candidate together with one of the two managers left |
| ManagerVotes.WithdrawKeeps | manange.go:111-120 | Withdrawing an earlier vote, stale or not, keeps the tally in step with the votes |
| ManagerVotes.VoteSnapshot.ApplyMVotes | manange.go:102-157 | The loops and map updates in place do what the function on ballots says |
| ManagerVotes.VoteSnapshot.DiscardVotes | manange.go:137-145 | The splicing loop removes exactly the candidate's votes and touches only its tally |
| ManagerVotes.VoteSnapshot.CastM | manange.go:160-174 | One vote is added to the tally of a candidate that may be voted on that way |
| ManagerVotes.VoteSnapshot.UncastM | manange.go:177-196 | One vote is taken from a tally of the same direction; a tally of one goes |
| ManagerVotes.VoteSnapshot.ResetVotes | manange.go:303-308 | Votes and tallies are emptied, managers kept, ballots sound |
| ManagerVotes.VoteSnapshot.Copy | manange.go:310-333 | An object of its own with the same ballots |
| Seals.VerifyCommittedSeals | engine.go:206-233 | When each verdict is given: empty list, first bad seal with an unknown signer, acceptance if and only if the signers are covered by the parent's list with multiplicity and number more than 2f |
| Seals.AcceptedMeans | engine.go:210-231 | For a distinct parent set, acceptance is exactly a non-empty list of seals of pairwise distinct members numbering more than 2f |
| Seals.CommittedSealsAreAccepted | core/commit.go:79-95 | Whatever step calls the backend's Commit, the seals collected there are accepted, if each stored seal recovers to the sender of its COMMIT |
| Snapshots.SnapshotIsStampedAsAsked | engine.go:482-575 | On a hash-linked chain with caches keyed by their own hash the replay never meets a gap, and a result has the requested height and hash if and only if they belong together |
| Snapshots.SnapshotIsFound | engine.go:490-550 | When the reader has the block's ancestors above the genesis and nothing external fails, the block gets its snapshot whatever is cached; with nothing cached, only then |
| Snapshots.MismatchIsAnsweredExactly | engine.go:490-527 | A request whose height is not that of its hash is answered if and only if the hash is cached, or stored and the height a multiple of 1024, or the height is the genesis height and the genesis is accepted |
| Snapshots.MismatchIsAnswered | engine.go:490-494 | A chain and a request of that kind that is answered with the wrong stamp |
| Snapshots.WalkIsLinked | engine.go:490-550 | The headers gathered on the way down are consecutive from the requested block to just above the snapshot found |
| Snapshots.ReversedPathIsContiguous | engine.go:553-555 | The reversed headers pass the contiguity checks |
| Snapshots.ReplayFailsExactly | snapshot.go:97-138 | On a linked chain a replay fails if and only if a header's consensus data do not decode, or the result is a checkpoint and is not saved |
| Snapshots.Engine.Replay | engine.go:557-575 | The result is cached, and written to the database if and only if headers were applied and its height is a multiple of 1024 |
| Snapshots.ReverseHeaders | engine.go:553-555 | The swap loop reverses the slice in place |
| Snapshots.Snapshot.Apply | snapshot.go:97-138 | Both contiguity checks, decoding, the stamp of the last header, and the receiver whose epoch 0 becomes 1 |
| Snapshots.Engine.Walk | engine.go:490-550 | The loop ends and finds what the recursive walk finds: memory, then checkpoint, then genesis, then parents or reader |
| Snapshots.Engine.SnapshotAt | engine.go:482-575 | The outcome of walk and replay, cached under its own hash; cache and database stay keyed by their own hashes |
| Selector.RotationIsFairExactly | validator/selector.go:9-50 | For either policy any n consecutive rounds give every position exactly one turn if and only if the seed does not wrap inside the window or n divides 2^64 |
| Selector.FairReachesAll | validator/selector.go:19-50 | In a fair window every validator proposes |
| Selector.RotationWraps | validator/selector.go:19-50 | Three validators in the rounds from 2^64 - 1 on: the first of them has two turns in a row |
| Selector.IndexOf | validator/validator_set.go:91-99 | The first position of an id, and -1 exactly when it is not there |
| ValidatorSets.EditsKeepCanonical | validator/validator_set.go:125-155 | Any history of adds and removes keeps the list sorted and distinct and tracks the members as a set |
| ValidatorSets.MembersDecideProposer | validator/validator_set.go:117-155 | Two sets with equal members hold the same list and pick the same proposer for every last proposer and round, whatever their histories |
| ValidatorSets.CanonicalByMembers | validator/validator_set.go:36-64 | Sorted distinct lists are equal if and only if their members are |
| ValidatorSets.ValidatorSet.constructor | validator/validator_set.go:36-64 | The ids sorted, the first of them proposer |
| ValidatorSets.ValidatorSet.AddValidator | validator/validator_set.go:125-140 | Refused exactly for members; otherwise appended and sorted |
| ValidatorSets.ValidatorSet.RemoveValidator | validator/validator_set.go:143-155 | The first occurrence goes, and the result tells whether there was one |
| ValidatorSets.ValidatorSet.IsProposer | validator/validator_set.go:107-114 | Only a member can be the proposer |
| ValidatorSets.ValidatorSet.WasProposer | core/pre_prepare.go:49-58 | The test on an outdated PRE-PREPARE: a copy of the old set picks the sender, and the set itself is left alone |
| ValidatorSets.ValidatorSet.Copy | validator/validator_set.go:158-167 | The same list in a new object; the proposer is reset to the first member |
| ValidatorSets.ValidatorSet.Rebuild | manange.go:379-393 | Ordered ids written out and read back through NewSet give the same list |
| Ordering.ExchangeSort | manange.go:361-376 | The nested exchange loops sort in place |
| Ordering.SortedIsUnique | protocol/validator.go:19-27 | A multiset of ids has one sorted arrangement, so every sorting method gives the same list |

## Left out

- The old-block reply (core/pre_prepare.go:49-64): its step is modelled, and its seal is over the
  node's own current proposal as in core/broadcast.go:38-45; the agreement theorems count validators
  that sent one at the height as if they were faulty.
- Exactness.AgreementExactly: sets of 2^63 validators and more. A commit counts here if the backend took
  the block; the theorems of `Agreement.dfy` also cover calls that it refused.
- Progress.SomeRunCommits: that such a run is the one that happens; timers, fairness of delivery and
  the choice of the next round's proposer are not modelled.
- CoreEngine.Core.HandleEvent: the drain of the backlog inside setState and the store of early messages
  are not part of this object; they are added by EventLoops.EventLoop.Turn. The cluster lets any sent
  message be replayed at any time, which covers whatever the queues hand out.
- CoreEngine.Core.HandleMsg: as HandleEvent, stores nothing itself.
- EventLoops.EventLoop.Turn: the drain comes at the end of the step, with the view and phase of the
  point where setState is called; requests for later heights are refused and not stored.
- CoreEngine.Core.CommittedSeals: the validator set object and its proposer are fields of the node here;
  sharing of that object with the snapshot cache is not captured.
- RoundStates.RoundChangeSet.Add: the inner message sets are maps inside the one dictionary, not
  objects.
- Backlogs.Backlog.StoreBacklog: queues are keyed by the sender's id, where the engine keys them by the
  validator object, so that a new set object for one sender opens a second queue.
- Backlogs.Backlog.ProcessBacklog: posting is the value returned; the goroutines that deliver it are
  not modelled.
- Snapshots.Snapshot.Apply: the votes inside a snapshot. Headers' votes go to the receiver while the
  copy is returned, so only height, hash, epoch and contiguity are modelled.
- Snapshots.Engine.SnapshotAt: header checks of the genesis block, database errors and the cache's
  choice of what to evict are arbitrary inputs.
- ManagerVotes.VoteSnapshot.ApplyMVotes: voting starts from empty tallies as after a reset;
  newVoteSnapshot leaves the maps nil. Signatures and deadlines of votes are not part of the model.
- applyVVotes: its re-vote branch edits the managers' votes with an index of the validators' votes
  (manange.go:217-223), so the tally law does not carry over to it.
- Seals.VerifyCommittedSeals: begins after decoding and the checks of the votes' signatures; recovery
  of a signer is an arbitrary function of the seal.
- ValidatorSets.ValidatorSet.RemoveValidator: the splice shares its backing array with lists handed
  out before; lists are values here.
- Responses.ErrorsExactly: messages that do not decode are one kind with one error, where the handlers
  have an error each.
- The order of pending requests: the priority is a negated uint64 (core/request.go:66), so it orders
  nothing one could state; a request is a step of the node.
- Timers, channels, goroutines, mutexes, caches of known messages and gossip.
- Codecs, hashing, signing, key recovery, header verification, block sealing, the API, options and
  configuration.
