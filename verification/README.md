# Verified model of a block-lattice node

A Dafny model of the consensus and execution core of the node: how blocks are finalized by votes, how finalized blocks of
many leaders become one sequence of heights, how quorums and leaders are drawn by stake, how the anchors' alignment record
is advanced, and how blocks change accounts and validators. `dafny verify dfyconfig.toml` checks everything.

## Modules

| component | modules |
|---|---|
| finalization voting | `Signatures` (ideal signatures, payloads, majorities), `Voting` (records and handlers as steps), `VoteAnswers` (what is signed and recorded), `VotingSafety` (invariant and safety over runs), `AlfpIndices` (which last indices can still be signed), `QuorumSigner` (the handlers in place), `LeaderFinalization` (the collector), `LeaderEndReplies` (the replies and what the collector makes of them) |
| last-mile sequencing | `Sequencing` (the canonical sequence that the seals determine), `LastMile` (tracker, turns, signers as steps), `SequencingSteps` (when a turn moves and what it writes), `LastMileSafety` and `LastMileAgreement` (invariant and agreement over runs), `ProvenHashes` (the hashes that are signed), `EpochBoundaries` (the boundaries on record), `PersistedTracker` (the stored tracker against the sequencer's own), `LastMileFinalizer` (the loop in place), `LastMileWitness` (a run to which the agreement results apply) |
| stake-weighted selection | `FenwickTree` (the tree in its array), `StakeSelection` (quorum, leader order, finalizers) |
| anchor alignment | `AnchorSearch` (the backwards search), `AlignmentThreads` (two threads and resets, interleaved), `AlignmentEntries` (which entries the record holds) |
| execution state | `WriteBackCache`, `Ledger` (accounts and blocks as values), `AccountLaws` (each account and each list over blocks), `BlockExecution` (the same over the cache), `DelayedTransactions` (as values), `DelayedEffects` (what they do, observation by observation), `DelayedBatches` (lists over a cache, as values), `BatchLaws` and `BatchWitness` (what such lists keep and conserve), `DelayedExecution` (over the cache, both threads), `ChainCursor` |
| shared | `Wrappers`, `Integers` (64-bit arithmetic, number texts), `MapSums`, `Sets` |

Each component has two forms. Functions and step relations say what one operation does, and the lemmas about them carry
the properties. Classes and loops follow the program's own statements, and their contracts equate the new state with those
functions, so that the properties hold of them. Separate modules (answers, replies, steps, entries, hashes, effects, laws)
state what they give in terms of the inputs alone.

## Modelling decisions

- A signature is a value that names its signer and payload. Keys of honest nodes occur in a signature only after the node
  issued it; all other keys sign anything. Payload texts joined with `:` and `#` are taken to be injective, and a block id
  is its three parts, or some other text.
- Each request handler, each leader rotation and each raise of the epoch-finish flag is one atomic step. The
  leader-finalization handler takes no mutex, and the flag is raised without the vote mutex; the order that
  websocket_pack/routes.go:243-248 asks for is what the step model gives. Leader-finalization requests concern the member's
  epoch, active or already left.
- A quorum has at most floor((n-1)/3) faulty members and at least one member. With an empty quorum the majority is zero and
  nothing is protected (`Signatures.IntersectionHoldsExactlyForNonEmptyQuorums`).
- That the leaders of an epoch are distinct is what `StakeSelection.LeadersArePermutation` proves of the selection.
- Random numbers of a draw are any function of the round. Stake sums fit 64 bits, as the program's sums need. The lowest
  set bit that the code takes with a bitwise and is a recursive function.
- Databases are maps; a batch is one update; database failures are not modelled. The stored AFP under a key is the AFP of
  that block id.
- Two sequencers agree on the alignment entries that both have; each entry comes from a verified ALFP.
- That proofs agree on hashes is stated of runs in which the hash that a node holds of a finalized block is the finalized
  one, and in which nodes that know the data of the next epoch know the same (`ProvenHashes.LocalRun`).
- Anchor chains are fixed functions of anchor and block. The finalizer's epoch only moves forward while the node runs.
- Numbers in payload texts are read digit by digit, with the program's bounds and signs; 64-bit sums wrap around.
- Key and signature checks of a transaction are two facts that the transaction carries.

## What the code does where a promise fails

- Two ALFPs of one leader can differ by one in index (`VotingSafety.AlfpsCanDifferByOne`); the bound is exactly one. Once
  voting for the leader is over, an ALFP with a given last index can still be gathered exactly when a majority is faulty
  or holds a stat that is not past it (`AlfpIndices.CanBeSealedIff`), and two that differ exactly when such members are a
  majority for the lower index (`AlfpIndices.CanDifferIff`).
- A fast-forward that is cut short leaves a stored tracker ahead of the sequencer's own, and nothing else does
  (`PersistedTracker.TurnStores`, `PersistedTracker.RunKeepsAhead`). A later turn of the same process can then overwrite it
  with an earlier one, in epoch and height (`LastMileWitness.StoredTrackerCanGoBack`). That is possible exactly while it is
  ahead, except when it is just one epoch ahead of a sequencer that cannot move (`PersistedTracker.CanGoBackIff`).
- Eviction leaves the cache above its cap with an untouched key in it exactly when the empty key is cached and untouched
  while the touched keys fill the cap (`WriteBackCache.AboveCapMeansAllTouchedIff`): the empty key is taken off the list
  but not out of the cache. Validator keys carry a prefix and the keys of a transaction are checked
  (threads/block_execution.go:835), so only the refund of a delayed unstake can name the empty account
  (`DelayedTransactions.RefundCanNameEmptyAccount`).
- The existence check of validator creation misses a validator that is only in the touched set
  (`WriteBackCache.Cache.CreationCheckExactIff`, `WriteBackCache.CreateHidden`), and creating it again replaces it
  (`WriteBackCache.SecondCreationReplaces`), its stake included (`DelayedBatches.CreationKeepsStakeIff`). Which validators
  that hits depends on the list and the cap only, so the two threads of one node, whose caps are equal
  (entrypoint.go:433-439), agree on every list. Nodes with different caps agree on every list that creates no validator
  twice past either cap (`DelayedExecution.DecideAndReplay`) and can disagree otherwise; equal caps are exactly what
  every list needs (`DelayedBatches.AlwaysAgreeIff`, `DelayedExecution.CapsCanDisagree`).
- Such a second creation can also leave a validator registered without the required stake
  (`BatchWitness.RegisteredWithoutStake`). Being registered means to have it throughout the run of a list exactly when no
  registered hidden validator is created again while the requirement is positive, and no accepted vote asks for more than
  some registered validator has (`BatchLaws.QualifiedThroughoutIff`).
- The comment at threads/sequence_alignment.go:48-50 says that the observed pointer never passes a recorded boundary. A
  commit that was in flight when the boundary was recorded can move it one past
  (`AlignmentThreads.PointerCanPassBoundary`), and recording a boundary below the pointer puts it any number of blocks past
  (`AlignmentThreads.RecordingCanPassBoundary`); no other step does (`AlignmentThreads.StepPassesBoundaryIff`). With genuine
  anchor chains neither happens (`AlignmentThreads.RecordedMeansExactlyObserved`). The model follows the code.
- A transfer or stake whose fee and amount overflow 64 bits does not conserve value
  (`Ledger.ExecuteConservesIff`, `Ledger.OverflowingTransferMintsValue`).
- A stake that is rejected when the delayed list runs is lost: it had been taken from the sender's account and is not paid
  back (`DelayedTransactions.AcceptedStakeCanBeLost`). Together with the stakes of hidden validators that are created again
  this is all that the run of a list loses (`BatchLaws.BatchLosesRejectedAndWiped`, `BatchLaws.BatchConservesIff`).
- Staking and unstaking the same amount gives the validator back except that a staker who was listed with nothing, as the
  creator of a fresh validator is, is taken off the list (`DelayedEffects.UnstakeUndoesStakeIff`).
- A stored cursor without a local height, and a restart from a new genesis, are in step only under the conditions of
  `ChainCursor.LegacyDecodeInStepIff` and `ChainCursor.RestartInStepIff`.

## Model

| member | source | states |
|---|---|---|
| Signatures.CountVerifiedUniqueSignatures | utils/proofs_verification.go:27-42 | whatever order the signature map is walked in, the count is the number of distinct allowed members whose entry is genuine over the payload |
| Signatures.MajoritiesShareHonestMember | utils/epoch_related.go:46-58 | two majorities of a quorum with at most floor((n-1)/3) faulty members share an honest one, also when a key is listed twice |
| Signatures.IntersectionHoldsExactlyForNonEmptyQuorums | utils/epoch_related.go:46-58 | the intersection argument holds for a quorum if and only if it is not empty: with none the majority is zero |
| Signatures.AggregateExistsIffBacked | utils/proofs_verification.go:27-57 | an aggregate that verifies can be shown without forging an honest signature exactly when a majority stands behind the payload |
| VotingSafety.LockedRefusesVotes | websocket_pack/routes.go:249-267 | once voting for a leader is locked, a member signs no further block of that leader |
| VotingSafety.LockFreezesStat | websocket_pack/routes.go:424-448 | while a leader is locked no step changes its stored stat, and the lock stays |
| VotingSafety.SignedIsRecorded | websocket_pack/routes.go:262-360 | whatever a handler signs, the member's records show: the vote for the block id, the voting stat, the lock behind an end signature |
| VotingSafety.RecordsPersist | websocket_pack/routes.go:262-347 | what records a signature stays recorded under every later step |
| VotingSafety.StepKeepsInvariant | websocket_pack/routes.go:249-512 | every vote, end signature, leader rotation, finish flag and change of epoch keeps the network invariant |
| VotingSafety.RunKeepsInvariant | websocket_pack/routes.go:249-512 | over any run the invariant holds, the honest set is fixed and signatures only accumulate |
| VotingSafety.AfpUnique | websocket_pack/routes.go:262-347 | two AFPs for one block id agree on hash and previous hash |
| VotingSafety.AfpUniqueOverRun | websocket_pack/routes.go:262-347 | the same for AFPs shown at two different points of a run |
| VotingSafety.AfpHasPredecessor | websocket_pack/routes.go:286-347 | an AFP for block k+1 comes with an AFP for block k whose hash is its previous hash |
| VotingSafety.AfpClosesChain | websocket_pack/routes.go:286-347 | every AFP closes a chain of AFPs from the leader's block 0 and the zero hash |
| VotingSafety.TailSafety | websocket_pack/routes.go:424-512 | once an ALFP seals a leader at index i, no AFP for its block k+1 with k > i is shown at any point of the run, earlier or later |
| VotingSafety.AlfpsNearlyAgree | utils/proofs_verification.go:117-146 | two ALFPs of one leader differ by at most one in index, and equal non-negative indices carry equal hashes |
| VotingSafety.AlfpsCanDifferByOne | websocket_pack/routes.go:450-486 | a reachable run in which two ALFPs of one leader carry indices -1 and 0, so the bound of one is exact |
| VoteAnswers.SignsExactly | websocket_pack/routes.go:249-360 | a member signs a vote exactly when voting for the block's leader is open to it, no vote or stat on record speaks against the block, and it is block 0 or comes with a verifying AFP of the block before; the signature is over the block, its hash and the hash it builds on |
| VoteAnswers.SignedVoteRecords | websocket_pack/routes.go:262-347 | a signed vote is on record with its block and the previous AFP, the leader's stat becomes that of the previous block unless it is already that of this block, and nothing else changes |
| VoteAnswers.RefusedVoteRecords | websocket_pack/routes.go:249-330 | a refused request changes nothing, except that the vote stays for a block whose previous AFP does not verify |
| VoteAnswers.StatNeverFalls | websocket_pack/routes.go:316-347 | no step lowers the stat that a member keeps of a leader |
| VoteAnswers.RunKeepsGenuine | websocket_pack/routes.go:286-347 | over any run, every AFP that a member has stored can be shown, and every block that it has stored is one it voted for |
| LeaderEndReplies.GatesOpenIffLocked | websocket_pack/routes.go:424-448 | the handler answers about a leader exactly when the member has locked voting for it |
| LeaderEndReplies.StepsOpenGates | threads/leader_rotation.go:31-43 | rotating past a leader, the finish flag for the last one and leaving the epoch open them |
| LeaderEndReplies.AnswersExactly | websocket_pack/routes.go:449-512 | with open gates the reply is an upgrade exactly when the stored stat is above the request's index, and it carries that stored stat; otherwise it is a signature over the request's own stat exactly when that is proved; with closed gates it is not ready |
| LeaderEndReplies.UpgradeServes | websocket_pack/routes.go:449-456 | over any run, what an upgrade carries passes the collector's checks, is above the request, and is what the replying member itself would sign, then and at every later point |
| AlfpIndices.EveryoneSigns | websocket_pack/routes.go:450-512 | from any point of a run, all the honest members who would sign a leader-end request can do so in some continuation, which changes no record |
| AlfpIndices.ShownNeedsMajority | websocket_pack/routes.go:424-512 | once voting for a leader is over at the honest members, every ALFP shown later has a majority of members that are faulty or whose stat was not past its index |
| AlfpIndices.CanBeSealedIff | websocket_pack/routes.go:424-512 | then an ALFP with a given last index can be gathered in some continuation if and only if such members are a majority |
| AlfpIndices.CanDifferIff | websocket_pack/routes.go:424-512 | and ALFPs with two different last indices can be gathered in one continuation if and only if a majority is faulty or holds a stat that is not past the lower one |
| QuorumSigner.VerifyAggregatedFinalizationProof | utils/proofs_verification.go:44-57 | the verifier accepts exactly the AFPs with a majority of genuine distinct signatures |
| QuorumSigner.VerifyAggregatedLeaderFinalizationProof | utils/proofs_verification.go:117-146 | the verifier accepts exactly the ALFPs whose own AFP matches and whose signatures reach the majority |
| QuorumSigner.Signer.GetFinalizationProof | websocket_pack/routes.go:210-369 | on the stored records, with every early exit, the handler leaves the records and gives the signature that the safety invariant and the rows of VoteAnswers are about; a vote is recorded even when the proof of the previous block is refused |
| QuorumSigner.Signer.GetLeaderFinalizationProof | websocket_pack/routes.go:371-514 | the handler answers as the locked end-signing step does, and changes no record; the rows of LeaderEndReplies say what it signs, what an upgrade carries and what comes of it |
| QuorumSigner.Signer.RotateCurrentLeader | threads/leader_rotation.go:31-43 | the leader index moves on by one when it is not at the last leader |
| QuorumSigner.Signer.RaiseEpochFinish | threads/epoch_rotation.go:41-46 | the finish flag is raised and nothing else changes |
| LeaderFinalization.RepliesKeepCacheOk | threads/leader_finalization.go:536-621 | through any replies the collector holds only genuine quorum signatures over its current skip data |
| LeaderFinalization.EnoughProofsIffVerifies | threads/leader_finalization.go:470-476 | the collected count reaches the majority exactly when the aggregate verifies as an ALFP |
| LeaderFinalization.StoredStatStartsOk | threads/leader_finalization.go:499-508 | a reachable node's stored stat is the template or carries its own verified AFP, as the collector needs to start from |
| LeaderFinalization.CollectedProofSealsTail | threads/leader_finalization.go:466-477 | from a stored stat and any possible replies, a collected majority is an ALFP that verifies and bounds every AFP of the leader |
| LeaderEndReplies.ReplyOutcome | threads/leader_finalization.go:536-621 | a valid signature is stored and replaces no other, a valid upgrade is adopted and empties the signatures, any other reply changes nothing |
| LeaderEndReplies.UpgradeIsAdopted | threads/leader_finalization.go:563-621 | a collector that handles the upgrade of a member of a reachable network holds exactly that member's stat |
| LeaderEndReplies.AskOnce | threads/leader_finalization.go:460-621 | after asking a member the proposal is the higher of the two stats, with the member's signature over it unless it was just adopted from that member |
| LeaderEndReplies.MajorityLeavesOutTheFaulty | utils/epoch_related.go:46-58 | the majority of n is n less the floor((n-1)/3) members that may be faulty |
| LeaderEndReplies.AskingTwiceSeals | threads/leader_finalization.go:460-477 | in any reachable network where voting is over at the honest members of the quorum, asking them in turn twice gives an ALFP that verifies, with the highest stat among theirs and the collector's own |
| LeaderFinalization.LeaderFinalizationCache.HandleOk | threads/leader_finalization.go:536-561 | an OK reply adds the voter's signature only when it is genuine, over the current skip data and from the quorum |
| LeaderFinalization.LeaderFinalizationCache.HandleUpgrade | threads/leader_finalization.go:563-621 | a valid UPGRADE replaces the skip data and drops the proofs; an invalid one changes nothing |
| LeaderFinalization.LeaderFinalizationCache.CollectRound | threads/leader_finalization.go:460-476 | a round persists the aggregate exactly when it verifies |
| Sequencing.CanonicalUnique | threads/last_mile_finalizer.go:276-437 | the sealed leaders determine at most one block id for every height |
| Sequencing.CanonicalIsListed | threads/last_mile_finalizer.go:276-437 | in a closed epoch the block at the j-th height is the j-th of the list that has blocks 0..lastIndex of each leader in leader order |
| Sequencing.SuccessorAfpStaysWithinSeal | threads/last_mile_finalizer.go:373-394 | a block confirmed by its successor's AFP lies within the seal of its leader (from tail safety) |
| LastMileSafety.CompletedBoundaryOk | threads/last_mile_finalizer.go:1483-1516 | the boundary built from a tracker that passed its last leader states where the epoch ends |
| LastMileSafety.SequenceBlockOk | threads/last_mile_finalizer.go:276-437 | a sequencing turn keeps tracker, mappings and boundaries on the canonical sequence, and the next height does not fall |
| LastMileSafety.TrueProofNeverRegresses | threads/last_mile_finalizer.go:1534-1548 | a true rotation proof of the tracker's own epoch never asks the tracker to go back |
| LastMileSafety.FollowProofsOk | threads/last_mile_finalizer.go:1518-1585 | following any chain of true rotation proofs keeps everything on the canonical sequence |
| SequencingSteps.MapsIffReady | threads/last_mile_finalizer.go:276-437 | a sequencing turn maps exactly one height exactly when the block at the tracker is known, not past its leader's seal, and confirmed by the seal or by its successor's AFP; the mapping is of that block and its height in the epoch |
| SequencingSteps.LeaderMovesIff | threads/last_mile_finalizer.go:293-437 | the tracker goes to the next leader exactly when the leader is over or its mapped block is the sealed last one of a leader whose time is over, and to the next block exactly when it maps another one |
| SequencingSteps.EpochMovesIff | threads/last_mile_finalizer.go:252-275 | it enters the next epoch exactly when all leaders are done, the end is known and the next epoch is known |
| SequencingSteps.RecordsEndIff | threads/last_mile_finalizer.go:396-436 | a boundary is recorded exactly when the turn ends the epoch, with the height, block and hash of the last mapped block, or of none |
| SequencingSteps.FastForwardReaches | threads/last_mile_finalizer.go:1518-1585 | a fast-forward records the proven boundary of every epoch up to the first whose proof does not lead on, stores the start of that epoch, and moves its own tracker exactly when that is the approved one |
| LastMileAgreement.RunKeepsNetOk | threads/last_mile_finalizer.go:127-437 | over every run of sequencers every store and every height or rotation signature is on the canonical sequence |
| LastMileAgreement.HeightsAgree | threads/last_mile_finalizer.go:276-437 | any two sequencers, at any two points of a run, map a height that both have mapped to the same block id and the same height in epoch, whether they sequenced or fast-forwarded |
| LastMileAgreement.HeightProofUnique | websocket_pack/routes.go:633-656 | two verified height proofs for one height name the same block id |
| LastMileAgreement.RotationProofUnique | websocket_pack/routes.go:706-745 | two verified rotation proofs of one epoch name the same finishing height and block |
| LastMileAgreement.LaterEpochsAreAbove | websocket_pack/routes.go:633-656 | a verified height proof is above the end that a verified rotation proof states exactly when its block is of a later epoch |
| LastMileAgreement.FastForwardMatchesSequencing | threads/last_mile_finalizer.go:1518-1585 | a tracker that fast-forwarded to the start of an epoch equals the one of any sequencer that got there by sequencing |
| LastMileAgreement.FastForwardSucceeds | threads/last_mile_finalizer.go:1518-1585 | with proofs for all epochs up to the active one the fast-forward reaches it; epochs remaining strictly decrease |
| LastMileAgreement.HeightsWrittenOnce | threads/last_mile_finalizer.go:401-436 | a turn changes no mapped height, and the next height does not go back |
| LastMileAgreement.SequencingKeepsGapFree | utils/last_mile_sequence.go:111-132 | sequencing from a height on leaves no unmapped height behind the tracker |
| LastMileAgreement.CompletedEpochIsExact | threads/last_mile_finalizer.go:276-437 | a store without gaps since the start of a completed epoch maps exactly blocks 0..lastIndex of every leader, in leader order |
| LastMileAgreement.RunKeepsHeights | threads/last_mile_finalizer.go:127-437 | over any run, through turns, fast-forwards and restarts, what a sequencer has mapped stays mapped to the same block |
| LastMileAgreement.SequencedEpochIsExact | threads/last_mile_finalizer.go:276-437 | a sequencer that is at the start of an epoch at one point of a run and goes on block by block until it is past it holds exactly blocks 0..lastIndex of every leader, in leader order, then and ever after |
| ProvenHashes.SignsExactlyOwnHeight | websocket_pack/routes.go:619-690 | a height is signed exactly when the request names the member's own mapping, height in epoch and hash, and the signature carries that hash |
| ProvenHashes.SignsExactlyOwnRotation | websocket_pack/routes.go:692-786 | a rotation is signed exactly when the request names the member's own boundary, hash included, and the member's own hash of the next epoch's data |
| ProvenHashes.ConfirmedIsProven | threads/last_mile_finalizer.go:350-394 | a confirmed block is the one that its leader's seal or an AFP shows, hash included |
| ProvenHashes.RunKeepsHashed | threads/last_mile_finalizer.go:127-437 | over any run whose local hashes are those of finalized blocks, every mapped block is finalized, and every boundary and signature carries its hash |
| ProvenHashes.HeightProofsAgreeOnHash | websocket_pack/routes.go:658-690 | two verified height proofs for one height agree on the block id and on its hash, which is the finalized one |
| ProvenHashes.RotationProofsAgreeOnHash | websocket_pack/routes.go:706-786 | two verified rotation proofs of one epoch agree on finishing block, its hash and the hash of the next epoch's data |
| EpochBoundaries.RunRecordsBoundaries | threads/last_mile_finalizer.go:252-275 | over any run, through turns, fast-forwards and restarts, every epoch that a sequencer has passed has its boundary on record |
| EpochBoundaries.LastBlockRecordsBoundary | threads/last_mile_finalizer.go:401-436 | a turn that maps the last block of the last leader records the epoch's end in the same batch |
| PersistedTracker.RunKeepsAhead | threads/last_mile_finalizer.go:1518-1585 | over every run the stored tracker is the sequencer's own or at the start of a later epoch, reached by a rotation proof of the epoch the sequencer is still in |
| PersistedTracker.TurnStores | threads/last_mile_finalizer.go:1557-1571 | a turn leaves both trackers equal, or leaves its own and stores nothing or the start of a later epoch, which only a fast-forward that was cut short does |
| PersistedTracker.StuckStays | threads/last_mile_finalizer.go:1483-1516 | past the last leader with the epoch's last height unmapped, or at a sealed block with the empty hash and no successor's AFP, no view lets sequencing move |
| PersistedTracker.SomeViewMoves | threads/last_mile_finalizer.go:276-437 | everywhere else in a closed epoch some possible view makes the sequencer store a tracker of its own epoch: the seal's entry, the AFP chain below it, or the epoch's end supplies it |
| PersistedTracker.CanGoBackIff | threads/last_mile_finalizer.go:1518-1585 | over every run some possible turn takes the stored tracker back, in epoch or height, if and only if it differs from the sequencer's own and is not just one epoch ahead of a stuck sequencer |
| LastMileWitness.StoredTrackerCanGoBack | threads/last_mile_finalizer.go:1557-1571 | a run of two sequencers over an epoch of two blocks in which it does: from epoch 1 to epoch 0 and from next height 2 to next height 1 |
| LastMileWitness.SharedHeightIsReached | threads/last_mile_finalizer.go:276-437 | the hypotheses of the agreement results hold of a run in which two sequencers map the same height, one after a cut-short fast-forward |
| LastMileFinalizer.VerifyAggregatedHeightProof | utils/proofs_verification.go:148-166 | accepts exactly the height proofs with a majority of genuine distinct signatures |
| LastMileFinalizer.VerifyAggregatedEpochRotationProof | utils/proofs_verification.go:208-235 | accepts exactly the rotation proofs of the epoch with a matching data hash and a majority of signatures |
| LastMileFinalizer.Finalizer.SyncTrackerToCurrentEpochStart | threads/last_mile_finalizer.go:1518-1585 | the loop leaves the store that `SequencingSteps.FastForwardReaches` describes and the agreement results assume; it ends because epochs remaining decrease |
| LastMileFinalizer.Finalizer.SequenceCurrentBlock | threads/last_mile_finalizer.go:276-437 | skipping, waiting, confirming by seal or by successor and mapping leave the store that the agreement results and the rows of SequencingSteps are about |
| LastMileFinalizer.Finalizer.TakeTurn | threads/last_mile_finalizer.go:221-437 | one pass of the loop leaves the store for which heights agree and are written once |
| LastMileFinalizer.Finalizer.PersistMappingsAndStateTransition | utils/last_mile_sequence.go:111-132 | mappings, tracker and boundary change together |
| LastMileFinalizer.Finalizer.LoadTracker | utils/last_mile_sequence.go:48-62 | a restart continues from the stored tracker |
| LastMileFinalizer.Finalizer.GetHeightProof | websocket_pack/routes.go:619-690 | signs a height exactly when the own mapping, height in epoch and block hash are those of the request; the rows of ProvenHashes say what the signed hash is |
| LastMileFinalizer.Finalizer.GetEpochRotationProof | websocket_pack/routes.go:692-786 | signs a rotation exactly when the own boundary, its hash included, and the own next-epoch data are those of the request |
| FenwickTree.NodeIsComplete | utils/fenwick_tree.go:12-23 | when the one-pass build arrives at a node, everything of its low-bit range has been added |
| FenwickTree.BuildStep | utils/fenwick_tree.go:16-21 | one step of the build keeps the half-built tree and does not overflow |
| FenwickTree.NextCoveringNode | utils/fenwick_tree.go:27-33 | the update path visits exactly the nodes whose range covers the position |
| FenwickTree.AddToParents | utils/fenwick_tree.go:16-21 | the build pass in place completes every node of the tree |
| FenwickTree.StakeFenwickTree.constructor | utils/fenwick_tree.go:12-23 | after the build every node holds the sum of its range |
| FenwickTree.StakeFenwickTree.Remove | utils/fenwick_tree.go:27-33 | after a removal every node holds the sum of its range with the stake taken out, with no underflow |
| FenwickTree.StakeFenwickTree.FindByWeight | utils/fenwick_tree.go:38-55 | returns the position a linear cumulative scan returns, the unique i with prefix(i) <= r < prefix(i+1), or the size when r is not below the total |
| FenwickTree.FallsUnique | utils/fenwick_tree.go:38-55 | at most one position has the weight falling into it |
| FenwickTree.DescentStep | utils/fenwick_tree.go:46-53 | each halving of the bit mask keeps the weight inside the range that is left |
| StakeSelection.DrawIsWithoutReplacement | utils/epoch_related.go:118-126 | a draw takes no position twice, only positions with stake, and min(rounds, positions with stake) of them |
| StakeSelection.DrawExhausts | utils/epoch_related.go:151-159 | with enough rounds every position with stake is drawn |
| StakeSelection.DrawPositions | utils/epoch_related.go:115-126 | the loop over tree and remaining stake equals the draw by linear scan |
| StakeSelection.GetCurrentEpochQuorum | utils/epoch_related.go:86-129 | the whole registry when it is small enough; else the known keys one after the other, each the one whose stake interval contains the random number reduced to the stake still left |
| StakeSelection.SetLeadersSequence | utils/epoch_related.go:131-160 | the known validators in the order of the draw: entry j is the one whose stake interval contains random number j reduced to the stake left without the earlier entries |
| StakeSelection.DrawFallsInTurn | utils/epoch_related.go:115-126 | position j of a draw is the one whose interval, with the earlier positions' stakes zeroed, contains random number j reduced to what is left |
| StakeSelection.EntryFallsInItsStake | utils/epoch_related.go:151-159 | the same of the keys of a registry without repetitions: entry j is the key whose interval contains random number j reduced to the stake without the keys drawn before |
| StakeSelection.DrawnPositionsUnique | utils/epoch_related.go:115-126 | that determines the drawn positions and their order |
| StakeSelection.AllDrawnInOrder | utils/epoch_related.go:86-160 | quorum and leaders are listed in the order of the draw |
| StakeSelection.DrawnKeysFacts | utils/epoch_related.go:86-129 | for a registry without repetitions the drawn list has distinct keys with stake, min(quorum size, keys with stake) of them |
| StakeSelection.LeadersArePermutation | utils/epoch_related.go:131-160 | the leader sequence is a permutation of the validators with stake |
| StakeSelection.SelectLastMileFinalizers | threads/last_mile_finalizer.go:1022-1054 | takes, round by round, the member that the round's random number names among those not taken, the first of these moving into the free place |
| StakeSelection.ShuffleInPlace | threads/last_mile_finalizer.go:1041-1046 | the swaps on the index array leave the shuffled order, a permutation of the positions |
| StakeSelection.FinalizersAreDistinctMembers | threads/last_mile_finalizer.go:1022-1054 | min(5, n) distinct members of the quorum |
| StakeSelection.FinalizersAreTaken | threads/last_mile_finalizer.go:1041-1053 | the shuffled positions name the members that taking one of the remaining per round gives, in that order |
| AnchorSearch.FindEarliestAnchorRotationProof | threads/anchor_rotation_monitor.go:221-308 | the nested loops over anchors, blocks and proofs find what the convergent search finds, and fail on the same missing or foreign blocks |
| AnchorSearch.SearchFindsFirst | threads/anchor_rotation_monitor.go:221-308 | from whatever anchor and limit, a successful search returns the first valid proof for the current anchor in the next anchor's chain |
| AnchorSearch.SearchSucceedsIff | threads/anchor_rotation_monitor.go:221-308 | a search succeeds exactly when, level by level, some readable part of the chain within the bound ends every earlier anchor, the bound below being the first block that ends the anchor below |
| AnchorSearch.SearchConverges | threads/anchor_rotation_monitor.go:221-308 | all successful searches for one anchor agree |
| AnchorSearch.SearchWithHigherLimit | threads/anchor_rotation_monitor.go:235-279 | a search that succeeds also succeeds with any higher limit, with the same result |
| AnchorSearch.SearchSucceedsBelow | threads/anchor_rotation_monitor.go:285-305 | a search that succeeds from an anchor succeeds from every anchor between, with the bound the level above found |
| AnchorSearch.ProcessResponse | threads/anchor_rotation_monitor.go:137-219 | a response gives the search's result exactly when it passes its gates for the block after its highest one, and nothing otherwise |
| AnchorSearch.AcceptedResponsesAgree | threads/anchor_rotation_monitor.go:137-219 | all accepted responses about one anchor give the same stats, whatever anchor and block they name |
| AlignmentThreads.StepKeepsOk | threads/sequence_alignment.go:36-171 | each critical section of either thread and each reset keeps the record well formed, keeps entries and only moves on |
| AlignmentThreads.RunKeepsOk | threads/sequence_alignment.go:36-171 | under every interleaving boundaries cover the anchors before the current one and perhaps its own, the current anchor exists, a recorded boundary has been observed, entries are written once per epoch |
| AlignmentThreads.RecordedBoundaryFlips | threads/sequence_alignment.go:66-77 | once the current boundary is recorded the next pass of the reader flips to the next anchor |
| AlignmentThreads.RecordedMeansExactlyObserved | threads/sequence_alignment.go:48-58 | with genuine anchor chains the pointer is exactly at a recorded boundary until the flip |
| AlignmentThreads.StepPassesBoundaryIff | threads/anchor_rotation_monitor.go:106-120 | a step of either thread takes the pointer past a recorded boundary exactly when it commits an accepted block that was fetched at the boundary, or records for the current anchor a boundary below the pointer |
| AlignmentThreads.PastMeansPassed | threads/sequence_alignment.go:48-58 | under every interleaving a pointer past its boundary got there by such a step |
| AlignmentThreads.PastStaysPast | threads/sequence_alignment.go:60-77 | and it stays past until the flip to the next anchor or the next epoch |
| AlignmentThreads.PointerCanPassBoundary | threads/sequence_alignment.go:48-58 | an interleaving in which a commit does it, against what the comment says can never happen |
| AlignmentThreads.RecordingCanPassBoundary | threads/anchor_rotation_monitor.go:106-112 | a run without a commit in flight in which the recording does it, by any number of blocks |
| AlignmentEntries.CommitEntries | threads/sequence_alignment.go:108-170 | an accepted commit gives every leader of the fetched block an entry, the fetched one unless there was one, no other leader one, and moves the pointer on by one; a refused one changes nothing |
| AlignmentEntries.RecordEntries | threads/anchor_rotation_monitor.go:106-120 | a boundary is recorded once, for the current anchor, as it was found |
| AlignmentEntries.EntriesAreFirstFound | threads/sequence_alignment.go:36-171 | at every point of every interleaving the record has an entry for a leader exactly if an accepted commit of the epoch found it, and it is the entry of the first such commit |
| AlignmentEntries.BoundariesAreRecorded | threads/anchor_rotation_monitor.go:106-120 | and a boundary for an anchor exactly if the monitor recorded it in the epoch, as recorded |
| AlignmentThreads.FinalizerMetadata.FlipToNextAnchor | threads/sequence_alignment.go:66-77 | the flip happens only if epoch, anchor and pointer are still those of the snapshot |
| AlignmentThreads.FinalizerMetadata.CommitFetchedBlock | threads/sequence_alignment.go:108-170 | the commit under the lock, with pointer and entries as the rows of AlignmentEntries state them |
| AlignmentThreads.FinalizerMetadata.RecordRotation | threads/anchor_rotation_monitor.go:106-120 | the monitor's commit under the lock: a boundary is recorded once and the pointer raised to it |
| AlignmentThreads.FinalizerMetadata.RotateEpochIfNeeded | threads/last_mile_finalizer.go:1396-1434 | a different epoch starts from an empty record, the same epoch keeps everything |
| WriteBackCache.EvictIfNeeded | utils/cache_management.go:63-90 | terminates, never drops a touched key, drops the least recently used first and no more than needed; above the cap only touched keys and the empty key are left |
| WriteBackCache.AboveCapMeansAllTouchedIff | utils/cache_management.go:61-90 | the cache stays above its cap only with every key touched, exactly unless the empty key is cached and untouched while touched keys fill the cap |
| WriteBackCache.NewestGoesLast | utils/cache_management.go:40-90 | the most recent key is dropped only when nothing else may be dropped |
| WriteBackCache.KeptKeys | utils/cache_management.go:63-90 | which touched records stay cached depends on the order of the touches and the cap, and on nothing else the cache holds |
| WriteBackCache.Cache.Touch | utils/cache_management.go:40-49 | the key becomes the first of the recency list, which keeps its form |
| WriteBackCache.Cache.Put | utils/cache_management.go:108-116 | the record is cached as the most recent one; what eviction may take of it and of the others, and which touched records stay cached |
| WriteBackCache.Cache.GetOrCreate | utils/db_interaction.go:45-87 | the read through touched set, cache and store returns the record of the logical map, creating and counting it when there is none |
| WriteBackCache.Cache.GetExisting | utils/db_interaction.go:207-242 | the same without creation |
| WriteBackCache.Cache.Peek | utils/db_interaction.go:120-165 | the read of the other threads returns the logical value and leaves nothing pending |
| WriteBackCache.Cache.Write | threads/block_execution.go:842-843 | an update through a fetched reference changes one record of the logical map |
| WriteBackCache.Cache.Commit | threads/block_execution.go:748-765 | after a commit the store is the logical map and every cached value is the stored one |
| WriteBackCache.Cache.ResetTouched | utils/cache_management.go:17-24 | forgetting the touched set after a commit loses nothing |
| WriteBackCache.Cache.CreateIfAbsent | system_contracts/delayed_transactions.go:105-131 | creation happens when the key is in neither cache nor store |
| WriteBackCache.Cache.CreationCheckExactIff | system_contracts/delayed_transactions.go:107-114 | that check means "does not exist" exactly unless the record is only in the touched set |
| WriteBackCache.CreateHidden | system_contracts/delayed_transactions.go:105-131 | a record created while the touched records fill the cap is at once neither cached nor stored |
| WriteBackCache.CreateHiddenRecord | system_contracts/delayed_transactions.go:105-131 | over an empty store with a cap of one that is the second record created |
| WriteBackCache.SecondCreationReplaces | system_contracts/delayed_transactions.go:105-131 | creating such an existing record again succeeds and replaces its value |
| Ledger.SucceedsIffPasses | threads/block_execution.go:834-893 | a transaction succeeds exactly when keys, signature, nonce and the balance for its kind are in order |
| Ledger.ExecuteConservesIff | threads/block_execution.go:834-893 | a transaction conserves balances, fee and pending stake exactly unless these checks pass and what it spends, or for a transfer the receiver's balance but not both, overflows 64 bits |
| Ledger.OverflowingTransferMintsValue | threads/block_execution.go:864-887 | a concrete transfer whose fee and amount overflow and that makes value |
| Ledger.BlockConserves | threads/block_execution.go:706-746 | a block conserves balances plus pending stakes, also when sender, receiver and creator coincide |
| Ledger.BlocksConserve | threads/block_execution.go:671-704 | any run of blocks does |
| Ledger.SuccessesUseGrowingNonces | threads/block_execution.go:868-887 | the successful transactions of one sender carry strictly growing nonces |
| Ledger.SucceedsAtMostOnce | threads/block_execution.go:868-887 | a transaction of a sender outside the bypass list succeeds at most once in a run |
| AccountLaws.PassesIff | threads/block_execution.go:834-952 | one rule for all kinds: keys, signature, nonce or bypass, a balance for the 64-bit sum of what is spent, the creator's own key for a description, a number for a stake |
| AccountLaws.BalanceAfter | threads/block_execution.go:834-893 | every balance after any transaction, modulo 64 bits: the sender less fee and amount or stake, the receiver plus the amount, both at once when they are one account, all others as before; nothing moves unless it passes |
| AccountLaws.BalanceAfterExactly | threads/block_execution.go:864-889 | the same without wrapping when what is spent and the supply fit 64 bits |
| AccountLaws.CountersAfter | threads/block_execution.go:841-887 | every counter and nonce after a transaction, which accounts exist then, the fee collected and the payload recorded |
| AccountLaws.BalanceAfterBlock | threads/block_execution.go:671-746 | every balance after a block, modulo 64 bits: what it was, what the transactions that pass moved to and from it, and for the creator their fees |
| AccountLaws.BalanceAfterBlockExactly | threads/block_execution.go:671-746 | the same without wrapping when the supply and what is spent fit |
| AccountLaws.BalanceAfterBlocks | threads/block_execution.go:653-704 | the same over any run of blocks |
| AccountLaws.CollectedInOrder | threads/block_execution.go:710-716 | a block records the payloads of exactly its delayed transactions that pass, in their order |
| AccountLaws.ListAfterBlocks | threads/block_execution.go:954-981 | over any run each list grows by what the blocks for its epoch record, in their order, and loses nothing |
| BlockExecution.Executor.ExecuteDelayedTransaction | threads/block_execution.go:845-862 | fee, stake and counters through one fetched reference change exactly the sender, as the rows of AccountLaws state, and nothing when refused |
| BlockExecution.Executor.ExecuteTransfer | threads/block_execution.go:864-889 | updates through two references, which are one object when sender and receiver coincide, give the accounts that the conservation lemma and the rows of AccountLaws are about |
| BlockExecution.Executor.ApplyTransactions | threads/block_execution.go:706-746 | the loop gives the accounts, fees and delayed payloads whose value is conserved |
| BlockExecution.Executor.ExecuteBlock | threads/block_execution.go:671-704 | after a block the store is what the ledger says, and every cached value is the stored one |
| BlockExecution.Executor.ExecuteBlocks | threads/block_execution.go:653-704 | any run of blocks leaves in the store what the ledger's run leaves, whatever was evicted |
| BlockExecution.Executor.ExecuteTransaction | threads/block_execution.go:834-893 | an attempt is counted once its signature holds, and nothing else changes unless it succeeds |
| BlockExecution.Executor.SendFeesToValidatorAccount | threads/block_execution.go:826-832 | the creator's account, created if needed and perhaps also a sender or receiver, gets the fees and no other account changes |
| ChainCursor.StepKeepsHeights | threads/block_execution.go:767-794 | each step keeps last height = local height + offset; only executing a block adds an index entry, at the next absolute height |
| ChainCursor.RunKeepsHeights | threads/block_execution.go:767-812 | over any run of blocks, rotations and recoveries the equation holds, the block index has no gap and no entry is rewritten |
| ChainCursor.StepKeepsEpochs | utils/recovery_transition.go:22-62 | epoch records are stored once per absolute epoch; a recovery keeps that exactly when its plan names the epoch it happens in |
| ChainCursor.RunKeepsEpochs | utils/recovery_transition.go:22-62 | over any run whose recoveries do, epoch records have no gap and are never rewritten |
| ChainCursor.RunKeepsCounts | threads/block_execution.go:767-794 | over any such run each block is counted once for the lifetime and once for its epoch: the counts of finished epochs and the current one add up to the lifetime's |
| ChainCursor.BlocksCounted | threads/block_execution.go:767-794 | over any run the lifetime count grows with the last height |
| ChainCursor.RunKeepsEpochHeights | threads/block_execution.go:779-785 | the statistics of an epoch name the local height of its last block, or none |
| ChainCursor.FinishedEpochIsStored | threads/block_execution.go:983-1036 | the stored statistics of an epoch are those it has counted, with the block that reaches the plan when a recovery ends it; the next epoch counts anew |
| ChainCursor.RecoveryStarts | utils/recovery_transition.go:22-81 | a recovery starts the plan's network at local height and epoch zero, whose first block gets the absolute height after the plan's; nothing else changes network or offsets |
| ChainCursor.DecodeInvertsEncode | structures/chain_cursor.go:47-73 | decoding a stored cursor gives it back |
| ChainCursor.LegacyDecodeInStepIff | structures/chain_cursor.go:61-69 | a stored cursor without a local height is restored in step exactly when its era had begun |
| ChainCursor.LegacyRoundTrip | structures/chain_cursor.go:61-69 | dropping the local height of a cursor in step loses nothing |
| ChainCursor.RestartInStepIff | entrypoint.go:504-525 | a restart from a new genesis is in step exactly when the offset follows the last absolute height |
| ChainCursor.ExecutionMetadata.ExecuteBlock | threads/block_execution.go:767-812 | the updates in place and the batch keep cursor and block index in step; it fails only on an unusable plan, with nothing written |
| ChainCursor.ExecutionMetadata.ApplyRecoveryTransition | utils/recovery_transition.go:22-81 | the move to the new network continues absolute heights and epochs after the plan's last ones, and changes nothing when the plan is unusable |
| ChainCursor.ExecutionMetadata.RotateEpoch | threads/block_execution.go:983-1036 | the finishing epoch is stored under its absolute number and the next one begins, local heights running on |
| DelayedTransactions.StakedBalanced | system_contracts/delayed_transactions.go:189-193 | staking keeps the total equal to the sum over stakers |
| DelayedTransactions.UnstakedBalanced | system_contracts/delayed_transactions.go:228-253 | unstaking does too, and never underflows |
| DelayedTransactions.ApplyKeepsSound | system_contracts/delayed_transactions.go:90-260 | each delayed transaction keeps totals and registry sound, and what was pending is staked or lost |
| DelayedTransactions.ListKeepsSound | system_contracts/delayed_transactions.go:90-260 | on the plain map so does any list, and with the requirement untouched registry membership keeps meaning the required stake; the run over a cache is the subject of the rows of BatchLaws |
| DelayedTransactions.VoteKeepsQualifiedIff | system_contracts/delayed_transactions.go:262-324 | after a vote every registered validator has the required stake exactly when each has the number the vote asks for, or had the old one when no majority asks for a number that parses |
| DelayedTransactions.RemoveFirstHas | system_contracts/delayed_transactions.go:507-514 | removing from a duplicate-free registry removes that member and no other |
| DelayedTransactions.OrderByPriority | threads/epoch_rotation.go:163-173 | the two appended lists give an order that keeps every typed transaction, votes first |
| DelayedTransactions.ByPriorityFacts | threads/epoch_rotation.go:163-173 | the order holds every typed transaction as often as the list does, votes first |
| DelayedTransactions.PriorityKeepsOrder | threads/epoch_rotation.go:163-173 | votes keep their order in the list, the rest keep theirs, each taken once |
| DelayedTransactions.ReplayLosesRejectedStakes | system_contracts/delayed_transactions.go:165-260 | on the plain map a list keeps balances, stakes and pending stakes except for exactly the stakes it rejects; the replay over a cache is the subject of the rows of BatchLaws |
| DelayedTransactions.ReplayConservesIff | system_contracts/delayed_transactions.go:165-260 | on the plain map a list conserves exactly when it rejects no positive stake |
| DelayedTransactions.AcceptedStakeCanBeLost | system_contracts/delayed_transactions.go:165-206 | a concrete stake to a validator that does not exist is accepted by a block, taken off the sender and lost by the replay |
| DelayedTransactions.RefundCanNameEmptyAccount | system_contracts/delayed_transactions.go:208-260 | a stake that names no staker, when unstaked, is paid to the account with the empty key |
| DelayedBatches.CreationIsPlainIff | system_contracts/delayed_transactions.go:105-131 | in a batch a creation does what it does on the plain map exactly unless it names a validator that is only in the touched set and would change it |
| DelayedBatches.CreationStake | system_contracts/delayed_transactions.go:105-131 | a creation takes out of the books exactly the stake of a hidden validator that it replaces |
| DelayedBatches.CreationKeepsStakeIff | system_contracts/delayed_transactions.go:105-131 | it keeps everything staked exactly unless such a validator had stake, which is then gone |
| DelayedBatches.BatchIsPlain | threads/epoch_rotation.go:175-189 | a list that creates no validator twice past the first `cap` transactions, such as any list no longer than the cap, comes out as on the plain map, refunds included |
| DelayedBatches.OutcomeDependsOnCap | utils/cache_management.go:118-126 | over a list that creates n validators and then another one twice, a cap of n keeps its second creation and every larger cap its first |
| DelayedBatches.AlwaysAgreeIff | entrypoint.go:433-439 | two caches make every list come out the same from every state if and only if their caps are equal, or both mean no limit |
| BatchLaws.BatchLosesRejectedAndWiped | threads/block_execution.go:1024-1027 | the run of any list over a cache of any cap: balances and stakes after, the stakes it rejects and the stakes of the hidden validators it creates again make up balances, stakes and pending stakes before |
| BatchLaws.BatchConservesIff | threads/block_execution.go:1024-1027 | it conserves balances, stakes and pending stakes if and only if it rejects no positive stake and creates no hidden validator that has stake |
| BatchLaws.LosesAsOnPlainMap | system_contracts/delayed_transactions.go:165-260 | for a list that creates no validator twice past the cap these are exactly the lists that reject a positive stake on the plain map |
| BatchLaws.CreationKeepsQualifiedIff | system_contracts/delayed_transactions.go:105-131 | a creation keeps every registered validator at the required stake exactly unless it names one that is hidden while the requirement is positive |
| BatchLaws.StepKeepsQualifiedIff | system_contracts/delayed_transactions.go:90-324 | so does any transaction exactly unless it is such a creation or an accepted vote for a requirement that some registered validator does not have |
| BatchLaws.QualifiedThroughoutIff | threads/epoch_rotation.go:175-189 | registry membership means the required stake at every point of the run of any list exactly when no transaction on the way is one of those |
| BatchLaws.BatchKeepsSound | system_contracts/delayed_transactions.go:90-324 | over any list and any cap totals and registry stay sound, no stake comes from nowhere, and without those transactions registry membership means the required stake at the end |
| BatchLaws.CreatesOnceKeepsQualified | threads/epoch_rotation.go:175-189 | it does for every list that creates no validator twice past the cap and holds no vote on the requirement |
| DelayedEffects.StakeAfter | system_contracts/delayed_transactions.go:165-260 | the stake of everybody with every validator after a transaction: an accepted stake adds its amount to its staker, an accepted unstaking takes it off its unstaker, nothing else moves one |
| DelayedEffects.UnstakeUndoesStakeIff | system_contracts/delayed_transactions.go:189-253 | taking out what was just staked gives the validator back exactly unless the staker was listed with nothing, as a creator is |
| DelayedEffects.RegisteredAfter | system_contracts/delayed_transactions.go:195-253 | who is registered after a transaction: joined by an accepted stake whose total reaches the requirement, removed by an accepted unstaking whose total falls below |
| DelayedEffects.RegistryKeepsOrder | system_contracts/delayed_transactions.go:507-514 | who joins is put last, who leaves leaves the others in order |
| DelayedEffects.DescriptionAfter | system_contracts/delayed_transactions.go:90-163 | owner, both addresses and percentage of every validator after a transaction, each under its name in the payload; only a creation of a new and an update of an existing validator set them |
| DelayedEffects.ListKeepsWellDescribed | system_contracts/delayed_transactions.go:90-163 | through any list validators stay under their own key, with addresses and a percentage of at most 100 |
| DelayedEffects.ParameterAfter | system_contracts/delayed_transactions.go:262-344 | every parameter by its name after a transaction: a majority's vote sets the one it names to its number, and nothing else changes any |
| DelayedEffects.ChangeHasHonestVote | system_contracts/delayed_transactions.go:262-376 | when a parameter is not the same after a batch, an honest member of the quorum has voted for the number it then has |
| DelayedEffects.VersionAfter | system_contracts/delayed_transactions.go:272-292 | the version changes only to the number that a majority voted for |
| DelayedEffects.BatchMoves | threads/block_execution.go:1024-1027 | after any list under any cap: every stake is what it was, plus and less what was accepted and less what a second creation wiped, and every balance is what it was plus all that was unstaked to it |
| BatchWitness.RegisteredWithoutStake | system_contracts/delayed_transactions.go:105-131 | a list without votes or rejected stakes that over a cap of one leaves a registered validator without stake and loses what was staked with it |
| DelayedExecution.RemoveFromList | system_contracts/delayed_transactions.go:507-514 | the loop removes the first occurrence |
| DelayedExecution.VerifyMajority | system_contracts/delayed_transactions.go:346-376 | a ballot passes exactly with a non-empty agreement map and a majority of genuine distinct signatures |
| DelayedExecution.ThreadContext.CreateValidator | system_contracts/delayed_transactions.go:90-131 | the operation over the cache is the batch's creation, whose agreement with the plain map is stated exactly |
| DelayedExecution.ThreadContext.Fetch | utils/db_interaction.go:170-242 | the getter of either thread finds exactly the validators that exist and changes only which records are touched and cached |
| DelayedExecution.ThreadContext.StakeBy | system_contracts/delayed_transactions.go:165-206 | staking through a fetched reference changes that validator only and registers it exactly when it reaches the requirement |
| DelayedExecution.ThreadContext.UnstakeBy | system_contracts/delayed_transactions.go:208-260 | unstaking through a fetched reference changes that validator only, unregisters it exactly when it falls below the requirement, and says whether a refund is due |
| DelayedExecution.ThreadContext.VotingAccept | system_contracts/delayed_transactions.go:262-324 | only a ballot with a valid value and a majority changes version or parameters |
| DelayedExecution.ThreadContext.RunList | threads/epoch_rotation.go:175-189 | a run of any list leaves the state that depends on the starting state, the list and the cap only, whatever the cache held or evicted |
| DelayedExecution.ThreadContext.ReplayList | threads/block_execution.go:1024-1027 | so does the replay of any list, with the accounts that its refunds leave |
| DelayedExecution.ThreadContext.UpdateValidator | system_contracts/delayed_transactions.go:133-163 | only the description of an existing validator changes |
| DelayedExecution.DecideNextEpoch | threads/epoch_rotation.go:163-222 | the signed registry and list are those of the ordered run |
| DelayedExecution.ReplayNextEpoch | threads/block_execution.go:1024-1029 | the replay of the signed list leaves the state and accounts that the laws of BatchLaws are about, and where it creates no validator twice past the cap those of the plain list |
| DelayedExecution.DecideAndReplay | threads/block_execution.go:1024-1029 | both threads run one after the other from equal states: they end in one state, with the registry that was signed, for every list when their caps are equal, as entrypoint.go:433-439 sets them, and otherwise for every list that creates no validator twice past either cap; the accounts are those that the conservation law is about |
| DelayedExecution.CapsCanDisagree | utils/cache_management.go:118-126 | for any two different caps there is a list, one that creates a validator twice, after which two threads that start from one state hold different validators |

## Left out

- DelayedExecution.ThreadContext.ReplayList: accounts are the plain map that their cache stands for, so eviction of accounts during a replay is covered by `BlockExecution` only.
- DelayedExecution.RemoveFromList: works on a value; that the program's slice shares its array with older slices is not captured.
- StakeSelection.GetCurrentEpochQuorum: negative quorum sizes are not modelled.
- AlignmentThreads.RunKeepsOk: an epoch that the finalizer would return to within one process is not modelled.
- Agreement of the alignment entries between nodes: the monitor may move the observed pointer past unread anchor blocks.
- Liveness of voting and sequencing: only safety, and that the loops end, is proved.
- The catch-up inside an epoch (threads/last_mile_finalizer.go:771-843), which writes the sequencer's stored tracker from a second thread.
- Epoch handlers derived for an epoch the node has not entered (websocket_pack/routes.go:123-178), which use wall-clock time.
- Collection, delivery and acknowledgement of height, rotation and announcement proofs over the network.
- The constant at threads/epoch_rotation.go:30 that empties the delayed list today; the general path is modelled.
- Start timestamps of the next epoch, which the two contexts compute from an epoch duration read at different moments.
- Recovery settlement of delayed stakes (utils/recovery_transition.go:144-195) and the staging of genesis accounts and validators.
- Receipts, failure reasons, transaction counters, fee totals and the staking delta of the statistics.
- Reads of corrupt stored records and database errors, on which the program stops.
- HTTP, websocket, JSON encoding, timers, logging, configuration, mempool and debug routes.
- Ed25519 (section 5.1 of RFC 8032), BLAKE3, base58 and key derivation.
