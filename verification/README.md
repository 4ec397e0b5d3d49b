# Consensus, light client and recovery of the arx node

A Dafny model of the parts of the arx node on which agreement and recovery rest, with proofs over every run. The files:

- `Types`, `BitVec`, `VotingPower`, `MultiSignatures`, `Certificates`, `ValidatorSets`: validators, weighted quorums, bit masks, aggregate signatures, quorum and timeout certificates.
- `PendingVotes`, `CollectorRuns`, `CollectorOutcomes`, `CollectorTimeouts`, `CollectorCertificates`, `VoteStatistics`: the collector that turns the votes of a round into a certificate, through any sequence of inserts and drains.
- `SafetyRules`, `TwoChain`, `Agreement`, `Progress`, `TimeoutRuns`, `RoundZero`: the two-chain rules of one validator (votes, timeouts, and the commit votes of decoupled execution), and a network of honest validators that run them among Byzantine ones. The main theorem is commit safety: two certificates that commit, of votes or of commit votes, assembled anywhere and at any time of any run, commit blocks of one branch, before or after execution. Round 0, which nobody signs, is the one exception, and is treated separately.
- `RoundManager`, `NodeMemory`, `NodeRuns`: what one validator sends and remembers over proposals, timeouts, failures, restarts and epochs.
- `EpochChange`, `TrustedState`, `LedgerOfRun`, `CatchUp`, `Initialization`: epoch-change proofs, the light client's ratchet against the ledger that a run of the validators commits, catching up in pieces, and the loop that initialises the safety rules.
- `Recovery`, `StoreWrites`: rebuilding the block tree after a restart, from any database and from what a node writes to it.
- `Payload`, `StateScan`, `ModulePages`, `Sequences`: fetching a block's transactions, the versioned prefix scan of the state store, and module paging on top of it.

Code that mutates is a class or a method with loops, proved equal to a function on values; the properties are lemmas about these functions, over sequences of operations, events, responses or steps.

## Modelling decisions

- Cryptography is symbolic. A hash is the term that was hashed. A signature is the bag of (key, message) pairs behind it, aggregation adds bags, and verification compares the bag with the expected one. Nothing else is taken as given about signatures: what a verified certificate says about its signers is proved.
- Integers are unbounded. Where the source wraps, truncates or checks (bit positions and validator counts as `u16`, `next_round`, `total - quorum`, epoch increments) the model says so. `PowerUnderflow` stands for the panic of the unsigned subtraction; `None`, `Panicked` or an error constructor stands for other panics.
- Network, storage, executor, clock and batch reader are parameters: which calls fail, what a response contains and what a receiver yields are arbitrary unless a `requires` says otherwise.
- `FromBlockStore` in `TwoChain` lists what the safety rules take from the block store: timeout certificates are of the block's epoch, which `verify_tc` does not check. Nothing is assumed of a round-0 parent. A certificate of round 0 needs no signature, and the block store looks a parent up by its id, so a proposer may present the genesis of the epoch with any version and state root.
- `FromBufferManager` in `TwoChain` does the same for commit votes: the ordered ledger info is of the validator's epoch and commits a block above round 0 (the block store orders only what is above its root), and the executed one keeps its data hash. `guarded_sign_commit_vote` checks none of these.
- `LedgerHolds` in `LedgerOfRun` ties a ledger to a run: same epochs and committees, honest validators agree on the execution of a block, and the ledger holds the execution of every block above round 0 that the run commits. `LedgerHoldsAt` shows that these hold together for runs of every length.
- `VotesApart` in `LedgerOfRun` says that no info of round 0 that was voted on has, by coincidence, a version and state root of the ledger other than those in which its epoch started. The conditions on the light client suffice without it (`RatchetRunSoundInRun`); it makes them necessary. `VotesApartAt` shows that it holds for runs of every length.
- `StoreWrites` follows the database, the block tree in memory and the latest commit through saved blocks and certificates, synced trees, commits, prunes and restarts. Its steps carry the checks that the block store makes before it writes; that a stored certificate names its block's parent and commits it iff the rounds are consecutive is what `CommitInfoIsParent` proves of certificates.
- `ValidConfig` states the fault assumption: per epoch, unique addresses, at most 65535 validators, a quorum above two thirds (proved for the default quorum) and Byzantine power of at most total minus quorum.

## Where the code falls short of a law, and exactly when

- A light client does not always stay on the ledger. Validators also sign what is not on it: votes for blocks that are ordered and not executed (version 0), and votes in round 1, which commit an info of round 0 with whatever version and state root the proposer gave it. When a response changes the epoch, the code takes the latest ledger info if it verifies in the new epoch, without comparing it with the epoch change. The client stays on the ledger iff it never takes a latest ledger info that is of round 0 or no newer than the epoch change it comes with (`StaysIff`, `OnLedgerThroughoutIff`, `RatchetRunSoundInRun`; "only if" under `VotesApart`, since an info of round 0 could repeat what the ledger says). `StaleResponseIsTaken` and `MadeUpIsTaken` have the failing responses, put together from runs.
- Nor does it always hold a state of the ledger. A client past version 0 has the version and state root of a committed ledger info all the way iff it never takes a latest ledger info of round 0, other than one with the version and state root of the epoch change it comes with (`HoldsStateIff`, `HoldsStateThroughoutIff`, `RatchetRunSoundInRun`; "only if" under `VotesApart`). `MadeUpIsTaken` has a client that takes any version at all. In every case the client's epoch stays canonical.
- Receiving a response twice changes nothing more than receiving it once (`ApplyTwice`), but the second time can be an error: `RepeatedResponse` says that it is not exactly if the client took the latest ledger info and that does not end the client's epoch, and `EpochEndRepeated` has the answers for which it is.
- After voting in a round a validator sends only timeouts on that vote while it stays in the round, crashes included (`OnlyTimeoutsAfterVote`). If a restart takes it out of the round and it comes back, it has forgotten the vote and sends it again (`VoteCanBeRepeated`). `ProposalSentIff` says exactly when a vote is sent; it is always the same vote (`OneBallotPerRound`).
- Commit safety has an exception in round 0. Two commits above round 0 are on one branch, and so are two commits of round 0 (`CommitSafety`). A commit of round 0 and one above it are on one branch iff the second block's chain starts from the info that the first commits (`RoundZeroCommitIff`). `RoundZeroCanFork` has a run in which it starts from one with the same id and another version and state root.
- An honest validator can be accused of equivocating: a commit vote has the form of a vote for the same block with another ledger info. A collector accuses an author iff its vote has another digest than the first vote inserted for it (`AccusedIff`); in a run, an honest author is accused iff the two carry different ledger infos, and then one of them is a commit vote (`HonestAccusedIff`). `CommitVoteCanAccuse` has an instance.
- Catching up in pieces does not work for every piece size. The server starts each answer at the epoch of the client's version, so an answer of one epoch repeats what the client knows. `CatchesUpIff` gives the exact condition (two epochs per answer always suffice; the source uses 100) and `SingleEpochsAreNotEnough` a ledger on which one is not enough.
- The comment in `perform_initialize` says that it goes on as long as the waypoint increases. The code goes on only while the waypoint is behind the safety data, so a validator that is many epochs behind stops at the end of an answer. `InitializationIsLatestIff` says exactly when the loop ends in the latest epoch and `InitializationCanStopShort` gives, for the source's hundred epochs per answer, instances in which it does not.
- Recovering twice is not always the same as recovering once. If every certificate that commits the root certifies a block outside the recovered tree, the first recovery deletes them and the second fails. `RecoveryIsStable` gives the exact condition and `FirstRecoveryCanBeTheLast` a database on which it fails. A node does not write such a database: on everything it writes the condition holds (`WrittenIsRooted`), so the second recovery cannot fail (`SecondRecoverySucceeds`).
- The collector's `total - quorum` underflows in some run of verified votes exactly when all validators have no power (`UnderflowIffPowerless`).
- Module paging never ends with a limit of zero (`ZeroLimitStalls`), which the endpoint rejects (`api/src/page.rs`, lines 84-90); from one on it is complete (`PagesAreComplete`).

## Model

| member | source | states |
|---|---|---|
| BitVectors.SetAddsOnePosition | crates/arx-bitvec/src/lib.rs:87-108 | setting a position, with growth, changes membership of that position only |
| BitVectors.LastSetBitIsGreatest | crates/arx-bitvec/src/lib.rs:122-131 | the last set bit is the greatest set position, and is absent iff no position is set |
| BitVectors.IterOnesMembers | crates/arx-bitvec/src/lib.rs:134-136 | the iteration yields exactly the set positions |
| VotingPower.DefaultQuorumIsSuperMajority | types/src/validator_verifier.rs:143-151 | the default quorum is above two thirds of any power distribution, and reachable iff the total is positive |
| VotingPower.PowerFitsU128 | types/src/validator_verifier.rs:143-151 | with u64 powers and at most 65535 validators the u128 arithmetic does not overflow |
| VotingPower.HonestInBoth | types/src/validator_verifier.rs:143-151 | any two quorums share a validator that is not Byzantine |
| VotingPower.HonestInFPlusOne | consensus/src/pending_votes.rs:200-211 | a set of power f+1 contains an honest validator |
| VotingPower.FPlusOneMeetsQuorum | consensus/src/pending_votes.rs:200-211 | a set of power f+1 meets every quorum |
| MultiSignatures.CheckVotingPower | types/src/validator_verifier.rs:315-335 | the loop returns the verdict of the specification: first unknown author, or the sum against the quorum |
| MultiSignatures.VerdictOfDistinctAuthors | types/src/validator_verifier.rs:315-335 | on distinct known authors the verdict depends only on their set: accepted iff its power reaches the quorum, otherwise the error reports exactly that power |
| MultiSignatures.AggregateSignatures | types/src/validator_verifier.rs:197-216 | the loop returns the aggregate of the specification, or fails on an unknown author |
| MultiSignatures.VerifyMultiSignatures | types/src/validator_verifier.rs:222-263 | the checks return the verdict of the specification, error by error |
| MultiSignatures.VerifyAggregateSignatures | types/src/validator_verifier.rs:265-294 | the same for one message per voter |
| MultiSignatures.MultiSignatureSound | types/src/validator_verifier.rs:222-263 | what verifies carries a quorum, and every masked voter's own signature on the message |
| MultiSignatures.AggregateSound | types/src/validator_verifier.rs:265-294 | the same with one message per voter: the voter at the k-th set position signed the k-th message |
| MultiSignatures.MaskRoundTrip | types/src/validator_verifier.rs:197-216 | for any signature map over known authors the mask decodes to exactly the map's keys and passes the size check |
| MultiSignatures.MultiSignatureRoundTrip | types/src/validator_verifier.rs:197-310 | valid signatures of one message by a quorum aggregate to something that verifies |
| MultiSignatures.AggregateIsUnique | types/src/validator_verifier.rs:222-310 | a message and a set of signers have one aggregate that verifies: masks with other buckets or stray bits are rejected |
| MultiSignatures.VoterAddressesInOrder | types/src/aggregate_signature.rs:43-58 | the decoded addresses are those at the set positions, in position order |
| MultiSignatures.VoterAddressesAreVoters | types/src/aggregate_signature.rs:43-58 | every masked voter is listed, once, and nobody else |
| Certificates.TcSound | consensus/consensus-types/src/timeout_2chain.rs:141-178 | a verified timeout certificate carries a quorum that timed out in its round, none of them with a quorum certificate above the certificate's own |
| Certificates.ChainAscends | consensus/consensus-types/src/vote_data.rs:52-73 | along any chain of verified certificates the epoch stays, rounds grow, and neither time nor, where blocks are executed, the version goes back |
| Certificates.AddKeepsTimeoutsSigned | consensus/consensus-types/src/timeout_2chain.rs:236-258 | adding a verified timeout of a new author keeps all rounds signed and the highest one carried |
| Certificates.TimeoutCertRoundTrip | consensus/consensus-types/src/timeout_2chain.rs:261-276 | timeouts signed by a quorum aggregate to a certificate that verifies, with voters and rounds in matching order |
| ValidatorSets.FromValidatorSet | types/src/validator_verifier.rs:405-429 | the conversion returns iff the on-chain indices are exactly 0..n-1, and then each validator sits at its own index |
| ValidatorSets.LastEntryIsKept | types/src/validator_verifier.rs:405-429 | of entries with the same index the last one is kept |
| ValidatorSets.KeysBelowCount | types/src/validator_verifier.rs:405-429 | pigeonhole: n distinct keys below n are 0, 1, ..., n-1 |
| VoteCollection.PendingVotes.constructor | consensus/src/pending_votes.rs:73-81 | a new collector is empty and has echoed nothing |
| VoteCollection.PendingVotes.InsertVote | consensus/src/pending_votes.rs:84-218 | new state and answer are those of the insertion function, on every path |
| VoteCollection.PendingVotes.DrainVotes | consensus/src/pending_votes.rs:220-230 | votes and partial timeout certificate are taken; who voted for what and the echo flag stay |
| CollectorRuns.StepKeeps | consensus/src/pending_votes.rs:84-230 | every operation keeps the invariant: signatures sit under the digest recorded for their author, and no author's record or the echo flag changes back |
| CollectorRuns.RecordedPersists | consensus/src/pending_votes.rs:96-125 | an author's digest, once recorded, stays through any run |
| CollectorRuns.SignerSetsDisjoint | consensus/src/pending_votes.rs:96-141 | after any run the signers of two digests are disjoint and weigh at most the total together |
| CollectorRuns.CertificateMeansRecordedQuorum | consensus/src/pending_votes.rs:143-170 | a certificate is for the inserted vote's ledger info, and the authors recorded for it hold a quorum |
| CollectorRuns.OneCertifiedDigest | consensus/src/pending_votes.rs:84-230 | one collector certifies at most one ledger info, whatever it is fed and however often it is drained |
| CollectorRuns.CollectorsAgree | consensus/src/pending_votes.rs:84-170 | two collectors fed different, reordered or repeated votes never certify different ledger infos, if honest validators vote for one digest |
| CollectorOutcomes.HoldsWhatWasDelivered | consensus/src/pending_votes.rs:96-141 | without drains and equivocation, the authors recorded and signed under a digest are exactly those delivered for it |
| CollectorOutcomes.AnswerInRun | consensus/src/pending_votes.rs:143-218 | `VoteAdded(p)` reports exactly the distinct-author power delivered for the digest, below the quorum; the vote that completes a quorum is answered with a certificate |
| CollectorOutcomes.CertifiedIffQuorumDelivered | consensus/src/pending_votes.rs:84-218 | a digest is certified in a run iff the distinct authors delivered for it hold a quorum, whatever order, repetition or timeout upgrades |
| CollectorTimeouts.AnswerIs | consensus/src/pending_votes.rs:84-218 | the answer to every vote of a run, exactly: duplicate, quorum certificate, timeout certificate, echo or added, by the powers of the distinct authors delivered for its digest and of those whose timeouts count |
| CollectorTimeouts.TimeoutSignersAre | consensus/src/pending_votes.rs:176-181 | the collected timeout signers are exactly the authors whose timeout was delivered while their digest was short of a quorum |
| CollectorTimeouts.TimedOutIffQuorumDelivered | consensus/src/pending_votes.rs:176-198 | a timeout certificate is handed out in a run iff these authors hold a quorum, whatever order, repetition or echoes |
| CollectorOutcomes.EchoInvariantHolds | consensus/src/pending_votes.rs:176-211 | after every operation of every run, timeouts of power f+1 short of a quorum have been echoed |
| CollectorOutcomes.EchoMeaning | consensus/src/pending_votes.rs:176-211 | an echo reports the timeout signers' power, at least f+1 and below the quorum; they include an honest validator and meet every quorum |
| CollectorOutcomes.EchoAtMostOnce | consensus/src/pending_votes.rs:200-211 | a collector echoes at most once, drains included |
| CollectorCertificates.EmittedQcVerifies | consensus/src/pending_votes.rs:143-170 | every quorum certificate handed out in a run of verified votes verifies under the same verifier, voting power included |
| CollectorCertificates.EmittedTcVerifies | consensus/src/pending_votes.rs:176-198 | every timeout certificate handed out in a run of verified votes verifies, for the votes' epoch and round |
| CollectorCertificates.UnderflowIffPowerless | consensus/src/pending_votes.rs:200-206 | with the default quorum the subtraction underflows iff the validators have no power: then on a first verified timeout vote, otherwise on no vote of any run |
| VoteStatistics.CollectedVoteStats | consensus/src/round_manager.rs:314-343 | the best supported tally, and the rest as conflicting, with no underflow in either subtraction |
| VoteStatistics.StatsWithinTotal | consensus/src/round_manager.rs:314-343 | after any run of the collector the two powers sum to at most the total |
| VoteStatistics.KnownTallyCounts | consensus/src/round_manager.rs:314-343 | the number of votes in a tally is the number of known signers |
| TwoChainRules.SafetyRules.ConstructAndSignVote | consensus/safety-rules/src/safety_rules_2chain.rs:48-93 | persisted state and answer are those of the signing function, error by error |
| TwoChainRules.SafetyRules.SignTimeoutWithQc | consensus/safety-rules/src/safety_rules_2chain.rs:17-46 | the same for timeouts |
| TwoChainRules.SafetyRules.SignCommit | consensus/safety-rules/src/safety_rules.rs:327-361 | the answer to a request for a commit vote is that of the signing function, error by error |
| TwoChainRules.SafetyRules.EnterEpoch | consensus/safety-rules/src/safety_rules.rs:233-259 | safety data restarts only in a later epoch |
| TwoChainRules.FreshVote | consensus/safety-rules/src/safety_rules_2chain.rs:48-171 | what a new vote commits its signer to: epoch, a round above every earlier one, what it commits, the vote rule, and the new persisted state |
| TwoChainRules.VoteSays | consensus/consensus-types/src/vote_proposal.rs:59-102 | what a new vote says about the block: its id, time and next epoch state, and the execution result of the proposal, or placeholders when execution comes later |
| TwoChainRules.VoteGivenIff | consensus/safety-rules/src/safety_rules_2chain.rs:48-137 | a vote is given iff the proposal is acceptable and repeats the round of the last vote, or is above every earlier round, follows the voting rule and can be persisted |
| TwoChainRules.RefusalIsTrue | consensus/safety-rules/src/safety_rules_2chain.rs:48-93 | a refusal changes nothing, and the error names something that is wrong |
| TwoChainRules.NewEpochVotes | consensus/safety-rules/src/safety_rules.rs:233-259 | a later epoch starts from round 0, whatever the rounds before, and the first acceptable proposal that follows is voted for |
| TwoChainRules.SignedTimeout | consensus/safety-rules/src/safety_rules_2chain.rs:17-46 | a signed timeout is not below the last vote and reports a certificate at least as high as the validator has seen |
| TwoChainRules.TimeoutSignedIff | consensus/safety-rules/src/safety_rules_2chain.rs:17-46 | a timeout is signed iff it verifies, is of the round after its certificate or after a timed-out round, reports a certificate at least as high as the validator has seen, and is not below the last vote |
| TwoChainRules.CommitVoteSignedIff | consensus/safety-rules/src/safety_rules.rs:327-361 | a commit vote is signed iff it is for an execution of what a quorum ordered without one, and is for what was executed |
| TwoChain.SignedIsVoted | consensus/safety-rules/src/safety_rules.rs:327-361 | a quorum that signed a ledger info, by votes or commit votes, voted for its block: for that ledger info or for the one that ordered what it commits |
| TwoChain.QcCertifies | consensus/consensus-types/src/quorum_cert.rs:108-137 | a verified unforged certificate, of votes or commit votes, means that a quorum voted for its block |
| TwoChain.TcTimesOut | consensus/consensus-types/src/timeout_2chain.rs:141-178 | a verified unforged timeout certificate means that a quorum timed out, none of the honest ones above its round |
| TwoChain.CommitVoteJustified | consensus/safety-rules/src/safety_rules.rs:327-361 | a commit vote is for a block that votes of a quorum ordered, and matches what they ordered |
| TwoChain.RunInvariant | consensus/safety-rules/src/safety_rules_2chain.rs:17-171 | in every state of every run: votes and timeouts are covered by persisted state and justified by certificates, those of one validator are compatible, and every other signature is a justified commit vote |
| TwoChain.OneLedgerInfoPerRound | consensus/safety-rules/src/safety_rules_2chain.rs:48-93 | votes certify at most one ledger info per round of an epoch |
| TwoChain.OneBlockPerRound | consensus/safety-rules/src/safety_rules_2chain.rs:48-93 | votes certify at most one block per round of an epoch |
| TwoChain.TimeoutRespectsCommit | consensus/safety-rules/src/safety_rules_2chain.rs:95-119 | timeouts at or after a committing round report a certificate at least as high as the committed block |
| TwoChain.LaterExtendsCommitted | consensus/safety-rules/src/safety_rules_2chain.rs:121-137 | once a block above round 0 has a certified child in the next round, every certified block from its round on extends it |
| TwoChain.CommitInfoIsParent | consensus/safety-rules/src/safety_rules_2chain.rs:152-171 | the commit info of a certificate is the parent, as voted for or as executed, when the rounds are consecutive, and empty otherwise |
| TwoChain.CommitSafety | consensus/safety-rules/src/safety_rules_2chain.rs:17-171 | in every run, two certificates that commit, of votes or commit votes, whenever they appear, commit their parent blocks, as ordered or as executed; of two that commit above round 0 one block extends the other, and two that commit round 0 commit the same |
| TwoChain.RoundZeroCommitIff | consensus/consensus-types/src/quorum_cert.rs:108-137 | a commit of round 0 and one above it are on one branch iff the chain of the second starts from the info that the first commits; by id it does whenever all blocks on round 0 name one genesis |
| TwoChain.OneCommitPerRound | consensus/safety-rules/src/safety_rules.rs:327-361 | what is committed in one round of an epoch, before or after execution, is one block, with one time unless it ends the epoch |
| TwoChain.AncestorsAreOrdered | consensus/safety-rules/src/safety_rules_2chain.rs:48-171 | the ancestors of a block are totally ordered by extension |
| Agreement.EmittedQcUnforged | consensus/src/pending_votes.rs:143-170 | a certificate assembled from unforged votes contains no forged signature |
| Agreement.CollectedCertificatesAgree | consensus/src/pending_votes.rs:84-218 | end to end: certificates assembled by any collectors, at any rounds, from the votes of a run commit blocks of one branch, unless exactly one commits round 0 |
| Agreement.RoundCollectorsAgree | consensus/src/pending_votes.rs:84-170 | two collectors of one round, fed any verified unforged votes of a run, certify the same block, and the same ledger info unless a commit vote is passed off as a vote |
| Agreement.HonestNodeNeverEquivocates | consensus/src/pending_votes.rs:96-125 | no collector that hears only the votes a node sent accuses it of equivocating, whatever the node went through |
| Agreement.AccusedIff | consensus/src/pending_votes.rs:96-125 | in any run of a collector, a later vote of an author is answered with an equivocation iff its digest differs from that of the first one inserted |
| Agreement.HonestAccusedIff | consensus/src/pending_votes.rs:96-125 | in a run, an honest author is accused iff its first and its current vote carry different ledger infos, and then it released one of them as a commit vote |
| Progress.EveryHeightCommits | consensus/safety-rules/src/safety_rules_2chain.rs:48-93 | for every round there is a run in which its block is committed |
| Progress.EveryHeightIsExecuted | consensus/safety-rules/src/safety_rules.rs:327-361 | for every round there is a run with a certificate of votes and one of commit votes that commit its block with different infos |
| TimeoutRuns.TimeoutFollowsTc | consensus/safety-rules/src/safety_rules_2chain.rs:95-119 | in every reachable state, with a verified timeout certificate of a round and a quorum certificate not below what it has seen, a validator times out of the next round unless it has voted above it or cannot persist |
| TimeoutRuns.EveryRoundCanTimeOut | consensus/safety-rules/src/safety_rules_2chain.rs:95-119 | for every number of rounds there is a run in which they all time out, each on the certificate of the one before |
| TimeoutRuns.CommitsAfterTimeouts | consensus/safety-rules/src/safety_rules_2chain.rs:121-137 | however many rounds time out, there is a run that commits the block of the round after them |
| Progress.CommitVoteCanAccuse | consensus/src/pending_votes.rs:96-125 | a collector that is handed a vote and the same validator's commit vote as a vote, both verified, answers with an equivocation |
| RoundZero.RoundZeroCanFork | consensus/consensus-types/src/quorum_cert.rs:108-137 | for every version, a run that commits the genesis of the epoch and a block of round 2 whose chain starts from that genesis with another version and state root |
| VotingNode.RoundManager.ProcessProposal | consensus/src/round_manager.rs:726-746 | state and vote sent are those of the proposal handler |
| VotingNode.RoundManager.Vote | consensus/src/round_manager.rs:753-790 | state and vote are those of the voting function: none while a vote of the round is remembered or in sync-only mode, none unless signed and persisted |
| VotingNode.RoundManager.ProcessLocalTimeout | consensus/src/round_manager.rs:559-614 | state and vote sent are those of the timeout handler: the remembered vote, or one for a nil block, with a timeout signature |
| VotingNode.RoundManager.BroadcastTimeout | consensus/src/round_manager.rs:590-614 | state and vote are those of the sending function: a vote without a timeout signature goes out, and is remembered, only once one is signed |
| VotingNode.EventKeeps | consensus/src/round_manager.rs:559-790 | every event, failed signing, failed persistence and restart included, keeps one ballot per epoch and round |
| VotingNode.OneBallotPerRound | consensus/src/round_manager.rs:559-614 | over any sequence of events all votes a node sends for one round of an epoch are the same vote, apart from the timeout |
| NodeMemory.ProposalSentIff | consensus/src/round_manager.rs:726-790 | over any history, a proposal is answered with a vote iff it is of the current round, no vote of the round is remembered, the node is not only syncing, and inserting, signing and saving succeed; the vote is then saved and remembered |
| NodeMemory.NewProposalIsVotedFor | consensus/src/round_manager.rs:753-790 | over any history, an acceptable proposal of a new round that follows the voting rule is voted for |
| NodeMemory.LocalTimeoutSends | consensus/src/round_manager.rs:559-614 | exactly when a local timeout sends a vote, and which: the remembered vote or one for a nil block, with a timeout of that round and the given certificate; a timeout already sent is repeated |
| NodeMemory.EchoSends | consensus/src/round_manager.rs:874-877 | an echoed timeout is taken as a local one unless a timeout of the round was sent |
| NodeMemory.RemembersTheRound | consensus/src/liveness/round_state.rs:240-297 | the remembered vote is the last one sent since the round began, or found by a restart since |
| NodeMemory.FollowsRounds | consensus/src/liveness/round_state.rs:240-270 | the node is in the highest round announced since it last started or entered an epoch |
| NodeMemory.NewEpochIsVotedIn | consensus/safety-rules/src/safety_rules.rs:233-259 | whatever a node did before, in a later epoch it votes for the first acceptable proposal that follows |
| NodeMemory.OnlyTimeoutsAfterVote | consensus/src/round_manager.rs:559-790 | after a vote of the round, while the node stays in the round, crashes included, it sends only that vote again, with a timeout |
| NodeRuns.VotesInEveryRound | consensus/src/round_manager.rs:726-790 | for every round there is a history in which the node votes in all rounds up to it |
| NodeRuns.VoteCanBeRepeated | consensus/src/round_manager.rs:911-920 | a node that leaves its round by a restart and comes back sends its vote again |
| NodeRuns.RecoveredNodeRemembers | consensus/src/persistent_liveness_storage.rs:225-242 | a validator that sent a vote, crashes and recovers in that round gets that very vote from the database, remembers it, and votes on no other proposal of the round |
| EpochChanges.VerifyProof | types/src/epoch_change.rs:66-118 | accepts iff the proof is not empty, its end is not stale, and after the stale prefix every entry is accepted by what the one before installs; empty and stale proofs get their own errors |
| EpochChanges.VerifiedProofEndsEpoch | types/src/trusted_state.rs:159-170 | the returned entry carries the next epoch state, so the error for its absence cannot occur |
| EpochChanges.WaypointBinds | types/src/waypoint.rs:130-148 | a waypoint determines epoch, state root, version, time and next epoch state of a ledger info, and nothing else |
| LedgerOfRun.RunAccounts | types/src/epoch_state.rs:33-52 | in every state of a run, whatever verifies under an epoch state of the ledger is a ledger info of the ledger, a vote on a block that is ordered only, or a vote on an info of round 0 |
| LedgerOfRun.CommittedOnOneBranch | consensus/safety-rules/src/safety_rules_2chain.rs:17-171 | the blocks that a ledger has to hold are on one branch |
| LedgerOfRun.HonestSignersMakeQuorumsCanonical | types/src/epoch_state.rs:33-52 | if honest validators sign only the ledger and faults are bounded, whatever verifies under a canonical epoch state is canonical |
| TrustedStates.CanonicalIffNewer | types/src/trusted_state.rs:174-190 | above round 0, what verifies under the state that an epoch end installs is on the ledger iff its version is above that of the epoch end; what is on the ledger always has the higher version |
| TrustedStates.EpochRatchetSound | types/src/trusted_state.rs:159-196 | an epoch change leads to a later canonical epoch, and lands on the ledger iff the latest ledger info it takes is there; without a made-up info of round 0 it never lowers the version, also in the `more` branch |
| TrustedStates.RatchetSound | types/src/trusted_state.rs:145-231 | one response, honest or not: the client's epoch stays canonical and it advances; without a made-up info of round 0 its version never decreases; a version change stays inside the epoch; past version 0 an ordered-only ledger info has no effect |
| TrustedStates.ForkIsDetected | types/src/trusted_state.rs:208-217 | in the client's epoch a ledger info of its own version is no change if it is the one it trusts, and an error otherwise |
| TrustedStates.AcceptedReaches | types/src/trusted_state.rs:145-231 | an accepted response takes the client to the latest ledger info, or, if it says that there is more, to the end of its proof in an earlier epoch |
| TrustedStates.RejectionIsTrue | types/src/trusted_state.rs:145-231 | the error of a rejected response names something that is wrong; two of the code's errors cannot occur |
| TrustedStates.RepeatedResponse | types/src/trusted_state.rs:197-231 | an accepted response is no change the second time iff the client took its latest ledger info and that does not end the client's epoch |
| TrustedStates.ApplyTwice | types/src/trusted_state.rs:145-231 | receiving a response twice leaves the client where receiving it once does |
| TrustedStates.StaysIff | types/src/trusted_state.rs:145-231 | from the ledger, one response keeps the client there if what it takes is above round 0 and newer than the epoch change it comes with, and only then if infos of round 0 keep apart from the ledger |
| TrustedStates.HoldsStateIff | types/src/trusted_state.rs:145-231 | past version 0, the client holds a version and state root of the ledger after a response iff it does not take an info of round 0 with another state than the epoch change |
| TrustedStates.RatchetRunSound | types/src/trusted_state.rs:145-231 | any sequence of responses keeps the client's epoch canonical and never decreasing; without made-up infos of round 0 its version never decreases either |
| TrustedStates.OnLedgerThroughoutIff | types/src/trusted_state.rs:145-231 | over any sequence of responses the client is on the ledger all the way if it takes none that is of round 0 or no newer than its epoch change, and only then if infos of round 0 keep apart from the ledger |
| TrustedStates.HoldsStateThroughoutIff | types/src/trusted_state.rs:145-231 | over any sequence of responses a client past version 0 holds a version and state root of the ledger all the way iff it never takes a made-up info of round 0 |
| TrustedStates.SoundState | types/src/trusted_state.rs:145-231 | past version 0, a client that has not taken a made-up info of round 0 holds the version and state root of a committed ledger info |
| LedgerOfRun.RatchetRunSoundInRun | types/src/trusted_state.rs:145-231 | for any responses put together from the signatures of a run, votes and commit votes included: the epoch stays canonical and never decreases; without made-up infos of round 0 the version never decreases, and past version 0 version and state root are committed ones; it is on the ledger all the way if it takes nothing of round 0 and nothing no newer than its epoch change; if votes on round 0 keep apart from the ledger, this is exact, and so is, past version 0, the condition for holding committed states all the way |
| LedgerOfRun.RatchetRunSoundAgainstFaults | types/src/trusted_state.rs:145-231 | if honest validators sign only the ledger, no sequence of responses takes the client off it |
| Progress.LedgerHoldsAt | types/src/trusted_state.rs:145-231 | a run of every length with a ledger that holds what it commits |
| Progress.VotesApartAt | types/src/trusted_state.rs:145-231 | the votes of these runs on round 0 keep apart from the ledger |
| Progress.StaleResponseIsTaken | types/src/trusted_state.rs:174-190 | for every round of such a run, a response with its certificate takes a client at genesis off the ledger |
| RoundZero.MadeUpIsTaken | types/src/trusted_state.rs:197-231 | for every version above 0 and every ledger of the family, a run and a response from its signatures that take a client in epoch 1 to that version, with a state that the ledger does not hold |
| CatchUp.GetEpochCovers | storage/arxdb/src/ledger_store/mod.rs:66-95 | the epoch looked up for any version up to the latest is that of the first ledger info that covers it |
| CatchUp.RespondMeans | storage/arxdb/src/lib.rs:613-655 | an answer holds the ends of the epochs from the client's own on, as many as fit, says whether there are others, and carries the latest ledger info |
| CatchUp.HonestProofVerifies | types/src/epoch_change.rs:66-118 | an honest proof that reaches past the client's epoch verifies and ends with its last entry |
| CatchUp.CompleteResponse | types/src/trusted_state.rs:145-231 | a complete answer, even to an earlier question, brings the client to the server's latest state, by an epoch change, a version change or no change as the case is, or is rejected as stale if the client is ahead |
| CatchUp.EpochEndRepeated | types/src/trusted_state.rs:159-190 | an answer whose proof stops just short of a latest ledger info that ends an epoch is taken, and is an error the second time |
| CatchUp.ConcurrentResponsesCommute | types/src/trusted_state.rs:145-231 | two complete answers to one question give the same final state in either order |
| CatchUp.ChunkedCatchUp | storage/arxdb/src/lib.rs:613-655 | catching up in pieces of at least two epochs ends in the state one complete answer gives, within the number of epochs missing |
| CatchUp.GrowingCatchUp | storage/arxdb/src/lib.rs:613-655 | the same while the ledger grows between the questions, once it stops growing |
| CatchUp.CatchesUpIff | storage/arxdb/src/lib.rs:1324-1349 | for every piece size, catching up succeeds iff there is nothing to learn, pieces hold two epochs, or single epochs happen to suffice |
| CatchUp.SingleEpochsAreNotEnough | storage/arxdb/src/lib.rs:613-655 | a ledger and client for which pieces of one epoch never catch up and pieces of two do |
| Initialization.PerformInitialize | consensus/src/metrics_safety_rules.rs:34-63 | the loop halts on any storage, honest or not and changing between the questions, with the result of its specification |
| Initialization.InitializeOnce | consensus/safety-rules/src/safety_rules.rs:215-299 | one honest answer moves the waypoint to the last epoch end it covers, and enters that epoch unless the safety data is ahead of it: rounds start from 0 in a later epoch, and the signer holds the author's key of that epoch, or there is none and the error says why |
| Initialization.InitializationReaches | consensus/src/metrics_safety_rules.rs:34-63 | with storage that is not behind, initialisation enters the first answer's end not behind the safety data, keeps safety data of that same epoch, starts from round 0 in a later one, and succeeds, with the validator's key for it installed, iff that key is at hand |
| Initialization.InitializationGivesUp | consensus/src/metrics_safety_rules.rs:34-63 | with storage behind the safety data the loop returns `WaypointOutOfDate` and leaves the rules as they were |
| Initialization.InitializationIsLatestIff | consensus/src/metrics_safety_rules.rs:34-63 | with storage that is not behind, the loop ends in the latest epoch iff no answer ends between the safety data's epoch and the latest |
| Initialization.InitializationCanStopShort | storage/arxdb/src/lib.rs:133-133 | with the source's hundred epochs per answer and any ledger of more than a hundred epochs, a validator in epoch 1 ends in epoch 100 |
| Recovery.FindBlocksToPrune | consensus/src/persistent_liveness_storage.rs:271-299 | the two passes compute kept blocks, kept certificates and removed ids of the specification |
| Recovery.SortOrdered | consensus/src/persistent_liveness_storage.rs:108-109 | the sort is a permutation in key order |
| Recovery.SortedByEpochAndRound | consensus/src/persistent_liveness_storage.rs:108-109 | earlier epochs come first, and within an epoch earlier rounds |
| Recovery.KeptIffDescends | consensus/src/persistent_liveness_storage.rs:271-299 | on sorted blocks with unique ids and smaller keys for parents, one pass keeps a block iff a chain of stored blocks leads to it from the root |
| Recovery.ParentsComeFirst | consensus/src/persistent_liveness_storage.rs:271-299 | every kept block is a child of the root or comes after its parent |
| Recovery.NewRecoveryData | consensus/src/persistent_liveness_storage.rs:191-242 | root, blocks, certificates, removed ids, last vote and timeout certificate are those of the specification, or the error is |
| Recovery.RootAndRest | consensus/src/persistent_liveness_storage.rs:77-139 | the root is the committed block, or the virtual genesis; the rest is everything else, in order |
| Recovery.RecoverMeans | consensus/src/persistent_liveness_storage.rs:191-242 | recovery keeps exactly the descendants of the root and the certificates of the kept tree, removes exactly the ids of everything else, and lists parents first |
| Recovery.RecoverCarriesOver | consensus/src/persistent_liveness_storage.rs:224-242 | the last vote and the timeout certificate are taken up iff they are of the epoch of the committed block, or of the next one at an epoch end; the root is committed by the stored ledger info on the votes that ordered it |
| Recovery.RecoverSucceedsIff | consensus/src/persistent_liveness_storage.rs:77-139 | recovery succeeds iff the committed block is stored, with a certificate for it and a matching one that commits it |
| Recovery.EpochEndRecovers | consensus/src/persistent_liveness_storage.rs:86-100 | at the end of an epoch recovery always succeeds, on the virtual genesis of the next |
| Recovery.RecoverBetween | consensus/src/persistent_liveness_storage.rs:191-242 | any store between the kept data and the original, in any order, recovers to the same tree iff it holds a certificate that commits the root |
| Recovery.OrderDoesNotMatter | consensus/src/consensusdb/mod.rs:73-94 | recovery does not depend on the order in which the database's hash maps are read |
| Recovery.RecoveryIsStable | consensus/src/persistent_liveness_storage.rs:322-328 | after deleting the removed ids, recovering again gives the same tree, last vote and timeout certificate and removes nothing, iff a certificate that commits the root is in the tree |
| Recovery.FirstRecoveryCanBeTheLast | consensus/src/persistent_liveness_storage.rs:77-139 | a database for which the second recovery fails (by `WrittenIsRooted`, not one that a node writes) |
| StoreWrites.RunInvariant | consensus/src/block_storage/block_store.rs:342-434 | through any saved blocks and certificates, syncs, commits, prunes and restarts: ids bind blocks, every stored certificate is for a known block, and the tree under the root is stored, or, before a rebuild, a certificate that commits the root with its block |
| StoreWrites.WrittenIsRooted | consensus/src/block_storage/sync_manager.rs:205-330 | on everything a node writes, if recovery succeeds then a certificate that commits the root certifies the root or a stored descendant |
| StoreWrites.SecondRecoverySucceeds | consensus/src/persistent_liveness_storage.rs:316-328 | on everything a node writes, recovering, deleting and recovering again succeeds with the same tree and nothing more to delete |
| StoreWrites.WrittenCommits | consensus/src/block_storage/block_store.rs:342-434 | a run of writes that commits a block and recovers |
| PayloadFetch.RequestTransactions | consensus/src/payload_manager.rs:27-50 | one receiver per batch that has not expired, in payload order |
| PayloadFetch.BlockPayload.PrefetchPayloadData | consensus/src/payload_manager.rs:78-105 | requests are made iff there is no status yet |
| PayloadFetch.BlockPayload.GetTransactions | consensus/src/payload_manager.rs:109-188 | new status and answer are those of the fetch function: cache, first failure with new requests, or data |
| PayloadFetch.CollectMeans | consensus/src/payload_manager.rs:130-178 | awaiting the receivers gives the live batches in order, iff each of them is delivered |
| PayloadFetch.AnswerIs | consensus/src/payload_manager.rs:78-188 | every call of a run, exactly: it panics if nothing was asked for, succeeds iff an earlier call did or every live batch last asked for is delivered, and otherwise fails with the first that is not |
| PayloadFetch.FetchRefinesMeaning | consensus/src/payload_manager.rs:78-188 | through any prefetches, dropped channels, failures and retries, a call panics iff nothing was prefetched before it, and every success returns the same in-order concatenation |
| PayloadFetch.SuccessIsCached | consensus/src/payload_manager.rs:120-128 | every call after a success returns the same data |
| PayloadFetch.RetrySucceedsIff | consensus/src/payload_manager.rs:134-171 | the call after a failed one succeeds iff the new requests are all answered |
| StateScan.PrefixedStateValueIterator.constructor | storage/arxdb/src/utils/iterators.rs:102-132 | the iterator stands at the cursor, inclusive, or at the prefix |
| StateScan.PrefixedStateValueIterator.Next | storage/arxdb/src/utils/iterators.rs:134-167 | each call hands out the next entry of the scan; seeking past newer and older versions and deleted keys loses and repeats none, and it ends |
| StateScan.ScanIsSnapshot | storage/arxdb/src/utils/iterators.rs:93-176 | a scan holds a key and value iff the key has the prefix, is not before the cursor, and has that value in its latest row not after the version |
| StateScan.ScanAscends | storage/arxdb/src/utils/iterators.rs:93-176 | keys come in increasing order, each once |
| StateScan.StartOutsidePrefix | storage/arxdb/src/utils/iterators.rs:119-149 | a cursor before the prefix with stored keys in between gives an empty scan |
| StateScan.ResumeScan | storage/arxdb/src/utils/iterators.rs:119-124 | starting at the key of an entry continues the scan with that entry |
| ModulePages.GetModulesByPagination | api/src/context.rs:351-392 | a page is the first `limit` modules of the scan and the key of the one after, or an error if a malformed key is met on the way |
| ModulePages.NextPage | api/src/context.rs:385-391 | the scan from a returned cursor holds exactly the modules from that one on |
| ModulePages.PagesAreComplete | api/src/context.rs:351-392 | for every limit of at least one, following the cursors ends and concatenates to the full list, iff no key is malformed |
| ModulePages.ListedModules | api/src/context.rs:351-392 | the listed modules are exactly those with the prefix that have code at the version |
| ModulePages.ZeroLimitStalls | api/src/context.rs:379-391 | with a limit of zero the cursor points at itself forever |

## Left out

- VotingNode.RoundManager.ProcessProposal: block insertion, execution and back-pressure are outcomes given as parameters.
- Recovery.NewRecoveryData: the error texts are not modelled; a panic on inconsistent commit proofs or epoch overflow is an error constructor.
- StateScan.PrefixedStateValueIterator.Next: rows are sorted by state key and descending version, which the encoded keys give when no state key encoding is a proper prefix of another; read errors of the database are not modelled.
- ModulePages.GetModulesByPagination: a module is identified with its state key, since the key is rebuilt from the decoded path.
- Certificates.TimeoutCertRoundTrip: the partial signature map is a value, not an object updated in place; the same holds for bit vectors.
- StoreWrites.SecondRecoverySucceeds: that the listed database is sound (a parent has the smaller key, certificates are stored under the id they certify, the root's id determines its epoch, round and timestamp) is taken as given, as in `RecoveryIsStable`; the steps show the rest.
- Liveness under partial synchrony, pacemaker timing, proposer election and proposal generation.
- Checks of a proposal's signature, payload, timestamp and failed authors: one flag of the proposal.
- Proposal signing in the safety rules, and the buffer manager that asks for commit votes.
- NodeRuns.RecoveredNodeRemembers: the restart of a node and the recovery of its database are two models, joined by the vote that the database holds and by the epoch.
- Block store beyond what it writes, state sync, executor and mempool.
- The retry wrapper and metrics around the safety rules; only its initialisation loop is modelled.
- Payloads in direct-mempool mode and commit notifications to the quorum store: no state to reason about.
- Resource pagination, gas price estimation and the rest of the HTTP API.
- BLS, hashing and serialisation, beyond the symbolic model.
