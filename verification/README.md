# Shell-Chain, verified

A Dafny model of the parts of the Shell-Chain node whose correctness is hardest to see from the
code: weighted BFT rounds and view changes, fork choice, finality, the proposer schedule, the
validator lifecycle, the wire format and witness separation, fees, and two small accounting
machines. Code that updates fields in place is a class whose methods are proved against
specification functions; what the system promises is proved about those functions, over every
input, every run or every reachable state.

| files | what they model |
|---|---|
| `Common`, `Arithmetic` | machine arithmetic, products and remainders of unknowns |
| `Weights`, `Round`, `Agreement`, `RoundOutcomes`, `ViewChange` | quorums, one height of weighted voting on any number of nodes and on one, view-change votes |
| `BlockTree`, `ForkChoice`, `ForkChoiceRuns`, `ForkChoiceEffects`, `Convergence`, `Pruning` | the block tree and its loops, the tracker, what its runs keep, what each operation does, order independence, invisible pruning |
| `Finality` | attestation store, its log, finality, equivocation |
| `Schedule`, `Views`, `Validators`, `Lifecycle`, `LifecycleEffects` | proposer walks, rotation through views, import check, validator set, its runs and its operations |
| `Rlp`, `Signatures`, `Transactions`, `Bundles`, `Blocks`, `Normalised` | the wire format in both directions |
| `Wire`, `Canonical`, `CanonicalTransactions`, `CanonicalBlocks`, `Limits` | what is written, as RLP trees, exactly which bytes are accepted, and the limits in numbers |
| `MerkleFold`, `Witnesses` | the witness root, splitting blocks and storing the parts |
| `Fee` | blob gas price and base fee |
| `RateLimiter`, `Windows`, `ClaimAccounting` | token buckets, proof windows and where claims go |

## Main results

- **Agreement.** Whatever is delivered to whichever node in whatever order, two nodes commit
  different blocks only if validators that voted for two blocks weigh more than a third, provided the
  weights fit in 64 bits. For all weights, fitting or not, `AgreementExact` gives the condition: no two
  quorums, as the code counts them, meet only in faulty validators. Weights that saturate the stored
  total can break it without any double vote (`SaturatedTotalDisagrees`) or not
  (`SaturatedTotalCanAgree`). On one node a proposed block is committed, and a view change completed,
  exactly when those who voted for it are a quorum, whatever else arrives in between.
- **Fork choice.** Over every disciplined run the cached head is the unique best block, finalized
  roots form one chain, and the head descends from every root ever finalized. Two nodes are in the
  same state if and only if they know the same blocks, the same final weights and the same finalized
  root, whatever they were told on the way. Pruning changes no later answer. Two things the code does
  not handle have their exact conditions: lowering the weight of the head (`ReweightKeepsBest`) and
  adding a block after its children (`AddKeepsFlagsExactly`), which the next finalization repairs.
- **Finality.** The four maps are one log. The equivocation check in constant time agrees with a scan
  of the log except when asked about the block the validator attested first; `DetectExact` says
  exactly when. A block becomes final exactly with more than two thirds of the weight. Conflicting finality exposes voters of more than a third of the weight.
- **Schedule and lifecycle.** Proposers get exactly their weight in every round, wherever it starts.
  The lottery is exactly fair if and only if the weights fit in 64 bits. Exits never empty the active
  set if and only if the genesis list has no duplicate address: the active count runs over the list,
  so that a duplicate counts twice.
- **Wire format.** Every record is written as one RLP tree whose items are listed, decoding undoes
  encoding at every level and in every older format, and computed lengths are the bytes written. For
  each decoder, up to whole blocks, the accepted bytes are characterised exactly. A transaction has
  more than one accepted encoding unless it has a blob fee and no storage keys (`TxUniqueExactly`).
  Any buffer of at most a tenth of 2^64 bytes that decodes at all
  decodes to a normalised value that can be written and read back; a block with system transactions
  needs them to be short enough as they would be written.
- **Witnesses.** Split, written, read and put together again, a block is itself. A root binds the
  witnesses of a known number of transactions, unless two different inputs among those hashed for
  the two roots have the same hash. With the number unknown it binds them up to repetitions at the
  end, which `RepeatedLeafKeepsRoot` shows to be there for every hash function; without such inputs
  `RootsAgreeExactly` is an equivalence.
- **Fees.** The loop that computes the blob gas price in 256-bit wrapping arithmetic returns the
  saturated EIP-4844 value for every input, whose terms are those of the Taylor series up to rounding.
  The excess is the backlog of a queue. The documented bound of 12.5% on base fee changes is false:
  `BaseFeeWithinOneEighth` says exactly when, `OddFullBlocks` that within the gas limit those are full
  blocks with an odd limit, and `OddLimitExceedsEighth` names one.
- **Accounting.** Token buckets grant at most what they were filled with, and collecting unused ones
  keeps that bound if and only if a bucket left alone that long is full again. Claims are conserved.

Where code and comments disagree the model follows the code: the base fee bound above, the
`last_active` and `last` fallbacks of the walks, which are unreachable, and the comment on `slash`,
which says that it refuses to empty the active set although it never refuses (`SlashCanEmpty`, and
`SlashKeepsSomeoneExactly` for when it does not).

## Model

| member | source | states |
|---|---|---|
| Weights.StrictQuorum | crates/consensus/src/finality.rs:267-273 | the least weight strictly above two thirds of the total |
| Weights.ViewQuorum | crates/consensus/src/wpoa_state.rs:110-113 | the least weight at or above two thirds |
| Weights.ViewQuorumsAgree | crates/consensus/src/view_change.rs:181-188 | the threshold of the view-change state equals that of the round if and only if 1 <= W < 2^63 |
| Weights.Overlap | crates/consensus/src/finality.rs:267-273 | two sets of validators share at least the sum of their weights minus the total |
| Round.WPoaRound.constructor | crates/consensus/src/wpoa_state.rs:86-102 | a round starts idle; the stored total is the sum of the weights, saturated at 64 bits |
| Round.WPoaRound.OnBlockProposed | crates/consensus/src/wpoa_state.rs:118-138 | a proposal opens voting when idle and is ignored otherwise |
| Round.WPoaRound.OnVote | crates/consensus/src/wpoa_state.rs:141-211 | new phase and events for every phase, known or unknown voter, repeated vote and other hash |
| Round.WPoaRound.OnViewChangeVote | crates/consensus/src/wpoa_state.rs:214-258 | the same for view-change votes |
| Round.WPoaRound.StartViewChange | crates/consensus/src/wpoa_state.rs:286-293 | the phase becomes an empty view change |
| Agreement.HandleOk | crates/consensus/src/wpoa_state.rs:141-258 | every input keeps: recorded weight is the saturated sum over distinct voters, all of whom voted for the block; a commit or view change has its quorum |
| Agreement.RunOk | crates/consensus/src/wpoa_state.rs:86-258 | so it is on every node after every interleaving |
| Agreement.CommonBackersEquivocate | crates/consensus/src/wpoa_state.rs:141-211 | whoever backs two committed blocks voted for both |
| Agreement.Agreement | crates/consensus/src/wpoa_state.rs:141-211 | no two commits differ while double voters weigh less than twice the stored quorum minus the true total |
| Agreement.AgreementBelowOneThird | crates/consensus/src/wpoa_state.rs:86-211 | in particular while they weigh at most a third of weights that fit in 64 bits |
| Agreement.AgreementExact | crates/consensus/src/wpoa_state.rs:86-211 | for all weights, saturating or not: a set of possible double voters can never break agreement if and only if it contains no intersection of two stored quorums |
| Agreement.QuorumsCanDisagree | crates/consensus/src/wpoa_state.rs:141-211 | any two quorums can be made to commit two blocks, with double votes only in their intersection |
| Agreement.ViewChangeMeetsCommit | crates/consensus/src/wpoa_state.rs:214-258 | voters that advance a view and voters that commit share more than a third of the weight |
| Agreement.SaturatedTotalDisagrees | crates/consensus/src/wpoa_state.rs:86-102 | weights of two disjoint stored quorums: two nodes commit different blocks with no double vote at all |
| Agreement.SaturatedTotalCanAgree | crates/consensus/src/wpoa_state.rs:86-102 | 64-bit weights that saturate the total too, under which every run without double votes agrees |
| RoundOutcomes.RoundOutcome | crates/consensus/src/wpoa_state.rs:118-211 | after a proposal to an idle node and any inputs but a restart or a view change, the block is committed if and only if the known validators that voted for it are a quorum; otherwise exactly these are counted |
| RoundOutcomes.RoundAnswers | crates/consensus/src/wpoa_state.rs:141-211 | until then each vote is answered by nothing, by the other hash, by the repeated voter, or by the commit with exactly its voters |
| RoundOutcomes.IdleUntilProposed | crates/consensus/src/wpoa_state.rs:118-138 | before a proposal a node stays idle and says nothing |
| RoundOutcomes.ViewOutcome | crates/consensus/src/wpoa_state.rs:214-293 | after a view change is started in any phase, it is completed by exactly the input that makes the known validators that voted for that view a quorum |
| ViewChange.ViewChangeState.constructor | crates/consensus/src/view_change.rs:103-118 | initial state |
| ViewChange.ViewChangeState.RecordViewChange | crates/consensus/src/view_change.rs:120-155 | which messages are recorded, the summed weight and when the quorum is reported |
| ViewChange.ViewChangeState.ConfigureQuorum | crates/consensus/src/view_change.rs:181-188 | weights and threshold are replaced |
| ViewChange.ViewChangeState.AdvanceView | crates/consensus/src/view_change.rs:162-167 | the next view starts with no votes |
| ViewChange.ViewChangeState.Reset | crates/consensus/src/view_change.rs:174-179 | a new block starts again at view 0 |
| ViewChange.ViewChangeState.HandleMessage | crates/consensus/src/wpoa.rs:197-216 | only messages for the current view count; a quorum advances the view |
| ViewChange.HandledOk | crates/consensus/src/wpoa.rs:197-216 | a message moves the view exactly when it is accepted and the weights with which the votes were counted reach the threshold of the moment |
| ViewChange.HandledMeans | crates/consensus/src/view_change.rs:120-167 | whose message counts, when it ends the view, what is then left, and that otherwise the votes stay or grow by it |
| ViewChange.ViewCountsMoves | crates/consensus/src/view_change.rs:162-179 | over every run the view is the number of times it was left since the last block, whose time is kept |
| ViewChange.RunVotesOk | crates/consensus/src/view_change.rs:120-188 | over every run, under weights that may change with every message, recorded weight is the saturated sum of what was counted for distinct voters of one view and block |
| ViewChange.AdvanceMeetsCommit | crates/consensus/src/wpoa.rs:197-216 | if no voter has lost weight since its vote, a vote that advances the view closes a set that shares more than a third of the weight with every commit quorum |
| ViewChange.QuorumMeetsCommits | crates/consensus/src/view_change.rs:120-155 | voters whose present weight reaches the threshold of the round share more than a third of the weight with every commit quorum |
| ViewChange.MeetsCommitsExactly | crates/consensus/src/view_change.rs:120-155 | voters of any weight share that much with every commit quorum if and only if no light part of them makes one up with everyone else |
| ViewChange.AdvanceMeetsCommitExactly | crates/consensus/src/view_change.rs:181-188 | this holds for all validators of a total and all such runs if and only if the total is below 2^63 |
| ViewChange.LargeTotalMoves | crates/consensus/src/view_change.rs:181-188 | for every larger total one validator of at most a third of the weight moves the view alone, at 2^63 one of weight 1 |
| ViewChange.LostWeightStillCounts | crates/consensus/src/view_change.rs:147-154 | a vote counted before its validator lost weight still moves the view, by voters of a fifth of the total |
| BlockTree.MarkDescendants | crates/consensus/src/fork_choice.rs:148-171 | the worklist over a child index ends with exactly the subtree of its root, on any map |
| BlockTree.ProtectDescendants | crates/consensus/src/fork_choice.rs:272-287 | so does the worklist of pruning, which pushes a child when it is first protected |
| BlockTree.ClosedIsSubtree | crates/consensus/src/fork_choice.rs:312-326 | a set of descendants closed under children is the whole subtree |
| BlockTree.ChainBetween | crates/consensus/src/fork_choice.rs:238-257 | the oldest-to-newest parent path whenever the target is an ancestor, and empty otherwise, even on cyclic maps |
| BlockTree.DistanceBounded | crates/consensus/src/fork_choice.rs:238-257 | a shortest way up repeats no block, so the depth bound never cuts a path short |
| BlockTree.FindCommonAncestor | crates/consensus/src/fork_choice.rs:199-234 | the lowest common ancestor, or none when there is none |
| ForkChoice.BestUnique | crates/consensus/src/fork_choice.rs:25-35 | no two blocks beat all others |
| ForkChoice.ForkChoice.constructor | crates/consensus/src/fork_choice.rs:59-78 | the tracker starts at genesis |
| ForkChoice.ForkChoice.AddBlock | crates/consensus/src/fork_choice.rs:82-114 | the block with its inherited flag, and a new head exactly when it beats the cached score |
| ForkChoice.ForkChoice.UpdateAttestedWeight | crates/consensus/src/fork_choice.rs:117-133 | the new weight and the same comparison, except for the head itself |
| ForkChoice.ForkChoice.RecalculateHead | crates/consensus/src/fork_choice.rs:346-351 | the head becomes the block that beats all others |
| ForkChoice.ForkChoice.MarkFinalized | crates/consensus/src/fork_choice.rs:136-175 | exactly the subtree of the new root is flagged; refused for unknown blocks and blocks off the old root |
| ForkChoice.ForkChoice.FindPruneRoot | crates/consensus/src/fork_choice.rs:261-270 | the lowest hash among the flagged blocks of a height |
| ForkChoice.ForkChoice.PruneBelow | crates/consensus/src/fork_choice.rs:261-298 | exactly that root and its descendants stay |
| ForkChoice.ForkChoice.RemoveSubtree | crates/consensus/src/fork_choice.rs:304-338 | exactly the subtree goes, or nothing: never a root of the tree or anything above the finalized root |
| ForkChoiceRuns.NextOk | crates/consensus/src/fork_choice.rs:82-351 | every disciplined operation keeps one tree with growing numbers, a best head, exact flags, and a root that only descends |
| ForkChoiceRuns.RunOk | crates/consensus/src/fork_choice.rs:82-351 | so it is in every state of every run |
| ForkChoiceRuns.HeadMeans | crates/consensus/src/fork_choice.rs:25-35 | the head is a block on the finalized chain if there is one, then of the largest weight, then of the largest number, then of the lowest hash |
| ForkChoiceRuns.FinalityIsForever | crates/consensus/src/fork_choice.rs:136-175 | later roots and later heads descend from every earlier root |
| ForkChoiceRuns.ReweightKeepsBest | crates/consensus/src/fork_choice.rs:117-133 | a weight update keeps the head best if and only if it is not the head that falls below another block |
| ForkChoiceRuns.LoweredHeadIsStale | crates/consensus/src/fork_choice.rs:117-133 | a disciplined run to a tree whose head is stale after its weight is lowered |
| ForkChoiceRuns.AddKeepsFlagsExactly | crates/consensus/src/fork_choice.rs:82-114 | adding a new block keeps the flags exact if and only if it is not a flagged parent of blocks that were there before it |
| ForkChoiceRuns.FinalizationRepairs | crates/consensus/src/fork_choice.rs:136-175 | an accepted finalization makes the flags exact whatever they were |
| ForkChoiceRuns.OrphanMissesFinality | crates/consensus/src/fork_choice.rs:82-114 | a child added before its parent descends from the root without the flag until the next finalization, which gives it |
| ForkChoiceEffects.AddEffect | crates/consensus/src/fork_choice.rs:82-114 | the block is there as given, flagged exactly if it descends from the root or, without one, as the caller says; nothing else changes but the head, which is the answer |
| ForkChoiceEffects.ReweighEffect | crates/consensus/src/fork_choice.rs:117-133 | only that weight changes, and the head exactly as answered |
| ForkChoiceEffects.FinalizeEffect | crates/consensus/src/fork_choice.rs:136-175 | accepted exactly for known descendants of the root; then exactly the descendants of the block are flagged |
| ForkChoiceEffects.PruneEffect | crates/consensus/src/fork_choice.rs:261-298 | of the flagged blocks of the height the one of the lowest hash becomes root and base, and exactly its descendants stay |
| ForkChoiceEffects.PruneNothing | crates/consensus/src/fork_choice.rs:261-298 | without such a block nothing changes |
| ForkChoiceEffects.RemoveEffect | crates/consensus/src/fork_choice.rs:304-338 | a block goes with exactly its descendants, unless it is the base or an ancestor of the root |
| Convergence.ConvergenceExact | crates/consensus/src/fork_choice.rs:82-175 | two nodes are in the same state if and only if they were told the same blocks, the same final growing weights, the same finalized root and, while there is none, the same flags |
| Convergence.Convergence | crates/consensus/src/fork_choice.rs:82-175 | in particular after any two orders of the same operations with finalized blocks of one branch |
| Pruning.PruneAtRoot | crates/consensus/src/fork_choice.rs:261-298 | pruning at the finalized height keeps exactly the root and its descendants, the head and the invariant |
| Pruning.TwinNext | crates/consensus/src/fork_choice.rs:82-351 | any operation on retained blocks keeps a pruned tree and its unpruned copy in step |
| Pruning.PruningIsInvisible | crates/consensus/src/fork_choice.rs:261-298 | over every later run both give the same heads and the same answers |
| Finality.FinalityState.constructor | crates/consensus/src/finality.rs:148-157 | empty maps and the given finalized block |
| Finality.FinalityState.RecordAttestationWeighted | crates/consensus/src/finality.rs:163-213 | which attestations are recorded and how the four maps change together |
| Finality.FinalityState.CheckFinalityWeighted | crates/consensus/src/finality.rs:222-259 | finality moves exactly when the block is above it, recorded at that number and has a quorum |
| Finality.FinalityState.SetFinalizedDirect | crates/consensus/src/finality.rs:406-415 | finality moves up only, and the maps are pruned |
| Finality.FinalityState.PruneBelow | crates/consensus/src/finality.rs:418-436 | exactly the blocks attested at or below the height leave all four maps |
| Finality.RunRefines | crates/consensus/src/finality.rs:163-436 | over every run the maps are one log: same keys, distinct voters, summed weights, one target per hash, at most 512 hashes, nothing at or below finality |
| Finality.FinalityAdvances | crates/consensus/src/finality.rs:222-237 | finality never moves back, and moves only when reported |
| Finality.AcceptedExactly | crates/consensus/src/finality.rs:163-213 | an attestation is accepted exactly when it has weight, is above the finalized height, agrees with every accepted one for its block, is the first of its validator, and one of 512 blocks |
| Finality.FinalExactly | crates/consensus/src/finality.rs:222-265 | a block becomes final exactly when asked about at its height, above the finalized one, with attesters of more than two thirds of the weight |
| Finality.ScanFindsOther | crates/consensus/src/finality.rs:333-343 | the reference scan of the log is sound and complete |
| Finality.DetectExact | crates/consensus/src/finality.rs:333-343 | the constant-time check agrees with the scan unless the maps show that the block asked about was attested first and another one of its height as well |
| Finality.DetectIsScan | crates/consensus/src/finality.rs:333-343 | it agrees for every block the validator has not attested |
| Finality.DetectMisses | crates/consensus/src/finality.rs:333-343 | two recorded attestations of one validator that the check does not see |
| Finality.WeightIsSum | crates/consensus/src/finality.rs:163-213 | attested weight is the weight of the set of voters |
| Finality.VoterIsExposed | crates/consensus/src/finality.rs:333-343 | whoever attested a block is exposed by the check about any other block, or about that block itself if the other was attested first |
| Finality.ConflictingFinalityIsAccountable | crates/consensus/src/finality.rs:222-259 | two nodes that can finalize different blocks of a height share voters of more than a third of the weight, and each node's check exposes every one of them |
| Schedule.AnyRound | crates/consensus/src/lib.rs:32-38 | a repeated list gives every address its number of places in any full round |
| Schedule.WalkIsSlot | crates/consensus/src/validator.rs:218-230 | the cumulative walk is an index into the list in which each validator is repeated by weight |
| Schedule.WeightedRotationIsFair | crates/consensus/src/validator.rs:199-230 | over any total-weight consecutive blocks an address proposes exactly its share |
| Schedule.ProposerByRange | crates/consensus/src/validator.rs:199-230 | entry k proposes the blocks whose number modulo the total falls between the weights before it and those with its own; the cases without weights, list or 64 bits |
| Schedule.EligibleMeans | crates/consensus/src/poa.rs:280-289 | an authority of positive weight is eligible after as many as there are before it |
| Schedule.ExpectedProposer | crates/consensus/src/poa.rs:249-311 | no proposer when nobody has weight; the walk at the ticket; or plain turns among authorities of positive weight |
| Schedule.ElectByTicket | crates/consensus/src/poa.rs:296-311 | the loop with saturating sums elects what the exact walk elects |
| Schedule.NthEligible | crates/consensus/src/poa.rs:280-289 | the n-th authority of positive weight |
| Schedule.LotteryIsFairExactly | crates/consensus/src/poa.rs:249-311 | the walk gives every authority exactly its effective weight in tickets if and only if the weights fit in 64 bits |
| Views.ViewsVisitEachOnce | crates/consensus/src/wpoa.rs:158-180 | n consecutive views visit each of n authorities once if and only if they do not begin at a base proposer outside the authorities |
| Views.NotVisited | crates/consensus/src/wpoa.rs:158-180 | the authority that is then left out |
| Views.ViewElects | crates/consensus/src/wpoa.rs:158-180 | view v elects the authority v places after the base proposer, around the list |
| Views.EarliestMeans | crates/consensus/src/wpoa.rs:302-332 | a view is reached after as many timeouts of ten seconds, or of the block time if that is longer |
| Views.FirstView | crates/consensus/src/wpoa.rs:182-195 | the least view, among all views, that elects an active proposer; none if and only if there is none |
| Views.VerifyImport | crates/consensus/src/wpoa.rs:302-332 | a header is accepted if and only if its proposer is active and elected in some view that can have been reached by its time |
| Views.LiveHeadersPass | crates/consensus/src/wpoa.rs:302-332 | every header sealed in view v at least v timeouts after its parent meets that condition |
| Validators.ValidatorSet.FromGenesis | crates/consensus/src/validator.rs:134-147 | all entries active, weights clamped, duplicates kept in the order list |
| Validators.ValidatorSet.Enqueue | crates/consensus/src/validator.rs:237-246 | a new address becomes pending, last in order and queue; a known one is refused |
| Validators.ValidatorSet.SetWeight | crates/consensus/src/validator.rs:251-271 | only active validators and weights in range |
| Validators.ValidatorSet.ProcessActivations | crates/consensus/src/validator.rs:274-288 | the loop activates up to the maximum and skips entries that are no longer pending |
| Validators.ValidatorSet.ProcessExits | crates/consensus/src/validator.rs:291-301 | every expired exit completes and nothing else changes |
| Validators.ValidatorSet.ActiveCount | crates/consensus/src/validator.rs:167-173 | active entries of the order list |
| Validators.ValidatorSet.BeginExit | crates/consensus/src/validator.rs:306-326 | refused when the active count is at most one or the validator is not active |
| Validators.ValidatorSet.Slash | crates/consensus/src/validator.rs:333-343 | any known validator, whatever its status |
| Validators.ValidatorSet.Proposer | crates/consensus/src/validator.rs:199-230 | the loops over the order list compute the weighted proposer of the active list, none on overflow |
| Lifecycle.RunOk | crates/consensus/src/validator.rs:237-343 | over every run weights stay in range and each pending validator is queued exactly once |
| Lifecycle.NoReturn | crates/consensus/src/validator.rs:274-343 | a validator that left the active set is never active again |
| Lifecycle.ActivationIsBounded | crates/consensus/src/validator.rs:274-288 | at queue place k and not slashed, a validator is active at some moment of every run with floor(k/max)+1 activation calls and pending no more at its end, whatever happens in between |
| Lifecycle.ExitsKeepSomeoneExactly | crates/consensus/src/validator.rs:306-326 | no run without slashing empties the active set if and only if the genesis list has no duplicate |
| Lifecycle.DuplicateEmpties | crates/consensus/src/validator.rs:134-147 | from a list with a duplicate, the run of exits that empties the set |
| Lifecycle.SlashKeepsSomeoneExactly | crates/consensus/src/validator.rs:333-343 | slashing leaves someone active if and only if another validator is |
| Lifecycle.SlashCanEmpty | crates/consensus/src/validator.rs:333-343 | a run in which it empties the active set |
| Lifecycle.ProposersAreFair | crates/consensus/src/validator.rs:199-230 | after any run the zero-weight fallback is unreachable and each active validator proposes exactly its weight per round |
| LifecycleEffects.GenesisEffect | crates/consensus/src/validator.rs:134-147 | a genesis validator is active since epoch 0 with the weight of its last entry, brought between 1 and a million |
| LifecycleEffects.ActivationEffect | crates/consensus/src/validator.rs:274-288 | one call activates exactly the first pending validators of the queue, as many as allowed, and changes nobody else |
| LifecycleEffects.SetWeightEffect | crates/consensus/src/validator.rs:251-271 | the weight of exactly the active validators can be set, between 1 and a million |
| LifecycleEffects.MayExitExactly | crates/consensus/src/validator.rs:306-326 | without duplicates an active validator may leave exactly when another is active |
| LifecycleEffects.ExitEffect | crates/consensus/src/validator.rs:291-326 | an exit completes at the first processing a cooldown later and changes nobody else |
| LifecycleEffects.OneLife | crates/consensus/src/validator.rs:237-343 | from joining over activation and exit to slashing, with the weight and both epochs recorded |
| Rlp.DecodeItemsLoop | crates/core/src/block.rs:314-329 | the loop that every list decoder contains computes the recursive list decoder, failures and limits included |
| Rlp.AllRoundTrip | crates/core/src/block.rs:306-329 | a list of items that are read back one at a time is read back behind its header, with the length announced |
| Signatures.SignatureRoundTrip | crates/crypto/src/signature.rs:114-192 | any signature is read back exactly, and refused if and only if it is larger than its scheme allows |
| Transactions.AccessListRoundTrip | crates/core/src/transaction.rs:1887-1945 | access lists, absent or not, are read back with their length |
| Transactions.BlobHashesRoundTrip | crates/core/src/transaction.rs:1947-1974 | so are blob hashes |
| Transactions.TxRoundTrip | crates/core/src/transaction.rs:52-101 | decoding encode(t) + r gives t and leaves r, and length() is the number of bytes written |
| Bundles.CallRoundTrip | crates/core/src/transaction.rs:780-866 | the same for inner calls |
| Bundles.SessionRoundTrip | crates/core/src/transaction.rs:590-733 | the same for session authorisations |
| Bundles.BundleRoundTrip | crates/core/src/transaction.rs:1171-1341 | the same for bundles |
| Bundles.OldBundleDecodes | crates/core/src/transaction.rs:1233-1341 | a bundle written before session keys is read as the same bundle without one |
| Bundles.SignedRoundTrip | crates/core/src/transaction.rs:1750-2038 | the same for signed transactions, with and without key and bundle |
| Blocks.HeaderRecordRoundTrip | crates/core/src/block.rs:357-437 | headers are read back; an old header without witness root is read with an empty one |
| Blocks.SealIsNoSystemList | crates/core/src/block.rs:331-355 | a seal is never mistaken for a list of system transactions |
| Blocks.BlockRoundTrip | crates/core/src/block.rs:306-550 | blocks are read back exactly in the current format and in each older one, with the length announced |
| Wire.BigEndianMeans | crates/core/src/transaction.rs:52-101 | numbers are written as digits to base 256, most significant first and without leading zeros |
| Wire.SignatureIs | crates/crypto/src/signature.rs:114-133 | a signature is the list of its type number and its bytes |
| Wire.TxIs | crates/core/src/transaction.rs:52-101 | a transaction is the list of its thirteen items, in this order, and is read from that list |
| Wire.CallIs | crates/core/src/transaction.rs:780-800 | an inner call is the list of its four items |
| Wire.SessionIs | crates/core/src/transaction.rs:612-640 | a session authorisation is the list of its seven items |
| Wire.BundleIs | crates/core/src/transaction.rs:1171-1222 | a bundle is the list of its calls, paymaster, signature, context and session, an old one without the last |
| Wire.SignedIs | crates/core/src/transaction.rs:1750-1779 | a signed transaction is the list of sender, transaction, signature and key, then the byte 1 and the bundle if there is one |
| Wire.StrippedIs | crates/core/src/witness.rs:93-109 | the same without signature and key |
| Wire.WitnessIs | crates/core/src/witness.rs:219-247 | a witness is the list of signature and key |
| Wire.WitnessesAre | crates/core/src/witness.rs:416-427 | a bundle of witnesses is the list of them |
| Wire.HeaderIs | crates/core/src/block.rs:108-146 | a header is the list of its seventeen items and the witness root, an old one without the last |
| Wire.FullBlockIs | crates/core/src/block.rs:439-480 | a block is the list of header, transactions, system transactions and seal, an old one without the third |
| Wire.StrippedBlockIs | crates/core/src/block.rs:706-757 | the same for stripped blocks |
| Normalised.SignedSound | crates/core/src/transaction.rs:1977-2038 | any bytes that decode to a signed transaction decode to one that is normalised, within every limit, and read back as itself |
| Normalised.TxSound | crates/core/src/transaction.rs:1813-1975 | likewise for transactions, which re-encode within ten times the bytes read |
| Normalised.BundleSound | crates/core/src/transaction.rs:1233-1341 | likewise for bundles |
| Normalised.HeaderSound | crates/core/src/block.rs:357-437 | likewise for headers |
| Normalised.StrippedSound | crates/core/src/witness.rs:117-164 | likewise for stripped transactions |
| Normalised.FullBlockSound | crates/core/src/block.rs:493-550 | any bytes that decode to a block give a normalised header, transactions and seal, written in less than ten times those bytes; the block is read back as itself when there are no system transactions, or they are short enough as they would be written |
| Normalised.StrippedBlockSound | crates/core/src/block.rs:759-814 | the same for stripped blocks |
| Normalised.WitnessSound | crates/core/src/witness.rs:255-278 | likewise for witnesses |
| Canonical.SignatureExactly | crates/crypto/src/signature.rs:136-192 | a signature is read from its encoding and from no other bytes |
| Canonical.SessionExactly | crates/core/src/transaction.rs:652-733 | likewise session authorisations |
| Canonical.WitnessExactly | crates/core/src/witness.rs:255-278 | likewise witnesses |
| Canonical.WitnessesExactly | crates/core/src/witness.rs:435-450 | likewise bundles of witnesses |
| Canonical.BundleExactly | crates/core/src/transaction.rs:1233-1341 | a bundle is read from its encoding in either format and from no other bytes |
| Canonical.HeaderExactly | crates/core/src/block.rs:357-437 | likewise headers |
| CanonicalTransactions.TxExactly | crates/core/src/transaction.rs:1813-1975 | which bytes are read as which transaction: all items as written, but any length for a list of keys that ends within the last one, and any number in the place of an absent blob fee |
| CanonicalTransactions.TxUniqueExactly | crates/core/src/transaction.rs:1813-1975 | a transaction has no second accepted encoding if and only if it has a blob fee and no storage keys |
| CanonicalTransactions.SignedExactly | crates/core/src/transaction.rs:1977-2038 | the same for signed transactions: an accepted transaction, its signature and key, and a flagged bundle only under its transaction type |
| CanonicalTransactions.StrippedExactly | crates/core/src/witness.rs:117-164 | the same for stripped transactions |
| CanonicalBlocks.FullBlockExactly | crates/core/src/block.rs:306-550 | which bytes are read as which block: an accepted header, a list of accepted transactions, then nothing, a seal, a list of texts, or both, filling the list exactly |
| CanonicalBlocks.StrippedBlockExactly | crates/core/src/block.rs:759-814 | the same for stripped blocks |
| Limits.SignatureLimits | crates/crypto/src/signature.rs:176-192 | a signature is accepted exactly up to 51200 bytes for the hash-based scheme and 4096 for the others |
| Limits.AccessListLimits | crates/core/src/transaction.rs:1887-1945 | an access list is normalised exactly when absent or of 1 to 256 entries with up to 512 keys; no length can then overflow |
| Limits.BlobHashLimits | crates/core/src/transaction.rs:1947-1974 | blob hashes exactly when absent or 1 to 6 |
| Limits.SessionLimits | crates/core/src/transaction.rs:652-733 | a session authorisation exactly when its key has up to 4096 bytes and its signatures up to 51200 |
| Limits.BundleLimits | crates/core/src/transaction.rs:1233-1341 | a bundle exactly when it has up to 16 calls of up to 128 KiB, and signature, context and session within their limits |
| MerkleFold.ComputeNextLevel | crates/core/src/witness.rs:386-403 | the inner loop pairs the level, the odd last hash with itself |
| MerkleFold.ComputeRoot | crates/core/src/witness.rs:369-406 | the outer loop folds to the recursive root, zero for nothing |
| MerkleFold.RootOfHalves | crates/core/src/witness.rs:386-403 | the root of two perfect trees side by side is the hash of the left root followed by the right one |
| MerkleFold.RootOfOne | crates/core/src/witness.rs:369-385 | the root of one leaf is the leaf, and without leaves it is zero |
| MerkleFold.RootIsPadded | crates/core/src/witness.rs:386-403 | for any number of leaves the root is that of the perfect tree that repeats the last subtrees |
| MerkleFold.RootBinds | crates/core/src/witness.rs:369-406 | trees of one depth with one root have the same padded leaves, or an input of one fold and a different input of the other have one hash |
| MerkleFold.PaddedDeterminesRoot | crates/core/src/witness.rs:369-406 | the converse: the padded leaves determine the root |
| MerkleFold.SameLengthBinds | crates/core/src/witness.rs:369-406 | for a known number of leaves the root determines them, up to a collision among the inputs of the two folds |
| MerkleFold.AnySizeBinds | crates/core/src/witness.rs:369-406 | one root means one depth and the same padded leaves, or a collision among what the two trees hash, or a leaf of one tree that is hashed from a pair of the other |
| MerkleFold.RepeatedLeafKeepsRoot | crates/core/src/witness.rs:386-403 | for every hash function, repeating the last of an odd number of leaves keeps the root |
| Witnesses.StrippedRoundTrip | crates/core/src/witness.rs:93-164 | stripped transactions are read back with their length |
| Witnesses.WitnessRoundTrip | crates/core/src/witness.rs:219-278 | witnesses are read back with their length |
| Witnesses.WitnessesRoundTrip | crates/core/src/witness.rs:416-450 | bundles of witnesses are read back with their length |
| Witnesses.ComputeBundleRoot | crates/core/src/witness.rs:329-406 | the root of a bundle is the fold over the hashes of its encoded witnesses |
| Witnesses.ComputeRootOfTransactions | crates/core/src/witness.rs:340-350 | computed straight from transactions it is the root of the bundle they split into |
| Witnesses.LengthFromTransactions | crates/core/src/witness.rs:355-367 | so is the length, the number of bytes in which the bundle is written |
| Witnesses.WitnessInjective | crates/core/src/witness.rs:219-233 | different witnesses have different encodings, whatever the size of their signatures |
| Witnesses.BundleRootBinds | crates/core/src/witness.rs:329-406 | two different bundles of equal length with one root contain a collision among the encoded witnesses and pairs hashed for them |
| Witnesses.SamePaddedRepeats | crates/core/src/witness.rs:369-406 | of two bundles with the same padded witnesses the shorter is a prefix of the longer, whose further witnesses repeat the ones the fold puts in their places |
| Witnesses.AnyBundleRootBinds | crates/core/src/witness.rs:329-406 | bundles of any sizes with one root have the same padded witnesses, or contain a collision among what is hashed for them, or a witness of one is written as a pair of the other; the last takes a witness of 64 bytes |
| Witnesses.RootsAgreeExactly | crates/core/src/witness.rs:329-406 | where the hash function tells the hashed inputs apart, bundles have one root if and only if they have the same padded witnesses |
| Witnesses.Split | crates/core/src/block.rs:578-603 | the loop moves every signature and key to the bundle and everything else to the body |
| Witnesses.SplitThenJoin | crates/core/src/block.rs:578-673 | a block split and put together again is the same block |
| Witnesses.JoinThenSplit | crates/core/src/block.rs:610-673 | putting together keeps every body whatever the bundle, and all of a bundle of the right size; otherwise every witness is the stub |
| Witnesses.FullBlockRoundTrip | crates/core/src/block.rs:439-550 | full blocks of signed transactions are read back exactly in every format |
| Witnesses.StoredBlockRoundTrip | crates/core/src/block.rs:578-813 | any block that can be written can be split, both parts written, read, and put together to the same block |
| Fee.ComputeFakeExponential | crates/core/src/fee.rs:109-135 | for every input the wrapping loop returns the unbounded series saturated at 64 bits; nothing wraps and the counter is never exhausted |
| Fee.TermIsTaylor | crates/core/src/fee.rs:106-135 | every term of the sum is that of the Taylor series, up to what rounding down lost |
| Fee.SeriesIsSum | crates/core/src/fee.rs:109-135 | the series is the sum of these terms |
| Fee.FakeExponentialOfTwo | crates/core/src/fee.rs:109-135 | two values given by EIP-4844 |
| Fee.CalcBlobGasPrice | crates/core/src/fee.rs:90-96 | the blob gas price is the saturated EIP-4844 price |
| Fee.BlobGasPriceMonotone | crates/core/src/fee.rs:90-96 | the price is at least one and grows with the excess |
| Fee.BlobPriceSaturates | crates/core/src/fee.rs:90-96 | from a known excess on the price is the largest 64-bit number |
| Fee.BlobPriceFollowsUse | crates/core/src/fee.rs:101-104 | use above target never lowers the next price, use below never raises it, also where the excess saturates |
| Fee.ExcessIsBacklog | crates/core/src/fee.rs:98-104 | over any blocks the excess is the largest surplus over three blobs of any last blocks, or of all on top of the start |
| Fee.BaseFeeWithinOneEighth | crates/core/src/fee.rs:21-69 | the base fee stays within an eighth if and only if the block is not too full, a product of the fee and the gas used, for every use and limit |
| Fee.BaseFeeExactly | crates/core/src/fee.rs:30-69 | the change is the fee times the distance from the target over eight targets, rounded down, at least one upwards |
| Fee.BaseFeeOfExtremes | crates/core/src/fee.rs:30-69 | an empty block lowers the fee by an eighth, a full one with an even limit raises it as much, and the first fee is one gwei |
| Fee.OddFullBlocks | crates/core/src/fee.rs:30-69 | within the gas limit the blocks that are too full are full blocks with an odd limit whose rounding crosses an eighth |
| Fee.OddLimitExceedsEighth | crates/core/src/fee.rs:30-69 | one such block, at a fee of one gwei |
| Fee.BaseFeeDirection | crates/core/src/fee.rs:30-69 | blocks above target raise the fee, blocks below never do, and it is never zero |
| RateLimiter.ProofRateLimiter.constructor | crates/consensus/src/rate_limiter.rs:95-100 | no buckets |
| RateLimiter.ProofRateLimiter.TryConsume | crates/consensus/src/rate_limiter.rs:110-126 | a full bucket is made on first use, refilled, and charged if it has a token |
| RateLimiter.ProofRateLimiter.TokensRemaining | crates/consensus/src/rate_limiter.rs:133-141 | the refilled count, without a charge or a mark of use |
| RateLimiter.ProofRateLimiter.Gc | crates/consensus/src/rate_limiter.rs:150-154 | exactly the buckets unused for too long are removed |
| RateLimiter.RefillShape | crates/consensus/src/rate_limiter.rs:61-81 | a refill pays for whole periods, moves the clock by exactly those and is capped |
| RateLimiter.RefillMeans | crates/consensus/src/rate_limiter.rs:61-81 | after k whole intervals there are k refills more, up to the capacity |
| RateLimiter.BucketLife | crates/consensus/src/rate_limiter.rs:110-154 | a bucket is made full, a submission takes a token, and it is collected exactly when the last submission is long enough ago, whatever was queried |
| RateLimiter.RefillTwice | crates/consensus/src/rate_limiter.rs:61-81 | refilling early and again later is refilling once |
| RateLimiter.GrantsAreBounded | crates/consensus/src/rate_limiter.rs:110-126 | from any moment of a bucket's life, grants and tokens left are at most tokens there and refills since |
| RateLimiter.GrantsSinceCreation | crates/consensus/src/rate_limiter.rs:110-126 | grants since creation are at most initial + rate * floor(elapsed / interval) |
| RateLimiter.QueriesDoNotMatter | crates/consensus/src/rate_limiter.rs:110-141 | the answers to submissions are what they would be without any query |
| RateLimiter.CreatingQuery | crates/consensus/src/rate_limiter.rs:110-141 | a query that makes the bucket changes nothing but the phase of its refills, which starts (now - queried) mod interval before the first submission |
| RateLimiter.CreatingQueryShowsExactly | crates/consensus/src/rate_limiter.rs:110-141 | no later answer differs if and only if the first submission comes a whole number of intervals after that query, or there is nothing to refill |
| RateLimiter.CollectionIsHarmlessExactly | crates/consensus/src/rate_limiter.rs:110-154 | over all runs with collections, grants stay within one filling and the refills since the start if and only if a bucket left alone until it can be collected is full again |
| Windows.ProofWindowManager.constructor | crates/consensus/src/window.rs:84-90 | no windows, no counts |
| Windows.ProofWindowManager.Claim | crates/consensus/src/window.rs:95-152 | free or run-out windows can be claimed, the latter with a charge; late blocks expire |
| Windows.ProofWindowManager.Fulfill | crates/consensus/src/window.rs:158-193 | only the claimer in time; too late is a charge |
| Windows.ProofWindowManager.Advance | crates/consensus/src/window.rs:215-239 | every stale claim expires and each prover is charged once for each of its own, in any order of iteration |
| Windows.ProofWindowManager.Gc | crates/consensus/src/window.rs:242-246 | exactly the windows at or below the cutoff go |
| ClaimAccounting.StepBalances | crates/consensus/src/window.rs:95-246 | each operation moves a prover's claims between held, charged, fulfilled and dropped without making or losing any |
| ClaimAccounting.FreeWindow | crates/consensus/src/window.rs:95-120 | a free window is claimed up to its last block without a charge |
| ClaimAccounting.ClaimedWindow | crates/consensus/src/window.rs:95-152 | a running claim survives every other claim; once it has run out the window changes hands with one charge, and after the last block it is gone without one |
| ClaimAccounting.FulfilledWindow | crates/consensus/src/window.rs:158-193 | only the claimer fulfils, until the claim has run out, and is charged afterwards |
| ClaimAccounting.PassingTime | crates/consensus/src/window.rs:215-246 | which claims time ends and which windows are collected |
| ClaimAccounting.ClosedWindow | crates/consensus/src/window.rs:95-193 | a fulfilled or expired window is never claimed or fulfilled again |
| ClaimAccounting.ClaimsAreConserved | crates/consensus/src/window.rs:95-246 | over every run successful claims are exactly those charged, fulfilled, dropped and held, and the count is the number charged |
| ClaimAccounting.FlagIsEarned | crates/consensus/src/window.rs:203-210 | a prover is flagged only after that many claims of its own beyond those fulfilled or held |
| ClaimAccounting.FlaggedExactly | crates/consensus/src/window.rs:203-210 | a prover is flagged exactly when that many of its claims were charged |

## Left out

- Signature schemes, key derivation, keccak and BLAKE3: hashes are functions given as parameters, and signatures are bytes.
- Signing-hash preimages (`signing_hash`, `auth_hash` and the batch hashes), and `BlockHeader::canonical_encode`.
- JSON and serde forms. The text of system transactions is a parameter: reading undoes writing, and no text is as short as one byte. A system transaction that cannot be written is not modelled.
- Kinds of errors: a decoder or operation either succeeds or fails.
- `BlockSignerEvidence`, receipts, logs and accounts: repetitions of the same codec pattern.
- Timeouts and clocks: `WPoaRound::tick`, `check_timeout` and wall-clock reads; times are arguments.
- Signatures on votes, view-change messages and attestations, which are verified elsewhere; `set_chain_id`.
- Locks, async sealing and parallel batch verification.
- `PoaConfig::proposer_for_block` and `weighted_proposer_for_block`, the same walk with clamped weights; slashing arithmetic and `set_authorities` in the PoA engine; `record_attestation` with unit weight.
- `slashing.rs`, `peer_scoring.rs`, `challenge.rs`, `prover_registry.rs`, `algorithm_registry.rs`, storage, networking, RPC, the EVM and the command line.
- Sizes of `usize` sums in length computations are not saturated: they are bounded by what fits in 64 bits.
- ForkChoiceRuns.RunOk: assumes that a block is added once, after its parent, with a larger number and a parent determined by its hash, and that the head is not given a lower weight; `LoweredHeadIsStale` and `OrphanMissesFinality` show why.
- Agreement.AgreementBelowOneThird: for weights that fit in 64 bits; AgreementExact is for all.
- ViewChange.AdvanceMeetsCommit: assumes that no voter has lost weight since its vote was counted, and a total below 2^63; LostWeightStillCounts and AdvanceMeetsCommitExactly show why.
- RateLimiter.GrantsSinceCreation: bounds one life of a bucket; CollectionIsHarmlessExactly is about all of them.
- RateLimiter.QueriesDoNotMatter: for events in the order of time, as a monotonic clock gives them, on a bucket that exists; CreatingQueryShowsExactly is about one that does not.
- Normalised.SignedSound: for buffers of at most a tenth of 2^64 bytes, like all results of this module; system transactions may be written longer than they were read, so a block that has some is read back only when they fit.
- Canonical.SignatureExactly: for buffers of at most a tenth of 2^64 bytes, like all results about accepted bytes.
- Witnesses.RootsAgreeExactly: for witnesses that are not written in exactly 64 bytes, the size of a pair of hashes; a signature of any supported scheme is longer.
