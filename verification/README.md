# gean, verified in Dafny

gean is a consensus client for Lean Ethereum. This project models its deterministic core, the
3SF-mini state transition and the LMD-GHOST fork-choice store, and proves what that core keeps
over every input, every chain and every run. `dafny verify dfyconfig.toml` checks all of it.

The model has three layers.

- **Objects and bytes.** `Bitlist` (SSZ bitlists in byte arrays, written in place), `StateObjects`
  (the state transition on heap objects), `GetHead` (the fork-choice function with its loops over
  maps), `Aggregation`, `VoteTarget`, `Collection`, and the class `ForkChoice.Store`. Each method
  is proved to compute a function on values, whatever order a map is visited in.
- **Values.** `Types`, `Slots`, `Roots`, `Voting`, `Transition`, `BlockTree`, `Ghost`, `StoreModel`:
  the same operations as functions. `Voting.CastVote` is one pass of the vote loop,
  `Transition.StateTransition` the whole transition, `StoreModel.View` the fields of the store.
- **Results.** `Finality` and `Chain` (invariants of every chain from genesis), `Backing`, `Pooling` and
  `PooledChains` (which votes stand behind a justified slot), `VoteOrder` (exactly when a checkpoint
  goes back), `VoteMachine` (a machine over plain sets that the vote counting refines), `Ghost` (what
  the head and the safe target are), `VoteEffects` and `OwnVotes` (what votes do to the store),
  `StoreInvariant`, `Production`, `StoreRuns`, `HeadElection`, `SafeTargets`, `CheckpointSources` and
  `RunExamples` (what holds all along every run of public store operations, and runs that show where it
  ends).

## Main results

- Finality: along every chain the finalized slot never decreases, and whatever was finalized stays
  justified and stays in history (`Chain.FinalityIsMonotone`); the same along every stored branch
  (`StoreInvariant.FinalityAlongBranches`).
- What is not monotone: inside one block a vote can take either checkpoint back, exactly when
  `VoteOrder.VoteLowersFinalizedIff` and `VoteOrder.VoteLowersJustifiedIff` say. The latest justified
  slot can also go back from one block to the next: exactly when the last vote of the block to complete
  two thirds names an earlier target (`VoteOrder.BlockLowersJustifiedIff`). Accepted blocks that show
  it are `VoteOrder.MoreVotesCanFinalizeLess` and `VoteOrder.JustifiedCanGoBack`.
- Refinement: over every chain the sorted roots and the flat bitlist of votes behave as a map from
  roots to sets of validators (`VoteMachine.ChainRefinesMachine`).
- Backing: every justified slot but slot 0 has counted votes of two thirds of the validators for its
  root, and two such slots share a third (`Backing.JustifiedSlotsAreBacked`,
  `Backing.JustifiedSlotsShareAThird`). If the slot holds a block, and no two blocks of the chain share
  a root, these votes are for that very checkpoint (`Backing.JustifiedBlocksAreBacked`).
- Pooling: votes are recorded by root, and all empty slots share the zero root. Some next block of a
  chain justifies an open slot without two thirds of the validators behind that checkpoint exactly if
  fewer than two thirds voted for it before and one of three things holds: someone is recorded under the
  root without having voted for the slot; another open slot has the root and the next recorded vote need
  not complete two thirds; or two other open slots have the root and there are two validators or more
  (`Pooling.ChainUnbackedIffPoolable`). `PooledChains.EmptySlotsPoolTheirVotes` pools votes inside one
  block; `PooledChains.CarriedVoteIsPooled` uses a vote left pending by an earlier block, at a moment
  when no other open slot has the root.
- GHOST: the head is the only block that satisfies a description which mentions no walk
  (`Ghost.HeadUnique`), and weights add up over children (`Ghost.ScoreIsDirectPlusChildren`).
- Safe target: at every point of a run it is the deepest block that two thirds of all validators
  supported with the votes pending at the last third interval of a slot or explicit update, in the tree
  of that moment (`SafeTargets.SafeTargetOfRun`).
- Votes: receiving a block, an aggregate or a single vote changes, for each validator, exactly what it
  should (`VoteEffects.ReceiveBlockEffect`, `VoteEffects.AggregateEffect`, `VoteEffects.GossipEffect`):
  a vote takes its place unless one at least as late is there, body votes clear what they supersede,
  and whatever fails a check changes nothing.
- Store: the invariant `StoreInvariant.Inv` holds all along every run, up to the first produced block
  that collides with a different stored block (`StoreRuns.RunsKeepInvariant`), and to its end if no two
  blocks of the run share a root (`StoreRuns.RunsWithoutCollisions`); `RunExamples.SomeRunCollides` is a
  run that does collide. Under the invariant "head state not found" cannot happen. Time, checkpoint
  slots and stored blocks never go back (`StoreRuns.RunsProgress`).
- Checkpoints: all along every run the store's justified and finalized checkpoints are the latest among
  those of the anchor and of the states of imported blocks (`CheckpointSources.CheckpointsAreLatest`).
  Produced blocks are never folded in; `CheckpointSources.ProducedIsAheadIff` says exactly when one is
  ahead of the store, and `RunExamples.ProducedIsAhead` is a run with such a block.
- Head: at every point of a run the head is the elected block exactly if every produced and newly
  stored block has been followed by an election (`HeadElection.HeadIsElectedIff`, with a stale head in
  `RunExamples.SomeHeadIsStale`); the produced block wins that election if nothing else arrives
  (`HeadElection.ProducedBlockBecomesHead`) and is accepted by other stores
  (`StoreRuns.ProposalsAreAccepted`).
- Own votes: a prepared store would keep the vote it produces exactly if the signature verifies, the
  justified checkpoint is a block, and it is not above the vote's target (`Production.OwnVoteIsKeptIff`).
  Both ways to fail are reached: `RunExamples.EmptySlotRejects` and `RunExamples.LookbackRejects`. Once
  accepted, a kept vote for the head supports it and leaves it the head (`OwnVotes.VoteForHeadCounts`).
- Proposals: a produced body is a fixed point of collection. It holds every known vote whose source the
  post-state justifies, and only votes whose source the votes before them lead to
  (`Collection.CollectAttestations`).
- Aggregation: aggregating and disaggregating one vote or more gives the same votes back exactly if the
  validators are distinct and all signed the same data (`Aggregation.RoundTrip`).
- Slot rule: the uint64 code decides the square/pronic rule for all distances except squares and
  pronics whose root estimate is at least 2^32 - 1, which it rejects (`Slots.IsJustifiableAfterExact`,
  with a concrete rejected square in `Slots.LargestSquareRejected`).

## Assumptions

- A root is a 32-byte hash read as a big-endian number; `Roots.HashGreater` shows that comparing the
  bytes is comparing the numbers.
- Hash-tree-roots and signature verification are parameters: arbitrary functions (`Types.Crypto`). The
  only thing assumed of them is that headers and states do not hash to the zero hash. A block's root
  is the root of its header, since a container's root only sees the roots of its fields. Collision
  freedom is not assumed. A produced block can overwrite a different stored block of the same root
  (`StoreRuns.Collides`); results about runs hold up to the first time that happens. The example runs use
  a hash that tells slots apart, or a constant one.
- The clock (`NowFn`) and the signer are parameters of the methods that consult them.
- Each public method runs under the store's mutex and is one atomic step.
- Results about runs start from the genesis state and block that node/lifecycle.go builds, with at
  least one validator. Signatures are verified (chain/forkchoice/sig_verify.go).
- Slots and times are unbounded naturals, except in the uint64 model of the slot rule.

## Where the code and its comments differ

The model follows the code.

- `isqrt` (types/slot.go:38) is documented as the floor root; for estimates of at least 2^32 - 1 it is not.
- `AggregateAttestations` (chain/forkchoice/aggregation.go:12) is documented for votes with the same
  data; it does not check that and keeps the first vote's data.
- The vote-target lookback (chain/forkchoice/produce.go:35) is documented for a newer safe target; it
  steps back while the target is newer than the safe target.

## Model

| member | source | states |
|---|---|---|
| Slots.IsqrtExact | types/slot.go:39-52 | The corrected root is the floor root exactly when the estimate, off by at most one, is below 2^32 - 1 |
| Slots.IsJustifiableAfterExact | types/slot.go:12-52 | The code agrees with "at most 5, a square or k(k+1)" exactly outside the squares and pronics with an estimate of at least 2^32 - 1, and never accepts a slot the rule rejects |
| Slots.SmallDistancesAreSafe | types/slot.go:12-52 | Below (2^32 - 2)^2 no estimate within one misleads the code |
| Slots.LargestSquareRejected | types/slot.go:24-28 | (2^32 - 1)^2 is a square and is rejected |
| Roots.HashGreater | chain/forkchoice/ghost.go:87-97 | The byte loop decides the numeric order of the two hashes |
| Roots.ListingUnique | chain/statetransition/process_attestations.go:134-144 | Two sorted listings of the same roots are equal, so map order does not matter |
| Roots.SortedJustificationRoots | chain/statetransition/process_attestations.go:135-144 | Visiting the keys in any order and sorting gives the one sorted listing |
| Bitlist.EncodesIffReads | chain/statetransition/bitlist.go:3-23 | Bytes encode bits (bits, sentinel, zero padding) exactly when they are well formed and read back as those bits |
| Bitlist.EncodingUnique | chain/statetransition/bitlist.go:3-7 | Each list of bits has one encoding |
| Bitlist.BitlistLen | chain/statetransition/bitlist.go:10-23 | The length loop finds the number of data bits of any byte string |
| Bitlist.GetBit | chain/statetransition/bitlist.go:26-33 | Reads the bit, and false beyond the buffer |
| Bitlist.SetBit | chain/statetransition/bitlist.go:36-48 | Writes one bit in place and no other; on a well-formed list it updates that element |
| Bitlist.AppendBit | chain/statetransition/bitlist.go:51-85 | On every buffer the result is well formed, and one element longer exactly unless a buffer that ends in a zero byte has stale bits in its first byte, which then stay |
| Bitlist.MakeBitlist | chain/statetransition/bitlist.go:89-97 | A fresh list of the given number of false bits |
| Bitlist.CloneBitlist | chain/statetransition/bitlist.go:100-104 | A fresh equal buffer |
| Voting.UnpackFlatten | chain/statetransition/process_attestations.go:19-28 | Reading the flat votes back gives the votes per root that were flattened |
| Voting.TallySurvivesStorage | chain/statetransition/process_attestations.go:121-131 | The next block starts from exactly the tally this block stored |
| Finality.FinalizingSourceNotBelow | chain/statetransition/process_attestations.go:66-69 | A source below the finalized slot never finalizes |
| Finality.CastVotesSettled | chain/statetransition/process_attestations.go:35-119 | All votes of a block keep: no cleared bit, finalized not below its start, both checkpoints justified and in history, pending roots with at least one vote and less than two thirds |
| Finality.QuorumsIntersect | chain/statetransition/process_attestations.go:94-97 | Two supermajorities share a third of the validators |
| Transition.AdvanceSlotsFillsOnce | chain/statetransition/transition.go:13-36 | However many slots pass, the header's state root is filled once, from the state after its block |
| Transition.TransitionIffRelation | chain/statetransition/transition.go:24-133 | The transition succeeds with a state exactly when the listed checks hold and that state is the result |
| Transition.TransitionErrors | chain/statetransition/transition.go:24-133 | The first failing check decides the error |
| Transition.ParentIsLastBlock | chain/statetransition/transition.go:50-53 | The header check means that the parent is the block behind the state |
| Transition.FillingStateRoot | chain/statetransition/transition.go:91-133 | A processed block passes the whole transition once its state root is filled in |
| Chain.GenesisStartsChains | chain/statetransition/genesis.go:8-36 | The generated genesis state has the given time and validators, meets the start conditions and matches its block |
| Chain.TransitionKeepsGood | chain/statetransition/transition.go:39-105 | One block keeps all chain invariants, extends history by its parent and zeros, clears no bit, lowers no finalized slot |
| Chain.ChainStatesAreGood | chain/statetransition/transition.go:109-133 | Every chain state: history length, bit length and header slot agree; checkpoints justified and in history; pending roots between one vote and two thirds |
| Chain.StatesRemember | chain/statetransition/process_attestations.go:33-118 | Over any prefix of a chain: finalized slot, history and justified bits only grow |
| Chain.FinalityIsMonotone | chain/statetransition/process_attestations.go:33-118 | What a prefix finalized stays finalized-or-below, justified and in history |
| Chain.ExactlyOneNextBlock | chain/statetransition/transition.go:39-133 | For every later slot and every body a chain state accepts exactly one block, so chains of every shape exist |
| Chain.HistoryIsTheChain | chain/statetransition/transition.go:64-85 | Entry s is the root of the chain's block at slot s, and zero if there is none |
| Backing.CastVotesBacked | chain/statetransition/process_attestations.go:77-105 | Recorded and justifying votes of a block are votes of distinct validators for that root that passed every check |
| Backing.CountedVotesLead | chain/statetransition/process_attestations.go:41-75 | Every counted vote of a chain leads from a justified slot of the final history to a later slot of it |
| Backing.JustifiedSlotsAreBacked | chain/statetransition/process_attestations.go:77-105 | Justified slots other than 0 have counted votes of two thirds of the validators for their root |
| Backing.JustifiedSlotsShareAThird | chain/statetransition/process_attestations.go:94-105 | The backers of two justified slots share a third of the validators |
| Backing.JustifiedBlocksAreBacked | chain/statetransition/process_attestations.go:77-105 | A justified slot that holds a block has two thirds behind that checkpoint, root and slot, if no two blocks of the chain share a root |
| Pooling.UnbackedIffPoolable | chain/statetransition/process_attestations.go:77-105 | Where the votes of a block are cast, whatever is recorded from earlier blocks: some votes justify an open slot without two thirds behind that checkpoint exactly if the slot is poolable |
| Pooling.ChainUnbackedIffPoolable | chain/statetransition/process_attestations.go:16-132 | The same over chains: some next block of the chain justifies the slot in this way, counting all votes of the chain |
| PooledChains.EmptySlotsPoolTheirVotes | chain/statetransition/process_attestations.go:77-105 | An accepted block that justifies an empty slot with one of three validators behind it |
| PooledChains.CarriedVoteIsPooled | chain/statetransition/process_attestations.go:19-105 | A chain of four blocks that does so with a vote carried over from an earlier block, no other open slot having the root |
| VoteOrder.VoteLowersFinalizedIff | chain/statetransition/process_attestations.go:41-118 | Exactly when a single vote lowers the finalized slot |
| VoteOrder.VoteLowersJustifiedIff | chain/statetransition/process_attestations.go:41-100 | Exactly when a single vote lowers the latest justified slot |
| VoteOrder.BlockLowersJustifiedIff | chain/statetransition/process_attestations.go:35-129 | A block lowers the latest justified slot exactly if its last vote to complete two thirds has an earlier target |
| VoteOrder.MoreVotesCanFinalizeLess | chain/statetransition/process_attestations.go:99-118 | Two accepted first blocks: with one vote more, the finalized and the justified slot are lower |
| VoteOrder.JustifiedCanGoBack | chain/statetransition/process_attestations.go:99-106 | A chain of two blocks whose latest justified slot goes from 3 to 1 |
| VoteMachine.CastVoteRefines | chain/statetransition/process_attestations.go:35-119 | One pass of the vote loop is one step of the machine over sets |
| VoteMachine.ProcessAttestationsRefines | chain/statetransition/process_attestations.go:16-132 | From stored form to stored form, the votes of a block are the machine's steps |
| VoteMachine.ChainRefinesMachine | chain/statetransition/process_attestations.go:16-172 | Over every chain the final ledger is the machine run over the blocks |
| StateObjects.FlattenVotes | chain/statetransition/process_attestations.go:148-172 | The byte buffer encodes the concatenated votes |
| StateObjects.UnpackVotes | chain/statetransition/process_attestations.go:19-28 | The nested loops read the map that the stored form means |
| StateObjects.CastVoteInPlace | chain/statetransition/process_attestations.go:36-118 | The loop body, with its in-place bit writes, computes CastVote |
| StateObjects.TallyVotes | chain/statetransition/process_attestations.go:17-119 | The whole loop computes CastVotes and writes only to its own clone |
| StateObjects.ProcessAttestations | chain/statetransition/process_attestations.go:16-132 | Fresh result with the value ProcessAttestations gives; input untouched |
| StateObjects.StateObject.Copy | types/state.go:31-74 | Equal value; header, both bitlists and the object itself are new |
| StateObjects.GenerateGenesis | chain/statetransition/genesis.go:8-36 | A fresh object with the genesis value |
| StateObjects.ProcessSlot | chain/statetransition/transition.go:13-21 | Fills a zero state root through the header pointer of a copy; the input keeps its own header |
| StateObjects.ProcessSlots | chain/statetransition/transition.go:24-36 | The slot loop computes ProcessSlots, errors included |
| StateObjects.ProcessBlockHeader | chain/statetransition/transition.go:39-88 | Checks, appends and the new header, as ProcessBlockHeader on values, in a fresh object |
| StateObjects.StateTransition | chain/statetransition/transition.go:109-133 | Computes StateTransition on values, result or error, and leaves its input as it was |
| Ghost.ScoreIsDirectPlusChildren | chain/forkchoice/ghost.go:36-52 | A block's weight is its direct votes plus its children's weights |
| Ghost.BestUnique | chain/forkchoice/ghost.go:72-83 | (weight, slot, hash) has at most one maximum among siblings |
| Ghost.DescendIsHead | chain/forkchoice/ghost.go:63-85 | The descent ends below the root, on a block without qualifying child, and every block on the way beats its siblings |
| Ghost.PathIsHeaviest | chain/forkchoice/ghost.go:72-83 | No sibling on the way to the head has more votes, or as many and a later slot, or both equal and a larger hash |
| Ghost.HeadUnique | chain/forkchoice/ghost.go:63-85 | Only one block fits that description |
| Ghost.ThresholdIsTwoThirds | chain/forkchoice/helpers.go:15-17 | The rounded-up minimum score means two thirds |
| Ghost.SafeTargetIsDeepest | chain/forkchoice/ghost.go:36-85 | With that score the descent ends on the root or a supported block, and every supported block is on the way to it |
| Ghost.QualifiersOnOnePath | chain/forkchoice/ghost.go:54-61 | All supported blocks lie on one path |
| Ghost.NoTwoQualifyingSiblings | chain/forkchoice/ghost.go:66-83 | The descent never meets two supported siblings |
| GetHead.WalkParents | chain/forkchoice/ghost.go:43-51 | The parent walk ends and adds one to exactly the ancestors above the start slot |
| GetHead.CountVotes | chain/forkchoice/ghost.go:37-52 | The weights are the numbers of votes at or below each block |
| GetHead.BuildChildren | chain/forkchoice/ghost.go:55-61 | The lists hold exactly the children with the minimum score |
| GetHead.GetForkChoiceHead | chain/forkchoice/ghost.go:9-86 | Returns the head of the election from the root, or from an earliest block for the zero hash, in any visiting order |
| VoteTarget.LookbackBound | chain/forkchoice/produce.go:35-42 | At most three parents are taken, each from a block above the safe target, and fewer only at or below it |
| VoteTarget.TargetFoundIff | chain/forkchoice/produce.go:32-62 | A target is found exactly when the lookback block has a stored justifiable ancestor or is one, and it is the nearest |
| VoteTarget.FinalizedAncestorSuffices | chain/forkchoice/produce.go:44-54 | A block at the finalized slot on that chain is enough |
| VoteTarget.FindTarget | chain/forkchoice/produce.go:33-54 | Both loops end and compute that target |
| Collection.CollectRound | chain/forkchoice/produce.go:115-135 | A round keeps one vote per validator, leaves no vote with a stored head and the justified source out, and takes no other in |
| Collection.CollectAttestations | chain/forkchoice/produce.go:100-142 | The loop ends within one more round than known votes, on a fixed point; each vote in it has a stored head and a source that votes before it lead to |
| Aggregation.DisaggregateInverts | chain/forkchoice/aggregation.go:14-68 | Disaggregation succeeds exactly for distinct ids, then gives ids in order with their own signatures |
| Aggregation.AggregateAttestations | chain/forkchoice/aggregation.go:14-41 | Bits mark exactly the ids; signatures are concatenated in id order; the first one's data is kept |
| Aggregation.DisaggregateAttestation | chain/forkchoice/aggregation.go:45-68 | Computes the ids and signature chunks, or the length error |
| Aggregation.RoundTrip | chain/forkchoice/aggregation.go:14-68 | Succeeds exactly for distinct validators and then gives each one with its signature in order; the rebuilt votes are the given ones exactly if all had the same data |
| StoreModel.TicksCompose | chain/forkchoice/time.go:15-24 | Ticking to t1 and then to t2 is ticking to t2 |
| StoreModel.AdvanceTimeComposes | chain/forkchoice/time.go:15-49 | Advancing in two stages without proposals is advancing once |
| StoreModel.ProposalOnlyAtTheEnd | chain/forkchoice/time.go:20-23 | A proposal changes only the last interval |
| StoreModel.VotesCommuteIff | chain/forkchoice/attestation.go:65-69 | The order of two votes matters exactly for different votes of one validator for one new slot |
| StoreModel.BodyVotesAreKnown | chain/forkchoice/attestation.go:46-56 | After a body, each voter's known vote is at least that late and no superseded pending vote is left |
| StoreInvariant.StoredHistory | chain/forkchoice/block.go:57-106 | Non-zero history entries of a stored state are stored ancestors at that slot |
| StoreInvariant.FinalityAlongBranches | chain/forkchoice/block.go:57-106 | Along every stored branch finality, history and justified bits only grow |
| StoreInvariant.GossipKeeps | chain/forkchoice/attestation.go:23-73 | A network vote keeps the store invariant |
| StoreInvariant.ImportBlockKeeps | chain/forkchoice/block.go:104-140 | Importing a block keeps the store invariant |
| VoteEffects.GossipEffect | chain/forkchoice/attestation.go:23-73 | A network vote takes its validator's pending place exactly if it is valid, verifies, is not early and is newer; nothing else changes |
| VoteEffects.AcceptEffect | chain/forkchoice/time.go:58-68 | Every pending vote overrides the known one, none stays pending, the head is elected |
| VoteEffects.AggregateEffect | chain/forkchoice/aggregation.go:103-156 | With fitting lengths and valid, timely data each part that verifies takes its place unless a vote at least as late is there, and every other place is as before; otherwise nothing changes |
| VoteEffects.ReceiveBlockEffect | chain/forkchoice/block.go:41-144 | Exactly if all checks pass the block is stored, its valid votes become known unless later ones are, superseded pending votes go and no others, the head is elected with them, and the proposer's vote becomes pending; otherwise nothing changes |
| VoteEffects.ImportsIff | chain/forkchoice/block.go:53-102 | A block is imported exactly if it is new, its parent's state is stored, the transition succeeds, and the count and every body and proposer signature fit |
| VoteEffects.ReceiveBlockErrors | chain/forkchoice/block.go:53-102 | The error of the first failing check |
| SafeTargets.TickSafeTarget | chain/forkchoice/time.go:33-49 | An interval updates the safe target exactly if it is the third of its slot |
| SafeTargets.TickPending | chain/forkchoice/time.go:33-49 | An interval accepts the pending votes exactly if it is the fourth, or the first with a proposal |
| SafeTargets.TicksSafeTarget | chain/forkchoice/time.go:15-49 | Over any stretch of time only the last update counts, with no pending votes if a slot ended before it |
| SafeTargets.AdvanceTimeReaches | chain/forkchoice/time.go:15-24 | The clock is set to the interval of the given time, and never back |
| SafeTargets.SafeTargetOfRun | chain/forkchoice/time.go:77-83 | At every point of a run the safe target is the deepest block with two thirds of all validators in the pending votes of the last update, or the anchor before the first |
| StoreRuns.StepKeeps | chain/forkchoice/store.go:14-32 | Every public operation keeps the store invariant unless it produces a block that overwrites a different one |
| StoreRuns.RunsKeepInvariant | chain/forkchoice/store.go:94-120 | All along every run, up to a collision: blocks under their roots, parents stored at smaller slots, states by transition, votes keyed, signed, stored and timely, head stored and below the justified root |
| StoreRuns.AnchorCollisionBreaks | chain/forkchoice/produce.go:202-204 | Storing a produced block with the anchor's root loses the invariant |
| StoreRuns.RunsWithoutCollisions | chain/forkchoice/produce.go:202-204 | If no two different blocks of a run have the same root, the invariant holds at every point of it |
| RunExamples.SomeRunCollides | chain/forkchoice/produce.go:202-204 | A run, with a constant hash, in which the first produced block replaces the anchor |
| StoreRuns.RunsProgress | chain/forkchoice/block.go:108-115 | Between any two points of a run time, checkpoint slots and stored blocks never go back |
| CheckpointSources.CheckpointsAreLatest | chain/forkchoice/block.go:108-115 | All along every run the justified and the finalized checkpoint are each the latest among those of the anchor and of the states of imported blocks |
| CheckpointSources.ProducedIsAheadIff | chain/forkchoice/produce.go:144-204 | Production changes neither checkpoint; the stored block's state is ahead exactly if its last vote to complete two thirds has a later target, or it has none and the head's state was ahead |
| CheckpointSources.ProducedIsKnown | chain/forkchoice/block.go:50-55 | Receiving a produced block back changes nothing |
| RunExamples.ProducedIsAhead | chain/forkchoice/produce.go:202-204 | A run whose produced block justifies slot 1 while the store stays at slot 0 |
| StoreRuns.HeadOfReachableStore | chain/forkchoice/produce.go:87-90 | The head's state is stored and is the end of a chain from genesis |
| StoreRuns.SafeTargetOfReachableStore | chain/forkchoice/time.go:77-83 | The safe target is the deepest block with two thirds of all validators, or the start |
| Production.ProposalTransitions | chain/forkchoice/produce.go:144-157 | A produced block passes the transition from its parent's state with the stored post-state |
| Production.ProposalIsSigned | chain/forkchoice/produce.go:176-188 | One signature per body vote plus one, each verifying for its vote |
| Production.CandidatesProcess | chain/forkchoice/produce.go:101-113 | A candidate on the head always passes the header checks |
| Production.VoteTargetMeaning | chain/forkchoice/produce.go:32-62 | The target is the nearest block justifiable after the finalized slot, from at most three parents back above the safe target; there is none exactly if no such block is stored |
| StoreRuns.ProposalsAreAccepted | chain/forkchoice/block.go:53-106 | Another store with the parent state accepts a produced block whose proposer signature verifies |
| Production.OwnVoteIsValidIff | chain/forkchoice/attestation.go:91-128 | The data of the vote a prepared store produces is valid exactly if the justified checkpoint is a block and not above the target |
| Production.OwnVoteIsKeptIff | chain/forkchoice/attestation.go:23-73 | The store would keep that vote exactly if, in addition, its signature verifies |
| OwnVotes.VoteForHeadCounts | chain/forkchoice/produce.go:226-237 | A kept vote for the head supports it once accepted, and the head stays |
| OwnVotes.VoteForHeadKeepsHead | chain/forkchoice/ghost.go:36-85 | Casting or moving a vote to the head leaves the election's result as it is |
| RunExamples.EmptySlotRejects | chain/forkchoice/produce.go:211-263 | A run of one import after which the store rejects every vote it produces, a justified empty slot being the source |
| RunExamples.LookbackRejects | chain/forkchoice/produce.go:32-62 | A run after which the lookback leaves the target below the justified checkpoint and the store rejects its own vote |
| HeadElection.StepElects | chain/forkchoice/time.go:33-68 | A step that runs an election leaves the elected head, whatever the head was; any other step but a production leaves the head as current as it was |
| HeadElection.ProduceElectsIff | chain/forkchoice/produce.go:72-207 | After a production the head is the elected one exactly if the block was stored before |
| HeadElection.HeadIsElectedIff | chain/forkchoice/time.go:58-68 | At every point of a run the head is the elected block exactly if every produced and newly stored block has been followed by an election |
| RunExamples.SomeHeadIsStale | chain/forkchoice/produce.go:202-204 | A run of one production after which the head is not the elected block |
| HeadElection.ProducedBlockBecomesHead | chain/forkchoice/produce.go:202-204 | A newly stored produced block is the head after the next head update |
| ForkChoice.Store.constructor | chain/forkchoice/store.go:94-120 | Every field of the new store; the invariant holds for a genesis anchor |
| ForkChoice.Store.UpdateSafeTarget | chain/forkchoice/time.go:77-83 | Elects with the rounded-up two thirds over pending votes, changes nothing else, keeps the invariant |
| ForkChoice.Store.AcceptNewAttestations | chain/forkchoice/time.go:58-68 | Every pending vote overrides the known one in any visiting order, none stays pending, the head is elected anew; keeps the invariant |
| ForkChoice.Store.TickInterval | chain/forkchoice/time.go:33-49 | One interval: accepts at 0 only with a proposal, nothing at 1, safe target at 2, accepts at 3; keeps the invariant |
| ForkChoice.Store.AdvanceTime | chain/forkchoice/time.go:15-24 | Runs every interval up to the given time exactly once, signals a proposal only at the last, does nothing before genesis; keeps the invariant |
| ForkChoice.Store.ValidateAttestationData | chain/forkchoice/attestation.go:91-128 | True exactly for stored, matching, ordered and timely data |
| ForkChoice.Store.ProcessAttestation | chain/forkchoice/attestation.go:12-73 | After the clock, stores the vote as pending exactly if its data is valid, it verifies under the head, it is not in the future and it is newer; keeps the invariant |
| ForkChoice.Store.ProcessAggregatedAttestation | chain/forkchoice/aggregation.go:103-156 | One step of the model after the clock, whose effect AggregateEffect states; keeps the invariant |
| ForkChoice.Store.CheckSignatures | chain/forkchoice/block.go:69-102 | No error exactly if the count fits and every body and proposer signature verifies; a wrong count is reported first |
| ForkChoice.Store.ProcessBlock | chain/forkchoice/block.go:41-144 | For each outcome (known, no parent, failed transition, bad signatures, imported) the exact store and error; keeps the invariant |
| ForkChoice.Store.GetProposalHead | chain/forkchoice/produce.go:16-23 | Prepares the store and returns a head whose state is stored |
| ForkChoice.Store.GetVoteTarget | chain/forkchoice/produce.go:32-62 | The target found by the walk, under its own root |
| ForkChoice.Store.ProduceBlock | chain/forkchoice/produce.go:72-207 | Every field of what is returned, signed and stored, and for each failure its cause, a refused signature over the proposer's vote included |
| ForkChoice.ProducedIsStep | chain/forkchoice/produce.go:72-207 | A successful ProduceBlock is a step of a run, so the results about runs apply |
| ForkChoice.Store.ProduceAttestation | chain/forkchoice/produce.go:211-263 | The signed vote for the elected head, the target and the justified source, or the missing target, or the refused signature over that vote; and exactly when the store would keep it |

## Left out

- Networking, peer sync, discovery, the node's event loop, key loading, YAML configuration, metrics and logs.
- XMSS signatures and SSZ encodings: parameters of the model, as described under Assumptions.
- VerifyAggregatedAttestation and the getters of the store: they would only add easy members.
- ValidatorDuties: scheduling around the store operations modelled here.
- Anchors other than genesis: `NewStore` is modelled for any anchor, the results about runs are for genesis.
- Liveness and accountability across forks: tallies ignore the source of a vote, so the code does not decide them.
- Slot order of one validator's known votes: accepting pending votes overwrites known ones without comparing slots.
- 64-bit overflow of slots, times and vote counts, except in the slot rule.
- Bitlist.AppendBit: a buffer that the code cuts to its first byte shares that byte with the result; here the byte is written in both, and later writes are not shared.
- StateObjects.StateObject.Copy: checkpoints and validators are values here; no code writes through the pointers to them.
