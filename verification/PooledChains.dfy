/** Accepted chains that justify an empty slot with one of three validators behind it. */
module PooledChains {
  import opened Types
  import opened Slots
  import opened Voting
  import opened Finality
  import opened Transition
  import opened Chain
  import opened Backing
  import opened VoteOrder
  import opened Pooling

  // ----- Votes pooled inside one block -----

  /** One vote for slot 1 and one for slot 2. */
  function SplitVotes(h: seq<Root>): seq<Attestation>
    requires |h| == 5
  {
    [VoteOf(0, h, 0, 1), VoteOf(1, h, 0, 2)]
  }

  /** All empty slots share the zero root, and votes are pooled by root: one vote for slot 1
      and one for slot 2 justify slot 2, though only one of three validators voted for it. */
  lemma EmptySlotsPoolTheirVotes(c: Crypto, genesis: State) returns (s: State)
    requires IsGenesis(genesis) && |genesis.validators| == 3
    ensures PendingShaped(genesis)
    ensures var h := FirstHistory(c, genesis, 5);
            && Run(c, genesis, [NextBlock(c, genesis, 5, SplitVotes(h))]) == Ok(s)
            && s.history == h && IsJustified(s.justifiedSlots, 2)
            && !Supermajority(|TargetAttesters(SplitVotes(h), Checkpoint(h[2], 2), 3)|, 3)
  {
    var h := FirstHistory(c, genesis, 5);
    var s1 := FirstBlock(c, genesis, 5, SplitVotes(h));
    s := ProcessAttestations(s1, SplitVotes(h));
    SplitVotesJustify(s1, h);
    OneForSlotTwo(h);
  }

  lemma SplitVotesJustify(s: State, h: seq<Root>)
    requires StartsAt(s, h, 3) && |h| == 5 && h[1] == h[2]
    ensures PendingShaped(s)
    ensures var s' := ProcessAttestations(s, SplitVotes(h)); s'.history == h && IsJustified(s'.justifiedSlots, 2)
  {
    PooledVotes(ContextOf(s), TallyOf(s));
  }

  lemma OneForSlotTwo(h: seq<Root>)
    requires |h| == 5
    ensures TargetAttesters(SplitVotes(h), Checkpoint(h[2], 2), 3) == {1}
  {
    var body := SplitVotes(h);
    assert body[1] in body;
  }

  lemma PooledVotes(ctx: Context, t: Tally)
    requires ctx.numValidators == 3 && |ctx.history| == 5 && ctx.history[1] == ctx.history[2] && ctx.finalizedSlot == 0
    requires t.pending == map[] && t.justifiedSlots == [true] + NoVotes(4)
    ensures Shaped(ctx, t)
    ensures IsJustified(CastVotes(ctx, t, SplitVotes(ctx.history)).justifiedSlots, 2)
  {
    var a, b := VoteOf(0, ctx.history, 0, 1), VoteOf(1, ctx.history, 0, 2);
    NoRecord(ctx, t, 1);
    CastNew(ctx, t, a);
    CastNew(ctx, CastVote(ctx, t, a), b);
    CastTwo(ctx, t, a, b);
  }

  // ----- A vote carried over from an earlier block -----

  /** Three validators, and nothing but slot 0 justified or pending. */
  ghost predicate Quiet(s: State) {
    Calm(s) && |s.validators| == 3 && forall i: nat :: IsJustified(s.justifiedSlots, i) ==> i == 0
  }

  /** Where the votes of the block at slot 4 are cast: slot 1 is empty, slots 2 and 3 are not. */
  ghost predicate AtSlotFour(ctx: Context, t: Tally) {
    && ctx.numValidators == 3 && |ctx.history| == 4 && ctx.finalizedSlot == 0
    && ctx.history[1] == ZERO_HASH && ctx.history[2] != ZERO_HASH && ctx.history[3] != ZERO_HASH
    && Shaped(ctx, t) && IsJustified(t.justifiedSlots, 0)
  }

  ghost predicate NothingYet(t: Tally) {
    t.pending == map[] && forall i: nat :: IsJustified(t.justifiedSlots, i) ==> i == 0
  }

  /** Two votes for a root with none recorded justify its slot and leave no record of it. */
  lemma PairJustifies(ctx: Context, t: Tally, source: nat, target: nat) returns (t': Tally)
    requires AtSlotFour(ctx, t) && source < target < 4 && ctx.history[target] !in t.pending
    requires IsJustified(t.justifiedSlots, source) && !IsJustified(t.justifiedSlots, target)
    ensures t' == CastVote(ctx, CastVote(ctx, t, VoteOf(0, ctx.history, source, target)),
                           VoteOf(1, ctx.history, source, target))
    ensures AtSlotFour(ctx, t') && t'.pending == t.pending
    ensures t'.justifiedSlots == MarkJustified(t.justifiedSlots, target)
    ensures t'.finalized.slot == if source + 1 == target then source else t.finalized.slot
  {
    var a, b := VoteOf(0, ctx.history, source, target), VoteOf(1, ctx.history, source, target);
    NoRecord(ctx, t, target);
    CastNew(ctx, t, a);
    CrossingJustifies(ctx, t, a);
    var t1 := CastVote(ctx, t, a);
    CastNew(ctx, t1, b);
    CrossingJustifies(ctx, t1, b);
    t' := CastVote(ctx, t1, b);
    if source + 1 < target {
      assert IsJustifiableAfter(source + 1, 0);
    }
  }

  /** Validator 0 votes for the empty slot 1; then two validators justify slots 2 and 3. */
  function VotesAtSlotFour(h: seq<Root>): seq<Attestation>
    requires |h| == 4
  {
    [VoteOf(0, h, 0, 1), VoteOf(0, h, 0, 2), VoteOf(1, h, 0, 2), VoteOf(0, h, 2, 3), VoteOf(1, h, 2, 3)]
  }

  lemma CastFive(ctx: Context, t: Tally, a: seq<Attestation>)
    requires Shaped(ctx, t) && |a| == 5
    ensures CastVotes(ctx, t, a)
         == CastVote(ctx, CastVote(ctx, CastVote(ctx, CastVote(ctx, CastVote(ctx, t, a[0]), a[1]), a[2]), a[3]), a[4])
  {
    CastTwo(ctx, t, a[0], a[1]);
    CastMore(ctx, t, [a[0], a[1]], a[2]);
    CastMore(ctx, t, [a[0], a[1]] + [a[2]], a[3]);
    CastMore(ctx, t, [a[0], a[1]] + [a[2]] + [a[3]], a[4]);
    assert a == [a[0], a[1]] + [a[2]] + [a[3]] + [a[4]];
  }

  /** Slot 3 is justified, slot 2 finalized, and validator 0 stays recorded under the zero root. */
  lemma LeavesARecord(ctx: Context, t: Tally)
    requires AtSlotFour(ctx, t) && NothingYet(t)
    ensures var r := CastVotes(ctx, t, VotesAtSlotFour(ctx.history));
            && r.finalized.slot == 2 && IsJustified(r.justifiedSlots, 3)
            && Recorded(ctx, r, 1) == {0}
  {
    var h := ctx.history;
    var a := VoteOf(0, h, 0, 1);
    NoRecord(ctx, t, 1);
    CastNew(ctx, t, a);
    CrossingJustifies(ctx, t, a);
    var t1 := CastVote(ctx, t, a);
    var t2 := PairJustifies(ctx, t1, 0, 2);
    var t3 := PairJustifies(ctx, t2, 2, 3);
    CastFive(ctx, t, VotesAtSlotFour(h));
  }

  /** A state after which one vote is enough to justify the empty slot 5. */
  ghost predicate Primed(s: State) {
    && PostBlock(s) && s.slot == 4 && |s.validators| == 3 && s.finalized.slot == 2 && IsJustified(s.justifiedSlots, 3)
    && Voters(VotesFor(ContextOf(s), TallyOf(s), ZERO_HASH)) == {0}
  }

  /** The block at slot 4 on such a state. */
  function FourthBlock(c: Crypto, s: State): Block
    requires PendingShaped(s) && |s.validators| == 3 && s.header.slot == |s.history| == 3
  {
    NextBlock(c, s, 4, VotesAtSlotFour(s.history + [c.headerRoot(ProcessSlot(c, s).header)]))
  }

  ghost predicate ThreeSlots(s: State) {
    Quiet(s) && s.slot == |s.history| == 3 && s.history[1] == ZERO_HASH && s.history[2] != ZERO_HASH
  }

  lemma BlockAtSlotFour(c: Crypto, s: State) returns (s': State)
    requires ThreeSlots(s)
    ensures StateTransition(c, s, FourthBlock(c, s)) == Ok(s') && Primed(s')
  {
    GoodSlots(s);
    var b := FourthBlock(c, s);
    var s1 := AfterHeader(c, s, b);
    s' := ProcessAttestations(s1, b.body);
    NextBlockTransitions(c, s, 4, b.body);
    TransitionIffRelation(c, s, b, s');
    TransitionKeepsGood(c, s, b, s');
    HeaderAtSlotFour(c, s, b);
    VotesPrime(s1);
  }

  lemma HeaderAtSlotFour(c: Crypto, s: State, b: Block)
    requires ThreeSlots(s) && s.header.slot == 3 && b.slot == 4
    requires b.parentRoot == c.headerRoot(ProcessSlot(c, s).header)
    ensures var s1 := AfterHeader(c, s, b);
            && AtSlotFour(ContextOf(s1), TallyOf(s1)) && s1.history == s.history + [b.parentRoot]
            && NothingYet(TallyOf(s1))
  {
    CalmHeader(c, s, b);
    assert HistoryAt(c, s, 4) == s.history + [b.parentRoot];
  }

  lemma VotesPrime(s: State)
    requires PendingShaped(s) && AtSlotFour(ContextOf(s), TallyOf(s)) && NothingYet(TallyOf(s))
    ensures var s' := ProcessAttestations(s, VotesAtSlotFour(s.history));
            && s'.finalized.slot == 2 && IsJustified(s'.justifiedSlots, 3)
            && Voters(VotesFor(ContextOf(s'), TallyOf(s'), ZERO_HASH)) == {0}
  {
    LeavesARecord(ContextOf(s), TallyOf(s));
    TallySurvivesStorage(s, CastVotes(ContextOf(s), TallyOf(s), VotesAtSlotFour(s.history)));
  }

  /** Where the votes of the block at slot 6 are cast: slot 5 is empty, slot 4 is not. */
  ghost predicate AtSlotSix(ctx: Context, t: Tally) {
    && ctx.numValidators == 3 && ctx.finalizedSlot == 2 && |ctx.history| == 6
    && ctx.history[4] != ZERO_HASH && ctx.history[5] == ZERO_HASH && Shaped(ctx, t)
    && IsJustified(t.justifiedSlots, 2) && IsJustified(t.justifiedSlots, 3) && !IsJustified(t.justifiedSlots, 5)
    && Recorded(ctx, t, 5) == {0}
  }

  lemma PrimedHeader(c: Crypto, p: State, b: Block)
    requires Primed(p) && b.slot == 6 && b.parentRoot != ZERO_HASH
    ensures var s := AfterHeader(c, p, b); PendingShaped(s) && AtSlotSix(ContextOf(s), TallyOf(s))
  {
    var s := AfterHeader(c, p, b);
    assert NamesJustifiedSlot(ContextOf(p), TallyOf(p), p.finalized);
    assert TallyOf(s).pending == TallyOf(p).pending;
    assert s.history == p.history + [b.parentRoot, ZERO_HASH];
    assert s.justifiedSlots == p.justifiedSlots + [false, false];
  }

  /** The vote 3 -> 5 of validator 1 alone justifies slot 5, though no open slot shares its root. */
  lemma OneVoteJustifies(ctx: Context, t: Tally, earlier: seq<Attestation>)
    requires AtSlotSix(ctx, t) && Behind(ctx, earlier, 5) == {}
    ensures JustifiesUnbacked(ctx, t, earlier, [VoteOf(1, ctx.history, 3, 5)], 5) && SharesNone(ctx, t, 5)
  {
    var a := VoteOf(1, ctx.history, 3, 5);
    CastNew(ctx, t, a);
    CastFirst(ctx, t, a, []);
    CountFirst(ctx, t, a, []);
    BehindGrows(ctx, earlier, a, 5);
    assert [a] + [] == [a] && earlier + ([a] + []) == earlier + [a];
    NothingSharesItsRoot(ctx, t);
  }

  lemma NothingSharesItsRoot(ctx: Context, t: Tally)
    requires AtSlotSix(ctx, t)
    ensures SharesNone(ctx, t, 5)
  {
    assert forall j: nat | IsOpen(ctx, t, j) :: 2 <= j < 6;
  }

  /** No vote counted before can have been for a slot that was not yet in history. */
  lemma NobodyBehindYet(c: Crypto, genesis: State, blocks: seq<Block>, p: State, ctx: Context, i: nat)
    requires IsGenesis(genesis) && Run(c, genesis, blocks) == Ok(p) && |p.history| <= i < |ctx.history|
    ensures Behind(ctx, CountedOn(c, genesis, blocks), i) == {}
  {
    forall a | a in CountedOn(c, genesis, blocks)
      ensures a.data.target.slot != i
    {
      CountedVotesLead(c, genesis, blocks, p, a);
    }
  }

  lemma PrimedChainPools(c: Crypto, genesis: State, blocks: seq<Block>, p: State)
    requires IsGenesis(genesis) && Run(c, genesis, blocks) == Ok(p) && Primed(p)
    ensures var s := BeforeVotes(c, p, 6);
            && |s.history| == 6 && SharesNone(ContextOf(s), TallyOf(s), 5)
            && ChainJustifiesUnbacked(c, genesis, blocks, p, 6, [VoteOf(1, s.history, 3, 5)], 5)
  {
    var s := BeforeVotes(c, p, 6);
    PrimedHeader(c, p, NextBlock(c, p, 6, []));
    NobodyBehindYet(c, genesis, blocks, p, ContextOf(s), 5);
    OneVoteJustifies(ContextOf(s), TallyOf(s), CountedOn(c, genesis, blocks));
    NextBlockJustifies(c, genesis, blocks, p, 6, [VoteOf(1, s.history, 3, 5)], 5);
  }

  /** Blocks at slots 2 and 3 without votes. */
  lemma TwoEmptyBlocks(c: Crypto, genesis: State) returns (blocks: seq<Block>, s: State)
    requires IsGenesis(genesis) && |genesis.validators| == 3
    ensures Run(c, genesis, blocks) == Ok(s) && ThreeSlots(s)
  {
    var b2, s2 := EmptyBlock(c, genesis, 2);
    var b3;
    b3, s := EmptyBlock(c, s2, 3);
    SlotOneIsEmpty(b2.parentRoot, b3.parentRoot);
    RunMore(c, genesis, [], genesis, b2);
    RunMore(c, genesis, [] + [b2], s2, b3);
    blocks := [] + [b2] + [b3];
  }

  lemma SlotOneIsEmpty(first: Root, second: Root)
    ensures [] + [first] + ZeroRoots(1) + [second] + ZeroRoots(0) == [first, ZERO_HASH, second]
  {}

  lemma PrimedChain(c: Crypto, genesis: State) returns (blocks: seq<Block>, p: State)
    requires IsGenesis(genesis) && |genesis.validators| == 3
    ensures Run(c, genesis, blocks) == Ok(p) && Primed(p)
  {
    var s;
    blocks, s := TwoEmptyBlocks(c, genesis);
    p := BlockAtSlotFour(c, s);
    RunMore(c, genesis, blocks, s, FourthBlock(c, s));
    blocks := blocks + [FourthBlock(c, s)];
  }

  /** A vote for one empty slot, left pending, counts for a later one. On this chain of three
      blocks the next one needs a single vote of three validators to justify slot 5, and no
      open slot shares its root at that moment. */
  lemma CarriedVoteIsPooled(c: Crypto, genesis: State) returns (blocks: seq<Block>, p: State)
    requires IsGenesis(genesis) && |genesis.validators| == 3
    ensures Run(c, genesis, blocks) == Ok(p) && Primed(p)
    ensures var s := BeforeVotes(c, p, 6);
            && |s.history| == 6 && SharesNone(ContextOf(s), TallyOf(s), 5)
            && ChainJustifiesUnbacked(c, genesis, blocks, p, 6, [VoteOf(1, s.history, 3, 5)], 5)
  {
    blocks, p := PrimedChain(c, genesis);
    PrimedChainPools(c, genesis, blocks, p);
  }
}
