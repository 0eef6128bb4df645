/** How single votes move the two checkpoints. Finality is monotone from block to block; the
    latest justified slot is not, and inside one block neither is. */
module VoteOrder {
  import opened Types
  import opened Slots
  import opened Voting
  import opened Finality
  import opened Transition
  import opened Chain

  // ----- Exactly when a checkpoint goes back -----

  /** The vote is counted and completes two thirds for its target. */
  predicate Crosses(ctx: Context, t: Tally, a: Attestation) {
    && Admissible(ctx, t, a)
    && a.validatorId !in Voters(VotesFor(ctx, t, a.data.target.root))
    && Supermajority(|Voters(VotesFor(ctx, t, a.data.target.root))| + 1, ctx.numValidators)
  }

  lemma CrossingJustifies(ctx: Context, t: Tally, a: Attestation)
    requires Shaped(ctx, t)
    ensures var r := CastVote(ctx, t, a);
            && r.justified == (if Crosses(ctx, t, a) then a.data.target else t.justified)
            && var gap := HasJustifiableGap(a.data.source.slot, a.data.target.slot, ctx.finalizedSlot);
               r.finalized == if Crosses(ctx, t, a) && !gap then a.data.source else t.finalized
  {
    if Admissible(ctx, t, a) {
      var votes := VotesFor(ctx, t, a.data.target.root);
      CountIsVoters(votes[a.validatorId := true]);
      VoteAddsVoter(votes, a.validatorId);
    }
  }

  /** One vote takes the finalized slot back exactly if it completes two thirds, its source is
      below, and nothing justifiable lies between its source and its target. */
  lemma VoteLowersFinalizedIff(ctx: Context, t: Tally, a: Attestation)
    requires Shaped(ctx, t)
    ensures CastVote(ctx, t, a).finalized.slot < t.finalized.slot
       <==> && Crosses(ctx, t, a)
            && a.data.source.slot < t.finalized.slot
            && !HasJustifiableGap(a.data.source.slot, a.data.target.slot, ctx.finalizedSlot)
  {
    CrossingJustifies(ctx, t, a);
  }

  /** One vote takes the latest justified slot back exactly if it completes two thirds for a
      target below. */
  lemma VoteLowersJustifiedIff(ctx: Context, t: Tally, a: Attestation)
    requires Shaped(ctx, t)
    ensures CastVote(ctx, t, a).justified.slot < t.justified.slot
       <==> Crosses(ctx, t, a) && a.data.target.slot < t.justified.slot
  {
    CrossingJustifies(ctx, t, a);
  }

  /** The i-th vote completes two thirds when its turn comes. */
  predicate CrossesAt(ctx: Context, t: Tally, atts: seq<Attestation>, i: nat)
    requires Shaped(ctx, t) && i < |atts|
  {
    Crosses(ctx, CastVotes(ctx, t, atts[..i]), atts[i])
  }

  /** The k-th vote is the last one that completes two thirds. */
  ghost predicate CrossesLast(ctx: Context, t: Tally, atts: seq<Attestation>, k: nat)
    requires Shaped(ctx, t) && k < |atts|
  {
    CrossesAt(ctx, t, atts, k) && forall i | k < i < |atts| :: !CrossesAt(ctx, t, atts, i)
  }

  lemma CrossesAtInit(ctx: Context, t: Tally, atts: seq<Attestation>, i: nat)
    requires Shaped(ctx, t) && i < |atts| - 1
    ensures CrossesAt(ctx, t, atts[..|atts| - 1], i) == CrossesAt(ctx, t, atts, i)
  {
    PrefixOfPrefix(atts, |atts| - 1, i);
  }

  lemma CrossesLastInit(ctx: Context, t: Tally, atts: seq<Attestation>, k: nat)
    requires Shaped(ctx, t) && k < |atts| - 1 && CrossesLast(ctx, t, atts, k)
    ensures CrossesLast(ctx, t, atts[..|atts| - 1], k)
  {
    var init := atts[..|atts| - 1];
    CrossesAtInit(ctx, t, atts, k);
    forall i | k < i < |init|
      ensures !CrossesAt(ctx, t, init, i)
    {
      CrossesAtInit(ctx, t, atts, i);
      assert !CrossesAt(ctx, t, atts, i);
    }
  }

  /** The last vote to complete two thirds names the justified checkpoint. */
  lemma {:induction false} LastCrossingJustifies(ctx: Context, t: Tally, atts: seq<Attestation>, k: nat)
    requires Shaped(ctx, t) && k < |atts| && CrossesLast(ctx, t, atts, k)
    ensures CastVotes(ctx, t, atts).justified == atts[k].data.target
    decreases |atts|
  {
    var n := |atts| - 1;
    CrossingJustifies(ctx, CastVotes(ctx, t, atts[..n]), atts[n]);
    if k < n {
      assert !CrossesAt(ctx, t, atts, n);
      CrossesLastInit(ctx, t, atts, k);
      LastCrossingJustifies(ctx, t, atts[..n], k);
    }
  }

  lemma {:induction false} NoCrossingKeepsJustified(ctx: Context, t: Tally, atts: seq<Attestation>)
    requires Shaped(ctx, t) && forall i: nat | i < |atts| :: !CrossesAt(ctx, t, atts, i)
    ensures CastVotes(ctx, t, atts).justified == t.justified
    decreases |atts|
  {
    if atts != [] {
      var n := |atts| - 1;
      CrossingJustifies(ctx, CastVotes(ctx, t, atts[..n]), atts[n]);
      assert !CrossesAt(ctx, t, atts, n);
      forall i: nat | i < n
        ensures !CrossesAt(ctx, t, atts[..n], i)
      {
        CrossesAtInit(ctx, t, atts, i);
        assert !CrossesAt(ctx, t, atts, i);
      }
      NoCrossingKeepsJustified(ctx, t, atts[..n]);
    }
  }

  lemma {:induction false} SomeCrossingIsLast(ctx: Context, t: Tally, atts: seq<Attestation>, i: nat) returns (k: nat)
    requires Shaped(ctx, t) && i < |atts| && CrossesAt(ctx, t, atts, i)
    ensures i <= k < |atts| && CrossesLast(ctx, t, atts, k)
    decreases |atts| - i
  {
    if j: nat :| i < j < |atts| && CrossesAt(ctx, t, atts, j) {
      k := SomeCrossingIsLast(ctx, t, atts, j);
    } else {
      k := i;
    }
  }

  ghost predicate CrossesLastIn(s: State, atts: seq<Attestation>, k: nat)
    requires PendingShaped(s) && k < |atts|
  {
    CrossesLast(ContextOf(s), TallyOf(s), atts, k)
  }

  /** The last vote of a block to complete two thirds names its justified checkpoint. */
  lemma LastCrossingDecides(c: Crypto, s: State, b: Block, s': State)
    requires Transitions(c, s, b, s')
    ensures forall k: nat | k < |b.body| && CrossesLastIn(AfterHeader(c, s, b), b.body, k) ::
              s'.justified == b.body[k].data.target
    ensures (forall k: nat | k < |b.body| :: !CrossesLastIn(AfterHeader(c, s, b), b.body, k)) ==>
              s'.justified.slot == s.justified.slot
  {
    var s1 := AfterHeader(c, s, b);
    var ctx, t := ContextOf(s1), TallyOf(s1);
    forall k: nat | k < |b.body| && CrossesLastIn(s1, b.body, k)
      ensures s'.justified == b.body[k].data.target
    {
      LastCrossingJustifies(ctx, t, b.body, k);
    }
    if i: nat :| i < |b.body| && CrossesAt(ctx, t, b.body, i) {
      var k := SomeCrossingIsLast(ctx, t, b.body, i);
      assert CrossesLastIn(s1, b.body, k);
    } else {
      NoCrossingKeepsJustified(ctx, t, b.body);
    }
  }

  /** From one block of a chain to the next, the latest justified slot goes back exactly if
      the last vote to complete two thirds names a target below it. */
  lemma BlockLowersJustifiedIff(c: Crypto, s: State, b: Block, s': State)
    requires Transitions(c, s, b, s')
    ensures s'.justified.slot < s.justified.slot
       <==> exists k: nat :: && k < |b.body| && CrossesLastIn(AfterHeader(c, s, b), b.body, k)
                             && b.body[k].data.target.slot < s.justified.slot
  {
    LastCrossingDecides(c, s, b, s');
  }

  /** The last vote to complete two thirds has a target above `slot`; or there is none, and the
      latest justified slot was above before. */
  ghost predicate JustifiesAbove(c: Crypto, s: State, b: Block, slot: nat)
    requires PendingShaped(s) && s.header.slot < b.slot
  {
    || (exists k: nat :: && k < |b.body| && CrossesLastIn(AfterHeader(c, s, b), b.body, k)
                         && slot < b.body[k].data.target.slot)
    || ((forall k: nat | k < |b.body| :: !CrossesLastIn(AfterHeader(c, s, b), b.body, k)) && slot < s.justified.slot)
  }

  lemma JustifiesAboveIff(c: Crypto, s: State, b: Block, s': State, slot: nat)
    requires Transitions(c, s, b, s')
    ensures slot < s'.justified.slot <==> JustifiesAbove(c, s, b, slot)
  {
    LastCrossingDecides(c, s, b, s');
  }

  // ----- Examples with one validator -----

  /** A validator's vote for the pair of slots (source, target). */
  function VoteOf(id: nat, history: seq<Root>, source: nat, target: nat): Attestation
    requires source < |history| && target < |history|
  {
    Attestation(id, AttestationData(0, Checkpoint(ZERO_HASH, 0), Checkpoint(history[target], target),
                                    Checkpoint(history[source], source)))
  }

  function LoneVote(history: seq<Root>, source: nat, target: nat): Attestation
    requires source < |history| && target < |history|
  {
    VoteOf(0, history, source, target)
  }

  /** With one validator every admissible vote justifies its target. */
  lemma LoneVoteJustifies(ctx: Context, t: Tally, source: nat, target: nat)
    requires ctx.numValidators == 1 && t.pending == map[] && source < target < |ctx.history|
    requires IsJustified(t.justifiedSlots, source) && !IsJustified(t.justifiedSlots, target)
    requires ctx.finalizedSlot == 0 && target <= 5
    ensures Shaped(ctx, t)
    ensures var r := CastVote(ctx, t, LoneVote(ctx.history, source, target));
            && r.pending == map[]
            && r.justifiedSlots == MarkJustified(t.justifiedSlots, target)
            && r.justified == Checkpoint(ctx.history[target], target)
            && r.finalized == if source + 1 == target then Checkpoint(ctx.history[source], source) else t.finalized
  {
    var a := LoneVote(ctx.history, source, target);
    var votes := VotesFor(ctx, t, a.data.target.root);
    CountIsVoters(votes[0 := true]);
    VoteAddsVoter(votes, 0);
    if source + 1 < target {
      assert IsJustifiableAfter(source + 1, 0);
    }
  }

  /** What the first block writes into history, if it is for this slot. */
  function FirstHistory(c: Crypto, genesis: State, slot: nat): seq<Root>
    requires 0 < slot
  {
    [c.headerRoot(ProcessSlot(c, genesis).header)] + ZeroRoots(slot - 1)
  }

  /** `s` is ready for the votes of a first block at this slot. */
  ghost predicate StartsAt(s: State, history: seq<Root>, numValidators: nat) {
    && 0 < |history| == s.slot && ContextOf(s) == Context(history, 0, numValidators)
    && s.justifiedSlots == [true] + NoVotes(|history| - 1) && s.pendingRoots == [] && s.pendingVotes == []
  }

  lemma FirstHeader(c: Crypto, genesis: State, b: Block)
    requires IsGenesis(genesis) && 0 < b.slot
    ensures StartsAt(AfterHeader(c, genesis, b), [b.parentRoot] + ZeroRoots(b.slot - 1), |genesis.validators|)
  {
    assert [] + [true] + NoVotes(b.slot - 1) == [true] + NoVotes(b.slot - 1);
    assert [] + [b.parentRoot] + ZeroRoots(b.slot - 1) == [b.parentRoot] + ZeroRoots(b.slot - 1);
  }

  /** The state in which the votes of the first block are cast. */
  lemma FirstBlock(c: Crypto, genesis: State, slot: nat, body: seq<Attestation>) returns (s: State)
    requires IsGenesis(genesis) && 0 < |genesis.validators| && 0 < slot
    ensures PendingShaped(genesis) && PendingShaped(s)
    ensures Run(c, genesis, [NextBlock(c, genesis, slot, body)]) == Ok(ProcessAttestations(s, body))
    ensures StartsAt(s, FirstHistory(c, genesis, slot), |genesis.validators|)
  {
    var b := NextBlock(c, genesis, slot, body);
    s := AfterHeader(c, genesis, b);
    FirstHeader(c, genesis, b);
    NextBlockTransitions(c, genesis, slot, body);
    RunMore(c, genesis, [], genesis, b);
    assert [] + [b] == [b];
  }

  /** More votes can finalize less. With the votes 0 -> 3 and 3 -> 4 the first block finalizes
      slot 3 and justifies slot 4; with one more vote 0 -> 1 it is slots 0 and 1. */
  lemma MoreVotesCanFinalizeLess(c: Crypto, genesis: State)
    requires IsGenesis(genesis) && |genesis.validators| == 1
    ensures PendingShaped(genesis)
    ensures var h := FirstHistory(c, genesis, 5);
            var two := [LoneVote(h, 0, 3), LoneVote(h, 3, 4)];
            var three := two + [LoneVote(h, 0, 1)];
            var r2 := Run(c, genesis, [NextBlock(c, genesis, 5, two)]);
            var r3 := Run(c, genesis, [NextBlock(c, genesis, 5, three)]);
            && r2.Ok? && r2.value.finalized.slot == 3 && r2.value.justified.slot == 4
            && r3.Ok? && r3.value.finalized.slot == 0 && r3.value.justified.slot == 1
  {
    var h := FirstHistory(c, genesis, 5);
    var v1, v2, v3 := LoneVote(h, 0, 3), LoneVote(h, 3, 4), LoneVote(h, 0, 1);
    var s2 := FirstBlock(c, genesis, 5, [v1, v2]);
    StartIsFresh(s2, h);
    TwoVotes(ContextOf(s2), TallyOf(s2));
    var s3 := FirstBlock(c, genesis, 5, [v1, v2] + [v3]);
    StartIsFresh(s3, h);
    ThreeVotes(ContextOf(s3), TallyOf(s3));
  }

  /** Where the votes of a first block at slot 5 start. */
  ghost predicate Fresh(ctx: Context, t: Tally) {
    && ctx.numValidators == 1 && |ctx.history| == 5 && ctx.finalizedSlot == 0
    && t.pending == map[] && t.justifiedSlots == [true] + NoVotes(4) && t.finalized.slot == 0
  }

  lemma StartIsFresh(s: State, history: seq<Root>)
    requires StartsAt(s, history, 1) && |history| == 5
    ensures PendingShaped(s) && Fresh(ContextOf(s), TallyOf(s)) && ContextOf(s).history == history
  {}

  lemma TwoVotes(ctx: Context, t: Tally)
    requires Fresh(ctx, t)
    ensures Shaped(ctx, t)
    ensures var r := CastVotes(ctx, t, [LoneVote(ctx.history, 0, 3), LoneVote(ctx.history, 3, 4)]);
            && r.pending == map[] && r.finalized.slot == 3 && r.justified.slot == 4
            && IsJustified(r.justifiedSlots, 0) && !IsJustified(r.justifiedSlots, 1)
  {
    var v1, v2 := LoneVote(ctx.history, 0, 3), LoneVote(ctx.history, 3, 4);
    LoneVoteJustifies(ctx, t, 0, 3);
    LoneVoteJustifies(ctx, CastVote(ctx, t, v1), 3, 4);
    CastTwo(ctx, t, v1, v2);
  }

  lemma ThreeVotes(ctx: Context, t: Tally)
    requires Fresh(ctx, t)
    ensures Shaped(ctx, t)
    ensures var two := [LoneVote(ctx.history, 0, 3), LoneVote(ctx.history, 3, 4)];
            var r := CastVotes(ctx, t, two + [LoneVote(ctx.history, 0, 1)]);
            r.finalized.slot == 0 && r.justified.slot == 1
  {
    TwoVotes(ctx, t);
    var two := [LoneVote(ctx.history, 0, 3), LoneVote(ctx.history, 3, 4)];
    LoneVoteJustifies(ctx, CastVotes(ctx, t, two), 0, 1);
    CastMore(ctx, t, two, LoneVote(ctx.history, 0, 1));
  }

  lemma CastMore(ctx: Context, t: Tally, atts: seq<Attestation>, a: Attestation)
    requires Shaped(ctx, t)
    ensures CastVotes(ctx, t, atts + [a]) == CastVote(ctx, CastVotes(ctx, t, atts), a)
  {
    assert (atts + [a])[..|atts|] == atts;
  }

  lemma CastTwo(ctx: Context, t: Tally, a: Attestation, b: Attestation)
    requires Shaped(ctx, t)
    ensures CastVotes(ctx, t, [a]) == CastVote(ctx, t, a)
    ensures CastVotes(ctx, t, [a, b]) == CastVote(ctx, CastVote(ctx, t, a), b)
  {
    CastMore(ctx, t, [], a);
    CastMore(ctx, t, [a], b);
    assert [] + [a] == [a] && [a] + [b] == [a, b];
  }

  /** Unlike the finalized slot, the latest justified slot can go back along a chain: a block
      at slot 5 with the vote 0 -> 3 justifies slot 3, the next block with the vote 0 -> 1
      makes slot 1 the latest justified. */
  lemma JustifiedCanGoBack(c: Crypto, genesis: State) returns (b1: Block, s1: State, b2: Block, s2: State)
    requires IsGenesis(genesis) && |genesis.validators| == 1
    ensures PendingShaped(genesis)
    ensures Run(c, genesis, [b1]) == Ok(s1) && s1.justified.slot == 3
    ensures Run(c, genesis, [b1, b2]) == Ok(s2) && s2.justified.slot == 1
  {
    b1, s1 := LoneBlock(c, genesis, 5, 3);
    b2, s2 := LoneBlock(c, s1, 6, 1);
    RunTwo(c, genesis, b1, s1, b2);
  }

  lemma RunTwo(c: Crypto, genesis: State, b1: Block, s1: State, b2: Block)
    requires PendingShaped(genesis) && StateTransition(c, genesis, b1) == Ok(s1)
    ensures Run(c, genesis, [b1]) == Ok(s1) && Run(c, genesis, [b1, b2]) == StateTransition(c, s1, b2)
  {
    RunMore(c, genesis, [], genesis, b1);
    RunMore(c, genesis, [b1], s1, b2);
    assert [] + [b1] == [b1] && [b1] + [b2] == [b1, b2];
  }

  /** No vote is pending and slot 0 is the finalized one. */
  ghost predicate Calm(s: State) { Good(s) && s.finalized.slot == 0 && PendingShaped(s) && TallyOf(s).pending == map[] }

  /** History once the header of the next block has been accepted. */
  function HistoryAt(c: Crypto, s: State, slot: nat): seq<Root>
    requires s.header.slot < slot
  {
    s.history + [c.headerRoot(ProcessSlot(c, s).header)] + ZeroRoots(slot - s.header.slot - 1)
  }

  lemma CalmHeader(c: Crypto, s: State, b: Block)
    requires Calm(s) && s.header.slot < b.slot && 0 < |s.validators|
    requires b.parentRoot == c.headerRoot(ProcessSlot(c, s).header)
    ensures var s1 := AfterHeader(c, s, b);
            && ReadyForVotes(s1) && s1.finalized.slot == 0 && TallyOf(s1).pending == map[]
            && s1.history == HistoryAt(c, s, b.slot)
            && forall i: nat :: IsJustified(s1.justifiedSlots, i) <==> i == 0 || IsJustified(s.justifiedSlots, i)
  {
    var s1 := AfterHeader(c, s, b);
    HeaderSettles(c, s, b);
    assert TallyOf(s1).pending == TallyOf(s).pending;
    forall i: nat
      ensures IsJustified(s1.justifiedSlots, i) <==> i == 0 || IsJustified(s.justifiedSlots, i)
    {
      assert i < |s.justifiedSlots| ==> s1.justifiedSlots[i] == s.justifiedSlots[i];
      assert i == |s.justifiedSlots| && IsJustified(s1.justifiedSlots, i) ==> i == 0;
    }
  }

  /** What a block of the only validator leaves behind. */
  ghost predicate LeftBy(c: Crypto, s: State, b: Block, s': State) {
    && PendingShaped(s) && Transitions(c, s, b, s') && Calm(s') && PostBlock(s')
    && s'.history == HistoryAt(c, s, b.slot)
  }

  /** A block without votes. */
  lemma EmptyBlock(c: Crypto, s: State, slot: nat) returns (b: Block, s': State)
    requires Calm(s) && s.slot < slot && 0 < |s.validators|
    ensures s.header.slot < slot && b == NextBlock(c, s, slot, []) && LeftBy(c, s, b, s')
    ensures StateTransition(c, s, b) == Ok(s') && s'.justified.slot == s.justified.slot
    ensures IsGenesis(s) ==> s'.justified == Checkpoint(b.parentRoot, 0)
    ensures forall i: nat :: IsJustified(s'.justifiedSlots, i) <==> i == 0 || IsJustified(s.justifiedSlots, i)
  {
    GoodSlots(s);
    b := NextBlock(c, s, slot, []);
    var s1 := AfterHeader(c, s, b);
    s' := ProcessAttestations(s1, []);
    CalmHeader(c, s, b);
    NextBlockTransitions(c, s, slot, []);
    TransitionIffRelation(c, s, b, s');
    TransitionKeepsGood(c, s, b, s');
    TallySurvivesStorage(s1, TallyOf(s1));
  }

  /** With one validator, a block with its vote for (0, target). */
  lemma LoneBlock(c: Crypto, s: State, slot: nat, target: nat) returns (b: Block, s': State)
    requires Calm(s) && s.slot < slot && |s.validators| == 1
    requires 0 < target < slot && target <= 5 && !IsJustified(s.justifiedSlots, target)
    ensures s.header.slot < slot && target < |HistoryAt(c, s, slot)|
    ensures b == NextBlock(c, s, slot, [LoneVote(HistoryAt(c, s, slot), 0, target)]) && LeftBy(c, s, b, s')
    ensures StateTransition(c, s, b) == Ok(s') && s'.justified == Checkpoint(s'.history[target], target)
    ensures forall i: nat :: IsJustified(s'.justifiedSlots, i) <==> i in {0, target} || IsJustified(s.justifiedSlots, i)
  {
    GoodSlots(s);
    var v := LoneVote(HistoryAt(c, s, slot), 0, target);
    b := NextBlock(c, s, slot, [v]);
    var s1 := AfterHeader(c, s, b);
    s' := ProcessAttestations(s1, [v]);
    CalmHeader(c, s, b);
    LoneTally(s1, target);
    NextBlockTransitions(c, s, slot, [v]);
    TransitionIffRelation(c, s, b, s');
    TransitionKeepsGood(c, s, b, s');
  }

  lemma LoneTally(s: State, target: nat)
    requires ReadyForVotes(s) && |s.validators| == 1 && s.finalized.slot == 0 && TallyOf(s).pending == map[]
    requires 0 < target < |s.history| && target <= 5 && !IsJustified(s.justifiedSlots, target)
    ensures var s' := ProcessAttestations(s, [LoneVote(s.history, 0, target)]);
            && TallyOf(s').pending == map[] && s'.finalized.slot == 0
            && s'.justified == Checkpoint(s.history[target], target)
            && s'.justifiedSlots == MarkJustified(s.justifiedSlots, target)
  {
    var ctx, t, v := ContextOf(s), TallyOf(s), LoneVote(s.history, 0, target);
    LoneVoteJustifies(ctx, t, 0, target);
    CastTwo(ctx, t, v, v);
    TallySurvivesStorage(s, CastVotes(ctx, t, [v]));
  }
}
