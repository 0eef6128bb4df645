/** Which votes stand behind a justified slot. */
module Backing {
  import opened Types
  import opened Sets
  import opened Voting
  import opened Finality
  import opened Transition
  import opened Chain

  // ----- One block -----

  /** The votes that passed every check when they were cast. */
  function Counted(ctx: Context, t: Tally, atts: seq<Attestation>): seq<Attestation>
    requires Shaped(ctx, t)
  {
    if atts == [] then []
    else
      var init, a := atts[..|atts| - 1], atts[|atts| - 1];
      Counted(ctx, t, init) + if Admissible(ctx, CastVotes(ctx, t, init), a) then [a] else []
  }

  /** The validators, among the first n, that attested to `root` as target in `atts`. */
  function Attesters(atts: seq<Attestation>, root: Root, n: nat): set<nat> {
    set a | a in atts && a.data.target.root == root && a.validatorId < n :: a.validatorId
  }

  lemma AttestersGrow(atts: seq<Attestation>, more: seq<Attestation>, root: Root, n: nat)
    requires forall a | a in atts :: a in more
    ensures Attesters(atts, root, n) <= Attesters(more, root, n)
    ensures |Attesters(atts, root, n)| <= |Attesters(more, root, n)|
  {
    SubsetSize(Attesters(atts, root, n), Attesters(more, root, n));
  }

  ghost predicate SlotBacked(ctx: Context, atts: seq<Attestation>, slot: nat)
    requires slot < |ctx.history|
  {
    Supermajority(|Attesters(atts, ctx.history[slot], ctx.numValidators)|, ctx.numValidators)
  }

  ghost predicate Backed(ctx: Context, t: Tally, atts: seq<Attestation>) {
    && (forall r | r in t.pending :: Voters(t.pending[r]) <= Attesters(atts, r, ctx.numValidators))
    && (forall i: nat :: 0 < i < |ctx.history| && IsJustified(t.justifiedSlots, i) ==> SlotBacked(ctx, atts, i))
  }

  lemma BackedGrows(ctx: Context, t: Tally, atts: seq<Attestation>, more: seq<Attestation>)
    requires Backed(ctx, t, atts) && forall a | a in atts :: a in more
    ensures Backed(ctx, t, more)
  {
    forall r | r in t.pending
      ensures Voters(t.pending[r]) <= Attesters(more, r, ctx.numValidators)
    {
      AttestersGrow(atts, more, r, ctx.numValidators);
    }
    forall i: nat | 0 < i < |ctx.history| && IsJustified(t.justifiedSlots, i)
      ensures SlotBacked(ctx, more, i)
    {
      AttestersGrow(atts, more, ctx.history[i], ctx.numValidators);
    }
  }

  lemma CastVoteBacked(ctx: Context, t: Tally, atts: seq<Attestation>, a: Attestation)
    requires Shaped(ctx, t) && Backed(ctx, t, atts) && Admissible(ctx, t, a)
    ensures Backed(ctx, CastVote(ctx, t, a), atts + [a])
  {
    var all := atts + [a];
    BackedGrows(ctx, t, atts, all);
    var root := a.data.target.root;
    var votes := VotesFor(ctx, t, root);
    if !votes[a.validatorId] {
      var votes' := votes[a.validatorId := true];
      VoteAddsVoter(votes, a.validatorId);
      assert a in all;
      assert Voters(votes') <= Attesters(all, root, ctx.numValidators);
      CountIsVoters(votes');
      SubsetSize(Voters(votes'), Attesters(all, root, ctx.numValidators));
    }
  }

  lemma {:induction false} CastVotesBacked(ctx: Context, t: Tally, earlier: seq<Attestation>, atts: seq<Attestation>)
    requires Shaped(ctx, t) && Backed(ctx, t, earlier)
    ensures Backed(ctx, CastVotes(ctx, t, atts), earlier + Counted(ctx, t, atts))
  {
    if atts == [] {
      assert earlier + Counted(ctx, t, atts) == earlier;
    } else {
      var init, a := atts[..|atts| - 1], atts[|atts| - 1];
      CastVotesBacked(ctx, t, earlier, init);
      var t', counted := CastVotes(ctx, t, init), Counted(ctx, t, init);
      if Admissible(ctx, t', a) {
        CastVoteBacked(ctx, t', earlier + counted, a);
        assert earlier + counted + [a] == earlier + (counted + [a]);
      } else {
        assert Counted(ctx, t, atts) == counted;
      }
    }
  }

  /** The vote leads from a justified slot of this history to a later slot of it. */
  ghost predicate Leads(history: seq<Root>, slots: seq<bool>, a: Attestation) {
    && a.data.source.slot < a.data.target.slot
    && InHistory(history, a.data.source) && InHistory(history, a.data.target)
    && IsJustified(slots, a.data.source.slot)
  }

  lemma {:induction false} CountedLead(ctx: Context, t: Tally, atts: seq<Attestation>)
    requires Shaped(ctx, t) && Settled(ctx, t)
    ensures forall a | a in Counted(ctx, t, atts) :: Leads(ctx.history, CastVotes(ctx, t, atts).justifiedSlots, a)
  {
    if atts != [] {
      var init, last := atts[..|atts| - 1], atts[|atts| - 1];
      CountedLead(ctx, t, init);
      CastVotesSettled(ctx, t, init);
      CastVoteSettled(ctx, CastVotes(ctx, t, init), last);
    }
  }

  // ----- Whole chains -----

  /** All votes of a chain that passed every check when they were cast. */
  ghost function CountedOn(c: Crypto, genesis: State, blocks: seq<Block>): seq<Attestation>
    requires PendingShaped(genesis) && Run(c, genesis, blocks).Ok?
  {
    if blocks == [] then []
    else
      var init, b := blocks[..|blocks| - 1], blocks[|blocks| - 1];
      var p := Run(c, genesis, init).value;
      TransitionIffRelation(c, p, b, Run(c, genesis, blocks).value);
      CountedOn(c, genesis, init) + CountedIn(AfterHeader(c, p, b), b.body)
  }

  ghost function CountedIn(s: State, atts: seq<Attestation>): seq<Attestation>
    requires PendingShaped(s)
  {
    Counted(ContextOf(s), TallyOf(s), atts)
  }

  lemma HeaderKeepsBacking(c: Crypto, s: State, b: Block, atts: seq<Attestation>)
    requires Good(s) && s.header.slot < b.slot
    requires Backed(ContextOf(s), TallyOf(s), atts)
    ensures var s1 := AfterHeader(c, s, b); Backed(ContextOf(s1), TallyOf(s1), atts)
  {
    var s1 := AfterHeader(c, s, b);
    assert TallyOf(s1).pending == TallyOf(s).pending;
    forall i: nat | 0 < i < |s1.history| && IsJustified(s1.justifiedSlots, i)
      ensures SlotBacked(ContextOf(s1), atts, i)
    {
      assert i < |s.history| && s1.history[i] == s.history[i];
      assert SlotBacked(ContextOf(s), atts, i);
    }
  }

  lemma VotesKeepBacking(s: State, earlier: seq<Attestation>, atts: seq<Attestation>)
    requires PendingShaped(s) && Backed(ContextOf(s), TallyOf(s), earlier)
    ensures var s' := ProcessAttestations(s, atts); Backed(ContextOf(s'), TallyOf(s'), earlier + CountedIn(s, atts))
  {
    var ctx, t := ContextOf(s), CastVotes(ContextOf(s), TallyOf(s), atts);
    CastVotesBacked(ctx, TallyOf(s), earlier, atts);
    TallySurvivesStorage(s, t);
    var all := earlier + CountedIn(s, atts);
    var ctx' := ContextOf(ProcessAttestations(s, atts));
    forall i: nat | 0 < i < |ctx'.history| && IsJustified(t.justifiedSlots, i)
      ensures SlotBacked(ctx', all, i)
    {
      assert SlotBacked(ctx, all, i);
    }
  }

  /** Every pending vote was counted on this chain, and every justified slot except slot 0 has
      counted votes of at least two thirds of the validators for the root at that slot. */
  lemma {:induction false} JustifiedSlotsAreBacked(c: Crypto, genesis: State, blocks: seq<Block>, s: State)
    requires IsGenesis(genesis) && Run(c, genesis, blocks) == Ok(s)
    ensures Backed(ContextOf(s), TallyOf(s), CountedOn(c, genesis, blocks))
    decreases |blocks|
  {
    if blocks != [] {
      var n := |blocks| - 1;
      var init, b := blocks[..n], blocks[n];
      var p := RunLast(c, genesis, blocks, s);
      JustifiedSlotsAreBacked(c, genesis, init, p);
      ChainStatesAreGood(c, genesis, init, p);
      HeaderKeepsBacking(c, p, b, CountedOn(c, genesis, init));
      VotesKeepBacking(AfterHeader(c, p, b), CountedOn(c, genesis, init), b.body);
    }
  }

  /** A vote that led through the history of a state still does after the next block. */
  lemma LeadsOn(c: Crypto, p: State, b: Block, s: State, a: Attestation)
    requires Good(p) && Transitions(c, p, b, s) && Leads(p.history, p.justifiedSlots, a)
    ensures Leads(s.history, s.justifiedSlots, a)
  {
    TransitionKeepsGood(c, p, b, s);
  }

  lemma CountedInLead(c: Crypto, p: State, b: Block, s: State, a: Attestation)
    requires Good(p) && Transitions(c, p, b, s) && a in CountedIn(AfterHeader(c, p, b), b.body)
    ensures Leads(s.history, s.justifiedSlots, a)
  {
    var s1 := AfterHeader(c, p, b);
    HeaderSettles(c, p, b);
    CountedLead(ContextOf(s1), TallyOf(s1), b.body);
  }

  /** Every counted vote leads from a justified slot of the final history to a later slot of it. */
  lemma {:induction false} CountedVotesLead(c: Crypto, genesis: State, blocks: seq<Block>, s: State, a: Attestation)
    requires IsGenesis(genesis) && Run(c, genesis, blocks) == Ok(s) && a in CountedOn(c, genesis, blocks)
    ensures Leads(s.history, s.justifiedSlots, a)
    decreases |blocks|
  {
    var n := |blocks| - 1;
    var init, b := blocks[..n], blocks[n];
    var p := RunLast(c, genesis, blocks, s);
    ChainStatesAreGood(c, genesis, init, p);
    CountedOnLast(c, genesis, blocks, p, s, a);
    if a in CountedOn(c, genesis, init) {
      CountedVotesLead(c, genesis, init, p, a);
      LeadsOn(c, p, b, s, a);
    } else {
      CountedInLead(c, p, b, s, a);
    }
  }

  lemma CountedOnLast(c: Crypto, genesis: State, blocks: seq<Block>, p: State, s: State, a: Attestation)
    requires PendingShaped(genesis) && Run(c, genesis, blocks) == Ok(s) && a in CountedOn(c, genesis, blocks)
    requires blocks != []
             ==> Run(c, genesis, blocks[..|blocks| - 1]) == Ok(p) && Transitions(c, p, blocks[|blocks| - 1], s)
    ensures blocks != []
    ensures || a in CountedOn(c, genesis, blocks[..|blocks| - 1])
            || a in CountedIn(AfterHeader(c, p, blocks[|blocks| - 1]), blocks[|blocks| - 1].body)
  {}

  /** Two justified slots of one chain, other than slot 0, share a third of the validators. */
  lemma JustifiedSlotsShareAThird(c: Crypto, genesis: State, blocks: seq<Block>, s: State, i: nat, j: nat)
    requires IsGenesis(genesis) && Run(c, genesis, blocks) == Ok(s)
    requires 0 < i < |s.history| && IsJustified(s.justifiedSlots, i)
    requires 0 < j < |s.history| && IsJustified(s.justifiedSlots, j)
    ensures var votes, n := CountedOn(c, genesis, blocks), |s.validators|;
            3 * |Attesters(votes, s.history[i], n) * Attesters(votes, s.history[j], n)| >= n
  {
    JustifiedSlotsAreBacked(c, genesis, blocks, s);
    var votes, n := CountedOn(c, genesis, blocks), |s.validators|;
    assert SlotBacked(ContextOf(s), votes, i) && SlotBacked(ContextOf(s), votes, j);
    QuorumsIntersect(Attesters(votes, s.history[i], n), Attesters(votes, s.history[j], n), n);
  }

  // ----- Votes for a checkpoint, not just for a root -----

  /** The validators, among the first n, that attested to exactly this checkpoint. */
  function TargetAttesters(atts: seq<Attestation>, target: Checkpoint, n: nat): set<nat> {
    set a | a in atts && a.data.target == target && a.validatorId < n :: a.validatorId
  }

  /** No two blocks of the chain, the genesis block included, share a root. */
  ghost predicate CollisionFree(c: Crypto, blocks: seq<Block>) {
    forall a, b | a in blocks && b in blocks && BlockRoot(c, a) == BlockRoot(c, b) :: a == b
  }

  /** Without collisions a block's root stands in history once. */
  lemma BlockEntryIsUnique(c: Crypto, genesis: State, genesisBlock: Block, blocks: seq<Block>, s: State, i: nat, j: nat)
    requires IsGenesis(genesis) && PostStateOf(c, genesis, genesisBlock) && Run(c, genesis, blocks) == Ok(s)
    requires CollisionFree(c, Earlier(genesisBlock, blocks))
    requires i < |s.history| && j < |s.history| && s.history[i] == s.history[j] != ZERO_HASH
    ensures i == j
  {
    HistoryIsTheChain(c, genesis, genesisBlock, blocks, s);
    var earlier := Earlier(genesisBlock, blocks);
    var a :| a in earlier && CheckpointOf(c, a) == Checkpoint(s.history[i], i);
    var b :| b in earlier && CheckpointOf(c, b) == Checkpoint(s.history[j], j);
  }

  /** A justified slot that holds a block has two thirds of the validators behind that very
      checkpoint. */
  lemma JustifiedBlocksAreBacked(c: Crypto, genesis: State, genesisBlock: Block, blocks: seq<Block>, s: State, i: nat)
    requires IsGenesis(genesis) && PostStateOf(c, genesis, genesisBlock) && Run(c, genesis, blocks) == Ok(s)
    requires CollisionFree(c, Earlier(genesisBlock, blocks))
    requires 0 < i < |s.history| && IsJustified(s.justifiedSlots, i) && s.history[i] != ZERO_HASH
    ensures var n := |s.validators|;
            Supermajority(|TargetAttesters(CountedOn(c, genesis, blocks), Checkpoint(s.history[i], i), n)|, n)
  {
    JustifiedSlotsAreBacked(c, genesis, blocks, s);
    var votes, n := CountedOn(c, genesis, blocks), |s.validators|;
    assert SlotBacked(ContextOf(s), votes, i);
    forall a | a in votes && a.data.target.root == s.history[i]
      ensures a.data.target == Checkpoint(s.history[i], i)
    {
      CountedVotesLead(c, genesis, blocks, s, a);
      BlockEntryIsUnique(c, genesis, genesisBlock, blocks, s, i, a.data.target.slot);
    }
    assert TargetAttesters(votes, Checkpoint(s.history[i], i), n) == Attesters(votes, s.history[i], n);
  }
}
