/** The justification rules over sets, with no bits, no bytes and no stored form, and the
    proof that the vote-counting code computes exactly this machine over every chain. */
module VoteMachine {
  import opened Types
  import opened Slots
  import opened Voting
  import opened Finality
  import opened Transition
  import opened Chain

  /** Who voted for which root, and which slots are justified. */
  datatype Machine = Machine(votes: map<Root, set<nat>>, slots: set<nat>, justified: Checkpoint, finalized: Checkpoint)

  ghost predicate Counts(ctx: Context, m: Machine, a: Attestation) {
    var source, target := a.data.source, a.data.target;
    && source.slot < target.slot
    && source.slot in m.slots && target.slot !in m.slots
    && InHistory(ctx.history, source) && InHistory(ctx.history, target)
    && IsJustifiableAfter(target.slot, ctx.finalizedSlot)
    && a.validatorId < ctx.numValidators
    && !(target.root in m.votes && a.validatorId in m.votes[target.root])
  }

  ghost function Vote(ctx: Context, m: Machine, a: Attestation): Machine {
    if !Counts(ctx, m, a) then m
    else
      var source, target := a.data.source, a.data.target;
      var voters := (if target.root in m.votes then m.votes[target.root] else {}) + {a.validatorId};
      if 3 * |voters| < 2 * ctx.numValidators then m.(votes := m.votes[target.root := voters])
      else
        Machine(m.votes - {target.root}, m.slots + {target.slot}, target,
                if exists s :: source.slot < s < target.slot && IsJustifiableAfter(s, ctx.finalizedSlot)
                then m.finalized else source)
  }

  ghost function VoteAll(ctx: Context, m: Machine, atts: seq<Attestation>): Machine {
    if atts == [] then m else Vote(ctx, VoteAll(ctx, m, atts[..|atts| - 1]), atts[|atts| - 1])
  }

  // ----- Abstraction -----

  ghost function JustifiedSet(slots: seq<bool>): set<nat> { set i | 0 <= i < |slots| && slots[i] }

  ghost function VoterSets(pending: map<Root, seq<bool>>): map<Root, set<nat>> {
    map r | r in pending :: Voters(pending[r])
  }

  ghost function Abstract(t: Tally): Machine {
    Machine(VoterSets(t.pending), JustifiedSet(t.justifiedSlots), t.justified, t.finalized)
  }

  lemma JustifiedSetMember(slots: seq<bool>, i: nat)
    ensures i in JustifiedSet(slots) <==> IsJustified(slots, i)
  {}

  lemma MarkAddsSlot(slots: seq<bool>, slot: nat)
    ensures JustifiedSet(MarkJustified(slots, slot)) == JustifiedSet(slots) + {slot}
  {
    var marked := MarkJustified(slots, slot);
    forall i: nat
      ensures i in JustifiedSet(marked) <==> i in JustifiedSet(slots) + {slot}
    {
      JustifiedSetMember(marked, i);
      JustifiedSetMember(slots, i);
    }
  }

  lemma VotersOf(ctx: Context, t: Tally, root: Root)
    requires Shaped(ctx, t)
    ensures Voters(VotesFor(ctx, t, root)) == if root in VoterSets(t.pending) then VoterSets(t.pending)[root] else {}
  {}

  lemma AdmissibleIffCounts(ctx: Context, t: Tally, a: Attestation)
    requires Shaped(ctx, t)
    ensures Admissible(ctx, t, a) && !VotesFor(ctx, t, a.data.target.root)[a.validatorId]
       <==> Counts(ctx, Abstract(t), a)
  {
    JustifiedSetMember(t.justifiedSlots, a.data.source.slot);
    JustifiedSetMember(t.justifiedSlots, a.data.target.slot);
    VotersOf(ctx, t, a.data.target.root);
    if a.validatorId < ctx.numValidators {
      var votes := VotesFor(ctx, t, a.data.target.root);
      assert votes[a.validatorId] <==> a.validatorId in Voters(votes);
    }
  }

  /** The votes for the target once this one is in. */
  function VotesWith(ctx: Context, t: Tally, a: Attestation): seq<bool>
    requires Shaped(ctx, t) && a.validatorId < ctx.numValidators
  {
    VotesFor(ctx, t, a.data.target.root)[a.validatorId := true]
  }

  lemma VotersWith(ctx: Context, t: Tally, a: Attestation)
    requires Shaped(ctx, t) && a.validatorId < ctx.numValidators
    ensures var root, m := a.data.target.root, VoterSets(t.pending);
            && Voters(VotesWith(ctx, t, a)) == (if root in m then m[root] else {}) + {a.validatorId}
            && CountTrue(VotesWith(ctx, t, a)) == |Voters(VotesWith(ctx, t, a))|
  {
    VotersOf(ctx, t, a.data.target.root);
    VoteAddsVoter(VotesFor(ctx, t, a.data.target.root), a.validatorId);
    CountIsVoters(VotesWith(ctx, t, a));
  }

  lemma RecordVotes(pending: map<Root, seq<bool>>, root: Root, votes: seq<bool>)
    ensures VoterSets(pending[root := votes]) == VoterSets(pending)[root := Voters(votes)]
  {}

  lemma DropVotes(pending: map<Root, seq<bool>>, root: Root)
    ensures VoterSets(pending - {root}) == VoterSets(pending) - {root}
  {}

  lemma RecordedRefines(ctx: Context, t: Tally, a: Attestation)
    requires Shaped(ctx, t) && Admissible(ctx, t, a) && !VotesFor(ctx, t, a.data.target.root)[a.validatorId]
    requires Counts(ctx, Abstract(t), a) && !Supermajority(CountTrue(VotesWith(ctx, t, a)), ctx.numValidators)
    ensures Abstract(CastVote(ctx, t, a)) == Vote(ctx, Abstract(t), a)
  {
    VotersWith(ctx, t, a);
    RecordVotes(t.pending, a.data.target.root, VotesWith(ctx, t, a));
  }

  lemma JustifyingRefines(ctx: Context, t: Tally, a: Attestation)
    requires Shaped(ctx, t) && Admissible(ctx, t, a) && !VotesFor(ctx, t, a.data.target.root)[a.validatorId]
    requires Counts(ctx, Abstract(t), a) && Supermajority(CountTrue(VotesWith(ctx, t, a)), ctx.numValidators)
    ensures Abstract(CastVote(ctx, t, a)) == Vote(ctx, Abstract(t), a)
  {
    VotersWith(ctx, t, a);
    MarkAddsSlot(t.justifiedSlots, a.data.target.slot);
    DropVotes(t.pending, a.data.target.root);
  }

  /** One pass of the vote loop is one step of the machine. */
  lemma CastVoteRefines(ctx: Context, t: Tally, a: Attestation)
    requires Shaped(ctx, t)
    ensures Abstract(CastVote(ctx, t, a)) == Vote(ctx, Abstract(t), a)
  {
    AdmissibleIffCounts(ctx, t, a);
    if Counts(ctx, Abstract(t), a) {
      if Supermajority(CountTrue(VotesWith(ctx, t, a)), ctx.numValidators) {
        JustifyingRefines(ctx, t, a);
      } else {
        RecordedRefines(ctx, t, a);
      }
    }
  }

  lemma {:induction false} CastVotesRefines(ctx: Context, t: Tally, atts: seq<Attestation>)
    requires Shaped(ctx, t)
    ensures Abstract(CastVotes(ctx, t, atts)) == VoteAll(ctx, Abstract(t), atts)
  {
    if atts != [] {
      var init := atts[..|atts| - 1];
      CastVotesRefines(ctx, t, init);
      CastVoteRefines(ctx, CastVotes(ctx, t, init), atts[|atts| - 1]);
    }
  }

  /** ProcessAttestations, from stored form to stored form, is the machine. */
  lemma ProcessAttestationsRefines(s: State, atts: seq<Attestation>)
    requires PendingShaped(s)
    ensures Abstract(TallyOf(ProcessAttestations(s, atts))) == VoteAll(ContextOf(s), Abstract(TallyOf(s)), atts)
  {
    CastVotesRefines(ContextOf(s), TallyOf(s), atts);
    TallySurvivesStorage(s, CastVotes(ContextOf(s), TallyOf(s), atts));
  }

  // ----- Whole chains -----

  /** All of a state that justification depends on. */
  datatype Ledger = Ledger(machine: Machine, history: seq<Root>, slot: nat, numValidators: nat)

  ghost function LedgerOf(s: State): Ledger
    requires PendingShaped(s)
  {
    Ledger(Abstract(TallyOf(s)), s.history, s.header.slot, |s.validators|)
  }

  /** The first block justifies and finalizes the genesis block. */
  ghost function JustifyGenesis(l: Ledger, parentRoot: Root): Machine {
    if l.slot != 0 then l.machine
    else Machine(l.machine.votes, l.machine.slots + {0},
                 Checkpoint(parentRoot, l.machine.justified.slot), Checkpoint(parentRoot, l.machine.finalized.slot))
  }

  ghost function ApplyBlock(l: Ledger, b: Block): Ledger {
    var numEmpty := if l.slot < b.slot then b.slot - l.slot - 1 else 0;
    var history := l.history + [b.parentRoot] + ZeroRoots(numEmpty);
    var m := JustifyGenesis(l, b.parentRoot);
    Ledger(VoteAll(Context(history, m.finalized.slot, l.numValidators), m, b.body), history, b.slot, l.numValidators)
  }

  lemma HeaderRefines(c: Crypto, s: State, b: Block)
    requires Good(s) && s.header.slot < b.slot
    ensures Abstract(TallyOf(AfterHeader(c, s, b))) == JustifyGenesis(LedgerOf(s), b.parentRoot)
  {
    var s1 := AfterHeader(c, s, b);
    assert TallyOf(s1).pending == TallyOf(s).pending;
    var first := s.header.slot == 0;
    forall i: nat
      ensures i in JustifiedSet(s1.justifiedSlots) <==> i in JustifiedSet(s.justifiedSlots) + if first then {0} else {}
    {
      JustifiedSetMember(s1.justifiedSlots, i);
      JustifiedSetMember(s.justifiedSlots, i);
      assert IsJustified(s1.justifiedSlots, i) <==> IsJustified(s.justifiedSlots, i) || (first && i == 0);
    }
  }

  lemma TransitionRefines(c: Crypto, s: State, b: Block, s': State)
    requires Good(s) && Transitions(c, s, b, s')
    ensures LedgerOf(s') == ApplyBlock(LedgerOf(s), b)
  {
    HeaderRefines(c, s, b);
    ProcessAttestationsRefines(AfterHeader(c, s, b), b.body);
  }

  ghost function ApplyBlocks(l: Ledger, blocks: seq<Block>): Ledger {
    if blocks == [] then l else ApplyBlock(ApplyBlocks(l, blocks[..|blocks| - 1]), blocks[|blocks| - 1])
  }

  /** Over every chain: the ledger of the final state is the set machine run over the blocks,
      so packing the votes away after each block and reading them back loses nothing. */
  lemma {:induction false} ChainRefinesMachine(c: Crypto, genesis: State, blocks: seq<Block>, s: State)
    requires IsGenesis(genesis) && Run(c, genesis, blocks) == Ok(s)
    ensures LedgerOf(s) == ApplyBlocks(LedgerOf(genesis), blocks)
    decreases |blocks|
  {
    if blocks != [] {
      var n := |blocks| - 1;
      var p := RunLast(c, genesis, blocks, s);
      ChainRefinesMachine(c, genesis, blocks[..n], p);
      ChainStatesAreGood(c, genesis, blocks[..n], p);
      TransitionRefines(c, p, blocks[n], s);
    }
  }
}
