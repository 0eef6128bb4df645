/** What every vote keeps while one block's attestations are processed. */
module Finality {
  import opened Types
  import opened Sets
  import opened Slots
  import opened Voting

  /** The validators recorded in a list of votes. */
  function Voters(votes: seq<bool>): set<nat> {
    set v | 0 <= v < |votes| && votes[v]
  }

  lemma {:induction false} CountIsVoters(votes: seq<bool>)
    ensures CountTrue(votes) == |Voters(votes)|
  {
    if votes != [] {
      var k := |votes| - 1;
      CountIsVoters(votes[..k]);
      assert Voters(votes) == Voters(votes[..k]) + if votes[k] then {k} else {};
    }
  }

  lemma VoteAddsVoter(votes: seq<bool>, v: nat)
    requires v < |votes|
    ensures Voters(votes[v := true]) == Voters(votes) + {v}
  {}

  // ----- Safety inside one block -----

  ghost predicate NamesJustifiedSlot(ctx: Context, t: Tally, cp: Checkpoint) {
    InHistory(ctx.history, cp) && IsJustified(t.justifiedSlots, cp.slot)
  }

  /** A root stays pending only with at least one vote and short of two thirds. */
  ghost predicate Open(ctx: Context, votes: seq<bool>) {
    && |votes| == ctx.numValidators
    && 0 < CountTrue(votes)
    && !Supermajority(CountTrue(votes), ctx.numValidators)
  }

  ghost predicate Settled(ctx: Context, t: Tally) {
    && |t.justifiedSlots| == |ctx.history|
    && IsJustified(t.justifiedSlots, ctx.finalizedSlot)
    && ctx.finalizedSlot <= t.finalized.slot
    && NamesJustifiedSlot(ctx, t, t.justified)
    && NamesJustifiedSlot(ctx, t, t.finalized)
    && forall r | r in t.pending :: Open(ctx, t.pending[r])
  }

  /** A source below the finalized slot never finalizes: the finalized slot is either the
      target, which is then already justified, or a justifiable slot inside the gap. */
  lemma FinalizingSourceNotBelow(ctx: Context, t: Tally, a: Attestation)
    requires Admissible(ctx, t, a)
    requires IsJustified(t.justifiedSlots, ctx.finalizedSlot)
    requires !HasJustifiableGap(a.data.source.slot, a.data.target.slot, ctx.finalizedSlot)
    ensures ctx.finalizedSlot <= a.data.source.slot
  {
    assert IsJustifiableAfter(ctx.finalizedSlot, ctx.finalizedSlot);
  }

  ghost predicate BitsKept(before: seq<bool>, after: seq<bool>) {
    forall i: nat :: IsJustified(before, i) ==> IsJustified(after, i)
  }

  lemma CastVoteSettled(ctx: Context, t: Tally, a: Attestation)
    requires Shaped(ctx, t) && Settled(ctx, t)
    ensures Settled(ctx, CastVote(ctx, t, a))
    ensures BitsKept(t.justifiedSlots, CastVote(ctx, t, a).justifiedSlots)
  {
    if Admissible(ctx, t, a) {
      var votes := VotesFor(ctx, t, a.data.target.root);
      if !votes[a.validatorId] {
        CountIsVoters(votes[a.validatorId := true]);
        VoteAddsVoter(votes, a.validatorId);
        if !HasJustifiableGap(a.data.source.slot, a.data.target.slot, ctx.finalizedSlot) {
          FinalizingSourceNotBelow(ctx, t, a);
        }
      }
    }
  }

  lemma {:induction false} CastVotesSettled(ctx: Context, t: Tally, atts: seq<Attestation>)
    requires Shaped(ctx, t) && Settled(ctx, t)
    ensures Settled(ctx, CastVotes(ctx, t, atts))
    ensures BitsKept(t.justifiedSlots, CastVotes(ctx, t, atts).justifiedSlots)
  {
    if atts != [] {
      var init := atts[..|atts| - 1];
      CastVotesSettled(ctx, t, init);
      CastVoteSettled(ctx, CastVotes(ctx, t, init), atts[|atts| - 1]);
    }
  }

  /** Any two supermajorities among n validators share at least a third of them. */
  lemma QuorumsIntersect(a: set<nat>, b: set<nat>, n: nat)
    requires forall v | v in a + b :: v < n
    requires Supermajority(|a|, n) && Supermajority(|b|, n)
    ensures 3 * |a * b| >= n
  {
    RangeSize(a + b, n);
    assert |a + b| == |a| + |b| - |a * b|;
  }
}
