/** Votes are recorded by root, so slots that share a root pool their votes, and a vote that was
    recorded for one slot can later count for another. This is exactly when that justifies a
    slot without two thirds of the validators behind it. */
module Pooling {
  import opened Types
  import opened Sets
  import opened Slots
  import opened Voting
  import opened Finality
  import opened Transition
  import opened Chain
  import opened Backing

  /** A slot that a vote from slot 0 can still justify. */
  predicate IsOpen(ctx: Context, t: Tally, slot: nat) {
    0 < slot < |ctx.history| && !IsJustified(t.justifiedSlots, slot) && IsJustifiableAfter(slot, ctx.finalizedSlot)
  }

  predicate SharesRoot(ctx: Context, t: Tally, i: nat, j: nat)
    requires i < |ctx.history|
  {
    j != i && IsOpen(ctx, t, j) && ctx.history[j] == ctx.history[i]
  }

  ghost predicate SharesNone(ctx: Context, t: Tally, i: nat)
    requires i < |ctx.history|
  {
    forall j: nat :: !SharesRoot(ctx, t, i, j)
  }

  /** Who is recorded under the root of slot i. */
  function Recorded(ctx: Context, t: Tally, i: nat): set<nat>
    requires i < |ctx.history|
  {
    Voters(VotesFor(ctx, t, ctx.history[i]))
  }

  /** Who voted for slot i itself. */
  function Behind(ctx: Context, atts: seq<Attestation>, i: nat): set<nat>
    requires i < |ctx.history|
  {
    TargetAttesters(atts, Checkpoint(ctx.history[i], i), ctx.numValidators)
  }

  predicate Enough(ctx: Context, voters: set<nat>) { Supermajority(|voters|, ctx.numValidators) }

  /** An open slot whose root is short of two thirds, as every pending root is. */
  ghost predicate Ready(ctx: Context, t: Tally, i: nat) {
    Shaped(ctx, t) && IsJustified(t.justifiedSlots, 0) && IsOpen(ctx, t, i) && !Enough(ctx, Recorded(ctx, t, i))
  }

  /** The votes justify slot i, though less than two thirds of the validators have voted for it,
      then or in `earlier`. */
  ghost predicate JustifiesUnbacked(ctx: Context, t: Tally, earlier: seq<Attestation>, atts: seq<Attestation>, i: nat)
    requires Shaped(ctx, t) && i < |ctx.history|
  {
    && IsJustified(CastVotes(ctx, t, atts).justifiedSlots, i)
    && !Enough(ctx, Behind(ctx, earlier + Counted(ctx, t, atts), i))
  }

  /** One vote recorded for another slot is enough. Without one, another open slot of the same
      root can supply it, unless the next vote under the root completes two thirds; then that
      vote can go to the other slot and clear the record, and a second such slot is needed. */
  ghost predicate Poolable(ctx: Context, t: Tally, earlier: seq<Attestation>, i: nat)
    requires i < |ctx.history|
  {
    var recorded, behind := Recorded(ctx, t, i), Behind(ctx, earlier, i);
    && !Enough(ctx, behind)
    && (|| !(recorded <= behind)
        || (!SharesNone(ctx, t, i) && !(recorded == behind && Supermajority(|behind| + 1, ctx.numValidators)))
        || (&& 2 <= ctx.numValidators
            && exists j: nat, k: nat :: j != k && SharesRoot(ctx, t, i, j) && SharesRoot(ctx, t, i, k)))
  }

  // ----- One vote -----

  lemma TargetAttestersGrow(atts: seq<Attestation>, a: Attestation, target: Checkpoint, n: nat)
    ensures TargetAttesters(atts + [a], target, n) ==
            TargetAttesters(atts, target, n)
              + if a.data.target == target && a.validatorId < n then {a.validatorId} else {}
  {
    assert forall x :: x in atts + [a] <==> x in atts || x == a;
  }

  lemma BehindGrows(ctx: Context, atts: seq<Attestation>, a: Attestation, i: nat)
    requires i < |ctx.history|
    ensures var before, after := Behind(ctx, atts, i), Behind(ctx, atts + [a], i);
            && after == before + (if a.data.target == Checkpoint(ctx.history[i], i) && a.validatorId < ctx.numValidators
                                  then {a.validatorId} else {})
            && |before| <= |after|
  {
    TargetAttestersGrow(atts, a, Checkpoint(ctx.history[i], i), ctx.numValidators);
    SubsetSize(Behind(ctx, atts, i), Behind(ctx, atts + [a], i));
  }

  /** What a new vote under a root does: it is recorded, or it justifies and clears the record. */
  lemma CastNew(ctx: Context, t: Tally, a: Attestation)
    requires Shaped(ctx, t) && Admissible(ctx, t, a)
    requires a.validatorId !in Voters(VotesFor(ctx, t, a.data.target.root))
    ensures var root, t' := a.data.target.root, CastVote(ctx, t, a);
            var voters := Voters(VotesFor(ctx, t, root)) + {a.validatorId};
            if Enough(ctx, voters)
            then && t'.pending == t.pending - {root}
                 && t'.justifiedSlots == MarkJustified(t.justifiedSlots, a.data.target.slot)
            else && t'.pending == t.pending[root := VotesFor(ctx, t, root)[a.validatorId := true]]
                 && t'.justifiedSlots == t.justifiedSlots
                 && Voters(VotesFor(ctx, t', root)) == voters
  {
    var votes := VotesFor(ctx, t, a.data.target.root);
    VoteAddsVoter(votes, a.validatorId);
    CountIsVoters(votes[a.validatorId := true]);
  }

  lemma CastOther(ctx: Context, t: Tally, a: Attestation, root: Root)
    requires Shaped(ctx, t)
    requires Admissible(ctx, t, a) && a.data.target.root == root ==> a.validatorId in Voters(VotesFor(ctx, t, root))
    ensures VotesFor(ctx, CastVote(ctx, t, a), root) == VotesFor(ctx, t, root)
  {}

  lemma CastKeepsBits(ctx: Context, t: Tally, a: Attestation)
    requires Shaped(ctx, t)
    ensures BitsKept(t.justifiedSlots, CastVote(ctx, t, a).justifiedSlots)
    ensures forall i: nat :: IsJustified(CastVote(ctx, t, a).justifiedSlots, i) ==>
              IsJustified(t.justifiedSlots, i) || (Admissible(ctx, t, a) && a.data.target.slot == i)
  {}

  // ----- When every vote recorded for the root is for the slot -----

  ghost predicate Honest(ctx: Context, t: Tally, atts: seq<Attestation>, i: nat)
    requires i < |ctx.history|
  {
    && Recorded(ctx, t, i) <= Behind(ctx, atts, i)
    && (IsJustified(t.justifiedSlots, i) ==> Enough(ctx, Behind(ctx, atts, i)))
  }

  function CountedOne(ctx: Context, t: Tally, a: Attestation): seq<Attestation> {
    if Admissible(ctx, t, a) then [a] else []
  }

  lemma OtherVoteIsHonest(ctx: Context, t: Tally, atts: seq<Attestation>, a: Attestation, i: nat)
    requires Shaped(ctx, t) && i < |ctx.history| && Honest(ctx, t, atts, i)
    requires Admissible(ctx, t, a) && a.data.target.root != ctx.history[i]
    ensures Honest(ctx, CastVote(ctx, t, a), atts + [a], i)
  {
    BehindGrows(ctx, atts, a, i);
    CastOther(ctx, t, a, ctx.history[i]);
    CastKeepsBits(ctx, t, a);
  }

  lemma VoteForItIsHonest(ctx: Context, t: Tally, atts: seq<Attestation>, a: Attestation, i: nat)
    requires Shaped(ctx, t) && i < |ctx.history| && Honest(ctx, t, atts, i)
    requires Admissible(ctx, t, a) && a.data.target == Checkpoint(ctx.history[i], i)
    ensures Honest(ctx, CastVote(ctx, t, a), atts + [a], i)
  {
    BehindGrows(ctx, atts, a, i);
    var voters := Recorded(ctx, t, i) + {a.validatorId};
    SubsetSize(voters, Behind(ctx, atts + [a], i));
    if a.validatorId !in Recorded(ctx, t, i) {
      CastNew(ctx, t, a);
      NoRecord(ctx, CastVote(ctx, t, a), i);
    } else {
      CastOther(ctx, t, a, ctx.history[i]);
    }
  }

  lemma NoRecord(ctx: Context, t: Tally, i: nat)
    requires i < |ctx.history|
    ensures ctx.history[i] !in t.pending ==> Recorded(ctx, t, i) == {}
  {}

  lemma SharesNoneStays(ctx: Context, t: Tally, a: Attestation, i: nat)
    requires Shaped(ctx, t) && i < |ctx.history| && SharesNone(ctx, t, i)
    ensures SharesNone(ctx, CastVote(ctx, t, a), i)
  {
    CastKeepsBits(ctx, t, a);
    forall j: nat
      ensures !SharesRoot(ctx, CastVote(ctx, t, a), i, j)
    {
      assert !SharesRoot(ctx, t, i, j);
    }
  }

  lemma HonestStep(ctx: Context, t: Tally, atts: seq<Attestation>, a: Attestation, i: nat)
    requires Shaped(ctx, t) && i < |ctx.history| && SharesNone(ctx, t, i) && Honest(ctx, t, atts, i)
    ensures Honest(ctx, CastVote(ctx, t, a), atts + CountedOne(ctx, t, a), i)
  {
    if !Admissible(ctx, t, a) {
      assert atts + [] == atts;
    } else if a.data.target.root != ctx.history[i] {
      OtherVoteIsHonest(ctx, t, atts, a, i);
    } else {
      assert !SharesRoot(ctx, t, i, a.data.target.slot);
      VoteForItIsHonest(ctx, t, atts, a, i);
    }
  }

  // ----- When one other slot shares the root, but the next vote completes two thirds -----

  /** Everyone recorded is behind slot i, the next vote completes two thirds, and it can only
      be for i or for j. */
  ghost predicate OneShort(ctx: Context, t: Tally, atts: seq<Attestation>, i: nat, j: nat)
    requires i < |ctx.history|
  {
    && Recorded(ctx, t, i) == Behind(ctx, atts, i) && Supermajority(|Behind(ctx, atts, i)| + 1, ctx.numValidators)
    && !IsJustified(t.justifiedSlots, i)
    && forall k: nat :: SharesRoot(ctx, t, i, k) ==> k == j
  }

  /** What cannot be left: enough voters, or no slot to pool with and only honest votes. */
  ghost predicate Safe(ctx: Context, t: Tally, atts: seq<Attestation>, i: nat)
    requires i < |ctx.history|
  {
    Enough(ctx, Behind(ctx, atts, i)) || (SharesNone(ctx, t, i) && Honest(ctx, t, atts, i))
  }

  lemma SafeStep(ctx: Context, t: Tally, atts: seq<Attestation>, a: Attestation, i: nat)
    requires Shaped(ctx, t) && i < |ctx.history| && Safe(ctx, t, atts, i)
    ensures Safe(ctx, CastVote(ctx, t, a), atts + CountedOne(ctx, t, a), i)
  {
    BehindGrows(ctx, atts, a, i);
    assert atts + [] == atts;
    if !Enough(ctx, Behind(ctx, atts, i)) {
      HonestStep(ctx, t, atts, a, i);
      SharesNoneStays(ctx, t, a, i);
    }
  }

  lemma FewerShare(ctx: Context, t: Tally, a: Attestation, i: nat, j: nat)
    requires Shaped(ctx, t) && i < |ctx.history|
    requires forall k: nat :: SharesRoot(ctx, t, i, k) ==> k == j
    ensures forall k: nat :: SharesRoot(ctx, CastVote(ctx, t, a), i, k) ==> k == j && SharesRoot(ctx, t, i, k)
  {
    CastKeepsBits(ctx, t, a);
    forall k: nat | SharesRoot(ctx, CastVote(ctx, t, a), i, k)
      ensures k == j && SharesRoot(ctx, t, i, k)
    {
      assert SharesRoot(ctx, t, i, k);
    }
  }

  lemma OneShortStays(ctx: Context, t: Tally, atts: seq<Attestation>, a: Attestation, i: nat, j: nat)
    requires Shaped(ctx, t) && i < |ctx.history| && OneShort(ctx, t, atts, i, j)
    requires Admissible(ctx, t, a) && a.data.target.root == ctx.history[i] ==> a.validatorId in Recorded(ctx, t, i)
    ensures OneShort(ctx, CastVote(ctx, t, a), atts + CountedOne(ctx, t, a), i, j)
  {
    CastOther(ctx, t, a, ctx.history[i]);
    CastKeepsBits(ctx, t, a);
    FewerShare(ctx, t, a, i, j);
    if Admissible(ctx, t, a) {
      BehindGrows(ctx, atts, a, i);
      assert Behind(ctx, atts + [a], i) == Behind(ctx, atts, i);
    } else {
      assert atts + [] == atts;
    }
  }

  lemma OneShortEnds(ctx: Context, t: Tally, atts: seq<Attestation>, a: Attestation, i: nat, j: nat)
    requires Shaped(ctx, t) && i < |ctx.history| && OneShort(ctx, t, atts, i, j)
    requires Admissible(ctx, t, a) && a.data.target.root == ctx.history[i] && a.validatorId !in Recorded(ctx, t, i)
    ensures Safe(ctx, CastVote(ctx, t, a), atts + [a], i)
  {
    CastNew(ctx, t, a);
    BehindGrows(ctx, atts, a, i);
    if a.data.target.slot != i {
      assert SharesRoot(ctx, t, i, a.data.target.slot);
      FewerShare(ctx, t, a, i, j);
      NoRecord(ctx, CastVote(ctx, t, a), i);
      assert SharesNone(ctx, CastVote(ctx, t, a), i);
    }
  }

  lemma {:induction false} StaysSafe(ctx: Context, t: Tally, earlier: seq<Attestation>, atts: seq<Attestation>, i: nat,
                                     j: nat)
    requires Shaped(ctx, t) && i < |ctx.history| && (Safe(ctx, t, earlier, i) || OneShort(ctx, t, earlier, i, j))
    ensures var t', all := CastVotes(ctx, t, atts), earlier + Counted(ctx, t, atts);
            Safe(ctx, t', all, i) || OneShort(ctx, t', all, i, j)
  {
    if atts == [] {
      assert earlier + [] == earlier;
    } else {
      var init, a := atts[..|atts| - 1], atts[|atts| - 1];
      StaysSafe(ctx, t, earlier, init, i, j);
      var t', all := CastVotes(ctx, t, init), earlier + Counted(ctx, t, init);
      assert earlier + Counted(ctx, t, atts) == all + CountedOne(ctx, t', a);
      if Safe(ctx, t', all, i) {
        SafeStep(ctx, t', all, a, i);
      } else if && Admissible(ctx, t', a) && a.data.target.root == ctx.history[i]
                && a.validatorId !in Recorded(ctx, t', i) {
        OneShortEnds(ctx, t', all, a, i, j);
      } else {
        OneShortStays(ctx, t', all, a, i, j);
      }
    }
  }

  // ----- With a single validator -----

  /** A slot is justified only by a vote for it. */
  lemma {:induction false} JustifiedHasAVote(ctx: Context, t: Tally, earlier: seq<Attestation>, atts: seq<Attestation>,
                                             i: nat)
    requires Shaped(ctx, t) && i < |ctx.history| && !IsJustified(t.justifiedSlots, i)
    requires IsJustified(CastVotes(ctx, t, atts).justifiedSlots, i)
    ensures 0 < |Behind(ctx, earlier + Counted(ctx, t, atts), i)|
    decreases |atts|
  {
    var init, a := atts[..|atts| - 1], atts[|atts| - 1];
    var t', all := CastVotes(ctx, t, init), earlier + Counted(ctx, t, init);
    assert earlier + Counted(ctx, t, atts) == all + CountedOne(ctx, t', a);
    CastKeepsBits(ctx, t', a);
    BehindGrows(ctx, all, a, i);
    if IsJustified(t'.justifiedSlots, i) {
      JustifiedHasAVote(ctx, t, earlier, init, i);
      assert all + [] == all;
    } else {
      assert a.validatorId in Behind(ctx, all + [a], i);
    }
  }

  /** Where the condition fails, a justified slot has two thirds behind it. */
  lemma UnpoolableIsBacked(ctx: Context, t: Tally, earlier: seq<Attestation>, atts: seq<Attestation>, i: nat)
    requires Ready(ctx, t, i) && !Poolable(ctx, t, earlier, i)
    ensures !JustifiesUnbacked(ctx, t, earlier, atts, i)
  {
    if ctx.numValidators < 2 {
      if IsJustified(CastVotes(ctx, t, atts).justifiedSlots, i) {
        JustifiedHasAVote(ctx, t, earlier, atts, i);
      }
    } else if Enough(ctx, Behind(ctx, earlier, i)) || SharesNone(ctx, t, i) {
      StaysSafe(ctx, t, earlier, atts, i, 0);
    } else {
      var j: nat :| SharesRoot(ctx, t, i, j);
      StaysSafe(ctx, t, earlier, atts, i, j);
    }
  }

  // ----- Where the condition holds -----

  function FromStart(history: seq<Root>, id: nat, slot: nat): Attestation
    requires slot < |history|
  {
    var source, target := Checkpoint(history[0], 0), Checkpoint(history[slot], slot);
    Attestation(id, AttestationData(0, Checkpoint(ZERO_HASH, 0), target, source))
  }

  lemma {:induction false} CastFirst(ctx: Context, t: Tally, a: Attestation, rest: seq<Attestation>)
    requires Shaped(ctx, t)
    ensures CastVotes(ctx, t, [a] + rest) == CastVotes(ctx, CastVote(ctx, t, a), rest)
    decreases |rest|
  {
    if rest == [] {
      assert ([a] + rest)[..0] == [] && ([a] + rest)[0] == a;
      assert CastVotes(ctx, t, []) == t;
    } else {
      var init := rest[..|rest| - 1];
      CastFirst(ctx, t, a, init);
      assert ([a] + rest)[..|rest|] == [a] + init;
    }
  }

  lemma {:induction false} CountFirst(ctx: Context, t: Tally, a: Attestation, rest: seq<Attestation>)
    requires Shaped(ctx, t) && Admissible(ctx, t, a)
    ensures Counted(ctx, t, [a] + rest) == [a] + Counted(ctx, CastVote(ctx, t, a), rest)
    decreases |rest|
  {
    if rest == [] {
      assert ([a] + rest)[..0] == [] && ([a] + rest)[0] == a;
      assert CastVotes(ctx, t, []) == t;
    } else {
      var init, last := rest[..|rest| - 1], rest[|rest| - 1];
      CountFirst(ctx, t, a, init);
      CastFirst(ctx, t, a, init);
      assert ([a] + rest)[..|rest|] == [a] + init && ([a] + rest)[|rest|] == last;
      var one := CountedOne(ctx, CastVotes(ctx, t, [a] + init), last);
      assert Counted(ctx, t, [a] + rest) == [a] + Counted(ctx, CastVote(ctx, t, a), init) + one;
    }
  }

  lemma UnbackedFirst(ctx: Context, t: Tally, earlier: seq<Attestation>, a: Attestation, rest: seq<Attestation>, i: nat)
    requires Shaped(ctx, t) && Admissible(ctx, t, a) && i < |ctx.history|
    requires JustifiesUnbacked(ctx, CastVote(ctx, t, a), earlier + [a], rest, i)
    ensures JustifiesUnbacked(ctx, t, earlier, [a] + rest, i)
  {
    CastFirst(ctx, t, a, rest);
    CountFirst(ctx, t, a, rest);
    var counted := Counted(ctx, CastVote(ctx, t, a), rest);
    assert earlier + [a] + counted == earlier + ([a] + counted);
  }

  lemma {:induction false} SomeoneElse(voters: set<nat>, n: nat) returns (id: nat)
    requires |voters| < n
    ensures id < n && id !in voters
  {
    if n - 1 in voters {
      id := SomeoneElse(voters - {n - 1}, n - 1);
    } else {
      id := n - 1;
    }
  }

  lemma StrictlyFewer(a: set<nat>, b: set<nat>)
    requires a < b
    ensures |a| < |b|
  {
    var x :| x in b && x !in a;
    SubsetSize(a + {x}, b);
  }

  /** A voter who is not recorded yet and, if any is, already behind the slot. */
  lemma NextVoter(ctx: Context, recorded: set<nat>, behind: set<nat>) returns (id: nat)
    requires !Enough(ctx, recorded) && !Enough(ctx, behind) && !(recorded <= behind)
    requires forall x | x in behind :: x < ctx.numValidators
    ensures id < ctx.numValidators && id !in recorded && !Enough(ctx, behind + {id})
  {
    if x :| x in behind && x !in recorded {
      id := x;
      assert behind + {id} == behind;
    } else {
      id := SomeoneElse(recorded, ctx.numValidators);
      StrictlyFewer(behind, recorded);
    }
  }

  /** With one vote recorded for another slot, voting for the slot is enough. */
  lemma {:induction false} RecordedElsewhere(ctx: Context, t: Tally, earlier: seq<Attestation>, i: nat)
    returns (atts: seq<Attestation>)
    requires Ready(ctx, t, i) && !Enough(ctx, Behind(ctx, earlier, i))
    requires !(Recorded(ctx, t, i) <= Behind(ctx, earlier, i))
    ensures JustifiesUnbacked(ctx, t, earlier, atts, i)
    decreases 2 * ctx.numValidators - 3 * |Recorded(ctx, t, i)|
  {
    var recorded, behind := Recorded(ctx, t, i), Behind(ctx, earlier, i);
    var id := NextVoter(ctx, recorded, behind);
    var a := FromStart(ctx.history, id, i);
    var t' := CastVote(ctx, t, a);
    CastNew(ctx, t, a);
    BehindGrows(ctx, earlier, a, i);
    var rest := [];
    if Enough(ctx, recorded + {id}) {
      assert earlier + [a] + Counted(ctx, t', []) == earlier + [a];
    } else {
      rest := RecordedElsewhere(ctx, t', earlier + [a], i);
    }
    UnbackedFirst(ctx, t, earlier, a, rest, i);
    atts := [a] + rest;
  }

  /** Another open slot can record the vote that is needed. */
  lemma SharedSlotRecords(ctx: Context, t: Tally, earlier: seq<Attestation>, i: nat, j: nat)
    returns (atts: seq<Attestation>)
    requires Ready(ctx, t, i) && !Enough(ctx, Behind(ctx, earlier, i)) && SharesRoot(ctx, t, i, j)
    requires !(Recorded(ctx, t, i) == Behind(ctx, earlier, i)
               && Supermajority(|Behind(ctx, earlier, i)| + 1, ctx.numValidators))
    ensures JustifiesUnbacked(ctx, t, earlier, atts, i)
  {
    var recorded, behind := Recorded(ctx, t, i), Behind(ctx, earlier, i);
    if !(recorded <= behind) {
      atts := RecordedElsewhere(ctx, t, earlier, i);
    } else {
      var id := SomeoneElse(behind, ctx.numValidators);
      RecordIsShort(ctx, recorded, behind, id);
      var a := FromStart(ctx.history, id, j);
      CastNew(ctx, t, a);
      BehindGrows(ctx, earlier, a, i);
      var rest := RecordedElsewhere(ctx, CastVote(ctx, t, a), earlier + [a], i);
      UnbackedFirst(ctx, t, earlier, a, rest, i);
      atts := [a] + rest;
    }
  }

  lemma RecordIsShort(ctx: Context, recorded: set<nat>, behind: set<nat>, id: nat)
    requires recorded <= behind && !Enough(ctx, behind) && id !in recorded
    requires !(recorded == behind && Supermajority(|behind| + 1, ctx.numValidators))
    ensures !Enough(ctx, recorded + {id})
  {
    if recorded != behind {
      StrictlyFewer(recorded, behind);
    }
  }

  /** With two, the first can take the vote that completes two thirds and clear the record. */
  lemma TwoSharedSlots(ctx: Context, t: Tally, earlier: seq<Attestation>, i: nat, j: nat, k: nat)
    returns (atts: seq<Attestation>)
    requires Ready(ctx, t, i) && !Enough(ctx, Behind(ctx, earlier, i)) && 2 <= ctx.numValidators
    requires j != k && SharesRoot(ctx, t, i, j) && SharesRoot(ctx, t, i, k)
    ensures JustifiesUnbacked(ctx, t, earlier, atts, i)
  {
    var recorded, behind := Recorded(ctx, t, i), Behind(ctx, earlier, i);
    if !(recorded == behind && Supermajority(|behind| + 1, ctx.numValidators)) {
      atts := SharedSlotRecords(ctx, t, earlier, i, j);
    } else {
      var id := SomeoneElse(recorded, ctx.numValidators);
      var a := FromStart(ctx.history, id, j);
      ClearsRecord(ctx, t, i, j, k, id);
      BehindGrows(ctx, earlier, a, i);
      var rest := SharedSlotRecords(ctx, CastVote(ctx, t, a), earlier + [a], i, k);
      UnbackedFirst(ctx, t, earlier, a, rest, i);
      atts := [a] + rest;
    }
  }

  lemma ClearsRecord(ctx: Context, t: Tally, i: nat, j: nat, k: nat, id: nat)
    requires Ready(ctx, t, i) && j != k && SharesRoot(ctx, t, i, j) && SharesRoot(ctx, t, i, k)
    requires id < ctx.numValidators && id !in Recorded(ctx, t, i) && Enough(ctx, Recorded(ctx, t, i) + {id})
    ensures var t' := CastVote(ctx, t, FromStart(ctx.history, id, j));
            Ready(ctx, t', i) && Recorded(ctx, t', i) == {} && SharesRoot(ctx, t', i, k)
  {
    var a := FromStart(ctx.history, id, j);
    CastNew(ctx, t, a);
    NoRecord(ctx, CastVote(ctx, t, a), i);
  }

  lemma PoolableIsUnbacked(ctx: Context, t: Tally, earlier: seq<Attestation>, i: nat) returns (atts: seq<Attestation>)
    requires Ready(ctx, t, i) && Poolable(ctx, t, earlier, i)
    ensures JustifiesUnbacked(ctx, t, earlier, atts, i)
  {
    if !(Recorded(ctx, t, i) <= Behind(ctx, earlier, i)) {
      atts := RecordedElsewhere(ctx, t, earlier, i);
    } else if j: nat, k: nat :| && 2 <= ctx.numValidators && j != k
                                && SharesRoot(ctx, t, i, j) && SharesRoot(ctx, t, i, k) {
      atts := TwoSharedSlots(ctx, t, earlier, i, j, k);
    } else {
      var j: nat :| SharesRoot(ctx, t, i, j);
      atts := SharedSlotRecords(ctx, t, earlier, i, j);
    }
  }

  /** In the state in which the votes of a block are cast, and with `earlier` the votes counted
      before: some votes justify an open slot without two thirds of the validators behind it
      exactly if the slot is poolable. */
  lemma UnbackedIffPoolable(s: State, earlier: seq<Attestation>, i: nat)
    requires ReadyForVotes(s) && IsOpen(ContextOf(s), TallyOf(s), i)
    ensures (exists atts :: JustifiesUnbacked(ContextOf(s), TallyOf(s), earlier, atts, i))
       <==> Poolable(ContextOf(s), TallyOf(s), earlier, i)
  {
    var ctx, t := ContextOf(s), TallyOf(s);
    OpenSlotIsReady(s, i);
    if Poolable(ctx, t, earlier, i) {
      var atts := PoolableIsUnbacked(ctx, t, earlier, i);
    } else if atts :| JustifiesUnbacked(ctx, t, earlier, atts, i) {
      UnpoolableIsBacked(ctx, t, earlier, atts, i);
    }
  }

  lemma OpenSlotIsReady(s: State, i: nat)
    requires ReadyForVotes(s) && IsOpen(ContextOf(s), TallyOf(s), i)
    ensures Ready(ContextOf(s), TallyOf(s), i)
  {
    var ctx, t := ContextOf(s), TallyOf(s);
    NoRecord(ctx, t, i);
    if ctx.history[i] in t.pending {
      assert Open(ctx, t.pending[ctx.history[i]]);
      CountIsVoters(t.pending[ctx.history[i]]);
    }
  }

  // ----- On a chain -----

  /** Where the votes of the next block are cast; its body plays no part in that. */
  function BeforeVotes(c: Crypto, p: State, slot: nat): (s: State)
    requires PendingShaped(p) && p.header.slot < slot && 0 < |p.validators|
    ensures PendingShaped(s)
  {
    AfterHeader(c, p, NextBlock(c, p, slot, []))
  }

  /** The chain accepts a next block with this body, which leaves slot i justified without two
      thirds of the validators behind it anywhere on the chain. */
  ghost predicate ChainJustifiesUnbacked(c: Crypto, genesis: State, blocks: seq<Block>, p: State,
                                         slot: nat, body: seq<Attestation>, i: nat)
    requires PendingShaped(genesis) && PendingShaped(p) && p.header.slot < slot && 0 < |p.validators|
  {
    var all := blocks + [NextBlock(c, p, slot, body)];
    var r := Run(c, genesis, all);
    && r.Ok? && i < |r.value.history| && IsJustified(r.value.justifiedSlots, i)
    && var n := |r.value.validators|;
       !Supermajority(|TargetAttesters(CountedOn(c, genesis, all), Checkpoint(r.value.history[i], i), n)|, n)
  }

  lemma SameVotingState(c: Crypto, p: State, slot: nat, body: seq<Attestation>)
    requires PendingShaped(p) && p.header.slot < slot && 0 < |p.validators|
    ensures var s, s' := BeforeVotes(c, p, slot), AfterHeader(c, p, NextBlock(c, p, slot, body));
            PendingShaped(s') && ContextOf(s') == ContextOf(s) && TallyOf(s') == TallyOf(s)
  {
    SameSlotAndParent(c, p, NextBlock(c, p, slot, []), NextBlock(c, p, slot, body));
  }

  lemma SameSlotAndParent(c: Crypto, p: State, b: Block, d: Block)
    requires PendingShaped(p) && p.header.slot < b.slot == d.slot && b.parentRoot == d.parentRoot
    ensures var s, s' := AfterHeader(c, p, b), AfterHeader(c, p, d);
            ContextOf(s') == ContextOf(s) && TallyOf(s') == TallyOf(s)
  {
    assert AfterHeader(c, p, d) == AfterHeader(c, p, b).(header := AfterHeader(c, p, d).header);
  }

  lemma NextBlockJustifies(c: Crypto, genesis: State, blocks: seq<Block>, p: State, slot: nat, body: seq<Attestation>,
                           i: nat)
    requires IsGenesis(genesis) && Run(c, genesis, blocks) == Ok(p) && Good(p) && p.slot < slot && 0 < |p.validators|
    requires PendingShaped(p) && p.header.slot < slot && i < |BeforeVotes(c, p, slot).history|
    ensures ChainJustifiesUnbacked(c, genesis, blocks, p, slot, body, i)
       <==> JustifiesUnbacked(ContextOf(BeforeVotes(c, p, slot)), TallyOf(BeforeVotes(c, p, slot)),
                              CountedOn(c, genesis, blocks), body, i)
  {
    var b := NextBlock(c, p, slot, body);
    NextBlockTransitions(c, p, slot, body);
    RunMore(c, genesis, blocks, p, b);
    SameVotingState(c, p, slot, body);
    assert (blocks + [b])[..|blocks|] == blocks;
    assert CountedOn(c, genesis, blocks + [b])
        == CountedOn(c, genesis, blocks) + CountedIn(AfterHeader(c, p, b), body);
  }

  /** On top of any chain, some next block justifies an open slot without two thirds behind it
      exactly if the slot is poolable. */
  lemma ChainUnbackedIffPoolable(c: Crypto, genesis: State, blocks: seq<Block>, p: State, slot: nat, i: nat)
    requires IsGenesis(genesis) && Run(c, genesis, blocks) == Ok(p) && p.slot < slot && 0 < |p.validators|
    ensures PendingShaped(p) && p.header.slot < slot
    ensures var s := BeforeVotes(c, p, slot);
            IsOpen(ContextOf(s), TallyOf(s), i) ==>
              ((exists body :: ChainJustifiesUnbacked(c, genesis, blocks, p, slot, body, i))
               <==> Poolable(ContextOf(s), TallyOf(s), CountedOn(c, genesis, blocks), i))
  {
    ChainStatesAreGood(c, genesis, blocks, p);
    GoodSlots(p);
    var s, earlier := BeforeVotes(c, p, slot), CountedOn(c, genesis, blocks);
    HeaderSettles(c, p, NextBlock(c, p, slot, []));
    if IsOpen(ContextOf(s), TallyOf(s), i) {
      UnbackedIffPoolable(s, earlier, i);
      forall body
        ensures ChainJustifiesUnbacked(c, genesis, blocks, p, slot, body, i)
           <==> JustifiesUnbacked(ContextOf(s), TallyOf(s), earlier, body, i)
      {
        NextBlockJustifies(c, genesis, blocks, p, slot, body, i);
      }
    }
  }
}
