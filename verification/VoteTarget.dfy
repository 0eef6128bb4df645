/** Which block a validator votes for as target: a short look back, then the nearest block at
    a justifiable slot. */
module VoteTarget {
  import opened Types
  import opened Slots
  import opened BlockTree

  // ----- Looking back -----

  predicate AboveSafe(bs: Blocks, safe: Root, r: Root) {
    r in bs && safe in bs && bs[r].slot > bs[safe].slot
  }

  function Lookback(bs: Blocks, safe: Root, r: Root, steps: nat): Root {
    if steps == 0 then r
    else
      var prev := Lookback(bs, safe, r, steps - 1);
      if AboveSafe(bs, safe, prev) then bs[prev].parentRoot else prev
  }

  /** The k-th ancestor, as long as each one on the way is stored. */
  ghost predicate IsAncestor(bs: Blocks, r: Root, k: nat, a: Root)
    decreases k
  {
    if k == 0 then a == r
    else r in bs && IsAncestor(bs, bs[r].parentRoot, k - 1, a)
  }

  lemma {:induction false} AncestorExtends(bs: Blocks, r: Root, k: nat, a: Root)
    requires IsAncestor(bs, r, k, a) && a in bs
    ensures IsAncestor(bs, r, k + 1, bs[a].parentRoot)
    decreases k
  {
    if k > 0 {
      AncestorExtends(bs, bs[r].parentRoot, k - 1, a);
    }
  }

  lemma {:induction false} AncestorDescends(bs: Blocks, r: Root, k: nat, a: Root)
    requires SlotsDecrease(bs) && IsAncestor(bs, r, k, a)
    ensures Descends(bs, r, a)
    decreases k
  {
    if k > 0 {
      AncestorDescends(bs, bs[r].parentRoot, k - 1, a);
    }
  }

  lemma {:induction false} AncestorUnique(bs: Blocks, r: Root, k: nat, a: Root, b: Root)
    requires IsAncestor(bs, r, k, a) && IsAncestor(bs, r, k, b)
    ensures a == b
    decreases k
  {
    if k > 0 {
      AncestorUnique(bs, bs[r].parentRoot, k - 1, a, b);
    }
  }

  /** At most `steps` parents are taken, each from a block above the safe target, and fewer only
      because the safe target was reached. */
  lemma {:induction false} LookbackBound(bs: Blocks, safe: Root, r: Root, steps: nat) returns (k: nat)
    ensures k <= steps && IsAncestor(bs, r, k, Lookback(bs, safe, r, steps))
    ensures forall j: nat, x | j < k && IsAncestor(bs, r, j, x) :: x in bs && safe in bs && bs[safe].slot < bs[x].slot
    ensures k < steps ==> !AboveSafe(bs, safe, Lookback(bs, safe, r, steps))
  {
    if steps == 0 {
      k := 0;
    } else {
      k := LookbackBound(bs, safe, r, steps - 1);
      var prev := Lookback(bs, safe, r, steps - 1);
      if AboveSafe(bs, safe, prev) {
        AncestorExtends(bs, r, k, prev);
        forall x | IsAncestor(bs, r, k, x)
          ensures x == prev
        {
          AncestorUnique(bs, r, k, x, prev);
        }
        k := k + 1;
      }
    }
  }

  // ----- Skipping to a justifiable slot -----

  ghost predicate JustifiableBlock(bs: Blocks, finalizedSlot: nat, r: Root) {
    r in bs && IsJustifiableAfter(bs[r].slot, finalizedSlot)
  }

  /** Where the second loop stops: a justifiable block, or the first root that is not stored. */
  function SkipBack(bs: Blocks, finalizedSlot: nat, r: Root): Root
    requires SlotsDecrease(bs)
    decreases if r in bs then bs[r].slot + 1 else 0
  {
    if r !in bs || IsJustifiableAfter(bs[r].slot, finalizedSlot) then r
    else SkipBack(bs, finalizedSlot, bs[r].parentRoot)
  }

  /** The walk ends on the nearest justifiable ancestor: everything it passed is not
      justifiable, and if it ends on no block then no ancestor is justifiable. */
  lemma {:induction false} SkipBackIsNearest(bs: Blocks, finalizedSlot: nat, r: Root)
    requires SlotsDecrease(bs)
    ensures var t := SkipBack(bs, finalizedSlot, r);
            && Descends(bs, r, t)
            && (t in bs ==> JustifiableBlock(bs, finalizedSlot, t))
            && (forall x | x in bs && Descends(bs, r, x) && JustifiableBlock(bs, finalizedSlot, x) ::
                  t in bs && Descends(bs, t, x))
    decreases if r in bs then bs[r].slot + 1 else 0
  {
    if r in bs && !IsJustifiableAfter(bs[r].slot, finalizedSlot) {
      SkipBackIsNearest(bs, finalizedSlot, bs[r].parentRoot);
    }
  }

  ghost function TargetRoot(bs: Blocks, head: Root, safe: Root, finalizedSlot: nat): Root
    requires SlotsDecrease(bs)
  {
    SkipBack(bs, finalizedSlot, Lookback(bs, safe, head, JUSTIFICATION_LOOKBACK))
  }

  /** A target is found exactly when the lookback block has a stored justifiable ancestor or
      is one itself; it is then the nearest one, and an ancestor of the head. */
  lemma TargetFoundIff(bs: Blocks, head: Root, safe: Root, finalizedSlot: nat)
    requires SlotsDecrease(bs)
    ensures var start, t := Lookback(bs, safe, head, JUSTIFICATION_LOOKBACK), TargetRoot(bs, head, safe, finalizedSlot);
            && (t in bs <==> exists x :: JustifiableBlock(bs, finalizedSlot, x) && Descends(bs, start, x))
            && (t in bs ==> Descends(bs, head, t) && JustifiableBlock(bs, finalizedSlot, t))
            && (forall x | JustifiableBlock(bs, finalizedSlot, x) && Descends(bs, start, x) :: Descends(bs, t, x))
  {
    var start := Lookback(bs, safe, head, JUSTIFICATION_LOOKBACK);
    var k := LookbackBound(bs, safe, head, JUSTIFICATION_LOOKBACK);
    AncestorDescends(bs, head, k, start);
    SkipBackIsNearest(bs, finalizedSlot, start);
    DescendsTransitive(bs, head, start, TargetRoot(bs, head, safe, finalizedSlot));
  }

  /** In particular a block at the finalized slot, on the lookback block's chain, is enough. */
  lemma FinalizedAncestorSuffices(bs: Blocks, head: Root, safe: Root, finalizedSlot: nat, f: Root)
    requires SlotsDecrease(bs) && f in bs && bs[f].slot == finalizedSlot
    requires Descends(bs, Lookback(bs, safe, head, JUSTIFICATION_LOOKBACK), f)
    ensures TargetRoot(bs, head, safe, finalizedSlot) in bs
  {
    TargetFoundIff(bs, head, safe, finalizedSlot);
    assert JustifiableBlock(bs, finalizedSlot, f);
  }

  /** The two loops of getVoteTargetLocked. */
  method FindTarget(blocks: Blocks, head: Root, safe: Root, finalizedSlot: nat) returns (targetRoot: Root)
    requires SlotsDecrease(blocks)
    ensures targetRoot == TargetRoot(blocks, head, safe, finalizedSlot)
  {
    targetRoot := head;
    for i := 0 to JUSTIFICATION_LOOKBACK
      invariant targetRoot == Lookback(blocks, safe, head, i)
    {
      if targetRoot in blocks && safe in blocks && blocks[targetRoot].slot > blocks[safe].slot {
        targetRoot := blocks[targetRoot].parentRoot;
      }
    }
    ghost var goal := SkipBack(blocks, finalizedSlot, targetRoot);
    while targetRoot in blocks && !IsJustifiableAfter(blocks[targetRoot].slot, finalizedSlot)
      invariant SkipBack(blocks, finalizedSlot, targetRoot) == goal
      decreases if targetRoot in blocks then blocks[targetRoot].slot + 1 else 0
    {
      targetRoot := blocks[targetRoot].parentRoot;
    }
  }
}
