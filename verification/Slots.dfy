/** The 3SF-mini rule that decides which slots may be justified. */
module Slots {

  const TWO_32: nat := 0x1_0000_0000
  const TWO_64: nat := 0x1_0000_0000_0000_0000

  function Square(k: nat): nat { k * k }

  function Pronic(k: nat): nat { k * (k + 1) }

  /** The rule itself: a distance of at most 5, a perfect square or a pronic number. */
  predicate Justifiable(delta: nat) {
    delta <= 5 || exists k | 0 <= k <= delta :: Square(k) == delta || Pronic(k) == delta
  }

  predicate IsJustifiableAfter(slot: nat, finalizedSlot: nat) {
    finalizedSlot <= slot && Justifiable(slot - finalizedSlot)
  }

  // ----- The uint64 code -----

  function Wrap(x: nat): (r: nat) { x % TWO_64 }

  /** `estimate` is the truncated floating-point square root of `n`. */
  function Isqrt(n: nat, estimate: nat): (r: nat) {
    if n == 0 then 0
    else if Wrap(Square(Wrap(estimate + 1))) <= n then Wrap(estimate + 1)
    else if Wrap(Square(estimate)) > n then estimate - 1
    else estimate
  }

  predicate IsJustifiableAfterUint64(slot: nat, finalizedSlot: nat, estimate: nat) {
    if slot < finalizedSlot then false
    else
      var delta := slot - finalizedSlot;
      if delta <= 5 then true
      else
        var s := Isqrt(delta, estimate);
        Wrap(Square(s)) == delta || Wrap(Pronic(s)) == delta
  }

  // ----- What the code computes -----

  ghost predicate IsFloorRoot(n: nat, r: nat) { Square(r) <= n < Square(r + 1) }

  ghost predicate WithinOne(estimate: nat, r: nat) { r - 1 <= estimate <= r + 1 }

  lemma SquareMonotone(a: nat, b: nat)
    requires a <= b
    ensures Square(a) <= Square(b)
  {
    assert Square(b) == Square(a) + (b - a) * (b + a);
  }

  /** Every number has a floor root, so the conditions below are never vacuous. */
  lemma {:induction false} FloorRootExists(n: nat) returns (r: nat)
    ensures IsFloorRoot(n, r)
  {
    if n == 0 {
      r := 0;
    } else {
      r := FloorRootExists(n - 1);
      if n == Square(r + 1) {
        r := r + 1;
        SquareMonotone(r, r + 1);
      }
    }
  }

  lemma FloorRootBound(n: nat, r: nat)
    requires n < TWO_64 && IsFloorRoot(n, r)
    ensures r < TWO_32
  {
    if TWO_32 <= r {
      SquareMonotone(TWO_32, r);
    }
  }

  /** A square or pronic number can only be the square or the pronic of its own floor root. */
  lemma JustifiableByFloorRoot(delta: nat, r: nat)
    requires 5 < delta && IsFloorRoot(delta, r)
    ensures Justifiable(delta) <==> delta == Square(r) || delta == Pronic(r)
  {
    forall k | 0 <= k <= delta && (Square(k) == delta || Pronic(k) == delta)
      ensures k == r
    {
      RootIsFloorRoot(delta, r, k);
    }
    RootAtMostSquare(r);
  }

  lemma RootAtMostSquare(r: nat)
    ensures r <= Square(r) <= Pronic(r)
  {}

  lemma SquareSucc(k: nat)
    ensures Pronic(k) == Square(k) + k && Square(k + 1) == Square(k) + 2 * k + 1
  {}

  lemma RootIsFloorRoot(delta: nat, r: nat, k: nat)
    requires IsFloorRoot(delta, r) && (Square(k) == delta || Pronic(k) == delta)
    ensures k == r
  {
    SquareSucc(k);
    if k < r {
      SquareMonotone(k + 1, r);
    } else if r < k {
      SquareMonotone(r + 1, k);
    }
  }

  lemma WrapSmall(x: nat)
    requires x < TWO_64
    ensures Wrap(x) == x
  {}

  /** The squares that fall outside 64 bits, and what is left of them. */
  lemma WrappedSquares()
    ensures Wrap(Square(TWO_32)) == 0 && Wrap(Square(TWO_32 + 1)) == 2 * TWO_32 + 1
    ensures Wrap(Pronic(TWO_32)) == TWO_32 && Wrap(Pronic(TWO_32 + 1)) == 3 * TWO_32 + 2
  {}

  /** One correction step turns an estimate that is off by at most one into the floor root,
      exactly when the square of the estimate's successor still fits 64 bits. */
  lemma IsqrtExact(n: nat, r: nat, estimate: nat)
    requires 0 < n < TWO_64 && IsFloorRoot(n, r) && WithinOne(estimate, r)
    ensures Isqrt(n, estimate) == r <==> estimate < TWO_32 - 1
    ensures TWO_32 - 1 <= estimate ==> Isqrt(n, estimate) == estimate + 1
  {
    FloorRootBound(n, r);
    WrapSmall(estimate + 1);
    if estimate < TWO_32 - 1 {
      SquareMonotone(estimate, TWO_32 - 1);
      SquareMonotone(estimate + 1, TWO_32 - 1);
      assert Square(TWO_32 - 1) < TWO_64;
      WrapSmall(Square(estimate));
      WrapSmall(Square(estimate + 1));
    } else {
      WrappedSquares();
      SquareMonotone(TWO_32 - 2, r);
      assert 2 * TWO_32 + 1 < Square(TWO_32 - 2);
    }
  }

  /** The code decides the rule for every distance and every estimate that is off by at most
      one, except exactly the squares and pronics whose estimate is at least 2^32 - 1: those
      it wrongly rejects. */
  lemma IsJustifiableAfterExact(slot: nat, finalizedSlot: nat, r: nat, estimate: nat)
    requires slot < TWO_64
    requires finalizedSlot <= slot ==> IsFloorRoot(slot - finalizedSlot, r) && WithinOne(estimate, r)
    ensures IsJustifiableAfterUint64(slot, finalizedSlot, estimate) == IsJustifiableAfter(slot, finalizedSlot)
       <==> slot < finalizedSlot || slot - finalizedSlot <= 5 || estimate < TWO_32 - 1
            || !IsJustifiableAfter(slot, finalizedSlot)
    ensures IsJustifiableAfterUint64(slot, finalizedSlot, estimate) ==> IsJustifiableAfter(slot, finalizedSlot)
  {
    if finalizedSlot <= slot && 5 < slot - finalizedSlot {
      var delta := slot - finalizedSlot;
      IsqrtExact(delta, r, estimate);
      JustifiableByFloorRoot(delta, r);
      FloorRootBound(delta, r);
      if estimate < TWO_32 - 1 {
        WrapSmall(Square(r));
        SquareMonotone(r, TWO_32 - 1);
        assert Pronic(r) == Square(r) + r;
        assert Square(TWO_32 - 1) + TWO_32 < TWO_64;
        WrapSmall(Pronic(r));
      } else {
        WrappedSquares();
        SquareMonotone(TWO_32 - 2, r);
        assert 3 * TWO_32 + 2 < Square(TWO_32 - 2);
      }
    }
  }

  /** The distances for which no estimate within one can mislead the code. */
  lemma SmallDistancesAreSafe(slot: nat, finalizedSlot: nat, r: nat, estimate: nat)
    requires finalizedSlot <= slot && slot - finalizedSlot < Square(TWO_32 - 2)
    requires IsFloorRoot(slot - finalizedSlot, r) && WithinOne(estimate, r)
    requires slot < TWO_64
    ensures IsJustifiableAfterUint64(slot, finalizedSlot, estimate) == IsJustifiableAfter(slot, finalizedSlot)
  {
    IsJustifiableAfterExact(slot, finalizedSlot, r, estimate);
    if TWO_32 - 2 <= r { SquareMonotone(TWO_32 - 2, r); }
  }

  /** A concrete square that the code rejects, with the exact floor root as estimate. */
  lemma LargestSquareRejected()
    ensures var delta := Square(TWO_32 - 1);
            && IsFloorRoot(delta, TWO_32 - 1)
            && IsJustifiableAfter(delta, 0)
            && !IsJustifiableAfterUint64(delta, 0, TWO_32 - 1)
  {
    var delta := Square(TWO_32 - 1);
    IsJustifiableAfterExact(delta, 0, TWO_32 - 1, TWO_32 - 1);
    JustifiableByFloorRoot(delta, TWO_32 - 1);
  }
}
