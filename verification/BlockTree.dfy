/** Stored blocks as a tree: ancestry through parent roots. */
module BlockTree {
  import opened Types

  type Blocks = map<Root, Block>

  /** A stored parent is at a strictly smaller slot. Every walk along parents ends because
      of this. */
  ghost predicate SlotsDecrease(bs: Blocks) {
    forall r {:trigger bs[r].parentRoot} | r in bs && bs[r].parentRoot in bs :: bs[bs[r].parentRoot].slot < bs[r].slot
  }

  /** `d` is `a`, or a stored block below it. */
  ghost predicate Descends(bs: Blocks, d: Root, a: Root)
    requires SlotsDecrease(bs)
    decreases if d in bs then bs[d].slot + 1 else 0
  {
    d == a || (d in bs && Descends(bs, bs[d].parentRoot, a))
  }

  lemma {:induction false} DescendsTransitive(bs: Blocks, d: Root, m: Root, a: Root)
    requires SlotsDecrease(bs) && Descends(bs, d, m) && Descends(bs, m, a)
    ensures Descends(bs, d, a)
    decreases if d in bs then bs[d].slot + 1 else 0
  {
    if d != m {
      DescendsTransitive(bs, bs[d].parentRoot, m, a);
    }
  }

  lemma {:induction false} DescendantIsHigher(bs: Blocks, d: Root, a: Root)
    requires SlotsDecrease(bs) && Descends(bs, d, a) && d != a && a in bs
    ensures d in bs && bs[a].slot < bs[d].slot
    decreases if d in bs then bs[d].slot + 1 else 0
  {
    var p := bs[d].parentRoot;
    if p != a {
      DescendantIsHigher(bs, p, a);
    }
  }

  /** Two ancestors of one block are on one path. */
  lemma {:induction false} AncestorsComparable(bs: Blocks, d: Root, a: Root, b: Root)
    requires SlotsDecrease(bs) && Descends(bs, d, a) && Descends(bs, d, b)
    ensures Descends(bs, a, b) || Descends(bs, b, a)
    decreases if d in bs then bs[d].slot + 1 else 0
  {
    if d != a && d != b {
      AncestorsComparable(bs, bs[d].parentRoot, a, b);
    }
  }

  /** A proper descendant of `a` is below exactly one child of `a`. */
  lemma {:induction false} FirstStep(bs: Blocks, d: Root, a: Root) returns (child: Root)
    requires SlotsDecrease(bs) && Descends(bs, d, a) && d != a
    ensures child in bs && bs[child].parentRoot == a && Descends(bs, d, child)
    decreases if d in bs then bs[d].slot + 1 else 0
  {
    var p := bs[d].parentRoot;
    if p == a {
      child := d;
    } else {
      child := FirstStep(bs, p, a);
    }
  }

  lemma SiblingsAreUnrelated(bs: Blocks, d: Root, x: Root, y: Root)
    requires SlotsDecrease(bs) && x in bs && y in bs && bs[x].parentRoot == bs[y].parentRoot && bs[x].parentRoot in bs
    requires Descends(bs, d, x) && Descends(bs, d, y)
    ensures x == y
  {
    AncestorsComparable(bs, d, x, y);
    if x != y {
      ChildNotBelowSibling(bs, x, y);
      ChildNotBelowSibling(bs, y, x);
    }
  }

  lemma ChildNotBelowSibling(bs: Blocks, x: Root, y: Root)
    requires SlotsDecrease(bs) && x in bs && y in bs && bs[x].parentRoot == bs[y].parentRoot && bs[x].parentRoot in bs
    requires x != y
    ensures !Descends(bs, x, y)
  {
    var p := bs[x].parentRoot;
    if Descends(bs, p, y) && p != y {
      DescendantIsHigher(bs, p, y);
    }
  }

  /** The stored blocks above a slot: what a walk towards the leaves can still visit. */
  ghost function Above(bs: Blocks, slot: nat): set<Root> { set r | r in bs && slot < bs[r].slot }

  lemma AboveShrinks(bs: Blocks, r: Root, slot: nat)
    requires r in bs && slot < bs[r].slot
    ensures Above(bs, bs[r].slot) < Above(bs, slot)
  {
    assert r in Above(bs, slot) && r !in Above(bs, bs[r].slot);
  }

  /** Adding a block that names a stored parent at a smaller slot changes no ancestry. */
  lemma {:induction false} DescendsInLargerTree(bs: Blocks, more: Blocks, d: Root, a: Root)
    requires SlotsDecrease(bs) && SlotsDecrease(more)
    requires forall r | r in bs :: r in more && more[r] == bs[r]
    requires Descends(bs, d, a)
    ensures Descends(more, d, a)
    decreases if d in bs then bs[d].slot + 1 else 0
  {
    if d != a {
      DescendsInLargerTree(bs, more, bs[d].parentRoot, a);
    }
  }
}
