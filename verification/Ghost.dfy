/** LMD-GHOST: what GetForkChoiceHead counts and which block it ends on. */
module Ghost {
  import opened Types
  import opened Sets
  import opened BlockTree

  type Votes = map<nat, SignedAttestation>

  /** The inputs of one election, once the start block is known. */
  datatype Election = Election(bs: Blocks, votes: Votes, rootSlot: nat, minScore: int)

  function HeadOf(votes: Votes, v: nat): Root
    requires v in votes
  {
    votes[v].message.head.root
  }

  // ----- Weights -----

  /** The voters whose head is `r` or a descendant of it. */
  ghost function Supporters(e: Election, r: Root): set<nat>
    requires SlotsDecrease(e.bs)
  {
    set v | v in e.votes && HeadOf(e.votes, v) in e.bs && Descends(e.bs, HeadOf(e.votes, v), r)
  }

  /** The weight of a block; blocks at or below the start slot are never counted. */
  ghost function Score(e: Election, r: Root): nat
    requires SlotsDecrease(e.bs)
  {
    if r in e.bs && e.rootSlot < e.bs[r].slot then |Supporters(e, r)| else 0
  }

  ghost function DirectVoters(e: Election, r: Root): set<nat> {
    set v | v in e.votes && HeadOf(e.votes, v) == r
  }

  ghost function ChildrenOf(e: Election, r: Root): set<Root> {
    set c | c in e.bs && e.bs[c].parentRoot == r
  }

  ghost function TotalScore(e: Election, rs: set<Root>): nat
    requires SlotsDecrease(e.bs)
  {
    if rs == {} then 0
    else
      var c :| c in rs;
      Score(e, c) + TotalScore(e, rs - {c})
  }

  ghost function SupportersOfAny(e: Election, rs: set<Root>): set<nat>
    requires SlotsDecrease(e.bs)
  {
    set v, c | c in rs && v in Supporters(e, c) :: v
  }

  lemma SiblingSupportDisjoint(e: Election, r: Root, c: Root, others: set<Root>)
    requires SlotsDecrease(e.bs) && r in e.bs && c in ChildrenOf(e, r) && others <= ChildrenOf(e, r) && c !in others
    ensures Supporters(e, c) !! SupportersOfAny(e, others)
  {
    forall v | v in Supporters(e, c)
      ensures v !in SupportersOfAny(e, others)
    {
      if v in SupportersOfAny(e, others) {
        var y :| y in others && v in Supporters(e, y);
        SiblingsAreUnrelated(e.bs, HeadOf(e.votes, v), c, y);
      }
    }
  }

  lemma SupportersOfAnySplit(e: Election, rs: set<Root>, c: Root)
    requires SlotsDecrease(e.bs) && c in rs
    ensures SupportersOfAny(e, rs) == Supporters(e, c) + SupportersOfAny(e, rs - {c})
  {
    forall v
      ensures v in SupportersOfAny(e, rs) <==> v in Supporters(e, c) || v in SupportersOfAny(e, rs - {c})
    {
      if v in SupportersOfAny(e, rs) && v !in Supporters(e, c) {
        var y :| y in rs && v in Supporters(e, y);
        assert y in rs - {c};
      }
    }
  }

  lemma {:induction false} SiblingSupportersAdd(e: Election, r: Root, rs: set<Root>)
    requires SlotsDecrease(e.bs) && r in e.bs && e.rootSlot < e.bs[r].slot && rs <= ChildrenOf(e, r)
    ensures |SupportersOfAny(e, rs)| == TotalScore(e, rs)
  {
    if rs == {} {
      assert SupportersOfAny(e, rs) == {};
    } else {
      var c :| c in rs && TotalScore(e, rs) == Score(e, c) + TotalScore(e, rs - {c});
      SiblingSupportersAdd(e, r, rs - {c});
      assert c in ChildrenOf(e, r);
      assert Score(e, c) == |Supporters(e, c)|;
      var one, rest := Supporters(e, c), SupportersOfAny(e, rs - {c});
      SupportersOfAnySplit(e, rs, c);
      SiblingSupportDisjoint(e, r, c, rs - {c});
    }
  }

  lemma SupportSplits(e: Election, r: Root)
    requires SlotsDecrease(e.bs) && r in e.bs
    ensures Supporters(e, r) == DirectVoters(e, r) + SupportersOfAny(e, ChildrenOf(e, r))
    ensures DirectVoters(e, r) !! SupportersOfAny(e, ChildrenOf(e, r))
  {
    forall v
      ensures v in Supporters(e, r) <==> v in DirectVoters(e, r) || v in SupportersOfAny(e, ChildrenOf(e, r))
      ensures !(v in DirectVoters(e, r) && v in SupportersOfAny(e, ChildrenOf(e, r)))
    {
      if v in Supporters(e, r) && v !in DirectVoters(e, r) {
        var c := FirstStep(e.bs, HeadOf(e.votes, v), r);
        assert c in ChildrenOf(e, r) && v in Supporters(e, c);
      }
      if v in SupportersOfAny(e, ChildrenOf(e, r)) {
        var c :| c in ChildrenOf(e, r) && v in Supporters(e, c);
        assert Descends(e.bs, c, r);
        DescendsTransitive(e.bs, HeadOf(e.votes, v), c, r);
        if HeadOf(e.votes, v) == r && r != c {
          DescendantIsHigher(e.bs, r, c);
        }
      }
    }
  }

  /** A block's weight is its direct votes plus the weights of all its children. */
  lemma ScoreIsDirectPlusChildren(e: Election, r: Root)
    requires SlotsDecrease(e.bs) && r in e.bs && e.rootSlot < e.bs[r].slot
    ensures Score(e, r) == |DirectVoters(e, r)| + TotalScore(e, ChildrenOf(e, r))
  {
    SupportSplits(e, r);
    SiblingSupportersAdd(e, r, ChildrenOf(e, r));
  }

  // ----- The descent -----

  /** The children that meet the minimum score. */
  ghost function Candidates(e: Election, r: Root): set<Root>
    requires SlotsDecrease(e.bs)
  {
    set c | c in e.bs && e.bs[c].parentRoot == r && Score(e, c) >= e.minScore
  }

  /** More votes; then the later slot; then the larger hash. */
  ghost predicate Beats(e: Election, a: Root, b: Root)
    requires SlotsDecrease(e.bs) && a in e.bs && b in e.bs
  {
    || Score(e, a) > Score(e, b)
    || (Score(e, a) == Score(e, b) && e.bs[a].slot > e.bs[b].slot)
    || (Score(e, a) == Score(e, b) && e.bs[a].slot == e.bs[b].slot && a > b)
  }

  ghost predicate IsBest(e: Election, rs: set<Root>, m: Root)
    requires SlotsDecrease(e.bs) && rs <= e.bs.Keys
  {
    m in rs && forall r | r in rs :: r == m || Beats(e, m, r)
  }

  lemma {:induction false} BestExists(e: Election, rs: set<Root>) returns (m: Root)
    requires SlotsDecrease(e.bs) && rs <= e.bs.Keys && rs != {}
    ensures IsBest(e, rs, m)
  {
    var x :| x in rs;
    var rest := rs - {x};
    assert rs == rest + {x};
    m := x;
    if rest != {} {
      var b := BestExists(e, rest);
      m := if Beats(e, b, x) then b else x;
      forall r | r in rest
        ensures r == m || Beats(e, m, r)
      {
        assert r == b || Beats(e, b, r);
      }
    }
  }

  /** The order is strict and total, so there is only one best candidate. */
  lemma BestUnique(e: Election, rs: set<Root>, m: Root, m': Root)
    requires SlotsDecrease(e.bs) && rs <= e.bs.Keys
    requires IsBest(e, rs, m) && IsBest(e, rs, m')
    ensures m == m'
  {}

  ghost function Best(e: Election, rs: set<Root>): (m: Root)
    requires SlotsDecrease(e.bs) && rs <= e.bs.Keys && rs != {}
    ensures IsBest(e, rs, m)
  {
    assert exists m :: IsBest(e, rs, m) by { var b := BestExists(e, rs); }
    var m :| IsBest(e, rs, m);
    m
  }

  ghost function Descend(e: Election, current: Root): (head: Root)
    requires SlotsDecrease(e.bs) && current in e.bs
    ensures head in e.bs
    decreases Above(e.bs, e.bs[current].slot)
  {
    var cs := Candidates(e, current);
    if cs == {} then current
    else
      AboveShrinks(e.bs, Best(e, cs), e.bs[current].slot);
      Descend(e, Best(e, cs))
  }

  // ----- What the head is, without running the descent -----

  ghost predicate OnPath(e: Election, from: Root, x: Root, to: Root)
    requires SlotsDecrease(e.bs)
  {
    x in e.bs && x != from && Descends(e.bs, x, from) && Descends(e.bs, to, x)
  }

  ghost predicate WinsAmongSiblings(e: Election, x: Root)
    requires SlotsDecrease(e.bs) && x in e.bs
  {
    IsBest(e, Candidates(e, e.bs[x].parentRoot), x)
  }

  /** `head` is below `root`, no child of it meets the minimum score, and every block on the
      way from `root` to it is the best candidate among its siblings. */
  ghost predicate IsHead(e: Election, root: Root, head: Root)
    requires SlotsDecrease(e.bs)
  {
    && head in e.bs && Descends(e.bs, head, root)
    && Candidates(e, head) == {}
    && forall x | OnPath(e, root, x, head) :: WinsAmongSiblings(e, x)
  }

  lemma PathThroughChild(e: Election, root: Root, child: Root, x: Root, head: Root)
    requires SlotsDecrease(e.bs) && root in e.bs && child in e.bs && e.bs[child].parentRoot == root
    requires Descends(e.bs, head, child) && OnPath(e, root, x, head)
    ensures x == child || OnPath(e, child, x, head)
  {
    AncestorsComparable(e.bs, head, x, child);
    if x != child && Descends(e.bs, child, x) {
      assert Descends(e.bs, root, x);
      DescendantIsHigher(e.bs, x, root);
      DescendantIsHigher(e.bs, root, x);
    }
  }

  lemma NothingBetweenSelf(e: Election, root: Root, x: Root)
    requires SlotsDecrease(e.bs) && root in e.bs
    ensures !OnPath(e, root, x, root)
  {
    if OnPath(e, root, x, root) {
      DescendantIsHigher(e.bs, x, root);
      DescendantIsHigher(e.bs, root, x);
    }
  }

  lemma {:induction false} DescendIsHead(e: Election, root: Root)
    requires SlotsDecrease(e.bs) && root in e.bs
    ensures IsHead(e, root, Descend(e, root))
    decreases Above(e.bs, e.bs[root].slot)
  {
    var head := Descend(e, root);
    var cs := Candidates(e, root);
    if cs == {} {
      forall x
        ensures !OnPath(e, root, x, root)
      {
        NothingBetweenSelf(e, root, x);
      }
    } else {
      var b := Best(e, cs);
      AboveShrinks(e.bs, b, e.bs[root].slot);
      DescendIsHead(e, b);
      assert Descends(e.bs, b, root);
      DescendsTransitive(e.bs, head, b, root);
      forall x | OnPath(e, root, x, head)
        ensures WinsAmongSiblings(e, x)
      {
        PathThroughChild(e, root, b, x, head);
      }
    }
  }

  /** On the way to the head no sibling that meets the minimum score has more votes; with as many
      votes none is at a later slot; and with the same slot none has a larger root. */
  lemma PathIsHeaviest(e: Election, root: Root, head: Root, x: Root, y: Root)
    requires SlotsDecrease(e.bs) && IsHead(e, root, head) && OnPath(e, root, x, head)
    requires y in e.bs && e.bs[y].parentRoot == e.bs[x].parentRoot && y != x && Score(e, y) >= e.minScore
    ensures Score(e, y) <= Score(e, x)
    ensures Score(e, y) == Score(e, x) ==> e.bs[y].slot <= e.bs[x].slot
    ensures Score(e, y) == Score(e, x) && e.bs[y].slot == e.bs[x].slot ==> y < x
  {
    SiblingIsCandidate(e, x, y);
    BestIsHeaviest(e, Candidates(e, e.bs[x].parentRoot), x, y);
  }

  lemma SiblingIsCandidate(e: Election, x: Root, y: Root)
    requires SlotsDecrease(e.bs) && x in e.bs && y in e.bs && e.bs[y].parentRoot == e.bs[x].parentRoot
    requires Score(e, y) >= e.minScore
    ensures y in Candidates(e, e.bs[x].parentRoot)
  {}

  lemma BestIsHeaviest(e: Election, rs: set<Root>, x: Root, y: Root)
    requires SlotsDecrease(e.bs) && rs <= e.bs.Keys && IsBest(e, rs, x) && y in rs && y != x
    ensures Score(e, y) <= Score(e, x)
    ensures Score(e, y) == Score(e, x) ==> e.bs[y].slot <= e.bs[x].slot
    ensures Score(e, y) == Score(e, x) && e.bs[y].slot == e.bs[x].slot ==> y < x
  {
    assert Beats(e, x, y);
  }

  /** There is exactly one head: the outcome does not depend on any iteration order. */
  lemma {:induction false} HeadUnique(e: Election, root: Root, head: Root)
    requires SlotsDecrease(e.bs) && root in e.bs && IsHead(e, root, head)
    ensures head == Descend(e, root)
    decreases Above(e.bs, e.bs[root].slot)
  {
    if head != root {
      var x := FirstStep(e.bs, head, root);
      assert Descends(e.bs, x, root);
      DescendantIsHigher(e.bs, x, root);
      assert OnPath(e, root, x, head);
      var cs := Candidates(e, root);
      BestUnique(e, cs, x, Best(e, cs));
      AboveShrinks(e.bs, x, e.bs[root].slot);
      forall y | OnPath(e, x, y, head)
        ensures WinsAmongSiblings(e, y)
      {
        DescendsTransitive(e.bs, y, x, root);
        DescendantIsHigher(e.bs, y, x);
        assert OnPath(e, root, y, head);
      }
      HeadUnique(e, x, head);
    }
  }

  // ----- The safe target -----

  function CeilDiv(a: nat, b: nat): nat
    requires 0 < b
  {
    (a + b - 1) / b
  }

  /** Meeting the rounded-up score is having two thirds. */
  lemma ThresholdIsTwoThirds(count: nat, n: nat)
    ensures count >= CeilDiv(2 * n, 3) <==> 3 * count >= 2 * n
    ensures 0 < n ==> n < 2 * CeilDiv(2 * n, 3)
  {}

  /** A proper descendant of the start block that meets the minimum score. */
  ghost predicate Qualifies(e: Election, root: Root, q: Root)
    requires SlotsDecrease(e.bs)
  {
    q in e.bs && q != root && Descends(e.bs, q, root) && Score(e, q) >= e.minScore
  }

  lemma AncestorsWeighMore(e: Election, q: Root, x: Root)
    requires SlotsDecrease(e.bs) && q in e.bs && x in e.bs && Descends(e.bs, q, x)
    requires e.rootSlot < e.bs[x].slot
    ensures Score(e, q) <= Score(e, x)
  {
    if q != x {
      DescendantIsHigher(e.bs, q, x);
    }
    forall v | v in Supporters(e, q)
      ensures v in Supporters(e, x)
    {
      DescendsTransitive(e.bs, HeadOf(e.votes, v), q, x);
    }
    SubsetSize(Supporters(e, q), Supporters(e, x));
  }

  lemma NoTwoQualifyingSiblings(e: Election, x: Root, y: Root)
    requires SlotsDecrease(e.bs) && |e.votes| < 2 * e.minScore
    requires x in e.bs && y in e.bs && e.bs[x].parentRoot == e.bs[y].parentRoot && e.bs[x].parentRoot in e.bs
    requires Score(e, x) >= e.minScore && Score(e, y) >= e.minScore
    ensures x == y
  {
    if x != y {
      var a, b := Supporters(e, x), Supporters(e, y);
      forall v | v in a
        ensures v !in b
      {
        if v in b {
          SiblingsAreUnrelated(e.bs, HeadOf(e.votes, v), x, y);
        }
      }
      assert a !! b;
      SubsetSize(a + b, e.votes.Keys);
    }
  }

  lemma {:induction false} DescendPassesQualifiers(e: Election, root: Root, q: Root)
    requires SlotsDecrease(e.bs) && root in e.bs && e.rootSlot <= e.bs[root].slot
    requires |e.votes| < 2 * e.minScore && Qualifies(e, root, q)
    ensures Descends(e.bs, Descend(e, root), q)
    decreases Above(e.bs, e.bs[root].slot)
  {
    var x := FirstStep(e.bs, q, root);
    AncestorsWeighMore(e, q, x);
    var cs := Candidates(e, root);
    assert x in cs;
    var b := Best(e, cs);
    NoTwoQualifyingSiblings(e, x, b);
    AboveShrinks(e.bs, x, e.bs[root].slot);
    if q == x {
      DescendIsHead(e, x);
    } else {
      DescendPassesQualifiers(e, x, q);
    }
  }

  /** The safe target: the start block or a block with two thirds of the votes, and every
      block below the start with two thirds of the votes is on the path to it. */
  lemma SafeTargetIsDeepest(e: Election, root: Root, n: nat)
    requires SlotsDecrease(e.bs) && root in e.bs && e.rootSlot == e.bs[root].slot
    requires 0 < n && |e.votes| <= n && e.minScore == CeilDiv(2 * n, 3)
    ensures var target := Descend(e, root);
            && (target == root || Qualifies(e, root, target))
            && (forall q | Qualifies(e, root, q) :: Descends(e.bs, target, q))
  {
    ThresholdIsTwoThirds(0, n);
    DescendIsHead(e, root);
    var target := Descend(e, root);
    assert target != root ==> OnPath(e, root, target, target);
    forall q | Qualifies(e, root, q)
      ensures Descends(e.bs, target, q)
    {
      DescendPassesQualifiers(e, root, q);
    }
  }

  /** So all blocks with two thirds of the votes lie on one path. */
  lemma QualifiersOnOnePath(e: Election, root: Root, n: nat, p: Root, q: Root)
    requires SlotsDecrease(e.bs) && root in e.bs && e.rootSlot == e.bs[root].slot
    requires 0 < n && |e.votes| <= n && e.minScore == CeilDiv(2 * n, 3)
    requires Qualifies(e, root, p) && Qualifies(e, root, q)
    ensures Descends(e.bs, p, q) || Descends(e.bs, q, p)
  {
    SafeTargetIsDeepest(e, root, n);
    AncestorsComparable(e.bs, Descend(e, root), p, q);
  }
}
