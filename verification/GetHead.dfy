/** GetForkChoiceHead as the source runs it: maps visited in any order, parents walked one by
    one, candidates compared one by one. */
module GetHead {
  import opened Types
  import opened BlockTree
  import opened Ghost

  function WeightOf(weights: map<Root, nat>, r: Root): nat { if r in weights then weights[r] else 0 }

  // ----- Counting votes -----

  /** The blocks above the start slot that are `from` or an ancestor of it. */
  ghost predicate Counted(e: Election, from: Root, r: Root)
    requires SlotsDecrease(e.bs)
  {
    r in e.bs && e.rootSlot < e.bs[r].slot && Descends(e.bs, from, r)
  }

  lemma CountedStep(e: Election, from: Root)
    requires SlotsDecrease(e.bs) && from in e.bs && e.rootSlot < e.bs[from].slot
    ensures forall r :: Counted(e, from, r) <==> r == from || Counted(e, e.bs[from].parentRoot, r)
    ensures !Counted(e, e.bs[from].parentRoot, from)
  {
    var p := e.bs[from].parentRoot;
    if Descends(e.bs, p, from) && p != from {
      DescendantIsHigher(e.bs, p, from);
    }
  }

  lemma CountedEnds(e: Election, from: Root)
    requires SlotsDecrease(e.bs) && (from !in e.bs || e.bs[from].slot <= e.rootSlot)
    ensures forall r :: !Counted(e, from, r)
  {
    forall r
      ensures !Counted(e, from, r)
    {
      if Counted(e, from, r) {
        DescendantIsHigher(e.bs, from, r);
      }
    }
  }

  /** Adds one to every block from `headRoot` up to the start slot. */
  method WalkParents(ghost e: Election, blocks: Blocks, rootSlot: nat, headRoot: Root, weights: map<Root, nat>)
    returns (r: map<Root, nat>)
    requires e.bs == blocks && e.rootSlot == rootSlot && SlotsDecrease(blocks)
    ensures forall x :: WeightOf(r, x) == WeightOf(weights, x) + if Counted(e, headRoot, x) then 1 else 0
  {
    r := weights;
    var blockHash := headRoot;
    while blockHash in blocks && rootSlot < blocks[blockHash].slot
      invariant forall x :: Counted(e, blockHash, x) ==> Counted(e, headRoot, x)
      invariant forall x :: WeightOf(r, x) + (if Counted(e, blockHash, x) then 1 else 0)
                         == WeightOf(weights, x) + if Counted(e, headRoot, x) then 1 else 0
      decreases if blockHash in blocks then blocks[blockHash].slot + 1 else 0
    {
      CountedStep(e, blockHash);
      r := r[blockHash := WeightOf(r, blockHash) + 1];
      blockHash := blocks[blockHash].parentRoot;
    }
    CountedEnds(e, blockHash);
  }

  /** The voters among `ids` that count towards `r`. */
  ghost function Counting(e: Election, ids: set<nat>, r: Root): set<nat>
    requires SlotsDecrease(e.bs)
  {
    set v | v in ids && v in e.votes && HeadOf(e.votes, v) in e.bs && Counted(e, HeadOf(e.votes, v), r)
  }

  lemma CountingGrows(e: Election, ids: set<nat>, id: nat, r: Root)
    requires SlotsDecrease(e.bs) && id in e.votes && id !in ids
    ensures |Counting(e, ids + {id}, r)| == |Counting(e, ids, r)|
          + if HeadOf(e.votes, id) in e.bs && Counted(e, HeadOf(e.votes, id), r) then 1 else 0
  {
    var now, was := Counting(e, ids + {id}, r), Counting(e, ids, r);
    if HeadOf(e.votes, id) in e.bs && Counted(e, HeadOf(e.votes, id), r) {
      assert now == was + {id};
    } else {
      assert now == was;
    }
  }

  lemma CountingAll(e: Election, r: Root)
    requires SlotsDecrease(e.bs)
    ensures |Counting(e, e.votes.Keys, r)| == Score(e, r)
  {
    if r in e.bs && e.rootSlot < e.bs[r].slot {
      assert Counting(e, e.votes.Keys, r) == Supporters(e, r);
    } else {
      assert Counting(e, e.votes.Keys, r) == {};
    }
  }

  method CountVotes(ghost e: Election, blocks: Blocks, rootSlot: nat, votes: Votes)
    returns (weights: map<Root, nat>)
    requires e.bs == blocks && e.rootSlot == rootSlot && e.votes == votes && SlotsDecrease(blocks)
    ensures forall r :: WeightOf(weights, r) == Score(e, r)
  {
    weights := map[];
    var ids := votes.Keys;
    ghost var done: set<nat> := {};
    assert forall r :: Counting(e, done, r) == {};
    while ids != {}
      invariant ids <= votes.Keys && done == votes.Keys - ids
      invariant forall r :: WeightOf(weights, r) == |Counting(e, done, r)|
      decreases ids
    {
      var id :| id in ids;
      ids := ids - {id};
      forall r
        ensures |Counting(e, done + {id}, r)| == |Counting(e, done, r)|
              + if HeadOf(e.votes, id) in e.bs && Counted(e, HeadOf(e.votes, id), r) then 1 else 0
      {
        CountingGrows(e, done, id, r);
      }
      var headRoot := votes[id].message.head.root;
      if headRoot in blocks {
        weights := WalkParents(e, blocks, rootSlot, headRoot, weights);
      }
      done := done + {id};
    }
    assert done == votes.Keys;
    forall r
      ensures WeightOf(weights, r) == Score(e, r)
    {
      CountingAll(e, r);
    }
  }

  // ----- Children and the descent -----

  function Listed(children: map<Root, seq<Root>>, r: Root): seq<Root> { if r in children then children[r] else [] }

  /** The lists hold every candidate that is not still to be visited. */
  ghost predicate ListsCandidates(e: Election, children: map<Root, seq<Root>>, unvisited: set<Root>)
    requires SlotsDecrease(e.bs)
  {
    forall p: Root, c: Root :: c in Listed(children, p) <==> c in Candidates(e, p) - unvisited
  }

  function AddChild(children: map<Root, seq<Root>>, parent: Root, child: Root): map<Root, seq<Root>> {
    children[parent := Listed(children, parent) + [child]]
  }

  lemma VisitBlock(e: Election, children: map<Root, seq<Root>>, unvisited: set<Root>, h: Root)
    requires SlotsDecrease(e.bs) && ListsCandidates(e, children, unvisited) && h in unvisited && h in e.bs
    ensures ListsCandidates(e,
                            if Score(e, h) >= e.minScore then AddChild(children, e.bs[h].parentRoot, h) else children,
                            unvisited - {h})
  {
    var parent := e.bs[h].parentRoot;
    var next := if Score(e, h) >= e.minScore then AddChild(children, parent, h) else children;
    forall p: Root, c: Root
      ensures c in Listed(next, p) <==> c in Candidates(e, p) - (unvisited - {h})
    {
      assert c in Listed(children, p) <==> c in Candidates(e, p) - unvisited;
      assert c in Listed(next, p) <==> c in Listed(children, p) || (Score(e, h) >= e.minScore && p == parent && c == h);
    }
  }

  method BuildChildren(ghost e: Election, blocks: Blocks, weights: map<Root, nat>, minScore: int)
    returns (children: map<Root, seq<Root>>)
    requires e.bs == blocks && e.minScore == minScore && SlotsDecrease(blocks)
    requires forall r :: WeightOf(weights, r) == Score(e, r)
    ensures ListsCandidates(e, children, {})
  {
    children := map[];
    var hashes := blocks.Keys;
    assert forall p: Root :: Candidates(e, p) <= hashes;
    while hashes != {}
      invariant hashes <= blocks.Keys
      invariant ListsCandidates(e, children, hashes)
      decreases hashes
    {
      var blockHash :| blockHash in hashes;
      VisitBlock(e, children, hashes, blockHash);
      hashes := hashes - {blockHash};
      if WeightOf(weights, blockHash) >= minScore {
        children := AddChild(children, blocks[blockHash].parentRoot, blockHash);
      }
    }
  }

  method ChooseBest(ghost e: Election, blocks: Blocks, weights: map<Root, nat>, candidates: seq<Root>)
    returns (best: Root)
    requires e.bs == blocks && SlotsDecrease(blocks) && candidates != []
    requires forall r | r in candidates :: r in blocks
    requires forall r :: WeightOf(weights, r) == Score(e, r)
    ensures IsBest(e, (set r | r in candidates), best)
  {
    best := candidates[0];
    var bestWeight := WeightOf(weights, best);
    var bestSlot := blocks[best].slot;
    for i := 1 to |candidates|
      invariant best in candidates[..i] && bestWeight == Score(e, best) && bestSlot == blocks[best].slot
      invariant forall j :: 0 <= j < i ==> candidates[j] == best || Beats(e, best, candidates[j])
    {
      var c := candidates[i];
      var w := WeightOf(weights, c);
      var s := blocks[c].slot;
      if w > bestWeight || (w == bestWeight && s > bestSlot) || (w == bestWeight && s == bestSlot && c > best) {
        best, bestWeight, bestSlot := c, w, s;
      }
    }
  }

  method WalkDown(ghost e: Election, blocks: Blocks, weights: map<Root, nat>, children: map<Root, seq<Root>>,
                  root: Root)
    returns (head: Root)
    requires e.bs == blocks && SlotsDecrease(blocks) && root in blocks
    requires forall r :: WeightOf(weights, r) == Score(e, r)
    requires ListsCandidates(e, children, {})
    ensures head == Descend(e, root)
  {
    var current := root;
    while true
      invariant current in blocks && Descend(e, current) == Descend(e, root)
      decreases Above(blocks, blocks[current].slot)
    {
      var candidates := Listed(children, current);
      ghost var cs := Candidates(e, current);
      assert cs == (set r | r in candidates);
      if |candidates| == 0 {
        return current;
      }
      assert candidates[0] in cs;
      var best := ChooseBest(e, blocks, weights, candidates);
      BestUnique(e, cs, best, Best(e, cs));
      AboveShrinks(blocks, best, blocks[current].slot);
      current := best;
    }
  }

  // ----- The whole function -----

  /** `r` has the smallest slot of all stored blocks. */
  ghost predicate IsEarliest(blocks: Blocks, r: Root) {
    r in blocks && forall x | x in blocks :: blocks[r].slot <= blocks[x].slot
  }

  method Earliest(blocks: Blocks) returns (earliest: Root)
    ensures blocks == map[] ==> earliest == ZERO_HASH
    ensures blocks != map[] ==> IsEarliest(blocks, earliest)
  {
    earliest := ZERO_HASH;
    var minSlot: Option<nat> := None;
    var hashes := blocks.Keys;
    while hashes != {}
      invariant hashes <= blocks.Keys
      invariant minSlot.None? ==> hashes == blocks.Keys && earliest == ZERO_HASH
      invariant minSlot.Some? ==> earliest in blocks && minSlot.value == blocks[earliest].slot
      invariant minSlot.Some? ==> forall x | x in blocks.Keys - hashes :: minSlot.value <= blocks[x].slot
      decreases hashes
    {
      var h :| h in hashes;
      hashes := hashes - {h};
      if minSlot.None? || blocks[h].slot < minSlot.value {
        minSlot := Some(blocks[h].slot);
        earliest := h;
      }
    }
  }

  /** The election that starts at a stored block. */
  ghost function ElectionFrom(blocks: Blocks, root: Root, votes: Votes, minScore: int): Election
    requires root in blocks
  {
    Election(blocks, votes, blocks[root].slot, minScore)
  }

  ghost function HeadFrom(blocks: Blocks, root: Root, votes: Votes, minScore: int): Root
    requires SlotsDecrease(blocks)
  {
    if root in blocks then Descend(ElectionFrom(blocks, root, votes, minScore), root) else root
  }

  method GetForkChoiceHead(blocks: Blocks, root: Root, latestAttestations: Votes, minScore: int) returns (head: Root)
    requires SlotsDecrease(blocks)
    ensures root != ZERO_HASH ==> head == HeadFrom(blocks, root, latestAttestations, minScore)
    ensures root == ZERO_HASH && blocks != map[] ==>
              exists start | IsEarliest(blocks, start) :: head == HeadFrom(blocks, start, latestAttestations, minScore)
    ensures root == ZERO_HASH && blocks == map[] ==> head == ZERO_HASH
  {
    var start := root;
    if root == ZERO_HASH {
      start := Earliest(blocks);
    }
    if start !in blocks {
      return start;
    }
    ghost var e := ElectionFrom(blocks, start, latestAttestations, minScore);
    var rootSlot := blocks[start].slot;
    var weights := CountVotes(e, blocks, rootSlot, latestAttestations);
    var children := BuildChildren(e, blocks, weights, minScore);
    head := WalkDown(e, blocks, weights, children, start);
  }
}
