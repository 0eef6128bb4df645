/** What a validator's own vote does once it is counted: it supports the head, and the head
    stays the head. */
module OwnVotes {
  import opened Types
  import opened Sets
  import opened BlockTree
  import opened Ghost
  import opened GetHead
  import opened StoreModel
  import opened StoreInvariant
  import opened Production
  import opened HeadElection

  // ----- A vote for the head -----

  /** The same election with one vote cast or moved, to `head`. */
  ghost predicate VotesFor(e: Election, head: Root, id: nat, e': Election) {
    && SlotsDecrease(e.bs) && head in e.bs
    && id in e'.votes && HeadOf(e'.votes, id) == head
    && e' == e.(votes := e.votes[id := e'.votes[id]])
  }

  lemma AncestorsGain(e: Election, head: Root, id: nat, e': Election, x: Root)
    requires VotesFor(e, head, id, e') && Descends(e.bs, head, x)
    ensures id in Supporters(e', x) && Score(e, x) <= Score(e', x)
  {
    assert Supporters(e, x) <= Supporters(e', x);
    SubsetSize(Supporters(e, x), Supporters(e', x));
  }

  lemma OthersLose(e: Election, head: Root, id: nat, e': Election, x: Root)
    requires VotesFor(e, head, id, e') && !Descends(e.bs, head, x)
    ensures Score(e', x) <= Score(e, x)
  {
    assert Supporters(e', x) <= Supporters(e, x);
    SubsetSize(Supporters(e', x), Supporters(e, x));
  }

  lemma SameCandidates(e: Election, head: Root, id: nat, e': Election, r: Root)
    requires VotesFor(e, head, id, e') && e.minScore == 0
    ensures Candidates(e', r) == Candidates(e, r)
  {}

  lemma ParentIsStored(e: Election, root: Root, x: Root)
    requires SlotsDecrease(e.bs) && root in e.bs && x in e.bs && x != root && Descends(e.bs, x, root)
    ensures e.bs[x].parentRoot in e.bs
  {}

  lemma WinnersStay(e: Election, head: Root, id: nat, e': Election, root: Root, x: Root)
    requires VotesFor(e, head, id, e') && e.minScore == 0 && root in e.bs
    requires OnPath(e, root, x, head) && WinsAmongSiblings(e, x)
    ensures WinsAmongSiblings(e', x)
  {
    var cs := Candidates(e, e.bs[x].parentRoot);
    SameCandidates(e, head, id, e', e.bs[x].parentRoot);
    AncestorsGain(e, head, id, e', x);
    ParentIsStored(e, root, x);
    forall r | r in cs
      ensures r == x || Beats(e', x, r)
    {
      if r != x {
        assert Beats(e, x, r);
        if Descends(e.bs, head, r) {
          SiblingsAreUnrelated(e.bs, head, x, r);
        }
        OthersLose(e, head, id, e', r);
      }
    }
  }

  /** Casting or moving a vote to the head leaves the head where it is. */
  lemma VoteForHeadKeepsHead(e: Election, root: Root, head: Root, id: nat, e': Election)
    requires VotesFor(e, head, id, e') && e.minScore == 0 && root in e.bs && head == Descend(e, root)
    ensures Descend(e', root) == head
  {
    DescendIsHead(e, root);
    SameCandidates(e, head, id, e', head);
    forall x | OnPath(e', root, x, head)
      ensures WinsAmongSiblings(e', x)
    {
      assert OnPath(e, root, x, head);
      WinnersStay(e, head, id, e', root, x);
    }
    HeadUnique(e', root, head);
  }

  // ----- Own votes -----

  /** The store after the vote has been received and accepted. */
  ghost function Counted(c: Crypto, v: View, sa: SignedAttestation): View
    requires SlotsDecrease(v.blocks)
  {
    Accept(Gossip(c, v, sa))
  }

  /** A vote that a prepared store keeps and that names its head supports the head when it is
      accepted, and the head stays. */
  lemma VoteForHeadCounts(w: World, u: View, slot: nat, sa: SignedAttestation)
    requires Inv(w, u)
    requires var v := Prepare(u, slot); sa.message.head.root == v.head && Keeps(w.c, v, sa)
    ensures var v := Prepare(u, slot);
            var v', start := Counted(w.c, v, sa), StartOf(v.blocks, v.justified.root);
            && start in v'.blocks && v'.blocks == v.blocks
            && sa.validatorId in Supporters(ElectionFrom(v'.blocks, start, v'.known, 0), v.head)
            && v'.head == v.head
  {
    var v := Prepare(u, slot);
    PrepareKeeps(w, u, slot);
    PrepareElects(u, slot);
    StartIsStored(w, v);
    var v', start := Counted(w.c, v, sa), StartOf(v.blocks, v.justified.root);
    KeptIsCounted(w.c, v, sa);
    var e, e' := ElectionFrom(v.blocks, start, v.known, 0), ElectionFrom(v.blocks, start, v'.known, 0);
    AncestorsGain(e, v.head, sa.validatorId, e', v.head);
    VoteForHeadKeepsHead(e, start, v.head, sa.validatorId, e');
  }

  lemma KeptIsCounted(c: Crypto, v: View, sa: SignedAttestation)
    requires SlotsDecrease(v.blocks) && v.pending == map[] && Keeps(c, v, sa)
    ensures var v' := Counted(c, v, sa);
            && v'.known == v.known[sa.validatorId := sa] && v'.blocks == v.blocks && v'.justified == v.justified
            && v'.head == Elect(v.blocks, v.justified.root, v'.known, 0)
  {
    assert Gossip(c, v, sa).pending == map[sa.validatorId := sa];
  }
}
