/** What a proposer or a voter builds on top of the head. */
module Production {
  import opened Types
  import opened Slots
  import opened Voting
  import opened Transition
  import opened BlockTree
  import opened StoreModel
  import opened StoreInvariant
  import opened VoteTarget
  import opened Collection

  /** Advance to the slot and accept pending votes before proposing or voting. */
  ghost function Prepare(v: View, slot: nat): (r: View)
    requires SlotsDecrease(v.blocks)
    ensures SameChain(v, r) && v.time <= r.time
  {
    Accept(AdvanceTime(v, v.genesisTime + slot * SECONDS_PER_SLOT, true))
  }

  lemma PrepareKeeps(w: World, v: View, slot: nat)
    requires Inv(w, v)
    ensures Inv(w, Prepare(v, slot))
  {
    var time := v.genesisTime + slot * SECONDS_PER_SLOT;
    AdvanceTimeKeeps(w, v, time, true);
    AcceptRestores(w, AdvanceTime(v, time, true));
  }

  ghost function VoteTargetOf(c: Crypto, v: View): Result<Checkpoint>
    requires SlotsDecrease(v.blocks)
  {
    var t := TargetRoot(v.blocks, v.head, v.safeTarget, v.finalized.slot);
    if t in v.blocks then Ok(Checkpoint(BlockRoot(c, v.blocks[t]), v.blocks[t].slot)) else Err(VoteTargetNotFound)
  }

  /** The target: at most three parents back from the head, each from a block above the safe
      target; from there the nearest block at a slot that is justifiable after the finalized
      one. There is no target exactly if there is no such block. */
  lemma VoteTargetMeaning(w: World, v: View) returns (start: Root, k: nat)
    requires Inv(w, v)
    ensures k <= 3 && IsAncestor(v.blocks, v.head, k, start)
    ensures forall j: nat, x | j < k && IsAncestor(v.blocks, v.head, j, x) ::
              x in v.blocks && v.blocks[v.safeTarget].slot < v.blocks[x].slot
    ensures k < 3 ==> start in v.blocks ==> v.blocks[start].slot <= v.blocks[v.safeTarget].slot
    ensures match VoteTargetOf(w.c, v)
            case Ok(target) =>
              && target.root in v.blocks && v.blocks[target.root].slot == target.slot
              && Descends(v.blocks, start, target.root) && IsJustifiableAfter(target.slot, v.finalized.slot)
              && forall x | && x in v.blocks && Descends(v.blocks, start, x)
                            && IsJustifiableAfter(v.blocks[x].slot, v.finalized.slot) ::
                   Descends(v.blocks, target.root, x)
            case Err(error) =>
              && error == VoteTargetNotFound
              && forall x | x in v.blocks && Descends(v.blocks, start, x) ::
                   !IsJustifiableAfter(v.blocks[x].slot, v.finalized.slot)
  {
    start := Lookback(v.blocks, v.safeTarget, v.head, JUSTIFICATION_LOOKBACK);
    k := LookbackBound(v.blocks, v.safeTarget, v.head, JUSTIFICATION_LOOKBACK);
    SkipBackIsNearest(v.blocks, v.finalized.slot, start);
    var t := TargetRoot(v.blocks, v.head, v.safeTarget, v.finalized.slot);
    if t in v.blocks {
      assert EntryOk(w, v.blocks[t], v.states[t], t);
    }
  }

  function SignaturesOf(signed: seq<SignedAttestation>): (sigs: seq<Signature>)
    ensures |sigs| == |signed| && forall i | 0 <= i < |signed| :: sigs[i] == signed[i].signature
  {
    seq(|signed|, i requires 0 <= i < |signed| => signed[i].signature)
  }

  function ProposedBlock(c: Crypto, parent: Root, slot: nat, proposer: nat, p: Proposal): Block {
    Candidate(slot, proposer, parent, p.atts).(stateRoot := c.stateRoot(p.post))
  }

  /** The proposer's own vote: for its block as head, with the prepared target and source. */
  function ProposersVote(c: Crypto, parent: Root, justified: Checkpoint, slot: nat, proposer: nat, p: Proposal,
                         target: Checkpoint): Attestation {
    var block := ProposedBlock(c, parent, slot, proposer, p);
    Attestation(proposer, AttestationData(slot, Checkpoint(BlockRoot(c, block), slot), target, justified))
  }

  function ProposedEnvelope(c: Crypto, parent: Root, justified: Checkpoint, slot: nat, proposer: nat, p: Proposal,
                            target: Checkpoint, signature: Signature): Envelope {
    Envelope(ProposedBlock(c, parent, slot, proposer, p),
             Some(ProposersVote(c, parent, justified, slot, proposer, p, target)),
             SignaturesOf(p.signed) + [signature])
  }

  /** `p` is a fixed point of collection on top of the head of `v`. */
  ghost predicate ProposalFor(w: World, v: View, slot: nat, proposer: nat, p: Proposal) {
    && v.head in v.states && v.states[v.head].slot < slot
    && IsProposal(w.c, v.known, v.blocks, AdvanceSlots(w.c, v.states[v.head], slot), v.head, slot, proposer, p)
  }

  /** What a proposer builds passes the whole transition from its parent's stored state, with
      exactly the post-state it stores. */
  lemma ProposalTransitions(w: World, v: View, slot: nat, proposer: nat, p: Proposal)
    requires Inv(w, v) && ProposalFor(w, v, slot, proposer, p)
    ensures Transitions(w.c, v.states[v.head], ProposedBlock(w.c, v.head, slot, proposer, p), p.post)
  {
    var s := v.states[v.head];
    InvIsShaped(w, v, v.head);
    var b := Candidate(slot, proposer, v.head, p.atts);
    FillingStateRoot(w.c, s, b);
    TransitionIffRelation(w.c, s, ProposedBlock(w.c, v.head, slot, proposer, p), p.post);
  }

  /** One signature per body vote plus one, and each body signature verifies for the vote at
      its index. */
  lemma ProposalIsSigned(w: World, v: View, slot: nat, proposer: nat, p: Proposal, target: Checkpoint,
                         signature: Signature)
    requires Inv(w, v) && Collected(v.known, p.atts, p.signed)
    ensures BodySigned(w.c, w.Validators(),
                       ProposedEnvelope(w.c, v.head, v.justified, slot, proposer, p, target, signature))
  {
    forall i | 0 <= i < |p.atts|
      ensures SignatureValid(w.c, w.Validators(), p.atts[i], p.signed[i].signature)
    {
      var id := p.signed[i].validatorId;
      assert VoteOk(w, v.blocks, id, v.known[id], CurrentSlot(v.time) + 1);
    }
  }

  /** No different stored block has the root of the proposed one. */
  ghost predicate NoCollision(c: Crypto, bs: Blocks, b: Block) {
    BlockRoot(c, b) in bs ==> bs[BlockRoot(c, b)] == b
  }

  ghost function StoreProposal(c: Crypto, v: View, e: Envelope, post: State): View {
    PutBlock(v, BlockRoot(c, e.block), e, post)
  }

  lemma StoreProposalKeeps(w: World, v: View, slot: nat, proposer: nat, p: Proposal, target: Checkpoint,
                           signature: Signature)
    requires Inv(w, v) && ProposalFor(w, v, slot, proposer, p)
    requires NoCollision(w.c, v.blocks, ProposedBlock(w.c, v.head, slot, proposer, p))
    ensures var e := ProposedEnvelope(w.c, v.head, v.justified, slot, proposer, p, target, signature);
            Inv(w, StoreProposal(w.c, v, e, p.post))
  {
    ProposalTransitions(w, v, slot, proposer, p);
    ProposalIsSigned(w, v, slot, proposer, p, target, signature);
    PutBlockKeeps(w, v, ProposedEnvelope(w.c, v.head, v.justified, slot, proposer, p, target, signature), p.post);
  }

  /** The header of a candidate on top of the head always passes, whatever it collects. */
  lemma CandidatesProcess(w: World, v: View, slot: nat, proposer: nat, atts: seq<Attestation>)
    requires Inv(w, v) && v.states[v.head].slot < slot && IsProposer(proposer, slot, |w.Validators()|)
    ensures var advanced := AdvanceSlots(w.c, v.states[v.head], slot);
            PendingShaped(advanced) && ProcessBlock(w.c, advanced, Candidate(slot, proposer, v.head, atts)).Ok?
  {
    var s := v.states[v.head];
    assert EntryOk(w, v.blocks[v.head], s, v.head);
    AdvanceSlotsFillsOnce(w.c, s, slot);
    assert ProcessSlot(w.c, s).header == HeaderOf(w.c, v.blocks[v.head]);
  }

  // ----- Votes -----

  /** What a validator attests to once the store is prepared. */
  function OwnVote(v: View, slot: nat, target: Checkpoint): AttestationData
    requires v.head in v.blocks
  {
    AttestationData(slot, Checkpoint(v.head, v.blocks[v.head].slot), target, v.justified)
  }

  lemma PrepareReachesSlot(v: View, slot: nat)
    requires SlotsDecrease(v.blocks)
    ensures slot <= CurrentSlot(Prepare(v, slot).time)
    ensures var start := slot * INTERVALS_PER_SLOT;
            Prepare(v, slot).time == if v.time < start then start else v.time
  {}

  /** The lookback can leave the target below the justified checkpoint, and an empty slot can
      be the justified one: the data of a store's own vote is valid exactly if neither is so. */
  lemma OwnVoteIsValidIff(w: World, v: View, slot: nat, target: Checkpoint)
    requires Inv(w, v) && VoteTargetOf(w.c, v) == Ok(target) && slot <= CurrentSlot(v.time) + 1
    ensures DataValid(v.blocks, v.time, OwnVote(v, slot, target))
       <==> v.justified.root != ZERO_HASH && v.justified.slot <= target.slot
  {
    StorageIsTree(w, v.blocks, v.states);
    var t := TargetRoot(v.blocks, v.head, v.safeTarget, v.finalized.slot);
    assert EntryOk(w, v.blocks[t], v.states[t], t);
  }

  /** The store would keep this signed vote if it came from the network. */
  ghost predicate Keeps(c: Crypto, v: View, sa: SignedAttestation) {
    var pending := Gossip(c, v, sa).pending;
    sa.validatorId in pending && pending[sa.validatorId] == sa
  }

  /** A prepared store has no pending votes, so it keeps the vote it produces exactly if the
      vote is valid and its signature verifies. */
  lemma OwnVoteIsKeptIff(w: World, u: View, slot: nat, id: nat, target: Checkpoint, sig: Signature)
    requires Inv(w, u) && VoteTargetOf(w.c, Prepare(u, slot)) == Ok(target)
    ensures var v := Prepare(u, slot);
            && v.head in v.blocks
            && var sa := SignedAttestation(id, OwnVote(v, slot, target), sig);
               (Keeps(w.c, v, sa)
                <==> && SignatureValid(w.c, w.Validators(), Unsigned(sa), sig)
                     && v.justified.root != ZERO_HASH && v.justified.slot <= target.slot)
  {
    var v := Prepare(u, slot);
    PrepareKeeps(w, u, slot);
    PrepareReachesSlot(u, slot);
    OwnVoteIsValidIff(w, v, slot, target);
    assert EntryOk(w, v.blocks[v.head], v.states[v.head], v.head);
  }
}
