/** How a proposer collects votes: rounds until the post-state asks for nothing new. */
module Collection {
  import opened Types
  import opened Sets
  import opened Voting
  import opened Transition
  import opened BlockTree
  import opened Ghost
  import opened StoreModel

  /** A known vote worth including once `justified` is the post-state's justified checkpoint. */
  predicate Eligible(bs: Blocks, justified: Checkpoint, sa: SignedAttestation) {
    sa.message.head.root in bs && sa.message.source == justified
  }

  predicate ContainsAttestation(list: seq<Attestation>, a: Attestation) {
    exists i | 0 <= i < |list| :: list[i].validatorId == a.validatorId && list[i].data.slot == a.data.slot
  }

  ghost predicate Keyed(known: Votes) { forall id | id in known :: known[id].validatorId == id }

  /** Each collected vote is the known vote of its validator, and no validator appears twice. */
  ghost predicate Collected(known: Votes, atts: seq<Attestation>, signed: seq<SignedAttestation>) {
    && |atts| == |signed|
    && (forall i | 0 <= i < |signed| :: signed[i].validatorId in known && known[signed[i].validatorId] == signed[i])
    && (forall i | 0 <= i < |atts| :: atts[i] == Unsigned(signed[i]))
    && (forall i, j | 0 <= i < j < |atts| :: atts[i].validatorId != atts[j].validatorId)
  }

  /** Nothing eligible among `ids` is left out. */
  ghost predicate Complete(known: Votes, ids: set<nat>, bs: Blocks, justified: Checkpoint, atts: seq<Attestation>) {
    forall id | && id in ids && id in known
                && known[id].message.head.root in bs && known[id].message.source == justified ::
      Unsigned(known[id]) in atts
  }

  /** Every vote names a stored head and the given source. */
  ghost predicate AllFrom(bs: Blocks, justified: Checkpoint, signed: seq<SignedAttestation>) {
    forall i | 0 <= i < |signed| :: signed[i].message.head.root in bs && signed[i].message.source == justified
  }

  /** Among collected votes, the same validator and slot means the same vote. */
  lemma ContainsIffIncluded(known: Votes, atts: seq<Attestation>, signed: seq<SignedAttestation>, id: nat)
    requires Keyed(known) && Collected(known, atts, signed) && id in known
    ensures ContainsAttestation(atts, Unsigned(known[id])) <==> Unsigned(known[id]) in atts
    ensures (exists i | 0 <= i < |atts| :: atts[i].validatorId == id) ==> Unsigned(known[id]) in atts
  {
    forall i | 0 <= i < |atts| && atts[i].validatorId == id
      ensures atts[i] == Unsigned(known[id])
    {
      assert known[signed[i].validatorId] == signed[i];
    }
  }

  ghost function IdsIn(atts: seq<Attestation>): set<nat> { set i | 0 <= i < |atts| :: atts[i].validatorId }

  lemma {:induction false} IdsInSize(atts: seq<Attestation>)
    requires forall i, j | 0 <= i < j < |atts| :: atts[i].validatorId != atts[j].validatorId
    ensures |IdsIn(atts)| == |atts|
  {
    if atts != [] {
      var k := |atts| - 1;
      IdsInSize(atts[..k]);
      assert IdsIn(atts) == IdsIn(atts[..k]) + {atts[k].validatorId};
      assert atts[k].validatorId !in IdsIn(atts[..k]);
    }
  }

  lemma AtMostOnePerValidator(known: Votes, atts: seq<Attestation>, signed: seq<SignedAttestation>)
    requires Collected(known, atts, signed)
    ensures |atts| <= |known|
  {
    IdsInSize(atts);
    assert IdsIn(atts) <= known.Keys;
    SubsetSize(IdsIn(atts), known.Keys);
  }

  lemma IncludeKeeps(known: Votes, atts: seq<Attestation>, signed: seq<SignedAttestation>, id: nat)
    requires Keyed(known) && Collected(known, atts, signed) && id in known && Unsigned(known[id]) !in atts
    ensures Collected(known, atts + [Unsigned(known[id])], signed + [known[id]])
  {
    ContainsIffIncluded(known, atts, signed, id);
  }

  /** One round: visits the known votes in any order. */
  method CollectRound(known: Votes, blocks: Blocks, justified: Checkpoint,
                      atts: seq<Attestation>, ghost signed: seq<SignedAttestation>)
    returns (newAtts: seq<Attestation>, newSigned: seq<SignedAttestation>)
    requires Keyed(known) && Collected(known, atts, signed)
    ensures Collected(known, atts + newAtts, signed + newSigned)
    ensures Complete(known, known.Keys, blocks, justified, atts + newAtts)
    ensures |newAtts| == |newSigned| && AllFrom(blocks, justified, newSigned)
  {
    newAtts, newSigned := [], [];
    var ids := known.Keys;
    while ids != {}
      invariant ids <= known.Keys
      invariant Collected(known, atts + newAtts, signed + newSigned)
      invariant Complete(known, known.Keys - ids, blocks, justified, atts + newAtts)
      invariant |newAtts| == |newSigned| && AllFrom(blocks, justified, newSigned)
      invariant forall i | 0 <= i < |newAtts| :: newAtts[i].validatorId !in ids
      decreases ids
    {
      var id :| id in ids;
      var sa := known[id];
      ghost var before := atts + newAtts;
      if Eligible(blocks, justified, sa) && !ContainsAttestation(atts, Unsigned(sa)) {
        NotYetIncluded(known, atts, newAtts, signed, id);
        IncludeKeeps(known, before, signed + newSigned, id);
        newAtts := newAtts + [Unsigned(sa)];
        newSigned := newSigned + [sa];
        assert atts + newAtts == before + [Unsigned(sa)]
               && signed + newSigned == signed + newSigned[..|newSigned| - 1] + [sa];
      } else {
        ContainsIffIncluded(known, atts, signed, id);
      }
      ids := ids - {id};
    }
  }

  lemma NotYetIncluded(known: Votes, atts: seq<Attestation>, newAtts: seq<Attestation>, signed: seq<SignedAttestation>,
                       id: nat)
    requires Keyed(known) && Collected(known, atts, signed) && id in known
    requires !ContainsAttestation(atts, Unsigned(known[id]))
    requires forall i | 0 <= i < |newAtts| :: newAtts[i].validatorId != id
    ensures Unsigned(known[id]) !in atts + newAtts
  {
    ContainsIffIncluded(known, atts, signed, id);
  }

  // ----- The proposal -----

  datatype Proposal = Proposal(atts: seq<Attestation>, signed: seq<SignedAttestation>, post: State)

  function Candidate(slot: nat, proposer: nat, parent: Root, atts: seq<Attestation>): Block {
    Block(slot, proposer, parent, ZERO_HASH, atts)
  }

  /** The candidate with these votes passes, and leads to this justified checkpoint. */
  ghost predicate LeadsTo(c: Crypto, advanced: State, parent: Root, slot: nat, proposer: nat, atts: seq<Attestation>,
                          justified: Checkpoint)
    requires PendingShaped(advanced)
  {
    var post := ProcessBlock(c, advanced, Candidate(slot, proposer, parent, atts));
    post.Ok? && post.value.justified == justified
  }

  /** The i-th vote names a stored head, and its source is what some of the votes before it
      lead to. */
  ghost predicate SourcedAt(c: Crypto, bs: Blocks, advanced: State, parent: Root, slot: nat, proposer: nat,
                            atts: seq<Attestation>, i: nat)
    requires PendingShaped(advanced) && i < |atts|
  {
    && atts[i].data.head.root in bs
    && exists k: nat | k <= i :: LeadsTo(c, advanced, parent, slot, proposer, atts[..k], atts[i].data.source)
  }

  ghost predicate Sourced(c: Crypto, bs: Blocks, advanced: State, parent: Root, slot: nat, proposer: nat,
                          atts: seq<Attestation>)
    requires PendingShaped(advanced)
  {
    forall i: nat | i < |atts| :: SourcedAt(c, bs, advanced, parent, slot, proposer, atts, i)
  }

  lemma SourcedStays(c: Crypto, bs: Blocks, advanced: State, parent: Root, slot: nat, proposer: nat,
                     atts: seq<Attestation>, more: seq<Attestation>, i: nat)
    requires PendingShaped(advanced) && i < |atts| && SourcedAt(c, bs, advanced, parent, slot, proposer, atts, i)
    ensures SourcedAt(c, bs, advanced, parent, slot, proposer, atts + more, i)
  {
    var k: nat :| k <= i && LeadsTo(c, advanced, parent, slot, proposer, atts[..k], atts[i].data.source);
    assert (atts + more)[..k] == atts[..k];
  }

  lemma SourcedGrows(c: Crypto, bs: Blocks, advanced: State, parent: Root, slot: nat, proposer: nat,
                     atts: seq<Attestation>, more: seq<Attestation>, justified: Checkpoint)
    requires PendingShaped(advanced) && Sourced(c, bs, advanced, parent, slot, proposer, atts)
    requires LeadsTo(c, advanced, parent, slot, proposer, atts, justified)
    requires forall i | 0 <= i < |more| :: more[i].data.head.root in bs && more[i].data.source == justified
    ensures Sourced(c, bs, advanced, parent, slot, proposer, atts + more)
  {
    forall i: nat | i < |atts + more|
      ensures SourcedAt(c, bs, advanced, parent, slot, proposer, atts + more, i)
    {
      if i < |atts| {
        SourcedStays(c, bs, advanced, parent, slot, proposer, atts, more, i);
      } else {
        assert (atts + more)[..|atts|] == atts && (atts + more)[i] == more[i - |atts|];
      }
    }
  }

  lemma NewAttsAreFrom(known: Votes, atts: seq<Attestation>, signed: seq<SignedAttestation>, newAtts: seq<Attestation>,
                       newSigned: seq<SignedAttestation>, bs: Blocks, justified: Checkpoint)
    requires |atts| == |signed| && |newAtts| == |newSigned| && Collected(known, atts + newAtts, signed + newSigned)
    requires AllFrom(bs, justified, newSigned)
    ensures forall i | 0 <= i < |newAtts| :: newAtts[i].data.head.root in bs && newAtts[i].data.source == justified
  {
    forall i | 0 <= i < |newAtts|
      ensures newAtts[i] == Unsigned(newSigned[i])
    {
      assert (atts + newAtts)[|atts| + i] == newAtts[i] && (signed + newSigned)[|atts| + i] == newSigned[i];
    }
  }

  /** A fixed point of collection: the body holds each validator's known vote at most once,
      each with a source that votes before it lead to, and every known vote whose source the
      resulting post-state has justified is in it. */
  ghost predicate IsProposal(c: Crypto, known: Votes, bs: Blocks, advanced: State, parent: Root, slot: nat,
                             proposer: nat, p: Proposal) {
    && PendingShaped(advanced)
    && Collected(known, p.atts, p.signed)
    && ProcessBlock(c, advanced, Candidate(slot, proposer, parent, p.atts)) == Ok(p.post)
    && Complete(known, known.Keys, bs, p.post.justified, p.atts)
    && Sourced(c, bs, advanced, parent, slot, proposer, p.atts)
  }

  /** The fixed-point loop ends within one more round than there are known votes. */
  method CollectAttestations(c: Crypto, known: Votes, blocks: Blocks, advanced: State, parent: Root, slot: nat,
                             proposer: nat)
    returns (r: Result<Proposal>, ghost rounds: nat)
    requires PendingShaped(advanced) && Keyed(known)
    ensures r.Ok? ==> IsProposal(c, known, blocks, advanced, parent, slot, proposer, r.value)
    ensures r.Err? ==> exists atts :: ProcessBlock(c, advanced, Candidate(slot, proposer, parent, atts)) == Err(r.error)
    ensures rounds <= |known| + 1
  {
    var atts: seq<Attestation>, signed: seq<SignedAttestation> := [], [];
    rounds := 0;
    while true
      invariant Collected(known, atts, signed) && Sourced(c, blocks, advanced, parent, slot, proposer, atts)
      invariant rounds <= |atts| <= |known|
      decreases |known| - |atts|
    {
      rounds := rounds + 1;
      var post := ProcessBlock(c, advanced, Candidate(slot, proposer, parent, atts));
      if post.Err? {
        return Err(post.error), rounds;
      }
      var newAtts, newSigned := CollectRound(known, blocks, post.value.justified, atts, signed);
      if |newAtts| == 0 {
        assert atts + newAtts == atts;
        return Ok(Proposal(atts, signed, post.value)), rounds;
      }
      NewAttsAreFrom(known, atts, signed, newAtts, newSigned, blocks, post.value.justified);
      SourcedGrows(c, blocks, advanced, parent, slot, proposer, atts, newAtts, post.value.justified);
      atts := atts + newAtts;
      signed := signed + newSigned;
      AtMostOnePerValidator(known, atts, signed);
    }
  }
}
