/** What each way of receiving votes does to the known and to the pending votes, one validator
    at a time. */
module VoteEffects {
  import opened Types
  import opened Voting
  import opened Transition
  import opened BlockTree
  import opened Ghost
  import opened StoreModel
  import opened StoreInvariant
  import opened Aggregation
  import opened StoreRuns
  import opened HeadElection

  // ----- One vote -----

  /** `sa` takes its place unless a vote at least as late is there; no other place changes. */
  ghost predicate Takes(before: Votes, sa: SignedAttestation, after: Votes) {
    var id := sa.validatorId;
    && after.Keys == before.Keys + {id}
    && after[id] == (if id in before && sa.message.slot <= before[id].message.slot then before[id] else sa)
    && forall other | other in before && other != id :: after[other] == before[other]
  }

  /** A vote that the store accepts from the network. */
  ghost predicate Acceptable(w: World, v: View, sa: SignedAttestation) {
    && DataValid(v.blocks, v.time, sa.message)
    && SignatureValid(w.c, w.Validators(), Attestation(sa.validatorId, sa.message), sa.signature)
    && sa.message.slot <= v.time / INTERVALS_PER_SLOT
  }

  lemma HeadValidators(w: World, v: View)
    requires Core(w, v)
    ensures v.head in v.states && v.states[v.head].validators == w.Validators()
  {
    assert EntryOk(w, v.blocks[v.head], v.states[v.head], v.head);
  }

  /** A network vote becomes pending exactly if it is acceptable and newer. */
  lemma GossipEffect(w: World, v: View, sa: SignedAttestation)
    requires Core(w, v)
    ensures var r := Gossip(w.c, v, sa);
            if Acceptable(w, v, sa) then r == v.(pending := r.pending) && Takes(v.pending, sa, r.pending) else r == v
  {
    HeadValidators(w, v);
    GossipUnderHead(w, v, sa);
  }

  lemma GossipUnderHead(w: World, v: View, sa: SignedAttestation)
    requires v.head in v.states && v.states[v.head].validators == w.Validators()
    ensures var r := Gossip(w.c, v, sa);
            if Acceptable(w, v, sa) then r == v.(pending := r.pending) && Takes(v.pending, sa, r.pending) else r == v
  {}

  /** Accepting: every pending vote overrides the known one, and none stays pending. */
  lemma AcceptEffect(v: View, id: nat)
    requires SlotsDecrease(v.blocks)
    ensures var r := Accept(v);
            && r == v.(known := r.known, pending := map[], head := r.head) && HeadCurrent(r)
            && (id in r.known <==> id in v.known || id in v.pending)
            && (id in r.known ==> r.known[id] == if id in v.pending then v.pending[id] else v.known[id])
  {}

  // ----- Aggregates -----

  /** The vote that the k-th set bit of an aggregate stands for. */
  function Part(data: AttestationData, bits: seq<bool>, signature: seq<Octet>, k: nat): SignedAttestation
    requires k < |Indices(bits)| && |signature| == |Indices(bits)| * SIGNATURE_SIZE
  {
    SignedAttestation(Indices(bits)[k], data, signature[k * SIGNATURE_SIZE..(k + 1) * SIGNATURE_SIZE])
  }

  ghost predicate Verifies(w: World, sa: SignedAttestation) {
    SignatureValid(w.c, w.Validators(), Attestation(sa.validatorId, sa.message), sa.signature)
  }

  /** This validator's place once the first n parts that verify have taken theirs. */
  ghost predicate PartPlace(w: World, before: Votes, parts: seq<SignedAttestation>, n: nat, id: nat, after: Votes)
    requires n <= |parts|
  {
    if Named(w, parts, n, id)
    then forall k: nat | k < n && parts[k].validatorId == id :: TakenPlace(before, parts[k], after)
    else SamePlace(before, id, after)
  }

  /** One of the first n parts is this validator's and verifies. */
  ghost predicate Named(w: World, parts: seq<SignedAttestation>, n: nat, id: nat)
    requires n <= |parts|
  {
    exists k: nat | k < n :: parts[k].validatorId == id && Verifies(w, parts[k])
  }

  ghost predicate TakenPlace(before: Votes, sa: SignedAttestation, after: Votes) {
    var id := sa.validatorId;
    && id in after
    && after[id] == if id in before && sa.message.slot <= before[id].message.slot then before[id] else sa
  }

  ghost predicate SamePlace(before: Votes, id: nat, after: Votes) {
    (id in after <==> id in before) && (id in before ==> after[id] == before[id])
  }

  /** All parts of an aggregate, in ascending order of validator. */
  function AllParts(data: AttestationData, bits: seq<bool>, signature: seq<Octet>): (r: seq<SignedAttestation>)
    requires |signature| == |Indices(bits)| * SIGNATURE_SIZE
    ensures |r| == |Indices(bits)| && forall k | 0 <= k < |r| :: r[k] == Part(data, bits, signature, k)
  {
    seq(|Indices(bits)|, k requires 0 <= k < |Indices(bits)| => Part(data, bits, signature, k))
  }

  lemma PartPlaceStep(w: World, before: Votes, parts: seq<SignedAttestation>, n: nat, id: nat, u: Votes, after: Votes)
    requires n < |parts| && PartPlace(w, before, parts, n, id, u)
    requires forall i, j | 0 <= i < j < |parts| :: parts[i].validatorId < parts[j].validatorId
    requires if Verifies(w, parts[n]) then Takes(u, parts[n], after) else after == u
    ensures PartPlace(w, before, parts, n + 1, id, after)
  {
    if parts[n].validatorId == id {
      assert !Named(w, parts, n, id);
    } else {
      assert Named(w, parts, n + 1, id) <==> Named(w, parts, n, id);
    }
  }

  /** `all` are the parts as votes, in ascending order of validator. */
  ghost predicate ListsParts(data: AttestationData, parts: Parts, all: seq<SignedAttestation>) {
    && |parts.ids| == |parts.signatures| == |all|
    && (forall k | 0 <= k < |all| :: all[k] == PartVote(data, parts, k))
    && (forall i, j | 0 <= i < j < |all| :: all[i].validatorId < all[j].validatorId)
  }

  lemma AllPartsListed(data: AttestationData, bits: seq<bool>, signature: seq<Octet>)
    requires |signature| == |Indices(bits)| * SIGNATURE_SIZE
    ensures ListsParts(data, Disaggregated(bits, signature).value, AllParts(data, bits, signature))
  {}

  lemma NewerTakes(before: Votes, sa: SignedAttestation)
    ensures Takes(before, sa, Newer(before, sa))
  {}

  lemma {:induction false} MergeEffect(w: World, slot: nat, pending: Votes, data: AttestationData, parts: Parts,
                                       all: seq<SignedAttestation>, n: nat, id: nat)
    requires ListsParts(data, parts, all) && n <= |all| && data.slot <= slot
    ensures PartPlace(w, pending, all, n, id, MergeParts(w.c, w.Validators(), slot, pending, data, parts, n))
  {
    if n > 0 {
      MergeEffect(w, slot, pending, data, parts, all, n - 1, id);
      var u := MergeParts(w.c, w.Validators(), slot, pending, data, parts, n - 1);
      assert all[n - 1] == PartVote(data, parts, n - 1);
      NewerTakes(u, all[n - 1]);
      PartPlaceStep(w, pending, all, n - 1, id, u, MergeParts(w.c, w.Validators(), slot, pending, data, parts, n));
    }
  }

  /** Each part of an aggregate that verifies has its effect, and no other place changes. */
  ghost predicate PartsTaken(w: World, before: Votes, parts: seq<SignedAttestation>, after: Votes) {
    forall id :: PartPlace(w, before, parts, |parts|, id, after)
  }

  lemma AllPartsTaken(w: World, v: View, data: AttestationData, bits: seq<bool>, signature: seq<Octet>)
    requires Inv(w, v) && |signature| == |Indices(bits)| * SIGNATURE_SIZE
    requires DataValid(v.blocks, v.time, data) && data.slot <= v.time / INTERVALS_PER_SLOT
    ensures PartsTaken(w, v.pending, AllParts(data, bits, signature),
                       ReceiveAggregate(w.c, v, data, bits, signature).pending)
  {
    AllPartsListed(data, bits, signature);
    var parts, all := Disaggregated(bits, signature).value, AllParts(data, bits, signature);
    HeadValidators(w, v);
    ValidDataMerges(w.c, v, data, parts, |all|);
    forall id
      ensures PartPlace(w, v.pending, all, |all|, id, GossipAll(w.c, v, data, parts, |all|).pending)
    {
      MergeEffect(w, v.time / INTERVALS_PER_SLOT, v.pending, data, parts, all, |all|, id);
    }
  }

  /** An aggregate whose lengths fit, with valid and timely data, has the effect of its parts that
      verify; any other changes nothing. */
  lemma AggregateEffect(w: World, v: View, data: AttestationData, bits: seq<bool>, signature: seq<Octet>)
    requires Inv(w, v)
    ensures var r := ReceiveAggregate(w.c, v, data, bits, signature);
            if && |signature| == |Indices(bits)| * SIGNATURE_SIZE
               && DataValid(v.blocks, v.time, data) && data.slot <= v.time / INTERVALS_PER_SLOT
            then
              && r == v.(pending := r.pending)
              && PartsTaken(w, v.pending, AllParts(data, bits, signature), r.pending)
            else r == v
  {
    if |signature| == |Indices(bits)| * SIGNATURE_SIZE {
      var parts := Disaggregated(bits, signature).value;
      if !DataValid(v.blocks, v.time, data) {
        InvalidDataChangesNothing(w.c, v, data, parts, |parts.ids|);
      } else if data.slot <= v.time / INTERVALS_PER_SLOT {
        AllPartsTaken(w, v, data, bits, signature);
        ReceiveAggregateFrame(w.c, v, data, bits, signature);
      } else {
        EarlyDataChangesNothing(w.c, v, data, parts, |parts.ids|);
      }
    }
  }

  lemma {:induction false} EarlyDataChangesNothing(c: Crypto, v: View, data: AttestationData, parts: Parts, n: nat)
    requires n <= |parts.ids| && n <= |parts.signatures| && v.time / INTERVALS_PER_SLOT < data.slot
    ensures GossipAll(c, v, data, parts, n) == v
  {
    if n > 0 {
      EarlyDataChangesNothing(c, v, data, parts, n - 1);
    }
  }

  // ----- Block bodies -----

  /** The i-th vote of the body is a valid one of this validator. */
  ghost predicate BodyHas(bs: Blocks, time: nat, e: Envelope, i: nat, id: nat)
    requires i < |e.block.body|
  {
    e.block.body[i].validatorId == id && DataValid(bs, time, e.block.body[i].data)
  }

  ghost predicate BodyHasOne(bs: Blocks, time: nat, e: Envelope, n: nat, id: nat)
    requires n <= |e.block.body|
  {
    exists i: nat | i < n :: BodyHas(bs, time, e, i, id)
  }

  /** What a validator's known vote is after the first n votes of a body: its old one or one of
      those, at least as late as each of them, and the old one unless a later one was there. */
  ghost predicate KnownPlace(bs: Blocks, time: nat, e: Envelope, n: nat, before: Votes, id: nat, after: Votes)
    requires n <= |e.block.body| && n <= |e.signatures|
  {
    && (id in after <==> id in before || BodyHasOne(bs, time, e, n, id))
    && (id in after ==>
          && ((id in before && after[id] == before[id])
              || exists i: nat | i < n :: BodyHas(bs, time, e, i, id) && after[id] == BodyVote(e, i))
          && (id in before && after[id] != before[id] ==> before[id].message.slot < after[id].message.slot)
          && forall i: nat | i < n && BodyHas(bs, time, e, i, id) ::
               e.block.body[i].data.slot <= after[id].message.slot)
  }

  /** A pending vote stays exactly if it is later than every valid vote of its validator there. */
  ghost predicate PendingPlace(bs: Blocks, time: nat, e: Envelope, n: nat, before: Votes, id: nat, after: Votes)
    requires n <= |e.block.body|
  {
    && (id in after
        <==> && id in before
             && forall i: nat | i < n && BodyHas(bs, time, e, i, id) ::
                  e.block.body[i].data.slot < before[id].message.slot)
    && (id in after ==> after[id] == before[id])
  }

  lemma KnownPlaceStep(v: View, u: View, e: Envelope, n: nat, id: nat)
    requires n < |e.block.body| && n < |e.signatures| && u == v.(known := u.known, pending := u.pending)
    requires KnownPlace(v.blocks, v.time, e, n, v.known, id, u.known)
    ensures KnownPlace(v.blocks, v.time, e, n + 1, v.known, id, OnChain(u, BodyVote(e, n)).known)
  {
    var r := OnChain(u, BodyVote(e, n)).known;
    if BodyHas(v.blocks, v.time, e, n, id) {
      assert BodyHasOne(v.blocks, v.time, e, n + 1, id);
    } else {
      assert SamePlace(u.known, id, r);
      assert BodyHasOne(v.blocks, v.time, e, n, id) <==> BodyHasOne(v.blocks, v.time, e, n + 1, id);
    }
  }

  lemma PendingPlaceStep(v: View, u: View, e: Envelope, n: nat, id: nat)
    requires n < |e.block.body| && n < |e.signatures| && u == v.(known := u.known, pending := u.pending)
    requires PendingPlace(v.blocks, v.time, e, n, v.pending, id, u.pending)
    ensures PendingPlace(v.blocks, v.time, e, n + 1, v.pending, id, OnChain(u, BodyVote(e, n)).pending)
  {
    if !BodyHas(v.blocks, v.time, e, n, id) {
      assert SamePlace(u.pending, id, OnChain(u, BodyVote(e, n)).pending);
    }
  }

  lemma {:induction false} BodyKnown(v: View, e: Envelope, n: nat, id: nat)
    requires n <= |e.block.body| && n <= |e.signatures|
    ensures KnownPlace(v.blocks, v.time, e, n, v.known, id, OnChainAll(v, e, n).known)
  {
    if n > 0 {
      BodyKnown(v, e, n - 1, id);
      OnChainAllKeeps(v, e, n - 1);
      KnownPlaceStep(v, OnChainAll(v, e, n - 1), e, n - 1, id);
    }
  }

  lemma {:induction false} BodyPending(v: View, e: Envelope, n: nat, id: nat)
    requires n <= |e.block.body| && n <= |e.signatures|
    ensures PendingPlace(v.blocks, v.time, e, n, v.pending, id, OnChainAll(v, e, n).pending)
  {
    if n > 0 {
      BodyPending(v, e, n - 1, id);
      OnChainAllKeeps(v, e, n - 1);
      PendingPlaceStep(v, OnChainAll(v, e, n - 1), e, n - 1, id);
    }
  }

  /** The pending votes that a body leaves. */
  ghost function Survivors(bs: Blocks, time: nat, e: Envelope, pending: Votes): Votes {
    map id | id in pending && OutlivesBody(bs, time, e, id, pending[id]) :: pending[id]
  }

  ghost predicate OutlivesBody(bs: Blocks, time: nat, e: Envelope, id: nat, sa: SignedAttestation) {
    forall i: nat | i < |e.block.body| && BodyHas(bs, time, e, i, id) :: e.block.body[i].data.slot < sa.message.slot
  }

  lemma BodyLeaves(v: View, e: Envelope)
    requires |e.block.body| <= |e.signatures|
    ensures OnChainAll(v, e, |e.block.body|).pending == Survivors(v.blocks, v.time, e, v.pending)
  {
    var r := OnChainAll(v, e, |e.block.body|).pending;
    forall id
      ensures id in r <==> id in Survivors(v.blocks, v.time, e, v.pending)
      ensures id in r ==> r[id] == v.pending[id]
    {
      BodyPending(v, e, |e.block.body|, id);
    }
  }

  // ----- Imports -----

  /** The votes after a body and the proposer's vote, which is pending like one from the network. */
  ghost predicate VotesImported(v: View, e: Envelope, r: View)
    requires |e.signatures| == SignaturesExpected(e)
  {
    var left := Survivors(r.blocks, r.time, e, v.pending);
    && (forall id :: KnownPlace(r.blocks, r.time, e, |e.block.body|, v.known, id, r.known))
    && if && e.proposerAttestation.Some? && DataValid(r.blocks, r.time, e.proposerAttestation.value.data)
          && e.proposerAttestation.value.data.slot <= r.time / INTERVALS_PER_SLOT
       then
         var a := e.proposerAttestation.value;
         Takes(left, SignedAttestation(a.validatorId, a.data, e.signatures[|e.block.body|]), r.pending)
       else r.pending == left
  }

  lemma BodyImported(v: View, e: Envelope)
    requires |e.signatures| == SignaturesExpected(e)
    ensures var r := OnChainAll(v, e, |e.block.body|);
            && r == v.(known := r.known, pending := r.pending)
            && r.pending == Survivors(v.blocks, v.time, e, v.pending)
            && forall id :: KnownPlace(v.blocks, v.time, e, |e.block.body|, v.known, id, r.known)
  {
    OnChainAllKeeps(v, e, |e.block.body|);
    BodyLeaves(v, e);
    forall id
      ensures KnownPlace(v.blocks, v.time, e, |e.block.body|, v.known, id, OnChainAll(v, e, |e.block.body|).known)
    {
      BodyKnown(v, e, |e.block.body|, id);
    }
  }

  lemma ProposerImported(w: World, v: View, e: Envelope)
    requires e.proposerAttestation.Some? && |e.signatures| == SignaturesExpected(e)
    requires v.head in v.states && v.states[v.head].validators == w.Validators()
    requires ProposerSigned(w.c, w.Validators(), e)
    ensures var r, a := Gossip(w.c, v, ProposerVote(e)), e.proposerAttestation.value;
            && r == v.(pending := r.pending)
            && if DataValid(v.blocks, v.time, a.data) && a.data.slot <= v.time / INTERVALS_PER_SLOT
               then Takes(v.pending, SignedAttestation(a.validatorId, a.data, e.signatures[|e.block.body|]), r.pending)
               else r.pending == v.pending
  {
    GossipUnderHead(w, v, ProposerVote(e));
  }

  lemma ImportVotes(w: World, v: View, e: Envelope, post: State)
    requires SlotsDecrease(v.blocks[BlockRoot(w.c, e.block) := e.block]) && |e.signatures| == SignaturesExpected(e)
    requires Core(w, ImportBlock(w.c, v, e, post)) && ProposerSigned(w.c, w.Validators(), e)
    ensures VotesImported(v, e, ImportBlock(w.c, v, e, post))
  {
    var v1 := FoldCheckpoints(PutBlock(v, BlockRoot(w.c, e.block), e, post), post);
    BodyImported(v1, e);
    var v3 := UpdateHead(OnChainAll(v1, e, |e.block.body|));
    HeadValidators(w, ImportBlock(w.c, v, e, post));
    if e.proposerAttestation.Some? {
      ProposerImported(w, v3, e);
    }
  }

  /** Everything that is asked of a block before it is imported. */
  ghost predicate Importable(w: World, v: View, e: Envelope) {
    var body := e.block.body;
    && BlockRoot(w.c, e.block) !in v.blocks
    && e.block.parentRoot in v.states
    && (exists post :: Transitions(w.c, v.states[e.block.parentRoot], e.block, post))
    && |e.signatures| == |body| + (if e.proposerAttestation.Some? then 1 else 0)
    && (forall i | 0 <= i < |body| :: SignatureValid(w.c, w.Validators(), body[i], e.signatures[i]))
    && (e.proposerAttestation.Some? ==>
          SignatureValid(w.c, w.Validators(), e.proposerAttestation.value, e.signatures[|body|]))
  }

  lemma ImportsIff(w: World, v: View, e: Envelope)
    requires Inv(w, v)
    ensures Imports(w, v, e) <==> Importable(w, v, e)
  {
    var parent := e.block.parentRoot;
    if BlockRoot(w.c, e.block) !in v.blocks && parent in v.states {
      InvIsShaped(w, v, parent);
      TransitionSucceedsIff(w.c, v.states[parent], e.block);
      SignaturesFit(w.c, w.Validators(), e);
    }
  }

  lemma TransitionSucceedsIff(c: Crypto, s: State, b: Block)
    requires PendingShaped(s)
    ensures StateTransition(c, s, b).Ok? <==> exists post :: Transitions(c, s, b, post)
  {
    if StateTransition(c, s, b).Ok? {
      TransitionIffRelation(c, s, b, StateTransition(c, s, b).value);
    }
    if post :| Transitions(c, s, b, post) {
      TransitionIffRelation(c, s, b, post);
    }
  }

  lemma SignaturesFit(c: Crypto, validators: seq<Validator>, e: Envelope)
    ensures SignatureError(c, validators, e).None?
       <==> && |e.signatures| == |e.block.body| + (if e.proposerAttestation.Some? then 1 else 0)
            && (forall i | 0 <= i < |e.block.body| :: SignatureValid(c, validators, e.block.body[i], e.signatures[i]))
            && (e.proposerAttestation.Some? ==>
                  SignatureValid(c, validators, e.proposerAttestation.value, e.signatures[|e.block.body|]))
  {}

  /** What importing a block stores. */
  ghost predicate Stored(w: World, v: View, e: Envelope, r: View) {
    var root := BlockRoot(w.c, e.block);
    && r.blocks == v.blocks[root := e.block] && r.signedBlocks == v.signedBlocks[root := e]
    && root in r.states && r.states == v.states[root := r.states[root]]
    && e.block.parentRoot in v.states && Transitions(w.c, v.states[e.block.parentRoot], e.block, r.states[root])
    && r.time == v.time && r.safeTarget == v.safeTarget
  }

  lemma ImportIsStored(w: World, v: View, e: Envelope, post: State)
    requires SlotsDecrease(v.blocks[BlockRoot(w.c, e.block) := e.block]) && |e.signatures| == SignaturesExpected(e)
    requires e.block.parentRoot in v.states && Transitions(w.c, v.states[e.block.parentRoot], e.block, post)
    ensures Stored(w, v, e, ImportBlock(w.c, v, e, post))
  {
    OnChainAllKeeps(FoldCheckpoints(PutBlock(v, BlockRoot(w.c, e.block), e, post), post), e, |e.block.body|);
  }

  /** Receiving a block: exactly if it is importable, it is stored with its state and envelope,
      the body's valid votes become known unless later ones are, superseded pending votes go,
      the head is elected with the votes that are then known, and the proposer's vote becomes
      pending. Otherwise nothing changes. */
  lemma ReceiveBlockEffect(w: World, v: View, e: Envelope)
    requires Inv(w, v)
    ensures var r := ReceiveBlock(w, v, e).view;
            if Importable(w, v, e)
            then && |e.signatures| == SignaturesExpected(e)
                 && Stored(w, v, e, r) && VotesImported(v, e, r) && HeadCurrent(r)
            else r == v
  {
    ImportsIff(w, v, e);
    if Importable(w, v, e) {
      var parent := e.block.parentRoot;
      InvIsShaped(w, v, parent);
      var post := StateTransition(w.c, v.states[parent], e.block).value;
      TransitionIffRelation(w.c, v.states[parent], e.block, post);
      NewBlockImports(w, v, e, post);
      ImportVotes(w, v, e, post);
      ImportIsStored(w, v, e, post);
      ImportElects(w.c, v, e, post);
    }
  }

  /** Why a block is refused, in the order of the checks. */
  lemma ReceiveBlockErrors(w: World, v: View, e: Envelope)
    requires Inv(w, v)
    ensures var error, parent := ReceiveBlock(w, v, e).error, e.block.parentRoot;
            if BlockRoot(w.c, e.block) in v.blocks then error.None?
            else if parent !in v.states then error == Some(ParentStateNotFound)
            else
              && PendingShaped(v.states[parent])
              && var t := StateTransition(w.c, v.states[parent], e.block);
                 if t.Err? then error == Some(t.error)
                 else if |e.signatures| != |e.block.body| + (if e.proposerAttestation.Some? then 1 else 0)
                 then error == Some(SignatureCountMismatch)
                 else error == if Importable(w, v, e) then None else Some(BadSignature)
  {
    ImportsIff(w, v, e);
    if e.block.parentRoot in v.states {
      InvIsShaped(w, v, e.block.parentRoot);
    }
  }
}
