/** The fork-choice store as the source keeps it: one object whose public methods run one at
    a time, each a step of the model. */
module ForkChoice {
  import opened Types
  import opened Bitlist
  import opened Voting
  import opened BlockTree
  import opened Ghost
  import GetHead
  import Transition
  import StoreModel
  import opened Chain
  import opened StoreInvariant
  import opened Production
  import opened StoreRuns
  import HeadElection
  import Aggregation
  import VoteTarget
  import Collection

  /** A signer: asked for a signing slot and a message root, it may fail. */
  type Signer = (nat, Root) -> Option<Signature>

  /** With a unique earliest block, any earliest block is the start of the zero-hash election. */
  lemma EarliestIsStart(bs: Blocks, anchor: Root, start: Root)
    requires StoreModel.IsUniqueEarliest(bs, anchor) && GetHead.IsEarliest(bs, start)
    ensures StoreModel.StartOf(bs, ZERO_HASH) == start
  {}

  lemma InsertedBlockCore(w: World, v: StoreModel.View, e: Envelope, post: State)
    requires Inv(w, v) && Insertable(w, v, e.block, post) && StoreModel.BodySigned(w.c, w.Validators(), e)
    ensures Core(w, StoreModel.FoldCheckpoints(StoreModel.PutBlock(v, BlockRoot(w.c, e.block), e, post), post))
  {
    PutBlockKeeps(w, v, e, post);
    var p := e.block.parentRoot;
    assert EntryOk(w, v.blocks[p], v.states[p], p);
    TransitionKeepsGood(w.c, v.states[p], e.block, post);
    FoldCheckpointsKeeps(w, StoreModel.PutBlock(v, BlockRoot(w.c, e.block), e, post), BlockRoot(w.c, e.block));
  }

  lemma TicksStep(v: StoreModel.View, until: nat, hasProposal: bool)
    requires SlotsDecrease(v.blocks) && v.time < until
    ensures StoreModel.Ticks(v, until, hasProposal)
         == StoreModel.Ticks(StoreModel.Tick(v, hasProposal && v.time + 1 == until), until, hasProposal)
  {}

  lemma KnownIsKeyed(w: World, v: StoreModel.View)
    requires Core(w, v)
    ensures Collection.Keyed(v.known)
  {
    forall id | id in v.known
      ensures v.known[id].validatorId == id
    {
      assert VoteOk(w, v.blocks, id, v.known[id], StoreModel.CurrentSlot(v.time) + 1);
    }
  }

  class Store {
    const crypto: Crypto
    ghost const genesis: State

    var time: nat
    var genesisTime: nat
    var numValidators: nat
    var head: Root
    var safeTarget: Root
    var latestJustified: Checkpoint
    var latestFinalized: Checkpoint
    var blocks: Blocks
    var signedBlocks: map<Root, Envelope>
    var states: map<Root, State>
    var latestKnownAttestations: Votes
    var latestNewAttestations: Votes

    ghost function World(): World { StoreInvariant.World(crypto, genesis) }

    ghost function View(): StoreModel.View
      reads this
    {
      StoreModel.View(time, genesisTime, numValidators, head, safeTarget, latestJustified, latestFinalized,
                      blocks, signedBlocks, states, latestKnownAttestations, latestNewAttestations)
    }

    ghost predicate Valid()
      reads this
    {
      Inv(World(), View())
    }

    constructor (crypto: Crypto, anchorState: State, anchorBlock: Block)
      requires anchorBlock.stateRoot == crypto.stateRoot(anchorState)
      ensures this.crypto == crypto && genesis == anchorState
      ensures View() == StoreModel.NewView(crypto, anchorState, anchorBlock)
      ensures var root := BlockRoot(crypto, anchorBlock);
              && time == anchorBlock.slot * SECONDS_PER_SLOT && genesisTime == anchorState.genesisTime
              && numValidators == |anchorState.validators| && head == safeTarget == root
              && latestJustified == latestFinalized == Checkpoint(root, anchorBlock.slot)
              && blocks == map[root := anchorBlock] && states == map[root := anchorState]
              && signedBlocks == map[root := Envelope(anchorBlock, None, [])]
              && latestKnownAttestations == latestNewAttestations == map[]
      ensures World().Valid() && anchorBlock == World().AnchorBlock() ==> Valid()
    {
      this.crypto := crypto;
      this.genesis := anchorState;
      var anchorRoot := BlockRoot(crypto, anchorBlock);
      blocks := map[anchorRoot := anchorBlock];
      signedBlocks := map[anchorRoot := Envelope(anchorBlock, None, [])];
      states := map[anchorRoot := anchorState];
      time := anchorBlock.slot * SECONDS_PER_SLOT;
      genesisTime := anchorState.genesisTime;
      numValidators := |anchorState.validators|;
      head := anchorRoot;
      safeTarget := anchorRoot;
      latestJustified := Checkpoint(anchorRoot, anchorBlock.slot);
      latestFinalized := Checkpoint(anchorRoot, anchorBlock.slot);
      latestKnownAttestations := map[];
      latestNewAttestations := map[];
      new;
      if World().Valid() && anchorBlock == World().AnchorBlock() {
        NewStoreIsOk(World());
      }
    }

    // ----- Elections -----

    method ElectHead(votes: Votes, minScore: int) returns (r: Root)
      requires Core(World(), View())
      ensures r == StoreModel.Elect(blocks, latestJustified.root, votes, minScore)
    {
      r := GetHead.GetForkChoiceHead(blocks, latestJustified.root, votes, minScore);
      if latestJustified.root == ZERO_HASH {
        StorageIsTree(World(), blocks, states);
        ghost var start :| GetHead.IsEarliest(blocks, start) && r == GetHead.HeadFrom(blocks, start, votes, minScore);
        EarliestIsStart(blocks, World().Anchor(), start);
      }
    }

    method UpdateHeadLocked()
      requires Core(World(), View())
      modifies this
      ensures View() == StoreModel.UpdateHead(old(View())) && Valid()
    {
      UpdateHeadRestores(World(), View());
      head := ElectHead(latestKnownAttestations, 0);
    }

    method UpdateSafeTarget()
      requires Valid()
      modifies this
      ensures View() == StoreModel.UpdateSafeTarget(old(View())) && Valid()
    {
      UpdateSafeTargetKeeps(World(), View());
      var minScore := CeilDiv(numValidators * 2, 3);
      safeTarget := ElectHead(latestNewAttestations, minScore);
    }

    method AcceptNewAttestations()
      requires Core(World(), View())
      modifies this
      ensures View() == StoreModel.Accept(old(View())) && Valid()
    {
      AcceptRestores(World(), View());
      MergePending();
      head := ElectHead(latestKnownAttestations, 0);
    }

    /** Moves the pending votes over, one by one in any order. */
    method MergePending()
      requires Core(World(), View())
      modifies this
      ensures View() == old(View()).(known := old(latestKnownAttestations + latestNewAttestations), pending := map[])
      ensures Core(World(), View())
    {
      AcceptCore(World(), View());
      var merged := latestKnownAttestations;
      var ids := latestNewAttestations.Keys;
      while ids != {}
        invariant ids <= latestNewAttestations.Keys
        invariant forall id :: id in merged <==> id in latestKnownAttestations || id in latestNewAttestations.Keys - ids
        invariant forall id | id in merged :: merged[id] ==
                    if id in latestNewAttestations.Keys - ids
                    then latestNewAttestations[id] else latestKnownAttestations[id]
        decreases ids
      {
        var id :| id in ids;
        merged := merged[id := latestNewAttestations[id]];
        ids := ids - {id};
      }
      assert merged == latestKnownAttestations + latestNewAttestations;
      latestKnownAttestations := merged;
      latestNewAttestations := map[];
    }

    // ----- Time -----

    method RunInterval(hasProposal: bool)
      requires Valid()
      modifies this
      ensures View() == StoreModel.IntervalAction(old(View()), hasProposal) && Valid()
    {
      var currentInterval := time % INTERVALS_PER_SLOT;
      if currentInterval == 0 {
        if hasProposal {
          AcceptNewAttestations();
        }
      } else if currentInterval == 1 {
      } else if currentInterval == 2 {
        UpdateSafeTarget();
      } else {
        AcceptNewAttestations();
      }
    }

    method TickInterval(hasProposal: bool)
      requires Valid()
      modifies this
      ensures View() == StoreModel.Tick(old(View()), hasProposal) && Valid()
    {
      ClockKeeps(World(), View(), time + 1);
      time := time + 1;
      assert View() == old(View()).(time := time);
      RunInterval(hasProposal);
    }

    method AdvanceTime(now: nat, hasProposal: bool)
      requires Valid()
      modifies this
      ensures View() == StoreModel.AdvanceTime(old(View()), now, hasProposal) && Valid()
    {
      if now <= genesisTime {
        return;
      }
      var tickInterval := (now - genesisTime) / SECONDS_PER_INTERVAL;
      TickTo(tickInterval, hasProposal);
    }

    method TickTo(tickInterval: nat, hasProposal: bool)
      requires Valid()
      modifies this
      ensures View() == StoreModel.Ticks(old(View()), tickInterval, hasProposal) && Valid()
    {
      ghost var v := View();
      while time < tickInterval
        invariant Valid() && View() == v
        invariant StoreModel.Ticks(v, tickInterval, hasProposal)
                  == StoreModel.Ticks(old(View()), tickInterval, hasProposal)
        decreases tickInterval - time
      {
        var shouldSignal := hasProposal && time + 1 == tickInterval;
        TickInterval(shouldSignal);
        TicksStep(v, tickInterval, hasProposal);
        v := StoreModel.Tick(v, shouldSignal);
      }
    }

    /** The call to the installed clock, if there is one, that opens each network operation. */
    method ConsultClock(now: Option<nat>)
      requires Valid()
      modifies this
      ensures View() == StoreModel.Now(old(View()), now) && Valid()
    {
      if now.Some? {
        AdvanceTime(now.value, false);
      }
    }

    // ----- Votes -----

    /** validateAttestationData: true if no reason for rejection is found. */
    method ValidateAttestationData(data: AttestationData) returns (ok: bool)
      ensures ok == StoreModel.DataValid(blocks, time, data)
      ensures var source, target := data.source, data.target;
              ok <==> && source.root in blocks && target.root in blocks && data.head.root in blocks
                      && blocks[source.root].slot == source.slot <= target.slot == blocks[target.root].slot
                      && data.slot <= time / INTERVALS_PER_SLOT + 1
    {
      if data.source.root !in blocks || data.target.root !in blocks || data.head.root !in blocks {
        return false;
      }
      var sourceBlock, targetBlock := blocks[data.source.root], blocks[data.target.root];
      if sourceBlock.slot > targetBlock.slot || data.source.slot > data.target.slot {
        return false;
      }
      if sourceBlock.slot != data.source.slot || targetBlock.slot != data.target.slot {
        return false;
      }
      return data.slot <= time / INTERVALS_PER_SLOT + 1;
    }

    method ProcessGossipLocked(sa: SignedAttestation)
      requires Valid()
      modifies this
      ensures View() == StoreModel.Gossip(crypto, old(View()), sa) && Valid()
    {
      GossipKeeps(World(), View(), sa);
      var ok := ValidateAttestationData(sa.message);
      if !ok {
        return;
      }
      if head !in states || !SignatureValid(crypto, states[head].validators, StoreModel.Unsigned(sa), sa.signature) {
        return;
      }
      if sa.message.slot > time / INTERVALS_PER_SLOT {
        return;
      }
      if sa.validatorId !in latestNewAttestations
        || latestNewAttestations[sa.validatorId].message.slot < sa.message.slot {
        latestNewAttestations := latestNewAttestations[sa.validatorId := sa];
      }
    }

    method ProcessOnChainLocked(sa: SignedAttestation)
      modifies this
      ensures View() == StoreModel.OnChain(old(View()), sa)
    {
      var ok := ValidateAttestationData(sa.message);
      if !ok {
        return;
      }
      var id := sa.validatorId;
      if id !in latestKnownAttestations || latestKnownAttestations[id].message.slot < sa.message.slot {
        latestKnownAttestations := latestKnownAttestations[id := sa];
      }
      if id in latestNewAttestations && latestNewAttestations[id].message.slot <= sa.message.slot {
        latestNewAttestations := latestNewAttestations - {id};
      }
    }

    method ProcessAttestation(now: Option<nat>, sa: SignedAttestation)
      requires Valid()
      modifies this
      ensures Step(World(), old(View()), VoteEvent(now, sa), View()) && Valid()
    {
      ConsultClock(now);
      ProcessGossipLocked(sa);
    }

    method ProcessAggregatedAttestation(now: Option<nat>, agg: Aggregation.AggregatedAttestation)
      requires Valid()
      modifies this
      ensures Step(World(), old(View()), AggregateEvent(now, agg.data, Bits(agg.bits[..]), agg.signature), View())
      ensures Valid()
    {
      ConsultClock(now);
      var ok := ValidateAttestationData(agg.data);
      var r := Aggregation.DisaggregateAttestation(agg);
      if r.Err? {
        return;
      }
      if !ok {
        InvalidDataChangesNothing(crypto, View(), agg.data, r.value, |r.value.ids|);
        return;
      }
      CountParts(agg.data, r.value);
    }

    method CountParts(data: AttestationData, parts: Aggregation.Parts)
      requires Valid() && StoreModel.DataValid(blocks, time, data) && |parts.ids| == |parts.signatures|
      modifies this
      ensures View() == GossipAll(crypto, old(View()), data, parts, |parts.ids|) && Valid()
    {
      GossipAllKeeps(World(), View(), data, parts, |parts.ids|);
      ValidDataMerges(crypto, View(), data, parts, |parts.ids|);
      latestNewAttestations := MergeInto(states[head].validators, time / INTERVALS_PER_SLOT, latestNewAttestations,
                                         data, parts);
    }

    method MergeInto(validators: seq<Validator>, currentSlot: nat, pending: Votes, data: AttestationData,
                     parts: Aggregation.Parts)
      returns (r: Votes)
      requires |parts.ids| == |parts.signatures|
      ensures r == MergeParts(crypto, validators, currentSlot, pending, data, parts, |parts.ids|)
    {
      r := pending;
      for i := 0 to |parts.ids|
        invariant r == MergeParts(crypto, validators, currentSlot, pending, data, parts, i)
      {
        var valId := parts.ids[i];
        var sa := Aggregation.PartVote(data, parts, i);
        if SignatureValid(crypto, validators, StoreModel.Unsigned(sa), sa.signature) && data.slot <= currentSlot {
          if valId !in r || r[valId].message.slot < data.slot {
            r := r[valId := sa];
          }
        }
      }
    }

    // ----- Blocks -----

    method CheckSignatures(validators: seq<Validator>, e: Envelope) returns (error: Option<Error>)
      ensures error == SignatureError(crypto, validators, e)
      ensures var expected := |e.block.body| + if e.proposerAttestation.Some? then 1 else 0;
              if |e.signatures| != expected then error == Some(SignatureCountMismatch)
              else
                error == if && (forall i | 0 <= i < |e.block.body| ::
                                  SignatureValid(crypto, validators, e.block.body[i], e.signatures[i]))
                            && (e.proposerAttestation.Some? ==>
                                  SignatureValid(crypto, validators, e.proposerAttestation.value,
                                                 e.signatures[|e.block.body|]))
                         then None else Some(BadSignature)
    {
      var numBodyAtts := |e.block.body|;
      if e.proposerAttestation.Some? {
        if |e.signatures| != numBodyAtts + 1 {
          return Some(SignatureCountMismatch);
        }
      } else if |e.signatures| != numBodyAtts {
        return Some(SignatureCountMismatch);
      }
      for i := 0 to numBodyAtts
        invariant forall j | 0 <= j < i :: SignatureValid(crypto, validators, e.block.body[j], e.signatures[j])
      {
        if !SignatureValid(crypto, validators, e.block.body[i], e.signatures[i]) {
          return Some(BadSignature);
        }
      }
      if e.proposerAttestation.Some? {
        if !SignatureValid(crypto, validators, e.proposerAttestation.value, e.signatures[numBodyAtts]) {
          return Some(BadSignature);
        }
      }
      return None;
    }

    method PutBlock(root: Root, e: Envelope, post: State)
      modifies this
      ensures View() == StoreModel.PutBlock(old(View()), root, e, post)
    {
      blocks := blocks[root := e.block];
      signedBlocks := signedBlocks[root := e];
      states := states[root := post];
    }

    method FoldCheckpoints(post: State)
      modifies this
      ensures View() == StoreModel.FoldCheckpoints(old(View()), post)
    {
      if post.justified.slot > latestJustified.slot {
        latestJustified := post.justified;
      }
      if post.finalized.slot > latestFinalized.slot {
        latestFinalized := post.finalized;
      }
    }

    method ProcessBodyVotes(e: Envelope)
      requires |e.block.body| <= |e.signatures|
      modifies this
      ensures View() == StoreModel.OnChainAll(old(View()), e, |e.block.body|)
    {
      ghost var v := View();
      for i := 0 to |e.block.body|
        invariant View() == StoreModel.OnChainAll(v, e, i)
      {
        ProcessOnChainLocked(StoreModel.BodyVote(e, i));
      }
    }

    method ImportLocked(e: Envelope, post: State)
      requires Valid() && Insertable(World(), View(), e.block, post)
      requires StoreModel.BodySigned(crypto, genesis.validators, e)
      modifies this
      ensures SlotsDecrease(old(blocks)[BlockRoot(crypto, e.block) := e.block])
      ensures View() == StoreModel.ImportBlock(crypto, old(View()), e, post) && Valid()
    {
      ghost var v := View();
      ImportBlockKeeps(World(), v, e, post);
      InsertedBlockCore(World(), v, e, post);
      PutBlock(BlockRoot(crypto, e.block), e, post);
      FoldCheckpoints(post);
      OnChainAllKeepsCore(World(), View(), e, |e.block.body|);
      ProcessBodyVotes(e);
      UpdateHeadLocked();
      if e.proposerAttestation.Some? {
        ProcessGossipLocked(StoreModel.ProposerVote(e));
      }
    }

    method ProcessBlock(now: Option<nat>, e: Envelope) returns (error: Option<Error>)
      requires Valid()
      modifies this
      ensures Inv(World(), StoreModel.Now(old(View()), now))
      ensures Outcome(View(), error) == ReceiveBlock(World(), StoreModel.Now(old(View()), now), e)
      ensures Valid()
    {
      ConsultClock(now);
      var block := e.block;
      var blockHash := BlockRoot(crypto, block);
      if blockHash in blocks {
        return None;
      }
      if block.parentRoot !in states {
        return Some(ParentStateNotFound);
      }
      var parentState := states[block.parentRoot];
      InvIsShaped(World(), View(), block.parentRoot);
      var result := Transition.StateTransition(crypto, parentState, block);
      if result.Err? {
        return Some(result.error);
      }
      error := CheckSignatures(parentState.validators, e);
      if error.None? {
        Transition.TransitionIffRelation(crypto, parentState, block, result.value);
        ImportLocked(e, result.value);
      }
    }

    // ----- Production -----

    method PrepareLocked(slot: nat)
      requires Valid()
      modifies this
      ensures View() == Prepare(old(View()), slot) && Valid()
    {
      var slotTime := genesisTime + slot * SECONDS_PER_SLOT;
      AdvanceTime(slotTime, true);
      AcceptNewAttestations();
    }

    method GetProposalHead(slot: nat) returns (r: Root)
      requires Valid()
      modifies this
      ensures Step(World(), old(View()), PrepareEvent(slot), View()) && Valid()
      ensures r == head && r in states
    {
      PrepareLocked(slot);
      r := head;
    }

    method GetVoteTarget() returns (r: Result<Checkpoint>)
      requires Valid()
      ensures r == VoteTargetOf(crypto, View())
    {
      var targetRoot := VoteTarget.FindTarget(blocks, head, safeTarget, latestFinalized.slot);
      if targetRoot !in blocks {
        return Err(VoteTargetNotFound);
      }
      var block := blocks[targetRoot];
      return Ok(Checkpoint(BlockRoot(crypto, block), block.slot));
    }

    method ProduceAttestation(slot: nat, validatorIndex: nat, sign: Signer) returns (r: Result<SignedAttestation>)
      requires Valid()
      modifies this
      ensures View() == Prepare(old(View()), slot) && Valid() && HeadElection.HeadCurrent(View())
      ensures match VoteTargetOf(crypto, View())
              case Err(error) => r == Err(error)
              case Ok(target) =>
                var headVote := Checkpoint(head, blocks[head].slot);
                var vote := Attestation(validatorIndex, AttestationData(slot, headVote, target, latestJustified));
                match sign(SigningSlot(slot), crypto.attestationRoot(vote))
                case None => r == Err(SigningFailed)
                case Some(sig) => r == Ok(SignedAttestation(validatorIndex, vote.data, sig))
      ensures r.Ok? ==> (StoreModel.DataValid(blocks, time, r.value.message)
                         <==> latestJustified.root != ZERO_HASH && latestJustified.slot <= r.value.message.target.slot)
      ensures r.Ok? ==> (Keeps(crypto, View(), r.value)
                         <==> && SignatureValid(crypto, genesis.validators, StoreModel.Unsigned(r.value),
                                                r.value.signature)
                              && StoreModel.DataValid(blocks, time, r.value.message))
    {
      ghost var v := View();
      PrepareReachesSlot(v, slot);
      HeadElection.PrepareElects(v, slot);
      PrepareLocked(slot);
      var headCheckpoint := Checkpoint(head, blocks[head].slot);
      var target := GetVoteTarget();
      if target.Err? {
        return Err(target.error);
      }
      OwnVoteIsValidIff(World(), View(), slot, target.value);
      var data := AttestationData(slot, headCheckpoint, target.value, latestJustified);
      var messageRoot := crypto.attestationRoot(Attestation(validatorIndex, data));
      var sig := sign(SigningSlot(slot), messageRoot);
      if sig.None? {
        return Err(SigningFailed);
      }
      OwnVoteIsKeptIff(World(), v, slot, validatorIndex, target.value, sig.value);
      return Ok(SignedAttestation(validatorIndex, data, sig.value));
    }

    /** Collection on top of the current head. */
    method Propose(slot: nat, validatorIndex: nat) returns (r: Result<Collection.Proposal>)
      requires Valid() && IsProposer(validatorIndex, slot, |genesis.validators|)
      ensures r.Ok? <==> states[head].slot < slot
      ensures r.Ok? ==> ProposalFor(World(), View(), slot, validatorIndex, r.value)
      ensures r.Err? ==> r.error == SlotNotAfterState
    {
      var headState := states[head];
      if headState.slot >= slot {
        return Err(SlotNotAfterState);
      }
      CandidatesProcess(World(), View(), slot, validatorIndex, []);
      forall atts
        ensures var advanced := Transition.AdvanceSlots(crypto, headState, slot);
                && PendingShaped(advanced)
                && Transition.ProcessBlock(crypto, advanced, Collection.Candidate(slot, validatorIndex, head, atts)).Ok?
      {
        CandidatesProcess(World(), View(), slot, validatorIndex, atts);
      }
      KnownIsKeyed(World(), View());
      var advanced := Transition.AdvanceSlots(crypto, headState, slot);
      ghost var rounds;
      r, rounds := Collection.CollectAttestations(crypto, latestKnownAttestations, blocks, advanced, head, slot,
                                                  validatorIndex);
    }

    /** The signature list: body signatures in order, the proposer's last. */
    method BuildEnvelope(slot: nat, validatorIndex: nat, p: Collection.Proposal, target: Checkpoint, sign: Signer)
      returns (r: Result<Envelope>)
      ensures match SignedVote(View(), slot, validatorIndex, p, target, sign)
              case None => r == Err(SigningFailed)
              case Some(sig) =>
                r == Ok(ProposedEnvelope(crypto, head, latestJustified, slot, validatorIndex, p, target, sig))
    {
      var block := ProposedBlock(crypto, head, slot, validatorIndex, p);
      var blockHash := BlockRoot(crypto, block);
      var data := AttestationData(slot, Checkpoint(blockHash, slot), target, latestJustified);
      var proposerAtt := Attestation(validatorIndex, data);
      var sigs := SignaturesOf(p.signed);
      var sig := sign(SigningSlot(slot), crypto.attestationRoot(proposerAtt));
      if sig.None? {
        return Err(SigningFailed);
      }
      return Ok(Envelope(block, Some(proposerAtt), sigs + [sig.value]));
    }

    /** What the signer answers when it is asked for the proposer's vote. */
    ghost function SignedVote(v0: StoreModel.View, slot: nat, validatorIndex: nat, p: Collection.Proposal,
                              target: Checkpoint, sign: Signer): Option<Signature>
    {
      var block := ProposedBlock(crypto, v0.head, slot, validatorIndex, p);
      var data := AttestationData(slot, Checkpoint(BlockRoot(crypto, block), slot), target, v0.justified);
      sign(SigningSlot(slot), crypto.attestationRoot(Attestation(validatorIndex, data)))
    }

    /** What ProduceBlock returned and stored. */
    ghost predicate Produced(v0: StoreModel.View, slot: nat, validatorIndex: nat, sign: Signer, p: Collection.Proposal,
                             e: Envelope)
      reads this
      requires SlotsDecrease(v0.blocks)
    {
      && ProposalFor(World(), v0, slot, validatorIndex, p)
      && VoteTargetOf(crypto, v0).Ok?
      && var target := VoteTargetOf(crypto, v0).value;
         var sig := SignedVote(v0, slot, validatorIndex, p, target, sign);
         && sig.Some?
         && e == ProposedEnvelope(crypto, v0.head, v0.justified, slot, validatorIndex, p, target, sig.value)
         && View() == StoreProposal(crypto, v0, e, p.post)
         && Carries(v0, slot, validatorIndex, p, target, sig.value, e)
    }

    /** The envelope and the new storage, field by field. */
    ghost predicate Carries(v0: StoreModel.View, slot: nat, validatorIndex: nat, p: Collection.Proposal,
                            target: Checkpoint, sig: Signature, e: Envelope)
      reads this
    {
      var root := BlockRoot(crypto, e.block);
      && e.block == Block(slot, validatorIndex, v0.head, crypto.stateRoot(p.post), p.atts)
      && e.proposerAttestation
         == Some(Attestation(validatorIndex, AttestationData(slot, Checkpoint(root, slot), target, v0.justified)))
      && |e.signatures| == |p.signed| + 1 && e.signatures[|p.signed|] == sig
      && (forall i | 0 <= i < |p.signed| :: e.signatures[i] == p.signed[i].signature)
      && blocks == v0.blocks[root := e.block] && signedBlocks == v0.signedBlocks[root := e]
      && states == v0.states[root := p.post]
    }

    /** The only ways for ProduceBlock to fail on a prepared store. */
    ghost predicate FailsWith(v0: StoreModel.View, slot: nat, validatorIndex: nat, sign: Signer,
                              p: Collection.Proposal, error: Error)
      requires SlotsDecrease(v0.blocks)
    {
      match error
      case SlotNotAfterState => v0.head in v0.states && slot <= v0.states[v0.head].slot
      case VoteTargetNotFound => VoteTargetOf(crypto, v0).Err?
      case SigningFailed =>
        && ProposalFor(World(), v0, slot, validatorIndex, p)
        && VoteTargetOf(crypto, v0).Ok?
        && SignedVote(v0, slot, validatorIndex, p, VoteTargetOf(crypto, v0).value, sign).None?
      case _ => false
    }

    /** Production on top of a head that is already prepared. */
    method ProduceOnHead(slot: nat, validatorIndex: nat, sign: Signer)
      returns (r: Result<Envelope>, ghost p: Collection.Proposal)
      requires Valid() && IsProposer(validatorIndex, slot, |genesis.validators|)
      modifies this
      ensures r.Ok? ==> Produced(old(View()), slot, validatorIndex, sign, p, r.value)
      ensures r.Err? ==> View() == old(View()) && FailsWith(View(), slot, validatorIndex, sign, p, r.error)
      ensures r.Ok? && NoCollision(crypto, old(blocks), r.value.block) ==> Valid()
    {
      p := Collection.Proposal([], [], genesis);
      var proposal := Propose(slot, validatorIndex);
      if proposal.Err? {
        return Err(proposal.error), p;
      }
      p := proposal.value;
      var target := GetVoteTarget();
      if target.Err? {
        return Err(target.error), p;
      }
      r := BuildEnvelope(slot, validatorIndex, proposal.value, target.value, sign);
      if r.Err? {
        return;
      }
      if NoCollision(crypto, blocks, r.value.block) {
        StoreProposalKeeps(World(), View(), slot, validatorIndex, p, target.value,
                           SignedVote(View(), slot, validatorIndex, p, target.value, sign).value);
      }
      PutBlock(BlockRoot(crypto, r.value.block), r.value, proposal.value.post);
    }

    method ProduceBlock(slot: nat, validatorIndex: nat, sign: Signer)
      returns (r: Result<Envelope>, ghost p: Collection.Proposal)
      requires Valid()
      modifies this
      ensures !IsProposer(validatorIndex, slot, |genesis.validators|) ==> r == Err(NotProposer) && View() == old(View())
      ensures IsProposer(validatorIndex, slot, |genesis.validators|) ==>
                var v0 := Prepare(old(View()), slot);
                if r.Ok? then Produced(v0, slot, validatorIndex, sign, p, r.value)
                else View() == v0 && FailsWith(v0, slot, validatorIndex, sign, p, r.error)
      ensures r.Err? ==> Valid()
      ensures r.Ok? && NoCollision(crypto, old(blocks), r.value.block) ==> Valid()
    {
      p := Collection.Proposal([], [], genesis);
      if !IsProposer(validatorIndex, slot, numValidators) {
        return Err(NotProposer), p;
      }
      PrepareLocked(slot);
      r, p := ProduceOnHead(slot, validatorIndex, sign);
    }
  }

  /** What ProduceBlock returns and stores is a step of a run. */
  lemma ProducedIsStep(store: Store, v: StoreModel.View, slot: nat, validatorIndex: nat, sign: Signer,
                       p: Collection.Proposal, e: Envelope)
    requires Inv(store.World(), v)
    requires store.Produced(Prepare(v, slot), slot, validatorIndex, sign, p, e)
    ensures exists target, sig ::
            Step(store.World(), v, ProduceEvent(slot, validatorIndex, p, target, sig), store.View())
  {
    var v0 := Prepare(v, slot);
    var target := VoteTargetOf(store.crypto, v0).value;
    var sig := store.SignedVote(v0, slot, validatorIndex, p, target, sign).value;
    assert Step(store.World(), v, ProduceEvent(slot, validatorIndex, p, target, sig), store.View());
  }
}
