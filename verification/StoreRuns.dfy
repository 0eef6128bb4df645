/** The public operations of the store as steps, and what holds after every run of them. */
module StoreRuns {
  import opened Types
  import opened Sets
  import opened Voting
  import opened Transition
  import opened Chain
  import opened BlockTree
  import opened Ghost
  import opened GetHead
  import opened StoreModel
  import opened StoreInvariant
  import opened Aggregation
  import opened Collection
  import opened Production

  datatype Outcome = Outcome(view: View, error: Option<Error>)

  // ----- Receiving a block -----

  /** The checks of ProcessBlock after the transition: signature count, then signatures. */
  function SignatureError(c: Crypto, validators: seq<Validator>, e: Envelope): Option<Error> {
    if |e.signatures| != SignaturesExpected(e) then Some(SignatureCountMismatch)
    else if !BodySigned(c, validators, e) || !ProposerSigned(c, validators, e) then Some(BadSignature)
    else None
  }

  lemma NewBlockImports(w: World, v: View, e: Envelope, post: State)
    requires Inv(w, v) && BlockRoot(w.c, e.block) !in v.blocks && e.block.parentRoot in v.states
    requires PendingShaped(v.states[e.block.parentRoot])
    requires StateTransition(w.c, v.states[e.block.parentRoot], e.block) == Ok(post)
    requires SignatureError(w.c, v.states[e.block.parentRoot].validators, e).None?
    ensures SlotsDecrease(v.blocks[BlockRoot(w.c, e.block) := e.block])
    ensures Inv(w, ImportBlock(w.c, v, e, post))
  {
    InvIsShaped(w, v, e.block.parentRoot);
    TransitionIffRelation(w.c, v.states[e.block.parentRoot], e.block, post);
    ImportBlockKeeps(w, v, e, post);
  }

  ghost function ReceiveBlock(w: World, v: View, e: Envelope): (r: Outcome)
    requires Inv(w, v)
    ensures Inv(w, r.view)
  {
    var parent := e.block.parentRoot;
    if BlockRoot(w.c, e.block) in v.blocks then Outcome(v, None)
    else if parent !in v.states then Outcome(v, Some(ParentStateNotFound))
    else
      InvIsShaped(w, v, parent);
      match StateTransition(w.c, v.states[parent], e.block)
      case Err(error) => Outcome(v, Some(error))
      case Ok(post) =>
        var error := SignatureError(w.c, v.states[parent].validators, e);
        if error.Some? then Outcome(v, error)
        else
          NewBlockImports(w, v, e, post);
          Outcome(ImportBlock(w.c, v, e, post), None)
  }

  // ----- Receiving an aggregate -----

  /** An aggregate counts as its votes, one by one in ascending order of validator. */
  function GossipAll(c: Crypto, v: View, data: AttestationData, parts: Parts, n: nat): (r: View)
    requires n <= |parts.ids| && n <= |parts.signatures|
  {
    if n == 0 then v else Gossip(c, GossipAll(c, v, data, parts, n - 1), PartVote(data, parts, n - 1))
  }

  function ReceiveAggregate(c: Crypto, v: View, data: AttestationData, bits: seq<bool>,
                            signature: seq<Octet>): (r: View) {
    match Disaggregated(bits, signature)
    case Err(_) => v
    case Ok(parts) => GossipAll(c, v, data, parts, |parts.ids|)
  }

  lemma {:induction false} GossipAllKeeps(w: World, v: View, data: AttestationData, parts: Parts, n: nat)
    requires Inv(w, v) && n <= |parts.ids| && n <= |parts.signatures|
    ensures Inv(w, GossipAll(w.c, v, data, parts, n))
  {
    if n > 0 {
      GossipAllKeeps(w, v, data, parts, n - 1);
      GossipKeeps(w, GossipAll(w.c, v, data, parts, n - 1), PartVote(data, parts, n - 1));
    }
  }

  /** The pending votes after the first n parts of an aggregate whose data is valid. */
  function MergeParts(c: Crypto, validators: seq<Validator>, currentSlot: nat, pending: Votes,
                      data: AttestationData, parts: Parts, n: nat): Votes
    requires n <= |parts.ids| && n <= |parts.signatures|
  {
    if n == 0 then pending
    else
      var before := MergeParts(c, validators, currentSlot, pending, data, parts, n - 1);
      var sa := PartVote(data, parts, n - 1);
      if SignatureValid(c, validators, Unsigned(sa), sa.signature) && data.slot <= currentSlot
      then Newer(before, sa) else before
  }

  lemma {:induction false} ValidDataMerges(c: Crypto, v: View, data: AttestationData, parts: Parts, n: nat)
    requires n <= |parts.ids| && n <= |parts.signatures| && DataValid(v.blocks, v.time, data) && v.head in v.states
    ensures GossipAll(c, v, data, parts, n) == v.(pending :=
              MergeParts(c, v.states[v.head].validators, CurrentSlot(v.time), v.pending, data, parts, n))
  {
    if n > 0 {
      ValidDataMerges(c, v, data, parts, n - 1);
    }
  }

  lemma {:induction false} InvalidDataChangesNothing(c: Crypto, v: View, data: AttestationData, parts: Parts, n: nat)
    requires n <= |parts.ids| && n <= |parts.signatures| && !DataValid(v.blocks, v.time, data)
    ensures GossipAll(c, v, data, parts, n) == v
  {
    if n > 0 {
      InvalidDataChangesNothing(c, v, data, parts, n - 1);
    }
  }

  // ----- Blocks of other proposers -----

  /** Another store that has the same parent state and not yet this block accepts what the
      proposer built, if the proposer's own signature verifies. */
  lemma ProposalsAreAccepted(w: World, v: View, slot: nat, proposer: nat, p: Proposal, target: Checkpoint,
                             signature: Signature, other: View)
    requires Inv(w, v) && ProposalFor(w, v, slot, proposer, p) && Inv(w, other)
    requires var e := ProposedEnvelope(w.c, v.head, v.justified, slot, proposer, p, target, signature);
             && v.head in other.states && other.states[v.head] == v.states[v.head]
             && BlockRoot(w.c, e.block) !in other.blocks
             && ProposerSigned(w.c, w.Validators(), e)
    ensures var e := ProposedEnvelope(w.c, v.head, v.justified, slot, proposer, p, target, signature);
            var outcome := ReceiveBlock(w, other, e);
            && outcome.error.None?
            && BlockRoot(w.c, e.block) in outcome.view.states
            && outcome.view.states[BlockRoot(w.c, e.block)] == p.post
  {
    var e := ProposedEnvelope(w.c, v.head, v.justified, slot, proposer, p, target, signature);
    ProposalTransitions(w, v, slot, proposer, p);
    ProposalIsSigned(w, v, slot, proposer, p, target, signature);
    InvIsShaped(w, other, v.head);
    TransitionIffRelation(w.c, other.states[v.head], e.block, p.post);
    NewBlockImports(w, other, e, p.post);
    ImportStores(w.c, other, e, p.post);
  }

  lemma ImportStores(c: Crypto, v: View, e: Envelope, post: State)
    requires SlotsDecrease(v.blocks[BlockRoot(c, e.block) := e.block]) && |e.signatures| == SignaturesExpected(e)
    ensures var root := BlockRoot(c, e.block);
            var v' := ImportBlock(c, v, e, post);
            v'.blocks == v.blocks[root := e.block] && v'.states == v.states[root := post]
  {
    OnChainAllKeeps(FoldCheckpoints(PutBlock(v, BlockRoot(c, e.block), e, post), post), e, |e.block.body|);
  }

  // ----- Runs -----

  /** The public operations. PrepareEvent stands for GetProposalHead, for ProduceAttestation,
      and for a ProduceBlock that fails after it has advanced the store. */
  datatype Event =
    | TickEvent(hasProposal: bool)
    | AdvanceEvent(time: nat, hasProposal: bool)
    | AcceptEvent
    | SafeTargetEvent
    | VoteEvent(now: Option<nat>, vote: SignedAttestation)
    | BlockEvent(now: Option<nat>, envelope: Envelope)
    | AggregateEvent(now: Option<nat>, data: AttestationData, bits: seq<bool>, signature: seq<Octet>)
    | PrepareEvent(slot: nat)
    | ProduceEvent(slot: nat, proposer: nat, proposal: Proposal, target: Checkpoint, sig: Signature)

  /** One step. Producing a block is the only step with a choice, the order in which votes
      were collected. */
  ghost predicate Step(w: World, v: View, ev: Event, v': View)
    requires Inv(w, v)
  {
    match ev
    case TickEvent(hasProposal) => v' == Tick(v, hasProposal)
    case AdvanceEvent(time, hasProposal) => v' == AdvanceTime(v, time, hasProposal)
    case AcceptEvent => v' == Accept(v)
    case SafeTargetEvent => v' == UpdateSafeTarget(v)
    case VoteEvent(now, vote) => v' == Gossip(w.c, Now(v, now), vote)
    case BlockEvent(now, envelope) => NowKeeps(w, v, now); v' == ReceiveBlock(w, Now(v, now), envelope).view
    case AggregateEvent(now, data, bits, signature) => v' == ReceiveAggregate(w.c, Now(v, now), data, bits, signature)
    case PrepareEvent(slot) => v' == Prepare(v, slot)
    case ProduceEvent(slot, proposer, p, target, sig) =>
      Produces(w, Prepare(v, slot), slot, proposer, p, target, sig, v')
  }

  ghost predicate Produces(w: World, v: View, slot: nat, proposer: nat, p: Proposal, target: Checkpoint,
                           sig: Signature, v': View) {
    && ProposalFor(w, v, slot, proposer, p)
    && v' == StoreProposal(w.c, v, ProposedEnvelope(w.c, v.head, v.justified, slot, proposer, p, target, sig), p.post)
  }

  /** The block that a production stores. */
  ghost function Product(w: World, v: View, ev: Event): Block
    requires SlotsDecrease(v.blocks) && ev.ProduceEvent?
  {
    ProposedBlock(w.c, Prepare(v, ev.slot).head, ev.slot, ev.proposer, ev.proposal)
  }

  /** The step produces a block that overwrites a different block stored under the same root. */
  ghost predicate Collides(w: World, v: View, ev: Event)
    requires SlotsDecrease(v.blocks)
  {
    ev.ProduceEvent? && !NoCollision(w.c, v.blocks, Product(w, v, ev))
  }

  lemma ProduceKeeps(w: World, v: View, ev: Event, v': View)
    requires Inv(w, v) && ev.ProduceEvent? && Step(w, v, ev, v') && !Collides(w, v, ev)
    ensures Inv(w, v')
  {
    PrepareKeeps(w, v, ev.slot);
    StoreProposalKeeps(w, Prepare(v, ev.slot), ev.slot, ev.proposer, ev.proposal, ev.target, ev.sig);
  }

  lemma NetworkStepKeeps(w: World, v: View, ev: Event, v': View)
    requires Inv(w, v) && (ev.VoteEvent? || ev.BlockEvent? || ev.AggregateEvent?) && Step(w, v, ev, v')
    ensures Inv(w, v')
  {
    NowKeeps(w, v, ev.now);
    match ev
    case VoteEvent(now, vote) => GossipKeeps(w, Now(v, now), vote);
    case BlockEvent(now, envelope) =>
    case AggregateEvent(now, data, bits, signature) =>
      var parts := Disaggregated(bits, signature);
      if parts.Ok? {
        GossipAllKeeps(w, Now(v, now), data, parts.value, |parts.value.ids|);
      }
  }

  lemma LocalStepKeeps(w: World, v: View, ev: Event, v': View)
    requires Inv(w, v) && Step(w, v, ev, v')
    requires ev.TickEvent? || ev.AdvanceEvent? || ev.AcceptEvent? || ev.SafeTargetEvent? || ev.PrepareEvent?
    ensures Inv(w, v')
  {
    match ev
    case TickEvent(hasProposal) => TickKeeps(w, v, hasProposal);
    case AdvanceEvent(time, hasProposal) => AdvanceTimeKeeps(w, v, time, hasProposal);
    case AcceptEvent => AcceptRestores(w, v);
    case SafeTargetEvent => UpdateSafeTargetKeeps(w, v);
    case PrepareEvent(slot) => PrepareKeeps(w, v, slot);
  }

  /** Every public operation keeps the invariant, unless it produces a block that collides. */
  lemma StepKeeps(w: World, v: View, ev: Event, v': View)
    requires Inv(w, v) && Step(w, v, ev, v')
    ensures Inv(w, v') || Collides(w, v, ev)
  {
    if ev.VoteEvent? || ev.BlockEvent? || ev.AggregateEvent? {
      NetworkStepKeeps(w, v, ev, v');
    } else if ev.ProduceEvent? {
      if !Collides(w, v, ev) {
        ProduceKeeps(w, v, ev, v');
      }
    } else {
      LocalStepKeeps(w, v, ev, v');
    }
  }

  /** A produced block with the root of the anchor replaces it, and the invariant is lost. */
  lemma AnchorCollisionBreaks(w: World, v: View, ev: Event, v': View)
    requires Inv(w, v) && ev.ProduceEvent? && Step(w, v, ev, v')
    requires BlockRoot(w.c, Product(w, v, ev)) == w.Anchor()
    ensures Collides(w, v, ev) && !Inv(w, v')
  {
    var b := Product(w, v, ev);
    assert b.slot > 0 == w.AnchorBlock().slot;
    assert v'.blocks[w.Anchor()] == b;
  }

  /** `views` are the stores along a run: a new store on the genesis block, then one step per
      event. Nothing is assumed of a view outside the invariant: anything may follow it. */
  ghost predicate IsRun(w: World, events: seq<Event>, views: seq<View>) {
    && |views| == |events| + 1
    && views[0] == NewView(w.c, w.genesis, w.AnchorBlock())
    && forall i: nat | i < |events| :: StepAt(w, events, views, i)
  }

  ghost predicate StepAt(w: World, events: seq<Event>, views: seq<View>, i: nat)
    requires i < |events| < |views|
  {
    Inv(w, views[i]) ==> Step(w, views[i], events[i], views[i + 1])
  }

  ghost predicate CollidesAt(w: World, events: seq<Event>, views: seq<View>, i: nat)
    requires i < |events| < |views|
  {
    Inv(w, views[i]) && Collides(w, views[i], events[i])
  }

  /** No produced block has collided in the first n steps. */
  ghost predicate Unharmed(w: World, events: seq<Event>, views: seq<View>, n: nat)
    requires n <= |events| < |views|
  {
    forall i: nat | i < n :: !CollidesAt(w, events, views, i)
  }

  lemma NewStoreIsOk(w: World)
    requires w.Valid()
    ensures Inv(w, NewView(w.c, w.genesis, w.AnchorBlock()))
  {
    var v := NewView(w.c, w.genesis, w.AnchorBlock());
    assert EntryOk(w, w.AnchorBlock(), w.genesis, w.Anchor());
    assert StorageOk(w, v.blocks, v.states);
    StorageIsTree(w, v.blocks, v.states);
    assert EnvelopeOk(w, w.AnchorBlock(), v.signedBlocks[w.Anchor()], w.Anchor());
  }

  /** The invariant holds all along every run, up to the first produced block that collides
      with a different stored block. */
  lemma {:induction false} RunsKeepInvariant(w: World, events: seq<Event>, views: seq<View>, n: nat)
    requires w.Valid() && IsRun(w, events, views) && n < |views|
    ensures Inv(w, views[n]) || exists i: nat | i < n :: CollidesAt(w, events, views, i)
  {
    if n == 0 {
      NewStoreIsOk(w);
    } else {
      RunsKeepInvariant(w, events, views, n - 1);
      if Inv(w, views[n - 1]) {
        assert StepAt(w, events, views, n - 1);
        StepKeeps(w, views[n - 1], events[n - 1], views[n]);
        assert Inv(w, views[n]) || CollidesAt(w, events, views, n - 1);
      }
    }
  }

  /** The block is stored, or is produced, at some point of the run. */
  ghost predicate Appears(w: World, events: seq<Event>, views: seq<View>, b: Block) {
    || (exists i: nat :: i < |views| && b in views[i].blocks.Values)
    || (exists i: nat :: i < |events| < |views| && ProducedAt(w, events, views, i, b))
  }

  ghost predicate ProducedAt(w: World, events: seq<Event>, views: seq<View>, i: nat, b: Block)
    requires i < |events| < |views|
  {
    Inv(w, views[i]) && events[i].ProduceEvent? && Product(w, views[i], events[i]) == b
  }

  /** As long as no two different blocks of a run hash to the same root, no production harms
      the store, and the invariant holds all along. */
  lemma RunsWithoutCollisions(w: World, events: seq<Event>, views: seq<View>, n: nat)
    requires w.Valid() && IsRun(w, events, views) && n < |views|
    requires forall a, b | Appears(w, events, views, a) && Appears(w, events, views, b) ::
               BlockRoot(w.c, a) == BlockRoot(w.c, b) ==> a == b
    ensures Unharmed(w, events, views, |events|) && Inv(w, views[n])
  {
    forall i: nat | i < |events|
      ensures !CollidesAt(w, events, views, i)
    {
      if CollidesAt(w, events, views, i) {
        CollidingBlocksAppear(w, events, views, i);
      }
    }
    RunsKeepInvariant(w, events, views, n);
  }

  lemma CollidingBlocksAppear(w: World, events: seq<Event>, views: seq<View>, i: nat)
    requires i < |events| < |views| && CollidesAt(w, events, views, i)
    ensures exists a, b :: && Appears(w, events, views, a) && Appears(w, events, views, b)
                           && BlockRoot(w.c, a) == BlockRoot(w.c, b) && a != b
  {
    var v, a := views[i], Product(w, views[i], events[i]);
    var r := BlockRoot(w.c, a);
    assert ProducedAt(w, events, views, i, a);
    assert EntryOk(w, v.blocks[r], v.states[r], r);
    assert v.blocks[r] in v.blocks.Values;
    assert Appears(w, events, views, a) && Appears(w, events, views, v.blocks[r]);
  }

  // ----- Progress -----

  /** What no step ever takes back. */
  ghost predicate Progresses(v: View, v': View) {
    && v.time <= v'.time
    && v.justified.slot <= v'.justified.slot && v.finalized.slot <= v'.finalized.slot
    && Grows(v.blocks, v'.blocks)
  }

  lemma SameChainProgresses(v: View, v': View)
    requires SameChain(v, v') && v.time <= v'.time
    ensures Progresses(v, v')
  {}

  lemma ProgressesThrough(u: View, v: View, v': View)
    requires Progresses(u, v) && Progresses(v, v')
    ensures Progresses(u, v')
  {}

  lemma {:induction false} GossipAllFrame(c: Crypto, v: View, data: AttestationData, parts: Parts, n: nat)
    requires n <= |parts.ids| && n <= |parts.signatures|
    ensures var r := GossipAll(c, v, data, parts, n); r == v.(pending := r.pending)
  {
    if n > 0 {
      GossipAllFrame(c, v, data, parts, n - 1);
    }
  }

  lemma ReceiveAggregateFrame(c: Crypto, v: View, data: AttestationData, bits: seq<bool>, signature: seq<Octet>)
    ensures var r := ReceiveAggregate(c, v, data, bits, signature); r == v.(pending := r.pending)
  {
    var parts := Disaggregated(bits, signature);
    if parts.Ok? {
      GossipAllFrame(c, v, data, parts.value, |parts.value.ids|);
    }
  }

  lemma ImportProgresses(c: Crypto, v: View, e: Envelope, post: State)
    requires SlotsDecrease(v.blocks[BlockRoot(c, e.block) := e.block]) && |e.signatures| == SignaturesExpected(e)
    requires BlockRoot(c, e.block) !in v.blocks
    ensures Progresses(v, ImportBlock(c, v, e, post))
  {
    OnChainAllKeeps(FoldCheckpoints(PutBlock(v, BlockRoot(c, e.block), e, post), post), e, |e.block.body|);
  }

  lemma ReceiveBlockProgresses(w: World, v: View, e: Envelope)
    requires Inv(w, v)
    ensures Progresses(v, ReceiveBlock(w, v, e).view)
  {
    var parent := e.block.parentRoot;
    if BlockRoot(w.c, e.block) !in v.blocks && parent in v.states {
      InvIsShaped(w, v, parent);
      var t := StateTransition(w.c, v.states[parent], e.block);
      if t.Ok? && SignatureError(w.c, v.states[parent].validators, e).None? {
        NewBlockImports(w, v, e, t.value);
        ImportProgresses(w.c, v, e, t.value);
      }
    }
  }

  lemma BlockProgresses(w: World, v: View, ev: Event, v': View)
    requires Inv(w, v) && ev.BlockEvent? && Step(w, v, ev, v')
    ensures Progresses(v, v')
  {
    var u := Now(v, ev.now);
    NowKeeps(w, v, ev.now);
    SameChainProgresses(v, u);
    ReceiveBlockProgresses(w, u, ev.envelope);
    ProgressesThrough(v, u, v');
  }

  lemma VoteProgresses(w: World, v: View, ev: Event, v': View)
    requires Inv(w, v) && (ev.VoteEvent? || ev.AggregateEvent?) && Step(w, v, ev, v')
    ensures Progresses(v, v')
  {
    if ev.AggregateEvent? {
      ReceiveAggregateFrame(w.c, Now(v, ev.now), ev.data, ev.bits, ev.signature);
    }
    SameChainProgresses(v, v');
  }

  lemma ProduceProgresses(w: World, v: View, ev: Event, v': View)
    requires Inv(w, v) && ev.ProduceEvent? && Step(w, v, ev, v') && !Collides(w, v, ev)
    ensures Progresses(v, v')
  {
    var u := Prepare(v, ev.slot);
    SameChainProgresses(v, u);
    var e := ProposedEnvelope(w.c, u.head, u.justified, ev.slot, ev.proposer, ev.proposal, ev.target, ev.sig);
    StoringProgresses(w.c, u, e, ev.proposal.post);
    ProgressesThrough(v, u, v');
  }

  lemma StoringProgresses(c: Crypto, v: View, e: Envelope, post: State)
    requires NoCollision(c, v.blocks, e.block)
    ensures Progresses(v, StoreProposal(c, v, e, post))
  {}

  /** Time, both checkpoint slots and storage only ever grow. */
  lemma StepProgresses(w: World, v: View, ev: Event, v': View)
    requires Inv(w, v) && Step(w, v, ev, v')
    ensures Progresses(v, v') || Collides(w, v, ev)
  {
    if ev.BlockEvent? {
      BlockProgresses(w, v, ev, v');
    } else if ev.VoteEvent? || ev.AggregateEvent? {
      VoteProgresses(w, v, ev, v');
    } else if ev.ProduceEvent? {
      if !Collides(w, v, ev) {
        ProduceProgresses(w, v, ev, v');
      }
    } else {
      SameChainProgresses(v, v');
    }
  }

  /** Nothing is taken back between any two points of a run. */
  lemma {:induction false} RunsProgress(w: World, events: seq<Event>, views: seq<View>, m: nat, n: nat)
    requires w.Valid() && IsRun(w, events, views) && m <= n < |views| && Unharmed(w, events, views, n)
    ensures Progresses(views[m], views[n])
    decreases n - m
  {
    if m < n {
      RunsProgress(w, events, views, m, n - 1);
      RunsKeepInvariant(w, events, views, n - 1);
      assert StepAt(w, events, views, n - 1);
      StepProgresses(w, views[n - 1], events[n - 1], views[n]);
      assert !CollidesAt(w, events, views, n - 1);
      ProgressesThrough(views[m], views[n - 1], views[n]);
    }
  }

  // ----- What reachable stores look like -----

  /** `v` is the end of a run in which no produced block collided. */
  ghost predicate ReachesUnharmed(w: World, events: seq<Event>, views: seq<View>, v: View) {
    w.Valid() && IsRun(w, events, views) && Unharmed(w, events, views, |events|) && v == views[|events|]
  }

  /** In every reachable store, updating the safe target gives the deepest block below the
      justified root that two thirds of all validators support, or the justified root. */
  lemma SafeTargetOfReachableStore(w: World, events: seq<Event>, views: seq<View>, v: View)
    requires ReachesUnharmed(w, events, views, v)
    ensures SlotsDecrease(v.blocks)
    ensures var start := StartOf(v.blocks, v.justified.root);
            && start in v.blocks
            && (v.justified.root != ZERO_HASH ==> start == v.justified.root)
            && var e := ElectionFrom(v.blocks, start, v.pending, CeilDiv(v.numValidators * 2, 3));
               var safe := UpdateSafeTarget(v).safeTarget;
               && (safe == start || Qualifies(e, start, safe))
               && (forall q | Qualifies(e, start, q) :: Descends(v.blocks, safe, q))
  {
    RunsKeepInvariant(w, events, views, |events|);
    StartIsStored(w, v);
    forall id | id in v.pending
      ensures id < |w.Validators()|
    {
      assert VoteOk(w, v.blocks, id, v.pending[id], CurrentSlot(v.time));
    }
    RangeSize(v.pending.Keys, |w.Validators()|);
    assert |v.pending| == |v.pending.Keys|;
    var start := StartOf(v.blocks, v.justified.root);
    SafeTargetIsDeepest(ElectionFrom(v.blocks, start, v.pending, CeilDiv(v.numValidators * 2, 3)), start,
                        |w.Validators()|);
  }

  /** In every reachable store the head is a stored block with a stored state, below the
      justified root, and that state comes from the genesis state by transitions alone. */
  lemma HeadOfReachableStore(w: World, events: seq<Event>, views: seq<View>, v: View) returns (blocks: seq<Block>)
    requires ReachesUnharmed(w, events, views, v)
    ensures SlotsDecrease(v.blocks)
    ensures v.head in v.blocks && v.head in v.states
    ensures v.justified.root != ZERO_HASH
            ==> v.justified.root in v.blocks && Descends(v.blocks, v.head, v.justified.root)
    ensures Run(w.c, w.genesis, blocks) == Ok(v.states[v.head])
    ensures Last(w.AnchorBlock(), blocks) == v.blocks[v.head]
  {
    RunsKeepInvariant(w, events, views, |events|);
    blocks := StoredStateIsRun(w, v.blocks, v.states, v.head);
  }

  /** Every stored state is the end of a chain from genesis, so all results about chains
      apply to it. */
  lemma {:induction false} StoredStateIsRun(w: World, bs: Blocks, sts: map<Root, State>, r: Root)
    returns (blocks: seq<Block>)
    requires w.Valid() && StorageOk(w, bs, sts) && r in bs
    ensures Run(w.c, w.genesis, blocks) == Ok(sts[r])
    ensures Last(w.AnchorBlock(), blocks) == bs[r]
    decreases bs[r].slot
  {
    if r == w.Anchor() {
      blocks := [];
    } else {
      assert LinkOk(w, bs, sts, r);
      var p := bs[r].parentRoot;
      var init := StoredStateIsRun(w, bs, sts, p);
      TransitionIffRelation(w.c, sts[p], bs[r], sts[r]);
      blocks := init + [bs[r]];
      assert blocks[..|blocks| - 1] == init;
    }
  }
}
