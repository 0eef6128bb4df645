/** Runs that show what the results about runs leave open: a produced block that collides, a
    head that is not the elected block, own votes that the store rejects, and a produced block
    that is ahead of the store. */
module RunExamples {
  import opened Types
  import opened Voting
  import opened Transition
  import opened Chain
  import opened VoteOrder
  import opened BlockTree
  import opened Ghost
  import opened GetHead
  import opened StoreModel
  import opened StoreInvariant
  import opened VoteTarget
  import opened Collection
  import opened Production
  import opened StoreRuns
  import opened HeadElection

  // ----- Votes while time passes -----

  lemma {:induction false} TicksKeepVotes(v: View, until: nat, hasProposal: bool)
    requires SlotsDecrease(v.blocks)
    ensures var r := Ticks(v, until, hasProposal); r.known + r.pending == v.known + v.pending
    decreases until - v.time
  {
    if v.time < until {
      var signal := hasProposal && v.time + 1 == until;
      TickKeepsVotes(v, signal);
      TicksKeepVotes(Tick(v, signal), until, hasProposal);
    }
  }

  lemma TickKeepsVotes(v: View, hasProposal: bool)
    requires SlotsDecrease(v.blocks)
    ensures var r := Tick(v, hasProposal); r.known + r.pending == v.known + v.pending
  {
    AcceptKeepsVotes(v.(time := v.time + 1));
  }

  lemma AcceptKeepsVotes(v: View)
    requires SlotsDecrease(v.blocks)
    ensures Accept(v).known + Accept(v).pending == v.known + v.pending
  {
    assert v.known + v.pending + map[] == v.known + v.pending;
  }

  /** Preparing the store accepts every pending vote. */
  lemma PrepareAcceptsAll(v: View, slot: nat)
    requires SlotsDecrease(v.blocks)
    ensures Prepare(v, slot).known == v.known + v.pending
  {
    if slot > 0 {
      TicksKeepVotes(v, (v.genesisTime + slot * SECONDS_PER_SLOT - v.genesisTime) / SECONDS_PER_INTERVAL, true);
    }
  }

  // ----- A run that collides -----

  /** The empty block on top of a new store. */
  lemma FirstProposal(w: World, v: View) returns (p: Proposal)
    requires w.Valid() && |w.Validators()| == 1 && v == NewView(w.c, w.genesis, w.AnchorBlock())
    ensures SlotsDecrease(v.blocks) && ProposalFor(w, Prepare(v, 1), 1, 0, p)
  {
    NewStoreIsOk(w);
    PrepareKeeps(w, v, 1);
    PrepareAcceptsAll(v, 1);
    var v0 := Prepare(v, 1);
    assert v0.head == w.Anchor();
    p := EmptyProposal(w, v0, 1);
  }

  lemma EmptyProposal(w: World, v: View, slot: nat) returns (p: Proposal)
    requires Inv(w, v) && |w.Validators()| == 1 && v.known == map[] && v.states[v.head].slot < slot
    ensures ProposalFor(w, v, slot, 0, p)
  {
    CandidatesProcess(w, v, slot, 0, []);
    p := EmptyIsProposal(w.c, v.known, v.blocks, AdvanceSlots(w.c, v.states[v.head], slot), v.head, slot);
  }

  lemma EmptyIsProposal(c: Crypto, known: Votes, bs: Blocks, advanced: State, parent: Root, slot: nat)
    returns (p: Proposal)
    requires known == map[] && PendingShaped(advanced) && ProcessBlock(c, advanced, Candidate(slot, 0, parent, [])).Ok?
    ensures IsProposal(c, known, bs, advanced, parent, slot, 0, p)
  {
    p := Proposal([], [], ProcessBlock(c, advanced, Candidate(slot, 0, parent, [])).value);
  }

  function NoSignature(): Signature { seq(SIGNATURE_SIZE, _ => 0) }

  lemma Produce(w: World, v: View, slot: nat, p: Proposal) returns (ev: Event, v': View)
    requires Inv(w, v) && ProposalFor(w, Prepare(v, slot), slot, 0, p)
    ensures ev == ProduceEvent(slot, 0, p, Checkpoint(0, 0), NoSignature()) && Step(w, v, ev, v')
    ensures v'.justified == v.justified
  {
    var u := Prepare(v, slot);
    var e := ProposedEnvelope(w.c, u.head, u.justified, slot, 0, p, Checkpoint(0, 0), NoSignature());
    ev, v' := ProduceEvent(slot, 0, p, Checkpoint(0, 0), NoSignature()), StoreProposal(w.c, u, e, p.post);
  }

  /** A new store produces that block. */
  lemma FirstProduction(w: World) returns (events: seq<Event>, views: seq<View>)
    requires w.Valid() && |w.Validators()| == 1
    ensures IsRun(w, events, views) && |events| == 1 && events[0].ProduceEvent? && events[0].slot == 1
    ensures Inv(w, views[0]) && Step(w, views[0], events[0], views[1])
  {
    var v := NewView(w.c, w.genesis, w.AnchorBlock());
    NewStoreIsOk(w);
    var p := FirstProposal(w, v);
    var ev, v' := Produce(w, v, 1, p);
    events, views := [ev], [v, v'];
    assert StepAt(w, events, views, 0);
  }

  /** If every header hashes to the same root, the first produced block replaces the anchor. */
  lemma FirstBlockCollides(w: World) returns (events: seq<Event>, views: seq<View>)
    requires w.Valid() && |w.Validators()| == 1 && forall h: Header :: w.c.headerRoot(h) == 1
    ensures IsRun(w, events, views) && |events| == 1 && !Inv(w, views[1])
  {
    events, views := FirstProduction(w);
    AnchorCollisionBreaks(w, views[0], events[0], views[1]);
  }

  lemma SomeRunCollides() returns (w: World, events: seq<Event>, views: seq<View>)
    ensures w.Valid() && IsRun(w, events, views) && |events| == 1 && !Inv(w, views[1])
  {
    var c: Crypto := RawCrypto(_ => 1, _ => 1, _ => 1, _ => 1, (_, _, _, _) => true);
    w := World(c, GenerateGenesis(c, 0, [Validator(0, 0)]));
    GenesisStartsChains(c, 0, [Validator(0, 0)]);
    events, views := FirstBlockCollides(w);
  }

  // ----- A hash that tells slots apart -----

  /** Roots count slots, and every signature verifies. */
  function SlotHash(): Crypto {
    RawCrypto((h: Header) => h.slot % 2000 + 1, _ => 1, _ => 1, _ => 1, (_, _, _, _) => true)
  }

  function ExampleWorld(): World { World(SlotHash(), GenerateGenesis(SlotHash(), 0, [Validator(0, 0)])) }

  function NewStore(): View { NewView(ExampleWorld().c, ExampleWorld().genesis, ExampleWorld().AnchorBlock()) }

  lemma ExampleIsValid()
    ensures ExampleWorld().Valid() && Inv(ExampleWorld(), NewStore())
  {
    GenesisStartsChains(SlotHash(), 0, [Validator(0, 0)]);
    NewStoreIsOk(ExampleWorld());
  }

  // ----- A stale head -----

  /** Right after the first production the head is not the elected block. */
  lemma SomeHeadIsStale() returns (events: seq<Event>, views: seq<View>)
    ensures IsRun(ExampleWorld(), events, views) && |events| == 1
    ensures Inv(ExampleWorld(), views[1]) && !HeadCurrent(views[1])
  {
    var w := ExampleWorld();
    ExampleIsValid();
    events, views := FirstProduction(w);
    assert BlockRoot(w.c, Product(w, views[0], events[0])) == 2 && w.Anchor() == 1;
    ProduceKeeps(w, views[0], events[0], views[1]);
    ProduceElectsIff(w, views[0], events[0], views[1]);
  }

  // ----- Importing blocks -----

  /** An envelope without a proposer's vote. */
  function Plain(b: Block): Envelope { Envelope(b, None, seq(|b.body|, _ => NoSignature())) }

  lemma PlainIsSigned(b: Block)
    requires forall a | a in b.body :: a.validatorId == 0
    ensures SignatureError(SlotHash(), ExampleWorld().Validators(), Plain(b)).None?
  {
    forall i | 0 <= i < |b.body|
      ensures SignatureValid(SlotHash(), ExampleWorld().Validators(), b.body[i], NoSignature())
    {
      assert b.body[i] in b.body;
    }
  }

  /** What importing such an envelope does to the rest of the store. */
  ghost predicate Imported(v: View, root: Root, b: Block, post: State, v': View) {
    && v'.blocks == v.blocks[root := b] && v'.states == v.states[root := post]
    && v'.justified == (if v.justified.slot < post.justified.slot then post.justified else v.justified)
    && v'.finalized == (if v.finalized.slot < post.finalized.slot then post.finalized else v.finalized)
    && v'.safeTarget == v.safeTarget && v'.time == v.time && v'.genesisTime == v.genesisTime
    && (b.body == [] ==> v'.known == v.known && v'.pending == v.pending)
  }

  lemma ImportFrame(c: Crypto, v: View, b: Block, post: State)
    requires SlotsDecrease(v.blocks[BlockRoot(c, b) := b])
    ensures Imported(v, BlockRoot(c, b), b, post, ImportBlock(c, v, Plain(b), post))
  {
    var e := Plain(b);
    OnChainAllKeeps(FoldCheckpoints(PutBlock(v, BlockRoot(c, b), e, post), post), e, |b.body|);
  }

  /** A store imports the next block on a stored one. */
  lemma ReceivesNext(w: World, v: View, parent: Root, b: Block, post: State) returns (v': View)
    requires Inv(w, v) && parent in v.states && BlockRoot(w.c, b) !in v.blocks
    requires SignatureError(w.c, w.Validators(), Plain(b)).None? && Transitions(w.c, v.states[parent], b, post)
    ensures v' == ReceiveBlock(w, v, Plain(b)).view && Imported(v, BlockRoot(w.c, b), b, post, v')
  {
    ParentIsKey(w, v, parent, b, post);
    InvIsShaped(w, v, parent);
    TransitionIffRelation(w.c, v.states[parent], b, post);
    NewBlockImports(w, v, Plain(b), post);
    ImportFrame(w.c, v, b, post);
    v' := ImportBlock(w.c, v, Plain(b), post);
  }

  function RootAt(slot: nat): Root { slot % 2000 + 1 }

  lemma RootOfHeader(h: Header)
    ensures SlotHash().headerRoot(h) == RootAt(h.slot)
  {}

  lemma RootOfBlock(b: Block)
    ensures BlockRoot(SlotHash(), b) == RootAt(b.slot)
  {
    RootOfHeader(HeaderOf(SlotHash(), b));
  }

  lemma ImportsNext(v: View, parent: Root, b: Block, post: State) returns (v': View)
    requires Inv(ExampleWorld(), v) && parent in v.states && RootAt(b.slot) !in v.blocks
    requires forall a | a in b.body :: a.validatorId == 0
    requires Transitions(SlotHash(), v.states[parent], b, post)
    ensures Step(ExampleWorld(), v, BlockEvent(None, Plain(b)), v') && Inv(ExampleWorld(), v')
    ensures Imported(v, RootAt(b.slot), b, post, v')
  {
    PlainIsSigned(b);
    RootOfBlock(b);
    v' := ReceivesNext(ExampleWorld(), v, parent, b, post);
  }

  lemma ParentIsKey(w: World, v: View, parent: Root, b: Block, post: State)
    requires Inv(w, v) && parent in v.states && Transitions(w.c, v.states[parent], b, post)
    ensures b.parentRoot == parent
  {
    assert EntryOk(w, v.blocks[parent], v.states[parent], parent);
    ParentIsLastBlock(w.c, v.states[parent], v.blocks[parent], b, post);
  }

  // ----- Targets while slot 0 is finalized -----

  lemma {:induction false} AllBelowAnchor(w: World, v: View, r: Root)
    requires Inv(w, v) && r in v.blocks
    ensures Descends(v.blocks, r, w.Anchor())
    decreases v.blocks[r].slot
  {
    if r != w.Anchor() {
      assert LinkOk(w, v.blocks, v.states, r);
      AllBelowAnchor(w, v, v.blocks[r].parentRoot);
    }
  }

  /** Each step of the lookback goes down a slot or more, unless the safe target is reached. */
  lemma {:induction false} LookbackDrops(w: World, v: View, steps: nat)
    requires Inv(w, v)
    ensures var l := Lookback(v.blocks, v.safeTarget, v.head, steps);
            && l in v.blocks
            && (|| v.blocks[l].slot <= v.blocks[v.safeTarget].slot
                || v.blocks[l].slot + steps <= v.blocks[v.head].slot)
  {
    if steps > 0 {
      LookbackDrops(w, v, steps - 1);
      var l := Lookback(v.blocks, v.safeTarget, v.head, steps - 1);
      if AboveSafe(v.blocks, v.safeTarget, l) {
        assert LinkOk(w, v.blocks, v.states, l);
      }
    }
  }

  lemma TargetExists(w: World, v: View)
    requires Inv(w, v) && v.finalized.slot == 0
    ensures VoteTargetOf(w.c, v).Ok?
  {
    LookbackDrops(w, v, JUSTIFICATION_LOOKBACK);
    AllBelowAnchor(w, v, Lookback(v.blocks, v.safeTarget, v.head, JUSTIFICATION_LOOKBACK));
    FinalizedAncestorSuffices(v.blocks, v.head, v.safeTarget, 0, w.Anchor());
  }

  // ----- Own votes that are rejected -----

  /** The store finds a target for the slot, but keeps no vote it then produces. */
  ghost predicate RejectsOwnVotes(w: World, v: View, slot: nat)
    requires Inv(w, v)
  {
    PrepareKeeps(w, v, slot);
    var u := Prepare(v, slot);
    && VoteTargetOf(w.c, u).Ok?
    && forall id: nat, sig :: !Keeps(w.c, u, SignedAttestation(id, OwnVote(u, slot, VoteTargetOf(w.c, u).value), sig))
  }

  lemma RejectsIf(w: World, v: View, slot: nat)
    requires Inv(w, v) && VoteTargetOf(w.c, Prepare(v, slot)).Ok?
    requires v.justified.root == ZERO_HASH || VoteTargetOf(w.c, Prepare(v, slot)).value.slot < v.justified.slot
    ensures RejectsOwnVotes(w, v, slot)
  {
    PrepareKeeps(w, v, slot);
    var u := Prepare(v, slot);
    var target := VoteTargetOf(w.c, u).value;
    forall id: nat, sig
      ensures !Keeps(w.c, u, SignedAttestation(id, OwnVote(u, slot, target), sig))
    {
      OwnVoteIsKeptIff(w, v, slot, id, target, sig);
    }
  }

  lemma JustifiesEmptySlot() returns (b: Block, s: State)
    ensures Transitions(SlotHash(), ExampleWorld().genesis, b, s) && b.slot == 5
    ensures forall a | a in b.body :: a.validatorId == 0
    ensures s.justified == Checkpoint(ZERO_HASH, 3) && s.finalized.slot == 0
  {
    ExampleIsValid();
    b, s := LoneBlock(SlotHash(), ExampleWorld().genesis, 5, 3);
  }

  lemma EmptySlotStore() returns (ev: Event, v: View)
    ensures Inv(ExampleWorld(), NewStore()) && Step(ExampleWorld(), NewStore(), ev, v)
    ensures Inv(ExampleWorld(), v) && v.justified == Checkpoint(ZERO_HASH, 3) && v.finalized.slot == 0
  {
    ExampleIsValid();
    var b, s := JustifiesEmptySlot();
    v := ImportsNext(NewStore(), ExampleWorld().Anchor(), b, s);
    ev := BlockEvent(None, Plain(b));
  }

  /** One block at slot 5 whose vote justifies the empty slot 3: from then on the store rejects
      every vote it produces. */
  lemma EmptySlotRejects(slot: nat) returns (events: seq<Event>, views: seq<View>)
    ensures IsRun(ExampleWorld(), events, views) && |events| == 1
    ensures Inv(ExampleWorld(), views[1]) && views[1].justified == Checkpoint(ZERO_HASH, 3)
    ensures RejectsOwnVotes(ExampleWorld(), views[1], slot)
  {
    var w := ExampleWorld();
    var ev, v := EmptySlotStore();
    PrepareKeeps(w, v, slot);
    TargetExists(w, Prepare(v, slot));
    RejectsIf(w, v, slot);
    events, views := [ev], [NewStore(), v];
    assert StepAt(w, events, views, 0);
  }

  /** The store at slot 2 with one block, at slot 1. */
  ghost predicate AtSlotTwo(v: View) {
    && Inv(ExampleWorld(), v) && v.time == 8 && v.genesisTime == 0
    && v.blocks.Keys == {1, 2} && v.blocks[1].slot == 0 && v.blocks[2].slot == 1 && v.blocks[2].parentRoot == 1
    && v.safeTarget == 1 && v.justified == Checkpoint(1, 0) && v.finalized.slot == 0
    && FirstState(v.states[2])
  }

  ghost predicate HasOneBlock(v: View) { AtSlotTwo(v) && v.known == map[] && v.pending == map[] }

  lemma FirstEmpty(c: Crypto, genesis: State) returns (b: Block, s: State)
    requires IsGenesis(genesis) && |genesis.validators| == 1
    ensures Transitions(c, genesis, b, s) && b.slot == 1 && b.body == []
    ensures b.parentRoot == c.headerRoot(ProcessSlot(c, genesis).header)
    ensures Calm(s) && PostBlock(s) && s.slot == 1 && |s.validators| == 1 && s.justified == Checkpoint(b.parentRoot, 0)
    ensures s.history == [b.parentRoot] && !IsJustified(s.justifiedSlots, 1)
  {
    b, s := EmptyBlock(c, genesis, 1);
    assert HistoryAt(c, genesis, 1) == [b.parentRoot];
  }

  lemma FirstEmptyBlock() returns (b: Block, s: State)
    ensures Transitions(SlotHash(), ExampleWorld().genesis, b, s) && b.slot == 1 && b.body == [] && b.parentRoot == 1
    ensures FirstState(s)
  {
    ExampleIsValid();
    b, s := FirstEmpty(SlotHash(), ExampleWorld().genesis);
  }

  lemma StoreAtSlotTwo() returns (v: View)
    ensures Inv(ExampleWorld(), NewStore()) && v == AdvanceTime(NewStore(), 8, false)
    ensures Inv(ExampleWorld(), v) && v.time == 8 && v.known == map[] && v.pending == map[] && v.safeTarget == 1
  {
    ExampleIsValid();
    v := AdvanceTime(NewStore(), 8, false);
    AdvanceTimeKeeps(ExampleWorld(), NewStore(), 8, false);
    TicksKeepVotes(NewStore(), 8, false);
    NoVotesAtAll(v.known, v.pending);
    OnlyTheAnchor(v);
  }

  lemma OnlyTheAnchor(v: View)
    requires Inv(ExampleWorld(), v) && SameChain(NewStore(), v)
    ensures v.safeTarget == 1
  {
    RootOfBlock(ExampleWorld().AnchorBlock());
  }

  lemma NoVotesAtAll(known: Votes, pending: Votes)
    requires known + pending == map[]
    ensures known == map[] && pending == map[]
  {
    assert (known + pending).Keys == known.Keys + pending.Keys;
  }

  lemma ImportFirst(v: View) returns (ev: Event, v': View)
    requires Inv(ExampleWorld(), v) && v.time == 8 && v.known == map[] && v.pending == map[] && v.safeTarget == 1
    requires SameChain(NewStore(), v)
    ensures Step(ExampleWorld(), v, ev, v') && HasOneBlock(v')
  {
    var b, s := FirstEmptyBlock();
    RootOfBlock(ExampleWorld().AnchorBlock());
    v' := ImportsNext(v, 1, b, s);
    ev := BlockEvent(None, Plain(b));
    FirstImported(v, b, s, v');
  }

  ghost predicate FirstState(s: State) {
    && Calm(s) && PostBlock(s) && s.slot == 1 && |s.validators| == 1 && s.justified == Checkpoint(1, 0)
    && s.history == [1] && !IsJustified(s.justifiedSlots, 1)
  }

  lemma FirstImported(v: View, b: Block, s: State, v': View)
    requires SameChain(NewStore(), v) && v.safeTarget == 1 && v.time == 8 && v.known == map[] && v.pending == map[]
    requires Inv(ExampleWorld(), v') && Imported(v, 2, b, s, v') && b.slot == 1 && b.parentRoot == 1 && b.body == []
    requires FirstState(s)
    ensures HasOneBlock(v')
  {
    RootOfBlock(ExampleWorld().AnchorBlock());
  }

  lemma OneStepRun(w: World, ev: Event, v: View)
    requires w.Valid() && Inv(w, NewView(w.c, w.genesis, w.AnchorBlock()))
    requires Step(w, NewView(w.c, w.genesis, w.AnchorBlock()), ev, v)
    ensures IsRun(w, [ev], [NewView(w.c, w.genesis, w.AnchorBlock()), v])
  {
    assert StepAt(w, [ev], [NewView(w.c, w.genesis, w.AnchorBlock()), v], 0);
  }

  lemma StepStays(w: World, events: seq<Event>, views: seq<View>, ev: Event, v: View, i: nat)
    requires i < |events| < |views| && StepAt(w, events, views, i)
    ensures StepAt(w, events + [ev], views + [v], i)
  {
    assert (events + [ev])[i] == events[i] && (views + [v])[i] == views[i] && (views + [v])[i + 1] == views[i + 1];
  }

  lemma LastStep(w: World, events: seq<Event>, views: seq<View>, ev: Event, v: View)
    requires |views| == |events| + 1 && Inv(w, views[|events|]) && Step(w, views[|events|], ev, v)
    ensures StepAt(w, events + [ev], views + [v], |events|)
  {
    var n := |events|;
    assert (events + [ev])[n] == ev && (views + [v])[n] == views[n] && (views + [v])[n + 1] == v;
  }

  lemma ExtendRun(w: World, events: seq<Event>, views: seq<View>, ev: Event, v: View)
    requires IsRun(w, events, views) && Inv(w, views[|events|]) && Step(w, views[|events|], ev, v)
    ensures IsRun(w, events + [ev], views + [v])
  {
    var evs, vs := events + [ev], views + [v];
    forall i: nat | i < |evs|
      ensures StepAt(w, evs, vs, i)
    {
      if i < |events| {
        StepStays(w, events, views, ev, v, i);
      } else {
        LastStep(w, events, views, ev, v);
      }
    }
  }

  /** Advance to slot 2, then import an empty block for slot 1. */
  lemma OneBlockRun() returns (events: seq<Event>, views: seq<View>)
    ensures IsRun(ExampleWorld(), events, views) && |events| == 2 && HasOneBlock(views[2])
  {
    var v1 := StoreAtSlotTwo();
    var ev, v2 := ImportFirst(v1);
    OneStepRun(ExampleWorld(), AdvanceEvent(8, false), v1);
    events, views := [AdvanceEvent(8, false)], [NewStore(), v1];
    ExtendRun(ExampleWorld(), events, views, ev, v2);
    events, views := events + [ev], views + [v2];
  }

  /** A store at slot 2 whose safe target is still the anchor, while slot 1 is justified. */
  ghost predicate SafeTargetLags(v: View) {
    && Inv(ExampleWorld(), v) && v.time == 8 && v.genesisTime == 0
    && v.blocks.Keys == {1, 2, 3} && v.blocks[1].slot == 0 && v.blocks[2].slot == 1 && v.blocks[3].slot == 2
    && v.safeTarget == 1 && v.justified == Checkpoint(2, 1) && v.finalized.slot == 0
  }

  lemma ImportSecond(v: View) returns (ev: Event, v': View)
    requires HasOneBlock(v)
    ensures Step(ExampleWorld(), v, ev, v') && SafeTargetLags(v')
  {
    var b, s := SecondBlock(v.states[2]);
    v' := ImportsNext(v, 2, b, s);
    ev := BlockEvent(None, Plain(b));
    SecondImported(v, b, s, v');
  }

  lemma SecondImported(v: View, b: Block, s: State, v': View)
    requires HasOneBlock(v) && Inv(ExampleWorld(), v') && Imported(v, 3, b, s, v')
    requires b.slot == 2 && s.justified == Checkpoint(2, 1) && s.finalized.slot == 0
    ensures SafeTargetLags(v')
  {}

  lemma SecondOf(c: Crypto, s: State) returns (b: Block, s': State)
    requires Calm(s) && s.slot == 1 && |s.validators| == 1 && |s.history| == 1 && !IsJustified(s.justifiedSlots, 1)
    ensures Transitions(c, s, b, s') && b.slot == 2 && (forall a | a in b.body :: a.validatorId == 0)
    ensures s'.justified == Checkpoint(c.headerRoot(ProcessSlot(c, s).header), 1) && s'.finalized.slot == 0
  {
    GoodSlots(s);
    b, s' := LoneBlock(c, s, 2, 1);
    assert HistoryAt(c, s, 2)[1] == c.headerRoot(ProcessSlot(c, s).header);
    assert b.body == [LoneVote(HistoryAt(c, s, 2), 0, 1)];
  }

  lemma HeaderKeepsSlot(c: Crypto, s: State)
    ensures ProcessSlot(c, s).header.slot == s.header.slot
  {}

  lemma SecondBlock(s: State) returns (b: Block, s': State)
    requires Calm(s) && s.slot == 1 && |s.validators| == 1 && s.history == [1] && !IsJustified(s.justifiedSlots, 1)
    requires s.header.slot == 1
    ensures Transitions(SlotHash(), s, b, s') && b.slot == 2 && forall a | a in b.body :: a.validatorId == 0
    ensures s'.justified == Checkpoint(2, 1) && s'.finalized.slot == 0
  {
    b, s' := SecondOf(SlotHash(), s);
    HeaderKeepsSlot(SlotHash(), s);
    RootOfHeader(ProcessSlot(SlotHash(), s).header);
    assert RootAt(1) == 2;
  }

  lemma LaggingTarget(w: World, v: View)
    requires Inv(w, v) && v.blocks[v.safeTarget].slot == 0 && v.blocks[v.head].slot <= 2 && v.finalized.slot == 0
    ensures VoteTargetOf(w.c, v).Ok? && VoteTargetOf(w.c, v).value.slot == 0
  {
    LookbackDrops(w, v, JUSTIFICATION_LOOKBACK);
  }

  lemma PrepareChangesNoTime(v: View)
    requires SlotsDecrease(v.blocks) && v.time == 8 && v.genesisTime == 0
    ensures Prepare(v, 2).safeTarget == v.safeTarget && Prepare(v, 2).time == 8
  {}

  lemma LaggingRejects(v: View)
    requires SafeTargetLags(v)
    ensures RejectsOwnVotes(ExampleWorld(), v, 2)
  {
    var w := ExampleWorld();
    PrepareKeeps(w, v, 2);
    PrepareChangesNoTime(v);
    LaggingTarget(w, Prepare(v, 2));
    RejectsIf(w, v, 2);
  }

  /** Blocks for slots 1 and 2 arrive during slot 2, and the second justifies slot 1. The safe
      target is still the anchor, so the target of a vote is below its source. */
  lemma LookbackRejects() returns (events: seq<Event>, views: seq<View>)
    ensures IsRun(ExampleWorld(), events, views) && |events| == 3
    ensures Inv(ExampleWorld(), views[3]) && views[3].justified == Checkpoint(2, 1)
    ensures RejectsOwnVotes(ExampleWorld(), views[3], 2)
  {
    events, views := OneBlockRun();
    var ev, v := ImportSecond(views[2]);
    ExtendRun(ExampleWorld(), events, views, ev, v);
    LaggingRejects(v);
    events, views := events + [ev], views + [v];
  }

  // ----- A produced block that is ahead -----

  /** The vote of the only validator for the block at slot 1. */
  function FirstVote(): SignedAttestation {
    SignedAttestation(0, AttestationData(1, Checkpoint(2, 1), Checkpoint(2, 1), Checkpoint(1, 0)), NoSignature())
  }

  ghost predicate HasOneVote(v: View) {
    AtSlotTwo(v) && v.known == map[] && v.pending == map[0 := FirstVote()]
  }

  lemma ReceiveFirstVote(v: View) returns (v': View)
    requires HasOneBlock(v)
    ensures Step(ExampleWorld(), v, VoteEvent(None, FirstVote()), v') && HasOneVote(v')
  {
    var w := ExampleWorld();
    v' := Gossip(w.c, v, FirstVote());
    GossipKeeps(w, v, FirstVote());
    assert EntryOk(w, v.blocks[v.head], v.states[v.head], v.head);
    assert v' == v.(pending := map[0 := FirstVote()]);
  }

  /** The only leaf is the head after every election. */
  lemma OnlyLeafIsHead(w: World, v: View)
    requires Inv(w, v) && HeadCurrent(v) && v.blocks.Keys == {1, 2} && v.blocks[2].parentRoot == 1
    requires v.justified.root == 1
    ensures v.head == 2
  {
    StartIsStored(w, v);
    var e := ElectionFrom(v.blocks, 1, v.known, 0);
    DescendIsHead(e, 1);
    assert 2 in Candidates(e, 1);
  }

  /** Collecting that vote justifies slot 1. */
  lemma CollectedVoteJustifies(s: State) returns (post: State)
    requires Calm(s) && s.slot == 1 && s.header.slot == 1 && |s.validators| == 1 && s.justified == Checkpoint(1, 0)
    requires s.history == [1] && !IsJustified(s.justifiedSlots, 1)
    ensures post.justified == Checkpoint(2, 1)
    ensures var advanced := AdvanceSlots(SlotHash(), s, 2);
            && PendingShaped(advanced)
            && ProcessBlock(SlotHash(), advanced, Candidate(2, 0, 2, [Unsigned(FirstVote())])) == Ok(post)
            && LeadsTo(SlotHash(), advanced, 2, 2, 0, [], Checkpoint(1, 0))
  {
    var c, b := SlotHash(), Candidate(2, 0, 2, [Unsigned(FirstVote())]);
    AdvanceSlotsFillsOnce(c, s, 2);
    var advanced := AdvanceSlots(c, s, 2);
    var s1 := AfterHeader(c, advanced, b);
    assert s1.history == [1, 2];
    post := ProcessAttestations(s1, b.body);
    CrossingJustifies(ContextOf(s1), TallyOf(s1), b.body[0]);
    CastTwo(ContextOf(s1), TallyOf(s1), b.body[0], b.body[0]);
  }

  lemma StillAtSlotTwo(v: View)
    requires AtSlotTwo(v)
    ensures AtSlotTwo(Prepare(v, 2))
  {
    PrepareKeeps(ExampleWorld(), v, 2);
    PrepareChangesNoTime(v);
  }

  lemma FirstVoteIsCollected(v: View) returns (p: Proposal)
    requires HasOneVote(v)
    ensures ProposalFor(ExampleWorld(), Prepare(v, 2), 2, 0, p) && p.post.justified == Checkpoint(2, 1)
  {
    StillAtSlotTwo(v);
    PrepareElects(v, 2);
    PrepareAcceptsAll(v, 2);
    OnlyLeafIsHead(ExampleWorld(), Prepare(v, 2));
    assert map[] + map[0 := FirstVote()] == map[0 := FirstVote()];
    p := FirstVoteProposal(Prepare(v, 2));
  }

  lemma FirstVoteProposal(u: View) returns (p: Proposal)
    requires AtSlotTwo(u) && u.known == map[0 := FirstVote()] && u.head == 2
    ensures ProposalFor(ExampleWorld(), u, 2, 0, p) && p.post.justified == Checkpoint(2, 1)
  {
    var s := u.states[2];
    var post := CollectedVoteJustifies(s);
    OneIsProposal(SlotHash(), u.blocks, AdvanceSlots(SlotHash(), s, 2), 2, 2, FirstVote(), post);
    p := Proposal([Unsigned(FirstVote())], [FirstVote()], post);
  }

  lemma OneIsProposal(c: Crypto, bs: Blocks, advanced: State, parent: Root, slot: nat, sa: SignedAttestation,
                      post: State)
    requires PendingShaped(advanced) && sa.message.head.root in bs
    requires LeadsTo(c, advanced, parent, slot, 0, [], sa.message.source)
    requires ProcessBlock(c, advanced, Candidate(slot, 0, parent, [Unsigned(sa)])) == Ok(post)
    ensures IsProposal(c, map[sa.validatorId := sa], bs, advanced, parent, slot, 0,
                       Proposal([Unsigned(sa)], [sa], post))
  {
    var atts := [Unsigned(sa)];
    assert atts[0] in atts && atts[..0] == [];
    assert SourcedAt(c, bs, advanced, parent, slot, 0, atts, 0);
  }

  /** A vote for the block at slot 1 arrives and is collected for slot 2. The produced block
      justifies slot 1, and the store that stored it does not. */
  lemma ProducedIsAhead() returns (events: seq<Event>, views: seq<View>)
    ensures IsRun(ExampleWorld(), events, views) && |events| == 4 && events[3].ProduceEvent?
    ensures Inv(ExampleWorld(), views[4])
    ensures views[4].justified == Checkpoint(1, 0) && events[3].proposal.post.justified == Checkpoint(2, 1)
  {
    var w := ExampleWorld();
    events, views := OneVoteRun();
    var ev, v := ProduceAhead(views[3]);
    ExtendRun(w, events, views, ev, v);
    events, views := events + [ev], views + [v];
  }

  lemma OneVoteRun() returns (events: seq<Event>, views: seq<View>)
    ensures IsRun(ExampleWorld(), events, views) && |events| == 3 && HasOneVote(views[3])
  {
    events, views := OneBlockRun();
    var v := ReceiveFirstVote(views[2]);
    ExtendRun(ExampleWorld(), events, views, VoteEvent(None, FirstVote()), v);
    events, views := events + [VoteEvent(None, FirstVote())], views + [v];
  }

  lemma ProduceAhead(v: View) returns (ev: Event, v': View)
    requires HasOneVote(v)
    ensures Inv(ExampleWorld(), v) && ev.ProduceEvent? && Step(ExampleWorld(), v, ev, v') && Inv(ExampleWorld(), v')
    ensures v'.justified == Checkpoint(1, 0) && ev.proposal.post.justified == Checkpoint(2, 1)
  {
    var p := FirstVoteIsCollected(v);
    ev, v' := Produce(ExampleWorld(), v, 2, p);
    SlotTwoIsFree(ExampleWorld(), v, ev);
    ProduceKeeps(ExampleWorld(), v, ev, v');
  }

  lemma SlotTwoIsFree(w: World, v: View, ev: Event)
    requires w.c == SlotHash() && SlotsDecrease(v.blocks) && v.blocks.Keys == {1, 2} && ev.ProduceEvent? && ev.slot == 2
    ensures !Collides(w, v, ev)
  {
    RootOfBlock(Product(w, v, ev));
  }
}
