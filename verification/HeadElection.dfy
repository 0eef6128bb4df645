/** When the head is the elected block: always, except between storing a produced block and
    the next election, which that block wins. */
module HeadElection {
  import opened Types
  import opened Transition
  import opened BlockTree
  import opened Ghost
  import opened GetHead
  import opened StoreModel
  import opened StoreInvariant
  import opened Production
  import opened StoreRuns
  import Collection

  /** The head is what an election would return now. */
  ghost predicate HeadCurrent(v: View)
    requires SlotsDecrease(v.blocks)
  {
    v.head == Elect(v.blocks, v.justified.root, v.known, 0)
  }

  // ----- Elections on the way -----

  /** Nothing that an election depends on, nor the head, has changed. */
  ghost predicate SameElection(v: View, v': View) {
    v'.head == v.head && v'.blocks == v.blocks && v'.justified == v.justified && v'.known == v.known
  }

  /** What a step does to the head: it elects one, or leaves the last election as it was. */
  ghost predicate ElectsOrKeeps(elects: bool, v: View, v': View)
    requires SlotsDecrease(v'.blocks)
  {
    if elects then HeadCurrent(v') else SameElection(v, v')
  }

  lemma ElectsOrKeepsThrough(first: bool, second: bool, v: View, u: View, v': View)
    requires SlotsDecrease(u.blocks) && SlotsDecrease(v'.blocks)
    requires ElectsOrKeeps(first, v, u) && ElectsOrKeeps(second, u, v')
    ensures ElectsOrKeeps(first || second, v, v')
  {}

  /** The interval that begins at `time` accepts votes and elects a head. */
  predicate Accepts(time: nat, hasProposal: bool) {
    time % INTERVALS_PER_SLOT == 3 || (time % INTERVALS_PER_SLOT == 0 && hasProposal)
  }

  /** Some interval up to `until` does; a proposal is signalled only to the last. */
  ghost predicate TicksAccept(time: nat, until: nat, hasProposal: bool) {
    exists t: nat | time < t <= until :: AcceptsOnTheWay(t, until, hasProposal)
  }

  predicate AcceptsOnTheWay(time: nat, until: nat, hasProposal: bool) {
    Accepts(time, hasProposal && time == until)
  }

  lemma TickElects(v: View, hasProposal: bool)
    requires SlotsDecrease(v.blocks)
    ensures ElectsOrKeeps(Accepts(v.time + 1, hasProposal), v, Tick(v, hasProposal))
  {}

  lemma {:induction false} TicksElect(v: View, until: nat, hasProposal: bool)
    requires SlotsDecrease(v.blocks)
    ensures ElectsOrKeeps(TicksAccept(v.time, until, hasProposal), v, Ticks(v, until, hasProposal))
    decreases until - v.time
  {
    if v.time < until {
      var signal := hasProposal && v.time + 1 == until;
      var u := Tick(v, signal);
      TickElects(v, signal);
      TicksElect(u, until, hasProposal);
      ElectsOrKeepsThrough(Accepts(v.time + 1, signal), TicksAccept(u.time, until, hasProposal), v, u,
                           Ticks(v, until, hasProposal));
      TicksAcceptStep(v.time, until, hasProposal);
    }
  }

  lemma TicksAcceptStep(time: nat, until: nat, hasProposal: bool)
    requires time < until
    ensures TicksAccept(time, until, hasProposal)
       <==> AcceptsOnTheWay(time + 1, until, hasProposal) || TicksAccept(time + 1, until, hasProposal)
  {
    if t: nat :| time < t <= until && AcceptsOnTheWay(t, until, hasProposal) {
      assert t == time + 1 || TicksAccept(time + 1, until, hasProposal);
    }
  }

  ghost predicate AdvanceAccepts(v: View, time: nat, hasProposal: bool) {
    v.genesisTime < time && TicksAccept(v.time, (time - v.genesisTime) / SECONDS_PER_INTERVAL, hasProposal)
  }

  lemma AdvanceElects(v: View, time: nat, hasProposal: bool)
    requires SlotsDecrease(v.blocks)
    ensures ElectsOrKeeps(AdvanceAccepts(v, time, hasProposal), v, AdvanceTime(v, time, hasProposal))
  {
    if v.genesisTime < time {
      TicksElect(v, (time - v.genesisTime) / SECONDS_PER_INTERVAL, hasProposal);
    }
  }

  ghost predicate NowAccepts(v: View, now: Option<nat>) {
    now.Some? && AdvanceAccepts(v, now.value, false)
  }

  lemma NowElects(v: View, now: Option<nat>)
    requires SlotsDecrease(v.blocks)
    ensures ElectsOrKeeps(NowAccepts(v, now), v, Now(v, now))
  {
    if now.Some? {
      AdvanceElects(v, now.value, false);
    }
  }

  /** The block is new and passes every check. */
  ghost predicate Imports(w: World, v: View, e: Envelope)
    requires Inv(w, v)
  {
    BlockRoot(w.c, e.block) !in v.blocks && ReceiveBlock(w, v, e).error.None?
  }

  lemma ImportElects(c: Crypto, v: View, e: Envelope, post: State)
    requires SlotsDecrease(v.blocks[BlockRoot(c, e.block) := e.block]) && |e.signatures| == SignaturesExpected(e)
    ensures SlotsDecrease(ImportBlock(c, v, e, post).blocks) && HeadCurrent(ImportBlock(c, v, e, post))
  {
    OnChainAllKeeps(FoldCheckpoints(PutBlock(v, BlockRoot(c, e.block), e, post), post), e, |e.block.body|);
  }

  lemma ReceiveBlockElects(w: World, v: View, e: Envelope)
    requires Inv(w, v)
    ensures ElectsOrKeeps(Imports(w, v, e), v, ReceiveBlock(w, v, e).view)
  {
    var parent := e.block.parentRoot;
    if BlockRoot(w.c, e.block) !in v.blocks && parent in v.states {
      InvIsShaped(w, v, parent);
      var t := StateTransition(w.c, v.states[parent], e.block);
      if t.Ok? && SignatureError(w.c, v.states[parent].validators, e).None? {
        NewBlockImports(w, v, e, t.value);
        ImportElects(w.c, v, e, t.value);
      }
    }
  }

  // ----- Steps -----

  /** The step runs an election. Whether it does is decided by the clock, and for a block by
      the checks it has to pass. */
  ghost predicate Elects(w: World, v: View, ev: Event)
    requires Inv(w, v)
  {
    match ev
    case TickEvent(hasProposal) => Accepts(v.time + 1, hasProposal)
    case AdvanceEvent(time, hasProposal) => AdvanceAccepts(v, time, hasProposal)
    case AcceptEvent => true
    case SafeTargetEvent => false
    case VoteEvent(now, _) => NowAccepts(v, now)
    case BlockEvent(now, e) => NowKeeps(w, v, now); NowAccepts(v, now) || Imports(w, Now(v, now), e)
    case AggregateEvent(now, _, _, _) => NowAccepts(v, now)
    case PrepareEvent(_) => true
    case ProduceEvent(_, _, _, _, _) => true
  }

  lemma VoteStepElects(w: World, v: View, ev: Event, v': View)
    requires Inv(w, v) && (ev.VoteEvent? || ev.AggregateEvent?) && Step(w, v, ev, v') && SlotsDecrease(v'.blocks)
    ensures ElectsOrKeeps(Elects(w, v, ev), v, v')
  {
    var u := Now(v, ev.now);
    NowElects(v, ev.now);
    if ev.AggregateEvent? {
      ReceiveAggregateFrame(w.c, u, ev.data, ev.bits, ev.signature);
    }
    assert SameElection(u, v');
    ElectsOrKeepsThrough(NowAccepts(v, ev.now), false, v, u, v');
  }

  lemma BlockStepElects(w: World, v: View, ev: Event, v': View)
    requires Inv(w, v) && ev.BlockEvent? && Step(w, v, ev, v') && SlotsDecrease(v'.blocks)
    ensures ElectsOrKeeps(Elects(w, v, ev), v, v')
  {
    var u := Now(v, ev.now);
    NowKeeps(w, v, ev.now);
    NowElects(v, ev.now);
    ReceiveBlockElects(w, u, ev.envelope);
    ElectsOrKeepsThrough(NowAccepts(v, ev.now), Imports(w, u, ev.envelope), v, u, v');
  }

  lemma AcceptElects(v: View)
    requires SlotsDecrease(v.blocks)
    ensures HeadCurrent(Accept(v))
  {}

  lemma SafeTargetKeepsElection(v: View)
    requires SlotsDecrease(v.blocks)
    ensures SameElection(v, UpdateSafeTarget(v))
  {}

  lemma PrepareElects(u: View, slot: nat)
    requires SlotsDecrease(u.blocks)
    ensures HeadCurrent(Prepare(u, slot))
  {}

  lemma ClockStepElects(w: World, v: View, ev: Event, v': View)
    requires Inv(w, v) && (ev.TickEvent? || ev.AdvanceEvent?) && Step(w, v, ev, v') && SlotsDecrease(v'.blocks)
    ensures ElectsOrKeeps(Elects(w, v, ev), v, v')
  {
    if ev.TickEvent? {
      TickElects(v, ev.hasProposal);
    } else {
      AdvanceElects(v, ev.time, ev.hasProposal);
    }
  }

  lemma LocalStepElects(w: World, v: View, ev: Event, v': View)
    requires Inv(w, v) && (ev.AcceptEvent? || ev.SafeTargetEvent? || ev.PrepareEvent?)
    requires Step(w, v, ev, v') && SlotsDecrease(v'.blocks)
    ensures ElectsOrKeeps(Elects(w, v, ev), v, v')
  {
    if ev.AcceptEvent? {
      AcceptElects(v);
    } else if ev.SafeTargetEvent? {
      SafeTargetKeepsElection(v);
    } else {
      PrepareElects(v, ev.slot);
    }
  }

  /** After every step but a production: the head is the elected one if the step ran an
      election, and otherwise it is as current as it was. */
  lemma StepElects(w: World, v: View, ev: Event, v': View)
    requires Inv(w, v) && Step(w, v, ev, v') && SlotsDecrease(v'.blocks) && !ev.ProduceEvent?
    ensures if Elects(w, v, ev) then HeadCurrent(v') else HeadCurrent(v') <==> HeadCurrent(v)
  {
    if ev.VoteEvent? || ev.AggregateEvent? {
      VoteStepElects(w, v, ev, v');
    } else if ev.BlockEvent? {
      BlockStepElects(w, v, ev, v');
    } else if ev.TickEvent? || ev.AdvanceEvent? {
      ClockStepElects(w, v, ev, v');
    } else {
      LocalStepElects(w, v, ev, v');
    }
  }

  // ----- A produced block wins the next election -----

  /** The tree with one more leaf, below a stored block and not named by any vote. */
  ghost predicate AddsLeaf(e: Election, e': Election, parent: Root, leaf: Root) {
    && SlotsDecrease(e.bs) && SlotsDecrease(e'.bs)
    && parent in e.bs && leaf !in e.bs
    && leaf in e'.bs && e'.bs[leaf].parentRoot == parent
    && e'.bs.Keys == e.bs.Keys + {leaf} && Grows(e.bs, e'.bs)
    && (forall r | r in e.bs :: e.bs[r].parentRoot != leaf)
    && e' == e.(bs := e'.bs)
    && (forall v | v in e.votes :: HeadOf(e.votes, v) in e.bs)
  }

  lemma {:induction false} LeafChangesNoAncestry(e: Election, e': Election, parent: Root, leaf: Root, d: Root, a: Root)
    requires AddsLeaf(e, e', parent, leaf) && d != leaf
    ensures Descends(e'.bs, d, a) <==> Descends(e.bs, d, a)
    decreases if d in e.bs then e.bs[d].slot + 1 else 0
  {
    if d in e.bs {
      LeafChangesNoAncestry(e, e', parent, leaf, e.bs[d].parentRoot, a);
    }
  }

  lemma LeafChangesNoScore(e: Election, e': Election, parent: Root, leaf: Root, r: Root)
    requires AddsLeaf(e, e', parent, leaf) && r in e.bs
    ensures Score(e', r) == Score(e, r)
  {
    forall v | v in e.votes
      ensures v in Supporters(e', r) <==> v in Supporters(e, r)
    {
      LeafChangesNoAncestry(e, e', parent, leaf, HeadOf(e.votes, v), r);
    }
    assert Supporters(e', r) == Supporters(e, r);
  }

  lemma LeafChangesNoCandidates(e: Election, e': Election, parent: Root, leaf: Root, p: Root)
    requires AddsLeaf(e, e', parent, leaf) && p != parent
    ensures Candidates(e', p) == Candidates(e, p)
  {
    forall r | r in e.bs
      ensures Score(e', r) == Score(e, r)
    {
      LeafChangesNoScore(e, e', parent, leaf, r);
    }
  }

  lemma LeafKeepsWinners(e: Election, e': Election, parent: Root, leaf: Root, x: Root)
    requires AddsLeaf(e, e', parent, leaf) && x in e.bs && e.bs[x].parentRoot != parent
    requires WinsAmongSiblings(e, x)
    ensures WinsAmongSiblings(e', x)
  {
    var p := e.bs[x].parentRoot;
    LeafChangesNoCandidates(e, e', parent, leaf, p);
    var cs := Candidates(e, p);
    forall r | r in cs
      ensures r == x || Beats(e', x, r)
    {
      LeafChangesNoScore(e, e', parent, leaf, r);
      LeafChangesNoScore(e, e', parent, leaf, x);
      assert r == x || Beats(e, x, r);
    }
  }

  /** With no minimum score, a new leaf on the old head is the new head. */
  lemma LeafOnHeadWins(e: Election, e': Election, root: Root, head: Root, leaf: Root)
    requires AddsLeaf(e, e', head, leaf) && e.minScore == 0 && root in e.bs
    requires IsHead(e, root, head)
    ensures Descend(e', root) == leaf
  {
    LeafChangesNoAncestry(e, e', head, leaf, head, root);
    assert Descends(e'.bs, leaf, root);
    LeafHasNoChildren(e, e', head, leaf);
    LeafIsOnlyChild(e, e', head, leaf);
    forall x | OnPath(e', root, x, leaf)
      ensures WinsAmongSiblings(e', x)
    {
      if x != leaf {
        LeafChangesNoAncestry(e, e', head, leaf, head, x);
        LeafChangesNoAncestry(e, e', head, leaf, x, root);
        assert OnPath(e, root, x, head);
        PathAvoidsChildrenOfHead(e, head, x);
        LeafKeepsWinners(e, e', head, leaf, x);
      }
    }
    HeadUnique(e', root, leaf);
  }

  lemma LeafHasNoChildren(e: Election, e': Election, parent: Root, leaf: Root)
    requires AddsLeaf(e, e', parent, leaf)
    ensures Candidates(e', leaf) == {}
  {
    LeafChangesNoCandidates(e, e', parent, leaf, leaf);
  }

  lemma LeafIsOnlyChild(e: Election, e': Election, head: Root, leaf: Root)
    requires AddsLeaf(e, e', head, leaf) && e.minScore == 0 && Candidates(e, head) == {}
    ensures Candidates(e', head) == {leaf}
    ensures WinsAmongSiblings(e', leaf)
  {
    forall r | r in e.bs
      ensures e.bs[r].parentRoot != head
    {
      assert r !in Candidates(e, head);
    }
  }

  lemma PathAvoidsChildrenOfHead(e: Election, head: Root, x: Root)
    requires SlotsDecrease(e.bs) && head in e.bs && x in e.bs && Descends(e.bs, head, x)
    ensures e.bs[x].parentRoot != head
  {
    if e.bs[x].parentRoot == head && head != x {
      DescendantIsHigher(e.bs, head, x);
    }
  }

  /** A block that ProduceBlock stored, and that was not stored before, is the head after the
      next head update, if no further vote or block arrives. */
  lemma ProducedBlockBecomesHead(w: World, u: View, v: View, slot: nat, proposer: nat, p: Collection.Proposal,
                                 target: Checkpoint, sig: Signature)
    requires Inv(w, u) && v == Prepare(u, slot) && ProposalFor(w, v, slot, proposer, p)
    requires BlockRoot(w.c, ProposedBlock(w.c, v.head, slot, proposer, p)) !in v.blocks
    ensures var e := ProposedEnvelope(w.c, v.head, v.justified, slot, proposer, p, target, sig);
            var v' := StoreProposal(w.c, v, e, p.post);
            SlotsDecrease(v'.blocks) && UpdateHead(v').head == BlockRoot(w.c, e.block)
  {
    PrepareKeeps(w, u, slot);
    PrepareElects(u, slot);
    StoreProposalKeeps(w, v, slot, proposer, p, target, sig);
    var envelope := ProposedEnvelope(w.c, v.head, v.justified, slot, proposer, p, target, sig);
    var v' := StoreProposal(w.c, v, envelope, p.post);
    var leaf := BlockRoot(w.c, envelope.block);
    StartSurvives(w, v, v');
    var start := StartOf(v.blocks, v.justified.root);
    var e, e' := ElectionFrom(v.blocks, start, v.known, 0), ElectionFrom(v'.blocks, start, v'.known, 0);
    ProposalAddsLeaf(w, v, v', start, envelope.block);
    DescendIsHead(e, start);
    LeafOnHeadWins(e, e', start, v.head, leaf);
  }

  lemma StartSurvives(w: World, v: View, v': View)
    requires Core(w, v) && Core(w, v') && v'.justified == v.justified
    ensures StartOf(v'.blocks, v.justified.root) == StartOf(v.blocks, v.justified.root)
    ensures StartOf(v.blocks, v.justified.root) in v.blocks
  {
    StartIsStored(w, v);
    StorageIsTree(w, v.blocks, v.states);
    StorageIsTree(w, v'.blocks, v'.states);
    assert IsUniqueEarliest(v.blocks, w.Anchor()) && IsUniqueEarliest(v'.blocks, w.Anchor());
  }

  lemma ProposalAddsLeaf(w: World, v: View, v': View, start: Root, b: Block)
    requires Core(w, v) && Core(w, v') && start in v.blocks
    requires v' == v.(blocks := v.blocks[BlockRoot(w.c, b) := b], signedBlocks := v'.signedBlocks, states := v'.states)
    requires BlockRoot(w.c, b) !in v.blocks && b.parentRoot == v.head
    ensures AddsLeaf(ElectionFrom(v.blocks, start, v.known, 0), ElectionFrom(v'.blocks, start, v'.known, 0), v.head,
                     BlockRoot(w.c, b))
  {
    var leaf := BlockRoot(w.c, b);
    forall r | r in v.blocks
      ensures v.blocks[r].parentRoot != leaf
    {
      if r != w.Anchor() {
        assert LinkOk(w, v.blocks, v.states, r);
      }
    }
    forall id | id in v.known
      ensures HeadOf(v.known, id) in v.blocks
    {
      assert VoteOk(w, v.blocks, id, v.known[id], CurrentSlot(v.time) + 1);
    }
  }

  // ----- Runs -----

  /** The step produces and stores a block that was not stored before. */
  ghost predicate StoresNewBlock(w: World, v: View, ev: Event)
    requires SlotsDecrease(v.blocks)
  {
    ev.ProduceEvent? && BlockRoot(w.c, Product(w, v, ev)) !in v.blocks
  }

  lemma NewBlockIsNotYetHead(w: World, v: View, ev: Event, v': View)
    requires Inv(w, v) && ev.ProduceEvent? && Step(w, v, ev, v') && StoresNewBlock(w, v, ev)
    ensures SlotsDecrease(v'.blocks) && !HeadCurrent(v')
  {
    var u := Prepare(v, ev.slot);
    PrepareKeeps(w, v, ev.slot);
    ProducedBlockBecomesHead(w, v, u, ev.slot, ev.proposer, ev.proposal, ev.target, ev.sig);
    assert v'.head == u.head && u.head in v.blocks;
  }

  lemma OldBlockKeepsHead(w: World, v: View, ev: Event, v': View)
    requires Inv(w, v) && ev.ProduceEvent? && Step(w, v, ev, v') && !StoresNewBlock(w, v, ev) && !Collides(w, v, ev)
    ensures SlotsDecrease(v'.blocks) && HeadCurrent(v')
  {
    var u := Prepare(v, ev.slot);
    PrepareElects(v, ev.slot);
    assert v'.blocks == u.blocks;
    assert SameElection(u, v');
  }

  /** After a production the head is the elected one exactly if the block was stored before. */
  lemma ProduceElectsIff(w: World, v: View, ev: Event, v': View)
    requires Inv(w, v) && ev.ProduceEvent? && Step(w, v, ev, v') && !Collides(w, v, ev) && SlotsDecrease(v'.blocks)
    ensures HeadCurrent(v') <==> !StoresNewBlock(w, v, ev)
  {
    if StoresNewBlock(w, v, ev) {
      NewBlockIsNotYetHead(w, v, ev, v');
    } else {
      OldBlockKeepsHead(w, v, ev, v');
    }
  }

  lemma NewStoreHead(w: World)
    requires w.Valid()
    ensures var v := NewView(w.c, w.genesis, w.AnchorBlock()); SlotsDecrease(v.blocks) && HeadCurrent(v)
  {
    NewStoreIsOk(w);
    var v := NewView(w.c, w.genesis, w.AnchorBlock());
    var e := ElectionFrom(v.blocks, w.Anchor(), v.known, 0);
    assert Candidates(e, w.Anchor()) == {};
  }

  ghost predicate StoresAt(w: World, events: seq<Event>, views: seq<View>, i: nat)
    requires i < |events| < |views|
  {
    Inv(w, views[i]) && StoresNewBlock(w, views[i], events[i])
  }

  ghost predicate ElectsAt(w: World, events: seq<Event>, views: seq<View>, i: nat)
    requires i < |events| < |views|
  {
    Inv(w, views[i]) && Elects(w, views[i], events[i])
  }

  ghost predicate ElectedSince(w: World, events: seq<Event>, views: seq<View>, i: nat, n: nat)
    requires i < n <= |events| < |views|
  {
    exists j: nat | i < j < n :: ElectsAt(w, events, views, j)
  }

  /** Every production of a new block was followed by an election. */
  ghost predicate AllElectedSince(w: World, events: seq<Event>, views: seq<View>, n: nat)
    requires n <= |events| < |views|
  {
    forall i: nat | i < n && StoresAt(w, events, views, i) :: ElectedSince(w, events, views, i, n)
  }

  lemma AllElectedStep(w: World, events: seq<Event>, views: seq<View>, n: nat)
    requires n < |events| < |views|
    ensures AllElectedSince(w, events, views, n + 1)
       <==> !StoresAt(w, events, views, n) && (ElectsAt(w, events, views, n) || AllElectedSince(w, events, views, n))
  {
    assert !ElectedSince(w, events, views, n, n + 1);
    forall i: nat | i < n
      ensures ElectedSince(w, events, views, i, n + 1)
              <==> ElectsAt(w, events, views, n) || ElectedSince(w, events, views, i, n)
    {}
  }

  /** At every point of a run the head is the elected block exactly if every block that was
      produced and newly stored before has been followed by an election. */
  lemma {:induction false} HeadIsElectedIff(w: World, events: seq<Event>, views: seq<View>, n: nat)
    requires w.Valid() && IsRun(w, events, views) && n < |views| && Unharmed(w, events, views, n)
    ensures Inv(w, views[n])
    ensures HeadCurrent(views[n]) <==> AllElectedSince(w, events, views, n)
  {
    RunsKeepInvariant(w, events, views, n);
    if n == 0 {
      NewStoreHead(w);
    } else {
      var k := n - 1;
      HeadIsElectedIff(w, events, views, k);
      assert StepAt(w, events, views, k) && !CollidesAt(w, events, views, k);
      AllElectedStep(w, events, views, k);
      if events[k].ProduceEvent? {
        ProduceElectsIff(w, views[k], events[k], views[n]);
      } else {
        StepElects(w, views[k], events[k], views[n]);
      }
    }
  }
}
