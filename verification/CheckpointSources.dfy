/** Where the store's justified and finalized checkpoints come from: the states of imported
    blocks, and never those of blocks produced locally. */
module CheckpointSources {
  import opened Types
  import opened Transition
  import opened BlockTree
  import opened StoreModel
  import opened StoreInvariant
  import opened Production
  import opened StoreRuns
  import opened HeadElection
  import opened VoteOrder

  function JustifiedOf(s: State): Checkpoint { s.justified }

  function FinalizedOf(s: State): Checkpoint { s.finalized }

  function Later(cp: Checkpoint, next: Checkpoint): Checkpoint { if next.slot > cp.slot then next else cp }

  // ----- Steps -----

  /** The step receives a block that is new and passes every check. */
  ghost predicate ImportsBlock(w: World, v: View, ev: Event)
    requires Inv(w, v)
  {
    ev.BlockEvent? && (NowKeeps(w, v, ev.now); Imports(w, Now(v, ev.now), ev.envelope))
  }

  /** The state of the block that the step imports, if it does. */
  ghost function ImportedBy(w: World, v: View, ev: Event, v': View): set<State> {
    if Inv(w, v) && ImportsBlock(w, v, ev) && BlockRoot(w.c, ev.envelope.block) in v'.states
    then {v'.states[BlockRoot(w.c, ev.envelope.block)]}
    else {}
  }

  ghost predicate Folds(v: View, v': View, post: State) {
    v'.justified == Later(v.justified, post.justified) && v'.finalized == Later(v.finalized, post.finalized)
  }

  lemma ImportFolds(c: Crypto, v: View, e: Envelope, post: State)
    requires SlotsDecrease(v.blocks[BlockRoot(c, e.block) := e.block]) && |e.signatures| == SignaturesExpected(e)
    ensures Folds(v, ImportBlock(c, v, e, post), post)
  {
    OnChainAllKeeps(FoldCheckpoints(PutBlock(v, BlockRoot(c, e.block), e, post), post), e, |e.block.body|);
  }

  lemma ReceiveBlockFolds(w: World, v: View, e: Envelope) returns (post: State)
    requires Inv(w, v) && Imports(w, v, e)
    ensures var v', root := ReceiveBlock(w, v, e).view, BlockRoot(w.c, e.block);
            root in v'.states && v'.states[root] == post && Folds(v, v', post)
  {
    InvIsShaped(w, v, e.block.parentRoot);
    post := StateTransition(w.c, v.states[e.block.parentRoot], e.block).value;
    NewBlockImports(w, v, e, post);
    ImportFolds(w.c, v, e, post);
    ImportStores(w.c, v, e, post);
  }

  lemma ImportStepFolds(w: World, v: View, ev: Event, v': View) returns (post: State)
    requires Inv(w, v) && Step(w, v, ev, v') && ImportsBlock(w, v, ev)
    ensures ImportedBy(w, v, ev, v') == {post} && Folds(v, v', post)
  {
    NowKeeps(w, v, ev.now);
    post := ReceiveBlockFolds(w, Now(v, ev.now), ev.envelope);
  }

  lemma NoImportChangesNothing(w: World, v: View, e: Envelope)
    requires Inv(w, v) && !Imports(w, v, e)
    ensures ReceiveBlock(w, v, e).view == v
  {}

  lemma OtherStepFoldsNothing(w: World, v: View, ev: Event, v': View)
    requires Inv(w, v) && Step(w, v, ev, v') && !ImportsBlock(w, v, ev)
    ensures ImportedBy(w, v, ev, v') == {} && v'.justified == v.justified && v'.finalized == v.finalized
  {
    if ev.BlockEvent? {
      NowKeeps(w, v, ev.now);
      NoImportChangesNothing(w, Now(v, ev.now), ev.envelope);
    } else if ev.AggregateEvent? {
      ReceiveAggregateFrame(w.c, Now(v, ev.now), ev.data, ev.bits, ev.signature);
    }
  }

  // ----- Runs -----

  /** The states of all blocks imported in the first n steps. */
  ghost function Imported(w: World, events: seq<Event>, views: seq<View>, n: nat): set<State>
    requires n <= |events| < |views|
  {
    if n == 0 then {}
    else Imported(w, events, views, n - 1) + ImportedBy(w, views[n - 1], events[n - 1], views[n])
  }

  /** `cp` is the latest of `start` and what `f` reads from the states. */
  ghost predicate IsLatest(states: set<State>, f: State -> Checkpoint, start: Checkpoint, cp: Checkpoint) {
    && (cp == start || exists s | s in states :: f(s) == cp)
    && start.slot <= cp.slot
    && forall s | s in states :: f(s).slot <= cp.slot
  }

  lemma LatestGrows(states: set<State>, f: State -> Checkpoint, start: Checkpoint, cp: Checkpoint, post: State)
    requires IsLatest(states, f, start, cp)
    ensures IsLatest(states + {post}, f, start, Later(cp, f(post)))
  {
    assert post in states + {post};
  }

  ghost predicate CheckpointsLatest(w: World, states: set<State>, v: View) {
    && IsLatest(states, JustifiedOf, Checkpoint(w.Anchor(), 0), v.justified)
    && IsLatest(states, FinalizedOf, Checkpoint(w.Anchor(), 0), v.finalized)
  }

  lemma LatestStep(w: World, states: set<State>, v: View, ev: Event, v': View)
    requires Inv(w, v) && Step(w, v, ev, v') && CheckpointsLatest(w, states, v)
    ensures CheckpointsLatest(w, states + ImportedBy(w, v, ev, v'), v')
  {
    if ImportsBlock(w, v, ev) {
      var post := ImportStepFolds(w, v, ev, v');
      LatestGrows(states, JustifiedOf, Checkpoint(w.Anchor(), 0), v.justified, post);
      LatestGrows(states, FinalizedOf, Checkpoint(w.Anchor(), 0), v.finalized, post);
    } else {
      OtherStepFoldsNothing(w, v, ev, v');
      assert states + {} == states;
    }
  }

  /** All along every run the store's checkpoints are the latest among those of the anchor and
      of the states of imported blocks. */
  lemma {:induction false} CheckpointsAreLatest(w: World, events: seq<Event>, views: seq<View>, n: nat)
    requires w.Valid() && IsRun(w, events, views) && n < |views| && Unharmed(w, events, views, n)
    ensures CheckpointsLatest(w, Imported(w, events, views, n), views[n])
  {
    if n == 0 {
      NewStoreIsLatest(w);
    } else {
      CheckpointsAreLatest(w, events, views, n - 1);
      LatestAt(w, events, views, n - 1);
    }
  }

  lemma NewStoreIsLatest(w: World)
    ensures CheckpointsLatest(w, {}, NewView(w.c, w.genesis, w.AnchorBlock()))
  {}

  lemma LatestAt(w: World, events: seq<Event>, views: seq<View>, k: nat)
    requires w.Valid() && IsRun(w, events, views) && k < |events| && Unharmed(w, events, views, k)
    requires CheckpointsLatest(w, Imported(w, events, views, k), views[k])
    ensures CheckpointsLatest(w, Imported(w, events, views, k + 1), views[k + 1])
  {
    RunsKeepInvariant(w, events, views, k);
    assert StepAt(w, events, views, k);
    LatestStep(w, Imported(w, events, views, k), views[k], events[k], views[k + 1]);
  }

  // ----- Produced blocks -----

  /** The state of the head that a production builds on. */
  ghost function HeadState(w: World, v: View, ev: Event): State
    requires Inv(w, v) && ev.ProduceEvent?
  {
    PrepareKeeps(w, v, ev.slot);
    v.states[Prepare(v, ev.slot).head]
  }

  lemma ProductTransitions(w: World, v: View, ev: Event, v': View)
    requires Inv(w, v) && ev.ProduceEvent? && Step(w, v, ev, v')
    ensures Transitions(w.c, HeadState(w, v, ev), Product(w, v, ev), ev.proposal.post)
  {
    PrepareKeeps(w, v, ev.slot);
    ProposalTransitions(w, Prepare(v, ev.slot), ev.slot, ev.proposer, ev.proposal);
  }

  /** Producing a block leaves the checkpoints alone, so the store falls behind its own block
      exactly if the last collected vote to complete two thirds has a later target, or there
      is none and the head was already ahead. */
  lemma ProducedIsAheadIff(w: World, v: View, ev: Event, v': View)
    requires Inv(w, v) && ev.ProduceEvent? && Step(w, v, ev, v')
    ensures v'.justified == v.justified && v'.finalized == v.finalized
    ensures Transitions(w.c, HeadState(w, v, ev), Product(w, v, ev), ev.proposal.post)
    ensures v'.justified.slot < ev.proposal.post.justified.slot
       <==> JustifiesAbove(w.c, HeadState(w, v, ev), Product(w, v, ev), v.justified.slot)
  {
    ProductTransitions(w, v, ev, v');
    JustifiesAboveIff(w.c, HeadState(w, v, ev), Product(w, v, ev), ev.proposal.post, v.justified.slot);
  }

  /** The block is then known, and receiving it changes nothing. */
  lemma ProducedIsKnown(w: World, v: View, ev: Event, v': View, e: Envelope)
    requires Inv(w, v) && ev.ProduceEvent? && Step(w, v, ev, v') && !Collides(w, v, ev) && e.block == Product(w, v, ev)
    ensures Inv(w, v') && ReceiveBlock(w, v', e) == Outcome(v', None)
  {
    ProduceKeeps(w, v, ev, v');
  }
}
