/** What every operation of the store keeps. */
module StoreInvariant {
  import opened Types
  import opened Voting
  import opened Finality
  import opened Transition
  import opened Chain
  import opened BlockTree
  import opened Ghost
  import opened GetHead
  import opened StoreModel

  /** What is fixed for the life of a store: the cryptography and the genesis state. */
  datatype World = World(c: Crypto, genesis: State) {
    ghost predicate Valid() { IsGenesis(genesis) && 0 < |genesis.validators| && PostStateOf(c, genesis, AnchorBlock()) }

    function AnchorBlock(): Block { GenesisBlock(c, genesis) }

    function Anchor(): Root { BlockRoot(c, AnchorBlock()) }

    function Validators(): seq<Validator> { genesis.validators }
  }

  // ----- Storage -----

  /** A stored block sits under its own root and its stored state is what it left behind. */
  ghost predicate EntryOk(w: World, b: Block, s: State, r: Root) {
    && BlockRoot(w.c, b) == r
    && PostStateOf(w.c, s, b)
    && Good(s)
    && s.validators == w.Validators()
  }

  /** A stored block other than the anchor follows from its stored parent. */
  ghost predicate LinkOk(w: World, bs: Blocks, sts: map<Root, State>, r: Root)
    requires r in bs && r in sts
  {
    var p := bs[r].parentRoot;
    p in bs && p in sts && bs[p].slot < bs[r].slot && Transitions(w.c, sts[p], bs[r], sts[r])
  }

  ghost predicate EntriesOk(w: World, bs: Blocks, sts: map<Root, State>)
    requires bs.Keys == sts.Keys
  {
    forall r {:trigger EntryOk(w, bs[r], sts[r], r)} | r in bs :: EntryOk(w, bs[r], sts[r], r)
  }

  ghost predicate LinksOk(w: World, bs: Blocks, sts: map<Root, State>)
    requires bs.Keys == sts.Keys
  {
    forall r {:trigger LinkOk(w, bs, sts, r)} | r in bs && r != w.Anchor() :: LinkOk(w, bs, sts, r)
  }

  ghost predicate StorageOk(w: World, bs: Blocks, sts: map<Root, State>) {
    && bs.Keys == sts.Keys
    && w.Anchor() in bs && bs[w.Anchor()] == w.AnchorBlock() && sts[w.Anchor()] == w.genesis
    && EntriesOk(w, bs, sts)
    && LinksOk(w, bs, sts)
  }

  lemma StorageIsTree(w: World, bs: Blocks, sts: map<Root, State>)
    requires StorageOk(w, bs, sts)
    ensures SlotsDecrease(bs)
    ensures IsUniqueEarliest(bs, w.Anchor())
    ensures ZERO_HASH !in bs
  {
    assert forall r | r in bs :: EntryOk(w, bs[r], sts[r], r);
    forall r | r in bs && r != w.Anchor()
      ensures bs[r].parentRoot in bs && bs[bs[r].parentRoot].slot < bs[r].slot
    {
      assert LinkOk(w, bs, sts, r);
    }
  }

  /** The non-zero history entries of a stored state are the stored ancestors of its block. */
  ghost predicate HistoryStored(bs: Blocks, s: State, r: Root)
    requires SlotsDecrease(bs)
  {
    forall i: nat :: i < |s.history| && s.history[i] != ZERO_HASH ==> AncestorAt(bs, r, s.history[i], i)
  }

  ghost predicate AncestorAt(bs: Blocks, r: Root, a: Root, slot: nat)
    requires SlotsDecrease(bs)
  {
    a in bs && bs[a].slot == slot && Descends(bs, r, a)
  }

  lemma EntryHistory(w: World, b: Block, s: State, r: Root)
    requires EntryOk(w, b, s, r)
    ensures |s.history| == s.header.slot == b.slot
  {}

  /** What separates a stored state from its stored parent's. */
  lemma ParentStep(w: World, bs: Blocks, sts: map<Root, State>, r: Root)
    requires StorageOk(w, bs, sts) && r in bs && r != w.Anchor()
    ensures var p := bs[r].parentRoot;
            && p in bs && bs[p].slot < bs[r].slot
            && Extends(sts[p], sts[r], p)
            && |sts[p].history| == sts[p].header.slot == bs[p].slot
  {
    assert LinkOk(w, bs, sts, r);
    var p := bs[r].parentRoot;
    assert EntryOk(w, bs[p], sts[p], p);
    EntryHistory(w, bs[p], sts[p], p);
    TransitionKeepsGood(w.c, sts[p], bs[r], sts[r]);
  }

  lemma HistoryStoredStep(bs: Blocks, s: State, p: Root, s': State, r: Root)
    requires SlotsDecrease(bs) && r in bs && p in bs && bs[r].parentRoot == p && bs[p].slot == |s.history|
    requires HistoryStored(bs, s, p) && Extends(s, s', p)
    ensures HistoryStored(bs, s', r)
  {
    forall i: nat | i < |s'.history| && s'.history[i] != ZERO_HASH
      ensures AncestorAt(bs, r, s'.history[i], i)
    {
      if i < |s.history| {
        assert AncestorAt(bs, p, s.history[i], i);
      } else {
        assert i == |s.history|;
      }
    }
  }

  lemma {:induction false} StoredHistory(w: World, bs: Blocks, sts: map<Root, State>, r: Root)
    requires StorageOk(w, bs, sts) && r in bs && SlotsDecrease(bs) && w.Valid()
    ensures HistoryStored(bs, sts[r], r)
    decreases bs[r].slot
  {
    if r != w.Anchor() {
      ParentStep(w, bs, sts, r);
      var p := bs[r].parentRoot;
      StoredHistory(w, bs, sts, p);
      HistoryStoredStep(bs, sts[p], p, sts[r], r);
    }
  }

  /** Finality never retreats along any stored branch. */
  lemma {:induction false} FinalityAlongBranches(w: World, bs: Blocks, sts: map<Root, State>, d: Root, a: Root)
    requires StorageOk(w, bs, sts) && SlotsDecrease(bs) && d in bs && a in bs && Descends(bs, d, a)
    ensures Remembers(sts[a], sts[d])
    decreases bs[d].slot
  {
    if d != a {
      DescendantIsHigher(bs, d, a);
      var p := bs[d].parentRoot;
      StorageIsTree(w, bs, sts);
      AnchorHasNoAncestors(w, bs, sts, d, a);
      ParentStep(w, bs, sts, d);
      FinalityAlongBranches(w, bs, sts, p, a);
      RemembersThrough(sts[a], sts[p], sts[d], p);
    }
  }

  lemma AnchorHasNoAncestors(w: World, bs: Blocks, sts: map<Root, State>, d: Root, a: Root)
    requires StorageOk(w, bs, sts) && SlotsDecrease(bs) && d in bs && a in bs && Descends(bs, d, a) && d != a
    ensures d != w.Anchor()
  {
    StorageIsTree(w, bs, sts);
    DescendantIsHigher(bs, d, a);
  }

  // ----- The store -----

  ghost predicate DataStored(bs: Blocks, d: AttestationData) {
    && d.source.root in bs && d.target.root in bs && d.head.root in bs
    && bs[d.source.root].slot == d.source.slot && bs[d.target.root].slot == d.target.slot
    && d.source.slot <= d.target.slot
  }

  /** A vote is kept under its own validator, verifies, and names stored blocks. */
  ghost predicate VoteOk(w: World, bs: Blocks, id: nat, sa: SignedAttestation, lastSlot: nat) {
    && sa.validatorId == id
    && SignatureValid(w.c, w.Validators(), Unsigned(sa), sa.signature)
    && DataStored(bs, sa.message)
    && sa.message.slot <= lastSlot
  }

  ghost predicate VotesOk(w: World, bs: Blocks, votes: Votes, lastSlot: nat) {
    forall id {:trigger VoteOk(w, bs, id, votes[id], lastSlot)} | id in votes :: VoteOk(w, bs, id, votes[id], lastSlot)
  }

  ghost predicate CheckpointStored(bs: Blocks, cp: Checkpoint) {
    cp.root == ZERO_HASH || (cp.root in bs && bs[cp.root].slot == cp.slot)
  }

  /** A stored envelope holds the stored block and a verifying signature for each body vote. */
  ghost predicate EnvelopeOk(w: World, b: Block, e: Envelope, r: Root) {
    e.block == b && (r != w.Anchor() ==> BodySigned(w.c, w.Validators(), e))
  }

  ghost predicate EnvelopesOk(w: World, bs: Blocks, envelopes: map<Root, Envelope>) {
    && envelopes.Keys == bs.Keys
    && forall r {:trigger EnvelopeOk(w, bs[r], envelopes[r], r)} | r in bs :: EnvelopeOk(w, bs[r], envelopes[r], r)
  }

  /** All of the invariant except where the head is. */
  ghost predicate Core(w: World, v: View) {
    && w.Valid()
    && StorageOk(w, v.blocks, v.states)
    && SlotsDecrease(v.blocks)
    && EnvelopesOk(w, v.blocks, v.signedBlocks)
    && v.numValidators == |w.Validators()| && v.genesisTime == w.genesis.genesisTime
    && v.head in v.blocks && v.safeTarget in v.blocks
    && CheckpointStored(v.blocks, v.justified) && CheckpointStored(v.blocks, v.finalized)
    && VotesOk(w, v.blocks, v.pending, CurrentSlot(v.time))
    && VotesOk(w, v.blocks, v.known, CurrentSlot(v.time) + 1)
  }

  ghost predicate HeadOk(v: View)
    requires SlotsDecrease(v.blocks)
  {
    v.justified.root != ZERO_HASH ==> Descends(v.blocks, v.head, v.justified.root)
  }

  ghost predicate Inv(w: World, v: View) { Core(w, v) && HeadOk(v) }

  lemma InvIsShaped(w: World, v: View, r: Root)
    requires Core(w, v) && r in v.states
    ensures PendingShaped(v.states[r]) && v.states[r].validators == w.Validators() && r in v.blocks
  {
    assert EntryOk(w, v.blocks[r], v.states[r], r);
  }

  // ----- Elections -----

  lemma StartIsStored(w: World, v: View)
    requires Core(w, v)
    ensures StartOf(v.blocks, v.justified.root) in v.blocks
  {
    StorageIsTree(w, v.blocks, v.states);
    assert IsUniqueEarliest(v.blocks, w.Anchor());
  }

  lemma ElectedIsStored(w: World, v: View, votes: Votes, minScore: int)
    requires Core(w, v)
    ensures var r := Elect(v.blocks, v.justified.root, votes, minScore);
            && r in v.blocks
            && (v.justified.root != ZERO_HASH ==> Descends(v.blocks, r, v.justified.root))
  {
    StartIsStored(w, v);
    var start := StartOf(v.blocks, v.justified.root);
    DescendIsHead(ElectionFrom(v.blocks, start, votes, minScore), start);
  }

  lemma UpdateHeadRestores(w: World, v: View)
    requires Core(w, v)
    ensures Inv(w, UpdateHead(v))
  {
    ElectedIsStored(w, v, v.known, 0);
  }

  lemma UpdateSafeTargetKeeps(w: World, v: View)
    requires Inv(w, v)
    ensures Inv(w, UpdateSafeTarget(v))
  {
    ElectedIsStored(w, v, v.pending, CeilDiv(v.numValidators * 2, 3));
  }

  // ----- Time -----

  lemma AcceptRestores(w: World, v: View)
    requires Core(w, v)
    ensures Inv(w, Accept(v))
  {
    AcceptCore(w, v);
    UpdateHeadRestores(w, v.(known := v.known + v.pending, pending := map[]));
  }

  lemma AcceptCore(w: World, v: View)
    requires Core(w, v)
    ensures Core(w, v.(known := v.known + v.pending, pending := map[]))
  {
    var v' := v.(known := v.known + v.pending, pending := map[]);
    forall id | id in v'.known
      ensures VoteOk(w, v.blocks, id, v'.known[id], CurrentSlot(v.time) + 1)
    {
      if id in v.pending {
        assert VoteOk(w, v.blocks, id, v.pending[id], CurrentSlot(v.time));
      } else {
        assert VoteOk(w, v.blocks, id, v.known[id], CurrentSlot(v.time) + 1);
      }
    }
  }

  lemma LaterSlotKeepsVotes(w: World, bs: Blocks, votes: Votes, slot: nat, later: nat)
    requires VotesOk(w, bs, votes, slot) && slot <= later
    ensures VotesOk(w, bs, votes, later)
  {
    forall id | id in votes
      ensures VoteOk(w, bs, id, votes[id], later)
    {
      assert VoteOk(w, bs, id, votes[id], slot);
    }
  }

  lemma ClockKeeps(w: World, v: View, time: nat)
    requires Inv(w, v) && v.time <= time
    ensures Inv(w, v.(time := time))
  {
    LaterSlotKeepsVotes(w, v.blocks, v.pending, CurrentSlot(v.time), CurrentSlot(time));
    LaterSlotKeepsVotes(w, v.blocks, v.known, CurrentSlot(v.time) + 1, CurrentSlot(time) + 1);
  }

  lemma TickKeeps(w: World, v: View, hasProposal: bool)
    requires Inv(w, v)
    ensures Inv(w, Tick(v, hasProposal))
  {
    ClockKeeps(w, v, v.time + 1);
    IntervalActionKeeps(w, v.(time := v.time + 1), hasProposal);
  }

  lemma IntervalActionKeeps(w: World, v: View, hasProposal: bool)
    requires Inv(w, v)
    ensures Inv(w, IntervalAction(v, hasProposal))
  {
    var interval := v.time % INTERVALS_PER_SLOT;
    if interval == 2 {
      UpdateSafeTargetKeeps(w, v);
    } else if interval == 3 || (interval == 0 && hasProposal) {
      AcceptRestores(w, v);
    }
  }

  lemma {:induction false} TicksKeep(w: World, v: View, until: nat, hasProposal: bool)
    requires Inv(w, v)
    ensures Inv(w, Ticks(v, until, hasProposal))
    decreases until - v.time
  {
    if v.time < until {
      var signal := hasProposal && v.time + 1 == until;
      TickKeeps(w, v, signal);
      TicksKeep(w, Tick(v, signal), until, hasProposal);
    }
  }

  lemma AdvanceTimeKeeps(w: World, v: View, time: nat, hasProposal: bool)
    requires Inv(w, v)
    ensures Inv(w, AdvanceTime(v, time, hasProposal))
  {
    if v.genesisTime < time {
      TicksKeep(w, v, (time - v.genesisTime) / SECONDS_PER_INTERVAL, hasProposal);
    }
  }

  lemma NowKeeps(w: World, v: View, now: Option<nat>)
    requires Inv(w, v)
    ensures Inv(w, Now(v, now))
  {
    if now.Some? {
      AdvanceTimeKeeps(w, v, now.value, false);
    }
  }

  // ----- Votes -----

  lemma NewerKeeps(w: World, bs: Blocks, votes: Votes, sa: SignedAttestation, lastSlot: nat)
    requires VotesOk(w, bs, votes, lastSlot) && VoteOk(w, bs, sa.validatorId, sa, lastSlot)
    ensures VotesOk(w, bs, Newer(votes, sa), lastSlot)
  {
    var votes' := Newer(votes, sa);
    forall id | id in votes'
      ensures VoteOk(w, bs, id, votes'[id], lastSlot)
    {
      assert id in votes ==> VoteOk(w, bs, id, votes[id], lastSlot);
    }
  }

  lemma GossipKeeps(w: World, v: View, sa: SignedAttestation)
    requires Inv(w, v)
    ensures Inv(w, Gossip(w.c, v, sa))
  {
    if DataValid(v.blocks, v.time, sa.message) && SignedUnderHead(w.c, v.head, v.states, sa)
      && sa.message.slot <= CurrentSlot(v.time) {
      assert EntryOk(w, v.blocks[v.head], v.states[v.head], v.head);
      NewerKeeps(w, v.blocks, v.pending, sa, CurrentSlot(v.time));
    }
  }

  lemma OnChainKeeps(w: World, v: View, sa: SignedAttestation)
    requires Core(w, v) && SignatureValid(w.c, w.Validators(), Unsigned(sa), sa.signature)
    ensures Core(w, OnChain(v, sa))
  {
    if DataValid(v.blocks, v.time, sa.message) {
      NewerKeeps(w, v.blocks, v.known, sa, CurrentSlot(v.time) + 1);
    }
  }

  lemma {:induction false} OnChainAllKeepsCore(w: World, v: View, e: Envelope, n: nat)
    requires Core(w, v) && BodySigned(w.c, w.Validators(), e) && n <= |e.block.body|
    ensures Core(w, OnChainAll(v, e, n))
  {
    if n > 0 {
      OnChainAllKeepsCore(w, v, e, n - 1);
      OnChainKeeps(w, OnChainAll(v, e, n - 1), BodyVote(e, n - 1));
    }
  }

  // ----- Blocks -----

  /** The block follows from a stored state, and no different stored block has its root. */
  ghost predicate Insertable(w: World, v: View, b: Block, post: State) {
    var root := BlockRoot(w.c, b);
    && b.parentRoot in v.states
    && Transitions(w.c, v.states[b.parentRoot], b, post)
    && (root in v.blocks ==> v.blocks[root] == b)
  }

  lemma InsertedEntryOk(w: World, v: View, b: Block, post: State)
    requires Core(w, v) && Insertable(w, v, b, post)
    ensures EntryOk(w, b, post, BlockRoot(w.c, b))
    ensures b.parentRoot in v.blocks && v.blocks[b.parentRoot].slot < b.slot
    ensures BlockRoot(w.c, b) != w.Anchor()
  {
    var p := b.parentRoot;
    assert EntryOk(w, v.blocks[p], v.states[p], p);
    StorageIsTree(w, v.blocks, v.states);
    TransitionKeepsGood(w.c, v.states[p], b, post);
    TransitionGivesPostState(w.c, v.states[p], b, post);
  }

  /** Storing a block twice changes nothing. */
  lemma ReinsertIsNoop(w: World, v: View, b: Block, post: State)
    requires Core(w, v) && Insertable(w, v, b, post) && BlockRoot(w.c, b) in v.blocks
    ensures v.states[BlockRoot(w.c, b)] == post
  {
    InsertedEntryOk(w, v, b, post);
    assert LinkOk(w, v.blocks, v.states, BlockRoot(w.c, b));
  }

  ghost predicate Grows<T(!new)>(m: map<Root, T>, more: map<Root, T>) {
    forall r | r in m :: r in more && more[r] == m[r]
  }

  lemma LinkSurvives(w: World, bs: Blocks, sts: map<Root, State>, bs': Blocks, sts': map<Root, State>, r: Root)
    requires r in bs && r in sts && LinkOk(w, bs, sts, r) && Grows(bs, bs') && Grows(sts, sts')
    ensures LinkOk(w, bs', sts', r)
  {}

  lemma EntriesSurvive(w: World, bs: Blocks, sts: map<Root, State>, root: Root, b: Block, post: State)
    requires bs.Keys == sts.Keys && EntriesOk(w, bs, sts) && EntryOk(w, b, post, root)
    ensures EntriesOk(w, bs[root := b], sts[root := post])
  {
    var bs', sts' := bs[root := b], sts[root := post];
    forall r | r in bs'
      ensures EntryOk(w, bs'[r], sts'[r], r)
    {
      if r != root {
        assert EntryOk(w, bs[r], sts[r], r);
      }
    }
  }

  lemma LinksSurvive(w: World, bs: Blocks, sts: map<Root, State>, bs': Blocks, sts': map<Root, State>, root: Root)
    requires StorageOk(w, bs, sts) && Grows(bs, bs') && Grows(sts, sts')
    requires bs'.Keys == sts'.Keys == bs.Keys + {root}
    requires LinkOk(w, bs', sts', root)
    ensures LinksOk(w, bs', sts')
  {
    forall r | r in bs' && r != w.Anchor()
      ensures LinkOk(w, bs', sts', r)
    {
      if r != root {
        assert LinkOk(w, bs, sts, r);
        LinkSurvives(w, bs, sts, bs', sts', r);
      }
    }
  }

  lemma NewEntryKeepsStorage(w: World, bs: Blocks, sts: map<Root, State>, root: Root, b: Block, post: State)
    requires StorageOk(w, bs, sts) && root !in bs && EntryOk(w, b, post, root)
    requires LinkOk(w, bs[root := b], sts[root := post], root)
    ensures StorageOk(w, bs[root := b], sts[root := post])
  {
    EntriesSurvive(w, bs, sts, root, b, post);
    LinksSurvive(w, bs, sts, bs[root := b], sts[root := post], root);
  }

  lemma InsertedLinkOk(w: World, v: View, b: Block, post: State)
    requires Core(w, v) && Insertable(w, v, b, post) && BlockRoot(w.c, b) !in v.blocks
    ensures var root := BlockRoot(w.c, b); LinkOk(w, v.blocks[root := b], v.states[root := post], root)
  {
    InsertedEntryOk(w, v, b, post);
  }

  lemma InsertKeepsStorage(w: World, v: View, b: Block, post: State)
    requires Core(w, v) && Insertable(w, v, b, post)
    ensures var root := BlockRoot(w.c, b);
            && StorageOk(w, v.blocks[root := b], v.states[root := post])
            && SlotsDecrease(v.blocks[root := b])
            && Grows(v.blocks, v.blocks[root := b])
  {
    var root := BlockRoot(w.c, b);
    if root in v.blocks {
      ReinsertIsNoop(w, v, b, post);
      assert v.blocks[root := b] == v.blocks && v.states[root := post] == v.states;
    } else {
      InsertNew(w, v, b, post);
    }
  }

  lemma InsertNew(w: World, v: View, b: Block, post: State)
    requires Core(w, v) && Insertable(w, v, b, post) && BlockRoot(w.c, b) !in v.blocks
    ensures var root := BlockRoot(w.c, b);
            StorageOk(w, v.blocks[root := b], v.states[root := post]) && SlotsDecrease(v.blocks[root := b])
  {
    var root := BlockRoot(w.c, b);
    InsertedEntryOk(w, v, b, post);
    InsertedLinkOk(w, v, b, post);
    NewEntryKeepsStorage(w, v.blocks, v.states, root, b, post);
    StorageIsTree(w, v.blocks[root := b], v.states[root := post]);
  }

  lemma GrowthKeepsVotes(w: World, bs: Blocks, more: Blocks, votes: Votes, lastSlot: nat)
    requires VotesOk(w, bs, votes, lastSlot) && Grows(bs, more)
    ensures VotesOk(w, more, votes, lastSlot)
  {
    forall id | id in votes
      ensures VoteOk(w, more, id, votes[id], lastSlot)
    {
      assert VoteOk(w, bs, id, votes[id], lastSlot);
    }
  }

  lemma InsertKeepsEnvelopes(w: World, v: View, e: Envelope)
    requires EnvelopesOk(w, v.blocks, v.signedBlocks) && BodySigned(w.c, w.Validators(), e)
    ensures var root := BlockRoot(w.c, e.block); EnvelopesOk(w, v.blocks[root := e.block], v.signedBlocks[root := e])
  {
    var root := BlockRoot(w.c, e.block);
    var bs, es := v.blocks[root := e.block], v.signedBlocks[root := e];
    forall r | r in bs
      ensures EnvelopeOk(w, bs[r], es[r], r)
    {
      assert r != root ==> EnvelopeOk(w, v.blocks[r], v.signedBlocks[r], r);
    }
  }

  /** Everything outside storage survives when storage grows. */
  lemma GrowthKeepsRest(w: World, v: View, v': View)
    requires Inv(w, v) && v' == v.(blocks := v'.blocks, states := v'.states, signedBlocks := v'.signedBlocks)
    requires Grows(v.blocks, v'.blocks) && SlotsDecrease(v'.blocks)
    requires StorageOk(w, v'.blocks, v'.states) && EnvelopesOk(w, v'.blocks, v'.signedBlocks)
    ensures Inv(w, v')
  {
    GrowthKeepsVotes(w, v.blocks, v'.blocks, v.pending, CurrentSlot(v.time));
    GrowthKeepsVotes(w, v.blocks, v'.blocks, v.known, CurrentSlot(v.time) + 1);
    if v.justified.root != ZERO_HASH {
      DescendsInLargerTree(v.blocks, v'.blocks, v.head, v.justified.root);
    }
  }

  lemma PutBlockKeeps(w: World, v: View, e: Envelope, post: State)
    requires Inv(w, v) && Insertable(w, v, e.block, post) && BodySigned(w.c, w.Validators(), e)
    ensures Inv(w, PutBlock(v, BlockRoot(w.c, e.block), e, post))
  {
    InsertKeepsStorage(w, v, e.block, post);
    InsertKeepsEnvelopes(w, v, e);
    GrowthKeepsRest(w, v, PutBlock(v, BlockRoot(w.c, e.block), e, post));
  }

  /** The checkpoints of a stored state name stored blocks or the zero hash. */
  lemma StateCheckpointsStored(w: World, v: View, r: Root)
    requires Core(w, v) && r in v.blocks && PostBlock(v.states[r])
    ensures CheckpointStored(v.blocks, v.states[r].justified) && CheckpointStored(v.blocks, v.states[r].finalized)
  {
    StoredHistory(w, v.blocks, v.states, r);
    var s := v.states[r];
    assert NamesJustifiedSlot(ContextOf(s), TallyOf(s), s.justified);
    assert NamesJustifiedSlot(ContextOf(s), TallyOf(s), s.finalized);
    assert s.history[s.justified.slot] != ZERO_HASH
           ==> AncestorAt(v.blocks, r, s.history[s.justified.slot], s.justified.slot);
    assert s.history[s.finalized.slot] != ZERO_HASH
           ==> AncestorAt(v.blocks, r, s.history[s.finalized.slot], s.finalized.slot);
  }

  lemma FoldCheckpointsKeeps(w: World, v: View, r: Root)
    requires Core(w, v) && r in v.blocks && PostBlock(v.states[r])
    ensures Core(w, FoldCheckpoints(v, v.states[r]))
  {
    StateCheckpointsStored(w, v, r);
  }

  lemma ImportBlockKeeps(w: World, v: View, e: Envelope, post: State)
    requires Inv(w, v) && Insertable(w, v, e.block, post) && BodySigned(w.c, w.Validators(), e)
    ensures SlotsDecrease(v.blocks[BlockRoot(w.c, e.block) := e.block])
    ensures Inv(w, ImportBlock(w.c, v, e, post))
  {
    var root := BlockRoot(w.c, e.block);
    InsertKeepsStorage(w, v, e.block, post);
    PutBlockKeeps(w, v, e, post);
    assert EntryOk(w, v.blocks[e.block.parentRoot], v.states[e.block.parentRoot], e.block.parentRoot);
    TransitionKeepsGood(w.c, v.states[e.block.parentRoot], e.block, post);
    var v0 := PutBlock(v, root, e, post);
    FoldCheckpointsKeeps(w, v0, root);
    var v1 := FoldCheckpoints(v0, post);
    OnChainAllKeepsCore(w, v1, e, |e.block.body|);
    var v2 := OnChainAll(v1, e, |e.block.body|);
    UpdateHeadRestores(w, v2);
    if e.proposerAttestation.Some? {
      GossipKeeps(w, UpdateHead(v2), ProposerVote(e));
    }
  }
}
