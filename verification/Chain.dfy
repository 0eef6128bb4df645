/** Invariants of every chain of successful state transitions from genesis. */
module Chain {
  import opened Types
  import opened Roots
  import opened Voting
  import opened Finality
  import opened Transition

  ghost predicate IsGenesis(s: State) {
    && s.slot == s.header.slot == s.justified.slot == s.finalized.slot == 0
    && s.header.stateRoot == ZERO_HASH
    && s.history == [] && s.justifiedSlots == []
    && s.pendingRoots == [] && s.pendingVotes == []
  }

  /** The shape of every state that a block left behind. */
  ghost predicate PostBlock(s: State) {
    && 0 < s.slot == s.header.slot == |s.history| == |s.justifiedSlots|
    && s.header.stateRoot == ZERO_HASH
    && 0 < |s.validators|
    && IsJustified(s.justifiedSlots, 0)
    && Sorted(s.pendingRoots)
    && PendingShaped(s)
    && Settled(ContextOf(s), TallyOf(s))
  }

  ghost predicate Good(s: State) { IsGenesis(s) || PostBlock(s) }

  /** What one block does to history, to justified slots and to the finalized slot. */
  ghost predicate Extends(s: State, s': State, parentRoot: Root) {
    && s.header.slot < s'.slot
    && s'.history == s.history + [parentRoot] + ZeroRoots(s'.slot - s.header.slot - 1)
    && BitsKept(s.justifiedSlots, s'.justifiedSlots)
    && s.finalized.slot <= s'.finalized.slot
  }

  /** Everything of PostBlock that holds between the header and the votes. */
  ghost predicate ReadyForVotes(s: State) {
    && 0 < s.slot == s.header.slot == |s.history|
    && s.header.stateRoot == ZERO_HASH
    && 0 < |s.validators|
    && IsJustified(s.justifiedSlots, 0)
    && PendingShaped(s)
    && Settled(ContextOf(s), TallyOf(s))
  }

  /** After the header and before the votes, the tally is settled again. */
  lemma HeaderSettles(c: Crypto, s: State, b: Block)
    requires Good(s) && s.header.slot < b.slot && 0 < |s.validators|
    ensures ReadyForVotes(AfterHeader(c, s, b))
    ensures Extends(s, AfterHeader(c, s, b), b.parentRoot)
  {
    var s1 := AfterHeader(c, s, b);
    assert TallyOf(s1).pending == TallyOf(s).pending;
    if IsGenesis(s) {
      assert s1.history[0] == b.parentRoot;
      assert s1.justifiedSlots[0];
    } else {
      assert s.history <= s1.history;
      assert s.justifiedSlots <= s1.justifiedSlots;
      forall r | r in TallyOf(s1).pending
        ensures Open(ContextOf(s1), TallyOf(s1).pending[r])
      {
        assert Open(ContextOf(s), TallyOf(s).pending[r]);
      }
    }
  }

  /** A settled tally stays settled when it is stored and the new finalized slot becomes the
      reference. */
  lemma StoringSettles(s: State, t: Tally)
    requires Shaped(ContextOf(s), t) && Settled(ContextOf(s), t)
    ensures Settled(ContextOf(StoreTally(s, t)), TallyOf(StoreTally(s, t)))
  {
    TallySurvivesStorage(s, t);
    forall r | r in t.pending
      ensures Open(ContextOf(StoreTally(s, t)), t.pending[r])
    {
      assert Open(ContextOf(s), t.pending[r]);
    }
  }

  /** What the votes of a block leave alone or only add to. */
  ghost predicate KeepsThrough(s: State, s': State) {
    && s'.slot == s.slot && s'.history == s.history
    && BitsKept(s.justifiedSlots, s'.justifiedSlots)
    && s.finalized.slot <= s'.finalized.slot
  }

  lemma ExtendsThrough(s: State, s1: State, s': State, parentRoot: Root)
    requires Extends(s, s1, parentRoot) && KeepsThrough(s1, s')
    ensures Extends(s, s', parentRoot)
  {}

  lemma VotesKeepPostBlock(s: State, atts: seq<Attestation>)
    requires ReadyForVotes(s)
    ensures PostBlock(ProcessAttestations(s, atts))
    ensures KeepsThrough(s, ProcessAttestations(s, atts))
  {
    CastVotesSettled(ContextOf(s), TallyOf(s), atts);
    StoringSettles(s, CastVotes(ContextOf(s), TallyOf(s), atts));
  }

  /** The step that carries every invariant of a chain. */
  lemma TransitionKeepsGood(c: Crypto, s: State, b: Block, s': State)
    requires Good(s) && Transitions(c, s, b, s')
    ensures PostBlock(s')
    ensures Extends(s, s', b.parentRoot)
  {
    var s1 := AfterHeader(c, s, b);
    HeaderSettles(c, s, b);
    VotesKeepPostBlock(s1, b.body);
    ExtendsThrough(s, s1, s', b.parentRoot);
  }

  // ----- Chains -----

  function Run(c: Crypto, genesis: State, blocks: seq<Block>): (r: Result<State>)
    requires PendingShaped(genesis)
    ensures r.Ok? ==> PendingShaped(r.value)
  {
    if blocks == [] then Ok(genesis)
    else
      match Run(c, genesis, blocks[..|blocks| - 1])
      case Err(e) => Err(e)
      case Ok(s) => StateTransition(c, s, blocks[|blocks| - 1])
  }

  /** The last step of a chain. */
  lemma RunLast(c: Crypto, genesis: State, blocks: seq<Block>, s: State) returns (p: State)
    requires PendingShaped(genesis) && blocks != [] && Run(c, genesis, blocks) == Ok(s)
    ensures Run(c, genesis, blocks[..|blocks| - 1]) == Ok(p)
    ensures Transitions(c, p, blocks[|blocks| - 1], s)
  {
    p := Run(c, genesis, blocks[..|blocks| - 1]).value;
    TransitionIffRelation(c, p, blocks[|blocks| - 1], s);
  }

  lemma RunMore(c: Crypto, genesis: State, blocks: seq<Block>, p: State, b: Block)
    requires PendingShaped(genesis) && Run(c, genesis, blocks) == Ok(p)
    ensures Run(c, genesis, blocks + [b]) == StateTransition(c, p, b)
  {
    assert (blocks + [b])[..|blocks|] == blocks;
  }

  /** Every state of a chain has the post-block shape: equal lengths of history, justified
      bits and latest header slot; justified and finalized checkpoints that name justified
      slots and match history; pending roots with between one vote and two thirds. */
  lemma {:induction false} ChainStatesAreGood(c: Crypto, genesis: State, blocks: seq<Block>, s: State)
    requires IsGenesis(genesis) && Run(c, genesis, blocks) == Ok(s)
    ensures Good(s)
    ensures blocks != [] ==> PostBlock(s)
    decreases |blocks|
  {
    if blocks != [] {
      var p := RunLast(c, genesis, blocks, s);
      ChainStatesAreGood(c, genesis, blocks[..|blocks| - 1], p);
      TransitionKeepsGood(c, p, blocks[|blocks| - 1], s);
    }
  }

  lemma ChainStep(c: Crypto, genesis: State, blocks: seq<Block>, s: State) returns (p: State)
    requires IsGenesis(genesis) && blocks != [] && Run(c, genesis, blocks) == Ok(s)
    ensures Run(c, genesis, blocks[..|blocks| - 1]) == Ok(p)
    ensures Extends(p, s, blocks[|blocks| - 1].parentRoot)
  {
    p := RunLast(c, genesis, blocks, s);
    ChainStatesAreGood(c, genesis, blocks[..|blocks| - 1], p);
    TransitionKeepsGood(c, p, blocks[|blocks| - 1], s);
  }

  /** Later states remember everything earlier ones justified. */
  ghost predicate Remembers(early: State, late: State) {
    && early.finalized.slot <= late.finalized.slot
    && early.history <= late.history
    && BitsKept(early.justifiedSlots, late.justifiedSlots)
  }

  lemma RemembersThrough(early: State, s: State, s': State, parentRoot: Root)
    requires Remembers(early, s) && Extends(s, s', parentRoot)
    ensures Remembers(early, s')
  {}

  lemma PrefixOfPrefix<T>(s: seq<T>, n: nat, i: nat)
    requires i <= n <= |s|
    ensures s[..n][..i] == s[..i]
  {}

  /** Finality over whole chains: the finalized slot never decreases, history only grows, and
      no justified bit is ever cleared. */
  lemma {:induction false} StatesRemember(c: Crypto, genesis: State, blocks: seq<Block>, i: nat, s: State)
    returns (early: State)
    requires IsGenesis(genesis) && Run(c, genesis, blocks) == Ok(s) && i <= |blocks|
    ensures Run(c, genesis, blocks[..i]) == Ok(early)
    ensures Remembers(early, s)
    decreases |blocks|
  {
    if i == |blocks| {
      assert blocks[..i] == blocks;
      early := s;
    } else {
      var p := ChainStep(c, genesis, blocks, s);
      PrefixOfPrefix(blocks, |blocks| - 1, i);
      early := StatesRemember(c, genesis, blocks[..|blocks| - 1], i, p);
      RemembersThrough(early, p, s, blocks[|blocks| - 1].parentRoot);
    }
  }

  /** What was finalized after any prefix of a chain is, at the end of the chain, still not
      above the finalized slot, still justified, and still in history at its slot. */
  lemma FinalityIsMonotone(c: Crypto, genesis: State, blocks: seq<Block>, i: nat, early: State, late: State)
    requires IsGenesis(genesis) && 0 < i <= |blocks|
    requires Run(c, genesis, blocks[..i]) == Ok(early) && Run(c, genesis, blocks) == Ok(late)
    ensures early.finalized.slot <= late.finalized.slot
    ensures InHistory(late.history, early.finalized) && IsJustified(late.justifiedSlots, early.finalized.slot)
    ensures early.history <= late.history && BitsKept(early.justifiedSlots, late.justifiedSlots)
  {
    var e := StatesRemember(c, genesis, blocks, i, late);
    ChainStatesAreGood(c, genesis, blocks[..i], early);
    assert NamesJustifiedSlot(ContextOf(early), TallyOf(early), early.finalized);
  }

  // ----- Chains can always grow, in one way -----

  /** The only block for this slot and this body that `s` can accept. */
  function NextBlock(c: Crypto, s: State, slot: nat, body: seq<Attestation>): Block
    requires PendingShaped(s) && s.header.slot < slot && 0 < |s.validators|
  {
    var b := Block(slot, slot % |s.validators|, c.headerRoot(ProcessSlot(c, s).header), ZERO_HASH, body);
    b.(stateRoot := c.stateRoot(ProcessAttestations(AfterHeader(c, s, b), body)))
  }

  /** A good state accepts, for every later slot and every body, exactly one block. */
  lemma ExactlyOneNextBlock(c: Crypto, s: State, slot: nat, body: seq<Attestation>, b: Block)
    requires Good(s) && s.slot < slot && 0 < |s.validators| && b.slot == slot && b.body == body
    ensures PendingShaped(s) && s.header.slot < slot
    ensures StateTransition(c, s, b).Ok? <==> b == NextBlock(c, s, slot, body)
  {
    GoodSlots(s);
    NextBlockTransitions(c, s, slot, body);
    if StateTransition(c, s, b).Ok? {
      var s' := StateTransition(c, s, b).value;
      TransitionIffRelation(c, s, b, s');
      OnlyNextBlock(c, s, b, s');
    }
  }

  lemma OnlyNextBlock(c: Crypto, s: State, b: Block, s': State)
    requires Transitions(c, s, b, s')
    ensures b == NextBlock(c, s, b.slot, b.body)
  {
    SameAfterHeader(c, s, b, Block(b.slot, b.slot % |s.validators|, b.parentRoot, ZERO_HASH, b.body));
  }

  /** The state root of a block plays no part in the header step. */
  lemma SameAfterHeader(c: Crypto, s: State, b: Block, d: Block)
    requires d == b.(stateRoot := d.stateRoot) && s.header.slot < b.slot
    ensures AfterHeader(c, s, b) == AfterHeader(c, s, d)
  {}

  lemma NextBlockTransitions(c: Crypto, s: State, slot: nat, body: seq<Attestation>)
    requires PendingShaped(s) && s.slot < slot && s.header.slot < slot && 0 < |s.validators|
    ensures var next := NextBlock(c, s, slot, body);
            StateTransition(c, s, next) == Ok(ProcessAttestations(AfterHeader(c, s, next), body))
  {
    var next := NextBlock(c, s, slot, body);
    var draft := next.(stateRoot := ZERO_HASH);
    SameAfterHeader(c, s, draft, next);
    TransitionIffRelation(c, s, next, ProcessAttestations(AfterHeader(c, s, next), body));
  }

  // ----- What history holds -----

  function Last(genesisBlock: Block, blocks: seq<Block>): Block {
    if blocks == [] then genesisBlock else blocks[|blocks| - 1]
  }

  /** The blocks of the chain before its last one, the genesis block included. */
  function Earlier(genesisBlock: Block, blocks: seq<Block>): seq<Block> {
    if blocks == [] then [] else [genesisBlock] + blocks[..|blocks| - 1]
  }

  lemma EarlierGrows(g: Block, blocks: seq<Block>)
    requires blocks != []
    ensures var init := blocks[..|blocks| - 1]; Earlier(g, blocks) == Earlier(g, init) + [Last(g, init)]
  {}

  function CheckpointOf(c: Crypto, b: Block): Checkpoint { Checkpoint(BlockRoot(c, b), b.slot) }

  /** Each block's root sits at its slot, and every other entry is the zero hash. */
  ghost predicate HistoryHolds(c: Crypto, blocks: seq<Block>, history: seq<Root>) {
    && (forall b | b in blocks :: InHistory(history, CheckpointOf(c, b)))
    && (forall j: nat :: j < |history| && history[j] != ZERO_HASH ==>
          exists b | b in blocks :: CheckpointOf(c, b) == Checkpoint(history[j], j))
  }

  lemma HistoryStep(c: Crypto, blocks: seq<Block>, last: Block, before: seq<Root>, after: seq<Root>, numEmpty: nat)
    requires HistoryHolds(c, blocks, before) && |before| == last.slot
    requires after == before + [BlockRoot(c, last)] + ZeroRoots(numEmpty)
    ensures HistoryHolds(c, blocks + [last], after)
  {
    assert before <= after;
    assert last in blocks + [last];
    forall j: nat | j < |after| && after[j] != ZERO_HASH
      ensures exists b | b in blocks + [last] :: CheckpointOf(c, b) == Checkpoint(after[j], j)
    {
      if j < |before| {
        var b :| b in blocks && CheckpointOf(c, b) == Checkpoint(before[j], j);
        assert b in blocks + [last];
      } else {
        assert j == |before| && CheckpointOf(c, last) == Checkpoint(after[j], j);
      }
    }
  }

  lemma HistoryTransition(c: Crypto, blocks: seq<Block>, last: Block, p: State, b: Block, s: State)
    requires Good(p) && PostStateOf(c, p, last) && HistoryHolds(c, blocks, p.history)
    requires Transitions(c, p, b, s)
    ensures HistoryHolds(c, blocks + [last], s.history)
    ensures PostStateOf(c, s, b)
  {
    TransitionKeepsGood(c, p, b, s);
    ParentIsLastBlock(c, p, last, b, s);
    TransitionGivesPostState(c, p, b, s);
    GoodSlots(p);
    HistoryExtends(c, blocks, last, p, s);
  }

  lemma GoodSlots(s: State)
    requires Good(s)
    ensures |s.history| == s.header.slot == s.slot
  {}

  lemma HistoryExtends(c: Crypto, blocks: seq<Block>, last: Block, p: State, s: State)
    requires HistoryHolds(c, blocks, p.history) && |p.history| == p.header.slot == last.slot
    requires Extends(p, s, BlockRoot(c, last))
    ensures HistoryHolds(c, blocks + [last], s.history)
  {
    HistoryStep(c, blocks, last, p.history, s.history, s.slot - p.header.slot - 1);
  }

  /** Entry s of history is the root of the chain's block at slot s, or zero if there is none;
      the last block is not yet in history, its header is. */
  lemma {:induction false} HistoryIsTheChain(c: Crypto, genesis: State, genesisBlock: Block, blocks: seq<Block>,
                                             s: State)
    requires IsGenesis(genesis) && PostStateOf(c, genesis, genesisBlock)
    requires Run(c, genesis, blocks) == Ok(s)
    ensures HistoryHolds(c, Earlier(genesisBlock, blocks), s.history)
    ensures PostStateOf(c, s, Last(genesisBlock, blocks))
    decreases |blocks|
  {
    if blocks != [] {
      var init := blocks[..|blocks| - 1];
      var p := RunLast(c, genesis, blocks, s);
      HistoryIsTheChain(c, genesis, genesisBlock, init, p);
      ChainStatesAreGood(c, genesis, init, p);
      HistoryTransition(c, Earlier(genesisBlock, init), Last(genesisBlock, init), p, blocks[|blocks| - 1], s);
      EarlierGrows(genesisBlock, blocks);
    }
  }

  /** The genesis state and block that node/lifecycle.go builds start such a chain. */
  lemma GenesisStartsChains(c: Crypto, genesisTime: nat, validators: seq<Validator>)
    ensures var genesis := GenerateGenesis(c, genesisTime, validators);
            && IsGenesis(genesis) && PostStateOf(c, genesis, GenesisBlock(c, genesis))
            && genesis.genesisTime == genesisTime && genesis.validators == validators
            && genesis.justified == genesis.finalized == Checkpoint(ZERO_HASH, 0)
  {}
}
