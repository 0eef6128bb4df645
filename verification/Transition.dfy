/** The state transition on values: empty slots, header, votes, state root. */
module Transition {
  import opened Types
  import opened Voting

  function GenerateGenesis(c: Crypto, genesisTime: nat, validators: seq<Validator>): State {
    State(genesisTime, 0, Header(0, 0, ZERO_HASH, ZERO_HASH, c.bodyRoot([])),
          Checkpoint(ZERO_HASH, 0), Checkpoint(ZERO_HASH, 0), [], [], validators, [], [])
  }

  /** The block that node/lifecycle.go pairs with the genesis state. */
  function GenesisBlock(c: Crypto, genesis: State): Block {
    Block(0, 0, ZERO_HASH, c.stateRoot(genesis), [])
  }

  function ProcessSlot(c: Crypto, s: State): State {
    if s.header.stateRoot == ZERO_HASH
    then s.(header := s.header.(stateRoot := c.stateRoot(s)))
    else s
  }

  function AdvanceSlots(c: Crypto, s: State, targetSlot: nat): (r: State)
    requires s.slot <= targetSlot
    ensures PendingShaped(s) ==> PendingShaped(r)
    decreases targetSlot - s.slot
  {
    if s.slot == targetSlot then s
    else AdvanceSlots(c, ProcessSlot(c, s).(slot := s.slot + 1), targetSlot)
  }

  function ProcessSlots(c: Crypto, s: State, targetSlot: nat): (r: Result<State>)
    ensures r.Ok? && PendingShaped(s) ==> PendingShaped(r.value)
  {
    if s.slot >= targetSlot then Err(SlotNotAfterState) else Ok(AdvanceSlots(c, s, targetSlot))
  }

  function ZeroRoots(n: nat): seq<Root> { seq(n, _ => ZERO_HASH) }

  /** The state after a block's header was accepted; nothing of the old header survives. */
  function AfterHeader(c: Crypto, s: State, b: Block): (r: State)
    requires s.header.slot < b.slot
    ensures PendingShaped(s) ==> PendingShaped(r)
  {
    var first := s.header.slot == 0;
    var numEmpty := b.slot - s.header.slot - 1;
    s.(
      slot := b.slot,
      justified := if first then Checkpoint(b.parentRoot, s.justified.slot) else s.justified,
      finalized := if first then Checkpoint(b.parentRoot, s.finalized.slot) else s.finalized,
      history := s.history + [b.parentRoot] + ZeroRoots(numEmpty),
      justifiedSlots := s.justifiedSlots + [first] + NoVotes(numEmpty),
      header := HeaderOf(c, b).(stateRoot := ZERO_HASH))
  }

  function ProcessBlockHeader(c: Crypto, s: State, b: Block): (r: Result<State>)
    ensures r.Ok? && PendingShaped(s) ==> PendingShaped(r.value)
  {
    if b.slot != s.slot then Err(SlotMismatch)
    else if b.slot <= s.header.slot then Err(SlotNotAfterHeader)
    else if |s.validators| == 0 then Err(NoValidators)
    else if !IsProposer(b.proposerIndex, s.slot, |s.validators|) then Err(NotProposer)
    else if b.parentRoot != c.headerRoot(s.header) then Err(ParentRootMismatch)
    else Ok(AfterHeader(c, s, b))
  }

  function ProcessBlock(c: Crypto, s: State, b: Block): (r: Result<State>)
    requires PendingShaped(s)
    ensures r.Ok? ==> PendingShaped(r.value)
  {
    match ProcessBlockHeader(c, s, b)
    case Err(e) => Err(e)
    case Ok(s') => Ok(ProcessAttestations(s', b.body))
  }

  function StateTransition(c: Crypto, s: State, b: Block): (r: Result<State>)
    requires PendingShaped(s)
    ensures r.Ok? ==> PendingShaped(r.value)
  {
    match ProcessSlots(c, s, b.slot)
    case Err(e) => Err(e)
    case Ok(advanced) =>
      match ProcessBlock(c, advanced, b)
      case Err(e) => Err(e)
      case Ok(post) => if b.stateRoot != c.stateRoot(post) then Err(StateRootMismatch) else Ok(post)
  }

  // ----- Closed forms -----

  /** However many empty slots pass, the header's state root is filled once, from the state
      right after its own block. */
  lemma {:induction false} AdvanceSlotsFillsOnce(c: Crypto, s: State, targetSlot: nat)
    requires s.slot < targetSlot
    ensures AdvanceSlots(c, s, targetSlot) == ProcessSlot(c, s).(slot := targetSlot)
    decreases targetSlot - s.slot
  {
    var next := ProcessSlot(c, s).(slot := s.slot + 1);
    if next.slot < targetSlot {
      AdvanceSlotsFillsOnce(c, next, targetSlot);
    }
  }

  /** The transition as a relation: all that is checked and all that is done. */
  ghost predicate Transitions(c: Crypto, s: State, b: Block, s': State) {
    && PendingShaped(s)
    && s.slot < b.slot && s.header.slot < b.slot
    && 0 < |s.validators| && IsProposer(b.proposerIndex, b.slot, |s.validators|)
    && b.parentRoot == c.headerRoot(ProcessSlot(c, s).header)
    && b.stateRoot == c.stateRoot(s')
    && s' == ProcessAttestations(AfterHeader(c, s, b), b.body)
  }

  lemma TransitionIffRelation(c: Crypto, s: State, b: Block, s': State)
    requires PendingShaped(s)
    ensures StateTransition(c, s, b) == Ok(s') <==> Transitions(c, s, b, s')
  {
    if s.slot < b.slot {
      AdvanceSlotsFillsOnce(c, s, b.slot);
      if s.header.slot < b.slot {
        assert AfterHeader(c, ProcessSlot(c, s).(slot := b.slot), b) == AfterHeader(c, s, b);
      }
    }
  }

  /** Why a block is refused: the first check that fails. After the slots have passed, the block's
      slot always matches. */
  lemma TransitionErrors(c: Crypto, s: State, b: Block)
    requires PendingShaped(s)
    ensures var r := StateTransition(c, s, b);
            if b.slot <= s.slot then r == Err(SlotNotAfterState)
            else if b.slot <= s.header.slot then r == Err(SlotNotAfterHeader)
            else if |s.validators| == 0 then r == Err(NoValidators)
            else if b.proposerIndex != b.slot % |s.validators| then r == Err(NotProposer)
            else if b.parentRoot != c.headerRoot(ProcessSlot(c, s).header) then r == Err(ParentRootMismatch)
            else r.Ok? || r == Err(StateRootMismatch)
  {
    if s.slot < b.slot {
      AdvanceSlotsFillsOnce(c, s, b.slot);
    }
  }

  /** `s` is the state that block `b` left behind. */
  ghost predicate PostStateOf(c: Crypto, s: State, b: Block) {
    && s.slot == b.slot
    && s.header == HeaderOf(c, b).(stateRoot := ZERO_HASH)
    && b.stateRoot == c.stateRoot(s)
  }

  /** The header check compares the block's parent with the root of the block behind `s`. */
  lemma ParentIsLastBlock(c: Crypto, s: State, last: Block, b: Block, s': State)
    requires PostStateOf(c, s, last) && Transitions(c, s, b, s')
    ensures b.parentRoot == BlockRoot(c, last) && last.slot < b.slot
  {
    assert ProcessSlot(c, s).header == HeaderOf(c, last);
  }

  lemma TransitionGivesPostState(c: Crypto, s: State, b: Block, s': State)
    requires Transitions(c, s, b, s')
    ensures PostStateOf(c, s', b)
    ensures s'.validators == s.validators && s'.genesisTime == s.genesisTime
  {}

  /** The state root of the block plays no part in what ProcessBlock computes, so filling it
      in afterwards turns a processed block into one that passes the whole transition. */
  lemma FillingStateRoot(c: Crypto, s: State, b: Block)
    requires PendingShaped(s) && ProcessSlots(c, s, b.slot).Ok?
    requires ProcessBlock(c, ProcessSlots(c, s, b.slot).value, b).Ok?
    ensures var post := ProcessBlock(c, ProcessSlots(c, s, b.slot).value, b).value;
            StateTransition(c, s, b.(stateRoot := c.stateRoot(post))) == Ok(post)
  {
    var advanced := ProcessSlots(c, s, b.slot).value;
    SameHeaderStep(c, advanced, b, c.stateRoot(ProcessBlock(c, advanced, b).value));
  }

  lemma SameHeaderStep(c: Crypto, s: State, b: Block, stateRoot: Root)
    ensures ProcessBlockHeader(c, s, b.(stateRoot := stateRoot)) == ProcessBlockHeader(c, s, b)
  {
    var b' := b.(stateRoot := stateRoot);
    if s.header.slot < b.slot {
      assert AfterHeader(c, s, b') == AfterHeader(c, s, b);
    }
  }
}
