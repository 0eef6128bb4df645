/** The fork-choice store as a value, and what each of its operations does to it. */
module StoreModel {
  import opened Types
  import opened BlockTree
  import opened Ghost
  import opened GetHead

  datatype View = View(
    time: nat,
    genesisTime: nat,
    numValidators: nat,
    head: Root,
    safeTarget: Root,
    justified: Checkpoint,
    finalized: Checkpoint,
    blocks: Blocks,
    signedBlocks: map<Root, Envelope>,
    states: map<Root, State>,
    known: Votes,
    pending: Votes)

  /** NewStore. */
  function NewView(c: Crypto, anchorState: State, anchorBlock: Block): View {
    var root := BlockRoot(c, anchorBlock);
    var checkpoint := Checkpoint(root, anchorBlock.slot);
    View(anchorBlock.slot * SECONDS_PER_SLOT, anchorState.genesisTime, |anchorState.validators|,
         root, root, checkpoint, checkpoint,
         map[root := anchorBlock], map[root := Envelope(anchorBlock, None, [])], map[root := anchorState], map[], map[])
  }

  // ----- Elections -----

  ghost predicate IsUniqueEarliest(blocks: Blocks, r: Root) {
    r in blocks && forall x | x in blocks && x != r :: blocks[r].slot < blocks[x].slot
  }

  /** Where an election starts: the given root, or the earliest block for the zero hash. */
  ghost function StartOf(blocks: Blocks, root: Root): Root {
    if root != ZERO_HASH then root
    else if exists r: Root :: IsUniqueEarliest(blocks, r) then
      var r: Root :| IsUniqueEarliest(blocks, r);
      r
    else ZERO_HASH
  }

  ghost function Elect(blocks: Blocks, root: Root, votes: Votes, minScore: int): Root
    requires SlotsDecrease(blocks)
  {
    HeadFrom(blocks, StartOf(blocks, root), votes, minScore)
  }

  // ----- Time -----

  ghost function UpdateHead(v: View): (r: View)
    requires SlotsDecrease(v.blocks)
  {
    v.(head := Elect(v.blocks, v.justified.root, v.known, 0))
  }

  ghost function UpdateSafeTarget(v: View): (r: View)
    requires SlotsDecrease(v.blocks)
  {
    v.(safeTarget := Elect(v.blocks, v.justified.root, v.pending, CeilDiv(v.numValidators * 2, 3)))
  }

  ghost function Accept(v: View): (r: View)
    requires SlotsDecrease(v.blocks)
  {
    UpdateHead(v.(known := v.known + v.pending, pending := map[]))
  }

  /** Time moves votes, the head and the safe target, and nothing else. */
  ghost predicate SameChain(v: View, r: View) {
    r == v.(time := r.time, head := r.head, safeTarget := r.safeTarget, known := r.known, pending := r.pending)
  }

  ghost function IntervalAction(v: View, hasProposal: bool): (r: View)
    requires SlotsDecrease(v.blocks)
    ensures SameChain(v, r) && r.time == v.time
  {
    var interval := v.time % INTERVALS_PER_SLOT;
    if interval == 0 then (if hasProposal then Accept(v) else v)
    else if interval == 1 then v
    else if interval == 2 then UpdateSafeTarget(v)
    else Accept(v)
  }

  ghost function Tick(v: View, hasProposal: bool): (r: View)
    requires SlotsDecrease(v.blocks)
    ensures SameChain(v, r) && r.time == v.time + 1
  {
    IntervalAction(v.(time := v.time + 1), hasProposal)
  }

  ghost function Ticks(v: View, until: nat, hasProposal: bool): (r: View)
    requires SlotsDecrease(v.blocks)
    ensures SameChain(v, r)
    ensures r.time == if v.time < until then until else v.time
    decreases until - v.time
  {
    if v.time >= until then v
    else Ticks(Tick(v, hasProposal && v.time + 1 == until), until, hasProposal)
  }

  ghost function AdvanceTime(v: View, time: nat, hasProposal: bool): (r: View)
    requires SlotsDecrease(v.blocks)
    ensures SameChain(v, r) && v.time <= r.time
  {
    if time <= v.genesisTime then v
    else Ticks(v, (time - v.genesisTime) / SECONDS_PER_INTERVAL, hasProposal)
  }

  /** The wall clock that a step consults first, if one is installed. */
  ghost function Now(v: View, now: Option<nat>): (r: View)
    requires SlotsDecrease(v.blocks)
    ensures SameChain(v, r) && v.time <= r.time
  {
    match now
    case None => v
    case Some(t) => AdvanceTime(v, t, false)
  }

  /** Without proposals, stopping on the way changes nothing: every interval's action runs
      exactly once and in order. */
  lemma {:induction false} TicksCompose(v: View, t1: nat, t2: nat)
    requires SlotsDecrease(v.blocks) && t1 <= t2
    ensures Ticks(Ticks(v, t1, false), t2, false) == Ticks(v, t2, false)
    decreases t1 - v.time
  {
    if v.time < t1 {
      TicksCompose(Tick(v, false), t1, t2);
    }
  }

  lemma AdvanceTimeComposes(v: View, t1: nat, t2: nat)
    requires SlotsDecrease(v.blocks) && t1 <= t2
    ensures AdvanceTime(AdvanceTime(v, t1, false), t2, false) == AdvanceTime(v, t2, false)
  {
    if v.genesisTime < t1 {
      TicksCompose(v, (t1 - v.genesisTime) / SECONDS_PER_INTERVAL, (t2 - v.genesisTime) / SECONDS_PER_INTERVAL);
    }
  }

  /** With a proposal, only the last interval differs: the run up to it is the plain one. */
  lemma {:induction false} ProposalOnlyAtTheEnd(v: View, until: nat)
    requires SlotsDecrease(v.blocks) && v.time < until
    ensures Ticks(v, until, true) == Tick(Ticks(v, until - 1, false), true)
    decreases until - v.time
  {
    if v.time + 1 < until {
      ProposalOnlyAtTheEnd(Tick(v, false), until);
    }
  }

  // ----- Votes -----

  function CurrentSlot(time: nat): nat { time / INTERVALS_PER_SLOT }

  /** validateAttestationData. */
  predicate DataValid(blocks: Blocks, time: nat, d: AttestationData) {
    && d.source.root in blocks && d.target.root in blocks && d.head.root in blocks
    && blocks[d.source.root].slot <= blocks[d.target.root].slot
    && d.source.slot <= d.target.slot
    && blocks[d.source.root].slot == d.source.slot
    && blocks[d.target.root].slot == d.target.slot
    && d.slot <= CurrentSlot(time) + 1
  }

  function Unsigned(sa: SignedAttestation): Attestation { Attestation(sa.validatorId, sa.message) }

  /** A vote replaces the one in its place only if it is for a later slot. */
  function Newer(votes: Votes, sa: SignedAttestation): Votes {
    if sa.validatorId !in votes || votes[sa.validatorId].message.slot < sa.message.slot
    then votes[sa.validatorId := sa]
    else votes
  }

  /** The order of two votes matters exactly when they are different votes of one validator
      for one slot and either would replace what is there. */
  lemma VotesCommuteIff(votes: Votes, a: SignedAttestation, b: SignedAttestation)
    ensures Newer(Newer(votes, a), b) == Newer(Newer(votes, b), a)
       <==> || a.validatorId != b.validatorId
            || a.message.slot != b.message.slot
            || a == b
            || (a.validatorId in votes && a.message.slot <= votes[a.validatorId].message.slot)
  {
    var id := a.validatorId;
    var ab, ba := Newer(Newer(votes, a), b), Newer(Newer(votes, b), a);
    if id == b.validatorId {
      assert id in ab && id in ba;
      assert ab == votes[id := ab[id]] && ba == votes[id := ba[id]];
    }
  }

  predicate SignedUnderHead(c: Crypto, head: Root, states: map<Root, State>, sa: SignedAttestation) {
    head in states && SignatureValid(c, states[head].validators, Unsigned(sa), sa.signature)
  }

  /** processAttestationLocked for a vote from the network. */
  function Gossip(c: Crypto, v: View, sa: SignedAttestation): (r: View) {
    if && DataValid(v.blocks, v.time, sa.message)
       && SignedUnderHead(c, v.head, v.states, sa)
       && sa.message.slot <= CurrentSlot(v.time)
    then v.(pending := Newer(v.pending, sa))
    else v
  }

  /** processAttestationLocked for a vote from a block body. */
  function OnChain(v: View, sa: SignedAttestation): (r: View) {
    if !DataValid(v.blocks, v.time, sa.message) then v
    else
      var id := sa.validatorId;
      v.(known := Newer(v.known, sa),
         pending := if id in v.pending && v.pending[id].message.slot <= sa.message.slot
                    then v.pending - {id} else v.pending)
  }

  function BodyVote(e: Envelope, i: nat): SignedAttestation
    requires i < |e.block.body| && i < |e.signatures|
  {
    SignedAttestation(e.block.body[i].validatorId, e.block.body[i].data, e.signatures[i])
  }

  function OnChainAll(v: View, e: Envelope, n: nat): (r: View)
    requires n <= |e.block.body| && n <= |e.signatures|
  {
    if n == 0 then v else OnChain(OnChainAll(v, e, n - 1), BodyVote(e, n - 1))
  }

  /** Known votes only get later, pending ones only disappear. */
  ghost predicate MovesForward(u: View, r: View) {
    && (forall id | id in u.known :: id in r.known && u.known[id].message.slot <= r.known[id].message.slot)
    && (forall id | id in r.pending :: id in u.pending && r.pending[id] == u.pending[id])
    && r.blocks == u.blocks && r.time == u.time
  }

  lemma OnChainMovesForward(v: View, sa: SignedAttestation)
    ensures MovesForward(v, OnChain(v, sa))
  {}

  lemma MovesForwardThrough(u: View, v: View, r: View)
    requires MovesForward(u, v) && MovesForward(v, r)
    ensures MovesForward(u, r)
  {}

  lemma {:induction false} OnChainAllMovesForward(v: View, e: Envelope, m: nat, n: nat)
    requires m <= n <= |e.block.body| && n <= |e.signatures|
    ensures MovesForward(OnChainAll(v, e, m), OnChainAll(v, e, n))
    decreases n - m
  {
    if m < n {
      var u := OnChainAll(v, e, n - 1);
      OnChainAllMovesForward(v, e, m, n - 1);
      OnChainMovesForward(u, BodyVote(e, n - 1));
      MovesForwardThrough(OnChainAll(v, e, m), u, OnChainAll(v, e, n));
    }
  }

  /** After a block's body, the known vote of every voter in it is at least as late as that
      vote, and no pending vote it supersedes is left. */
  lemma BodyVotesAreKnown(v: View, e: Envelope, i: nat)
    requires i < |e.block.body| <= |e.signatures| && DataValid(v.blocks, v.time, e.block.body[i].data)
    ensures var r := OnChainAll(v, e, |e.block.body|);
            var id, slot := e.block.body[i].validatorId, e.block.body[i].data.slot;
            && id in r.known && slot <= r.known[id].message.slot
            && (id in r.pending ==> slot < r.pending[id].message.slot)
  {
    OnChainAllMovesForward(v, e, 0, i);
    OnChainAllMovesForward(v, e, i + 1, |e.block.body|);
  }

  // ----- Blocks -----

  function SignaturesExpected(e: Envelope): nat {
    |e.block.body| + if e.proposerAttestation.Some? then 1 else 0
  }

  predicate BodySigned(c: Crypto, validators: seq<Validator>, e: Envelope) {
    && |e.signatures| == SignaturesExpected(e)
    && forall i | 0 <= i < |e.block.body| :: SignatureValid(c, validators, e.block.body[i], e.signatures[i])
  }

  predicate ProposerSigned(c: Crypto, validators: seq<Validator>, e: Envelope)
    requires |e.signatures| == SignaturesExpected(e)
  {
    e.proposerAttestation.Some? ==>
      SignatureValid(c, validators, e.proposerAttestation.value, e.signatures[|e.block.body|])
  }

  function PutBlock(v: View, root: Root, e: Envelope, post: State): View {
    v.(blocks := v.blocks[root := e.block], signedBlocks := v.signedBlocks[root := e], states := v.states[root := post])
  }

  function FoldCheckpoints(v: View, post: State): View {
    v.(justified := if post.justified.slot > v.justified.slot then post.justified else v.justified,
       finalized := if post.finalized.slot > v.finalized.slot then post.finalized else v.finalized)
  }

  /** The proposer's own vote, paired with the last signature. */
  function ProposerVote(e: Envelope): SignedAttestation
    requires e.proposerAttestation.Some? && |e.block.body| < |e.signatures|
  {
    var a := e.proposerAttestation.value;
    SignedAttestation(a.validatorId, a.data, e.signatures[|e.block.body|])
  }

  /** Everything ProcessBlock does once a new block has passed all checks. */
  ghost function ImportBlock(c: Crypto, v: View, e: Envelope, post: State): (r: View)
    requires SlotsDecrease(v.blocks[BlockRoot(c, e.block) := e.block])
    requires |e.signatures| == SignaturesExpected(e)
  {
    var v1 := FoldCheckpoints(PutBlock(v, BlockRoot(c, e.block), e, post), post);
    var v2 := OnChainAll(v1, e, |e.block.body|);
    OnChainAllKeeps(v1, e, |e.block.body|);
    var v3 := UpdateHead(v2);
    if e.proposerAttestation.Some? then Gossip(c, v3, ProposerVote(e)) else v3
  }

  lemma {:induction false} OnChainAllKeeps(v: View, e: Envelope, n: nat)
    requires n <= |e.block.body| && n <= |e.signatures|
    ensures var r := OnChainAll(v, e, n); r == v.(known := r.known, pending := r.pending)
  {
    if n > 0 {
      OnChainAllKeeps(v, e, n - 1);
    }
  }
}
