/** The state transition as the source runs it: objects in the heap, bitlists as byte arrays
    that are written in place. No method here has a modifies clause on the state it is
    given, so none of them changes its input; each computes its counterpart on values. */
module StateObjects {
  import opened Types
  import opened Slots
  import opened Roots
  import opened Bitlist
  import opened Voting
  import Transition

  // ----- The stored form of pending votes, bit by bit -----

  /** The bits written so far, with zeros behind them and no sentinel yet. */
  ghost predicate Draft(bl: seq<Byte>, bits: seq<bool>) {
    forall i: nat :: i < 8 * |bl| ==> BitAt(bl, i) == (i < |bits| && bits[i])
  }

  lemma DraftExtends(before: seq<Byte>, after: seq<Byte>, bits: seq<bool>, voted: bool)
    requires Draft(before, bits)
    requires if voted then Writes(before, after, |bits|, true) else after == before
    ensures Draft(after, bits + [voted])
  {}

  lemma DraftCloses(before: seq<Byte>, after: seq<Byte>, bits: seq<bool>)
    requires Draft(before, bits) && |before| == |bits| / 8 + 1
    requires Writes(before, after, |bits|, true)
    ensures WellFormed(after) && Bits(after) == bits
  {
    assert |bits| < 8 * |before|;
    assert Encodes(after, bits);
    EncodesIffReads(after, bits);
  }

  lemma FlattenGrows(roots: seq<Root>, m: map<Root, seq<bool>>, n: nat, k: nat)
    requires k < |roots| && forall r | r in roots :: r in m && |m[r]| == n
    ensures Flatten(roots[..k + 1], m, n) == Flatten(roots[..k], m, n) + m[roots[k]]
  {
    assert roots[..k + 1][..k] == roots[..k];
  }

  lemma {:induction false} MulBound(k: nat, len: nat, n: nat)
    requires k < len
    ensures k * n + n <= len * n
  {
    MulSucc(len - 1, n);
    if k < len - 1 {
      MulBound(k, len - 1, n);
    }
  }

  method WriteVotes(bl: array<Byte>, ghost prefix: seq<bool>, votes: seq<bool>, start: nat) returns (bitPos: nat)
    requires start == |prefix| && |prefix| + |votes| < 8 * bl.Length && Draft(bl[..], prefix)
    modifies bl
    ensures bitPos == start + |votes| && Draft(bl[..], prefix + votes)
  {
    bitPos := start;
    for v := 0 to |votes|
      invariant bitPos == start + v
      invariant Draft(bl[..], prefix + votes[..v])
    {
      ghost var before := bl[..];
      if votes[v] {
        WriteBit(bl, bitPos, true);
      }
      DraftExtends(before, bl[..], prefix + votes[..v], votes[v]);
      assert prefix + votes[..v] + [votes[v]] == prefix + votes[..v + 1];
      bitPos := bitPos + 1;
    }
    assert votes[..|votes|] == votes;
  }

  method FlattenVotes(sortedRoots: seq<Root>, justifications: map<Root, seq<bool>>, numValidators: nat)
    returns (bl: array<Byte>)
    requires forall r | r in sortedRoots :: r in justifications && |justifications[r]| == numValidators
    ensures fresh(bl)
    ensures WellFormed(bl[..]) && Bits(bl[..]) == Flatten(sortedRoots, justifications, numValidators)
  {
    ghost var m, n := justifications, numValidators;
    var totalBits := |sortedRoots| * numValidators;
    if totalBits == 0 {
      bl := new Byte[1](_ => 1);
      EncodesIffReads(bl[..], []);
      return;
    }
    var numBytes := (totalBits + 1 + 7) / 8;
    bl := new Byte[numBytes](_ => 0);
    assert Draft(bl[..], []);
    var bitPos := 0;
    for k := 0 to |sortedRoots|
      invariant bitPos == k * n
      invariant Draft(bl[..], Flatten(sortedRoots[..k], m, n))
    {
      var votes := justifications[sortedRoots[k]];
      ghost var prefix := Flatten(sortedRoots[..k], m, n);
      MulBound(k, |sortedRoots|, n);
      FlattenGrows(sortedRoots, m, n, k);
      bitPos := WriteVotes(bl, prefix, votes, bitPos);
      MulSucc(k, n);
    }
    assert sortedRoots[..|sortedRoots|] == sortedRoots;
    ghost var before := bl[..];
    WriteBit(bl, totalBits, true);
    DraftCloses(before, bl[..], Flatten(sortedRoots, m, n));
  }

  method ReadVotes(flat: array<Byte>, start: nat, numValidators: nat) returns (votes: seq<bool>)
    requires start + numValidators <= Len(flat[..])
    ensures votes == Bits(flat[..])[start..start + numValidators]
  {
    votes := [];
    for v := 0 to numValidators
      invariant votes == Bits(flat[..])[start..start + v]
    {
      var bit := GetBit(flat, start + v);
      votes := votes + [bit];
    }
  }

  method UnpackVotes(roots: seq<Root>, flat: array<Byte>, numValidators: nat)
    returns (justifications: map<Root, seq<bool>>)
    requires Len(flat[..]) == |roots| * numValidators
    ensures justifications == Unpack(roots, Bits(flat[..]), numValidators)
  {
    ghost var bits, n := Bits(flat[..]), numValidators;
    justifications := map[];
    for i := 0 to |roots|
      invariant i * n <= |bits|
      invariant justifications == Unpack(roots[..i], bits[..i * n], n)
    {
      MulBound(i, |roots|, n);
      var votes := ReadVotes(flat, i * numValidators, numValidators);
      justifications := justifications[roots[i] := votes];
      MulSucc(i, n);
      UnpackGrows(roots, bits, n, i);
    }
    assert roots[..|roots|] == roots;
    assert bits[..|roots| * n] == bits;
  }

  lemma UnpackGrows(roots: seq<Root>, bits: seq<bool>, n: nat, i: nat)
    requires i < |roots| && i * n + n == (i + 1) * n <= |bits|
    ensures Unpack(roots[..i + 1], bits[..(i + 1) * n], n)
         == Unpack(roots[..i], bits[..i * n], n)[roots[i] := bits[i * n..i * n + n]]
  {
    assert roots[..i + 1][..i] == roots[..i];
    assert bits[..(i + 1) * n][..i * n] == bits[..i * n];
    assert bits[..(i + 1) * n][i * n..] == bits[i * n..i * n + n];
  }

  // ----- One pass of the vote loop -----

  method CountVotes(votes: seq<bool>) returns (count: nat)
    ensures count == CountTrue(votes)
  {
    count := 0;
    for v := 0 to |votes|
      invariant count == CountTrue(votes[..v])
    {
      assert votes[..v + 1][..v] == votes[..v];
      if votes[v] {
        count := count + 1;
      }
    }
    assert votes[..|votes|] == votes;
  }

  method FindGap(srcSlot: nat, tgtSlot: nat, finalizedSlot: nat) returns (hasGap: bool)
    ensures hasGap == HasJustifiableGap(srcSlot, tgtSlot, finalizedSlot)
  {
    hasGap := false;
    var s := srcSlot + 1;
    while s < tgtSlot
      invariant srcSlot < s
      invariant forall x :: srcSlot < x < s ==> !IsJustifiableAfter(x, finalizedSlot)
    {
      if IsJustifiableAfter(s, finalizedSlot) {
        return true;
      }
      s := s + 1;
    }
  }

  /** Appends false bits until `slot` is in range, in place where there is room. */
  method PadTo(slots: array<Byte>, slot: nat) returns (r: array<Byte>)
    requires WellFormed(slots[..])
    modifies slots
    ensures r == slots || fresh(r)
    ensures WellFormed(r[..]) && slot < Len(r[..])
    ensures old(Len(slots[..])) <= Len(r[..]) <= if slot < old(Len(slots[..])) then old(Len(slots[..])) else slot + 1
    ensures Bits(r[..]) == old(Bits(slots[..])) + NoVotes(Len(r[..]) - old(Len(slots[..])))
  {
    ghost var bits := Bits(slots[..]);
    r := slots;
    var len := BitlistLen(r);
    while len <= slot
      invariant r == slots || fresh(r)
      invariant WellFormed(r[..]) && len == Len(r[..])
      invariant |bits| <= len <= if slot < |bits| then |bits| else slot + 1
      invariant Bits(r[..]) == bits + NoVotes(len - |bits|)
      decreases slot + 1 - len
    {
      ghost var before := len;
      r := AppendBit(r, false);
      len := BitlistLen(r);
      assert NoVotes(before - |bits|) + [false] == NoVotes(before + 1 - |bits|);
    }
  }

  /** Makes room for `slot` and sets its bit. */
  method JustifySlot(slots: array<Byte>, slot: nat) returns (r: array<Byte>)
    requires WellFormed(slots[..])
    modifies slots
    ensures r == slots || fresh(r)
    ensures WellFormed(r[..]) && Bits(r[..]) == MarkJustified(old(Bits(slots[..])), slot)
  {
    r := PadTo(slots, slot);
    SetBit(r, slot, true);
  }

  method CastVoteInPlace(ghost ctx: Context, history: seq<Root>, finalizedSlot: nat, numValidators: nat,
                         justifications: map<Root, seq<bool>>, justifiedSlots: array<Byte>,
                         justified: Checkpoint, finalized: Checkpoint, att: Attestation)
    returns (justifications': map<Root, seq<bool>>, justifiedSlots': array<Byte>,
             justified': Checkpoint, finalized': Checkpoint)
    requires ctx == Context(history, finalizedSlot, numValidators)
    requires WellFormed(justifiedSlots[..])
    requires Shaped(ctx, Tally(justifications, Bits(justifiedSlots[..]), justified, finalized))
    modifies justifiedSlots
    ensures justifiedSlots' == justifiedSlots || fresh(justifiedSlots')
    ensures WellFormed(justifiedSlots'[..])
    ensures Tally(justifications', Bits(justifiedSlots'[..]), justified', finalized')
         == CastVote(ctx, Tally(justifications, old(Bits(justifiedSlots[..])), justified, finalized), att)
  {
    justifications', justifiedSlots', justified', finalized' := justifications, justifiedSlots, justified, finalized;
    ghost var t := Tally(justifications, Bits(justifiedSlots[..]), justified, finalized);
    var source, target := att.data.source, att.data.target;
    if target.slot <= source.slot {
      return;
    }
    var len := BitlistLen(justifiedSlots);
    var sourceBit := GetBit(justifiedSlots, source.slot);
    if source.slot >= len || !sourceBit {
      return;
    }
    var targetBit := GetBit(justifiedSlots, target.slot);
    if target.slot < len && targetBit {
      return;
    }
    if source.slot >= |history| || history[source.slot] != source.root {
      return;
    }
    if target.slot >= |history| || history[target.slot] != target.root {
      return;
    }
    if !IsJustifiableAfter(target.slot, finalizedSlot) {
      return;
    }
    if att.validatorId >= numValidators {
      return;
    }
    assert Admissible(ctx, t, att);
    var votes := if target.root in justifications then justifications[target.root] else NoVotes(numValidators);
    if votes[att.validatorId] {
      return;
    }
    votes := votes[att.validatorId := true];
    var count := CountVotes(votes);
    if 3 * count < 2 * numValidators {
      justifications' := justifications[target.root := votes];
      return;
    }
    justified' := target;
    justifiedSlots' := JustifySlot(justifiedSlots, target.slot);
    justifications' := justifications - {target.root};
    var hasGap := FindGap(source.slot, target.slot, finalizedSlot);
    if !hasGap {
      finalized' := source;
    }
  }

  // ----- State objects -----

  /** A block header in the heap; ProcessSlot writes through the pointer to it. */
  class HeaderObject {
    var slot: nat
    var proposerIndex: nat
    var parentRoot: Root
    var stateRoot: Root
    var bodyRoot: Root

    constructor (h: Header)
      ensures Value() == h
    {
      slot, proposerIndex := h.slot, h.proposerIndex;
      parentRoot, stateRoot, bodyRoot := h.parentRoot, h.stateRoot, h.bodyRoot;
    }

    function Value(): Header
      reads this
    {
      Header(slot, proposerIndex, parentRoot, stateRoot, bodyRoot)
    }
  }

  class StateObject {
    var genesisTime: nat
    var slot: nat
    var header: HeaderObject
    var justified: Checkpoint
    var finalized: Checkpoint
    var history: seq<Root>
    var justifiedSlots: array<Byte>
    var validators: seq<Validator>
    var pendingRoots: seq<Root>
    var pendingVotes: array<Byte>

    /** Everything that is reached from here and may be written. */
    ghost function Owned(): set<object>
      reads this
    {
      {this, header, justifiedSlots, pendingVotes}
    }

    ghost predicate Valid()
      reads this, justifiedSlots, pendingVotes
    {
      && justifiedSlots != pendingVotes
      && WellFormed(justifiedSlots[..])
      && WellFormed(pendingVotes[..])
      && Len(pendingVotes[..]) == |pendingRoots| * |validators|
    }

    /** The state as a value. */
    function Value(): (s: State)
      requires Valid()
      reads this, header, justifiedSlots, pendingVotes
      ensures PendingShaped(s)
    {
      State(genesisTime, slot, header.Value(), justified, finalized, history, Bits(justifiedSlots[..]),
            validators, pendingRoots, Bits(pendingVotes[..]))
    }

    constructor (s: State, header: HeaderObject, justifiedSlots: array<Byte>, pendingVotes: array<Byte>)
      requires header.Value() == s.header
      requires justifiedSlots != pendingVotes
      requires WellFormed(justifiedSlots[..]) && Bits(justifiedSlots[..]) == s.justifiedSlots
      requires WellFormed(pendingVotes[..]) && Bits(pendingVotes[..]) == s.pendingVotes
      requires PendingShaped(s)
      ensures Valid() && Value() == s
      ensures this.header == header && this.justifiedSlots == justifiedSlots && this.pendingVotes == pendingVotes
    {
      genesisTime, slot, justified, finalized := s.genesisTime, s.slot, s.justified, s.finalized;
      history, validators, pendingRoots := s.history, s.validators, s.pendingRoots;
      this.header, this.justifiedSlots, this.pendingVotes := header, justifiedSlots, pendingVotes;
    }

    /** The deep copy: equal value, nothing shared. */
    method Copy() returns (out: StateObject)
      requires Valid()
      ensures fresh(out.Owned())
      ensures out.Valid() && out.Value() == Value()
    {
      var s := Value();
      var h := new HeaderObject(s.header);
      var bits := CloneBitlist(justifiedSlots);
      var votes := CloneBitlist(pendingVotes);
      out := new StateObject(s, h, bits, votes);
    }

    /** Appends to the justified bits of this object, in place where there is room. */
    method StoreHeader(justified: Checkpoint, finalized: Checkpoint, history: seq<Root>, header: Header,
                       first: bool, numEmpty: nat)
      requires Valid()
      modifies this, justifiedSlots
      ensures Valid() && pendingVotes == old(pendingVotes) && fresh(this.header)
      ensures justifiedSlots == old(justifiedSlots) || fresh(justifiedSlots)
      ensures Value() == old(Value()).(
                           justified := justified, finalized := finalized, history := history, header := header,
                           justifiedSlots := old(Value()).justifiedSlots + [first] + NoVotes(numEmpty))
    {
      justifiedSlots := AppendSlots(justifiedSlots, first, numEmpty);
      this.justified, this.finalized, this.history := justified, finalized, history;
      this.header := new HeaderObject(header);
    }

    method StoreVotes(justifiedSlots: array<Byte>, justified: Checkpoint, finalized: Checkpoint,
                      roots: seq<Root>, votes: array<Byte>)
      requires Valid() && justifiedSlots != votes
      requires WellFormed(justifiedSlots[..]) && WellFormed(votes[..])
      requires Len(votes[..]) == |roots| * |validators|
      modifies this
      ensures Valid()
      ensures Value() == old(Value()).(justifiedSlots := Bits(justifiedSlots[..]), justified := justified,
                                       finalized := finalized, pendingRoots := roots, pendingVotes := Bits(votes[..]))
      ensures header == old(header) && this.justifiedSlots == justifiedSlots && this.pendingVotes == votes
    {
      this.justifiedSlots := justifiedSlots;
      this.justified := justified;
      this.finalized := finalized;
      this.pendingRoots := roots;
      this.pendingVotes := votes;
    }
  }

  method ProcessSlot(c: Crypto, state: StateObject) returns (out: StateObject)
    requires state.Valid()
    ensures out == state || fresh(out.Owned())
    ensures out.Valid() && out.Value() == Transition.ProcessSlot(c, state.Value())
  {
    if state.header.stateRoot == ZERO_HASH {
      var stateRoot := c.stateRoot(state.Value());
      out := state.Copy();
      out.header.stateRoot := stateRoot;
      return;
    }
    return state;
  }

  method ProcessSlots(c: Crypto, state: StateObject, targetSlot: nat) returns (r: Result<StateObject>)
    requires state.Valid()
    ensures r.Ok? ==> fresh(r.value.Owned()) && r.value.Valid()
    ensures match Transition.ProcessSlots(c, state.Value(), targetSlot)
            case Ok(s) => r.Ok? && r.value.Value() == s
            case Err(e) => r == Err(e)
  {
    if state.slot >= targetSlot {
      return Err(SlotNotAfterState);
    }
    var s := AdvanceSlots(c, state, targetSlot);
    return Ok(s);
  }

  method AdvanceSlots(c: Crypto, state: StateObject, targetSlot: nat) returns (s: StateObject)
    requires state.Valid() && state.slot < targetSlot
    ensures fresh(s.Owned()) && s.Valid()
    ensures s.Value() == Transition.AdvanceSlots(c, state.Value(), targetSlot)
  {
    ghost var value := state.Value();
    ghost var goal := Transition.AdvanceSlots(c, value, targetSlot);
    s := state;
    while s.slot < targetSlot
      invariant s == state || fresh(s.Owned())
      invariant s.Valid() && s.Value() == value
      invariant value.slot <= targetSlot && Transition.AdvanceSlots(c, value, targetSlot) == goal
      decreases targetSlot - s.slot
    {
      s := NextSlot(c, s);
      value := Transition.ProcessSlot(c, value).(slot := value.slot + 1);
    }
  }

  method NextSlot(c: Crypto, state: StateObject) returns (out: StateObject)
    requires state.Valid()
    ensures fresh(out.Owned()) && out.Valid()
    ensures out.Value() == Transition.ProcessSlot(c, state.Value()).(slot := state.slot + 1)
  {
    var s := ProcessSlot(c, state);
    out := s.Copy();
    out.slot := s.slot + 1;
  }

  /** Appends the parent and the empty slots to a bitlist that the caller owns. */
  method AppendSlots(bits: array<Byte>, first: bool, numEmpty: nat) returns (r: array<Byte>)
    requires WellFormed(bits[..])
    modifies bits
    ensures r == bits || fresh(r)
    ensures WellFormed(r[..]) && Bits(r[..]) == old(Bits(bits[..])) + [first] + NoVotes(numEmpty)
  {
    ghost var before := Bits(bits[..]);
    r := AppendBit(bits, first);
    for i := 0 to numEmpty
      invariant r == bits || fresh(r)
      invariant WellFormed(r[..]) && Bits(r[..]) == before + [first] + NoVotes(i)
    {
      r := AppendBit(r, false);
      assert NoVotes(i) + [false] == NoVotes(i + 1);
    }
  }

  method AppendHistory(history: seq<Root>, parentRoot: Root, numEmpty: nat) returns (r: seq<Root>)
    ensures r == history + [parentRoot] + Transition.ZeroRoots(numEmpty)
  {
    r := history + [parentRoot];
    for i := 0 to numEmpty
      invariant r == history + [parentRoot] + Transition.ZeroRoots(i)
    {
      r := r + [ZERO_HASH];
    }
  }

  method ProcessBlockHeader(c: Crypto, state: StateObject, block: Block) returns (r: Result<StateObject>)
    requires state.Valid()
    ensures r.Ok? ==> fresh(r.value.Owned()) && r.value.Valid()
    ensures match Transition.ProcessBlockHeader(c, state.Value(), block)
            case Ok(s) => r.Ok? && r.value.Value() == s
            case Err(e) => r == Err(e)
  {
    if block.slot != state.slot {
      return Err(SlotMismatch);
    }
    if block.slot <= state.header.slot {
      return Err(SlotNotAfterHeader);
    }
    if |state.validators| == 0 {
      return Err(NoValidators);
    }
    if !IsProposer(block.proposerIndex, state.slot, |state.validators|) {
      return Err(NotProposer);
    }
    var expectedParent := c.headerRoot(state.header.Value());
    if block.parentRoot != expectedParent {
      return Err(ParentRootMismatch);
    }
    var out := ApplyHeader(c, state, block);
    return Ok(out);
  }

  method ApplyHeader(c: Crypto, state: StateObject, block: Block) returns (out: StateObject)
    requires state.Valid() && state.slot == block.slot && state.header.slot < block.slot
    ensures fresh(out.Owned()) && out.Valid()
    ensures out.Value() == Transition.AfterHeader(c, state.Value(), block)
  {
    ghost var s := state.Value();
    out := state.Copy();
    var parentRoot := block.parentRoot;
    var justified, finalized := state.justified, state.finalized;
    if state.header.slot == 0 {
      justified := Checkpoint(parentRoot, state.justified.slot);
      finalized := Checkpoint(parentRoot, state.finalized.slot);
    }
    var numEmpty := block.slot - state.header.slot - 1;
    var history := AppendHistory(state.history, parentRoot, numEmpty);
    var bodyRoot := c.bodyRoot(block.body);
    var header := Header(block.slot, block.proposerIndex, block.parentRoot, ZERO_HASH, bodyRoot);
    out.StoreHeader(justified, finalized, history, header, state.header.slot == 0, numEmpty);
    HeaderFields(c, s, block);
  }

  lemma HeaderFields(c: Crypto, s: State, b: Block)
    requires s.slot == b.slot && s.header.slot < b.slot
    ensures var first, numEmpty := s.header.slot == 0, b.slot - s.header.slot - 1;
            Transition.AfterHeader(c, s, b) ==
            s.(justified := if first then Checkpoint(b.parentRoot, s.justified.slot) else s.justified,
               finalized := if first then Checkpoint(b.parentRoot, s.finalized.slot) else s.finalized,
               history := s.history + [b.parentRoot] + Transition.ZeroRoots(numEmpty),
               header := Header(b.slot, b.proposerIndex, b.parentRoot, ZERO_HASH, c.bodyRoot(b.body)),
               justifiedSlots := s.justifiedSlots + [first] + NoVotes(numEmpty))
  {}

  /** The vote loop: from the stored form to the final working variables. */
  method TallyVotes(state: StateObject, attestations: seq<Attestation>)
    returns (justifications: map<Root, seq<bool>>, justifiedSlots: array<Byte>, justified: Checkpoint,
             finalized: Checkpoint)
    requires state.Valid()
    ensures fresh(justifiedSlots) && WellFormed(justifiedSlots[..])
    ensures Tally(justifications, Bits(justifiedSlots[..]), justified, finalized)
         == CastVotes(ContextOf(state.Value()), TallyOf(state.Value()), attestations)
  {
    ghost var ctx, t := ContextOf(state.Value()), TallyOf(state.Value());
    var numValidators := |state.validators|;
    justifications := UnpackVotes(state.pendingRoots, state.pendingVotes, numValidators);
    justifiedSlots := CloneBitlist(state.justifiedSlots);
    justified, finalized := state.justified, state.finalized;
    var originalFinalizedSlot := state.finalized.slot;
    for i := 0 to |attestations|
      invariant fresh(justifiedSlots) && WellFormed(justifiedSlots[..])
      invariant Tally(justifications, Bits(justifiedSlots[..]), justified, finalized)
             == CastVotes(ctx, t, attestations[..i])
    {
      justifications, justifiedSlots, justified, finalized :=
        CastVoteInPlace(ctx, state.history, originalFinalizedSlot, numValidators,
                        justifications, justifiedSlots, justified, finalized, attestations[i]);
      assert attestations[..i + 1][..i] == attestations[..i];
    }
    assert attestations[..|attestations|] == attestations;
  }

  lemma StoredFields(s: State, t: Tally, roots: seq<Root>, votes: seq<bool>)
    requires Shaped(ContextOf(s), t) && roots == SortedRoots(t.pending.Keys)
    requires votes == Flatten(roots, t.pending, |s.validators|)
    ensures s.(justifiedSlots := t.justifiedSlots, justified := t.justified, finalized := t.finalized,
               pendingRoots := roots, pendingVotes := votes) == StoreTally(s, t)
  {}

  method ProcessAttestations(state: StateObject, attestations: seq<Attestation>) returns (out: StateObject)
    requires state.Valid()
    ensures fresh(out.Owned()) && out.Valid()
    ensures out.Value() == Voting.ProcessAttestations(state.Value(), attestations)
  {
    var justifications, justifiedSlots, justified, finalized := TallyVotes(state, attestations);
    out := StoreResult(state, justifications, justifiedSlots, justified, finalized);
  }

  /** Serializes the working variables into a copy of the state. */
  method StoreResult(state: StateObject, justifications: map<Root, seq<bool>>, justifiedSlots: array<Byte>,
                     justified: Checkpoint, finalized: Checkpoint) returns (out: StateObject)
    requires state.Valid() && WellFormed(justifiedSlots[..])
    requires Shaped(ContextOf(state.Value()), Tally(justifications, Bits(justifiedSlots[..]), justified, finalized))
    ensures fresh(out) && fresh(out.header) && fresh(out.pendingVotes) && out.justifiedSlots == justifiedSlots
    ensures out.Valid()
    ensures out.Value()
            == StoreTally(state.Value(), Tally(justifications, Bits(justifiedSlots[..]), justified, finalized))
  {
    ghost var s, t := state.Value(), Tally(justifications, Bits(justifiedSlots[..]), justified, finalized);
    var sortedRoots, flatVotes := Serialize(justifications, |state.validators|);
    out := CopyWith(state, justifiedSlots, justified, finalized, sortedRoots, flatVotes);
    StoredFields(s, t, sortedRoots, Bits(flatVotes[..]));
  }

  method CopyWith(state: StateObject, justifiedSlots: array<Byte>, justified: Checkpoint, finalized: Checkpoint,
                  roots: seq<Root>, votes: array<Byte>) returns (out: StateObject)
    requires state.Valid() && justifiedSlots != votes
    requires WellFormed(justifiedSlots[..]) && WellFormed(votes[..])
    requires Len(votes[..]) == |roots| * |state.validators|
    ensures fresh(out) && fresh(out.header) && out.justifiedSlots == justifiedSlots && out.pendingVotes == votes
    ensures out.Valid()
    ensures out.Value() == state.Value().(justifiedSlots := Bits(justifiedSlots[..]), justified := justified,
                                          finalized := finalized, pendingRoots := roots,
                                          pendingVotes := Bits(votes[..]))
  {
    out := state.Copy();
    out.StoreVotes(justifiedSlots, justified, finalized, roots, votes);
  }

  method Serialize(justifications: map<Root, seq<bool>>, numValidators: nat)
    returns (roots: seq<Root>, votes: array<Byte>)
    requires forall r | r in justifications :: |justifications[r]| == numValidators
    ensures roots == SortedRoots(justifications.Keys)
    ensures fresh(votes) && WellFormed(votes[..]) && Bits(votes[..]) == Flatten(roots, justifications, numValidators)
  {
    roots := SortedJustificationRoots(justifications);
    assert forall r | r in roots :: r in justifications.Keys;
    votes := FlattenVotes(roots, justifications, numValidators);
  }

  method ProcessBlock(c: Crypto, state: StateObject, block: Block) returns (r: Result<StateObject>)
    requires state.Valid()
    ensures r.Ok? ==> fresh(r.value.Owned()) && r.value.Valid()
    ensures match Transition.ProcessBlock(c, state.Value(), block)
            case Ok(s) => r.Ok? && r.value.Value() == s
            case Err(e) => r == Err(e)
  {
    r := ProcessBlockHeader(c, state, block);
    if r.Ok? {
      var s := ProcessAttestations(r.value, block.body);
      r := Ok(s);
    }
  }

  /** StateTransition computes the transition on values and, for lack of a modifies clause,
      leaves the object it was given and everything reachable from it as it was. */
  method StateTransition(c: Crypto, state: StateObject, block: Block) returns (r: Result<StateObject>)
    requires state.Valid()
    ensures r.Ok? ==> fresh(r.value.Owned()) && r.value.Valid()
    ensures match Transition.StateTransition(c, state.Value(), block)
            case Ok(s) => r.Ok? && r.value.Value() == s
            case Err(e) => r == Err(e)
    ensures state.Valid() && state.Value() == old(state.Value())
  {
    r := ProcessSlots(c, state, block.slot);
    if r.Err? {
      return;
    }
    r := ProcessBlock(c, r.value, block);
    if r.Err? {
      return;
    }
    var computedRoot := c.stateRoot(r.value.Value());
    if block.stateRoot != computedRoot {
      return Err(StateRootMismatch);
    }
  }

  method GenerateGenesis(c: Crypto, genesisTime: nat, validators: seq<Validator>) returns (state: StateObject)
    ensures fresh(state.Owned()) && state.Valid()
    ensures state.Value() == Transition.GenerateGenesis(c, genesisTime, validators)
  {
    var bits := MakeBitlist(0);
    var votes := MakeBitlist(0);
    assert Bits(bits[..]) == [] && Bits(votes[..]) == [];
    var s := Transition.GenerateGenesis(c, genesisTime, validators);
    var header := new HeaderObject(s.header);
    assert PendingShaped(s) && bits != votes;
    state := new StateObject(s, header, bits, votes);
  }
}
