/** ProcessAttestations on values: votes, justification and finalization inside one block. */
module Voting {
  import opened Types
  import opened Slots
  import opened Roots

  /** What a block's votes are judged against; fixed while one block is processed. */
  datatype Context = Context(history: seq<Root>, finalizedSlot: nat, numValidators: nat)

  /** The working variables of the vote loop. */
  datatype Tally = Tally(pending: map<Root, seq<bool>>, justifiedSlots: seq<bool>, justified: Checkpoint,
                         finalized: Checkpoint)

  // ----- Helpers -----

  function CountTrue(votes: seq<bool>): (count: nat)
    ensures count <= |votes|
  {
    if votes == [] then 0
    else CountTrue(votes[..|votes| - 1]) + if votes[|votes| - 1] then 1 else 0
  }

  function NoVotes(n: nat): seq<bool> { seq(n, _ => false) }

  predicate IsJustified(slots: seq<bool>, slot: nat) { slot < |slots| && slots[slot] }

  predicate InHistory(history: seq<Root>, c: Checkpoint) { c.slot < |history| && history[c.slot] == c.root }

  /** Appends false bits until `slot` is in range, then sets it. */
  function MarkJustified(slots: seq<bool>, slot: nat): (r: seq<bool>)
    ensures |r| == if slot < |slots| then |slots| else slot + 1
    ensures forall i: nat :: IsJustified(r, i) <==> i == slot || IsJustified(slots, i)
  {
    var padded := if slot < |slots| then slots else slots + NoVotes(slot + 1 - |slots|);
    padded[slot := true]
  }

  predicate HasJustifiableGap(source: nat, target: nat, finalizedSlot: nat) {
    exists s | source < s < target :: IsJustifiableAfter(s, finalizedSlot)
  }

  predicate Supermajority(count: nat, numValidators: nat) { 3 * count >= 2 * numValidators }

  // ----- One vote -----

  /** The checks before a vote is counted. */
  predicate Admissible(ctx: Context, t: Tally, a: Attestation) {
    var source, target := a.data.source, a.data.target;
    && source.slot < target.slot
    && IsJustified(t.justifiedSlots, source.slot)
    && !IsJustified(t.justifiedSlots, target.slot)
    && InHistory(ctx.history, source)
    && InHistory(ctx.history, target)
    && IsJustifiableAfter(target.slot, ctx.finalizedSlot)
    && a.validatorId < ctx.numValidators
  }

  function VotesFor(ctx: Context, t: Tally, root: Root): seq<bool> {
    if root in t.pending then t.pending[root] else NoVotes(ctx.numValidators)
  }

  ghost predicate Shaped(ctx: Context, t: Tally) {
    forall r | r in t.pending :: |t.pending[r]| == ctx.numValidators
  }

  function CastVote(ctx: Context, t: Tally, a: Attestation): (r: Tally)
    requires Shaped(ctx, t)
    ensures Shaped(ctx, r)
  {
    if !Admissible(ctx, t, a) then t
    else
      var source, target := a.data.source, a.data.target;
      var votes := VotesFor(ctx, t, target.root);
      if votes[a.validatorId] then t
      else
        var votes' := votes[a.validatorId := true];
        if !Supermajority(CountTrue(votes'), ctx.numValidators) then
          t.(pending := t.pending[target.root := votes'])
        else
          Tally(
            t.pending - {target.root},
            MarkJustified(t.justifiedSlots, target.slot),
            target,
            if HasJustifiableGap(source.slot, target.slot, ctx.finalizedSlot) then t.finalized else source)
  }

  function CastVotes(ctx: Context, t: Tally, atts: seq<Attestation>): (r: Tally)
    requires Shaped(ctx, t)
    ensures Shaped(ctx, r)
  {
    if atts == [] then t
    else CastVote(ctx, CastVotes(ctx, t, atts[..|atts| - 1]), atts[|atts| - 1])
  }

  // ----- The stored form of pending votes: sorted roots and one flat list of bits -----

  lemma MulSucc(k: nat, n: nat)
    ensures (k + 1) * n == k * n + n
  {}

  function Unpack(roots: seq<Root>, votes: seq<bool>, n: nat): (m: map<Root, seq<bool>>)
    requires |votes| == |roots| * n
    ensures forall r :: r in m <==> r in roots
    ensures forall r | r in m :: |m[r]| == n
  {
    if roots == [] then map[]
    else
      var k := |roots| - 1;
      MulSucc(k, n);
      var rest := Unpack(roots[..k], votes[..k * n], n);
      rest[roots[k] := votes[k * n..]]
  }

  function Flatten(roots: seq<Root>, m: map<Root, seq<bool>>, n: nat): (votes: seq<bool>)
    requires forall r | r in roots :: r in m && |m[r]| == n
    ensures |votes| == |roots| * n
  {
    if roots == [] then []
    else
      var k := |roots| - 1;
      MulSucc(k, n);
      Flatten(roots[..k], m, n) + m[roots[k]]
  }

  // ----- The whole of ProcessAttestations -----

  ghost predicate PendingShaped(s: State) { |s.pendingVotes| == |s.pendingRoots| * |s.validators| }

  function ContextOf(s: State): Context { Context(s.history, s.finalized.slot, |s.validators|) }

  function TallyOf(s: State): (t: Tally)
    requires PendingShaped(s)
    ensures Shaped(ContextOf(s), t)
  {
    Tally(Unpack(s.pendingRoots, s.pendingVotes, |s.validators|), s.justifiedSlots, s.justified, s.finalized)
  }

  function StoreTally(s: State, t: Tally): (r: State)
    requires Shaped(ContextOf(s), t)
    ensures PendingShaped(r)
  {
    var roots := SortedRoots(t.pending.Keys);
    s.(justifiedSlots := t.justifiedSlots, justified := t.justified, finalized := t.finalized,
       pendingRoots := roots, pendingVotes := Flatten(roots, t.pending, |s.validators|))
  }

  function ProcessAttestations(s: State, atts: seq<Attestation>): (r: State)
    requires PendingShaped(s)
    ensures PendingShaped(r)
  {
    StoreTally(s, CastVotes(ContextOf(s), TallyOf(s), atts))
  }

  function Restrict(roots: seq<Root>, m: map<Root, seq<bool>>): map<Root, seq<bool>>
    requires forall r | r in roots :: r in m
  {
    map r | r in roots :: m[r]
  }

  lemma RestrictLast(roots: seq<Root>, m: map<Root, seq<bool>>)
    requires roots != [] && forall r | r in roots :: r in m
    ensures var k := |roots| - 1; Restrict(roots, m) == Restrict(roots[..k], m)[roots[k] := m[roots[k]]]
  {
    var k := |roots| - 1;
    assert roots == roots[..k] + [roots[k]];
  }

  lemma FlattenLast(roots: seq<Root>, m: map<Root, seq<bool>>, n: nat)
    requires roots != [] && forall r | r in roots :: r in m && |m[r]| == n
    ensures var k := |roots| - 1;
            var flat := Flatten(roots, m, n);
            && |flat| == |roots| * n == k * n + n
            && flat[..k * n] == Flatten(roots[..k], m, n)
            && flat[k * n..] == m[roots[k]]
  {
    var k := |roots| - 1;
    MulSucc(k, n);
    var front, last := Flatten(roots[..k], m, n), m[roots[k]];
    assert Flatten(roots, m, n) == front + last;
    assert (front + last)[..|front|] == front && (front + last)[|front|..] == last;
  }

  /** Flattening loses nothing: reading the flat form back gives the same votes per root. */
  lemma {:induction false} UnpackFlatten(roots: seq<Root>, m: map<Root, seq<bool>>, n: nat)
    requires forall r | r in roots :: r in m && |m[r]| == n
    ensures Unpack(roots, Flatten(roots, m, n), n) == Restrict(roots, m)
  {
    if roots != [] {
      var k := |roots| - 1;
      UnpackFlatten(roots[..k], m, n);
      RestrictLast(roots, m);
      FlattenLast(roots, m, n);
    }
  }

  lemma RestrictToKeys(roots: seq<Root>, m: map<Root, seq<bool>>)
    requires forall r :: r in m.Keys <==> r in roots
    ensures Restrict(roots, m) == m
  {
    assert Restrict(roots, m).Keys == m.Keys;
  }

  /** The next block starts from exactly the tally this block ended with. */
  lemma TallySurvivesStorage(s: State, t: Tally)
    requires Shaped(ContextOf(s), t)
    ensures TallyOf(StoreTally(s, t)) == t
  {
    var roots := SortedRoots(t.pending.Keys);
    UnpackFlatten(roots, t.pending, |s.validators|);
    RestrictToKeys(roots, t.pending);
  }
}
