/** Aggregating votes into one bitlist and one concatenated signature, and taking them apart. */
module Aggregation {
  import opened Types
  import opened Roots
  import opened Bitlist

  /** An aggregate as the source holds it: the bits are a byte buffer. */
  datatype AggregatedAttestation =
    AggregatedAttestation(data: AttestationData, bits: array<Byte>, signature: seq<Octet>)

  // ----- Ids -----

  /** The positions of the set bits, in ascending order. */
  function Indices(bits: seq<bool>): (ids: seq<nat>)
    ensures Sorted(ids)
    ensures forall i :: i in ids <==> 0 <= i < |bits| && bits[i]
  {
    if bits == [] then []
    else
      var k := |bits| - 1;
      var front := Indices(bits[..k]);
      assert forall i :: 0 <= i < |front| ==> front[i] in front;
      if bits[k] then front + [k] else front
  }

  function Ids(atts: seq<SignedAttestation>): seq<nat> {
    seq(|atts|, i requires 0 <= i < |atts| => atts[i].validatorId)
  }

  /** The bits that have exactly the ids of `atts` set. */
  ghost predicate MarksIds(bits: seq<bool>, atts: seq<SignedAttestation>) {
    forall i: nat :: (i < |bits| && bits[i]) <==> i in Ids(atts)
  }

  predicate Ordered(atts: seq<SignedAttestation>) {
    forall i, j :: 0 <= i < j < |atts| ==> atts[i].validatorId <= atts[j].validatorId
  }

  predicate Distinct(atts: seq<SignedAttestation>) {
    forall i, j :: 0 <= i < j < |atts| ==> atts[i].validatorId != atts[j].validatorId
  }

  lemma IndicesAreIds(bits: seq<bool>, atts: seq<SignedAttestation>)
    requires MarksIds(bits, atts) && Ordered(atts) && Distinct(atts)
    ensures Indices(bits) == Ids(atts)
  {
    ListingUnique(Indices(bits), Ids(atts));
  }

  function Elements(s: seq<nat>): set<nat> { set x | x in s }

  lemma ElementsLast(s: seq<nat>)
    requires s != []
    ensures var k := |s| - 1; Elements(s) == Elements(s[..k]) + {s[k]}
  {
    var k := |s| - 1;
    assert s == s[..k] + [s[k]];
  }

  lemma {:induction false} ElementsAtMostLength(s: seq<nat>)
    ensures |Elements(s)| <= |s|
  {
    if s != [] {
      ElementsLast(s);
      ElementsAtMostLength(s[..|s| - 1]);
    }
  }

  lemma {:induction false} DistinctSize(s: seq<nat>)
    requires forall i, j :: 0 <= i < j < |s| ==> s[i] != s[j]
    ensures |Elements(s)| == |s|
  {
    if s != [] {
      var k := |s| - 1;
      ElementsLast(s);
      DistinctSize(s[..k]);
      assert s[k] !in Elements(s[..k]);
    }
  }

  lemma RepeatedElementShrinks(s: seq<nat>, i: nat, j: nat)
    requires i < j < |s| && s[i] == s[j]
    ensures |Elements(s)| < |s|
  {
    var t := s[..j] + s[j + 1..];
    ElementsAtMostLength(t);
    forall x
      ensures x in s <==> x in t
    {
      if x in s {
        var k :| 0 <= k < |s| && s[k] == x;
        assert x == if k < j then t[k] else if k == j then t[i] else t[k - 1];
      }
    }
    assert Elements(s) == Elements(t);
  }

  /** A repeated id leaves fewer bits than votes. */
  lemma RepeatedIdLosesABit(bits: seq<bool>, atts: seq<SignedAttestation>)
    requires MarksIds(bits, atts) && !Distinct(atts)
    ensures |Indices(bits)| < |atts|
  {
    var i, j :| 0 <= i < j < |atts| && atts[i].validatorId == atts[j].validatorId;
    RepeatedElementShrinks(Ids(atts), i, j);
    DistinctSize(Indices(bits));
    assert Elements(Indices(bits)) == Elements(Ids(atts));
  }

  // ----- Signatures -----

  function Concatenated(atts: seq<SignedAttestation>): (bytes: seq<Octet>)
    ensures |bytes| == |atts| * SIGNATURE_SIZE
  {
    if atts == [] then []
    else Concatenated(atts[..|atts| - 1]) + atts[|atts| - 1].signature
  }

  function Chunk(bytes: seq<Octet>, i: nat): Signature
    requires (i + 1) * SIGNATURE_SIZE <= |bytes|
  {
    bytes[i * SIGNATURE_SIZE..(i + 1) * SIGNATURE_SIZE]
  }

  function Chunks(bytes: seq<Octet>, n: nat): (sigs: seq<Signature>)
    requires |bytes| == n * SIGNATURE_SIZE
    ensures |sigs| == n && forall i | 0 <= i < n :: sigs[i] == Chunk(bytes, i)
  {
    seq(n, i requires 0 <= i < n => Chunk(bytes, i))
  }

  lemma {:induction false} ChunkIsSignature(atts: seq<SignedAttestation>, i: nat)
    requires i < |atts|
    ensures Chunk(Concatenated(atts), i) == atts[i].signature
  {
    var k := |atts| - 1;
    var front := Concatenated(atts[..k]);
    assert Concatenated(atts) == front + atts[k].signature;
    if i < k {
      ChunkIsSignature(atts[..k], i);
      assert Chunk(Concatenated(atts), i) == Chunk(front, i);
    }
  }

  // ----- Taking apart -----

  datatype Parts = Parts(ids: seq<nat>, signatures: seq<Signature>)

  /** The vote of one validator in an aggregate over `data`. */
  function PartVote(data: AttestationData, parts: Parts, i: nat): SignedAttestation
    requires i < |parts.ids| && i < |parts.signatures|
  {
    SignedAttestation(parts.ids[i], data, parts.signatures[i])
  }

  function Disaggregated(bits: seq<bool>, signature: seq<Octet>): (r: Result<Parts>)
    ensures r.Ok? ==> |r.value.ids| == |r.value.signatures|
  {
    var ids := Indices(bits);
    if |signature| != |ids| * SIGNATURE_SIZE then Err(SignatureLengthMismatch)
    else Ok(Parts(ids, Chunks(signature, |ids|)))
  }

  /** Disaggregating an aggregate succeeds exactly when the ids were distinct, and then gives
      the ids in ascending order, each with its own signature. */
  lemma DisaggregateInverts(bits: seq<bool>, sorted: seq<SignedAttestation>)
    requires MarksIds(bits, sorted) && Ordered(sorted)
    ensures Disaggregated(bits, Concatenated(sorted)).Ok? <==> Distinct(sorted)
    ensures Distinct(sorted) ==>
              var parts := Disaggregated(bits, Concatenated(sorted)).value;
              && Sorted(parts.ids) && parts.ids == Ids(sorted)
              && forall i | 0 <= i < |sorted| :: parts.signatures[i] == sorted[i].signature
  {
    if Distinct(sorted) {
      IndicesAreIds(bits, sorted);
      forall i | 0 <= i < |sorted|
        ensures Chunk(Concatenated(sorted), i) == sorted[i].signature
      {
        ChunkIsSignature(sorted, i);
      }
    } else {
      RepeatedIdLosesABit(bits, sorted);
    }
  }

  method DisaggregateAttestation(agg: AggregatedAttestation) returns (r: Result<Parts>)
    ensures r == Disaggregated(Bits(agg.bits[..]), agg.signature)
  {
    var numBits := BitlistLen(agg.bits);
    ghost var bits := Bits(agg.bits[..]);
    var validatorIds := [];
    for i := 0 to numBits
      invariant validatorIds == Indices(bits[..i])
    {
      var bit := GetBit(agg.bits, i);
      if bit {
        validatorIds := validatorIds + [i];
      }
      assert bits[..i + 1][..i] == bits[..i];
    }
    assert bits[..numBits] == bits;
    var expectedLen := |validatorIds| * SIGNATURE_SIZE;
    if |agg.signature| != expectedLen {
      return Err(SignatureLengthMismatch);
    }
    var sigs: seq<Signature> := [];
    for i := 0 to |validatorIds|
      invariant |sigs| == i
      invariant forall j :: 0 <= j < i ==> sigs[j] == Chunk(agg.signature, j)
    {
      sigs := sigs + [Chunk(agg.signature, i)];
    }
    assert sigs == Chunks(agg.signature, |validatorIds|);
    return Ok(Parts(validatorIds, sigs));
  }

  // ----- Putting together -----

  /** sort.Slice by validator id. */
  method SortById(atts: seq<SignedAttestation>) returns (sorted: seq<SignedAttestation>)
    ensures Ordered(sorted) && multiset(sorted) == multiset(atts)
  {
    sorted := [];
    for i := 0 to |atts|
      invariant Ordered(sorted) && multiset(sorted) == multiset(atts[..i])
    {
      sorted := InsertById(sorted, atts[i]);
      assert atts[..i + 1] == atts[..i] + [atts[i]];
    }
    assert atts[..|atts|] == atts;
  }

  method InsertById(sorted: seq<SignedAttestation>, sa: SignedAttestation) returns (r: seq<SignedAttestation>)
    requires Ordered(sorted)
    ensures Ordered(r) && multiset(r) == multiset(sorted) + multiset{sa}
  {
    var k := 0;
    while k < |sorted| && sorted[k].validatorId <= sa.validatorId
      invariant 0 <= k <= |sorted|
      invariant forall j :: 0 <= j < k ==> sorted[j].validatorId <= sa.validatorId
    {
      k := k + 1;
    }
    r := sorted[..k] + [sa] + sorted[k..];
    InsertCounts(sorted, k, sa);
  }

  lemma InsertCounts(s: seq<SignedAttestation>, k: nat, sa: SignedAttestation)
    requires k <= |s|
    ensures multiset(s[..k] + [sa] + s[k..]) == multiset(s) + multiset{sa}
  {
    assert s == s[..k] + s[k..];
  }

  method MarkIds(sorted: seq<SignedAttestation>) returns (bits: array<Byte>)
    requires sorted != [] && Ordered(sorted)
    ensures fresh(bits) && WellFormed(bits[..]) && MarksIds(Bits(bits[..]), sorted)
  {
    var maxId := sorted[|sorted| - 1].validatorId;
    bits := MakeBitlist(maxId + 1);
    for i := 0 to |sorted|
      invariant WellFormed(bits[..]) && Len(bits[..]) == maxId + 1
      invariant MarksIds(Bits(bits[..]), sorted[..i])
    {
      ghost var before := Bits(bits[..]);
      SetBit(bits, sorted[i].validatorId, true);
      MarkOneMore(before, Bits(bits[..]), sorted, i);
    }
    assert sorted[..|sorted|] == sorted;
  }

  lemma MarkOneMore(before: seq<bool>, after: seq<bool>, atts: seq<SignedAttestation>, i: nat)
    requires i < |atts| && atts[i].validatorId < |before| && MarksIds(before, atts[..i])
    requires after == before[atts[i].validatorId := true]
    ensures MarksIds(after, atts[..i + 1])
  {
    assert Ids(atts[..i + 1]) == Ids(atts[..i]) + [atts[i].validatorId];
  }

  /** The aggregate of `attestations` in ascending order of id, whatever data each one signed:
      only the first one's data is kept. */
  method AggregateAttestations(attestations: seq<SignedAttestation>)
    returns (r: Result<AggregatedAttestation>, ghost sorted: seq<SignedAttestation>)
    ensures r.Ok? <==> attestations != []
    ensures r.Ok? ==>
              && Ordered(sorted) && multiset(sorted) == multiset(attestations)
              && fresh(r.value.bits) && WellFormed(r.value.bits[..])
              && MarksIds(Bits(r.value.bits[..]), sorted)
              && r.value.signature == Concatenated(sorted)
              && r.value.data == sorted[0].message
  {
    sorted := [];
    if |attestations| == 0 {
      return Err(NothingToAggregate), sorted;
    }
    var ordered := SortById(attestations);
    sorted := ordered;
    assert |multiset(ordered)| == |multiset(attestations)|;
    var bits := MarkIds(ordered);
    var aggSig: seq<Octet> := [];
    for i := 0 to |ordered|
      invariant aggSig == Concatenated(ordered[..i])
    {
      aggSig := aggSig + ordered[i].signature;
      assert ordered[..i + 1][..i] == ordered[..i];
    }
    assert ordered[..|ordered|] == ordered;
    r := Ok(AggregatedAttestation(ordered[0].message, bits, aggSig));
  }

  // ----- Round trip -----

  predicate SameData(atts: seq<SignedAttestation>) {
    forall i, j :: 0 <= i < |atts| && 0 <= j < |atts| ==> atts[i].message == atts[j].message
  }

  /** The votes that the data and the parts of an aggregate stand for. */
  function Rebuilt(data: AttestationData, parts: Parts): (r: seq<SignedAttestation>)
    requires |parts.ids| == |parts.signatures|
    ensures |r| == |parts.ids| && forall i | 0 <= i < |r| :: r[i] == PartVote(data, parts, i)
  {
    seq(|parts.ids|, i requires 0 <= i < |parts.ids| => PartVote(data, parts, i))
  }

  lemma ContentsAreStable(a: seq<SignedAttestation>, b: seq<SignedAttestation>)
    requires multiset(a) == multiset(b)
    ensures forall sa :: sa in a <==> sa in b
  {
    assert forall sa :: sa in a <==> sa in multiset(a);
    assert forall sa :: sa in b <==> sa in multiset(b);
  }

  lemma SameDataByContents(atts: seq<SignedAttestation>, data: AttestationData)
    requires atts != [] && exists sa :: sa in atts && sa.message == data
    ensures SameData(atts) <==> forall sa | sa in atts :: sa.message == data
  {
    if SameData(atts) {
      var i :| 0 <= i < |atts| && atts[i].message == data;
      assert forall j | 0 <= j < |atts| :: atts[j].message == atts[i].message;
    }
  }

  /** The rebuilt votes are the given ones exactly if all of those signed the same data. */
  lemma RebuiltIffSameData(atts: seq<SignedAttestation>, sorted: seq<SignedAttestation>,
                           rebuilt: seq<SignedAttestation>)
    requires atts != [] && multiset(sorted) == multiset(atts) && |rebuilt| == |sorted| && sorted != []
    requires forall i | 0 <= i < |sorted| :: rebuilt[i] == sorted[i].(message := sorted[0].message)
    ensures multiset(rebuilt) == multiset(atts) <==> SameData(atts)
  {
    ContentsAreStable(sorted, atts);
    assert sorted[0] in atts;
    SameDataByContents(atts, sorted[0].message);
    if multiset(rebuilt) == multiset(atts) {
      ContentsAreStable(rebuilt, atts);
    }
    if SameData(atts) {
      assert forall i | 0 <= i < |sorted| :: sorted[i] in atts;
      assert rebuilt == sorted;
    }
  }

  lemma PermutationHasLength(a: seq<SignedAttestation>, b: seq<SignedAttestation>)
    requires multiset(a) == multiset(b)
    ensures |a| == |b|
  {
    assert |multiset(a)| == |multiset(b)|;
  }

  /** Aggregate, then disaggregate. This succeeds exactly for votes of distinct validators, and
      gives back each validator with its own signature, in ascending order. The votes
      themselves come back, data included, exactly if they all had the same data. */
  method RoundTrip(attestations: seq<SignedAttestation>) returns (r: Result<seq<SignedAttestation>>)
    ensures attestations == [] ==> r == Err(NothingToAggregate)
    ensures attestations != [] ==> (r.Ok? <==> Distinct(attestations))
    ensures r.Ok? ==>
              && Ordered(r.value) && |r.value| == |attestations|
              && (forall sa | sa in attestations ::
                    exists i | 0 <= i < |attestations| :: r.value[i] == sa.(message := r.value[i].message))
              && (multiset(r.value) == multiset(attestations) <==> SameData(attestations))
  {
    var agg, sorted := AggregateAttestations(attestations);
    if agg.Err? {
      return Err(NothingToAggregate);
    }
    var parts := DisaggregateAttestation(agg.value);
    DisaggregateInverts(Bits(agg.value.bits[..]), sorted);
    DistinctIsStable(attestations, sorted);
    if parts.Err? {
      return Err(parts.error);
    }
    r := Ok(Rebuilt(agg.value.data, parts.value));
    PermutationHasLength(sorted, attestations);
    ContentsAreStable(sorted, attestations);
    assert forall i | 0 <= i < |sorted| :: r.value[i] == sorted[i].(message := sorted[0].message);
    RebuiltIffSameData(attestations, sorted, r.value);
  }

  lemma DistinctIsStable(a: seq<SignedAttestation>, b: seq<SignedAttestation>)
    requires multiset(a) == multiset(b)
    ensures Distinct(a) <==> Distinct(b)
  {
    DistinctByCount(a);
    DistinctByCount(b);
    IdsOfPermutation(a, b);
  }

  /** Ids are distinct exactly when there are as many of them as votes. */
  lemma DistinctByCount(a: seq<SignedAttestation>)
    ensures Distinct(a) <==> |Elements(Ids(a))| == |a|
  {
    if Distinct(a) {
      DistinctSize(Ids(a));
    } else {
      var i, j :| 0 <= i < j < |a| && a[i].validatorId == a[j].validatorId;
      RepeatedElementShrinks(Ids(a), i, j);
    }
  }

  lemma IdsOfPermutation(a: seq<SignedAttestation>, b: seq<SignedAttestation>)
    requires multiset(a) == multiset(b)
    ensures |a| == |b| && Elements(Ids(a)) == Elements(Ids(b))
  {
    assert |a| == |multiset(a)| == |multiset(b)| == |b|;
    IdsContained(a, b);
    IdsContained(b, a);
  }

  lemma IdsContained(a: seq<SignedAttestation>, b: seq<SignedAttestation>)
    requires multiset(a) == multiset(b)
    ensures forall x | x in Ids(a) :: x in Ids(b)
  {
    forall x | x in Ids(a)
      ensures x in Ids(b)
    {
      var i :| 0 <= i < |a| && Ids(a)[i] == x;
      assert a[i] in multiset(b);
      var j :| 0 <= j < |b| && b[j] == a[i];
      assert Ids(b)[j] == x;
    }
  }
}
