/** The consensus containers as values, and the cryptography they rest on. */
module Types {

  datatype Option<+T> = None | Some(value: T)

  datatype Result<+T> = Ok(value: T) | Err(error: Error)

  datatype Error =
    | SlotNotAfterState
    | SlotMismatch
    | SlotNotAfterHeader
    | NoValidators
    | NotProposer
    | ParentRootMismatch
    | StateRootMismatch
    | ParentStateNotFound
    | SignatureCountMismatch
    | BadSignature
    | HeadStateNotFound
    | HeadBlockNotFound
    | VoteTargetNotFound
    | SigningFailed
    | NothingToAggregate
    | SignatureLengthMismatch

  // ----- Protocol constants -----

  const SECONDS_PER_SLOT: nat := 4
  const INTERVALS_PER_SLOT: nat := 4
  const SECONDS_PER_INTERVAL: nat := SECONDS_PER_SLOT / INTERVALS_PER_SLOT
  const JUSTIFICATION_LOOKBACK: nat := 3
  const SIGNATURE_SIZE: nat := 3112

  // ----- Containers -----

  const TWO_256: nat := 0x1_0000000000000000_0000000000000000_0000000000000000_0000000000000000

  /** A 32-byte hash, read as a big-endian number. */
  type Root = r: nat | r < TWO_256

  const ZERO_HASH: Root := 0

  /** A 52-byte public key, read as a number. */
  type Pubkey = nat

  type Octet = n: nat | n < 256

  type Signature = s: seq<Octet> | |s| == SIGNATURE_SIZE witness seq(SIGNATURE_SIZE, _ => 0)

  datatype Checkpoint = Checkpoint(root: Root, slot: nat)

  datatype AttestationData = AttestationData(slot: nat, head: Checkpoint, target: Checkpoint, source: Checkpoint)

  datatype Attestation = Attestation(validatorId: nat, data: AttestationData)

  datatype SignedAttestation = SignedAttestation(validatorId: nat, message: AttestationData, signature: Signature)

  datatype Header = Header(slot: nat, proposerIndex: nat, parentRoot: Root, stateRoot: Root, bodyRoot: Root)

  datatype Block = Block(slot: nat, proposerIndex: nat, parentRoot: Root, stateRoot: Root, body: seq<Attestation>)

  datatype Envelope = Envelope(block: Block, proposerAttestation: Option<Attestation>, signatures: seq<Signature>)

  datatype Validator = Validator(pubkey: Pubkey, index: nat)

  /** The consensus state. The two bitlists appear as the bits they encode; the module
      StateObjects keeps them as bytes. */
  datatype State = State(
    genesisTime: nat,
    slot: nat,
    header: Header,
    justified: Checkpoint,
    finalized: Checkpoint,
    history: seq<Root>,
    justifiedSlots: seq<bool>,
    validators: seq<Validator>,
    pendingRoots: seq<Root>,
    pendingVotes: seq<bool>)

  // ----- Cryptography -----

  /** Hash-tree-roots and signature verification as arbitrary deterministic functions. */
  datatype RawCrypto = RawCrypto(
    headerRoot: Header -> Root,
    bodyRoot: seq<Attestation> -> Root,
    stateRoot: State -> Root,
    attestationRoot: Attestation -> Root,
    verify: (Pubkey, nat, Root, Signature) -> bool)

  /** The only assumption on hashing: headers and states never hash to the zero hash. */
  ghost predicate RootsAreNonZero(c: RawCrypto) {
    && (forall h: Header :: c.headerRoot(h) != ZERO_HASH)
    && (forall s: State :: c.stateRoot(s) != ZERO_HASH)
  }

  type Crypto = c: RawCrypto | RootsAreNonZero(c)
    witness RawCrypto(_ => 1, _ => 1, _ => 1, _ => 1, (_, _, _, _) => true)

  function HeaderOf(c: Crypto, b: Block): Header {
    Header(b.slot, b.proposerIndex, b.parentRoot, b.stateRoot, c.bodyRoot(b.body))
  }

  /** A block hashes to the root of its header, because a container's root only sees the
      root of each field. */
  function BlockRoot(c: Crypto, b: Block): Root {
    c.headerRoot(HeaderOf(c, b))
  }

  /** uint32(slot), the XMSS signing epoch. */
  function SigningSlot(slot: nat): nat { slot % 0x1_0000_0000 }

  /** verifyAttestationSignatureWithState: the index is in range and the key signed the message. */
  predicate SignatureValid(c: Crypto, validators: seq<Validator>, a: Attestation, sig: Signature) {
    && a.validatorId < |validators|
    && c.verify(validators[a.validatorId].pubkey, SigningSlot(a.data.slot), c.attestationRoot(a), sig)
  }

  predicate IsProposer(validatorIndex: nat, slot: nat, numValidators: nat)
    requires numValidators > 0
  {
    slot % numValidators == validatorIndex
  }
}
