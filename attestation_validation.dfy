/**
 * The attestation-validation routine of the beacon-chain client: an ordered,
 * fail-fast series of structural checks on an attestation record, the
 * derivation of its parent hashes, and the construction of the message its
 * aggregate signature is meant to sign.
 */
module AttestationValidation {
  import opened Types

  datatype AttestationValidationError =
    | SlotTooHigh
    | SlotTooLow
    | JustifiedSlotTooHigh
    | TooManyObliqueHashes
    | BadCurrentHashes
    | BadObliqueHashes
    | BadAttesterMap
    | IntWrapping
    | IncorrectBitField
    | NoSignatures
    | NonZeroTrailingBits
    | AggregateSignatureFail

  /** The variant's name, as Rust's derived `Debug` prints it. */
  function ErrorName(e: AttestationValidationError): string
  {
    match e
    case SlotTooHigh => "SlotTooHigh"
    case SlotTooLow => "SlotTooLow"
    case JustifiedSlotTooHigh => "JustifiedSlotTooHigh"
    case TooManyObliqueHashes => "TooManyObliqueHashes"
    case BadCurrentHashes => "BadCurrentHashes"
    case BadObliqueHashes => "BadObliqueHashes"
    case BadAttesterMap => "BadAttesterMap"
    case IntWrapping => "IntWrapping"
    case IncorrectBitField => "IncorrectBitField"
    case NoSignatures => "NoSignatures"
    case NonZeroTrailingBits => "NonZeroTrailingBits"
    case AggregateSignatureFail => "AggregateSignatureFail"
  }

  /** The three errors that only signature checking could raise. */
  predicate IsSignatureError(e: AttestationValidationError)
  {
    e == NoSignatures || e == NonZeroTrailingBits || e == AggregateSignatureFail
  }

  /**
   * The number of bytes a bitfield of `bits` bits occupies: eight bits to a
   * byte, rounded up, and never fewer than one byte.
   */
  function BytesForBits(bits: usize): (r: usize)
    ensures r >= 1
    ensures bits == 0 ==> r == 1
    ensures bits > 0 ==> 8 * (r - 1) < bits <= 8 * r
  {
    SaturatingSub(bits, 1) / 8 + 1
  }

  /** The conversion used by `?` when the parent-hash derivation fails. */
  function FromParentHashesError(e: ParentHashesError): (r: AttestationValidationError)
    ensures ErrorName(r) == ParentHashesErrorName(e)
    ensures !IsSignatureError(r)
  {
    match e
    case BadCurrentHashes => AttestationValidationError.BadCurrentHashes
    case BadObliqueHashes => AttestationValidationError.BadObliqueHashes
    case SlotTooLow => AttestationValidationError.SlotTooLow
    case SlotTooHigh => AttestationValidationError.SlotTooHigh
    case IntWrapping => AttestationValidationError.IntWrapping
  }

  /**
   * Meant to gather the public keys of the committee members whose bits are
   * set; as written it is a stub that finds no keys, whatever its input.
   */
  function CollectPubKeys(attestationIndices: seq<usize>, bitfield: Bitfield): (r: Option<seq<PublicKey>>)
    ensures r.None?
  {
    None
  }

  /** The raw bytes of a list of hashes, one after the other. */
  function RawHashBytes(hashes: seq<Hash256>): (r: seq<byte>)
    ensures |r| == HASH_BYTES * |hashes|
  {
    if hashes == [] then []
    else RawHashBytes(hashes[..|hashes| - 1]) + hashes[|hashes| - 1]
  }

  /**
   * The byte stream of the signed message: the slot, each parent hash raw
   * in order, the shard id, the shard block hash and the justified slot.
   */
  function MessageBytes(ssz: SszEncoders, slot: u64, parentHashes: seq<Hash256>, shardId: u16,
                        shardBlockHash: Hash256, justifiedSlot: u64): seq<byte>
  {
    ssz.encodeU64(slot) + RawHashBytes(parentHashes) + ssz.encodeU16(shardId)
      + ssz.encodeHash(shardBlockHash) + ssz.encodeU64(justifiedSlot)
  }

  /** The signed message: the canonical hash of `MessageBytes`, taken once. */
  function SignedMessage(c: Collaborators, slot: u64, parentHashes: seq<Hash256>, shardId: u16,
                         shardBlockHash: Hash256, justifiedSlot: u64): seq<byte>
  {
    c.canonicalHash(MessageBytes(c.ssz, slot, parentHashes, shardId, shardBlockHash, justifiedSlot))
  }

  /**
   * Builds the signed message on a growing SSZ stream, one field at a time,
   * and hashes what the stream holds at the end.
   */
  method GenerateSignedMessage(c: Collaborators, slot: u64, parentHashes: seq<Hash256>, shardId: u16,
                               shardBlockHash: Hash256, justifiedSlot: u64)
    returns (digest: seq<byte>)
    ensures digest == SignedMessage(c, slot, parentHashes, shardId, shardBlockHash, justifiedSlot)
  {
    var stream: seq<byte> := [];
    stream := stream + c.ssz.encodeU64(slot);
    for i := 0 to |parentHashes|
      invariant stream == c.ssz.encodeU64(slot) + RawHashBytes(parentHashes[..i])
    {
      assert parentHashes[..i + 1][..i] == parentHashes[..i];
      stream := stream + parentHashes[i];
    }
    assert parentHashes[..|parentHashes|] == parentHashes;
    stream := stream + c.ssz.encodeU16(shardId);
    stream := stream + c.ssz.encodeHash(shardBlockHash);
    stream := stream + c.ssz.encodeU64(justifiedSlot);
    digest := c.canonicalHash(stream);
  }

  /**
   * Validates an attestation record against the block that carries it.
   * The checks run in order and the first that fails decides the error;
   * when all pass, the parent hashes are derived and the signed message is
   * built, and the routine answers `Ok(false)`: the signature is never
   * checked, so the routine never accepts.
   */
  function ValidateAttestation(a: AttestationRecord, blockSlot: u64, cycleLength: u8,
                               knownLastJustifiedSlot: u64, knownParentHashes: seq<Hash256>,
                               attesterMap: AttesterMap, c: Collaborators)
    : (r: Result<bool, AttestationValidationError>)
    ensures r.Ok? ==> r.value == false
    ensures r.Err? ==> !IsSignatureError(r.error)
  {
    if a.slot > blockSlot then Err(AttestationValidationError.SlotTooHigh)
    else if a.slot < SaturatingSub(blockSlot, cycleLength + 1) then Err(AttestationValidationError.SlotTooLow)
    else if a.justifiedSlot > knownLastJustifiedSlot then Err(JustifiedSlotTooHigh)
    else if |a.obliqueParentHashes| > cycleLength then Err(TooManyObliqueHashes)
    else if (a.slot, a.shardId) !in attesterMap then Err(BadAttesterMap)
    else if a.attesterBitfield.NumBytes() != BytesForBits(|attesterMap[(a.slot, a.shardId)]|) then
      Err(IncorrectBitField)
    else
      match c.parentHashes(cycleLength, blockSlot, a.slot, knownParentHashes, a.obliqueParentHashes)
      case Err(e) => Err(FromParentHashesError(e))
      case Ok(parentHashes) =>
        // Built and then dropped: nothing downstream reads it.
        var signedMessage :=
          SignedMessage(c, a.slot, parentHashes, a.shardId, a.shardBlockHash, a.justifiedSlot);
        Ok(false)
  }
}
