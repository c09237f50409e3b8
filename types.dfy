/**
 * Value types shared by the attestation-validation routine and the
 * collaborators it calls: Rust's fixed-width integers, 32-byte hashes,
 * the attestation record, the bitfield, the error type of the
 * parent-hash derivation, and the collaborators themselves, which the
 * model takes as function-valued parameters.
 */
module Types {

  // Rust's unsigned integer types, as ranges of the mathematical integers.
  type u8 = x: int | 0 <= x < 0x100
  type byte = u8
  type u16 = x: int | 0 <= x < 0x1_0000
  type u64 = x: int | 0 <= x < 0x1_0000_0000_0000_0000
  // A 64-bit target: `usize` has the width of `u64`.
  type usize = x: int | 0 <= x < 0x1_0000_0000_0000_0000

  const HASH_BYTES: nat := 32

  /** A `Hash256`: exactly 32 raw bytes. */
  type Hash256 = s: seq<byte> | |s| == HASH_BYTES witness seq(32, _ => 0)

  /** Rust's `saturating_sub` on unsigned integers: never goes below zero. */
  function SaturatingSub(a: nat, b: nat): (r: nat)
    ensures r <= a && r + b >= a
    ensures r == 0 || r + b == a
  {
    if a >= b then a - b else 0
  }

  datatype Option<T> = None | Some(value: T)

  datatype Result<T, E> = Ok(value: T) | Err(error: E)

  /** The attester bitfield, kept as the byte vector that backs it. */
  datatype Bitfield = Bitfield(bytes: seq<byte>)
  {
    function NumBytes(): nat { |bytes| }
  }

  /** A BLS aggregate signature and a BLS public key, opaque byte strings here. */
  datatype AggregateSignature = AggregateSignature(bytes: seq<byte>)
  datatype PublicKey = PublicKey(bytes: seq<byte>)

  /** The fields of an attestation record that the validation routine reads, and its signature. */
  datatype AttestationRecord = AttestationRecord(
    slot: u64,
    shardId: u16,
    obliqueParentHashes: seq<Hash256>,
    shardBlockHash: Hash256,
    attesterBitfield: Bitfield,
    justifiedSlot: u64,
    aggregateSig: AggregateSignature)

  /** A committee: the validator indices assigned to one (slot, shard) pair, in order. */
  type Committee = s: seq<usize> | |s| < 0x1_0000_0000_0000_0000

  /** Keyed by (slot, shard id); both keys are `u64`. */
  type AttesterMap = map<(u64, u64), Committee>

  /** The errors the parent-hash derivation can report. */
  datatype ParentHashesError =
    | BadCurrentHashes
    | BadObliqueHashes
    | SlotTooLow
    | SlotTooHigh
    | IntWrapping

  /** The variant's name, as Rust's derived `Debug` prints it. */
  function ParentHashesErrorName(e: ParentHashesError): string
  {
    match e
    case BadCurrentHashes => "BadCurrentHashes"
    case BadObliqueHashes => "BadObliqueHashes"
    case SlotTooLow => "SlotTooLow"
    case SlotTooHigh => "SlotTooHigh"
    case IntWrapping => "IntWrapping"
  }

  /**
   * The SSZ stream's field encoders. Appending a value to a stream
   * concatenates its encoding onto the bytes so far; nothing else about the
   * encodings is assumed.
   */
  datatype SszEncoders = SszEncoders(
    encodeU64: u64 -> seq<byte>,
    encodeU16: u16 -> seq<byte>,
    encodeHash: Hash256 -> seq<byte>)

  /** `attestation_parent_hashes(cycle_length, block_slot, attestation_slot, known, oblique)`. */
  type ParentHashesFn = (u8, u64, u64, seq<Hash256>, seq<Hash256>) -> Result<seq<Hash256>, ParentHashesError>

  /**
   * The code the validation routine calls but that lies outside it:
   * the parent-hash derivation, the canonical hash and the SSZ encoders.
   */
  datatype Collaborators = Collaborators(
    parentHashes: ParentHashesFn,
    canonicalHash: seq<byte> -> seq<byte>,
    ssz: SszEncoders)
}
