# Attestation validation, modelled in Dafny

This project models the attestation-validation routine of an early
beacon-chain client. An attestation record is a committee's vote, and the
routine decides whether to accept it. It carries a slot, a shard id,
oblique parent hashes, a shard block hash, an attester bitfield, a
justified slot and an aggregate signature. The routine runs six structural
checks against the carrying block's context, in a fixed order, and returns
the error of the first check that fails:

1. the slot is not above the block slot (`SlotTooHigh`);
2. the slot is not more than `cycle_length + 1` below it, computed with
   saturating subtraction (`SlotTooLow`);
3. the justified slot is not above the known one (`JustifiedSlotTooHigh`).
   The comment at attestation_validation.rs:72-75 asks for the same
   justified slot, but line 76 rejects only a higher one, so a lower
   justified slot passes. The model follows the code;
4. there are at most `cycle_length` oblique hashes (`TooManyObliqueHashes`);
5. a committee is mapped at `(slot, shard_id)` (`BadAttesterMap`);
6. the bitfield has `bytes_for_bits(committee size)` bytes (`IncorrectBitField`).

If all six pass, the routine derives the parent hashes and passes on any
error from that step under the same name. It then builds the signed message
and answers `Ok(false)`. Neither the signature nor the public keys are ever
looked at.

Files:

- `types.dfy` (module `Types`): Rust's fixed-width integers as ranges, and
  `Hash256` as 32 bytes. It also holds the record, the bitfield (its
  backing byte vector), the parent-hash error type, and the `Collaborators`
  bundle.
- `attestation_validation.dfy` (module `AttestationValidation`): the
  members of the core file. `ValidateAttestation`, `BytesForBits`,
  `FromParentHashesError` and `CollectPubKeys` are functions.
  `GenerateSignedMessage` is a method that builds the SSZ stream in a loop.
  It is proved equal to the pure `SignedMessage` / `MessageBytes`.
- `message_properties.dfy` (module `MessageProperties`): the field layout
  of the signed message. It also proves that the message is self-delimiting
  when the encoders are fixed-width and injective.
- `validation_properties.dfy` (module `ValidationProperties`): a separate
  reference definition of the checks in plain, non-saturating arithmetic,
  and the proof that the routine reports the first failing check. It also
  gives, for each error, exactly which inputs produce it.

The collaborators are the parent-hash derivation
(`attestation_parent_hashes`), `canonical_hash` and the SSZ field encoders.
The model passes them in as function values in `Collaborators`. The
encoders are assumed only to be concatenative: appending a value adds its
encoding to the end of the stream.

## Model

| member | source | states |
|---|---|---|
| `AttestationValidation.BytesForBits` | lighthouse/state/validation/attestation_validation.rs:41-43 | at least one byte; for a positive bit count, the least `r` with `bits <= 8r` (so `8(r-1) < bits`); one byte for zero bits |
| `ValidationProperties.BytesForBitsIsCeil` | lighthouse/state/validation/attestation_validation.rs:41-43 | a byte count equals `bytes_for_bits(n)` if and only if it is the ceiling of n/8 (1 when n is 0) |
| `AttestationValidation.ValidateAttestation` | lighthouse/state/validation/attestation_validation.rs:45-113 | a success is always `Ok(false)`, and no error is one of the three signature errors |
| `ValidationProperties.ValidateIsFirstFailingCheck` | lighthouse/state/validation/attestation_validation.rs:58-112 | the result is the error of the first failing check in the order slot-upper, slot-lower, justified, oblique count, attester map, bitfield length; if none fails, it is the converted parent-hash error or `Ok(false)` |
| `ValidationProperties.FirstFailureInOrder` | lighthouse/state/validation/attestation_validation.rs:58-95 | the first failing check over the fixed order, written out check by check |
| `ValidationProperties.SlotTooHighFirst` | lighthouse/state/validation/attestation_validation.rs:58-60 | a slot above the block slot gives `SlotTooHigh`, whatever the other inputs are |
| `ValidationProperties.SlotTooHighCauses` | lighthouse/state/validation/attestation_validation.rs:58-103 | `SlotTooHigh` if and only if the slot is above the block, or all checks pass and the parent-hash derivation reports `SlotTooHigh` |
| `ValidationProperties.SlotLowerBoundSaturates` | lighthouse/state/validation/attestation_validation.rs:68-70 | the saturating test fails exactly when `slot + cycle_length + 1 < block_slot`, and can never fail when `block_slot <= cycle_length + 1` |
| `ValidationProperties.SlotTooLowCauses` | lighthouse/state/validation/attestation_validation.rs:58-103 | `SlotTooLow` if and only if the slot passes the upper bound but lies more than `cycle_length + 1` below the block, or all checks pass and the derivation reports `SlotTooLow` |
| `ValidationProperties.SlotLowerBoundary` | lighthouse/state/validation/attestation_validation.rs:68-70 | with block slot 10 and cycle length 5, slot 3 is `SlotTooLow`; at slot 4 that error can only come from the parent-hash derivation |
| `ValidationProperties.NoSlotTooLowNearGenesis` | lighthouse/state/validation/attestation_validation.rs:62-70 | when `block_slot <= cycle_length + 1` the second check never rejects |
| `ValidationProperties.JustifiedSlotCauses` | lighthouse/state/validation/attestation_validation.rs:76-78 | `JustifiedSlotTooHigh` if and only if both slot checks pass and the justified slot is strictly above the known one (equality passes) |
| `ValidationProperties.ObliqueHashCountCauses` | lighthouse/state/validation/attestation_validation.rs:84-86 | `TooManyObliqueHashes` if and only if the first three checks pass and there are more than `cycle_length` oblique hashes (`cycle_length` of them pass) |
| `ValidationProperties.AttesterMapCauses` | lighthouse/state/validation/attestation_validation.rs:88-89 | `BadAttesterMap` if and only if the first four checks pass and `(slot, shard_id)` is not in the attester map |
| `ValidationProperties.BitfieldLengthCauses` | lighthouse/state/validation/attestation_validation.rs:91-95 | `IncorrectBitField` if and only if the first five checks pass and the bitfield's byte count is not the ceiling of committee size / 8 (1 for an empty committee) |
| `ValidationProperties.ParentHashErrorPropagates` | lighthouse/state/validation/attestation_validation.rs:97-103 | a parent-hash error is returned, converted, only after all six checks pass; `BadCurrentHashes`, `BadObliqueHashes` and `IntWrapping` arise only this way |
| `ValidationProperties.NeverAccepts` | lighthouse/state/validation/attestation_validation.rs:97-112 | never `Ok(true)`; `Ok(false)` if and only if all checks pass and the parent hashes are derived |
| `ValidationProperties.OutcomeIgnoresSignatureAndBits` | lighthouse/state/validation/attestation_validation.rs:45-112 | the result does not change with the aggregate signature, with the bitfield's contents at the same byte length, or with the hash and encoders used for the discarded message |
| `AttestationValidation.CollectPubKeys` | lighthouse/state/validation/attestation_validation.rs:115-121 | the stub yields `None` for every committee and bitfield |
| `AttestationValidation.GenerateSignedMessage` | lighthouse/state/validation/attestation_validation.rs:126-152 | the loop over the stream yields the canonical hash, taken once, of slot ‖ raw parent hashes in order ‖ shard id ‖ shard block hash ‖ justified slot |
| `AttestationValidation.RawHashBytes` | lighthouse/state/validation/attestation_validation.rs:144-146 | the raw parent-hash bytes are 32 bytes per hash |
| `MessageProperties.RawHashBytesAt` | lighthouse/state/validation/attestation_validation.rs:144-146 | hash i occupies bytes 32i up to 32(i+1) of the raw parent-hash bytes |
| `MessageProperties.RawHashBytesInjective` | lighthouse/state/validation/attestation_validation.rs:144-146 | equal-length lists of hashes with the same raw bytes are equal |
| `MessageProperties.MessageLayout` | lighthouse/state/validation/attestation_validation.rs:142-150 | field order in the message bytes: slot, then each parent hash at its own offset, then shard id, shard block hash and justified slot, with nothing between them and nothing after |
| `MessageProperties.MessageBytesInjective` | lighthouse/state/validation/attestation_validation.rs:142-150 | with fixed-width injective encoders, equal message bytes imply equal slot, parent hashes, shard id, shard block hash and justified slot |
| `MessageProperties.SignedMessageDeterminesFields` | lighthouse/state/validation/attestation_validation.rs:142-151 | with a collision-free hash as well, changing any one field changes the signed message |
| `AttestationValidation.FromParentHashesError` | lighthouse/state/validation/attestation_validation.rs:154-169 | each parent-hash error maps to the validation error of the same `Debug` name, and never to a signature error |
| `ValidationProperties.FromParentHashesErrorInvertible` | lighthouse/state/validation/attestation_validation.rs:154-169 | the conversion is total and injective: `ParentHashesErrorOf` undoes it, and each image has exactly one preimage |

## Left out

- Signature checking. `validate_attestation` never calls `collect_pub_keys`.
  It never aggregates keys or verifies the aggregate signature, and it
  answers `Ok(false)` once the structural checks and the parent-hash
  derivation succeed. The model does the same: `NoSignatures`,
  `NonZeroTrailingBits` and `AggregateSignatureFail` are declared but never
  produced. BLS aggregation and verification, which the routine is evidently
  meant to perform, are foreign cryptography that the code does not have.
  They are not modelled.
- `attestation_parent_hashes`, `canonical_hash` and the `SszStream`
  encoders live in files that are not part of this model. They are
  parameters (`Collaborators`) with no assumed behaviour. The stream is
  assumed only to append each encoding at the end.
- The encoders' byte widths (8 bytes for a `u64`, 2 for a `u16`) are set
  by the `SszStream` encoders, which are defined outside
  attestation_validation.rs. `MessageBytesInjective` and
  `SignedMessageDeterminesFields` take fixed width and injectivity as
  hypotheses. `SignedMessageDeterminesFields` also treats collision
  resistance as injectivity of the hash, which is an idealisation.
- The `AttestationRecord` declaration is not part of this model. The record
  here holds the fields the routine reads, plus the aggregate signature.
  `Bitfield` is its backing byte vector, and `num_bytes` is that vector's
  length.
- The unused `BlockStore<T>` / `ClientDB` parameter is omitted, and so is
  the `Arc` sharing of the parent-hash list and the attester map. The map
  is a Dafny `map`. These concern storage and sharing, not the outcome.
- The signed message is computed and discarded in the routine. The model
  binds it and ignores it, so only the parent-hash derivation's error or
  success affects the result.
- The commented-out `validate_attestation_2` and its tests
  (attestation_validation.rs:171-246) are dead code and are not modelled.
- `lighthouse/environment/tests/environment_builder.rs` is runtime and
  logger bootstrap with no validation logic. It is not modelled.
- Determinism of the digest is not a separate lemma. Every Dafny function
  is deterministic, so equal inputs give equal messages by construction.
- The error enum declares `NoSignatures`, `NonZeroTrailingBits` and
  `AggregateSignatureFail` (attestation_validation.rs:32-34), and the doc
  comment at attestation_validation.rs:123-125 says the message is used to
  validate the signature. No code path checks it, and the model follows
  the code.
