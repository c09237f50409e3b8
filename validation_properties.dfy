/**
 * Properties of `ValidateAttestation`: an independent statement of its six
 * structural checks in plain arithmetic, the fact that the routine reports
 * the first of them that fails, and, error by error, exactly which inputs
 * produce it.
 */
module ValidationProperties {
  import opened Types
  import opened AttestationValidation

  /** The chain context a validation runs against. */
  datatype ChainContext = ChainContext(
    blockSlot: u64,
    cycleLength: u8,
    knownLastJustifiedSlot: u64,
    knownParentHashes: seq<Hash256>,
    attesterMap: AttesterMap)

  function Validate(a: AttestationRecord, ctx: ChainContext, c: Collaborators): Result<bool, AttestationValidationError>
  {
    ValidateAttestation(a, ctx.blockSlot, ctx.cycleLength, ctx.knownLastJustifiedSlot,
                        ctx.knownParentHashes, ctx.attesterMap, c)
  }

  function DeriveParentHashes(a: AttestationRecord, ctx: ChainContext, c: Collaborators)
    : Result<seq<Hash256>, ParentHashesError>
  {
    c.parentHashes(ctx.cycleLength, ctx.blockSlot, a.slot, ctx.knownParentHashes, a.obliqueParentHashes)
  }

  /** The structural checks, in the order the routine runs them. */
  datatype Check =
    | SlotUpperBound
    | SlotLowerBound
    | JustifiedSlotBound
    | ObliqueHashCount
    | AttesterMapEntry
    | BitfieldLength

  const CHECK_ORDER: seq<Check> :=
    [SlotUpperBound, SlotLowerBound, JustifiedSlotBound, ObliqueHashCount, AttesterMapEntry, BitfieldLength]

  /** `numBytes` is the least positive count of bytes that holds `bits` bits. */
  predicate IsCeilBytes(numBytes: nat, bits: nat)
  {
    if bits == 0 then numBytes == 1 else (numBytes - 1) * 8 < bits <= numBytes * 8
  }

  /** What each check accepts, stated without saturating arithmetic. */
  predicate Passes(check: Check, a: AttestationRecord, ctx: ChainContext)
  {
    match check
    case SlotUpperBound => a.slot <= ctx.blockSlot
    case SlotLowerBound => ctx.blockSlot <= a.slot + ctx.cycleLength + 1
    case JustifiedSlotBound => a.justifiedSlot <= ctx.knownLastJustifiedSlot
    case ObliqueHashCount => |a.obliqueParentHashes| <= ctx.cycleLength
    case AttesterMapEntry => (a.slot, a.shardId) in ctx.attesterMap
    case BitfieldLength =>
      (a.slot, a.shardId) in ctx.attesterMap ==>
        IsCeilBytes(a.attesterBitfield.NumBytes(), |ctx.attesterMap[(a.slot, a.shardId)]|)
  }

  function CheckError(check: Check): AttestationValidationError
  {
    match check
    case SlotUpperBound => AttestationValidationError.SlotTooHigh
    case SlotLowerBound => AttestationValidationError.SlotTooLow
    case JustifiedSlotBound => JustifiedSlotTooHigh
    case ObliqueHashCount => TooManyObliqueHashes
    case AttesterMapEntry => BadAttesterMap
    case BitfieldLength => IncorrectBitField
  }

  /** The first check of `checks` that fails, if any. */
  function FirstFailure(checks: seq<Check>, a: AttestationRecord, ctx: ChainContext): (r: Option<Check>)
    ensures r.None? <==> forall i :: 0 <= i < |checks| ==> Passes(checks[i], a, ctx)
    ensures r.Some? ==> r.value in checks && !Passes(r.value, a, ctx)
  {
    if checks == [] then None
    else if !Passes(checks[0], a, ctx) then Some(checks[0])
    else FirstFailure(checks[1..], a, ctx)
  }

  predicate StructuralChecksPass(a: AttestationRecord, ctx: ChainContext)
  {
    FirstFailure(CHECK_ORDER, a, ctx).None?
  }

  /**
   * The reference outcome: the error of the first failing check, else the
   * parent-hash derivation's error, else `Ok(false)`.
   */
  function ExpectedOutcome(a: AttestationRecord, ctx: ChainContext, c: Collaborators)
    : Result<bool, AttestationValidationError>
  {
    match FirstFailure(CHECK_ORDER, a, ctx)
    case Some(check) => Err(CheckError(check))
    case None =>
      match DeriveParentHashes(a, ctx, c)
      case Err(e) => Err(FromParentHashesError(e))
      case Ok(_) => Ok(false)
  }

  /** `BytesForBits` computes exactly the least positive byte count that holds the bits. */
  lemma BytesForBitsIsCeil(bits: usize, numBytes: nat)
    ensures numBytes == BytesForBits(bits) <==> IsCeilBytes(numBytes, bits)
  {
  }

  /**
   * The saturating lower bound is the plain distance bound: a slot fails it
   * exactly when it lies more than `cycle_length + 1` slots below the block,
   * and near zero it cannot fail at all.
   */
  lemma SlotLowerBoundSaturates(blockSlot: u64, cycleLength: u8, slot: u64)
    ensures slot < SaturatingSub(blockSlot, cycleLength + 1) <==> slot + cycleLength + 1 < blockSlot
    ensures blockSlot <= cycleLength + 1 ==> !(slot < SaturatingSub(blockSlot, cycleLength + 1))
  {
  }

  /** `FirstFailure` over the fixed order, written out check by check. */
  lemma FirstFailureInOrder(a: AttestationRecord, ctx: ChainContext)
    ensures FirstFailure(CHECK_ORDER, a, ctx)
         == if !Passes(SlotUpperBound, a, ctx) then Some(SlotUpperBound)
            else if !Passes(SlotLowerBound, a, ctx) then Some(SlotLowerBound)
            else if !Passes(JustifiedSlotBound, a, ctx) then Some(JustifiedSlotBound)
            else if !Passes(ObliqueHashCount, a, ctx) then Some(ObliqueHashCount)
            else if !Passes(AttesterMapEntry, a, ctx) then Some(AttesterMapEntry)
            else if !Passes(BitfieldLength, a, ctx) then Some(BitfieldLength)
            else None
  {
    var cs := CHECK_ORDER;
    assert cs[1..][1..] == cs[2..] && cs[2..][1..] == cs[3..] && cs[3..][1..] == cs[4..];
    assert cs[4..][1..] == cs[5..] && cs[5..][1..] == [];
    assert FirstFailure(cs[5..], a, ctx) == if !Passes(BitfieldLength, a, ctx) then Some(BitfieldLength) else None;
    assert FirstFailure(cs[4..], a, ctx)
        == if !Passes(AttesterMapEntry, a, ctx) then Some(AttesterMapEntry) else FirstFailure(cs[5..], a, ctx);
    assert FirstFailure(cs[3..], a, ctx)
        == if !Passes(ObliqueHashCount, a, ctx) then Some(ObliqueHashCount) else FirstFailure(cs[4..], a, ctx);
    assert FirstFailure(cs[2..], a, ctx)
        == if !Passes(JustifiedSlotBound, a, ctx) then Some(JustifiedSlotBound) else FirstFailure(cs[3..], a, ctx);
    assert FirstFailure(cs[1..], a, ctx)
        == if !Passes(SlotLowerBound, a, ctx) then Some(SlotLowerBound) else FirstFailure(cs[2..], a, ctx);
  }

  /** The routine reports the error of the first failing check, in the fixed order. */
  lemma ValidateIsFirstFailingCheck(a: AttestationRecord, ctx: ChainContext, c: Collaborators)
    ensures Validate(a, ctx, c) == ExpectedOutcome(a, ctx, c)
  {
    FirstFailureInOrder(a, ctx);
    SlotLowerBoundSaturates(ctx.blockSlot, ctx.cycleLength, a.slot);
    var key := (a.slot, a.shardId);
    if key in ctx.attesterMap {
      BytesForBitsIsCeil(|ctx.attesterMap[key]|, a.attesterBitfield.NumBytes());
    }
  }

  /** The first check: a slot above the block's is `SlotTooHigh`, whatever the other fields hold. */
  lemma SlotTooHighFirst(a: AttestationRecord, ctx: ChainContext, c: Collaborators)
    requires a.slot > ctx.blockSlot
    ensures Validate(a, ctx, c) == Err(AttestationValidationError.SlotTooHigh)
  {
  }

  /**
   * `SlotTooHigh` comes from the first check, or from the parent-hash
   * derivation once every structural check has passed.
   */
  lemma SlotTooHighCauses(a: AttestationRecord, ctx: ChainContext, c: Collaborators)
    ensures Validate(a, ctx, c) == Err(AttestationValidationError.SlotTooHigh)
        <==> a.slot > ctx.blockSlot
             || (StructuralChecksPass(a, ctx) && DeriveParentHashes(a, ctx, c) == Err(ParentHashesError.SlotTooHigh))
  {
    ValidateIsFirstFailingCheck(a, ctx, c);
    FirstFailureInOrder(a, ctx);
  }

  /**
   * `SlotTooLow` comes from the second check, which fails exactly when the
   * slot lies more than `cycle_length + 1` below the block, or from the
   * parent-hash derivation once every structural check has passed.
   */
  lemma SlotTooLowCauses(a: AttestationRecord, ctx: ChainContext, c: Collaborators)
    ensures Validate(a, ctx, c) == Err(AttestationValidationError.SlotTooLow)
        <==> (a.slot <= ctx.blockSlot && a.slot + ctx.cycleLength + 1 < ctx.blockSlot)
             || (StructuralChecksPass(a, ctx) && DeriveParentHashes(a, ctx, c) == Err(ParentHashesError.SlotTooLow))
  {
    ValidateIsFirstFailingCheck(a, ctx, c);
    FirstFailureInOrder(a, ctx);
  }

  /**
   * With block slot 10 and cycle length 5 the lowest slot the second check
   * accepts is 4: slot 3 is `SlotTooLow`, and at slot 4 that error can only
   * come from the parent-hash derivation.
   */
  lemma SlotLowerBoundary(a: AttestationRecord, ctx: ChainContext, c: Collaborators)
    requires ctx.blockSlot == 10 && ctx.cycleLength == 5
    ensures a.slot == 3 ==> Validate(a, ctx, c) == Err(AttestationValidationError.SlotTooLow)
    ensures a.slot == 4 && Validate(a, ctx, c) == Err(AttestationValidationError.SlotTooLow)
            ==> DeriveParentHashes(a, ctx, c) == Err(ParentHashesError.SlotTooLow)
  {
  }

  /**
   * When the block slot is at most `cycle_length + 1` the second check cannot
   * fail: the saturating subtraction stops at zero instead of wrapping.
   */
  lemma NoSlotTooLowNearGenesis(a: AttestationRecord, ctx: ChainContext, c: Collaborators)
    requires ctx.blockSlot <= ctx.cycleLength + 1
    ensures Validate(a, ctx, c) == Err(AttestationValidationError.SlotTooLow)
            ==> DeriveParentHashes(a, ctx, c) == Err(ParentHashesError.SlotTooLow)
  {
  }

  /** `JustifiedSlotTooHigh` exactly when the slot checks pass and the justified slot is above the known one. */
  lemma JustifiedSlotCauses(a: AttestationRecord, ctx: ChainContext, c: Collaborators)
    ensures Validate(a, ctx, c) == Err(JustifiedSlotTooHigh)
        <==> a.slot <= ctx.blockSlot && ctx.blockSlot <= a.slot + ctx.cycleLength + 1
             && a.justifiedSlot > ctx.knownLastJustifiedSlot
  {
  }

  /**
   * `TooManyObliqueHashes` exactly when the first three checks pass and
   * there are more oblique hashes than slots in a cycle.
   */
  lemma ObliqueHashCountCauses(a: AttestationRecord, ctx: ChainContext, c: Collaborators)
    ensures Validate(a, ctx, c) == Err(TooManyObliqueHashes)
        <==> a.slot <= ctx.blockSlot && ctx.blockSlot <= a.slot + ctx.cycleLength + 1
             && a.justifiedSlot <= ctx.knownLastJustifiedSlot
             && |a.obliqueParentHashes| > ctx.cycleLength
  {
  }

  /** `BadAttesterMap` exactly when the first four checks pass and no committee is mapped at (slot, shard). */
  lemma AttesterMapCauses(a: AttestationRecord, ctx: ChainContext, c: Collaborators)
    ensures Validate(a, ctx, c) == Err(BadAttesterMap)
        <==> a.slot <= ctx.blockSlot && ctx.blockSlot <= a.slot + ctx.cycleLength + 1
             && a.justifiedSlot <= ctx.knownLastJustifiedSlot
             && |a.obliqueParentHashes| <= ctx.cycleLength
             && (a.slot, a.shardId) !in ctx.attesterMap
  {
  }

  /**
   * `IncorrectBitField` exactly when the first five checks pass and the
   * bitfield is not the least positive number of bytes holding one bit per
   * committee member.
   */
  lemma BitfieldLengthCauses(a: AttestationRecord, ctx: ChainContext, c: Collaborators)
    ensures Validate(a, ctx, c) == Err(IncorrectBitField)
        <==> a.slot <= ctx.blockSlot && ctx.blockSlot <= a.slot + ctx.cycleLength + 1
             && a.justifiedSlot <= ctx.knownLastJustifiedSlot
             && |a.obliqueParentHashes| <= ctx.cycleLength
             && (a.slot, a.shardId) in ctx.attesterMap
             && !IsCeilBytes(a.attesterBitfield.NumBytes(), |ctx.attesterMap[(a.slot, a.shardId)]|)
  {
  }

  /**
   * A parent-hash error surfaces only once all six structural checks pass,
   * and then as the validation error of the same name.
   */
  lemma ParentHashErrorPropagates(a: AttestationRecord, ctx: ChainContext, c: Collaborators, e: ParentHashesError)
    ensures StructuralChecksPass(a, ctx) && DeriveParentHashes(a, ctx, c) == Err(e)
            ==> Validate(a, ctx, c) == Err(FromParentHashesError(e))
    ensures Validate(a, ctx, c) == Err(AttestationValidationError.BadCurrentHashes)
        <==> StructuralChecksPass(a, ctx) && DeriveParentHashes(a, ctx, c) == Err(ParentHashesError.BadCurrentHashes)
    ensures Validate(a, ctx, c) == Err(AttestationValidationError.BadObliqueHashes)
        <==> StructuralChecksPass(a, ctx) && DeriveParentHashes(a, ctx, c) == Err(ParentHashesError.BadObliqueHashes)
    ensures Validate(a, ctx, c) == Err(AttestationValidationError.IntWrapping)
        <==> StructuralChecksPass(a, ctx) && DeriveParentHashes(a, ctx, c) == Err(ParentHashesError.IntWrapping)
  {
    ValidateIsFirstFailingCheck(a, ctx, c);
  }

  /**
   * The routine never accepts: it answers `Ok(false)` exactly when every
   * structural check passes and the parent hashes are derived, and never
   * `Ok(true)`.
   */
  lemma NeverAccepts(a: AttestationRecord, ctx: ChainContext, c: Collaborators)
    ensures Validate(a, ctx, c) != Ok(true)
    ensures Validate(a, ctx, c) == Ok(false) <==> StructuralChecksPass(a, ctx) && DeriveParentHashes(a, ctx, c).Ok?
  {
    ValidateIsFirstFailingCheck(a, ctx, c);
  }

  /**
   * The outcome never depends on the aggregate signature, on the bits set in
   * the bitfield (only its byte length), or on the hash and the encoders
   * that build the signed message.
   */
  lemma OutcomeIgnoresSignatureAndBits(a: AttestationRecord, sig: AggregateSignature, bits: seq<byte>,
                                       ctx: ChainContext, c: Collaborators, c': Collaborators)
    requires |bits| == a.attesterBitfield.NumBytes()
    requires c'.parentHashes == c.parentHashes
    ensures Validate(a.(aggregateSig := sig, attesterBitfield := Bitfield(bits)), ctx, c') == Validate(a, ctx, c)
  {
  }

  /** The parent-hash error a validation error stands for, if any. */
  function ParentHashesErrorOf(e: AttestationValidationError): Option<ParentHashesError>
  {
    match e
    case BadCurrentHashes => Some(ParentHashesError.BadCurrentHashes)
    case BadObliqueHashes => Some(ParentHashesError.BadObliqueHashes)
    case SlotTooLow => Some(ParentHashesError.SlotTooLow)
    case SlotTooHigh => Some(ParentHashesError.SlotTooHigh)
    case IntWrapping => Some(ParentHashesError.IntWrapping)
    case _ => None
  }

  /**
   * The conversion is total and injective: `ParentHashesErrorOf` undoes it,
   * and every validation error it can produce comes from exactly one
   * parent-hash error.
   */
  lemma FromParentHashesErrorInvertible(e: ParentHashesError, v: AttestationValidationError)
    ensures ParentHashesErrorOf(FromParentHashesError(e)) == Some(e)
    ensures ParentHashesErrorOf(v) == Some(e) ==> FromParentHashesError(e) == v
  {
  }
}
