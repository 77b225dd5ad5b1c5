/**
 The messages between the validator manager and the P-Chain. What each message is as a byte string is given by a
 function; the byte loops of the library are methods proved against it; the lemmas connect packing and unpacking.
 */
module ValidatorMessages {
  import opened Wrappers
  import opened Numeric
  import opened BigEndian

  datatype CodecError = Panic | InvalidMessageLength | InvalidCodecID | InvalidMessageType | InvalidBLSPublicKey

  const CODEC_ID := 0
  const SUBNET_TO_L1_CONVERSION_MESSAGE_TYPE_ID := 0
  const REGISTER_L1_VALIDATOR_MESSAGE_TYPE_ID := 1
  const L1_VALIDATOR_REGISTRATION_MESSAGE_TYPE_ID := 2
  const L1_VALIDATOR_WEIGHT_MESSAGE_TYPE_ID := 3
  const VALIDATION_UPTIME_MESSAGE_TYPE_ID := 0
  const BLS_KEY_LENGTH := 48
  const ADDRESS_LENGTH := 20

  function Checked32(x: nat): Result<nat, CodecError> {
    if x <= MAX_UINT32 then Ok(x) else Revert(Panic)
  }

  // ----- Reading -----

  /** The integer in the `n` bytes at an index; an index outside of the input reverts. */
  function IntAt(b: seq<Byte>, index: nat, n: nat): Result<nat, CodecError>
    requires n > 0
  {
    if index + n <= |b| then Ok(FromBytes(b[index..index + n])) else Revert(Panic)
  }

  function BytesAt(b: seq<Byte>, index: nat, n: nat): Result<seq<Byte>, CodecError> {
    if n == 0 then Ok([]) else if index + n <= |b| then Ok(b[index..index + n]) else Revert(Panic)
  }

  /** Codec ID and type ID. */
  function HeaderAt(b: seq<Byte>, typeID: nat): Result<(), CodecError> {
    var codecID :- IntAt(b, 0, 2);
    var _ :- Require(codecID == CODEC_ID, InvalidCodecID);
    var t :- IntAt(b, 2, 4);
    Require(t == typeID, InvalidMessageType)
  }

  function Header(typeID: nat): (b: seq<Byte>)
    ensures |b| == 6
  {
    ToBytes(CODEC_ID, 2) + ToBytes(typeID, 4)
  }

  /** The piece of a concatenation that follows a prefix. */
  lemma After(pre: seq<Byte>, x: seq<Byte>, b: seq<Byte>)
    requires pre + x <= b
    ensures pre <= b && b[|pre|..|pre| + |x|] == x
  {
    assert (pre + x)[|pre|..] == x;
    assert b[..|pre + x|] == pre + x;
  }

  /** Consecutive pieces put together. */
  lemma Glue(b: seq<Byte>, i: nat, j: nat)
    requires i <= j <= |b|
    ensures b[..i] + b[i..j] == b[..j]
  {
  }

  lemma TypeFits(typeID: nat)
    requires typeID <= 3
    ensures FromBytes(ToBytes(CODEC_ID, 2)) == CODEC_ID
    ensures FromBytes(ToBytes(typeID, 4)) == typeID
  {
    FromTo(CODEC_ID, 2);
    FromTo(typeID, 4);
    assert Pow256(4) >= 256 * Pow256(3) >= 256;
  }

  /** A byte string carries a header exactly when it begins with it. */
  lemma HeaderIff(b: seq<Byte>, typeID: nat)
    requires typeID <= 3
    ensures HeaderAt(b, typeID).Ok? <==> Header(typeID) <= b
  {
    TypeFits(typeID);
    if Header(typeID) <= b {
      After([], ToBytes(CODEC_ID, 2), b);
      After(ToBytes(CODEC_ID, 2), ToBytes(typeID, 4), b);
    }
    if HeaderAt(b, typeID).Ok? {
      ToFrom(b[0..2]);
      ToFrom(b[2..6]);
      Glue(b, 2, 6);
      assert b[..6] == Header(typeID);
    }
  }

  // ----- Messages of a fixed size -----

  /** A 32-byte identifier, and the bytes of integers that fit. */
  predicate Fits(x: nat, n: nat) {
    x < Pow256(n)
  }

  function PackSubnetToL1ConversionMessage(conversionID: nat): seq<Byte> {
    Header(SUBNET_TO_L1_CONVERSION_MESSAGE_TYPE_ID) + ToBytes(conversionID, 32)
  }

  function UnpackConversion(b: seq<Byte>): Result<nat, CodecError> {
    var _ :- Require(|b| == 38, InvalidMessageLength);
    var _ :- HeaderAt(b, SUBNET_TO_L1_CONVERSION_MESSAGE_TYPE_ID);
    IntAt(b, 6, 32)
  }

  function PackL1ValidatorRegistrationMessage(validationID: nat, valid: bool): seq<Byte> {
    Header(L1_VALIDATOR_REGISTRATION_MESSAGE_TYPE_ID) + ToBytes(validationID, 32) + [if valid then 1 else 0]
  }

  function UnpackRegistration(b: seq<Byte>): Result<(nat, bool), CodecError> {
    var _ :- Require(|b| == 39, InvalidMessageLength);
    var _ :- HeaderAt(b, L1_VALIDATOR_REGISTRATION_MESSAGE_TYPE_ID);
    var validationID :- IntAt(b, 6, 32);
    Ok((validationID, b[38] != 0))
  }

  function PackL1ValidatorWeightMessage(validationID: nat, nonce: nat, weight: nat): seq<Byte> {
    Header(L1_VALIDATOR_WEIGHT_MESSAGE_TYPE_ID) + ToBytes(validationID, 32) + ToBytes(nonce, 8) + ToBytes(weight, 8)
  }

  function UnpackWeight(b: seq<Byte>): Result<(nat, nat, nat), CodecError> {
    var _ :- Require(|b| == 54, InvalidMessageLength);
    var _ :- HeaderAt(b, L1_VALIDATOR_WEIGHT_MESSAGE_TYPE_ID);
    var validationID :- IntAt(b, 6, 32);
    var nonce :- IntAt(b, 38, 8);
    var weight :- IntAt(b, 46, 8);
    Ok((validationID, nonce, weight))
  }

  function PackValidationUptimeMessage(validationID: nat, uptime: nat): seq<Byte> {
    Header(VALIDATION_UPTIME_MESSAGE_TYPE_ID) + ToBytes(validationID, 32) + ToBytes(uptime, 8)
  }

  function UnpackUptime(b: seq<Byte>): Result<(nat, nat), CodecError> {
    var _ :- Require(|b| == 46, InvalidMessageLength);
    var _ :- HeaderAt(b, VALIDATION_UPTIME_MESSAGE_TYPE_ID);
    var validationID :- IntAt(b, 6, 32);
    var uptime :- IntAt(b, 38, 8);
    Ok((validationID, uptime))
  }

  /** The part that all four messages share: a header, an ID and a rest. */
  lemma SplitID(b: seq<Byte>, typeID: nat, id: nat, rest: seq<Byte>)
    requires typeID <= 3 && Fits(id, 32)
    requires b == Header(typeID) + ToBytes(id, 32) + rest
    ensures HeaderAt(b, typeID).Ok? && IntAt(b, 6, 32) == Ok(id) && b[38..] == rest
  {
    HeaderIff(b, typeID);
    FromTo(id, 32);
    After(Header(typeID), ToBytes(id, 32), b);
  }

  lemma JoinID(b: seq<Byte>, typeID: nat)
    requires typeID <= 3 && |b| >= 38 && HeaderAt(b, typeID).Ok?
    ensures Fits(FromBytes(b[6..38]), 32)
    ensures b == Header(typeID) + ToBytes(FromBytes(b[6..38]), 32) + b[38..]
  {
    HeaderIff(b, typeID);
    FromBytesBound(b[6..38]);
    ToFrom(b[6..38]);
    Glue(b, 6, 38);
    assert b[..6] == Header(typeID);
    assert b == b[..38] + b[38..];
  }

  /** An integer of `n` bytes at the end of a message. */
  lemma LastInt(b: seq<Byte>, index: nat, n: nat, x: nat)
    requires n > 0 && |b| == index + n
    ensures IntAt(b, index, n) == Ok(x) <==> Fits(x, n) && b[index..] == ToBytes(x, n)
  {
    FromBytesBound(b[index..]);
    ToFrom(b[index..]);
    FromTo(x, n);
    assert b[index..index + n] == b[index..];
  }

  /** Conversion messages: unpacking accepts exactly what packing makes. */
  lemma ConversionCodec(b: seq<Byte>, conversionID: nat)
    ensures UnpackConversion(b) == Ok(conversionID)
            <==> Fits(conversionID, 32) && b == PackSubnetToL1ConversionMessage(conversionID)
  {
    if UnpackConversion(b) == Ok(conversionID) {
      JoinID(b, SUBNET_TO_L1_CONVERSION_MESSAGE_TYPE_ID);
    }
    if Fits(conversionID, 32) && b == PackSubnetToL1ConversionMessage(conversionID) {
      SplitID(b, SUBNET_TO_L1_CONVERSION_MESSAGE_TYPE_ID, conversionID, []);
    }
  }

  /**
   Registration messages: what is packed is unpacked; but any nonzero byte counts as true, so packing gives back the
   bytes that were unpacked exactly when the last of them is 0 or 1.
   */
  lemma RegistrationCodec(b: seq<Byte>, validationID: nat, valid: bool)
    ensures Fits(validationID, 32) ==>
              UnpackRegistration(PackL1ValidatorRegistrationMessage(validationID, valid)) == Ok((validationID, valid))
    ensures UnpackRegistration(b) == Ok((validationID, valid)) ==>
              && Fits(validationID, 32)
              && (b == PackL1ValidatorRegistrationMessage(validationID, valid) <==> b[38] <= 1)
  {
    if Fits(validationID, 32) {
      SplitID(PackL1ValidatorRegistrationMessage(validationID, valid), L1_VALIDATOR_REGISTRATION_MESSAGE_TYPE_ID,
              validationID, [if valid then 1 else 0]);
    }
    if UnpackRegistration(b) == Ok((validationID, valid)) {
      JoinID(b, L1_VALIDATOR_REGISTRATION_MESSAGE_TYPE_ID);
      assert b[38..] == [b[38]];
    }
  }

  /** Two integers of 8 bytes at the end of a message. */
  lemma LastTwoInts(b: seq<Byte>, x: nat, y: nat)
    requires |b| == 54
    ensures IntAt(b, 38, 8) == Ok(x) && IntAt(b, 46, 8) == Ok(y)
            <==> Fits(x, 8) && Fits(y, 8) && b[38..] == ToBytes(x, 8) + ToBytes(y, 8)
  {
    LastInt(b[..46], 38, 8, x);
    LastInt(b, 46, 8, y);
    assert b[..46][38..46] == b[..46][38..] == b[38..46] == b[38..][..8];
    assert b[46..] == b[38..][8..];
    assert b[38..] == b[38..46] + b[46..];
    assert (ToBytes(x, 8) + ToBytes(y, 8))[..8] == ToBytes(x, 8);
    assert (ToBytes(x, 8) + ToBytes(y, 8))[8..] == ToBytes(y, 8);
  }

  /** Weight messages: unpacking accepts exactly what packing makes. */
  lemma WeightCodec(b: seq<Byte>, validationID: nat, nonce: nat, weight: nat)
    ensures UnpackWeight(b) == Ok((validationID, nonce, weight))
            <==> && Fits(validationID, 32) && Fits(nonce, 8) && Fits(weight, 8)
                 && b == PackL1ValidatorWeightMessage(validationID, nonce, weight)
  {
    var rest := ToBytes(nonce, 8) + ToBytes(weight, 8);
    var packed := PackL1ValidatorWeightMessage(validationID, nonce, weight);
    assert packed == Header(L1_VALIDATOR_WEIGHT_MESSAGE_TYPE_ID) + ToBytes(validationID, 32) + rest;
    assert |packed| == 54;
    if |b| == 54 {
      LastTwoInts(b, nonce, weight);
      if UnpackWeight(b) == Ok((validationID, nonce, weight)) {
        JoinID(b, L1_VALIDATOR_WEIGHT_MESSAGE_TYPE_ID);
        assert b == packed;
      }
      if Fits(validationID, 32) && b == packed {
        SplitID(b, L1_VALIDATOR_WEIGHT_MESSAGE_TYPE_ID, validationID, rest);
      }
    }
  }

  /** Uptime messages: unpacking accepts exactly what packing makes. */
  lemma UptimeCodec(b: seq<Byte>, validationID: nat, uptime: nat)
    ensures UnpackUptime(b) == Ok((validationID, uptime))
            <==> && Fits(validationID, 32) && Fits(uptime, 8)
                 && b == PackValidationUptimeMessage(validationID, uptime)
  {
    if |b| == 46 {
      LastInt(b, 38, 8, uptime);
      if UnpackUptime(b) == Ok((validationID, uptime)) {
        JoinID(b, VALIDATION_UPTIME_MESSAGE_TYPE_ID);
      }
    }
    if Fits(validationID, 32) && Fits(uptime, 8) && b == PackValidationUptimeMessage(validationID, uptime) {
      SplitID(b, VALIDATION_UPTIME_MESSAGE_TYPE_ID, validationID, ToBytes(uptime, 8));
    }
  }
}
