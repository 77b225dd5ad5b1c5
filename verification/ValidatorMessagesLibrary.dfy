/** The byte loops of the message library, each proved against the function that says what the message is. */
module ValidatorMessagesLibrary {
  import opened Wrappers
  import opened Numeric
  import opened BigEndian
  import opened MessageTypes
  import opened ValidatorMessages
  import opened RegisterMessage
  import opened ConversionMessage

  // ----- Messages of a fixed size -----

  method CheckHeader(input: seq<Byte>, typeID: nat) returns (r: Result<(), CodecError>)
    ensures r == HeaderAt(input, typeID)
  {
    var codecID :- ReadInteger(input, 0, 2, Panic);
    if codecID != CODEC_ID {
      return Revert(InvalidCodecID);
    }
    var t :- ReadInteger(input, 2, 4, Panic);
    if t != typeID {
      return Revert(InvalidMessageType);
    }
    return Ok(());
  }

  // Once the length is checked no index of a message of a fixed size is out of bounds.

  method UnpackSubnetToL1ConversionMessage(input: seq<Byte>) returns (r: Result<nat, CodecError>)
    ensures r == UnpackConversion(input)
  {
    if |input| != 38 {
      return Revert(InvalidMessageLength);
    }
    var _ :- CheckHeader(input, SUBNET_TO_L1_CONVERSION_MESSAGE_TYPE_ID);
    r := ReadInteger(input, 6, 32, Panic);
  }

  method UnpackL1ValidatorRegistrationMessage(input: seq<Byte>) returns (r: Result<(nat, bool), CodecError>)
    ensures r == UnpackRegistration(input)
  {
    if |input| != 39 {
      return Revert(InvalidMessageLength);
    }
    var _ :- CheckHeader(input, L1_VALIDATOR_REGISTRATION_MESSAGE_TYPE_ID);
    var validationID := ReadInteger(input, 6, 32, Panic);
    return Ok((validationID.value, input[38] != 0));
  }

  method UnpackL1ValidatorWeightMessage(input: seq<Byte>) returns (r: Result<(nat, nat, nat), CodecError>)
    ensures r == UnpackWeight(input)
  {
    if |input| != 54 {
      return Revert(InvalidMessageLength);
    }
    var _ :- CheckHeader(input, L1_VALIDATOR_WEIGHT_MESSAGE_TYPE_ID);
    var validationID := ReadInteger(input, 6, 32, Panic);
    var nonce := ReadInteger(input, 38, 8, Panic);
    var weight := ReadInteger(input, 46, 8, Panic);
    return Ok((validationID.value, nonce.value, weight.value));
  }

  method UnpackValidationUptimeMessage(input: seq<Byte>) returns (r: Result<(nat, nat), CodecError>)
    ensures r == UnpackUptime(input)
  {
    if |input| != 46 {
      return Revert(InvalidMessageLength);
    }
    var _ :- CheckHeader(input, VALIDATION_UPTIME_MESSAGE_TYPE_ID);
    var validationID := ReadInteger(input, 6, 32, Panic);
    var uptime := ReadInteger(input, 38, 8, Panic);
    return Ok((validationID.value, uptime.value));
  }

  // ----- Registration of a validator -----

  method AppendAddresses(start: seq<Byte>, addresses: seq<nat>) returns (res: seq<Byte>)
    ensures res == start + PackAddresses(addresses)
  {
    res := start;
    var i := 0;
    while i < |addresses|
      invariant 0 <= i <= |addresses|
      invariant res == start + PackAddresses(addresses[..i])
    {
      AddLast(start, addresses[..i + 1]);
      assert addresses[..i + 1][..i] == addresses[..i];
      res := res + ToBytes(addresses[i], ADDRESS_LENGTH);
      i := i + 1;
    }
    assert addresses[..i] == addresses;
  }

  method PackRegisterL1ValidatorMessage(p: ValidationPeriod) returns (r: Result<seq<Byte>, CodecError>)
    ensures r == PackRegister(p)
  {
    if |p.blsPublicKey| != BLS_KEY_LENGTH {
      return Revert(InvalidBLSPublicKey);
    }
    var start := PackHead(p);
    var res := start + (ToBytes(p.remainingBalanceOwner.threshold, 4)
                        + ToBytes(|p.remainingBalanceOwner.addresses|, 4));
    res := AppendAddresses(res, p.remainingBalanceOwner.addresses);
    OwnerAppended(start, p.remainingBalanceOwner);
    start := res;
    res := start + (ToBytes(p.disableOwner.threshold, 4) + ToBytes(|p.disableOwner.addresses|, 4));
    res := AppendAddresses(res, p.disableOwner.addresses);
    OwnerAppended(start, p.disableOwner);
    return Ok(res + ToBytes(p.weight, 8));
  }

  lemma OwnerAppended(start: seq<Byte>, owner: PChainOwner)
    ensures start + (ToBytes(owner.threshold, 4) + ToBytes(|owner.addresses|, 4)) + PackAddresses(owner.addresses)
            == start + PackOwner(owner)
  {
    Reassociate(start, ToBytes(owner.threshold, 4) + ToBytes(|owner.addresses|, 4), PackAddresses(owner.addresses));
  }

  method UnpackHead(input: seq<Byte>) returns (r: Result<(Head, nat), CodecError>)
    ensures r == HeadAt(input)
  {
    var index := 0;
    var _ :- CheckHeader(input, REGISTER_L1_VALIDATOR_MESSAGE_TYPE_ID);
    index := index + 6;
    var subnetID :- ReadInteger(input, index, 32, Panic);
    index := index + 32;
    var nodeIDLength :- ReadInteger(input, index, 4, Panic);
    index := index + 4;
    var nodeID :- ReadBytes(input, index, nodeIDLength, Panic);
    index :- Checked32(index + nodeIDLength);
    var blsPublicKey :- ReadBytes(input, index, BLS_KEY_LENGTH, Panic);
    index :- Checked32(index + BLS_KEY_LENGTH);
    var expiry :- ReadInteger(input, index, 8, Panic);
    index :- Checked32(index + 8);
    return Ok((Head(subnetID, nodeID, blsPublicKey, expiry), index));
  }

  method UnpackOwner(input: seq<Byte>, start: nat) returns (r: Result<(PChainOwner, nat), CodecError>)
    ensures r == OwnerAt(input, start)
  {
    var index := start;
    var threshold :- ReadInteger(input, index, 4, Panic);
    index :- Checked32(index + 4);
    var length :- ReadInteger(input, index, 4, Panic);
    index :- Checked32(index + 4);
    var rest :- UnpackAddresses(input, index, length);
    var (addresses, next) := rest;
    return Ok((PChainOwner(threshold, addresses), next));
  }

  method UnpackAddresses(input: seq<Byte>, start: nat, length: nat) returns (r: Result<(seq<nat>, nat), CodecError>)
    ensures r == AddressesAt(input, start, length)
  {
    var index := start;
    var addresses: seq<nat> := [];
    var i := 0;
    while i < length
      invariant 0 <= i <= length
      invariant AddressesAt(input, start, i) == Ok((addresses, index))
    {
      AddressesFailTogether(input, start, i + 1, length);
      var address :- ReadInteger(input, index, ADDRESS_LENGTH, Panic);
      addresses := addresses + [address];
      index :- Checked32(index + ADDRESS_LENGTH);
      i := i + 1;
    }
    return Ok((addresses, index));
  }

  /** Addresses that cannot be read stop the loop for good; reading them fails in one way only. */
  lemma {:induction false} AddressesFailTogether(b: seq<Byte>, index: nat, n: nat, length: nat)
    requires n <= length
    ensures AddressesAt(b, index, n).Revert? ==> AddressesAt(b, index, length) == Revert(Panic)
    decreases length - n
  {
    if n < length {
      AddressesPanic(b, index, n);
      AddressesFailTogether(b, index, n + 1, length);
    } else {
      AddressesPanic(b, index, n);
    }
  }

  lemma {:induction false} AddressesPanic(b: seq<Byte>, index: nat, n: nat)
    ensures AddressesAt(b, index, n).Revert? ==> AddressesAt(b, index, n) == Revert(Panic)
  {
    if n > 0 {
      AddressesPanic(b, index, n - 1);
    }
  }

  method UnpackRegisterL1ValidatorMessage(input: seq<Byte>) returns (r: Result<ValidationPeriod, CodecError>)
    ensures r == UnpackRegister(input)
  {
    var first :- UnpackHead(input);
    var (head, index) := first;
    var second :- UnpackOwner(input, index);
    var (owner1, index1) := second;
    var third :- UnpackOwner(input, index1);
    var (owner2, index2) := third;
    var expected :- ExpectedLength(|head.nodeID|, |owner1.addresses|, |owner2.addresses|);
    if |input| != expected {
      return Revert(InvalidMessageLength);
    }
    var weight :- ReadInteger(input, index2, 8, Panic);
    return Ok(ValidationPeriod(head.subnetID, head.nodeID, head.blsPublicKey, head.registrationExpiry, owner1, owner2,
                               weight));
  }

  // ----- Conversion data -----

  method PackConversion(d: ConversionData) returns (res: seq<Byte>)
    ensures res == PackConversionData(d)
  {
    var vs := d.initialValidators;
    res := PackConversionHead(d);
    var i := 0;
    while i < |vs|
      invariant 0 <= i <= |vs|
      invariant res == PackConversionHead(d) + PackInitialValidators(vs[..i])
    {
      var v := vs[i];
      assert vs[..i + 1][..i] == vs[..i];
      Reassociate(PackConversionHead(d), PackInitialValidators(vs[..i]), PackInitialValidator(v));
      res := res + (ToBytes(|v.nodeID|, 4) + v.nodeID + v.blsPublicKey + ToBytes(v.weight, 8));
      i := i + 1;
    }
    assert vs[..i] == vs;
  }
}
