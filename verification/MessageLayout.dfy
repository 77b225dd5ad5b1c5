/**
 Where everything is in the messages between the validator manager and the P-Chain, byte by byte, and that the library
 accepts exactly the messages with this layout.
 */
module MessageLayout {
  import opened Wrappers
  import opened Numeric
  import opened BigEndian
  import opened MessageTypes
  import opened ValidatorMessages
  import opened RegisterMessage
  import opened ConversionMessage

  /** The `n` bytes from index `i` are the big-endian number `x`. */
  ghost predicate Number(b: seq<Byte>, i: nat, n: nat, x: nat) {
    i + n <= |b| && FromBytes(b[i..i + n]) == x
  }

  ghost predicate Bytes(b: seq<Byte>, i: nat, x: seq<Byte>) {
    i + |x| <= |b| && b[i..i + |x|] == x
  }

  /** Codec version 0 and the type of the message. */
  ghost predicate Typed(b: seq<Byte>, typeID: nat) {
    Number(b, 0, 2, 0) && Number(b, 2, 4, typeID)
  }

  lemma TypedIff(b: seq<Byte>, typeID: nat)
    ensures HeaderAt(b, typeID).Ok? <==> Typed(b, typeID)
  {
  }

  // ----- Messages of a fixed size -----

  lemma ConversionLayout(b: seq<Byte>, conversionID: nat)
    ensures UnpackConversion(b) == Ok(conversionID)
            <==> |b| == 38 && ValidLayout(b, 0, conversionID)
  {
    TypedIff(b, 0);
  }

  /** Header, then the 32 bytes of an ID. */
  ghost predicate ValidLayout(b: seq<Byte>, typeID: nat, id: nat) {
    Typed(b, typeID) && Number(b, 6, 32, id)
  }

  lemma RegistrationLayout(b: seq<Byte>, validationID: nat, valid: bool)
    ensures UnpackRegistration(b) == Ok((validationID, valid))
            <==> |b| == 39 && ValidLayout(b, 2, validationID) && (valid <==> b[38] != 0)
  {
    TypedIff(b, 2);
  }

  lemma WeightLayout(b: seq<Byte>, validationID: nat, nonce: nat, weight: nat)
    ensures UnpackWeight(b) == Ok((validationID, nonce, weight))
            <==> && |b| == 54 && ValidLayout(b, 3, validationID)
                 && Number(b, 38, 8, nonce) && Number(b, 46, 8, weight)
  {
    TypedIff(b, 3);
  }

  lemma UptimeLayout(b: seq<Byte>, validationID: nat, uptime: nat)
    ensures UnpackUptime(b) == Ok((validationID, uptime))
            <==> |b| == 46 && ValidLayout(b, 0, validationID) && Number(b, 38, 8, uptime)
  {
    TypedIff(b, 0);
  }

  // ----- The registration of a validator -----

  /** Addresses of 20 bytes each. */
  ghost predicate AddressesPlaced(b: seq<Byte>, index: nat, addresses: seq<nat>) {
    && index + 20 * |addresses| <= |b|
    && forall i :: 0 <= i < |addresses| ==> Number(b, index + 20 * i, 20, addresses[i])
  }

  lemma {:induction false} AddressesArePlaced(b: seq<Byte>, index: nat, addresses: seq<nat>, next: nat)
    requires index <= |b| && AddressesAt(b, index, |addresses|) == Ok((addresses, next))
    ensures AddressesPlaced(b, index, addresses) && next == index + 20 * |addresses|
  {
    AddressesWere(b, index, |addresses|, addresses, next);
    if addresses != [] {
      var n := |addresses| - 1;
      AddressesStep(b, index, n + 1);
      var (init, mid) := AddressesAt(b, index, n).value;
      AddressesWere(b, index, n, init, mid);
      AddressesArePlaced(b, index, init, mid);
      OneMorePlaced(b, index, init, addresses);
    }
  }

  lemma OneMorePlaced(b: seq<Byte>, index: nat, init: seq<nat>, addresses: seq<nat>)
    requires addresses != [] && init == addresses[..|addresses| - 1]
    ensures AddressesPlaced(b, index, addresses)
            <==> && AddressesPlaced(b, index, init)
                 && Number(b, index + 20 * |init|, 20, addresses[|addresses| - 1])
  {
    if AddressesPlaced(b, index, addresses) {
      assert Number(b, index + 20 * |init|, 20, addresses[|init|]);
      forall i | 0 <= i < |init| ensures Number(b, index + 20 * i, 20, init[i]) {
        assert Number(b, index + 20 * i, 20, addresses[i]);
      }
    }
    if AddressesPlaced(b, index, init) && Number(b, index + 20 * |init|, 20, addresses[|addresses| - 1]) {
      forall i | 0 <= i < |addresses| ensures Number(b, index + 20 * i, 20, addresses[i]) {
        assert i < |init| ==> Number(b, index + 20 * i, 20, init[i]);
      }
    }
  }

  lemma {:induction false} PlacedAreRead(b: seq<Byte>, index: nat, addresses: seq<nat>)
    requires |b| <= MAX_UINT32 && AddressesPlaced(b, index, addresses)
    ensures AddressesAt(b, index, |addresses|) == Ok((addresses, index + 20 * |addresses|))
  {
    if addresses != [] {
      var n := |addresses| - 1;
      var init, last := addresses[..n], addresses[n];
      OneMorePlaced(b, index, init, addresses);
      PlacedAreRead(b, index, init);
      LastAddress(b, index, init, last, index + 20 * n);
      assert addresses == init + [last];
    }
  }

  /** Threshold, number of addresses, addresses. */
  ghost predicate OwnerPlaced(b: seq<Byte>, index: nat, owner: PChainOwner) {
    && Number(b, index, 4, owner.threshold) && Number(b, index + 4, 4, |owner.addresses|)
    && AddressesPlaced(b, index + 8, owner.addresses)
  }

  lemma OwnerIsPlaced(b: seq<Byte>, index: nat, owner: PChainOwner, next: nat)
    requires OwnerAt(b, index) == Ok((owner, next))
    ensures OwnerPlaced(b, index, owner) && next == index + 8 + 20 * |owner.addresses| <= |b|
  {
    var n := OwnerParts(b, index, owner, next);
    LengthsWere(b, index, owner.threshold, n);
    AddressesWere(b, index + 8, n, owner.addresses, next);
    AddressesArePlaced(b, index + 8, owner.addresses, next);
  }

  lemma PlacedIsOwner(b: seq<Byte>, index: nat, owner: PChainOwner)
    requires |b| <= MAX_UINT32 && OwnerPlaced(b, index, owner)
    ensures OwnerAt(b, index) == Ok((owner, index + 8 + 20 * |owner.addresses|))
  {
    PlacedAreRead(b, index + 8, owner.addresses);
    OwnerFromParts(b, index, owner.threshold, |owner.addresses|, owner.addresses,
                   index + 8 + 20 * |owner.addresses|);
  }

  /** Everything before the owners. */
  ghost predicate HeadPlaced(b: seq<Byte>, p: ValidationPeriod) {
    var n := |p.nodeID|;
    && Typed(b, 1) && Number(b, 6, 32, p.subnetID)
    && Number(b, 38, 4, n) && Bytes(b, 42, p.nodeID)
    && |p.blsPublicKey| == 48 && Bytes(b, 42 + n, p.blsPublicKey)
    && Number(b, 90 + n, 8, p.registrationExpiry)
  }

  lemma HeadIff(b: seq<Byte>, p: ValidationPeriod)
    requires |b| <= MAX_UINT32
    ensures HeadAt(b) == Ok((Head(p.subnetID, p.nodeID, p.blsPublicKey, p.registrationExpiry), 98 + |p.nodeID|))
            <==> HeadPlaced(b, p)
  {
    TypedIff(b, 1);
    var h := Head(p.subnetID, p.nodeID, p.blsPublicKey, p.registrationExpiry);
    if HeadAt(b) == Ok((h, 98 + |p.nodeID|)) {
      HeadParts(b, h, 98 + |p.nodeID|);
    }
  }

  /** All of the message, and no byte more. */
  ghost predicate RegisterPlaced(b: seq<Byte>, p: ValidationPeriod) {
    var n, n1, n2 := |p.nodeID|, |p.remainingBalanceOwner.addresses|, |p.disableOwner.addresses|;
    && |b| == 122 + n + 20 * (n1 + n2) <= MAX_UINT32
    && HeadPlaced(b, p)
    && OwnerPlaced(b, 98 + n, p.remainingBalanceOwner)
    && OwnerPlaced(b, 106 + n + 20 * n1, p.disableOwner)
    && Number(b, 114 + n + 20 * (n1 + n2), 8, p.weight)
  }

  lemma RegisterIsPlaced(b: seq<Byte>, p: ValidationPeriod)
    requires UnpackRegister(b) == Ok(p)
    ensures RegisterPlaced(b, p)
  {
    var i, j, k := UnpackStages(b, p);
    HeadParts(b, Head(p.subnetID, p.nodeID, p.blsPublicKey, p.registrationExpiry), i);
    HeadIff(b, p);
    OwnerIsPlaced(b, i, p.remainingBalanceOwner, j);
    OwnerIsPlaced(b, j, p.disableOwner, k);
  }

  lemma PlacedHead(b: seq<Byte>, p: ValidationPeriod, i: nat)
    requires RegisterPlaced(b, p) && i == 98 + |p.nodeID|
    ensures HeadAt(b) == Ok((Head(p.subnetID, p.nodeID, p.blsPublicKey, p.registrationExpiry), i))
  {
    HeadIff(b, p);
  }

  lemma PlacedOwners(b: seq<Byte>, p: ValidationPeriod, i: nat, j: nat, k: nat)
    requires RegisterPlaced(b, p) && i == 98 + |p.nodeID|
    requires j == i + 8 + 20 * |p.remainingBalanceOwner.addresses| && k == j + 8 + 20 * |p.disableOwner.addresses|
    ensures OwnerAt(b, i) == Ok((p.remainingBalanceOwner, j)) && OwnerAt(b, j) == Ok((p.disableOwner, k))
  {
    PlacedIsOwner(b, i, p.remainingBalanceOwner);
    PlacedIsOwner(b, j, p.disableOwner);
  }

  lemma PlacedWeight(b: seq<Byte>, p: ValidationPeriod, k: nat)
    requires RegisterPlaced(b, p)
    requires k == 114 + |p.nodeID| + 20 * (|p.remainingBalanceOwner.addresses| + |p.disableOwner.addresses|)
    ensures |b| == PackedLength(p) <= MAX_UINT32 && IntAt(b, k, 8) == Ok(p.weight)
  {
  }

  lemma PlacedIsRegister(b: seq<Byte>, p: ValidationPeriod)
    requires RegisterPlaced(b, p)
    ensures UnpackRegister(b) == Ok(p)
  {
    var i := 98 + |p.nodeID|;
    var j := i + 8 + 20 * |p.remainingBalanceOwner.addresses|;
    var k := j + 8 + 20 * |p.disableOwner.addresses|;
    PlacedHead(b, p, i);
    PlacedOwners(b, p, i, j, k);
    PlacedWeight(b, p, k);
    RegisterFromParts(b, p, i, j, k);
  }

  /**
   The message that registers a validator: codec version and type, subnet, node ID with its length, key of 48 bytes,
   expiry, both owners, weight. The library accepts exactly the strings that have this layout.
   */
  lemma RegisterLayout(b: seq<Byte>, p: ValidationPeriod)
    ensures UnpackRegister(b) == Ok(p) <==> RegisterPlaced(b, p)
  {
    if UnpackRegister(b) == Ok(p) {
      RegisterIsPlaced(b, p);
    }
    if RegisterPlaced(b, p) {
      PlacedIsRegister(b, p);
    }
  }

  // ----- Conversion data -----

  lemma NumberPacked(b: seq<Byte>, i: nat, n: nat, x: nat)
    requires i + n <= |b| && b[i..i + n] == ToBytes(x, n) && Fits(x, n)
    ensures Number(b, i, n, x)
  {
    FromTo(x, n);
  }

  /** One initial validator: the node ID with its length, the key, and in the end the weight. */
  lemma InitialValidatorLayout(v: InitialValidator)
    requires ValidatorFits(v)
    ensures var b, n, k := PackInitialValidator(v), |v.nodeID|, |v.blsPublicKey|;
            && |b| == 12 + n + k
            && Number(b, 0, 4, n) && Bytes(b, 4, v.nodeID) && Bytes(b, 4 + n, v.blsPublicKey)
            && Number(b, 4 + n + k, 8, v.weight)
  {
    var b, n, k := PackInitialValidator(v), |v.nodeID|, |v.blsPublicKey|;
    LengthFits(n);
    NumberPacked(b, 0, 4, n);
    NumberPacked(b, 4 + n + k, 8, v.weight);
  }

  lemma ConversionHeadSlices(d: ConversionData)
    ensures var b := PackConversionHead(d);
            && b[..2] == ToBytes(CODEC_ID, 2) && b[2..34] == ToBytes(d.subnetID, 32)
            && b[34..66] == ToBytes(d.validatorManagerBlockchainID, 32)
            && b[66..70] == ToBytes(ADDRESS_LENGTH, 4) && b[70..90] == ToBytes(d.validatorManagerAddress, ADDRESS_LENGTH)
            && b[90..] == ToBytes(|d.initialValidators|, 4)
  {
  }

  ghost predicate ConversionHeadPlaced(b: seq<Byte>, d: ConversionData) {
    && |b| == 94
    && Number(b, 0, 2, 0) && Number(b, 2, 32, d.subnetID) && Number(b, 34, 32, d.validatorManagerBlockchainID)
    && Number(b, 66, 4, 20) && Number(b, 70, 20, d.validatorManagerAddress)
    && Number(b, 90, 4, |d.initialValidators|)
  }

  lemma SlicesArePlaced(b: seq<Byte>, d: ConversionData)
    requires ConversionFits(d) && |b| == 94
    requires b[0..2] == ToBytes(0, 2) && b[2..34] == ToBytes(d.subnetID, 32)
    requires b[34..66] == ToBytes(d.validatorManagerBlockchainID, 32)
    requires b[66..70] == ToBytes(20, 4) && b[70..90] == ToBytes(d.validatorManagerAddress, 20)
    requires b[90..94] == ToBytes(|d.initialValidators|, 4)
    ensures ConversionHeadPlaced(b, d)
  {
    LengthFits(|d.initialValidators|);
    LengthFits(20);
    FromTo(0, 2);
    NumberPacked(b, 2, 32, d.subnetID);
    NumberPacked(b, 34, 32, d.validatorManagerBlockchainID);
    NumberPacked(b, 66, 4, 20);
    NumberPacked(b, 70, 20, d.validatorManagerAddress);
    NumberPacked(b, 90, 4, |d.initialValidators|);
  }

  /** The data before the validators: codec version, subnet, chain, manager with its length, number of validators. */
  lemma ConversionHeadLayout(d: ConversionData)
    requires ConversionFits(d)
    ensures ConversionHeadPlaced(PackConversionHead(d), d)
  {
    ConversionHeadSlices(d);
    SlicesArePlaced(PackConversionHead(d), d);
  }

  /** Where validator number `i` begins. */
  function ValidatorOffset(vs: seq<InitialValidator>, i: nat): nat
    requires i <= |vs|
  {
    if i == 0 then 0 else ValidatorOffset(vs, i - 1) + 12 + |vs[i - 1].nodeID| + |vs[i - 1].blsPublicKey|
  }

  lemma {:induction false} ValidatorsLength(vs: seq<InitialValidator>)
    ensures |PackInitialValidators(vs)| == ValidatorOffset(vs, |vs|)
  {
    if vs != [] {
      ValidatorsLength(vs[..|vs| - 1]);
      OffsetsAgree(vs, vs[..|vs| - 1], |vs| - 1);
    }
  }

  /** The validators follow one another in order. */
  lemma {:induction false} ValidatorsInOrder(vs: seq<InitialValidator>, i: nat)
    requires i < |vs|
    ensures Bytes(PackInitialValidators(vs), ValidatorOffset(vs, i), PackInitialValidator(vs[i]))
    decreases |vs|
  {
    var init := vs[..|vs| - 1];
    OffsetsAgree(vs, init, i);
    if i < |init| {
      ValidatorsInOrder(init, i);
    } else {
      ValidatorsLength(init);
    }
  }

  lemma {:induction false} OffsetsAgree(vs: seq<InitialValidator>, init: seq<InitialValidator>, i: nat)
    requires i <= |init| && init <= vs
    ensures ValidatorOffset(vs, i) == ValidatorOffset(init, i)
  {
    if i > 0 {
      OffsetsAgree(vs, init, i - 1);
    }
  }
}
