/** The message that registers a validator: a record with a node ID and two owner lists of any length. */
module RegisterMessage {
  import opened Wrappers
  import opened Numeric
  import opened BigEndian
  import opened MessageTypes
  import opened ValidatorMessages

  // ----- Packing -----

  function PackAddresses(addresses: seq<nat>): (b: seq<Byte>)
    ensures |b| == ADDRESS_LENGTH * |addresses|
  {
    if addresses == [] then []
    else PackAddresses(addresses[..|addresses| - 1]) + ToBytes(addresses[|addresses| - 1], ADDRESS_LENGTH)
  }

  /** Threshold, number of addresses (cut to four bytes), addresses. */
  function PackOwner(owner: PChainOwner): (b: seq<Byte>)
    ensures |b| == 8 + ADDRESS_LENGTH * |owner.addresses|
  {
    ToBytes(owner.threshold, 4) + ToBytes(|owner.addresses|, 4) + PackAddresses(owner.addresses)
  }

  /** Everything before the owners; the length of the node ID is cut to four bytes. */
  function PackHead(p: ValidationPeriod): (b: seq<Byte>)
    ensures |b| == 50 + |p.nodeID| + |p.blsPublicKey|
  {
    Header(REGISTER_L1_VALIDATOR_MESSAGE_TYPE_ID) + ToBytes(p.subnetID, 32) + ToBytes(|p.nodeID|, 4) + p.nodeID
    + p.blsPublicKey + ToBytes(p.registrationExpiry, 8)
  }

  function PackRegister(p: ValidationPeriod): Result<seq<Byte>, CodecError> {
    var _ :- Require(|p.blsPublicKey| == BLS_KEY_LENGTH, InvalidBLSPublicKey);
    Ok(PackHead(p) + PackOwner(p.remainingBalanceOwner) + PackOwner(p.disableOwner) + ToBytes(p.weight, 8))
  }

  function PackedLength(p: ValidationPeriod): nat {
    122 + |p.nodeID| + ADDRESS_LENGTH * (|p.remainingBalanceOwner.addresses| + |p.disableOwner.addresses|)
  }

  // ----- Unpacking -----

  /** Up to the registration expiry. The second component is the index of what follows; it is a checked uint32. */
  datatype Head = Head(subnetID: nat, nodeID: seq<Byte>, blsPublicKey: seq<Byte>, registrationExpiry: nat)

  function HeadAt(b: seq<Byte>): Result<(Head, nat), CodecError> {
    var _ :- HeaderAt(b, REGISTER_L1_VALIDATOR_MESSAGE_TYPE_ID);
    var subnetID :- IntAt(b, 6, 32);
    var length :- IntAt(b, 38, 4);
    var nodeID :- BytesAt(b, 42, length);
    var index :- Checked32(42 + length);
    var key :- BytesAt(b, index, BLS_KEY_LENGTH);
    var index1 :- Checked32(index + BLS_KEY_LENGTH);
    var expiry :- IntAt(b, index1, 8);
    var index2 :- Checked32(index1 + 8);
    Ok((Head(subnetID, nodeID, key, expiry), index2))
  }

  /** The first `n` addresses from an index on. */
  function AddressesAt(b: seq<Byte>, index: nat, n: nat): Result<(seq<nat>, nat), CodecError> {
    if n == 0 then Ok(([], index))
    else
      var (addresses, next) :- AddressesAt(b, index, n - 1);
      var address :- IntAt(b, next, ADDRESS_LENGTH);
      var after :- Checked32(next + ADDRESS_LENGTH);
      Ok((addresses + [address], after))
  }

  function OwnerAt(b: seq<Byte>, index: nat): Result<(PChainOwner, nat), CodecError> {
    var threshold :- IntAt(b, index, 4);
    var index1 :- Checked32(index + 4);
    var length :- IntAt(b, index1, 4);
    var index2 :- Checked32(index1 + 4);
    var (addresses, next) :- AddressesAt(b, index2, length);
    Ok((PChainOwner(threshold, addresses), next))
  }

  /** The length that the variable parts call for, in checked uint32 arithmetic. */
  function ExpectedLength(nodeIDLength: nat, addresses1: nat, addresses2: nat): Result<nat, CodecError> {
    var addresses :- Checked32(addresses1 + addresses2);
    var bytes :- Checked32(addresses * ADDRESS_LENGTH);
    var start :- Checked32(122 + nodeIDLength);
    Checked32(start + bytes)
  }

  function UnpackRegister(b: seq<Byte>): Result<ValidationPeriod, CodecError> {
    var (head, index) :- HeadAt(b);
    var (owner1, index1) :- OwnerAt(b, index);
    var (owner2, index2) :- OwnerAt(b, index1);
    var expected :- ExpectedLength(|head.nodeID|, |owner1.addresses|, |owner2.addresses|);
    var _ :- Require(|b| == expected, InvalidMessageLength);
    var weight :- IntAt(b, index2, 8);
    Ok(ValidationPeriod(head.subnetID, head.nodeID, head.blsPublicKey, head.registrationExpiry, owner1, owner2, weight))
  }

  // ----- What the Solidity types hold -----

  ghost predicate AddressesFit(addresses: seq<nat>) {
    forall i :: 0 <= i < |addresses| ==> Fits(addresses[i], ADDRESS_LENGTH)
  }

  ghost predicate OwnerTyped(owner: PChainOwner) {
    Fits(owner.threshold, 4) && AddressesFit(owner.addresses)
  }

  /** bytes32, uint64, uint32 and address values are in the range of their types. */
  ghost predicate Typed(p: ValidationPeriod) {
    && Fits(p.subnetID, 32) && Fits(p.registrationExpiry, 8) && Fits(p.weight, 8)
    && OwnerTyped(p.remainingBalanceOwner) && OwnerTyped(p.disableOwner)
  }

  // ----- What is packed is unpacked -----

  lemma Pow256Values()
    ensures Pow256(4) == MAX_UINT32 + 1
    ensures Pow256(8) == MAX_UINT64 + 1
  {
    assert Pow256(2) == 0x10000;
    assert Pow256(4) == 0x10000 * Pow256(2) by {
      assert Pow256(3) == 256 * Pow256(2);
    }
    assert Pow256(6) == 0x10000 * Pow256(4) by {
      assert Pow256(5) == 256 * Pow256(4);
    }
    assert Pow256(8) == 0x10000 * Pow256(6) by {
      assert Pow256(7) == 256 * Pow256(6);
    }
  }

  /** An integer that was packed after a prefix is read there. */
  lemma IntAfter(pre: seq<Byte>, x: nat, n: nat, b: seq<Byte>)
    requires n > 0 && Fits(x, n) && pre + ToBytes(x, n) <= b
    ensures IntAt(b, |pre|, n) == Ok(x)
  {
    After(pre, ToBytes(x, n), b);
    FromTo(x, n);
  }

  lemma AddLast(pre: seq<Byte>, addresses: seq<nat>)
    requires addresses != []
    ensures pre + PackAddresses(addresses)
            == pre + PackAddresses(addresses[..|addresses| - 1]) + ToBytes(addresses[|addresses| - 1], ADDRESS_LENGTH)
  {
    Reassociate(pre, PackAddresses(addresses[..|addresses| - 1]),
                ToBytes(addresses[|addresses| - 1], ADDRESS_LENGTH));
  }

  lemma LastAddress(b: seq<Byte>, index: nat, init: seq<nat>, last: nat, next: nat)
    requires AddressesAt(b, index, |init|) == Ok((init, next)) && IntAt(b, next, ADDRESS_LENGTH) == Ok(last)
    requires next + ADDRESS_LENGTH <= MAX_UINT32
    ensures AddressesAt(b, index, |init| + 1) == Ok((init + [last], next + ADDRESS_LENGTH))
  {
  }

  /** What precedes the last address, and the last address. */
  lemma LastAfter(pre: seq<Byte>, addresses: seq<nat>, b: seq<Byte>)
    requires addresses != [] && AddressesFit(addresses) && pre + PackAddresses(addresses) <= b
    ensures var init, last := addresses[..|addresses| - 1], addresses[|addresses| - 1];
            && pre + PackAddresses(init) <= b
            && IntAt(b, |pre| + ADDRESS_LENGTH * |init|, ADDRESS_LENGTH) == Ok(last)
  {
    var init, last := addresses[..|addresses| - 1], addresses[|addresses| - 1];
    AddLast(pre, addresses);
    After(pre + PackAddresses(init), ToBytes(last, ADDRESS_LENGTH), b);
    IntAfter(pre + PackAddresses(init), last, ADDRESS_LENGTH, b);
  }

  lemma {:induction false} AddressesAfter(pre: seq<Byte>, addresses: seq<nat>, b: seq<Byte>)
    requires AddressesFit(addresses)
    requires pre + PackAddresses(addresses) <= b
    requires |pre| + ADDRESS_LENGTH * |addresses| <= MAX_UINT32
    ensures AddressesAt(b, |pre|, |addresses|) == Ok((addresses, |pre| + ADDRESS_LENGTH * |addresses|))
  {
    if addresses != [] {
      var n := |addresses| - 1;
      var init, last := addresses[..n], addresses[n];
      LastAfter(pre, addresses, b);
      AddressesAfter(pre, init, b);
      LastAddress(b, |pre|, init, last, |pre| + ADDRESS_LENGTH * n);
      assert addresses == init + [last];
    }
  }

  lemma LengthFits(n: nat)
    requires n <= MAX_UINT32
    ensures Fits(n, 4)
  {
    Pow256Values();
  }

  lemma OwnerFromParts(b: seq<Byte>, index: nat, threshold: nat, n: nat, addresses: seq<nat>, next: nat)
    requires IntAt(b, index, 4) == Ok(threshold) && IntAt(b, index + 4, 4) == Ok(n)
    requires index + 8 <= MAX_UINT32 && AddressesAt(b, index + 8, n) == Ok((addresses, next))
    ensures OwnerAt(b, index) == Ok((PChainOwner(threshold, addresses), next))
  {
  }

  lemma LengthsAfter(pre: seq<Byte>, threshold: nat, n: nat, b: seq<Byte>)
    requires Fits(threshold, 4) && Fits(n, 4) && pre + (ToBytes(threshold, 4) + ToBytes(n, 4)) <= b
    ensures IntAt(b, |pre|, 4) == Ok(threshold) && IntAt(b, |pre| + 4, 4) == Ok(n)
  {
    Reassociate(pre, ToBytes(threshold, 4), ToBytes(n, 4));
    IntAfter(pre, threshold, 4, b);
    IntAfter(pre + ToBytes(threshold, 4), n, 4, b);
  }

  lemma OwnerAfter(pre: seq<Byte>, owner: PChainOwner, b: seq<Byte>)
    requires OwnerTyped(owner) && pre + PackOwner(owner) <= b && |pre + PackOwner(owner)| <= MAX_UINT32
    ensures OwnerAt(b, |pre|) == Ok((owner, |pre + PackOwner(owner)|))
  {
    var n, addresses := |owner.addresses|, PackAddresses(owner.addresses);
    var lengths := ToBytes(owner.threshold, 4) + ToBytes(n, 4);
    LengthFits(n);
    assert pre + PackOwner(owner) == pre + lengths + addresses by {
      Reassociate(pre, lengths, addresses);
    }
    After(pre + lengths, addresses, b);
    LengthsAfter(pre, owner.threshold, n, b);
    AddressesAfter(pre + lengths, owner.addresses, b);
    OwnerFromParts(b, |pre|, owner.threshold, n, owner.addresses, |pre + PackOwner(owner)|);
  }

  lemma HeadAfter(p: ValidationPeriod, b: seq<Byte>)
    requires Fits(p.subnetID, 32) && Fits(p.registrationExpiry, 8) && |p.blsPublicKey| == BLS_KEY_LENGTH
    requires PackHead(p) <= b && |PackHead(p)| <= MAX_UINT32
    ensures HeadAt(b) == Ok((Head(p.subnetID, p.nodeID, p.blsPublicKey, p.registrationExpiry), |PackHead(p)|))
  {
    LengthFits(|p.nodeID|);
    var p0 := Header(REGISTER_L1_VALIDATOR_MESSAGE_TYPE_ID);
    var p1 := p0 + ToBytes(p.subnetID, 32);
    var p2 := p1 + ToBytes(|p.nodeID|, 4);
    var p3 := p2 + p.nodeID;
    var p4 := p3 + p.blsPublicKey;
    assert PackHead(p) == p4 + ToBytes(p.registrationExpiry, 8);
    assert p4 <= b && p3 <= b && p2 <= b && p1 <= b && p0 <= b;
    HeaderIff(b, REGISTER_L1_VALIDATOR_MESSAGE_TYPE_ID);
    IntAfter(p0, p.subnetID, 32, b);
    IntAfter(p1, |p.nodeID|, 4, b);
    After(p2, p.nodeID, b);
    After(p3, p.blsPublicKey, b);
    IntAfter(p4, p.registrationExpiry, 8, b);
  }

  lemma RegisterFromParts(b: seq<Byte>, p: ValidationPeriod, i: nat, j: nat, k: nat)
    requires HeadAt(b) == Ok((Head(p.subnetID, p.nodeID, p.blsPublicKey, p.registrationExpiry), i))
    requires OwnerAt(b, i) == Ok((p.remainingBalanceOwner, j)) && OwnerAt(b, j) == Ok((p.disableOwner, k))
    requires |b| == PackedLength(p) <= MAX_UINT32 && IntAt(b, k, 8) == Ok(p.weight)
    ensures UnpackRegister(b) == Ok(p)
  {
  }

  lemma PackedIsUnpacked(p: ValidationPeriod)
    requires Typed(p) && |p.blsPublicKey| == BLS_KEY_LENGTH && PackedLength(p) <= MAX_UINT32
    ensures UnpackRegister(PackRegister(p).value) == Ok(p)
  {
    var b := PackRegister(p).value;
    var p1 := PackHead(p);
    var p2 := p1 + PackOwner(p.remainingBalanceOwner);
    var p3 := p2 + PackOwner(p.disableOwner);
    assert b == p3 + ToBytes(p.weight, 8);
    assert p3 <= b && p2 <= b && p1 <= b;
    HeadAfter(p, b);
    OwnerAfter(p1, p.remainingBalanceOwner, b);
    OwnerAfter(p2, p.disableOwner, b);
    IntAfter(p3, p.weight, 8, b);
    RegisterFromParts(b, p, |p1|, |p2|, |p3|);
  }

  // ----- What is unpacked was packed -----

  /** An integer that is read has these bytes, and fits. */
  lemma IntWas(b: seq<Byte>, index: nat, n: nat)
    requires n > 0 && IntAt(b, index, n).Ok?
    ensures b[..index] + ToBytes(IntAt(b, index, n).value, n) == b[..index + n]
    ensures Fits(IntAt(b, index, n).value, n)
  {
    ToFrom(b[index..index + n]);
    FromBytesBound(b[index..index + n]);
    Glue(b, index, index + n);
  }

  /** The last step of reading addresses. */
  lemma AddressesStep(b: seq<Byte>, index: nat, n: nat)
    requires n > 0 && AddressesAt(b, index, n).Ok?
    ensures AddressesAt(b, index, n - 1).Ok?
    ensures var (init, mid) := AddressesAt(b, index, n - 1).value;
            && IntAt(b, mid, ADDRESS_LENGTH).Ok?
            && AddressesAt(b, index, n).value
               == (init + [IntAt(b, mid, ADDRESS_LENGTH).value], mid + ADDRESS_LENGTH)
  {
  }

  lemma {:induction false} AddressesWere(b: seq<Byte>, index: nat, n: nat, addresses: seq<nat>, next: nat)
    requires AddressesAt(b, index, n) == Ok((addresses, next)) && index <= |b|
    ensures |addresses| == n && next == index + ADDRESS_LENGTH * n <= |b|
    ensures AddressesFit(addresses)
    ensures b[..index] + PackAddresses(addresses) == b[..next]
  {
    if n == 0 {
      assert b[..index] + [] == b[..index];
    } else {
      AddressesStep(b, index, n);
      var (init, mid) := AddressesAt(b, index, n - 1).value;
      var last := IntAt(b, mid, ADDRESS_LENGTH).value;
      AddressesWere(b, index, n - 1, init, mid);
      IntWas(b, mid, ADDRESS_LENGTH);
      assert addresses[..n - 1] == init && addresses[n - 1] == last;
      AddLast(b[..index], addresses);
    }
  }

  lemma LengthsWere(b: seq<Byte>, index: nat, threshold: nat, n: nat)
    requires IntAt(b, index, 4) == Ok(threshold) && IntAt(b, index + 4, 4) == Ok(n)
    ensures Fits(threshold, 4) && index + 8 <= |b|
    ensures b[..index] + (ToBytes(threshold, 4) + ToBytes(n, 4)) == b[..index + 8]
  {
    IntWas(b, index, 4);
    IntWas(b, index + 4, 4);
  }

  /** The parts of an accepted owner. */
  lemma OwnerParts(b: seq<Byte>, index: nat, owner: PChainOwner, next: nat) returns (n: nat)
    requires OwnerAt(b, index) == Ok((owner, next))
    ensures IntAt(b, index, 4) == Ok(owner.threshold) && IntAt(b, index + 4, 4) == Ok(n)
    ensures AddressesAt(b, index + 8, n) == Ok((owner.addresses, next))
  {
    n := IntAt(b, index + 4, 4).value;
  }

  lemma OwnerTypedAt(b: seq<Byte>, index: nat, owner: PChainOwner, next: nat)
    requires OwnerAt(b, index) == Ok((owner, next))
    ensures OwnerTyped(owner) && next == index + 8 + ADDRESS_LENGTH * |owner.addresses| <= |b|
  {
    var n := OwnerParts(b, index, owner, next);
    LengthsWere(b, index, owner.threshold, n);
    AddressesWere(b, index + 8, n, owner.addresses, next);
  }

  lemma Reassociate(pre: seq<Byte>, x: seq<Byte>, y: seq<Byte>)
    ensures pre + (x + y) == pre + x + y
  {
  }

  lemma OwnerBytesAt(b: seq<Byte>, index: nat, owner: PChainOwner, next: nat, n: nat)
    requires index + 8 <= |b| && next <= |b| && n == |owner.addresses|
    requires b[..index] + (ToBytes(owner.threshold, 4) + ToBytes(n, 4)) == b[..index + 8]
    requires b[..index + 8] + PackAddresses(owner.addresses) == b[..next]
    ensures b[..index] + PackOwner(owner) == b[..next]
  {
    Reassociate(b[..index], ToBytes(owner.threshold, 4) + ToBytes(n, 4), PackAddresses(owner.addresses));
  }

  lemma OwnerWas(b: seq<Byte>, index: nat, owner: PChainOwner, next: nat)
    requires OwnerAt(b, index) == Ok((owner, next))
    ensures OwnerTyped(owner) && next == index + |PackOwner(owner)| <= |b|
    ensures b[..index] + PackOwner(owner) == b[..next]
  {
    OwnerTypedAt(b, index, owner, next);
    var n := OwnerParts(b, index, owner, next);
    LengthsWere(b, index, owner.threshold, n);
    AddressesWere(b, index + 8, n, owner.addresses, next);
    OwnerBytesAt(b, index, owner, next, n);
  }

  /** The parts of an accepted head. */
  lemma HeadParts(b: seq<Byte>, h: Head, next: nat)
    requires HeadAt(b) == Ok((h, next))
    ensures var n := |h.nodeID|;
            && HeaderAt(b, REGISTER_L1_VALIDATOR_MESSAGE_TYPE_ID).Ok?
            && IntAt(b, 6, 32) == Ok(h.subnetID) && IntAt(b, 38, 4) == Ok(n)
            && next == 98 + n <= |b| && |h.blsPublicKey| == BLS_KEY_LENGTH
            && b[42..42 + n] == h.nodeID && b[42 + n..90 + n] == h.blsPublicKey
            && IntAt(b, 90 + n, 8) == Ok(h.registrationExpiry)
  {
  }

  lemma HeadStart(b: seq<Byte>, subnetID: nat, n: nat)
    requires HeaderAt(b, REGISTER_L1_VALIDATOR_MESSAGE_TYPE_ID).Ok?
    requires IntAt(b, 6, 32) == Ok(subnetID) && IntAt(b, 38, 4) == Ok(n)
    ensures Fits(subnetID, 32) && |b| >= 42
    ensures b[..42] == Header(REGISTER_L1_VALIDATOR_MESSAGE_TYPE_ID) + ToBytes(subnetID, 32) + ToBytes(n, 4)
  {
    HeaderIff(b, REGISTER_L1_VALIDATOR_MESSAGE_TYPE_ID);
    IntWas(b, 6, 32);
    IntWas(b, 38, 4);
    assert b[..6] == Header(REGISTER_L1_VALIDATOR_MESSAGE_TYPE_ID);
  }

  lemma HeadWas(b: seq<Byte>, p: ValidationPeriod, next: nat)
    requires HeadAt(b) == Ok((Head(p.subnetID, p.nodeID, p.blsPublicKey, p.registrationExpiry), next))
    ensures Fits(p.subnetID, 32) && Fits(p.registrationExpiry, 8) && |p.blsPublicKey| == BLS_KEY_LENGTH
    ensures next == |PackHead(p)| <= |b| && b[..next] == PackHead(p)
  {
    HeadParts(b, Head(p.subnetID, p.nodeID, p.blsPublicKey, p.registrationExpiry), next);
    var n := |p.nodeID|;
    HeadStart(b, p.subnetID, n);
    Glue(b, 42, 42 + n);
    Glue(b, 42 + n, 90 + n);
    IntWas(b, 90 + n, 8);
  }

  /** The stages of a successful unpacking. */
  lemma UnpackStages(b: seq<Byte>, p: ValidationPeriod) returns (i: nat, j: nat, k: nat)
    requires UnpackRegister(b) == Ok(p)
    ensures HeadAt(b) == Ok((Head(p.subnetID, p.nodeID, p.blsPublicKey, p.registrationExpiry), i))
    ensures OwnerAt(b, i) == Ok((p.remainingBalanceOwner, j)) && OwnerAt(b, j) == Ok((p.disableOwner, k))
    ensures |b| == PackedLength(p) <= MAX_UINT32 && IntAt(b, k, 8) == Ok(p.weight)
  {
    i := HeadAt(b).value.1;
    j := OwnerAt(b, i).value.1;
    k := OwnerAt(b, j).value.1;
  }

  lemma HeadThenOwners(b: seq<Byte>, p: ValidationPeriod, i: nat, j: nat, k: nat)
    requires i <= |b| && b[..i] == PackHead(p)
    requires OwnerAt(b, i) == Ok((p.remainingBalanceOwner, j)) && OwnerAt(b, j) == Ok((p.disableOwner, k))
    ensures OwnerTyped(p.remainingBalanceOwner) && OwnerTyped(p.disableOwner)
    ensures k <= |b| && b[..k] == PackHead(p) + PackOwner(p.remainingBalanceOwner) + PackOwner(p.disableOwner)
  {
    OwnerWas(b, i, p.remainingBalanceOwner, j);
    OwnerWas(b, j, p.disableOwner, k);
  }

  /** A message whose parts have these lengths ends with the weight. */
  lemma WeightEnds(b: seq<Byte>, k: nat, weight: nat)
    requires IntAt(b, k, 8) == Ok(weight) && |b| == k + 8
    ensures Fits(weight, 8) && b == b[..k] + ToBytes(weight, 8)
  {
    IntWas(b, k, 8);
    assert b[..k + 8] == b;
  }

  lemma UnpackedWasPacked(b: seq<Byte>, p: ValidationPeriod)
    requires UnpackRegister(b) == Ok(p)
    ensures Typed(p) && |p.blsPublicKey| == BLS_KEY_LENGTH && PackedLength(p) <= MAX_UINT32
    ensures PackRegister(p) == Ok(b)
  {
    var i, j, k := UnpackStages(b, p);
    HeadWas(b, p, i);
    HeadThenOwners(b, p, i, j, k);
    assert |b[..k]| == PackedLength(p) - 8;
    WeightEnds(b, k, p.weight);
  }

  // ----- The codec -----

  /**
   Unpacking gives back what was packed exactly when the whole message is shorter than 2^32 bytes; with a longer node ID
   or longer owner lists the lengths that are packed are cut off.
   */
  lemma RegisterRoundTrip(p: ValidationPeriod)
    requires Typed(p) && |p.blsPublicKey| == BLS_KEY_LENGTH
    ensures PackRegister(p).Ok? && |PackRegister(p).value| == PackedLength(p)
    ensures UnpackRegister(PackRegister(p).value) == Ok(p) <==> PackedLength(p) <= MAX_UINT32
  {
    if PackedLength(p) <= MAX_UINT32 {
      PackedIsUnpacked(p);
    }
    if UnpackRegister(PackRegister(p).value) == Ok(p) {
      UnpackedWasPacked(PackRegister(p).value, p);
    }
  }

  /** Unpacking accepts exactly the byte strings that packing makes of the periods it can carry. */
  lemma RegisterCodec(b: seq<Byte>, p: ValidationPeriod)
    ensures UnpackRegister(b) == Ok(p)
            <==> Typed(p) && PackedLength(p) <= MAX_UINT32 && PackRegister(p) == Ok(b)
  {
    if UnpackRegister(b) == Ok(p) {
      UnpackedWasPacked(b, p);
    }
    if Typed(p) && PackedLength(p) <= MAX_UINT32 && PackRegister(p) == Ok(b) {
      PackedIsUnpacked(p);
    }
  }

  /** Different periods have different messages, so a validation ID stands for one period. */
  lemma RegisterInjective(p: ValidationPeriod, q: ValidationPeriod)
    requires Typed(p) && Typed(q) && PackedLength(p) <= MAX_UINT32 && PackedLength(q) <= MAX_UINT32
    requires PackRegister(p).Ok? && PackRegister(p) == PackRegister(q)
    ensures p == q
  {
    PackedIsUnpacked(p);
    PackedIsUnpacked(q);
  }

  /** No byte string is a message of two kinds. */
  lemma NoConfusion(b: seq<Byte>)
    ensures UnpackConversion(b).Ok? ==>
              UnpackRegister(b).Revert? && UnpackRegistration(b).Revert? && UnpackWeight(b).Revert? && UnpackUptime(b).Revert?
    ensures UnpackRegister(b).Ok? ==>
              UnpackRegistration(b).Revert? && UnpackWeight(b).Revert? && UnpackUptime(b).Revert?
    ensures UnpackRegistration(b).Ok? ==> UnpackWeight(b).Revert? && UnpackUptime(b).Revert?
    ensures UnpackWeight(b).Ok? ==> UnpackUptime(b).Revert?
  {
    if UnpackRegister(b).Ok? {
      UnpackedWasPacked(b, UnpackRegister(b).value);
    }
  }
}
