/** The data whose hash is the conversion ID: what the initial validator set is checked against. */
module ConversionMessage {
  import opened Numeric
  import opened BigEndian
  import opened MessageTypes
  import opened ValidatorMessages
  import opened RegisterMessage

  function PackInitialValidator(v: InitialValidator): seq<Byte> {
    ToBytes(|v.nodeID|, 4) + v.nodeID + v.blsPublicKey + ToBytes(v.weight, 8)
  }

  function PackInitialValidators(vs: seq<InitialValidator>): seq<Byte> {
    if vs == [] then [] else PackInitialValidators(vs[..|vs| - 1]) + PackInitialValidator(vs[|vs| - 1])
  }

  function PackConversionHead(d: ConversionData): (b: seq<Byte>)
    ensures |b| == 94
  {
    ToBytes(CODEC_ID, 2) + ToBytes(d.subnetID, 32) + ToBytes(d.validatorManagerBlockchainID, 32)
    + ToBytes(ADDRESS_LENGTH, 4) + ToBytes(d.validatorManagerAddress, ADDRESS_LENGTH)
    + ToBytes(|d.initialValidators|, 4)
  }

  function PackConversionData(d: ConversionData): seq<Byte> {
    PackConversionHead(d) + PackInitialValidators(d.initialValidators)
  }

  /** Lengths and numbers in the range of their types; nothing about the keys. */
  ghost predicate ValidatorFits(v: InitialValidator) {
    |v.nodeID| <= MAX_UINT32 && Fits(v.weight, 8)
  }

  ghost predicate ValidatorsFit(vs: seq<InitialValidator>) {
    forall i :: 0 <= i < |vs| ==> ValidatorFits(vs[i])
  }

  ghost predicate ConversionFits(d: ConversionData) {
    && Fits(d.subnetID, 32) && Fits(d.validatorManagerBlockchainID, 32)
    && Fits(d.validatorManagerAddress, ADDRESS_LENGTH)
    && |d.initialValidators| <= MAX_UINT32 && ValidatorsFit(d.initialValidators)
  }

  /** As many validators, with keys of the same lengths in the same order. */
  predicate SameKeyLengths(v: seq<InitialValidator>, w: seq<InitialValidator>) {
    |v| == |w| && forall i :: 0 <= i < |v| ==> |v[i].blsPublicKey| == |w[i].blsPublicKey|
  }

  /** Keys of the length that a BLS key has. */
  predicate BLSKeys(vs: seq<InitialValidator>) {
    forall i :: 0 <= i < |vs| ==> |vs[i].blsPublicKey| == BLS_KEY_LENGTH
  }

  /** Two concatenations that agree, with first parts of the same length. */
  lemma Cut(a1: seq<Byte>, b1: seq<Byte>, a2: seq<Byte>, b2: seq<Byte>)
    requires a1 + b1 == a2 + b2 && |a1| == |a2|
    ensures a1 == a2 && b1 == b2
  {
    assert a1 == (a1 + b1)[..|a1|] && a2 == (a2 + b2)[..|a2|];
    assert b1 == (a1 + b1)[|a1|..] && b2 == (a2 + b2)[|a2|..];
  }

  lemma SameInt(x: nat, y: nat, n: nat)
    requires Fits(x, n) && Fits(y, n) && ToBytes(x, n) == ToBytes(y, n)
    ensures x == y
  {
    FromTo(x, n);
    FromTo(y, n);
  }

  lemma {:induction false} FirstValidator(vs: seq<InitialValidator>)
    requires vs != []
    ensures PackInitialValidators(vs) == PackInitialValidator(vs[0]) + PackInitialValidators(vs[1..])
  {
    if |vs| == 1 {
      assert vs[..0] == [] && vs[1..] == [];
    } else {
      var init := vs[..|vs| - 1];
      FirstValidator(init);
      assert init[1..] == vs[1..][..|vs| - 2];
      Reassociate(PackInitialValidator(vs[0]), PackInitialValidators(init[1..]), PackInitialValidator(vs[|vs| - 1]));
    }
  }

  /** A validator can be told from what follows it, if the length of its key is known. */
  lemma ValidatorDelimited(v: InitialValidator, x: seq<Byte>, w: InitialValidator, y: seq<Byte>)
    requires ValidatorFits(v) && ValidatorFits(w) && |v.blsPublicKey| == |w.blsPublicKey|
    requires PackInitialValidator(v) + x == PackInitialValidator(w) + y
    ensures v == w && x == y
  {
    var l1, l2 := ToBytes(|v.nodeID|, 4), ToBytes(|w.nodeID|, 4);
    var k1, k2 := v.blsPublicKey + ToBytes(v.weight, 8), w.blsPublicKey + ToBytes(w.weight, 8);
    assert PackInitialValidator(v) + x == l1 + (v.nodeID + (k1 + x));
    assert PackInitialValidator(w) + y == l2 + (w.nodeID + (k2 + y));
    Cut(l1, v.nodeID + (k1 + x), l2, w.nodeID + (k2 + y));
    LengthFits(|v.nodeID|);
    LengthFits(|w.nodeID|);
    SameInt(|v.nodeID|, |w.nodeID|, 4);
    Cut(v.nodeID, k1 + x, w.nodeID, k2 + y);
    Cut(k1, x, k2, y);
    Cut(v.blsPublicKey, ToBytes(v.weight, 8), w.blsPublicKey, ToBytes(w.weight, 8));
    SameInt(v.weight, w.weight, 8);
  }

  lemma {:induction false} ValidatorsInjective(v: seq<InitialValidator>, w: seq<InitialValidator>)
    requires ValidatorsFit(v) && ValidatorsFit(w) && SameKeyLengths(v, w)
    requires PackInitialValidators(v) == PackInitialValidators(w)
    ensures v == w
  {
    if v != [] {
      FirstValidator(v);
      FirstValidator(w);
      ValidatorDelimited(v[0], PackInitialValidators(v[1..]), w[0], PackInitialValidators(w[1..]));
      ValidatorsInjective(v[1..], w[1..]);
      assert v == [v[0]] + v[1..] && w == [w[0]] + w[1..];
    }
  }

  /** Two strings of the same pieces, told apart piece by piece. */
  lemma NextPiece(x1: nat, x2: nat, n: nat, rest1: seq<Byte>, rest2: seq<Byte>)
    requires Fits(x1, n) && Fits(x2, n) && ToBytes(x1, n) + rest1 == ToBytes(x2, n) + rest2
    ensures x1 == x2 && rest1 == rest2
  {
    Cut(ToBytes(x1, n), rest1, ToBytes(x2, n), rest2);
    SameInt(x1, x2, n);
  }

  function HeadEnd(d: ConversionData): seq<Byte> {
    ToBytes(d.validatorManagerAddress, ADDRESS_LENGTH) + ToBytes(|d.initialValidators|, 4)
  }

  /** The head with its pieces nested to the right. */
  lemma HeadPieces(d: ConversionData)
    ensures PackConversionHead(d)
            == ToBytes(CODEC_ID, 2) + (ToBytes(d.subnetID, 32) + (ToBytes(d.validatorManagerBlockchainID, 32)
               + (ToBytes(ADDRESS_LENGTH, 4) + HeadEnd(d))))
  {
  }

  lemma HeadInjective(d: ConversionData, e: ConversionData)
    requires ConversionFits(d) && ConversionFits(e) && PackConversionHead(d) == PackConversionHead(e)
    ensures d.subnetID == e.subnetID && d.validatorManagerBlockchainID == e.validatorManagerBlockchainID
    ensures d.validatorManagerAddress == e.validatorManagerAddress && |d.initialValidators| == |e.initialValidators|
  {
    HeadPieces(d);
    HeadPieces(e);
    var d3, e3 := ToBytes(ADDRESS_LENGTH, 4) + HeadEnd(d), ToBytes(ADDRESS_LENGTH, 4) + HeadEnd(e);
    var d2, e2 := ToBytes(d.validatorManagerBlockchainID, 32) + d3, ToBytes(e.validatorManagerBlockchainID, 32) + e3;
    Cut(ToBytes(CODEC_ID, 2), ToBytes(d.subnetID, 32) + d2, ToBytes(CODEC_ID, 2), ToBytes(e.subnetID, 32) + e2);
    NextPiece(d.subnetID, e.subnetID, 32, d2, e2);
    NextPiece(d.validatorManagerBlockchainID, e.validatorManagerBlockchainID, 32, d3, e3);
    Cut(ToBytes(ADDRESS_LENGTH, 4), HeadEnd(d), ToBytes(ADDRESS_LENGTH, 4), HeadEnd(e));
    LengthFits(|d.initialValidators|);
    LengthFits(|e.initialValidators|);
    LastPieces(d.validatorManagerAddress, e.validatorManagerAddress, |d.initialValidators|, |e.initialValidators|);
  }

  lemma LastPieces(a1: nat, a2: nat, n1: nat, n2: nat)
    requires Fits(a1, ADDRESS_LENGTH) && Fits(a2, ADDRESS_LENGTH) && Fits(n1, 4) && Fits(n2, 4)
    requires ToBytes(a1, ADDRESS_LENGTH) + ToBytes(n1, 4) == ToBytes(a2, ADDRESS_LENGTH) + ToBytes(n2, 4)
    ensures a1 == a2 && n1 == n2
  {
    NextPiece(a1, a2, ADDRESS_LENGTH, ToBytes(n1, 4), ToBytes(n2, 4));
    SameInt(n1, n2, 4);
  }

  /**
   The bytes that are hashed determine everything but where the keys end: two conversion data with the same bytes agree
   outside of their validators, have as many validators, and are the same if and only if their keys have the same lengths.
   */
  lemma ConversionInjective(d: ConversionData, e: ConversionData)
    requires ConversionFits(d) && ConversionFits(e) && PackConversionData(d) == PackConversionData(e)
    ensures d == e.(initialValidators := d.initialValidators)
    ensures |d.initialValidators| == |e.initialValidators|
    ensures d == e <==> SameKeyLengths(d.initialValidators, e.initialValidators)
  {
    Cut(PackConversionHead(d), PackInitialValidators(d.initialValidators),
        PackConversionHead(e), PackInitialValidators(e.initialValidators));
    HeadInjective(d, e);
    if SameKeyLengths(d.initialValidators, e.initialValidators) {
      ValidatorsInjective(d.initialValidators, e.initialValidators);
    }
  }

  // ----- Keys that end elsewhere -----

  /** The bytes between the keys of two neighbours: the weight of the first, and the node ID of the second. */
  function Between(weight: nat, nodeID: seq<Byte>): seq<Byte> {
    ToBytes(weight, 8) + (ToBytes(|nodeID|, 4) + nodeID)
  }

  lemma PairPacked(v: InitialValidator, w: InitialValidator)
    ensures PackInitialValidators([v, w])
            == ToBytes(|v.nodeID|, 4) + v.nodeID
               + (v.blsPublicKey + Between(v.weight, w.nodeID) + w.blsPublicKey) + ToBytes(w.weight, 8)
  {
    FirstValidator([v, w]);
    FirstValidator([w]);
    assert [v, w][1..] == [w] && [w][1..] == [];
  }

  /**
   Why the lengths of the keys matter. If the first key contains what could be the first validator's weight `x` and
   another node ID `c`, the same bytes are those of two validators with the keys ending there: the second one is then
   for node `c`, not for node `b`.
   */
  lemma KeyLengthsMatter(a: seq<Byte>, b: seq<Byte>, c: seq<Byte>, key: seq<Byte>, last: seq<Byte>,
                         v: nat, w: nat, x: nat)
    ensures PackInitialValidators([InitialValidator(a, key + Between(x, c), v), InitialValidator(b, last, w)])
            == PackInitialValidators([InitialValidator(a, key, x), InitialValidator(c, Between(v, b) + last, w)])
  {
    PairPacked(InitialValidator(a, key + Between(x, c), v), InitialValidator(b, last, w));
    PairPacked(InitialValidator(a, key, x), InitialValidator(c, Between(v, b) + last, w));
    assert key + Between(x, c) + Between(v, b) + last == key + Between(x, c) + (Between(v, b) + last);
  }
}
