/**
 How a message of the messenger is turned into bytes: the Contract ABI encoding of a tuple with three parts of variable
 length, and its decoding by following the offsets. Also the bytes that are hashed into a message ID.
 */
module AbiCodec {
  import opened Wrappers
  import opened Numeric
  import opened BigEndian
  import opened ReceiptQueue
  import opened TeleporterSpec

  const WORD_LENGTH := 32

  /** Size of the head of the tuple: eight words. */
  const HEAD_LENGTH := 256

  datatype DecodeError = OutOfBounds

  /** The largest address, of 20 bytes. */
  const MAX_ADDRESS := 0xffff_ffff_ffff_ffff_ffff_ffff_ffff_ffff_ffff_ffff

  predicate InWord(x: nat) {
    x <= MAX_UINT256
  }

  predicate InAddress(x: nat) {
    x <= MAX_ADDRESS
  }

  // ----- Encoding -----

  function Word(x: nat): (b: seq<Byte>)
    ensures |b| == WORD_LENGTH
  {
    ToBytes(x, WORD_LENGTH)
  }

  function Words(xs: seq<nat>): (b: seq<Byte>)
    ensures |b| == WORD_LENGTH * |xs|
  {
    if xs == [] then [] else Words(xs[..|xs| - 1]) + Word(xs[|xs| - 1])
  }

  /** The two words of each receipt. */
  function Flatten(receipts: seq<Receipt>): (xs: seq<nat>)
    ensures |xs| == 2 * |receipts|
  {
    if receipts == [] then []
    else
      var r := receipts[|receipts| - 1];
      Flatten(receipts[..|receipts| - 1]) + [r.receivedMessageNonce, r.relayerRewardAddress]
  }

  /** How many zero bytes fill the last word. */
  function Padding(n: nat): nat {
    (WORD_LENGTH - n % WORD_LENGTH) % WORD_LENGTH
  }

  function Zeros(n: nat): seq<Byte> {
    seq(n, _ => 0)
  }

  function EncodeList(xs: seq<nat>, n: nat): seq<Byte> {
    Word(n) + Words(xs)
  }

  function EncodeBytes(payload: seq<Byte>): seq<Byte> {
    Word(|payload|) + payload + Zeros(Padding(|payload|))
  }

  // Offsets of the parts of variable length, from the start of the tuple.
  function ReceiptsOffset(m: Message): nat {
    HEAD_LENGTH + WORD_LENGTH + WORD_LENGTH * |m.allowedRelayerAddresses|
  }

  function PayloadOffset(m: Message): nat {
    ReceiptsOffset(m) + WORD_LENGTH + 2 * WORD_LENGTH * |m.receipts|
  }

  function Head(m: Message): (xs: seq<nat>)
    ensures |xs| == 8
  {
    [m.messageNonce, m.originSenderAddress, m.destinationBlockchainID, m.destinationAddress, m.requiredGasLimit,
     HEAD_LENGTH, ReceiptsOffset(m), PayloadOffset(m)]
  }

  /** The tuple has parts of variable length, so the encoding begins with the offset of the tuple. */
  function Encode(m: Message): seq<Byte> {
    Word(WORD_LENGTH) + Words(Head(m)) + EncodeList(m.allowedRelayerAddresses, |m.allowedRelayerAddresses|)
    + EncodeList(Flatten(m.receipts), |m.receipts|) + EncodeBytes(m.payload)
  }

  // ----- Decoding -----

  function WordAt(b: seq<Byte>, index: nat): Result<nat, DecodeError> {
    if index + WORD_LENGTH <= |b| then Ok(FromBytes(b[index..index + WORD_LENGTH])) else Revert(OutOfBounds)
  }

  /** An address is in the low bytes of its word. */
  function Address20(word: nat): nat {
    word % (MAX_ADDRESS + 1)
  }

  function WordsAt(b: seq<Byte>, index: nat, n: nat): Result<seq<nat>, DecodeError> {
    if n == 0 then Ok([])
    else
      var xs :- WordsAt(b, index, n - 1);
      var x :- WordAt(b, index + WORD_LENGTH * (n - 1));
      Ok(xs + [x])
  }

  function Addresses(words: seq<nat>): (xs: seq<nat>)
    ensures |xs| == |words|
  {
    if words == [] then [] else Addresses(words[..|words| - 1]) + [Address20(words[|words| - 1])]
  }

  function Receipts(words: seq<nat>): seq<Receipt> {
    if |words| < 2 then []
    else Receipts(words[..|words| - 2]) + [Receipt(words[|words| - 2], Address20(words[|words| - 1]))]
  }

  function BytesAt(b: seq<Byte>, index: nat, n: nat): Result<seq<Byte>, DecodeError> {
    if index + n <= |b| then Ok(b[index..index + n]) else Revert(OutOfBounds)
  }

  // The parts of variable length, from the index that the head gives for them.
  function DecodeAddresses(b: seq<Byte>, index: nat): Result<seq<nat>, DecodeError> {
    var n :- WordAt(b, index);
    var words :- WordsAt(b, index + WORD_LENGTH, n);
    Ok(Addresses(words))
  }

  function DecodeReceipts(b: seq<Byte>, index: nat): Result<seq<Receipt>, DecodeError> {
    var n :- WordAt(b, index);
    var words :- WordsAt(b, index + WORD_LENGTH, 2 * n);
    Ok(Receipts(words))
  }

  function DecodeBytes(b: seq<Byte>, index: nat): Result<seq<Byte>, DecodeError> {
    var n :- WordAt(b, index);
    BytesAt(b, index + WORD_LENGTH, n)
  }

  /** The message that the head and the decoded tail make up. */
  function Assembled(head: seq<nat>, relayers: seq<nat>, receipts: seq<Receipt>, payload: seq<Byte>): Message
    requires |head| == 8
  {
    Message(head[0], Address20(head[1]), head[2], Address20(head[3]), head[4], relayers, receipts, payload)
  }

  function DecodeTuple(b: seq<Byte>, start: nat): Result<Message, DecodeError> {
    var head :- WordsAt(b, start, 8);
    if |head| != 8 then Revert(OutOfBounds)
    else
      var relayers :- DecodeAddresses(b, start + head[5]);
      var receipts :- DecodeReceipts(b, start + head[6]);
      var payload :- DecodeBytes(b, start + head[7]);
      Ok(Assembled(head, relayers, receipts, payload))
  }

  function Decode(b: seq<Byte>): Result<Message, DecodeError> {
    var start :- WordAt(b, 0);
    DecodeTuple(b, start)
  }

  // ----- Round trip -----

  ghost predicate WordsFit(xs: seq<nat>) {
    forall i :: 0 <= i < |xs| ==> InWord(xs[i])
  }

  ghost predicate AddressesFit(xs: seq<nat>) {
    forall i :: 0 <= i < |xs| ==> InAddress(xs[i])
  }

  ghost predicate ReceiptsFit(receipts: seq<Receipt>) {
    forall i :: 0 <= i < |receipts| ==>
      InWord(receipts[i].receivedMessageNonce) && InAddress(receipts[i].relayerRewardAddress)
  }

  /** The fields are in the range of their types, and every length and offset in a word. */
  ghost predicate Typed(m: Message) {
    && InWord(m.messageNonce) && InWord(m.destinationBlockchainID)
    && InWord(m.requiredGasLimit)
    && InAddress(m.originSenderAddress) && InAddress(m.destinationAddress)
    && AddressesFit(m.allowedRelayerAddresses) && ReceiptsFit(m.receipts)
    && InWord(PayloadOffset(m) + |m.payload|)
  }

  lemma EightMore(n: nat)
    ensures Pow256(n + 8) == (MAX_UINT64 + 1) * Pow256(n)
  {
    assert Pow256(n + 4) == 0x1_0000_0000 * Pow256(n) by {
      assert Pow256(n + 2) == 0x10000 * Pow256(n);
    }
    assert Pow256(n + 6) == 0x10000 * Pow256(n + 4);
  }

  /** A word holds numbers of 256 bits. */
  lemma WordHolds(n: nat)
    requires n == WORD_LENGTH
    ensures Pow256(n) == MAX_UINT256 + 1
  {
    EightMore(n - 32);
    EightMore(n - 24);
    EightMore(n - 16);
    EightMore(n - 8);
  }

  /** An address fits in a word and is read back unchanged. */
  lemma AddressInWord(x: nat)
    requires InAddress(x)
    ensures InWord(x) && Address20(x) == x
  {
  }

  lemma After(pre: seq<Byte>, x: seq<Byte>, b: seq<Byte>)
    requires pre + x <= b
    ensures pre <= b && |pre| + |x| <= |b| && b[|pre|..|pre| + |x|] == x
  {
    assert (pre + x)[|pre|..] == x;
    assert b[..|pre + x|] == pre + x;
  }

  lemma WordBack(x: nat, n: nat)
    requires InWord(x) && n == WORD_LENGTH
    ensures FromBytes(ToBytes(x, n)) == x
  {
    WordHolds(n);
    FromTo(x, n);
  }

  lemma WordAfter(pre: seq<Byte>, x: nat, b: seq<Byte>)
    requires InWord(x) && pre + Word(x) <= b
    ensures WordAt(b, |pre|) == Ok(x)
  {
    After(pre, Word(x), b);
    WordBack(x, WORD_LENGTH);
  }

  lemma LastWord(pre: seq<Byte>, xs: seq<nat>, x: nat)
    ensures pre + Words(xs + [x]) == pre + Words(xs) + Word(x)
  {
    assert (xs + [x])[..|xs|] == xs;
  }

  lemma {:induction false} WordsAfter(pre: seq<Byte>, xs: seq<nat>, b: seq<Byte>)
    requires WordsFit(xs) && pre + Words(xs) <= b
    ensures WordsAt(b, |pre|, |xs|) == Ok(xs)
  {
    if xs != [] {
      var init, last := xs[..|xs| - 1], xs[|xs| - 1];
      assert xs == init + [last];
      LastWord(pre, init, last);
      WordsAfter(pre, init, b);
      WordAfter(pre + Words(init), last, b);
    }
  }

  lemma ListAfter(pre: seq<Byte>, xs: seq<nat>, n: nat, b: seq<Byte>)
    requires WordsFit(xs) && InWord(n) && pre + EncodeList(xs, n) <= b
    ensures ListAt(b, |pre|, xs, n)
  {
    assert pre + EncodeList(xs, n) == pre + Word(n) + Words(xs);
    assert pre + Word(n) <= b;
    WordAfter(pre, n, b);
    WordsAfter(pre + Word(n), xs, b);
  }

  lemma BytesAfter(pre: seq<Byte>, payload: seq<Byte>, b: seq<Byte>)
    requires InWord(|payload|) && pre + EncodeBytes(payload) <= b
    ensures PayloadAt(b, |pre|, payload)
  {
    var zeros := Zeros(Padding(|payload|));
    assert pre + EncodeBytes(payload) == pre + Word(|payload|) + payload + zeros;
    assert pre + Word(|payload|) + payload <= b && pre + Word(|payload|) <= b;
    WordAfter(pre, |payload|, b);
    After(pre + Word(|payload|), payload, b);
  }

  lemma {:induction false} AddressesBack(xs: seq<nat>)
    requires AddressesFit(xs)
    ensures WordsFit(xs) && Addresses(xs) == xs
  {
    if xs != [] {
      AddressesBack(xs[..|xs| - 1]);
      AddressInWord(xs[|xs| - 1]);
      assert xs == xs[..|xs| - 1] + [xs[|xs| - 1]];
    }
  }

  lemma {:induction false} ReceiptsBack(receipts: seq<Receipt>)
    requires ReceiptsFit(receipts)
    ensures WordsFit(Flatten(receipts)) && Receipts(Flatten(receipts)) == receipts
  {
    if receipts != [] {
      var init, r := receipts[..|receipts| - 1], receipts[|receipts| - 1];
      ReceiptsBack(init);
      AddressInWord(r.relayerRewardAddress);
      var xs := Flatten(receipts);
      assert xs[..|xs| - 2] == Flatten(init);
      assert receipts == init + [r];
    }
  }

  /** The parts of variable length, behind a prefix that holds the offset and the head. */
  function Tail(m: Message): seq<Byte> {
    EncodeList(m.allowedRelayerAddresses, |m.allowedRelayerAddresses|)
    + EncodeList(Flatten(m.receipts), |m.receipts|) + EncodeBytes(m.payload)
  }

  /** A list is found at an index: its length, then its words. */
  ghost predicate ListAt(b: seq<Byte>, index: nat, xs: seq<nat>, n: nat) {
    WordAt(b, index) == Ok(n) && WordsAt(b, index + WORD_LENGTH, |xs|) == Ok(xs)
  }

  ghost predicate PayloadAt(b: seq<Byte>, index: nat, payload: seq<Byte>) {
    WordAt(b, index) == Ok(|payload|) && BytesAt(b, index + WORD_LENGTH, |payload|) == Ok(payload)
  }

  /** What the decoder finds of the tail at the offsets in the head. */
  ghost predicate TailAt(m: Message, b: seq<Byte>) {
    && ListAt(b, WORD_LENGTH + HEAD_LENGTH, m.allowedRelayerAddresses, |m.allowedRelayerAddresses|)
    && ListAt(b, WORD_LENGTH + ReceiptsOffset(m), Flatten(m.receipts), |m.receipts|)
    && PayloadAt(b, WORD_LENGTH + PayloadOffset(m), m.payload)
  }

  /** Each part of the tail as it lies behind the parts before it. */
  lemma TailPrefixes(m: Message, pre: seq<Byte>, p3: seq<Byte>, p4: seq<Byte>, b: seq<Byte>)
    requires pre + Tail(m) <= b
    requires p3 == pre + EncodeList(m.allowedRelayerAddresses, |m.allowedRelayerAddresses|)
    requires p4 == p3 + EncodeList(Flatten(m.receipts), |m.receipts|)
    ensures p4 + EncodeBytes(m.payload) <= b && p4 <= b && p3 <= b
  {
    assert pre + Tail(m) == p4 + EncodeBytes(m.payload);
  }

  lemma TailLengths(m: Message, pre: seq<Byte>, p3: seq<Byte>, p4: seq<Byte>)
    requires |pre| == WORD_LENGTH + HEAD_LENGTH
    requires p3 == pre + EncodeList(m.allowedRelayerAddresses, |m.allowedRelayerAddresses|)
    requires p4 == p3 + EncodeList(Flatten(m.receipts), |m.receipts|)
    ensures |p3| == WORD_LENGTH + ReceiptsOffset(m) && |p4| == WORD_LENGTH + PayloadOffset(m)
  {
  }

  lemma RelayersAfter(m: Message, pre: seq<Byte>, p3: seq<Byte>, b: seq<Byte>)
    requires Typed(m) && |pre| == WORD_LENGTH + HEAD_LENGTH && p3 <= b
    requires p3 == pre + EncodeList(m.allowedRelayerAddresses, |m.allowedRelayerAddresses|)
    ensures ListAt(b, WORD_LENGTH + HEAD_LENGTH, m.allowedRelayerAddresses, |m.allowedRelayerAddresses|)
  {
    HeadFits(m);
    AddressesBack(m.allowedRelayerAddresses);
    ListAfter(pre, m.allowedRelayerAddresses, |m.allowedRelayerAddresses|, b);
  }

  lemma ReceiptsAfter(m: Message, p3: seq<Byte>, p4: seq<Byte>, b: seq<Byte>)
    requires Typed(m) && |p3| == WORD_LENGTH + ReceiptsOffset(m) && p4 <= b
    requires p4 == p3 + EncodeList(Flatten(m.receipts), |m.receipts|)
    ensures ListAt(b, WORD_LENGTH + ReceiptsOffset(m), Flatten(m.receipts), |m.receipts|)
  {
    HeadFits(m);
    ReceiptsBack(m.receipts);
    ListAfter(p3, Flatten(m.receipts), |m.receipts|, b);
  }

  lemma PayloadAfter(m: Message, p4: seq<Byte>, b: seq<Byte>)
    requires Typed(m) && |p4| == WORD_LENGTH + PayloadOffset(m) && p4 + EncodeBytes(m.payload) <= b
    ensures PayloadAt(b, WORD_LENGTH + PayloadOffset(m), m.payload)
  {
    HeadFits(m);
    BytesAfter(p4, m.payload, b);
  }

  lemma TailAfter(m: Message, pre: seq<Byte>, b: seq<Byte>)
    requires Typed(m) && |pre| == WORD_LENGTH + HEAD_LENGTH && pre + Tail(m) <= b
    ensures TailAt(m, b)
  {
    var p3 := pre + EncodeList(m.allowedRelayerAddresses, |m.allowedRelayerAddresses|);
    var p4 := p3 + EncodeList(Flatten(m.receipts), |m.receipts|);
    TailPrefixes(m, pre, p3, p4, b);
    TailLengths(m, pre, p3, p4);
    RelayersAfter(m, pre, p3, b);
    ReceiptsAfter(m, p3, p4, b);
    PayloadAfter(m, p4, b);
  }

  lemma HeadAfter(m: Message, b: seq<Byte>)
    requires Typed(m) && Word(WORD_LENGTH) + Words(Head(m)) <= b
    ensures WordAt(b, 0) == Ok(WORD_LENGTH) && WordsAt(b, WORD_LENGTH, 8) == Ok(Head(m))
  {
    HeadFits(m);
    var none: seq<Byte> := [];
    assert none + Word(WORD_LENGTH) == Word(WORD_LENGTH) <= b;
    WordAfter(none, WORD_LENGTH, b);
    WordsAfter(Word(WORD_LENGTH), Head(m), b);
  }

  lemma DecodeAddressesAt(b: seq<Byte>, index: nat, xs: seq<nat>)
    requires ListAt(b, index, xs, |xs|)
    ensures DecodeAddresses(b, index) == Ok(Addresses(xs))
  {
  }

  lemma DecodeReceiptsAt(b: seq<Byte>, index: nat, xs: seq<nat>, n: nat)
    requires ListAt(b, index, xs, n) && |xs| == 2 * n
    ensures DecodeReceipts(b, index) == Ok(Receipts(xs))
  {
  }

  lemma DecodeBytesAt(b: seq<Byte>, index: nat, payload: seq<Byte>)
    requires PayloadAt(b, index, payload)
    ensures DecodeBytes(b, index) == Ok(payload)
  {
  }

  /** What the decoder makes of the tail. */
  lemma DecodeTail(m: Message, b: seq<Byte>)
    requires TailAt(m, b)
    ensures DecodeAddresses(b, WORD_LENGTH + HEAD_LENGTH) == Ok(Addresses(m.allowedRelayerAddresses))
    ensures DecodeReceipts(b, WORD_LENGTH + ReceiptsOffset(m)) == Ok(Receipts(Flatten(m.receipts)))
    ensures DecodeBytes(b, WORD_LENGTH + PayloadOffset(m)) == Ok(m.payload)
  {
    DecodeAddressesAt(b, WORD_LENGTH + HEAD_LENGTH, m.allowedRelayerAddresses);
    DecodeReceiptsAt(b, WORD_LENGTH + ReceiptsOffset(m), Flatten(m.receipts), |m.receipts|);
    DecodeBytesAt(b, WORD_LENGTH + PayloadOffset(m), m.payload);
  }

  lemma HeadFits(m: Message)
    requires Typed(m)
    ensures WordsFit(Head(m)) && InWord(WORD_LENGTH)
    ensures InWord(|m.allowedRelayerAddresses|) && InWord(|m.receipts|)
    ensures InWord(|m.payload|)
  {
    AddressInWord(m.originSenderAddress);
    AddressInWord(m.destinationAddress);
  }

  lemma DecodeHead(b: seq<Byte>, head: seq<nat>, i: nat, relayers: seq<nat>, j: nat, receipts: seq<Receipt>, k: nat,
                   payload: seq<Byte>)
    requires WordAt(b, 0) == Ok(WORD_LENGTH) && WordsAt(b, WORD_LENGTH, 8) == Ok(head) && |head| == 8
    requires i == WORD_LENGTH + head[5] && DecodeAddresses(b, i) == Ok(relayers)
    requires j == WORD_LENGTH + head[6] && DecodeReceipts(b, j) == Ok(receipts)
    requires k == WORD_LENGTH + head[7] && DecodeBytes(b, k) == Ok(payload)
    ensures Decode(b) == Ok(Assembled(head, relayers, receipts, payload))
  {
  }

  /** The parts of an encoded message are where the decoder looks for them. */
  lemma PartsFound(m: Message, b: seq<Byte>)
    requires Typed(m) && Encode(m) <= b
    ensures WordAt(b, 0) == Ok(WORD_LENGTH) && WordsAt(b, WORD_LENGTH, 8) == Ok(Head(m)) && TailAt(m, b)
  {
    var pre := Word(WORD_LENGTH) + Words(Head(m));
    assert Encode(m) == pre + Tail(m);
    assert pre <= b && pre + Tail(m) <= b;
    HeadAfter(m, b);
    TailAfter(m, pre, b);
  }

  /** What the decoder makes of the parts of an encoded message. */
  lemma PartsDecoded(m: Message, b: seq<Byte>)
    requires Typed(m) && Encode(m) <= b
    ensures WordAt(b, 0) == Ok(WORD_LENGTH) && WordsAt(b, WORD_LENGTH, 8) == Ok(Head(m))
    ensures DecodeAddresses(b, WORD_LENGTH + HEAD_LENGTH) == Ok(m.allowedRelayerAddresses)
    ensures DecodeReceipts(b, WORD_LENGTH + ReceiptsOffset(m)) == Ok(m.receipts)
    ensures DecodeBytes(b, WORD_LENGTH + PayloadOffset(m)) == Ok(m.payload)
  {
    PartsFound(m, b);
    DecodeTail(m, b);
    AddressesBack(m.allowedRelayerAddresses);
    ReceiptsBack(m.receipts);
  }

  lemma HeadAssembled(m: Message)
    requires Typed(m)
    ensures Assembled(Head(m), m.allowedRelayerAddresses, m.receipts, m.payload) == m
  {
    AddressInWord(m.originSenderAddress);
    AddressInWord(m.destinationAddress);
  }

  lemma HeadOffsets(m: Message)
    ensures |Head(m)| == 8
    ensures Head(m)[5] == HEAD_LENGTH && Head(m)[6] == ReceiptsOffset(m) && Head(m)[7] == PayloadOffset(m)
  {
  }

  /** The message that the decoder makes of the parts where it finds them. */
  lemma PartsAssembled(m: Message, b: seq<Byte>)
    requires Typed(m) && WordAt(b, 0) == Ok(WORD_LENGTH) && WordsAt(b, WORD_LENGTH, 8) == Ok(Head(m))
    requires DecodeAddresses(b, WORD_LENGTH + HEAD_LENGTH) == Ok(m.allowedRelayerAddresses)
    requires DecodeReceipts(b, WORD_LENGTH + ReceiptsOffset(m)) == Ok(m.receipts)
    requires DecodeBytes(b, WORD_LENGTH + PayloadOffset(m)) == Ok(m.payload)
    ensures Decode(b) == Ok(m)
  {
    HeadOffsets(m);
    HeadAssembled(m);
    DecodeHead(b, Head(m), WORD_LENGTH + HEAD_LENGTH, m.allowedRelayerAddresses, WORD_LENGTH + ReceiptsOffset(m),
               m.receipts, WORD_LENGTH + PayloadOffset(m), m.payload);
  }

  /**
   Decoding gives back the message, whatever the number of relayers and receipts and the payload, and whatever follows
   the encoding.
   */
  lemma DecodeEncode(m: Message, rest: seq<Byte>)
    requires Typed(m)
    ensures Decode(Encode(m) + rest) == Ok(m)
  {
    PartsDecoded(m, Encode(m) + rest);
    PartsAssembled(m, Encode(m) + rest);
  }

  /** Different messages have different encodings, so a hash stands for one message. */
  lemma EncodeInjective(m: Message, n: Message)
    requires Typed(m) && Typed(n) && Encode(m) == Encode(n)
    ensures m == n
  {
    DecodeEncode(m, []);
    DecodeEncode(n, []);
    assert Encode(m) + [] == Encode(m) && Encode(n) + [] == Encode(n);
  }

  // ----- Message identity -----

  /** What is hashed into a message ID: four words. */
  function Preimage(messenger: nat, source: ChainID, destination: ChainID, nonce: nat): (b: seq<Byte>)
    ensures |b| == 128
  {
    Words([messenger, source, destination, nonce])
  }

  lemma {:induction false} WordsInjective(xs: seq<nat>, ys: seq<nat>)
    requires WordsFit(xs) && WordsFit(ys) && Words(xs) == Words(ys)
    ensures xs == ys
  {
    WordsAfter([], xs, Words(xs));
    WordsAfter([], ys, Words(ys));
  }

  /** The hashed bytes determine the messenger, the chains and the nonce. */
  lemma PreimageInjective(id1: MessageID, messenger1: nat, id2: MessageID, messenger2: nat)
    requires InAddress(messenger1) && InAddress(messenger2)
    requires InWord(id1.source) && InWord(id1.destination) && InWord(id1.nonce)
    requires InWord(id2.source) && InWord(id2.destination) && InWord(id2.nonce)
    ensures Preimage(messenger1, id1.source, id1.destination, id1.nonce)
            == Preimage(messenger2, id2.source, id2.destination, id2.nonce)
            <==> id1 == id2 && messenger1 == messenger2
  {
    AddressInWord(messenger1);
    AddressInWord(messenger2);
    var xs := [messenger1, id1.source, id1.destination, id1.nonce];
    var ys := [messenger2, id2.source, id2.destination, id2.nonce];
    if Words(xs) == Words(ys) {
      WordsInjective(xs, ys);
      assert xs[0] == ys[0] && xs[1] == ys[1] && xs[2] == ys[2] && xs[3] == ys[3];
    }
  }
}
