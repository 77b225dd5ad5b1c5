/**
 Where everything is in an encoded message, word by word, as the Contract ABI Specification lays out a tuple with parts
 of variable length; and in the bytes that are hashed into a message ID.
 */
module AbiLayout {
  import opened Wrappers
  import opened Numeric
  import opened BigEndian
  import opened ReceiptQueue
  import opened TeleporterSpec
  import opened AbiCodec

  /** The 32 bytes from index `i` are the number `x`. */
  ghost predicate WordIs(b: seq<Byte>, i: nat, x: nat) {
    i + 32 <= |b| && FromBytes(b[i..i + 32]) == x
  }

  lemma {:induction false} EachWord(b: seq<Byte>, index: nat, xs: seq<nat>, i: nat)
    requires WordsAt(b, index, |xs|) == Ok(xs) && i < |xs|
    ensures WordIs(b, index + 32 * i, xs[i])
  {
    var n := |xs| - 1;
    WordsLength(b, index, n);
    if i < n {
      EachWord(b, index, xs[..n], i);
    }
  }

  lemma {:induction false} WordsLength(b: seq<Byte>, index: nat, n: nat)
    ensures WordsAt(b, index, n).Ok? ==> |WordsAt(b, index, n).value| == n
  {
    if n > 0 {
      WordsLength(b, index, n - 1);
    }
  }

  lemma {:induction false} FlattenedAt(receipts: seq<Receipt>, i: nat)
    requires i < |receipts|
    ensures Flatten(receipts)[2 * i] == receipts[i].receivedMessageNonce
    ensures Flatten(receipts)[2 * i + 1] == receipts[i].relayerRewardAddress
  {
    if i < |receipts| - 1 {
      FlattenedAt(receipts[..|receipts| - 1], i);
    }
  }

  /** The fixed part: where the tuple begins, its five numbers, and where its three parts of variable length begin. */
  ghost predicate HeadLaidOut(b: seq<Byte>, m: Message) {
    var relayers, receipts := |m.allowedRelayerAddresses|, |m.receipts|;
    && WordIs(b, 0, 32)
    && WordIs(b, 32, m.messageNonce)
    && WordIs(b, 64, m.originSenderAddress)
    && WordIs(b, 96, m.destinationBlockchainID)
    && WordIs(b, 128, m.destinationAddress)
    && WordIs(b, 160, m.requiredGasLimit)
    && WordIs(b, 192, 256)
    && WordIs(b, 224, 288 + 32 * relayers)
    && WordIs(b, 256, 320 + 32 * relayers + 64 * receipts)
  }

  lemma HeadFound(b: seq<Byte>, m: Message, head: seq<nat>)
    requires WordAt(b, 0) == Ok(32) && WordsAt(b, 32, |head|) == Ok(head) && head == Head(m)
    ensures HeadLaidOut(b, m)
  {
    HeadOffsets(m);
    EachWord(b, 32, head, 0);
    EachWord(b, 32, head, 1);
    EachWord(b, 32, head, 2);
    EachWord(b, 32, head, 3);
    EachWord(b, 32, head, 4);
    EachWord(b, 32, head, 5);
    EachWord(b, 32, head, 6);
    EachWord(b, 32, head, 7);
  }

  /** The relayers: their number, then one word each. */
  ghost predicate RelayersLaidOut(b: seq<Byte>, m: Message) {
    && WordIs(b, 288, |m.allowedRelayerAddresses|)
    && forall i :: 0 <= i < |m.allowedRelayerAddresses| ==> WordIs(b, 320 + 32 * i, m.allowedRelayerAddresses[i])
  }

  lemma RelayersFound(b: seq<Byte>, m: Message)
    requires ListAt(b, 288, m.allowedRelayerAddresses, |m.allowedRelayerAddresses|)
    ensures RelayersLaidOut(b, m)
  {
    forall i | 0 <= i < |m.allowedRelayerAddresses| ensures WordIs(b, 320 + 32 * i, m.allowedRelayerAddresses[i]) {
      EachWord(b, 320, m.allowedRelayerAddresses, i);
    }
  }

  /** The receipts: their number, then two words each, the nonce first. */
  ghost predicate ReceiptsLaidOut(b: seq<Byte>, m: Message) {
    var start := 320 + 32 * |m.allowedRelayerAddresses|;
    && WordIs(b, start, |m.receipts|)
    && forall i :: 0 <= i < |m.receipts| ==> ReceiptIs(b, start + 32 + 64 * i, m.receipts[i])
  }

  ghost predicate ReceiptIs(b: seq<Byte>, i: nat, receipt: Receipt) {
    WordIs(b, i, receipt.receivedMessageNonce) && WordIs(b, i + 32, receipt.relayerRewardAddress)
  }

  lemma ReceiptsFound(b: seq<Byte>, m: Message, start: nat)
    requires start == 320 + 32 * |m.allowedRelayerAddresses| && ListAt(b, start, Flatten(m.receipts), |m.receipts|)
    ensures ReceiptsLaidOut(b, m)
  {
    forall i | 0 <= i < |m.receipts| ensures ReceiptIs(b, start + 32 + 64 * i, m.receipts[i]) {
      FlattenedAt(m.receipts, i);
      EachWord(b, start + 32, Flatten(m.receipts), 2 * i);
      EachWord(b, start + 32, Flatten(m.receipts), 2 * i + 1);
    }
  }

  /** The payload: its length, its bytes, and zeros up to a whole word, with which the encoding ends. */
  ghost predicate PayloadLaidOut(b: seq<Byte>, m: Message) {
    var start := 352 + 32 * |m.allowedRelayerAddresses| + 64 * |m.receipts|;
    var end := start + 32 + |m.payload|;
    WordIs(b, start, |m.payload|) && FilledUp(b, end) && b[start + 32..end] == m.payload
  }

  /** Zeros from index `end` on, up to a whole word. */
  ghost predicate FilledUp(b: seq<Byte>, end: nat) {
    end <= |b| < end + 32 && |b| % 32 == 0 && forall i :: end <= i < |b| ==> b[i] == 0
  }

  lemma PayloadFound(b: seq<Byte>, m: Message, start: nat)
    requires start == 352 + 32 * |m.allowedRelayerAddresses| + 64 * |m.receipts| && PayloadAt(b, start, m.payload)
    requires FilledUp(b, start + 32 + |m.payload|)
    ensures PayloadLaidOut(b, m)
  {
  }

  /** The encoding up to the payload. */
  function BeforePayload(m: Message): (b: seq<Byte>)
    ensures |b| == 352 + 32 * |m.allowedRelayerAddresses| + 64 * |m.receipts|
  {
    Word(WORD_LENGTH) + Words(Head(m)) + EncodeList(m.allowedRelayerAddresses, |m.allowedRelayerAddresses|)
    + EncodeList(Flatten(m.receipts), |m.receipts|)
  }

  lemma PaddingFills(n: nat)
    ensures Padding(n) < 32 && (n + Padding(n)) % 32 == 0
  {
  }

  lemma ZerosFill(words: seq<Byte>, k: nat)
    requires k < 32 && (|words| + k) % 32 == 0
    ensures FilledUp(words + Zeros(k), |words|)
  {
    var b := words + Zeros(k);
    forall i | |words| <= i < |b| ensures b[i] == 0 {
      assert b[i] == Zeros(k)[i - |words|];
    }
  }

  lemma Regrouped(a: seq<Byte>, b: seq<Byte>, c: seq<Byte>, d: seq<Byte>)
    ensures a + (b + c + d) == a + b + c + d
  {
  }

  lemma PayloadFilledUp(pre: seq<Byte>, length: seq<Byte>, payload: seq<Byte>, n: nat)
    requires |pre| % 32 == 0 && |length| == 32 && n == |payload|
    ensures FilledUp(pre + (length + payload + Zeros(Padding(n))), |pre| + 32 + n)
  {
    PaddingFills(n);
    Regrouped(pre, length, payload, Zeros(Padding(n)));
    ZerosFill(pre + length + payload, Padding(n));
  }

  lemma PayloadIsLast(m: Message)
    ensures Encode(m) == BeforePayload(m) + EncodeBytes(m.payload)
  {
  }

  lemma BytesFilledUp(pre: seq<Byte>, payload: seq<Byte>)
    requires |pre| % 32 == 0
    ensures FilledUp(pre + EncodeBytes(payload), |pre| + 32 + |payload|)
  {
    PayloadFilledUp(pre, Word(|payload|), payload, |payload|);
  }

  lemma WholeWords(words: nat, n: nat)
    requires n == 32 * words
    ensures n % 32 == 0
  {
  }

  /** The encoding ends with the zeros that fill the last word of the payload. */
  lemma EncodingFilledUp(payload: seq<Byte>, pre: seq<Byte>, relayers: nat, receipts: nat)
    requires |pre| == 352 + 32 * relayers + 64 * receipts
    ensures FilledUp(pre + EncodeBytes(payload), 352 + 32 * relayers + 64 * receipts + 32 + |payload|)
  {
    WholeWords(11 + relayers + 2 * receipts, |pre|);
    BytesFilledUp(pre, payload);
  }

  /** What the decoder finds in the tail, in numbers. */
  lemma ListsFound(b: seq<Byte>, m: Message)
    requires TailAt(m, b)
    ensures RelayersLaidOut(b, m) && ReceiptsLaidOut(b, m)
  {
    RelayersFound(b, m);
    ReceiptsFound(b, m, 320 + 32 * |m.allowedRelayerAddresses|);
  }

  lemma TailFound(b: seq<Byte>, m: Message)
    requires TailAt(m, b)
    requires FilledUp(b, 352 + 32 * |m.allowedRelayerAddresses| + 64 * |m.receipts| + 32 + |m.payload|)
    ensures RelayersLaidOut(b, m) && ReceiptsLaidOut(b, m) && PayloadLaidOut(b, m)
  {
    ListsFound(b, m);
    PayloadFound(b, m, 352 + 32 * |m.allowedRelayerAddresses| + 64 * |m.receipts|);
  }

  /** The encoding of a message: head, relayers, receipts, payload, in the places that the specification gives them. */
  lemma EncodeLayout(m: Message, b: seq<Byte>)
    requires AbiCodec.Typed(m) && b == Encode(m)
    ensures HeadLaidOut(b, m) && RelayersLaidOut(b, m) && ReceiptsLaidOut(b, m) && PayloadLaidOut(b, m)
  {
    PartsFound(m, b);
    HeadFound(b, m, Head(m));
    PayloadIsLast(m);
    EncodingFilledUp(m.payload, BeforePayload(m), |m.allowedRelayerAddresses|, |m.receipts|);
    TailFound(b, m);
  }

  /** What is hashed into a message ID: the messenger, the source, the destination and the nonce, one word each. */
  lemma PreimageLayout(messenger: nat, source: ChainID, destination: ChainID, nonce: nat)
    requires InAddress(messenger) && InWord(source) && InWord(destination) && InWord(nonce)
    ensures var b := Preimage(messenger, source, destination, nonce);
            && |b| == 128
            && WordIs(b, 0, messenger) && WordIs(b, 32, source) && WordIs(b, 64, destination) && WordIs(b, 96, nonce)
  {
    AddressInWord(messenger);
    var xs := [messenger, source, destination, nonce];
    WordsAfter([], xs, Words(xs));
    EachWord(Words(xs), 0, xs, 0);
    EachWord(Words(xs), 0, xs, 1);
    EachWord(Words(xs), 0, xs, 2);
    EachWord(Words(xs), 0, xs, 3);
  }
}
