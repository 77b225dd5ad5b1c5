/**
 What each call of the messenger answers: exactly when it succeeds, and what it then changes, in terms of the call, the
 storage before it and the events alone.
 */
module TeleporterAnswers {
  import opened Wrappers
  import opened Numeric
  import opened MapSum
  import opened ReceiptQueue
  import opened TeleporterSpec
  import opened TeleporterInvariants
  import opened TeleporterProofs
  import opened TeleporterCalls

  function BalanceOf(s: Chain, token: Address): nat {
    GetOr(s.balances, token, 0)
  }

  /** One token's balance grows, no other does. */
  ghost predicate Deposited(s: Chain, t: Chain, token: Address, amount: nat) {
    forall k :: BalanceOf(t, k) == BalanceOf(s, k) + if k == token then amount else 0
  }

  /** The messenger can send: not from within a send, on a chain with an ID, with a nonce left. */
  ghost predicate CanSend(self: ChainID, s: Chain) {
    !s.sendEntered && self != 0 && s.messageNonce < MAX_UINT256
  }

  /** A sender who offers a fee names a token and hands some of it over. */
  ghost predicate CanPay(fee: FeeInfo, received: nat) {
    fee.amount > 0 ==> fee.feeTokenAddress != 0 && received > 0
  }

  /** What is kept of the fee: nothing if none was offered, otherwise what arrived. */
  function FeeKept(fee: FeeInfo, received: nat): FeeInfo {
    FeeInfo(fee.feeTokenAddress, if fee.amount == 0 then 0 else received)
  }

  // ----- Sending -----

  /** One message was sent under the next ID, and nothing else happened but its fee coming in. */
  ghost predicate SentNext(self: ChainID, s: Chain, t: Chain, m: Message, fee: FeeInfo, queued: bool) {
    var id := MessageID(self, m.destinationBlockchainID, s.messageNonce + 1);
    && m.messageNonce == s.messageNonce + 1
    && t.log == s.log + [Sent(id, m, queued)]
    && t.sentMessageInfo == s.sentMessageInfo[id := SentMessageInfo(m, fee)]
    && t.messageNonce == s.messageNonce + 1 && t.blockchainID == self
    && Deposited(s, t, fee.feeTokenAddress, fee.amount)
    && t.donated == s.donated && t.relayerRewardAmounts == s.relayerRewardAmounts
    && SameReceiving(s, t)
  }

  /** The message that a send makes of what was asked for and the receipts taken along. */
  function MessageSent(s: Chain, caller: Address, input: MessageInput, receipts: seq<Receipt>): Message {
    Message(messageNonce := s.messageNonce + 1,
            originSenderAddress := caller,
            destinationBlockchainID := input.destinationBlockchainID,
            destinationAddress := input.destinationAddress,
            requiredGasLimit := input.requiredGasLimit,
            allowedRelayerAddresses := input.allowedRelayerAddresses,
            receipts := receipts,
            payload := input.payload)
  }

  lemma SendMessageAnswers(self: ChainID, s: Chain, caller: Address, input: MessageInput, receipts: seq<Receipt>,
                           received: Uint256, queued: bool)
    requires s.blockchainID == 0 || s.blockchainID == self
    ensures var r := SendMessage(self, s, caller, input, receipts, received, queued);
            && (r.Ok? <==> self != 0 && s.messageNonce < MAX_UINT256 && CanPay(input.feeInfo, received))
            && (r.Ok? && !s.sendEntered ==>
                  && SentNext(self, s, r.value.0, MessageSent(s, caller, input, receipts),
                              FeeKept(input.feeInfo, received), queued)
                  && r.value.0.receiptQueues == s.receiptQueues)
  {
  }

  /** What is taken out of a queue for the next message, and what stays in it. */
  lemma BatchTaken(self: ChainID, s: Chain, open: Option<MessageID>, to: ChainID)
    requires ChainOK(self, s, open)
    ensures var (batch, rest) := OutstandingReceipts(GetOr(s.receiptQueues, to, EMPTY));
            var queue := Held(s.receiptQueues, to);
            var n := Min(5, |queue|);
            batch == queue[..n] && Contents(rest) == queue[n..]
  {
    assert QueueAt(s.receiptQueues, s.log, to);
    BatchIsOldest(GetOr(s.receiptQueues, to, EMPTY));
  }

  /** A message sent after receipts were taken out of a queue. */
  lemma SentAfterTaking(self: ChainID, s: Chain, queues: map<ChainID, Queue>, t: Chain, m: Message, fee: FeeInfo,
                        queued: bool)
    requires SentNext(self, s.(receiptQueues := queues), t, m, fee, queued)
    ensures SentNext(self, s, t, m, fee, queued)
  {
    forall k ensures BalanceOf(t, k) == BalanceOf(s, k) + if k == fee.feeTokenAddress then fee.amount else 0 {
      assert BalanceOf(s.(receiptQueues := queues), k) == BalanceOf(s, k);
    }
  }

  /** What every queue holds after receipts were taken out of one. */
  ghost predicate TakenFrom(s: Chain, t: Chain, to: ChainID, n: nat)
    requires n <= |Held(s.receiptQueues, to)|
  {
    forall c :: Held(t.receiptQueues, c) == if c == to then Held(s.receiptQueues, to)[n..] else Held(s.receiptQueues, c)
  }

  lemma SendOutcome(self: ChainID, s: Chain, open: Option<MessageID>, caller: Address, input: MessageInput,
                    received: Uint256, n: nat, rest: Queue, r: Result<Chain, Error>)
    requires ChainOK(self, s, open) && n <= |Held(s.receiptQueues, input.destinationBlockchainID)|
    requires Contents(rest) == Held(s.receiptQueues, input.destinationBlockchainID)[n..]
    requires var to := input.destinationBlockchainID;
             var sent := SendMessage(self, s.(receiptQueues := s.receiptQueues[to := rest]), caller, input,
                                     Held(s.receiptQueues, to)[..n], received, true);
             if s.sendEntered then r.Revert?
             else match sent case Ok((t, _)) => r == Ok(t) case Revert(_) => r.Revert?
    ensures r.Ok? <==> CanSend(self, s) && CanPay(input.feeInfo, received)
    ensures var to := input.destinationBlockchainID;
            r.Ok? ==> && SentNext(self, s, r.value, MessageSent(s, caller, input, Held(s.receiptQueues, to)[..n]),
                                  FeeKept(input.feeInfo, received), true)
                      && TakenFrom(s, r.value, to, n)
  {
    var to := input.destinationBlockchainID;
    var queues := s.receiptQueues[to := rest];
    var receipts := Held(s.receiptQueues, to)[..n];
    SendMessageAnswers(self, s.(receiptQueues := queues), caller, input, receipts, received, true);
    if r.Ok? {
      SentAfterTaking(self, s, queues, r.value, MessageSent(s, caller, input, receipts), FeeKept(input.feeInfo, received),
                      true);
    }
  }

  /**
   A send succeeds exactly when the messenger can send and the fee is paid. The message is from the caller, to the
   target, with the limits and the payload that were asked for, and takes along the oldest five receipts, or all.
   */
  lemma SendAnswers(self: ChainID, s: Chain, open: Option<MessageID>, caller: Address, input: MessageInput,
                    received: Uint256)
    requires ChainOK(self, s, open)
    ensures var r := Do(self, s, caller, SendCrossChainMessage(input, received));
            var to := input.destinationBlockchainID;
            var queue := Held(s.receiptQueues, to);
            var n := Min(5, |queue|);
            && (r.Ok? <==> CanSend(self, s) && CanPay(input.feeInfo, received))
            && (r.Ok? ==>
                  && SentNext(self, s, r.value, MessageSent(s, caller, input, queue[..n]),
                              FeeKept(input.feeInfo, received), true)
                  && TakenFrom(s, r.value, to, n))
  {
    var to := input.destinationBlockchainID;
    BatchTaken(self, s, open, to);
    SendOutcome(self, s, open, caller, input, received, Min(5, |Held(s.receiptQueues, to)|),
                OutstandingReceipts(GetOr(s.receiptQueues, to, EMPTY)).1,
                Do(self, s, caller, SendCrossChainMessage(input, received)));
  }

  /** A message that was received from a chain. */
  ghost predicate ReceivedFrom(self: ChainID, s: Chain, source: ChainID, id: MessageID) {
    id in s.receivedMessageNonces && id.source == source && id.destination == self
  }

  /** The receipts named by a caller, and when there are such receipts. */
  lemma {:induction false} SpecifiedAnswers(self: ChainID, s: Chain, open: Option<MessageID>, source: ChainID,
                                            ids: seq<MessageID>, n: nat)
    requires ChainOK(self, s, open) && n <= |ids|
    ensures var r := SpecifiedReceipts(s, source, ids, n);
            && (r.Ok? <==> forall i :: 0 <= i < n ==> ReceivedFrom(self, s, source, ids[i]))
            && (r.Ok? ==> |r.value| == n
                          && forall i :: 0 <= i < n ==>
                               r.value[i] == Receipt(ids[i].nonce, GetOr(s.relayerRewardAddresses, ids[i], 0)))
  {
    if n > 0 {
      SpecifiedAnswers(self, s, open, source, ids, n - 1);
      assert ReceivedAt(self, s.receivedMessageNonces, s.receivedFailedMessageHashes, s.relayerRewardAddresses, s.log,
                        open, ids[n - 1]);
    }
  }

  /**
   Sending receipts by name succeeds exactly when the messenger can send, the fee is paid, and every message named was
   received from that chain. The message has no target and no payload, and names exactly these messages, in this order.
   */
  lemma SendReceiptsAnswers(self: ChainID, s: Chain, open: Option<MessageID>, caller: Address, source: ChainID,
                            ids: seq<MessageID>, fee: FeeInfo, allowed: seq<Address>, received: Uint256)
    requires ChainOK(self, s, open)
    ensures var r := Do(self, s, caller, SendSpecifiedReceipts(source, ids, fee, allowed, received));
            && (r.Ok? <==> && CanSend(self, s) && CanPay(fee, received)
                           && forall i :: 0 <= i < |ids| ==> ReceivedFrom(self, s, source, ids[i]))
            && (r.Ok? ==>
                  && r.value.receiptQueues == s.receiptQueues
                  && SentNext(self, s, r.value,
                              Message(messageNonce := s.messageNonce + 1,
                                      originSenderAddress := caller,
                                      destinationBlockchainID := source,
                                      destinationAddress := 0,
                                      requiredGasLimit := 0,
                                      allowedRelayerAddresses := allowed,
                                      receipts := seq(|ids|, i requires 0 <= i < |ids| =>
                                        Receipt(ids[i].nonce, GetOr(s.relayerRewardAddresses, ids[i], 0))),
                                      payload := []),
                              FeeKept(fee, received), false))
  {
    SpecifiedAnswers(self, s, open, source, ids, |ids|);
    var receipts := SpecifiedReceipts(s, source, ids, |ids|);
    if receipts.Ok? {
      assert receipts.value == seq(|ids|, i requires 0 <= i < |ids| =>
        Receipt(ids[i].nonce, GetOr(s.relayerRewardAddresses, ids[i], 0)));
      SendMessageAnswers(self, s, caller, MessageInput(source, 0, fee, 0, allowed, []), receipts.value, received, false);
    }
  }

  /** The message is outstanding: sent under this ID, and its fee not credited yet. */
  ghost predicate Outstanding(self: ChainID, s: Chain, message: Message) {
    var id := MessageID(self, message.destinationBlockchainID, message.messageNonce);
    id in s.sentMessageInfo && s.sentMessageInfo[id].message == message
  }

  lemma KnownIfSent(self: ChainID, s: Chain, open: Option<MessageID>, id: MessageID)
    requires ChainOK(self, s, open) && id in s.sentMessageInfo
    ensures id.source == self == s.blockchainID && 1 <= id.nonce <= s.messageNonce
  {
    assert SentAt(self, s.messageNonce, s.sentMessageInfo, s.log, id);
  }

  /** A message is sent again exactly if it is outstanding, and word for word; nothing else changes. */
  lemma RetrySendAnswers(self: ChainID, s: Chain, open: Option<MessageID>, caller: Address, message: Message)
    requires ChainOK(self, s, open)
    ensures var r := Do(self, s, caller, RetrySendCrossChainMessage(message));
            var id := MessageID(self, message.destinationBlockchainID, message.messageNonce);
            && (r.Ok? <==> !s.sendEntered && Outstanding(self, s, message))
            && (r.Ok? ==> r.value == s.(log := s.log + [Resent(id, message)]))
  {
    var id := MessageID(self, message.destinationBlockchainID, message.messageNonce);
    var own := MessageID(s.blockchainID, message.destinationBlockchainID, message.messageNonce);
    if id in s.sentMessageInfo {
      KnownIfSent(self, s, open, id);
    }
    if own in s.sentMessageInfo {
      KnownIfSent(self, s, open, own);
    }
  }

  /** A fee can be added exactly to an outstanding message, in its own token, from outside of any send or receipt. */
  lemma AddFeeAnswers(self: ChainID, s: Chain, open: Option<MessageID>, caller: Address, id: MessageID, token: Address,
                      additional: nat, received: Uint256)
    requires ChainOK(self, s, open)
    ensures var r := Do(self, s, caller, AddFeeAmount(id, token, additional, received));
            && (r.Ok? <==>
                  && AtRest(s) && additional > 0 && token != 0 && received > 0
                  && id in s.sentMessageInfo && s.sentMessageInfo[id].feeInfo.feeTokenAddress == token
                  && s.sentMessageInfo[id].feeInfo.amount + received <= MAX_UINT256)
            && (r.Ok? ==>
                  && var info := s.sentMessageInfo[id];
                  && r.value.sentMessageInfo == s.sentMessageInfo[
                       id := SentMessageInfo(info.message, FeeInfo(token, info.feeInfo.amount + received))]
                  && Deposited(s, r.value, token, received)
                  && r.value == s.(sentMessageInfo := r.value.sentMessageInfo, balances := r.value.balances,
                                   log := s.log + [FeeAdded(id, received)]))
  {
  }

  /** Exactly a caller with a reward can redeem it; the caller is paid all of it, in that token. */
  lemma RedeemAnswers(self: ChainID, s: Chain, open: Option<MessageID>, caller: Address, token: Address)
    requires ChainOK(self, s, open)
    ensures var r := Do(self, s, caller, RedeemRelayerRewards(token));
            var reward := GetOr(s.relayerRewardAmounts, (caller, token), 0);
            && (r.Ok? <==> reward > 0)
            && (r.Ok? ==>
                  && Deposited(r.value, s, token, reward)
                  && r.value == s.(relayerRewardAmounts := s.relayerRewardAmounts - {(caller, token)},
                                   balances := r.value.balances,
                                   log := s.log + [Redeemed(caller, token, reward)]))
  {
    RewardCovered(s, (caller, token));
  }

  lemma InitializeAnswers(self: ChainID, s: Chain, open: Option<MessageID>, caller: Address)
    requires ChainOK(self, s, open)
    ensures Do(self, s, caller, InitializeBlockchainID).Ok? <==> self != 0
    ensures self != 0 ==> Do(self, s, caller, InitializeBlockchainID).value == s.(blockchainID := self)
  {
  }

  // ----- Receipts -----

  /** Balances are numbers of 256 bits, as tokens report them. */
  ghost predicate BalancesFit(s: Chain) {
    forall token :: BalanceOf(s, token) <= MAX_UINT256
  }

  /** A reward and the fee of an outstanding message in the same token are both part of the balance. */
  lemma CreditFits(self: ChainID, s: Chain, open: Option<MessageID>, id: MessageID, relayer: Address)
    requires ChainOK(self, s, open) && BalancesFit(s) && id in s.sentMessageInfo
    ensures var fee := s.sentMessageInfo[id].feeInfo;
            GetOr(s.relayerRewardAmounts, (relayer, fee.feeTokenAddress), 0) + fee.amount <= MAX_UINT256
  {
    var token := s.sentMessageInfo[id].feeInfo.feeTokenAddress;
    assert LedgerAt(s.balances, s.donated, s.sentMessageInfo, s.relayerRewardAmounts, token);
    assert BalanceOf(s, token) <= MAX_UINT256;
    Member(s.sentMessageInfo, id, FeeIn(token));
    if (relayer, token) in s.relayerRewardAmounts {
      Member(s.relayerRewardAmounts, (relayer, token), RewardIn(token));
    }
  }

  /** The message that receipt number `i` of a message from chain `c` is for. */
  function Named(self: ChainID, c: ChainID, receipts: seq<Receipt>, i: nat): MessageID
    requires i < |receipts|
  {
    MessageID(self, c, receipts[i].receivedMessageNonce)
  }

  /** Receipt number `i` is the first of its message, and the message is outstanding. */
  ghost predicate Counts(self: ChainID, s: Chain, c: ChainID, receipts: seq<Receipt>, i: nat)
    requires i < |receipts|
  {
    && Named(self, c, receipts, i) in s.sentMessageInfo
    && forall j: nat :: j < i ==> Named(self, c, receipts, j) != Named(self, c, receipts, i)
  }

  /** The event of its credit: the fee as it stands, to the relayer that the receipt names. */
  function CreditFor(self: ChainID, s: Chain, c: ChainID, receipts: seq<Receipt>, i: nat): Event
    requires i < |receipts| && Named(self, c, receipts, i) in s.sentMessageInfo
  {
    ReceiptReceived(Named(self, c, receipts, i), receipts[i].relayerRewardAddress,
                    s.sentMessageInfo[Named(self, c, receipts, i)].feeInfo)
  }

  /** One of the first `n` receipts is for this message. */
  ghost predicate NamedBefore(self: ChainID, c: ChainID, receipts: seq<Receipt>, n: nat, id: MessageID)
    requires n <= |receipts|
  {
    exists i: nat :: i < n && Named(self, c, receipts, i) == id
  }

  /** The events `credits` are exactly the credits of the first `n` receipts that count. */
  ghost predicate AllCredits(self: ChainID, s: Chain, c: ChainID, receipts: seq<Receipt>, n: nat, credits: seq<Event>)
    requires n <= |receipts|
  {
    && (forall i: nat :: i < n && Counts(self, s, c, receipts, i) ==> CreditFor(self, s, c, receipts, i) in credits)
    && (forall e :: e in credits ==>
          exists i: nat :: i < n && Counts(self, s, c, receipts, i) && e == CreditFor(self, s, c, receipts, i))
  }

  /** What is outstanding after the first `n` receipts: what was, and none of them names. */
  ghost predicate StillOutstanding(self: ChainID, s: Chain, c: ChainID, receipts: seq<Receipt>, n: nat, t: Chain)
    requires n <= |receipts|
  {
    forall id ::
      && (id in t.sentMessageInfo <==> id in s.sentMessageInfo && !NamedBefore(self, c, receipts, n, id))
      && (id in t.sentMessageInfo ==> t.sentMessageInfo[id] == s.sentMessageInfo[id])
  }

  lemma OneMoreCredit(self: ChainID, s: Chain, c: ChainID, receipts: seq<Receipt>, n: nat, credits: seq<Event>, t: Chain,
                      more: seq<Event>, t': Chain)
    requires n < |receipts| && AllCredits(self, s, c, receipts, n, credits)
    requires StillOutstanding(self, s, c, receipts, n, t)
    requires var id := Named(self, c, receipts, n);
             if id in t.sentMessageInfo then
               && more == [ReceiptReceived(id, receipts[n].relayerRewardAddress, t.sentMessageInfo[id].feeInfo)]
               && t'.sentMessageInfo == t.sentMessageInfo - {id}
             else more == [] && t'.sentMessageInfo == t.sentMessageInfo
    ensures AllCredits(self, s, c, receipts, n + 1, credits + more)
    ensures StillOutstanding(self, s, c, receipts, n + 1, t')
  {
    var id := Named(self, c, receipts, n);
    assert Counts(self, s, c, receipts, n) <==> id in t.sentMessageInfo;
    var next := n + 1;
    forall i: nat | i < next && Counts(self, s, c, receipts, i)
      ensures CreditFor(self, s, c, receipts, i) in credits + more
    {
      if i == n {
        assert CreditFor(self, s, c, receipts, n) == more[0];
      }
    }
    forall e | e in credits + more
      ensures exists i: nat :: i < next && Counts(self, s, c, receipts, i) && e == CreditFor(self, s, c, receipts, i)
    {
      if e !in credits {
        assert Counts(self, s, c, receipts, n) && e == CreditFor(self, s, c, receipts, n);
      }
    }
    forall k
      ensures k in t'.sentMessageInfo <==> k in s.sentMessageInfo && !NamedBefore(self, c, receipts, next, k)
      ensures k in t'.sentMessageInfo ==> t'.sentMessageInfo[k] == s.sentMessageInfo[k]
    {
      if NamedBefore(self, c, receipts, next, k) {
        var i: nat :| i < next && Named(self, c, receipts, i) == k;
        assert i < n ==> NamedBefore(self, c, receipts, n, k);
      }
      if k == id {
        assert NamedBefore(self, c, receipts, next, k) by { assert Named(self, c, receipts, n) == k; }
      } else if NamedBefore(self, c, receipts, n, k) {
        var i: nat :| i < n && Named(self, c, receipts, i) == k;
        assert NamedBefore(self, c, receipts, next, k);
      }
    }
  }

  lemma SameBalancesFit(s: Chain, t: Chain)
    requires BalancesFit(s) && t.balances == s.balances
    ensures BalancesFit(t)
  {
    forall token ensures BalanceOf(t, token) <= MAX_UINT256 {
      assert BalanceOf(s, token) <= MAX_UINT256;
    }
  }

  /** What marking changes. */
  ghost predicate MarkedFrom(s: Chain, t: Chain, credits: seq<Event>) {
    && t.log == s.log + credits
    && t == s.(sentMessageInfo := t.sentMessageInfo, relayerRewardAmounts := t.relayerRewardAmounts, log := t.log)
  }

  lemma MarkedTransitive(s: Chain, t: Chain, u: Chain, credits: seq<Event>, more: seq<Event>)
    requires MarkedFrom(s, t, credits) && MarkedFrom(t, u, more)
    ensures MarkedFrom(s, u, credits + more)
  {
  }

  lemma MarkStep(s: Chain, c: ChainID, receipts: seq<Receipt>, n: nat)
    requires 0 < n <= |receipts| && MarkReceipts(s, c, receipts, n - 1).Ok?
    ensures MarkReceipts(s, c, receipts, n)
            == MarkReceipt(MarkReceipts(s, c, receipts, n - 1).value, c, receipts[n - 1])
  {
  }

  /** One more receipt, after the first `n - 1` have been marked. */
  lemma MarkNext(self: ChainID, s: Chain, open: Option<MessageID>, c: ChainID, receipts: seq<Receipt>, n: nat, t: Chain,
                 credits: seq<Event>)
    returns (u: Chain, more: seq<Event>)
    requires ChainOK(self, t, open) && t.blockchainID == self && BalancesFit(t) && 0 < n <= |receipts|
    requires AllCredits(self, s, c, receipts, n - 1, credits) && StillOutstanding(self, s, c, receipts, n - 1, t)
    ensures MarkReceipt(t, c, receipts[n - 1]) == Ok(u)
    ensures ChainOK(self, u, open) && MarkedFrom(t, u, more)
    ensures AllCredits(self, s, c, receipts, n, credits + more) && StillOutstanding(self, s, c, receipts, n, u)
  {
    u, more := MarkOne(self, t, open, c, receipts[n - 1]);
    OneMoreCredit(self, s, c, receipts, n - 1, credits, t, more, u);
  }

  /** Marking receipts never fails, credits exactly those that count, and clears what they name. */
  lemma {:induction false} MarkAnswers(self: ChainID, s: Chain, open: Option<MessageID>, c: ChainID,
                                       receipts: seq<Receipt>, n: nat)
    returns (t: Chain, credits: seq<Event>)
    requires ChainOK(self, s, open) && s.blockchainID == self && BalancesFit(s) && n <= |receipts|
    ensures MarkReceipts(s, c, receipts, n) == Ok(t)
    ensures ChainOK(self, t, open) && MarkedFrom(s, t, credits)
    ensures AllCredits(self, s, c, receipts, n, credits) && StillOutstanding(self, s, c, receipts, n, t)
  {
    t, credits := s, [];
    if n > 0 {
      t, credits := MarkAnswers(self, s, open, c, receipts, n - 1);
      SameBalancesFit(s, t);
      MarkStep(s, c, receipts, n);
      var u, more := MarkNext(self, s, open, c, receipts, n, t, credits);
      MarkedTransitive(s, t, u, credits, more);
      t, credits := u, credits + more;
    }
  }

  lemma MarkOne(self: ChainID, s: Chain, open: Option<MessageID>, c: ChainID, receipt: Receipt)
    returns (t: Chain, more: seq<Event>)
    requires ChainOK(self, s, open) && s.blockchainID == self && BalancesFit(s)
    ensures MarkReceipt(s, c, receipt) == Ok(t)
    ensures ChainOK(self, t, open) && MarkedFrom(s, t, more)
    ensures var id := MessageID(self, c, receipt.receivedMessageNonce);
            if id in s.sentMessageInfo then
              && more == [ReceiptReceived(id, receipt.relayerRewardAddress, s.sentMessageInfo[id].feeInfo)]
              && t.sentMessageInfo == s.sentMessageInfo - {id}
            else more == [] && t.sentMessageInfo == s.sentMessageInfo
  {
    var id := MessageID(self, c, receipt.receivedMessageNonce);
    more := [];
    if id in s.sentMessageInfo {
      CreditFits(self, s, open, id, receipt.relayerRewardAddress);
      more := [ReceiptReceived(id, receipt.relayerRewardAddress, s.sentMessageInfo[id].feeInfo)];
    }
    t := MarkReceipt(s, c, receipt).value;
    MarkReceiptKeeps(self, s, open, c, receipt);
  }
}
