/** Every call of the messenger keeps its invariant, also when it is made by a message that is being executed. */
module TeleporterCalls {
  import opened Wrappers
  import opened Numeric
  import opened ReceiptQueue
  import opened TeleporterSpec
  import opened TeleporterInvariants
  import opened TeleporterProofs

  lemma OwnIDIsSelf(self: ChainID, s: Chain)
    requires s.blockchainID == 0 || s.blockchainID == self
    ensures OwnID(self, s).Ok? ==> OwnID(self, s).value == self != 0
  {
  }

  lemma InitializeKeeps(self: ChainID, s: Chain, open: Option<MessageID>)
    requires ChainOK(self, s, open)
    ensures var t := s.(blockchainID := self);
            ChainOK(self, t, open) && Later(s, t) && SameReceiving(s, t)
  {
  }

  // ----- Sending -----

  /** The message of a successful send and the state after it. */
  lemma SendEffect(self: ChainID, s: Chain, caller: Address, input: MessageInput, receipts: seq<Receipt>,
                   received: Uint256, queued: bool)
    requires s.blockchainID == 0 || s.blockchainID == self
    requires SendMessage(self, s, caller, input, receipts, received, queued).Ok?
    ensures var (t, id) := SendMessage(self, s, caller, input, receipts, received, queued).value;
            && id == MessageID(self, input.destinationBlockchainID, s.messageNonce + 1)
            && id in t.sentMessageInfo
            && var info := t.sentMessageInfo[id];
            && info.message.messageNonce == id.nonce && info.message.destinationBlockchainID == id.destination
            && info.message.receipts == receipts
            && t == s.(blockchainID := self,
                       messageNonce := id.nonce,
                       balances := Credited(s.balances, info.feeInfo.feeTokenAddress, info.feeInfo.amount),
                       sentMessageInfo := s.sentMessageInfo[id := info],
                       log := s.log + [Sent(id, info.message, queued)])
  {
  }

  /** The queues that a send leaves, and the receipts it takes. */
  ghost predicate Takes(s: Chain, c: ChainID, receipts: seq<Receipt>, queued: bool, queues: map<ChainID, Queue>) {
    if queued then
      var (batch, rest) := OutstandingReceipts(GetOr(s.receiptQueues, c, EMPTY));
      receipts == batch && queues == s.receiptQueues[c := rest]
    else queues == s.receiptQueues
  }

  ghost predicate AllGenuine(self: ChainID, s: Chain, c: ChainID, receipts: seq<Receipt>) {
    forall r :: r in receipts ==> Genuine(self, s.receivedMessageNonces, s.relayerRewardAddresses, c, r)
  }

  /** A message with genuine receipts is sent. */
  lemma SendCore(self: ChainID, s: Chain, open: Option<MessageID>, id: MessageID, info: SentMessageInfo, queued: bool,
                 t: Chain)
    requires ChainOK(self, s, open)
    requires id == MessageID(self, info.message.destinationBlockchainID, s.messageNonce + 1)
    requires info.message.messageNonce == id.nonce
    requires Takes(s, id.destination, info.message.receipts, queued, t.receiptQueues)
    requires AllGenuine(self, s, id.destination, info.message.receipts)
    requires t == s.(blockchainID := self,
                     messageNonce := id.nonce,
                     receiptQueues := t.receiptQueues,
                     balances := Credited(s.balances, info.feeInfo.feeTokenAddress, info.feeInfo.amount),
                     sentMessageInfo := s.sentMessageInfo[id := info],
                     log := s.log + [Sent(id, info.message, queued)])
    ensures ChainOK(self, t, open) && Later(s, t) && SameReceiving(s, t)
  {
    var e := Sent(id, info.message, queued);
    if queued {
      QueuesDispatch(s.receiptQueues, s.log, id, info.message, t.receiptQueues[id.destination]);
    } else {
      QueuesKept(s.receiptQueues, s.log, e);
    }
    SentAdd(self, s.messageNonce, s.sentMessageInfo, s.log, id, info, queued);
    assert SentLogged(info.message, id, t.log) by { assert e in t.log; }
    EmittedKept(self, s.sentMessageInfo, s.log, e, t.sentMessageInfo);
    ReceivedKept(self, s.receivedMessageNonces, s.receivedFailedMessageHashes, s.relayerRewardAddresses, s.log, open, e);
    NeverSent(self, s.messageNonce, s.sentMessageInfo, s.log, id);
    LedgerSend(s, id, info);
    RewardsKept(s.relayerRewardAmounts, s.log, e);
  }

  /** The batch taken from a queue is genuine. */
  lemma BatchGenuine(self: ChainID, s: Chain, c: ChainID)
    requires ReceiptsOK(self, s.receivedMessageNonces, s.relayerRewardAddresses, s.receiptQueues, s.log)
    requires QueuesOK(s.receiptQueues, s.log)
    ensures AllGenuine(self, s, c, OutstandingReceipts(GetOr(s.receiptQueues, c, EMPTY)).0)
  {
    assert QueueAt(s.receiptQueues, s.log, c);
    BatchIsOldest(GetOr(s.receiptQueues, c, EMPTY));
    var (batch, rest) := OutstandingReceipts(GetOr(s.receiptQueues, c, EMPTY));
    assert Held(s.receiptQueues, c) == batch + Contents(rest);
  }

  /** A message is sent, with its receipts already taken from the queue. */
  lemma SendMessageKeeps(self: ChainID, s: Chain, open: Option<MessageID>, caller: Address, input: MessageInput,
                         receipts: seq<Receipt>, received: Uint256, queued: bool, s2: Chain)
    requires ChainOK(self, s, open)
    requires AllGenuine(self, s, input.destinationBlockchainID, receipts)
    requires s2 == s.(receiptQueues := s2.receiptQueues)
    requires Takes(s, input.destinationBlockchainID, receipts, queued, s2.receiptQueues)
    requires SendMessage(self, s2, caller, input, receipts, received, queued).Ok?
    ensures var t := SendMessage(self, s2, caller, input, receipts, received, queued).value.0;
            ChainOK(self, t, open) && Later(s, t) && SameReceiving(s, t)
  {
    SendEffect(self, s2, caller, input, receipts, received, queued);
    var (t, id) := SendMessage(self, s2, caller, input, receipts, received, queued).value;
    SendCore(self, s, open, id, t.sentMessageInfo[id], queued, t);
  }

  lemma SendKeeps(self: ChainID, s: Chain, open: Option<MessageID>, caller: Address, input: MessageInput,
                  received: Uint256)
    requires ChainOK(self, s, open) && Send(self, s, caller, input, received).Ok?
    ensures var t := Send(self, s, caller, input, received).value.0;
            ChainOK(self, t, open) && Later(s, t) && SameReceiving(s, t)
  {
    var to := input.destinationBlockchainID;
    var (batch, rest) := OutstandingReceipts(GetOr(s.receiptQueues, to, EMPTY));
    BatchGenuine(self, s, to);
    SendMessageKeeps(self, s, open, caller, input, batch, received, true,
                     s.(receiptQueues := s.receiptQueues[to := rest]));
  }

  lemma {:induction false} SpecifiedGenuine(self: ChainID, s: Chain, open: Option<MessageID>, source: ChainID,
                                            ids: seq<MessageID>, n: nat)
    requires ChainOK(self, s, open) && n <= |ids| && SpecifiedReceipts(s, source, ids, n).Ok?
    ensures AllGenuine(self, s, source, SpecifiedReceipts(s, source, ids, n).value)
  {
    if n > 0 {
      SpecifiedGenuine(self, s, open, source, ids, n - 1);
      assert ReceivedAt(self, s.receivedMessageNonces, s.receivedFailedMessageHashes, s.relayerRewardAddresses, s.log,
                        open, ids[n - 1]);
    }
  }

  lemma SendReceiptsKeeps(self: ChainID, s: Chain, open: Option<MessageID>, caller: Address, source: ChainID,
                          ids: seq<MessageID>, feeInfo: FeeInfo, allowed: seq<Address>, received: Uint256)
    requires ChainOK(self, s, open) && SendReceipts(self, s, caller, source, ids, feeInfo, allowed, received).Ok?
    ensures var t := SendReceipts(self, s, caller, source, ids, feeInfo, allowed, received).value.0;
            ChainOK(self, t, open) && Later(s, t) && SameReceiving(s, t)
  {
    SpecifiedGenuine(self, s, open, source, ids, |ids|);
    var receipts := SpecifiedReceipts(s, source, ids, |ids|).value;
    var input := MessageInput(source, 0, feeInfo, 0, allowed, []);
    SendMessageKeeps(self, s, open, caller, input, receipts, received, false, s);
  }

  lemma RetrySendKeeps(self: ChainID, s: Chain, open: Option<MessageID>, message: Message)
    requires ChainOK(self, s, open) && RetrySend(s, message).Ok?
    ensures var t := RetrySend(s, message).value;
            ChainOK(self, t, open) && Later(s, t) && SameReceiving(s, t)
  {
    var t := RetrySend(s, message).value;
    var e := t.log[|s.log|];
    SentKept(self, s.messageNonce, s.sentMessageInfo, s.log, e);
    EmittedKept(self, s.sentMessageInfo, s.log, e, s.sentMessageInfo);
    ReceivedKept(self, s.receivedMessageNonces, s.receivedFailedMessageHashes, s.relayerRewardAddresses, s.log, open, e);
    RewardsKept(s.relayerRewardAmounts, s.log, e);
    QueuesKept(s.receiptQueues, s.log, e);
    ReceiptsKept(self, s, t, e);
  }

  /** The effect of adding a fee. */
  lemma AddFeeEffect(s: Chain, id: MessageID, token: Address, additional: nat, received: Uint256)
    requires AddFee(s, id, token, additional, received).Ok?
    ensures id in s.sentMessageInfo
    ensures var info := s.sentMessageInfo[id];
            && info.feeInfo.feeTokenAddress == token
            && AddFee(s, id, token, additional, received).value
               == s.(balances := Credited(s.balances, token, received),
                     sentMessageInfo := s.sentMessageInfo[
                       id := info.(feeInfo := FeeInfo(token, info.feeInfo.amount + received))],
                     log := s.log + [FeeAdded(id, received)])
  {
  }

  lemma AddFeeCore(self: ChainID, s: Chain, open: Option<MessageID>, id: MessageID, received: nat, t: Chain)
    requires ChainOK(self, s, open) && id in s.sentMessageInfo
    requires var info := s.sentMessageInfo[id];
             var token := info.feeInfo.feeTokenAddress;
             t == s.(balances := Credited(s.balances, token, received),
                     sentMessageInfo := s.sentMessageInfo[
                       id := info.(feeInfo := FeeInfo(token, info.feeInfo.amount + received))],
                     log := s.log + [FeeAdded(id, received)])
    ensures ChainOK(self, t, open) && Later(s, t) && SameReceiving(s, t)
  {
    var e := FeeAdded(id, received);
    SentUpdate(self, s.messageNonce, s.sentMessageInfo, s.log, id, t.sentMessageInfo[id].feeInfo, received);
    EmittedKept(self, s.sentMessageInfo, s.log, e, t.sentMessageInfo);
    ReceivedKept(self, s.receivedMessageNonces, s.receivedFailedMessageHashes, s.relayerRewardAddresses, s.log, open, e);
    LedgerAddFee(s, id, received);
    RewardsKept(s.relayerRewardAmounts, s.log, e);
    QueuesKept(s.receiptQueues, s.log, e);
    ReceiptsKept(self, s, t, e);
  }

  lemma AddFeeKeeps(self: ChainID, s: Chain, open: Option<MessageID>, id: MessageID, token: Address, additional: nat,
                    received: Uint256)
    requires ChainOK(self, s, open) && AddFee(s, id, token, additional, received).Ok?
    ensures var t := AddFee(s, id, token, additional, received).value;
            ChainOK(self, t, open) && Later(s, t) && SameReceiving(s, t)
  {
    AddFeeEffect(s, id, token, additional, received);
    AddFeeCore(self, s, open, id, received, AddFee(s, id, token, additional, received).value);
  }

  lemma RedeemKeeps(self: ChainID, s: Chain, open: Option<MessageID>, caller: Address, token: Address)
    requires ChainOK(self, s, open) && Redeem(s, caller, token).Ok?
    ensures var t := Redeem(s, caller, token).value;
            ChainOK(self, t, open) && Later(s, t) && SameReceiving(s, t)
  {
    var t := Redeem(s, caller, token).value;
    var e := t.log[|s.log|];
    SentKept(self, s.messageNonce, s.sentMessageInfo, s.log, e);
    EmittedKept(self, s.sentMessageInfo, s.log, e, s.sentMessageInfo);
    ReceivedKept(self, s.receivedMessageNonces, s.receivedFailedMessageHashes, s.relayerRewardAddresses, s.log, open, e);
    LedgerRedeem(s, (caller, token));
    RewardsRedeem(s.relayerRewardAmounts, s.log, caller, token);
    QueuesKept(s.receiptQueues, s.log, e);
    ReceiptsKept(self, s, t, e);
  }

  lemma DonateKeeps(self: ChainID, s: Chain, open: Option<MessageID>, token: Address, amount: nat)
    requires ChainOK(self, s, open)
    ensures var t := Do(self, s, 0, Donate(token, amount)).value;
            ChainOK(self, t, open) && Later(s, t) && SameReceiving(s, t)
  {
    LedgerDonate(s, token, amount);
  }

  // ----- Receipts -----

  /** What marking receipts can change, and that it adds only events of credited receipts. */
  ghost predicate OnlyCredits(s: Chain, t: Chain) {
    && t == s.(sentMessageInfo := t.sentMessageInfo, relayerRewardAmounts := t.relayerRewardAmounts, log := t.log)
    && s.log <= t.log
    && forall e :: e in t.log ==> e in s.log || e.ReceiptReceived?
  }

  lemma MarkReceiptKeeps(self: ChainID, s: Chain, open: Option<MessageID>, c: ChainID, r: Receipt)
    requires ChainOK(self, s, open) && MarkReceipt(s, c, r).Ok?
    ensures var t := MarkReceipt(s, c, r).value;
            ChainOK(self, t, open) && OnlyCredits(s, t)
  {
    var id := MessageID(s.blockchainID, c, r.receivedMessageNonce);
    if id in s.sentMessageInfo {
      var t := MarkReceipt(s, c, r).value;
      var fee := s.sentMessageInfo[id].feeInfo;
      var key := (r.relayerRewardAddress, fee.feeTokenAddress);
      var e := ReceiptReceived(id, r.relayerRewardAddress, fee);
      SentCredited(self, s.messageNonce, s.sentMessageInfo, s.log, id, r.relayerRewardAddress, fee);
      EmittedKept(self, s.sentMessageInfo, s.log, e, t.sentMessageInfo);
      ReceivedKept(self, s.receivedMessageNonces, s.receivedFailedMessageHashes, s.relayerRewardAddresses, s.log, open,
                   e);
      LedgerCredit(s, id, key, t.relayerRewardAmounts[key]);
      RewardsCredit(s.relayerRewardAmounts, s.log, id, r.relayerRewardAddress, fee, t.relayerRewardAmounts[key]);
      QueuesKept(s.receiptQueues, s.log, e);
      ReceiptsKept(self, s, t, e);
    }
  }

  lemma {:induction false} MarkReceiptsKeeps(self: ChainID, s: Chain, open: Option<MessageID>, c: ChainID,
                                             receipts: seq<Receipt>, n: nat)
    requires ChainOK(self, s, open) && n <= |receipts| && MarkReceipts(s, c, receipts, n).Ok?
    ensures var t := MarkReceipts(s, c, receipts, n).value;
            ChainOK(self, t, open) && OnlyCredits(s, t)
  {
    if n > 0 {
      MarkReceiptsKeeps(self, s, open, c, receipts, n - 1);
      MarkReceiptKeeps(self, MarkReceipts(s, c, receipts, n - 1).value, open, c, receipts[n - 1]);
    }
  }

  /** Marking receipts looks only at the outstanding messages, the rewards and the events. */
  ghost predicate Aligned(s: Chain, t: Chain) {
    && s.blockchainID == t.blockchainID && s.sentMessageInfo == t.sentMessageInfo
    && s.relayerRewardAmounts == t.relayerRewardAmounts && s.log == t.log
  }

  lemma MarkReceiptOnlyCredits(s: Chain, c: ChainID, r: Receipt)
    requires MarkReceipt(s, c, r).Ok?
    ensures OnlyCredits(s, MarkReceipt(s, c, r).value)
  {
  }

  /** The effect of a receipt for an outstanding message. */
  lemma MarkReceiptEffect(s: Chain, c: ChainID, r: Receipt, id: MessageID, amount: nat)
    requires id == MessageID(s.blockchainID, c, r.receivedMessageNonce) && id in s.sentMessageInfo
    requires var fee := s.sentMessageInfo[id].feeInfo;
             amount == GetOr(s.relayerRewardAmounts, (r.relayerRewardAddress, fee.feeTokenAddress), 0) + fee.amount
    ensures MarkReceipt(s, c, r).Ok? <==> amount <= MAX_UINT256
    ensures amount <= MAX_UINT256 ==>
              var fee, t := s.sentMessageInfo[id].feeInfo, MarkReceipt(s, c, r).value;
              && t.blockchainID == s.blockchainID && t.sentMessageInfo == s.sentMessageInfo - {id}
              && t.relayerRewardAmounts
                 == s.relayerRewardAmounts[(r.relayerRewardAddress, fee.feeTokenAddress) := amount]
              && t.log == s.log + [ReceiptReceived(id, r.relayerRewardAddress, fee)]
  {
  }

  lemma MarkReceiptAligned(s: Chain, t: Chain, c: ChainID, r: Receipt)
    requires Aligned(s, t) && MarkReceipt(t, c, r).Ok?
    ensures MarkReceipt(s, c, r).Ok? && Aligned(MarkReceipt(s, c, r).value, MarkReceipt(t, c, r).value)
    ensures OnlyCredits(t, MarkReceipt(t, c, r).value)
  {
    MarkReceiptOnlyCredits(t, c, r);
    var id := MessageID(s.blockchainID, c, r.receivedMessageNonce);
    if id in s.sentMessageInfo {
      var fee := s.sentMessageInfo[id].feeInfo;
      var amount := GetOr(s.relayerRewardAmounts, (r.relayerRewardAddress, fee.feeTokenAddress), 0) + fee.amount;
      MarkReceiptEffect(s, c, r, id, amount);
      MarkReceiptEffect(t, c, r, id, amount);
    }
  }

  lemma {:induction false} MarkReceiptsAligned(s: Chain, t: Chain, c: ChainID, receipts: seq<Receipt>, n: nat)
    requires Aligned(s, t) && n <= |receipts| && MarkReceipts(t, c, receipts, n).Ok?
    ensures MarkReceipts(s, c, receipts, n).Ok?
    ensures Aligned(MarkReceipts(s, c, receipts, n).value, MarkReceipts(t, c, receipts, n).value)
    ensures OnlyCredits(t, MarkReceipts(t, c, receipts, n).value)
  {
    if n > 0 {
      MarkReceiptsAligned(s, t, c, receipts, n - 1);
      MarkReceiptAligned(MarkReceipts(s, c, receipts, n - 1).value, MarkReceipts(t, c, receipts, n - 1).value, c,
                         receipts[n - 1]);
    }
  }

  // ----- Receiving -----

  /** The state in which the receipts of a message have been marked. */
  function Marked(self: ChainID, s: Chain, warp: WarpMessage): Result<Chain, Error> {
    MarkReceipts(s.(blockchainID := self), warp.sourceChainID, warp.message.receipts, |warp.message.receipts|)
  }

  /** What is known of a message that is accepted. */
  ghost predicate Acceptable(self: ChainID, s: Chain, caller: Address, warp: WarpMessage, id: MessageID) {
    && self != 0 && warp.message.destinationBlockchainID == self && warp.message.messageNonce != 0
    && id == MessageID(warp.sourceChainID, self, warp.message.messageNonce)
    && GetOr(s.receivedMessageNonces, id, 0) == 0
    && AllowedRelayer(caller, warp.message.allowedRelayerAddresses)
  }

  /** The effect of accepting a message: its receipts are marked, it is recorded, and a receipt for it is queued. */
  lemma AcceptEffect(self: ChainID, s: Chain, caller: Address, warp: WarpMessage, relayer: Address)
    requires s.blockchainID == 0 || s.blockchainID == self
    requires Accept(self, s, caller, warp, relayer).Ok?
    ensures Marked(self, s, warp).Ok?
    ensures var (t, id) := Accept(self, s, caller, warp, relayer).value;
            var u := Marked(self, s, warp).value;
            && Acceptable(self, s, caller, warp, id)
            && t == s.(
                 blockchainID := self,
                 receiveEntered := true,
                 receivedMessageNonces := s.receivedMessageNonces[id := id.nonce],
                 relayerRewardAddresses :=
                   if relayer != 0 then s.relayerRewardAddresses[id := relayer] else s.relayerRewardAddresses,
                 sentMessageInfo := u.sentMessageInfo,
                 relayerRewardAmounts := u.relayerRewardAmounts,
                 receiptQueues := s.receiptQueues[
                   id.source := Enqueue(GetOr(s.receiptQueues, id.source, EMPTY), Receipt(id.nonce, relayer))],
                 log := u.log + [Received(id, warp.message, relayer)])
  {
    var m := warp.message;
    var id := MessageID(warp.sourceChainID, self, m.messageNonce);
    var s2 := s.(blockchainID := self, receiveEntered := true,
                 receivedMessageNonces := s.receivedMessageNonces[id := m.messageNonce],
                 relayerRewardAddresses :=
                   if relayer != 0 then s.relayerRewardAddresses[id := relayer] else s.relayerRewardAddresses);
    MarkReceiptsAligned(s.(blockchainID := self), s2, warp.sourceChainID, m.receipts, |m.receipts|);
  }

  /** The sending side after a message was accepted. */
  lemma ReceiptsAfterReceipt(self: ChainID, u: Chain, t: Chain, id: MessageID, relayer: Address)
    requires ReceiptsOK(self, u.receivedMessageNonces, u.relayerRewardAddresses, u.receiptQueues, u.log)
    requires Later(u, t) && id in t.receivedMessageNonces && GetOr(t.relayerRewardAddresses, id, 0) == relayer
    requires id.destination == self
    requires exists message :: t.log == u.log + [Received(id, message, relayer)]
    requires Held(t.receiptQueues, id.source) == Held(u.receiptQueues, id.source) + [Receipt(id.nonce, relayer)]
    requires forall c :: c != id.source ==> Held(t.receiptQueues, c) == Held(u.receiptQueues, c)
    ensures ReceiptsOK(self, t.receivedMessageNonces, t.relayerRewardAddresses, t.receiptQueues, t.log)
  {
    forall c, r | r in Held(t.receiptQueues, c)
      ensures Genuine(self, t.receivedMessageNonces, t.relayerRewardAddresses, c, r)
    {
      if c == id.source && r == Receipt(id.nonce, relayer) {
        assert MessageID(c, self, r.receivedMessageNonce) == id;
      } else {
        assert r in Held(u.receiptQueues, c);
      }
    }
  }

  lemma AcceptCore(self: ChainID, s: Chain, caller: Address, warp: WarpMessage, relayer: Address, id: MessageID,
                   u: Chain, t: Chain)
    requires ChainOK(self, u, None) && OnlyCredits(s.(blockchainID := self), u)
    requires Acceptable(self, s, caller, warp, id)
    requires t == u.(receiveEntered := true,
                     receivedMessageNonces := u.receivedMessageNonces[id := id.nonce],
                     relayerRewardAddresses :=
                       if relayer != 0 then u.relayerRewardAddresses[id := relayer] else u.relayerRewardAddresses,
                     receiptQueues := u.receiptQueues[
                       id.source := Enqueue(GetOr(u.receiptQueues, id.source, EMPTY), Receipt(id.nonce, relayer))],
                     log := u.log + [Received(id, warp.message, relayer)])
    ensures ChainOK(self, t, Some(id)) && Later(u, t) && id !in u.receivedMessageNonces
  {
    var e := Received(id, warp.message, relayer);
    assert id !in u.receivedMessageNonces && id !in u.relayerRewardAddresses by {
      assert ReceivedAt(self, u.receivedMessageNonces, u.receivedFailedMessageHashes, u.relayerRewardAddresses, u.log,
                        None, id);
    }
    SentKept(self, u.messageNonce, u.sentMessageInfo, u.log, e);
    EmittedKept(self, u.sentMessageInfo, u.log, e, u.sentMessageInfo);
    ReceivedAdd(self, u.receivedMessageNonces, u.receivedFailedMessageHashes, u.relayerRewardAddresses, u.log, id,
                warp.message, relayer);
    RewardsKept(u.relayerRewardAmounts, u.log, e);
    QueuesEnqueue(u.receiptQueues, u.log, id, warp.message, relayer);
    ReceiptsAfterReceipt(self, u, t, id, relayer);
  }

  lemma AcceptKeeps(self: ChainID, s: Chain, caller: Address, warp: WarpMessage, relayer: Address)
    requires ChainOK(self, s, None) && Accept(self, s, caller, warp, relayer).Ok?
    ensures Marked(self, s, warp).Ok?
    ensures var (t, id) := Accept(self, s, caller, warp, relayer).value;
            && ChainOK(self, t, Some(id)) && Later(s, t)
            && Acceptable(self, s, caller, warp, id)
            && t.log == Marked(self, s, warp).value.log + [Received(id, warp.message, relayer)]
            && t.receiveEntered && t.sendEntered == s.sendEntered
            && t.receivedFailedMessageHashes == s.receivedFailedMessageHashes
            && id !in s.receivedMessageNonces
  {
    AcceptEffect(self, s, caller, warp, relayer);
    InitializeKeeps(self, s, None);
    var m := warp.message;
    MarkReceiptsKeeps(self, s.(blockchainID := self), None, warp.sourceChainID, m.receipts, |m.receipts|);
    var (t, id) := Accept(self, s, caller, warp, relayer).value;
    AcceptCore(self, s, caller, warp, relayer, id, Marked(self, s, warp).value, t);
  }

  // ----- Executing -----

  /** Nothing was received, executed or credited in between. */
  ghost predicate Quiet(s: Chain, t: Chain) {
    && s.log <= t.log
    && forall e :: e in t.log ==> e in s.log || e.Sent? || e.Resent? || e.FeeAdded? || e.Redeemed?
  }

  predicate Receives(call: Call) {
    call.ReceiveCrossChainMessage? || call.RetryMessageExecution?
  }

  /** A call that is not guarded against re-entry of receiving. */
  ghost predicate SimplyKept(self: ChainID, s: Chain, t: Chain, open: Option<MessageID>) {
    ChainOK(self, t, open) && Later(s, t) && SameReceiving(s, t) && Quiet(s, t)
  }

  lemma SendQuiet(self: ChainID, s: Chain, caller: Address, input: MessageInput, receipts: seq<Receipt>,
                  received: Uint256, queued: bool)
    requires s.blockchainID == 0 || s.blockchainID == self
    requires SendMessage(self, s, caller, input, receipts, received, queued).Ok?
    ensures Quiet(s, SendMessage(self, s, caller, input, receipts, received, queued).value.0)
  {
    SendEffect(self, s, caller, input, receipts, received, queued);
  }

  lemma SendCallsKeep(self: ChainID, s: Chain, caller: Address, call: Call, open: Option<MessageID>)
    requires ChainOK(self, s, open) && Do(self, s, caller, call).Ok?
    requires call.SendCrossChainMessage? || call.SendSpecifiedReceipts?
    ensures SimplyKept(self, s, Do(self, s, caller, call).value, open)
  {
    match call {
      case SendCrossChainMessage(input, received) =>
        SendKeeps(self, s, open, caller, input, received);
        var to := input.destinationBlockchainID;
        var (batch, rest) := OutstandingReceipts(GetOr(s.receiptQueues, to, EMPTY));
        SendQuiet(self, s.(receiptQueues := s.receiptQueues[to := rest]), caller, input, batch, received, true);
      case SendSpecifiedReceipts(source, ids, feeInfo, allowed, received) =>
        SendReceiptsKeeps(self, s, open, caller, source, ids, feeInfo, allowed, received);
        SendQuiet(self, s, caller, MessageInput(source, 0, feeInfo, 0, allowed, []),
                  SpecifiedReceipts(s, source, ids, |ids|).value, received, false);
    }
  }

  lemma SimpleCallKeeps(self: ChainID, s: Chain, caller: Address, call: Call, open: Option<MessageID>)
    requires ChainOK(self, s, open) && Do(self, s, caller, call).Ok? && !Receives(call)
    ensures SimplyKept(self, s, Do(self, s, caller, call).value, open)
  {
    match call {
      case SendCrossChainMessage(_, _) => SendCallsKeep(self, s, caller, call, open);
      case SendSpecifiedReceipts(_, _, _, _, _) => SendCallsKeep(self, s, caller, call, open);
      case RetrySendCrossChainMessage(message) => RetrySendKeeps(self, s, open, message);
      case AddFeeAmount(id, token, additional, received) =>
        AddFeeKeeps(self, s, open, id, token, additional, received);
      case RedeemRelayerRewards(token) => RedeemKeeps(self, s, open, caller, token);
      case InitializeBlockchainID =>
        OwnIDIsSelf(self, s);
        InitializeKeeps(self, s, open);
      case Donate(token, amount) => DonateKeeps(self, s, open, token, amount);
    }
  }

  /** While a message is executed (the guard is set), what its target calls touches only the sending side. */
  lemma {:induction false} PerformKeeps(self: ChainID, s: Chain, script: Script, open: Option<MessageID>)
    requires ChainOK(self, s, open) && s.receiveEntered
    ensures SimplyKept(self, s, Perform(self, s, script), open)
    decreases script
  {
    match script {
      case Stop =>
      case Then(caller, call, rest) =>
        var r := Do(self, s, caller, call);
        if r.Ok? {
          GuardedCall(self, s, caller, call);
          SimpleCallKeeps(self, s, caller, call, open);
          PerformKeeps(self, r.value, rest, open);
        } else {
          PerformKeeps(self, s, rest, open);
        }
    }
  }

  /** With the guard set, receiving and retrying revert. */
  lemma GuardedCall(self: ChainID, s: Chain, caller: Address, call: Call)
    requires s.receiveEntered && Do(self, s, caller, call).Ok?
    ensures !Receives(call)
  {
  }

  /** The message that is being delivered is the only one received under its ID. */
  ghost predicate OnlyDelivery(log: seq<Event>, id: MessageID, message: Message) {
    forall e :: e in log && e.Received? && e.id == id ==> e.message == message
  }

  lemma QuietKeepsDelivery(s: Chain, t: Chain, id: MessageID, message: Message)
    requires Quiet(s, t) && OnlyDelivery(s.log, id, message)
    ensures OnlyDelivery(t.log, id, message)
  {
  }

  /** What the first execution adds to the events: quiet ones, and at the end whether it succeeded. */
  ghost predicate ExecutionEvents(s: Chain, t: Chain, id: MessageID) {
    && s.log <= t.log
    && forall e :: e in t.log ==>
         e in s.log || e.Sent? || e.Resent? || e.FeeAdded? || e.Redeemed? || e == Executed(id) || e == ExecutionFailed(id)
  }

  lemma ExecutedCore(self: ChainID, s: Chain, id: MessageID, message: Message)
    requires ChainOK(self, s, Some(id)) && OnlyDelivery(s.log, id, message) && message.payload != []
    ensures ChainOK(self, Log(s, Executed(id)), None)
  {
    var e := Executed(id);
    SentKept(self, s.messageNonce, s.sentMessageInfo, s.log, e);
    EmittedKept(self, s.sentMessageInfo, s.log, e, s.sentMessageInfo);
    ReceivedExecuted(self, s.receivedMessageNonces, s.receivedFailedMessageHashes, s.relayerRewardAddresses, s.log, id);
    RewardsKept(s.relayerRewardAmounts, s.log, e);
    QueuesKept(s.receiptQueues, s.log, e);
    ReceiptsKept(self, s, Log(s, e), e);
  }

  lemma FailedCore(self: ChainID, s: Chain, id: MessageID, message: Message)
    requires ChainOK(self, s, Some(id)) && OnlyDelivery(s.log, id, message) && message.payload != []
    ensures ChainOK(self, StoreFailed(s, id, message), None)
    ensures Later(s, StoreFailed(s, id, message)) && ExecutionEvents(s, StoreFailed(s, id, message), id)
  {
    var e := ExecutionFailed(id);
    SentKept(self, s.messageNonce, s.sentMessageInfo, s.log, e);
    EmittedKept(self, s.sentMessageInfo, s.log, e, s.sentMessageInfo);
    ReceivedFailed(self, s.receivedMessageNonces, s.receivedFailedMessageHashes, s.relayerRewardAddresses, s.log, id,
                   message);
    RewardsKept(s.relayerRewardAmounts, s.log, e);
    QueuesKept(s.receiptQueues, s.log, e);
    ReceiptsKept(self, s, StoreFailed(s, id, message), e);
  }

  lemma SuccessKeeps(self: ChainID, s: Chain, id: MessageID, message: Message, script: Script)
    requires ChainOK(self, s, Some(id)) && s.receiveEntered
    requires OnlyDelivery(s.log, id, message) && message.payload != []
    ensures var t := Log(Perform(self, s, script), Executed(id));
            && ChainOK(self, t, None) && Later(s, t) && ExecutionEvents(s, t, id)
            && t.receiveEntered && t.sendEntered == s.sendEntered
  {
    PerformKeeps(self, s, script, Some(id));
    var u := Perform(self, s, script);
    QuietKeepsDelivery(s, u, id, message);
    ExecutedCore(self, u, id, message);
  }

  lemma ExecuteKeeps(self: ChainID, s: Chain, id: MessageID, message: Message, execution: Execution)
    requires ChainOK(self, s, Some(id)) && s.receiveEntered
    requires OnlyDelivery(s.log, id, message) && message.payload != []
    ensures var t := Execute(self, s, id, message, execution);
            && ChainOK(self, t, None) && Later(s, t) && ExecutionEvents(s, t, id)
            && t.receiveEntered && t.sendEntered == s.sendEntered
  {
    if execution.Attempt? && execution.success {
      SuccessKeeps(self, s, id, message, execution.script);
    } else {
      FailedCore(self, s, id, message);
    }
  }

  /** The rest of a receive, after the message was accepted. */
  function Finished(self: ChainID, u: Chain, id: MessageID, message: Message, gasLeft: nat, execution: Execution)
    : Result<Chain, Error>
  {
    var v :- if message.payload == [] then Ok(u) else HandleInitialExecution(self, u, id, message, gasLeft, execution);
    Ok(v.(receiveEntered := false))
  }

  lemma FinishedKeeps(self: ChainID, u: Chain, id: MessageID, message: Message, gasLeft: nat, execution: Execution)
    requires ChainOK(self, u, Some(id)) && u.receiveEntered && OnlyDelivery(u.log, id, message)
    requires Finished(self, u, id, message, gasLeft, execution).Ok?
    ensures var t := Finished(self, u, id, message, gasLeft, execution).value;
            && ChainOK(self, t, None) && Later(u, t) && ExecutionEvents(u, t, id)
            && !t.receiveEntered && t.sendEntered == u.sendEntered
  {
    if message.payload == [] {
      ReceivedEmpty(self, u.receivedMessageNonces, u.receivedFailedMessageHashes, u.relayerRewardAddresses, u.log, id);
    } else {
      ExecuteKeeps(self, u, id, message, execution);
    }
  }

  lemma ReceiveKeeps(self: ChainID, s: Chain, caller: Address, warp: WarpMessage, relayer: Address, gasLeft: nat,
                     execution: Execution)
    requires ChainOK(self, s, None) && Receive(self, s, caller, Some(warp), relayer, gasLeft, execution).Ok?
    ensures Accept(self, s, caller, warp, relayer).Ok?
    ensures var t := Receive(self, s, caller, Some(warp), relayer, gasLeft, execution).value;
            var (u, id) := Accept(self, s, caller, warp, relayer).value;
            && ChainOK(self, t, None) && Later(s, t) && ExecutionEvents(u, t, id)
            && !t.receiveEntered && t.sendEntered == s.sendEntered
  {
    AcceptKeeps(self, s, caller, warp, relayer);
    var (u, id) := Accept(self, s, caller, warp, relayer).value;
    AcceptedOnce(self, s, caller, warp, relayer);
    FinishedKeeps(self, u, id, warp.message, gasLeft, execution);
  }

  /** The accepted message is the only one of its ID. */
  lemma AcceptedOnce(self: ChainID, s: Chain, caller: Address, warp: WarpMessage, relayer: Address)
    requires ChainOK(self, s, None) && Accept(self, s, caller, warp, relayer).Ok?
    ensures var (u, id) := Accept(self, s, caller, warp, relayer).value;
            OnlyDelivery(u.log, id, warp.message)
  {
    AcceptKeeps(self, s, caller, warp, relayer);
    var (u, id) := Accept(self, s, caller, warp, relayer).value;
    InitializeKeeps(self, s, None);
    MarkReceiptsKeeps(self, s.(blockchainID := self), None, warp.sourceChainID, warp.message.receipts,
                      |warp.message.receipts|);
    var marked := Marked(self, s, warp).value;
    forall e | e in marked.log && e.Received? ensures e.id != id {
      ReceivedEvent(marked.log, e);
      assert ReceivedAt(self, marked.receivedMessageNonces, marked.receivedFailedMessageHashes,
                        marked.relayerRewardAddresses, marked.log, None, e.id);
    }
  }

  /** The state in which a stored message is executed again. */
  function Retrying(s: Chain, id: MessageID): Chain {
    Log(s.(receiveEntered := true, receivedFailedMessageHashes := s.receivedFailedMessageHashes - {id}), Executed(id))
  }

  lemma RetryCore(self: ChainID, s: Chain, id: MessageID)
    requires ChainOK(self, s, None) && id in s.receivedFailedMessageHashes
    ensures ChainOK(self, Retrying(s, id), None) && Later(s, Retrying(s, id))
  {
    var e := Executed(id);
    SentKept(self, s.messageNonce, s.sentMessageInfo, s.log, e);
    EmittedKept(self, s.sentMessageInfo, s.log, e, s.sentMessageInfo);
    ReceivedRetried(self, s.receivedMessageNonces, s.receivedFailedMessageHashes, s.relayerRewardAddresses, s.log, id);
    RewardsKept(s.relayerRewardAmounts, s.log, e);
    QueuesKept(s.receiptQueues, s.log, e);
    ReceiptsKept(self, s, Retrying(s, id), e);
  }

  lemma RetryKeeps(self: ChainID, s: Chain, source: ChainID, message: Message, execution: Execution)
    requires ChainOK(self, s, None) && RetryExecution(self, s, source, message, execution).Ok?
    ensures var t := RetryExecution(self, s, source, message, execution).value;
            && ChainOK(self, t, None) && Later(s, t)
            && ExecutionEvents(s, t, MessageID(source, s.blockchainID, message.messageNonce))
            && !t.receiveEntered && t.sendEntered == s.sendEntered
  {
    var id := MessageID(source, s.blockchainID, message.messageNonce);
    RetryCore(self, s, id);
    PerformKeeps(self, Retrying(s, id), execution.script, None);
  }

  /** Every call made from outside keeps the invariant and leaves the messenger at rest. */
  lemma DoKeeps(self: ChainID, s: Chain, caller: Address, call: Call)
    requires ChainOK(self, s, None) && AtRest(s) && Do(self, s, caller, call).Ok?
    ensures var t := Do(self, s, caller, call).value;
            ChainOK(self, t, None) && AtRest(t) && Later(s, t)
  {
    match call {
      case ReceiveCrossChainMessage(warp, relayer, gasLeft, execution) =>
        ReceiveKeeps(self, s, caller, warp.value, relayer, gasLeft, execution);
      case RetryMessageExecution(source, message, execution) =>
        RetryKeeps(self, s, source, message, execution);
      case _ =>
        SimpleCallKeeps(self, s, caller, call, None);
    }
  }
}
