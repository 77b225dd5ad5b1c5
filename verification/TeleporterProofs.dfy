/** How single events and single writes keep the parts of the messenger's invariant. */
module TeleporterProofs {
  import opened Wrappers
  import opened MapSum
  import opened ReceiptQueue
  import opened TeleporterSpec
  import opened TeleporterInvariants

  // ----- One more event -----

  lemma OneMore(log: seq<Event>, e: Event, kind: Kind, id: MessageID)
    ensures Times(log + [e], kind, id) == Times(log, kind, id) + (if Is(e, kind, id) then 1 else 0)
  {
    assert (log + [e])[..|log|] == log;
  }

  lemma OneMoreQueued(log: seq<Event>, e: Event, c: ChainID)
    ensures Enqueued(log + [e], c)
            == Enqueued(log, c) + if e.Received? && e.id.source == c then [Receipt(e.id.nonce, e.relayer)] else []
    ensures Dispatched(log + [e], c)
            == Dispatched(log, c)
               + if e.Sent? && e.queued && e.id.destination == c then e.message.receipts else []
  {
    assert (log + [e])[..|log|] == log;
  }

  /** An ID without a sending event has no other event of a sent message. */
  lemma NeverSent(self: ChainID, nonce: nat, sent: map<MessageID, SentMessageInfo>, log: seq<Event>, id: MessageID)
    requires SentOK(self, nonce, sent, log) && id.nonce > nonce
    ensures Times(log, Sending, id) == Times(log, Crediting, id) == 0 && id !in sent
  {
    assert SentAt(self, nonce, sent, log, id);
  }

  // ----- The sending side -----

  lemma SentKept(self: ChainID, nonce: nat, sent: map<MessageID, SentMessageInfo>, log: seq<Event>, e: Event)
    requires SentOK(self, nonce, sent, log) && !e.Sent? && !e.ReceiptReceived?
    ensures SentOK(self, nonce, sent, log + [e])
  {
    forall id ensures SentAt(self, nonce, sent, log + [e], id) {
      assert SentAt(self, nonce, sent, log, id);
      OneMore(log, e, Sending, id);
      OneMore(log, e, Crediting, id);
    }
  }

  lemma SentAdd(self: ChainID, nonce: nat, sent: map<MessageID, SentMessageInfo>, log: seq<Event>,
                id: MessageID, info: SentMessageInfo, queued: bool)
    requires SentOK(self, nonce, sent, log)
    requires id == MessageID(self, info.message.destinationBlockchainID, nonce + 1)
    requires info.message.messageNonce == nonce + 1
    ensures SentOK(self, nonce + 1, sent[id := info], log + [Sent(id, info.message, queued)])
  {
    NeverSent(self, nonce, sent, log, id);
    var e, sent', next := Sent(id, info.message, queued), sent[id := info], nonce + 1;
    forall k ensures SentAt(self, next, sent', log + [e], k) {
      assert SentAt(self, nonce, sent, log, k);
      OneMore(log, e, Sending, k);
      OneMore(log, e, Crediting, k);
    }
  }

  /** A fee is added to an outstanding message. */
  lemma SentUpdate(self: ChainID, nonce: nat, sent: map<MessageID, SentMessageInfo>, log: seq<Event>,
                   id: MessageID, fee: FeeInfo, amount: nat)
    requires SentOK(self, nonce, sent, log) && id in sent
    ensures SentOK(self, nonce, sent[id := sent[id].(feeInfo := fee)], log + [FeeAdded(id, amount)])
  {
    var e, sent' := FeeAdded(id, amount), sent[id := sent[id].(feeInfo := fee)];
    forall k ensures SentAt(self, nonce, sent', log + [e], k) {
      assert SentAt(self, nonce, sent, log, k);
      OneMore(log, e, Sending, k);
      OneMore(log, e, Crediting, k);
    }
  }

  lemma SentCredited(self: ChainID, nonce: nat, sent: map<MessageID, SentMessageInfo>, log: seq<Event>,
                     id: MessageID, relayer: Address, fee: FeeInfo)
    requires SentOK(self, nonce, sent, log) && id in sent
    ensures SentOK(self, nonce, sent - {id}, log + [ReceiptReceived(id, relayer, fee)])
  {
    var e, sent' := ReceiptReceived(id, relayer, fee), sent - {id};
    forall k ensures SentAt(self, nonce, sent', log + [e], k) {
      assert SentAt(self, nonce, sent, log, k);
      OneMore(log, e, Sending, k);
      OneMore(log, e, Crediting, k);
    }
  }

  lemma LoggedKept(message: Message, id: MessageID, log: seq<Event>, e: Event)
    requires SentLogged(message, id, log)
    ensures SentLogged(message, id, log + [e])
  {
    var queued :| Sent(id, message, queued) in log;
    assert Sent(id, message, queued) in log + [e];
  }

  lemma EmittedKept(self: ChainID, sent: map<MessageID, SentMessageInfo>, log: seq<Event>, e: Event,
                    sent': map<MessageID, SentMessageInfo>)
    requires EmittedOK(self, sent, log) && EmittedAt(self, e)
    requires e.Resent? ==> SentLogged(e.message, e.id, log)
    requires forall id :: id in sent' ==> (id in sent && sent'[id].message == sent[id].message)
                                          || SentLogged(sent'[id].message, id, log + [e])
    ensures EmittedOK(self, sent', log + [e])
  {
    forall id | id in sent' ensures SentLogged(sent'[id].message, id, log + [e]) {
      if id in sent && sent'[id].message == sent[id].message {
        LoggedKept(sent[id].message, id, log, e);
      }
    }
    forall f | f in log + [e] && f.Resent? ensures SentLogged(f.message, f.id, log + [e]) {
      LoggedKept(f.message, f.id, log, e);
    }
  }

  // ----- The receiving side -----

  lemma ReceivedKept(self: ChainID, received: map<MessageID, nat>, failed: map<MessageID, Message>,
                     addresses: map<MessageID, Address>, log: seq<Event>, open: Option<MessageID>, e: Event)
    requires ReceivedOK(self, received, failed, addresses, log, open)
    requires !e.Received? && !e.Executed?
    ensures ReceivedOK(self, received, failed, addresses, log + [e], open)
  {
    forall id ensures ReceivedAt(self, received, failed, addresses, log + [e], open, id) {
      assert ReceivedAt(self, received, failed, addresses, log, open, id);
      OneMore(log, e, Receiving, id);
      OneMore(log, e, Executing, id);
    }
    forall f | f in log + [e] ensures DeliveryAt(failed, addresses, log + [e], open, f) {
      if f.Received? {
        OneMore(log, e, Executing, f.id);
      }
    }
  }

  /** A message with an event of its receipt has been received. */
  lemma {:induction false} ReceivedEvent(log: seq<Event>, e: Event)
    requires e in log && e.Received?
    ensures Times(log, Receiving, e.id) >= 1
  {
    if e != log[|log| - 1] {
      ReceivedEvent(log[..|log| - 1], e);
    }
  }

  lemma ReceivedAdd(self: ChainID, received: map<MessageID, nat>, failed: map<MessageID, Message>,
                    addresses: map<MessageID, Address>, log: seq<Event>, id: MessageID, message: Message,
                    relayer: Address)
    requires ReceivedOK(self, received, failed, addresses, log, None)
    requires id !in received && id.nonce != 0 && id.destination == self
    requires message.messageNonce == id.nonce && message.destinationBlockchainID == self
    ensures ReceivedOK(self, received[id := id.nonce], failed,
                       if relayer != 0 then addresses[id := relayer] else addresses,
                       log + [Received(id, message, relayer)], Some(id))
  {
    var e := Received(id, message, relayer);
    var received', log', open := received[id := id.nonce], log + [e], Some(id);
    var addresses' := if relayer != 0 then addresses[id := relayer] else addresses;
    assert ReceivedAt(self, received, failed, addresses, log, None, id);
    forall k ensures ReceivedAt(self, received', failed, addresses', log', open, k) {
      assert ReceivedAt(self, received, failed, addresses, log, None, k);
      OneMore(log, e, Receiving, k);
      OneMore(log, e, Executing, k);
    }
    forall f | f in log' ensures DeliveryAt(failed, addresses', log', open, f) {
      if f.Received? {
        OneMore(log, e, Executing, f.id);
        if f in log {
          ReceivedEvent(log, f);
          assert DeliveryAt(failed, addresses, log, None, f);
        }
      }
    }
  }

  /** The delivery of a message without payload is over at once. */
  lemma ReceivedEmpty(self: ChainID, received: map<MessageID, nat>, failed: map<MessageID, Message>,
                      addresses: map<MessageID, Address>, log: seq<Event>, id: MessageID)
    requires ReceivedOK(self, received, failed, addresses, log, Some(id))
    requires forall e :: e in log && e.Received? && e.id == id ==> e.message.payload == []
    ensures ReceivedOK(self, received, failed, addresses, log, None)
  {
    assert ReceivedAt(self, received, failed, addresses, log, Some(id), id);
    forall k ensures ReceivedAt(self, received, failed, addresses, log, None, k) {
      assert ReceivedAt(self, received, failed, addresses, log, Some(id), k);
    }
    forall e | e in log ensures DeliveryAt(failed, addresses, log, None, e) {
      assert DeliveryAt(failed, addresses, log, Some(id), e);
    }
  }

  /** The open message has been executed. */
  lemma ReceivedExecuted(self: ChainID, received: map<MessageID, nat>, failed: map<MessageID, Message>,
                         addresses: map<MessageID, Address>, log: seq<Event>, id: MessageID)
    requires ReceivedOK(self, received, failed, addresses, log, Some(id))
    requires forall e :: e in log && e.Received? && e.id == id ==> e.message.payload != []
    ensures ReceivedOK(self, received, failed, addresses, log + [Executed(id)], None)
  {
    var e := Executed(id);
    assert ReceivedAt(self, received, failed, addresses, log, Some(id), id);
    forall k ensures ReceivedAt(self, received, failed, addresses, log + [e], None, k) {
      assert ReceivedAt(self, received, failed, addresses, log, Some(id), k);
      OneMore(log, e, Receiving, k);
      OneMore(log, e, Executing, k);
    }
    forall f | f in log + [e] ensures DeliveryAt(failed, addresses, log + [e], None, f) {
      if f.Received? {
        OneMore(log, e, Executing, f.id);
        assert DeliveryAt(failed, addresses, log, Some(id), f);
      }
    }
  }

  /** The open message is stored for a retry. */
  lemma ReceivedFailed(self: ChainID, received: map<MessageID, nat>, failed: map<MessageID, Message>,
                       addresses: map<MessageID, Address>, log: seq<Event>, id: MessageID, message: Message)
    requires ReceivedOK(self, received, failed, addresses, log, Some(id)) && message.payload != []
    requires forall e :: e in log && e.Received? && e.id == id ==> e.message == message
    ensures ReceivedOK(self, received, failed[id := message], addresses, log + [ExecutionFailed(id)], None)
  {
    var e, failed' := ExecutionFailed(id), failed[id := message];
    assert ReceivedAt(self, received, failed, addresses, log, Some(id), id);
    forall k ensures ReceivedAt(self, received, failed', addresses, log + [e], None, k) {
      assert ReceivedAt(self, received, failed, addresses, log, Some(id), k);
      OneMore(log, e, Receiving, k);
      OneMore(log, e, Executing, k);
    }
    forall f | f in log + [e] ensures DeliveryAt(failed', addresses, log + [e], None, f) {
      if f.Received? {
        OneMore(log, e, Executing, f.id);
        assert DeliveryAt(failed, addresses, log, Some(id), f);
      }
    }
  }

  /** A stored message is taken out and executed. */
  lemma ReceivedRetried(self: ChainID, received: map<MessageID, nat>, failed: map<MessageID, Message>,
                        addresses: map<MessageID, Address>, log: seq<Event>, id: MessageID)
    requires ReceivedOK(self, received, failed, addresses, log, None) && id in failed
    ensures ReceivedOK(self, received, failed - {id}, addresses, log + [Executed(id)], None)
  {
    var e, failed' := Executed(id), failed - {id};
    forall k ensures ReceivedAt(self, received, failed', addresses, log + [e], None, k) {
      assert ReceivedAt(self, received, failed, addresses, log, None, k);
      OneMore(log, e, Receiving, k);
      OneMore(log, e, Executing, k);
    }
    forall f | f in log + [e] ensures DeliveryAt(failed', addresses, log + [e], None, f) {
      if f.Received? {
        OneMore(log, e, Executing, f.id);
        assert DeliveryAt(failed, addresses, log, None, f);
      }
    }
  }

  // ----- Fees -----

  /** A fee comes in with a message. */
  lemma LedgerSend(s: Chain, id: MessageID, info: SentMessageInfo)
    requires LedgerOK(s.balances, s.donated, s.sentMessageInfo, s.relayerRewardAmounts) && id !in s.sentMessageInfo
    ensures LedgerOK(Credited(s.balances, info.feeInfo.feeTokenAddress, info.feeInfo.amount), s.donated,
                     s.sentMessageInfo[id := info], s.relayerRewardAmounts)
  {
    var balances, sent := Credited(s.balances, info.feeInfo.feeTokenAddress, info.feeInfo.amount),
                          s.sentMessageInfo[id := info];
    forall t ensures LedgerAt(balances, s.donated, sent, s.relayerRewardAmounts, t) {
      assert LedgerAt(s.balances, s.donated, s.sentMessageInfo, s.relayerRewardAmounts, t);
      Update(s.sentMessageInfo, id, info, FeeIn(t));
    }
  }

  lemma LedgerAddFee(s: Chain, id: MessageID, received: nat)
    requires LedgerOK(s.balances, s.donated, s.sentMessageInfo, s.relayerRewardAmounts) && id in s.sentMessageInfo
    ensures var info := s.sentMessageInfo[id];
            var token := info.feeInfo.feeTokenAddress;
            LedgerOK(Credited(s.balances, token, received), s.donated,
                     s.sentMessageInfo[id := info.(feeInfo := FeeInfo(token, info.feeInfo.amount + received))],
                     s.relayerRewardAmounts)
  {
    var info := s.sentMessageInfo[id];
    var token := info.feeInfo.feeTokenAddress;
    var info' := info.(feeInfo := FeeInfo(token, info.feeInfo.amount + received));
    var balances, sent := Credited(s.balances, token, received), s.sentMessageInfo[id := info'];
    forall t ensures LedgerAt(balances, s.donated, sent, s.relayerRewardAmounts, t) {
      assert LedgerAt(s.balances, s.donated, s.sentMessageInfo, s.relayerRewardAmounts, t);
      Update(s.sentMessageInfo, id, info', FeeIn(t));
    }
  }

  /** A fee becomes a reward. */
  lemma LedgerCredit(s: Chain, id: MessageID, key: (Address, Address), amount: nat)
    requires LedgerOK(s.balances, s.donated, s.sentMessageInfo, s.relayerRewardAmounts) && id in s.sentMessageInfo
    requires key.1 == s.sentMessageInfo[id].feeInfo.feeTokenAddress
    requires amount == GetOr(s.relayerRewardAmounts, key, 0) + s.sentMessageInfo[id].feeInfo.amount
    ensures LedgerOK(s.balances, s.donated, s.sentMessageInfo - {id}, s.relayerRewardAmounts[key := amount])
  {
    var sent, rewards := s.sentMessageInfo - {id}, s.relayerRewardAmounts[key := amount];
    forall t ensures LedgerAt(s.balances, s.donated, sent, rewards, t) {
      assert LedgerAt(s.balances, s.donated, s.sentMessageInfo, s.relayerRewardAmounts, t);
      Delete(s.sentMessageInfo, id, FeeIn(t));
      Update(s.relayerRewardAmounts, key, amount, RewardIn(t));
    }
  }

  /** A reward is redeemed; the balance covers it. */
  lemma RewardCovered(s: Chain, key: (Address, Address))
    requires LedgerOK(s.balances, s.donated, s.sentMessageInfo, s.relayerRewardAmounts)
    ensures GetOr(s.relayerRewardAmounts, key, 0) <= GetOr(s.balances, key.1, 0)
  {
    assert LedgerAt(s.balances, s.donated, s.sentMessageInfo, s.relayerRewardAmounts, key.1);
    if key in s.relayerRewardAmounts {
      Member(s.relayerRewardAmounts, key, RewardIn(key.1));
    }
  }

  lemma LedgerRedeem(s: Chain, key: (Address, Address))
    requires LedgerOK(s.balances, s.donated, s.sentMessageInfo, s.relayerRewardAmounts)
    requires GetOr(s.relayerRewardAmounts, key, 0) <= GetOr(s.balances, key.1, 0)
    ensures LedgerOK(s.balances[key.1 := GetOr(s.balances, key.1, 0) - GetOr(s.relayerRewardAmounts, key, 0)],
                     s.donated, s.sentMessageInfo, s.relayerRewardAmounts - {key})
  {
    var balances := s.balances[key.1 := GetOr(s.balances, key.1, 0) - GetOr(s.relayerRewardAmounts, key, 0)];
    var rewards := s.relayerRewardAmounts - {key};
    forall t ensures LedgerAt(balances, s.donated, s.sentMessageInfo, rewards, t) {
      assert LedgerAt(s.balances, s.donated, s.sentMessageInfo, s.relayerRewardAmounts, t);
      Delete(s.relayerRewardAmounts, key, RewardIn(t));
    }
  }

  lemma OneMorePaid(log: seq<Event>, e: Event, relayer: Address, token: Address)
    ensures Earned(log + [e], relayer, token) == Earned(log, relayer, token)
            + if e.ReceiptReceived? && e.relayer == relayer && e.feeInfo.feeTokenAddress == token then e.feeInfo.amount
              else 0
    ensures PaidTo(log + [e], relayer, token) == PaidTo(log, relayer, token)
            + if e.Redeemed? && e.relayer == relayer && e.token == token then e.amount else 0
  {
    assert (log + [e])[..|log|] == log;
  }

  lemma RewardsKept(rewards: map<(Address, Address), nat>, log: seq<Event>, e: Event)
    requires RewardsOK(rewards, log) && !e.ReceiptReceived? && !e.Redeemed?
    ensures RewardsOK(rewards, log + [e])
  {
    forall relayer, token ensures RewardAt(rewards, log + [e], relayer, token) {
      assert RewardAt(rewards, log, relayer, token);
      OneMorePaid(log, e, relayer, token);
    }
  }

  lemma RewardsCredit(rewards: map<(Address, Address), nat>, log: seq<Event>, id: MessageID, to: Address, fee: FeeInfo,
                      amount: nat)
    requires RewardsOK(rewards, log) && amount == GetOr(rewards, (to, fee.feeTokenAddress), 0) + fee.amount
    ensures RewardsOK(rewards[(to, fee.feeTokenAddress) := amount], log + [ReceiptReceived(id, to, fee)])
  {
    var e, rewards' := ReceiptReceived(id, to, fee), rewards[(to, fee.feeTokenAddress) := amount];
    forall relayer, token ensures RewardAt(rewards', log + [e], relayer, token) {
      assert RewardAt(rewards, log, relayer, token);
      OneMorePaid(log, e, relayer, token);
    }
  }

  lemma RewardsRedeem(rewards: map<(Address, Address), nat>, log: seq<Event>, to: Address, paid: Address)
    requires RewardsOK(rewards, log)
    ensures RewardsOK(rewards - {(to, paid)}, log + [Redeemed(to, paid, GetOr(rewards, (to, paid), 0))])
  {
    var e, rewards' := Redeemed(to, paid, GetOr(rewards, (to, paid), 0)), rewards - {(to, paid)};
    forall relayer, token ensures RewardAt(rewards', log + [e], relayer, token) {
      assert RewardAt(rewards, log, relayer, token);
      OneMorePaid(log, e, relayer, token);
    }
  }

  lemma LedgerDonate(s: Chain, token: Address, amount: nat)
    requires LedgerOK(s.balances, s.donated, s.sentMessageInfo, s.relayerRewardAmounts)
    ensures LedgerOK(Credited(s.balances, token, amount), Credited(s.donated, token, amount),
                     s.sentMessageInfo, s.relayerRewardAmounts)
  {
    var balances, donated := Credited(s.balances, token, amount), Credited(s.donated, token, amount);
    forall t ensures LedgerAt(balances, donated, s.sentMessageInfo, s.relayerRewardAmounts, t) {
      assert LedgerAt(s.balances, s.donated, s.sentMessageInfo, s.relayerRewardAmounts, t);
    }
  }

  // ----- Receipts -----

  lemma QueuesKept(queues: map<ChainID, Queue>, log: seq<Event>, e: Event)
    requires QueuesOK(queues, log) && !e.Received? && !(e.Sent? && e.queued)
    ensures QueuesOK(queues, log + [e])
  {
    forall c ensures QueueAt(queues, log + [e], c) {
      assert QueueAt(queues, log, c);
      OneMoreQueued(log, e, c);
    }
  }

  lemma QueuesDispatch(queues: map<ChainID, Queue>, log: seq<Event>, id: MessageID, message: Message, rest: Queue)
    requires QueuesOK(queues, log)
    requires (message.receipts, rest) == OutstandingReceipts(GetOr(queues, id.destination, EMPTY))
    ensures QueuesOK(queues[id.destination := rest], log + [Sent(id, message, true)])
    ensures |message.receipts| <= MAXIMUM_RECEIPT_COUNT
    ensures Held(queues, id.destination) == message.receipts + Held(queues[id.destination := rest], id.destination)
  {
    var e, queues' := Sent(id, message, true), queues[id.destination := rest];
    assert QueueAt(queues, log, id.destination);
    BatchIsOldest(GetOr(queues, id.destination, EMPTY));
    forall c ensures QueueAt(queues', log + [e], c) {
      assert QueueAt(queues, log, c);
      OneMoreQueued(log, e, c);
    }
  }

  lemma QueuesEnqueue(queues: map<ChainID, Queue>, log: seq<Event>, id: MessageID, message: Message, relayer: Address)
    requires QueuesOK(queues, log)
    ensures var r := Receipt(id.nonce, relayer);
            var queues' := queues[id.source := Enqueue(GetOr(queues, id.source, EMPTY), r)];
            && QueuesOK(queues', log + [Received(id, message, relayer)])
            && Held(queues', id.source) == Held(queues, id.source) + [r]
  {
    var e, r := Received(id, message, relayer), Receipt(id.nonce, relayer);
    var queues' := queues[id.source := Enqueue(GetOr(queues, id.source, EMPTY), r)];
    assert QueueAt(queues, log, id.source);
    EnqueueAppends(GetOr(queues, id.source, EMPTY), r);
    forall c ensures QueueAt(queues', log + [e], c) {
      assert QueueAt(queues, log, c);
      OneMoreQueued(log, e, c);
    }
  }

  /** Genuine receipts stay genuine while records of received messages are only added. */
  lemma ReceiptsKept(self: ChainID, s: Chain, t: Chain, e: Event)
    requires ReceiptsOK(self, s.receivedMessageNonces, s.relayerRewardAddresses, s.receiptQueues, s.log)
    requires Later(s, t) && t.receiptQueues == s.receiptQueues && t.log == s.log + [e] && !e.Sent?
    ensures ReceiptsOK(self, t.receivedMessageNonces, t.relayerRewardAddresses, t.receiptQueues, t.log)
  {
  }
}
