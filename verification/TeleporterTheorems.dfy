/** What the messenger promises, for every run of any number of chains and every order of delivery. */
module TeleporterTheorems {
  import opened Wrappers
  import opened MapSum
  import opened ReceiptQueue
  import opened TeleporterSpec
  import opened TeleporterInvariants
  import opened TeleporterProofs
  import opened TeleporterNetwork

  // ----- Delivery and execution -----

  /** On every chain a message is received at most once and executed at most once, and only if it was received. */
  ghost predicate AtMostOnce(net: Network) {
    forall c, id ::
      var s := ChainOf(net, c);
      && Times(s.log, Executing, id) <= Times(s.log, Receiving, id) <= 1
      && (id in s.receivedFailedMessageHashes ==>
            Times(s.log, Receiving, id) == 1 && Times(s.log, Executing, id) == 0)
  }

  lemma AtMostOnceHolds(net: Network)
    requires NetworkOK(net)
    ensures AtMostOnce(net)
  {
    forall c, id ensures
        var s := ChainOf(net, c);
        && Times(s.log, Executing, id) <= Times(s.log, Receiving, id) <= 1
        && (id in s.receivedFailedMessageHashes ==>
              Times(s.log, Receiving, id) == 1 && Times(s.log, Executing, id) == 0)
    {
      var s := ChainOf(net, c);
      assert RestingAt(net, c);
      assert ReceivedAt(c, s.receivedMessageNonces, s.receivedFailedMessageHashes, s.relayerRewardAddresses, s.log, None,
                        id);
    }
  }

  /**
   A received message with a payload has been executed, or it is stored with its original content, and only then can
   it still be executed; a message without a payload is never executed.
   */
  ghost predicate ExecutedOrStored(net: Network) {
    forall c, e :: e in ChainOf(net, c).log && e.Received? ==>
      var s := ChainOf(net, c);
      && (e.message.payload == [] ==> Times(s.log, Executing, e.id) == 0 && e.id !in s.receivedFailedMessageHashes)
      && (e.message.payload != [] ==>
            (Times(s.log, Executing, e.id) == 0 <==>
             e.id in s.receivedFailedMessageHashes && s.receivedFailedMessageHashes[e.id] == e.message))
  }

  lemma ExecutedOrStoredHolds(net: Network)
    requires NetworkOK(net)
    ensures ExecutedOrStored(net)
  {
    forall c, e | e in ChainOf(net, c).log && e.Received?
      ensures var s := ChainOf(net, c);
              && (e.message.payload == [] ==>
                    Times(s.log, Executing, e.id) == 0 && e.id !in s.receivedFailedMessageHashes)
              && (e.message.payload != [] ==>
                    (Times(s.log, Executing, e.id) == 0 <==>
                     e.id in s.receivedFailedMessageHashes && s.receivedFailedMessageHashes[e.id] == e.message))
    {
      assert RestingAt(net, c);
      var s := ChainOf(net, c);
      assert DeliveryAt(s.receivedFailedMessageHashes, s.relayerRewardAddresses, s.log, None, e);
    }
  }

  lemma {:induction false} SomeEvent(log: seq<Event>, kind: Kind, id: MessageID) returns (e: Event)
    requires Times(log, kind, id) > 0
    ensures e in log && Is(e, kind, id)
  {
    if Is(log[|log| - 1], kind, id) {
      e := log[|log| - 1];
    } else {
      e := SomeEvent(log[..|log| - 1], kind, id);
    }
  }

  /** What is received, executed or stored for a retry was sent, once, by the source it names and with that content. */
  ghost predicate Authentic(net: Network) {
    && (forall c, e :: e in ChainOf(net, c).log && e.Received? ==>
          e.id.destination == c && SentLogged(e.message, e.id, ChainOf(net, e.id.source).log))
    && (forall c, id :: Times(ChainOf(net, c).log, Executing, id) > 0 ==>
          && Times(ChainOf(net, id.source).log, Sending, id) == 1
          && exists e :: e in ChainOf(net, c).log && e.Received? && e.id == id)
    && (forall c, id :: id in ChainOf(net, c).receivedFailedMessageHashes ==>
          SentLogged(ChainOf(net, c).receivedFailedMessageHashes[id], id, ChainOf(net, id.source).log))
  }

  lemma {:induction false} SentOnce(log: seq<Event>, id: MessageID, message: Message)
    requires SentLogged(message, id, log)
    ensures Times(log, Sending, id) >= 1
  {
    var queued :| Sent(id, message, queued) in log;
    if log[|log| - 1] != Sent(id, message, queued) {
      assert Sent(id, message, queued) in log[..|log| - 1];
      SentOnce(log[..|log| - 1], id, message);
    }
  }

  /** A received message: its event, and that it was sent. */
  lemma ReceivedWasSent(net: Network, c: ChainID, id: MessageID) returns (e: Event)
    requires NetworkOK(net) && Times(ChainOf(net, c).log, Receiving, id) > 0
    ensures e in ChainOf(net, c).log && e.Received? && e.id == id && id.destination == c
    ensures SentLogged(e.message, id, ChainOf(net, id.source).log)
    ensures Times(ChainOf(net, id.source).log, Sending, id) == 1
  {
    assert RestingAt(net, c) && SoundAt(net, c) && RestingAt(net, id.source);
    e := SomeEvent(ChainOf(net, c).log, Receiving, id);
    assert DeliverySoundAt(net, c, e);
    var a := ChainOf(net, id.source);
    SentOnce(a.log, id, e.message);
    assert SentAt(id.source, a.messageNonce, a.sentMessageInfo, a.log, id);
  }

  lemma AuthenticHolds(net: Network)
    requires NetworkOK(net)
    ensures Authentic(net)
  {
    AtMostOnceHolds(net);
    forall c, e | e in ChainOf(net, c).log && e.Received?
      ensures e.id.destination == c && SentLogged(e.message, e.id, ChainOf(net, e.id.source).log)
    {
      assert SoundAt(net, c) && DeliverySoundAt(net, c, e);
    }
    forall c, id | Times(ChainOf(net, c).log, Executing, id) > 0
      ensures Times(ChainOf(net, id.source).log, Sending, id) == 1
      ensures exists e :: e in ChainOf(net, c).log && e.Received? && e.id == id
    {
      var e := ReceivedWasSent(net, c, id);
    }
    forall c, id | id in ChainOf(net, c).receivedFailedMessageHashes
      ensures SentLogged(ChainOf(net, c).receivedFailedMessageHashes[id], id, ChainOf(net, id.source).log)
    {
      var s := ChainOf(net, c);
      var e := ReceivedWasSent(net, c, id);
      assert RestingAt(net, c);
      assert DeliveryAt(s.receivedFailedMessageHashes, s.relayerRewardAddresses, s.log, None, e);
    }
  }

  // ----- Receipts -----

  /** A fee is credited to a relayer only if the destination received the message with this reward address. */
  ghost predicate CreditsTrue(net: Network) {
    forall a, e :: e in ChainOf(net, a).log && e.ReceiptReceived? ==>
      e.id.source == a && DeliveredBy(ChainOf(net, e.id.destination), e.id, e.relayer)
  }

  /** The chain received the message, and the deliverer named this reward address. */
  ghost predicate DeliveredBy(s: Chain, id: MessageID, relayer: Address) {
    exists message :: Received(id, message, relayer) in s.log
  }

  lemma RecordedDelivery(net: Network, b: ChainID, id: MessageID)
    requires NetworkOK(net) && id in ChainOf(net, b).receivedMessageNonces
    ensures DeliveredBy(ChainOf(net, b), id, GetOr(ChainOf(net, b).relayerRewardAddresses, id, 0))
  {
    var s := ChainOf(net, b);
    assert RestingAt(net, b);
    assert ReceivedAt(b, s.receivedMessageNonces, s.receivedFailedMessageHashes, s.relayerRewardAddresses, s.log, None,
                      id);
    var e := SomeEvent(s.log, Receiving, id);
    assert DeliveryAt(s.receivedFailedMessageHashes, s.relayerRewardAddresses, s.log, None, e);
    assert e == Received(id, e.message, e.relayer);
  }

  lemma CreditsTrueHolds(net: Network)
    requires NetworkOK(net)
    ensures CreditsTrue(net)
  {
    forall a, e | e in ChainOf(net, a).log && e.ReceiptReceived?
      ensures e.id.source == a && DeliveredBy(ChainOf(net, e.id.destination), e.id, e.relayer)
    {
      assert SoundAt(net, a);
      assert CreditAt(net, a, e);
      RecordedDelivery(net, e.id.destination, e.id);
    }
  }

  /** Receipts for the same message name the same relayer, whether queued, sent from the queue or sent by name. */
  ghost predicate ReceiptsAgree(net: Network) {
    forall b, c, r1, r2 ::
      && HasReceipt(ChainOf(net, b), c, r1) && HasReceipt(ChainOf(net, b), c, r2)
      && r1.receivedMessageNonce == r2.receivedMessageNonce
      ==> r1 == r2
  }

  ghost predicate HasReceipt(s: Chain, c: ChainID, r: Receipt) {
    || r in Held(s.receiptQueues, c)
    || exists e :: e in s.log && e.Sent? && e.id.destination == c && r in e.message.receipts
  }

  lemma ReceiptsAgreeHolds(net: Network)
    requires NetworkOK(net)
    ensures ReceiptsAgree(net)
  {
    forall b, c, r1, r2 | HasReceipt(ChainOf(net, b), c, r1) && HasReceipt(ChainOf(net, b), c, r2)
                          && r1.receivedMessageNonce == r2.receivedMessageNonce
      ensures r1 == r2
    {
      var s := ChainOf(net, b);
      assert RestingAt(net, b);
      assert Genuine(b, s.receivedMessageNonces, s.relayerRewardAddresses, c, r1);
      assert Genuine(b, s.receivedMessageNonces, s.relayerRewardAddresses, c, r2);
    }
  }

  /**
   Queues are first in, first out: the receipts ever queued for a chain are the batches sent to it, in order, followed
   by what is queued now; a batch has at most five.
   */
  ghost predicate QueuesInOrder(net: Network) {
    && (forall b, c ::
          Enqueued(ChainOf(net, b).log, c) == Dispatched(ChainOf(net, b).log, c) + Held(ChainOf(net, b).receiptQueues, c))
    && (forall b, e :: e in ChainOf(net, b).log && e.Sent? && e.queued ==>
          |e.message.receipts| <= MAXIMUM_RECEIPT_COUNT)
  }

  lemma QueuesInOrderHolds(net: Network)
    requires NetworkOK(net)
    ensures QueuesInOrder(net)
  {
    forall b, c ensures
        Enqueued(ChainOf(net, b).log, c) == Dispatched(ChainOf(net, b).log, c) + Held(ChainOf(net, b).receiptQueues, c)
    {
      assert RestingAt(net, b);
      assert QueueAt(ChainOf(net, b).receiptQueues, ChainOf(net, b).log, c);
    }
    forall b, e | e in ChainOf(net, b).log && e.Sent? && e.queued
      ensures |e.message.receipts| <= MAXIMUM_RECEIPT_COUNT
    {
      assert RestingAt(net, b);
      assert EmittedAt(b, e);
    }
  }

  // ----- Fees -----

  /** The balance in a token is what was donated, the fees of outstanding messages and the rewards not redeemed. */
  ghost predicate FeesConserved(net: Network) {
    forall c, token ::
      var s := ChainOf(net, c);
      GetOr(s.balances, token, 0) == GetOr(s.donated, token, 0) + Sum(s.sentMessageInfo, FeeIn(token))
                                     + Sum(s.relayerRewardAmounts, RewardIn(token))
  }

  lemma FeesConservedHolds(net: Network)
    requires NetworkOK(net)
    ensures FeesConserved(net)
  {
    forall c, token ensures
        var s := ChainOf(net, c);
        GetOr(s.balances, token, 0) == GetOr(s.donated, token, 0) + Sum(s.sentMessageInfo, FeeIn(token))
                                       + Sum(s.relayerRewardAmounts, RewardIn(token))
    {
      assert RestingAt(net, c);
      var s := ChainOf(net, c);
      assert LedgerAt(s.balances, s.donated, s.sentMessageInfo, s.relayerRewardAmounts, token);
    }
  }

  /**
   The fee of a message is credited at most once, however often a receipt for it arrives, and it is outstanding until
   then.
   */
  ghost predicate CreditedOnce(net: Network) {
    forall c, id ::
      var s := ChainOf(net, c);
      && Times(s.log, Crediting, id) <= Times(s.log, Sending, id) <= 1
      && (Times(s.log, Sending, id) == 1 ==> (Times(s.log, Crediting, id) == 0 <==> id in s.sentMessageInfo))
  }

  lemma CreditedOnceHolds(net: Network)
    requires NetworkOK(net)
    ensures CreditedOnce(net)
  {
    forall c, id ensures
        var s := ChainOf(net, c);
        && Times(s.log, Crediting, id) <= Times(s.log, Sending, id) <= 1
        && (Times(s.log, Sending, id) == 1 ==> (Times(s.log, Crediting, id) == 0 <==> id in s.sentMessageInfo))
    {
      assert RestingAt(net, c);
      var s := ChainOf(net, c);
      assert SentAt(c, s.messageNonce, s.sentMessageInfo, s.log, id);
    }
  }

  /** What a relayer can redeem in a token is what it has earned in it, less what it has redeemed. */
  ghost predicate RewardsEarned(net: Network) {
    forall c, relayer, token ::
      var s := ChainOf(net, c);
      GetOr(s.relayerRewardAmounts, (relayer, token), 0) + PaidTo(s.log, relayer, token) == Earned(s.log, relayer, token)
  }

  lemma RewardsEarnedHolds(net: Network)
    requires NetworkOK(net)
    ensures RewardsEarned(net)
  {
    forall c, relayer, token ensures
        var s := ChainOf(net, c);
        GetOr(s.relayerRewardAmounts, (relayer, token), 0) + PaidTo(s.log, relayer, token)
        == Earned(s.log, relayer, token)
    {
      assert RestingAt(net, c);
      assert RewardAt(ChainOf(net, c).relayerRewardAmounts, ChainOf(net, c).log, relayer, token);
    }
  }

  /** A relayer's reward can always be paid. */
  ghost predicate RewardsPayable(net: Network) {
    forall c, relayer, token ::
      var s := ChainOf(net, c);
      Redeem(s, relayer, token).Ok? <==> GetOr(s.relayerRewardAmounts, (relayer, token), 0) > 0
  }

  lemma RewardsPayableHolds(net: Network)
    requires NetworkOK(net)
    ensures RewardsPayable(net)
  {
    forall c, relayer, token ensures
        var s := ChainOf(net, c);
        Redeem(s, relayer, token).Ok? <==> GetOr(s.relayerRewardAmounts, (relayer, token), 0) > 0
    {
      assert RestingAt(net, c);
      RewardCovered(ChainOf(net, c), (relayer, token));
    }
  }

  // ----- Message identity -----

  /** A send, by either call, takes an ID that was never used before, so it overwrites nothing. */
  ghost predicate IDsNeverReused(net: Network) {
    forall c, caller, call :: UsesFreshID(c, ChainOf(net, c), caller, call)
  }

  ghost predicate UsesFreshID(self: ChainID, s: Chain, caller: Address, call: Call) {
    match call
    case SendCrossChainMessage(input, received) =>
      var r := Send(self, s, caller, input, received);
      r.Ok? ==> r.value.1 !in s.sentMessageInfo && Times(s.log, Sending, r.value.1) == 0
    case SendSpecifiedReceipts(source, ids, feeInfo, allowed, received) =>
      var r := SendReceipts(self, s, caller, source, ids, feeInfo, allowed, received);
      r.Ok? ==> r.value.1 !in s.sentMessageInfo && Times(s.log, Sending, r.value.1) == 0
    case _ => true
  }

  lemma NextID(self: ChainID, s: Chain, caller: Address, call: Call)
    requires ChainOK(self, s, None)
    ensures UsesFreshID(self, s, caller, call)
  {
    match call {
      case SendCrossChainMessage(input, received) =>
        var r := Send(self, s, caller, input, received);
        if r.Ok? {
          NeverSent(self, s.messageNonce, s.sentMessageInfo, s.log, r.value.1);
        }
      case SendSpecifiedReceipts(source, ids, feeInfo, allowed, received) =>
        var r := SendReceipts(self, s, caller, source, ids, feeInfo, allowed, received);
        if r.Ok? {
          NeverSent(self, s.messageNonce, s.sentMessageInfo, s.log, r.value.1);
        }
      case _ =>
    }
  }

  lemma IDsNeverReusedHolds(net: Network)
    requires NetworkOK(net)
    ensures IDsNeverReused(net)
  {
    forall c, caller, call ensures UsesFreshID(c, ChainOf(net, c), caller, call) {
      assert RestingAt(net, c);
      NextID(c, ChainOf(net, c), caller, call);
    }
  }

  // ----- All promises -----

  ghost predicate Promises(net: Network) {
    && AtMostOnce(net)
    && ExecutedOrStored(net)
    && Authentic(net)
    && CreditsTrue(net)
    && ReceiptsAgree(net)
    && QueuesInOrder(net)
    && FeesConserved(net)
    && CreditedOnce(net)
    && RewardsEarned(net)
    && RewardsPayable(net)
    && IDsNeverReused(net)
  }

  /** Every run of every network keeps every promise. */
  lemma EveryRun(txs: seq<Transaction>)
    requires Legal(txs)
    ensures Promises(Run(txs))
  {
    RunKeeps(txs);
    var net := Run(txs);
    AtMostOnceHolds(net);
    ExecutedOrStoredHolds(net);
    AuthenticHolds(net);
    CreditsTrueHolds(net);
    ReceiptsAgreeHolds(net);
    QueuesInOrderHolds(net);
    FeesConservedHolds(net);
    CreditedOnceHolds(net);
    RewardsEarnedHolds(net);
    RewardsPayableHolds(net);
    IDsNeverReusedHolds(net);
  }
}
