/** What every reachable state of one messenger satisfies. */
module TeleporterInvariants {
  import opened Wrappers
  import opened MapSum
  import opened ReceiptQueue
  import opened TeleporterSpec

  // ----- Counting events -----

  datatype Kind = Sending | Receiving | Executing | Crediting

  predicate Is(e: Event, kind: Kind, id: MessageID) {
    match kind
    case Sending => e.Sent? && e.id == id
    case Receiving => e.Received? && e.id == id
    case Executing => e.Executed? && e.id == id
    case Crediting => e.ReceiptReceived? && e.id == id
  }

  /** How often something happened to a message. */
  function Times(log: seq<Event>, kind: Kind, id: MessageID): nat {
    if log == [] then 0
    else Times(log[..|log| - 1], kind, id) + (if Is(log[|log| - 1], kind, id) then 1 else 0)
  }

  /** The receipts put into the queue for a chain, in order. */
  function Enqueued(log: seq<Event>, c: ChainID): seq<Receipt> {
    if log == [] then []
    else
      var e := log[|log| - 1];
      Enqueued(log[..|log| - 1], c)
      + if e.Received? && e.id.source == c then [Receipt(e.id.nonce, e.relayer)] else []
  }

  /** The batches sent to a chain, put together in order. */
  function Dispatched(log: seq<Event>, c: ChainID): seq<Receipt> {
    if log == [] then []
    else
      var e := log[|log| - 1];
      Dispatched(log[..|log| - 1], c)
      + if e.Sent? && e.queued && e.id.destination == c then e.message.receipts else []
  }

  // ----- Sent messages -----

  ghost predicate SentAt(
    self: ChainID, nonce: nat, sent: map<MessageID, SentMessageInfo>, log: seq<Event>, id: MessageID)
  {
    && Times(log, Sending, id) == Times(log, Crediting, id) + (if id in sent then 1 else 0)
    && Times(log, Sending, id) <= 1
    && (Times(log, Sending, id) > 0 ==> id.source == self && 1 <= id.nonce <= nonce)
    && (id in sent ==> && sent[id].message.messageNonce == id.nonce
                       && sent[id].message.destinationBlockchainID == id.destination)
  }

  ghost predicate SentOK(self: ChainID, nonce: nat, sent: map<MessageID, SentMessageInfo>, log: seq<Event>) {
    forall id :: SentAt(self, nonce, sent, log, id)
  }

  /** Every event that hands a message to the precompile names it by its own nonce and destination. */
  ghost predicate EmittedAt(self: ChainID, e: Event) {
    && (e.Sent? ==> && e.id == MessageID(self, e.message.destinationBlockchainID, e.message.messageNonce)
                    && e.message.messageNonce > 0
                    && (e.queued ==> |e.message.receipts| <= MAXIMUM_RECEIPT_COUNT))
  }

  ghost predicate EmittedOK(self: ChainID, sent: map<MessageID, SentMessageInfo>, log: seq<Event>) {
    && (forall e :: e in log ==> EmittedAt(self, e))
    && (forall id :: id in sent ==> SentLogged(sent[id].message, id, log))
    && (forall e :: e in log && e.Resent? ==> SentLogged(e.message, e.id, log))
  }

  /** The message was sent under this ID. */
  ghost predicate SentLogged(message: Message, id: MessageID, log: seq<Event>) {
    exists queued :: Sent(id, message, queued) in log
  }

  // ----- Received messages -----

  /**
   A message is received at most once. Once its delivery is over it has been executed, or is stored for a retry, and
   never both; a message without payload neither. During its delivery (`open`) it is neither yet.
   */
  ghost predicate ReceivedAt(
    self: ChainID, received: map<MessageID, nat>, failed: map<MessageID, Message>, addresses: map<MessageID, Address>,
    log: seq<Event>, open: Option<MessageID>, id: MessageID)
  {
    && Times(log, Receiving, id) == (if id in received then 1 else 0)
    && (id in received ==> received[id] == id.nonce != 0 && id.destination == self)
    && (id in addresses ==> id in received && addresses[id] != 0)
    && Times(log, Executing, id) + (if id in failed then 1 else 0) <= Times(log, Receiving, id)
    && (open == Some(id) ==> id in received && Times(log, Executing, id) == 0 && id !in failed)
  }

  ghost predicate DeliveryAt(
    failed: map<MessageID, Message>, addresses: map<MessageID, Address>, log: seq<Event>, open: Option<MessageID>,
    e: Event)
  {
    e.Received? ==>
      && e.relayer == GetOr(addresses, e.id, 0)
      && e.message.messageNonce == e.id.nonce && e.message.destinationBlockchainID == e.id.destination
      && (e.id in failed ==> failed[e.id] == e.message)
      && (open != Some(e.id) ==>
            Times(log, Executing, e.id) + (if e.id in failed then 1 else 0) == if e.message.payload == [] then 0 else 1)
  }

  ghost predicate ReceivedOK(
    self: ChainID, received: map<MessageID, nat>, failed: map<MessageID, Message>, addresses: map<MessageID, Address>,
    log: seq<Event>, open: Option<MessageID>)
  {
    && (forall id :: ReceivedAt(self, received, failed, addresses, log, open, id))
    && (forall e :: e in log ==> DeliveryAt(failed, addresses, log, open, e))
  }

  // ----- Fees -----

  ghost function FeeIn(token: Address): (MessageID, SentMessageInfo) -> nat {
    (_: MessageID, info: SentMessageInfo) => if info.feeInfo.feeTokenAddress == token then info.feeInfo.amount else 0
  }

  ghost function RewardIn(token: Address): ((Address, Address), nat) -> nat {
    (key: (Address, Address), amount: nat) => if key.1 == token then amount else 0
  }

  /** The balance in a token is what was donated, the fees of outstanding messages, and the rewards not redeemed. */
  ghost predicate LedgerAt(
    balances: map<Address, nat>, donated: map<Address, nat>, sent: map<MessageID, SentMessageInfo>,
    rewards: map<(Address, Address), nat>, token: Address)
  {
    GetOr(balances, token, 0) == GetOr(donated, token, 0) + Sum(sent, FeeIn(token)) + Sum(rewards, RewardIn(token))
  }

  ghost predicate LedgerOK(
    balances: map<Address, nat>, donated: map<Address, nat>, sent: map<MessageID, SentMessageInfo>,
    rewards: map<(Address, Address), nat>)
  {
    forall token :: LedgerAt(balances, donated, sent, rewards, token)
  }

  /** What a relayer has earned in a token: the fees credited to it. */
  function Earned(log: seq<Event>, relayer: Address, token: Address): nat {
    if log == [] then 0
    else
      var e := log[|log| - 1];
      Earned(log[..|log| - 1], relayer, token)
      + if e.ReceiptReceived? && e.relayer == relayer && e.feeInfo.feeTokenAddress == token then e.feeInfo.amount else 0
  }

  /** What a relayer has redeemed in a token. */
  function PaidTo(log: seq<Event>, relayer: Address, token: Address): nat {
    if log == [] then 0
    else
      var e := log[|log| - 1];
      PaidTo(log[..|log| - 1], relayer, token)
      + if e.Redeemed? && e.relayer == relayer && e.token == token then e.amount else 0
  }

  /** A relayer's reward is what it earned and has not redeemed. */
  ghost predicate RewardAt(rewards: map<(Address, Address), nat>, log: seq<Event>, relayer: Address, token: Address) {
    GetOr(rewards, (relayer, token), 0) + PaidTo(log, relayer, token) == Earned(log, relayer, token)
  }

  ghost predicate RewardsOK(rewards: map<(Address, Address), nat>, log: seq<Event>) {
    forall relayer, token :: RewardAt(rewards, log, relayer, token)
  }

  // ----- Receipts -----

  /** The receipts queued for a chain. */
  function Held(queues: map<ChainID, Queue>, c: ChainID): seq<Receipt> {
    Contents(GetOr(queues, c, EMPTY))
  }

  /** What was put into a queue is what was dispatched from it followed by what is in it. */
  ghost predicate QueueAt(queues: map<ChainID, Queue>, log: seq<Event>, c: ChainID) {
    Valid(GetOr(queues, c, EMPTY)) && Enqueued(log, c) == Dispatched(log, c) + Held(queues, c)
  }

  ghost predicate QueuesOK(queues: map<ChainID, Queue>, log: seq<Event>) {
    forall c :: QueueAt(queues, log, c)
  }

  /** A receipt for a chain names a message received from it and the relayer recorded for that message. */
  ghost predicate Genuine(
    self: ChainID, received: map<MessageID, nat>, addresses: map<MessageID, Address>, c: ChainID, r: Receipt)
  {
    var id := MessageID(c, self, r.receivedMessageNonce);
    id in received && r.relayerRewardAddress == GetOr(addresses, id, 0)
  }

  ghost predicate ReceiptsOK(
    self: ChainID, received: map<MessageID, nat>, addresses: map<MessageID, Address>,
    queues: map<ChainID, Queue>, log: seq<Event>)
  {
    && (forall c, r :: r in Held(queues, c) ==> Genuine(self, received, addresses, c, r))
    && (forall e, r :: e in log && e.Sent? && r in e.message.receipts ==>
                         Genuine(self, received, addresses, e.id.destination, r))
  }

  // ----- One messenger -----

  ghost predicate ChainOK(self: ChainID, s: Chain, open: Option<MessageID>) {
    && (s.blockchainID == 0 || s.blockchainID == self)
    && (s.messageNonce > 0 || s.receivedMessageNonces != map[] ==> s.blockchainID == self)
    && SentOK(self, s.messageNonce, s.sentMessageInfo, s.log)
    && EmittedOK(self, s.sentMessageInfo, s.log)
    && ReceivedOK(self, s.receivedMessageNonces, s.receivedFailedMessageHashes, s.relayerRewardAddresses, s.log, open)
    && LedgerOK(s.balances, s.donated, s.sentMessageInfo, s.relayerRewardAmounts)
    && RewardsOK(s.relayerRewardAmounts, s.log)
    && QueuesOK(s.receiptQueues, s.log)
    && ReceiptsOK(self, s.receivedMessageNonces, s.relayerRewardAddresses, s.receiptQueues, s.log)
  }

  /** At rest: no call is in progress. */
  ghost predicate AtRest(s: Chain) {
    !s.sendEntered && !s.receiveEntered
  }

  /** A later state: events are only added, and a record of a received message stays. */
  ghost predicate Later(s: Chain, t: Chain) {
    && s.log <= t.log
    && (forall id :: id in s.receivedMessageNonces ==>
          && id in t.receivedMessageNonces
          && GetOr(t.relayerRewardAddresses, id, 0) == GetOr(s.relayerRewardAddresses, id, 0))
  }

  /** What a message being executed cannot touch: the receiving side. */
  ghost predicate SameReceiving(s: Chain, t: Chain) {
    && t.receivedMessageNonces == s.receivedMessageNonces
    && t.receivedFailedMessageHashes == s.receivedFailedMessageHashes
    && t.relayerRewardAddresses == s.relayerRewardAddresses
    && t.receiveEntered == s.receiveEntered && t.sendEntered == s.sendEntered
  }
}
