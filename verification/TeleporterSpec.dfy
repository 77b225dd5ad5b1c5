/**
 The cross-chain messenger on one chain: its storage, and its calls as functions that return the new storage or the
 reason to revert. A message that is executed may call the messenger again; what its target does is a script.
 */
module TeleporterSpec {
  import opened Wrappers
  import opened Numeric
  import opened ReceiptQueue

  type ChainID = nat

  /**
   A message ID is the Keccak hash of the messenger's address, the source, the destination and the nonce. Hashes are
   taken to be injective, so an ID is represented by what was hashed; the address is the same on all chains.
   */
  datatype MessageID = MessageID(source: ChainID, destination: ChainID, nonce: nat)

  datatype Message = Message(
    messageNonce: nat,
    originSenderAddress: Address,
    destinationBlockchainID: ChainID,
    destinationAddress: Address,
    requiredGasLimit: nat,
    allowedRelayerAddresses: seq<Address>,
    receipts: seq<Receipt>,
    payload: seq<Byte>)

  datatype FeeInfo = FeeInfo(feeTokenAddress: Address, amount: nat)

  datatype MessageInput = MessageInput(
    destinationBlockchainID: ChainID,
    destinationAddress: Address,
    feeInfo: FeeInfo,
    requiredGasLimit: nat,
    allowedRelayerAddresses: seq<Address>,
    payload: seq<Byte>)

  /** What is kept of a sent message; the hash of the message is represented by the message. */
  datatype SentMessageInfo = SentMessageInfo(message: Message, feeInfo: FeeInfo)

  /** A message of this messenger on another chain, as the Warp precompile vouches for it. */
  datatype WarpMessage = WarpMessage(sourceChainID: ChainID, message: Message)

  datatype Event =
    /** A message sent; `queued` when its receipts were taken from the queue rather than named by the caller. */
    | Sent(id: MessageID, message: Message, queued: bool)
    | Resent(id: MessageID, message: Message)
    | FeeAdded(id: MessageID, amount: nat)
    | ReceiptReceived(id: MessageID, relayer: Address, feeInfo: FeeInfo)
    | Received(id: MessageID, message: Message, relayer: Address)
    | Executed(id: MessageID)
    | ExecutionFailed(id: MessageID)
    | Redeemed(relayer: Address, token: Address, amount: nat)

  /** The storage of the messenger, its token balances with what was donated of them, and the events so far. */
  datatype Chain = Chain(
    blockchainID: ChainID,
    messageNonce: nat,
    receiptQueues: map<ChainID, Queue>,
    sentMessageInfo: map<MessageID, SentMessageInfo>,
    receivedFailedMessageHashes: map<MessageID, Message>,
    receivedMessageNonces: map<MessageID, nat>,
    relayerRewardAddresses: map<MessageID, Address>,
    relayerRewardAmounts: map<(Address, Address), nat>,
    sendEntered: bool,
    receiveEntered: bool,
    balances: map<Address, nat>,
    donated: map<Address, nat>,
    log: seq<Event>)

  const DEPLOYED := Chain(0, 0, map[], map[], map[], map[], map[], map[], false, false, map[], map[], [])

  datatype Error =
    | Panic
    | SenderReentrancy
    | ReceiverReentrancy
    | ZeroBlockchainID
    | ZeroFeeAsset
    | BalanceNotIncreased
    | MessageNotFound
    | InvalidMessageHash
    | ZeroAdditionalFee
    | InvalidFeeAsset
    | InvalidWarpMessage
    | InvalidDestinationChainID
    | MessageAlreadyReceived
    | UnauthorizedRelayer
    | ZeroMessageNonce
    | InsufficientGas
    | NoCodeAtDestination
    | RetryExecutionFailed
    | ReceiptNotFound
    | MessageIDNotFromSource
    | NoRewardToRedeem
    | TokenTransferFailed

  /**
   The calls. `received` is the measured increase of the messenger's balance in the fee token; `gasLeft` is the gas left
   when a message is about to be executed; an execution says what the target of a message does.
   */
  datatype Call =
    | SendCrossChainMessage(input: MessageInput, received: Uint256)
    | RetrySendCrossChainMessage(message: Message)
    | AddFeeAmount(messageID: MessageID, token: Address, additionalFeeAmount: nat, received: Uint256)
    | ReceiveCrossChainMessage(warp: Option<WarpMessage>, relayerRewardAddress: Address, gasLeft: nat,
                               execution: Execution)
    | RetryMessageExecution(sourceBlockchainID: ChainID, message: Message, execution: Execution)
    | SendSpecifiedReceipts(sourceBlockchainID: ChainID, messageIDs: seq<MessageID>, feeInfo: FeeInfo,
                            allowedRelayerAddresses: seq<Address>, received: Uint256)
    | RedeemRelayerRewards(feeAsset: Address)
    | InitializeBlockchainID
    /** Somebody transfers tokens to the messenger outside of it. */
    | Donate(token: Address, amount: nat)

  /** The target has no code, or it makes calls of its own and then succeeds or fails. */
  datatype Execution = NoCode | Attempt(script: Script, success: bool)

  datatype Script = Stop | Then(caller: Address, call: Call, rest: Script)

  // ----- Sending -----

  /** The stored chain ID; on first use it is taken from the precompile. */
  function OwnID(self: ChainID, s: Chain): Result<ChainID, Error> {
    if s.blockchainID != 0 then Ok(s.blockchainID)
    else
      var _ :- Require(self != 0, ZeroBlockchainID);
      Ok(self)
  }

  function Log(s: Chain, e: Event): Chain {
    s.(log := s.log + [e])
  }

  function Credited(balances: map<Address, nat>, token: Address, amount: nat): map<Address, nat> {
    balances[token := GetOr(balances, token, 0) + amount]
  }

  /** The fee that a sender hands over. */
  function FeePaid(feeInfo: FeeInfo, received: Uint256): Result<nat, Error> {
    if feeInfo.amount == 0 then Ok(0)
    else
      var _ :- Require(feeInfo.feeTokenAddress != 0, ZeroFeeAsset);
      var _ :- Require(received > 0, BalanceNotIncreased);
      Ok(received)
  }

  function SendMessage(
    self: ChainID, s: Chain, caller: Address, input: MessageInput, receipts: seq<Receipt>, received: Uint256,
    queued: bool)
    : Result<(Chain, MessageID), Error>
  {
    var own :- OwnID(self, s);
    var nonce :- Checked256(s.messageNonce + 1, Panic);
    var id := MessageID(own, input.destinationBlockchainID, nonce);
    var message := Message(nonce, caller, input.destinationBlockchainID, input.destinationAddress,
                           input.requiredGasLimit, input.allowedRelayerAddresses, receipts, input.payload);
    var fee :- FeePaid(input.feeInfo, received);
    var token := input.feeInfo.feeTokenAddress;
    Ok((s.(blockchainID := own, messageNonce := nonce,
           balances := Credited(s.balances, token, fee),
           sentMessageInfo := s.sentMessageInfo[id := SentMessageInfo(message, FeeInfo(token, fee))],
           log := s.log + [Sent(id, message, queued)]),
        id))
  }

  function Send(self: ChainID, s: Chain, caller: Address, input: MessageInput, received: Uint256)
    : Result<(Chain, MessageID), Error>
  {
    var _ :- Require(!s.sendEntered, SenderReentrancy);
    var to := input.destinationBlockchainID;
    var (batch, rest) := OutstandingReceipts(GetOr(s.receiptQueues, to, EMPTY));
    SendMessage(self, s.(receiptQueues := s.receiptQueues[to := rest]), caller, input, batch, received, true)
  }

  function RetrySend(s: Chain, message: Message): Result<Chain, Error> {
    var _ :- Require(!s.sendEntered, SenderReentrancy);
    var id := MessageID(s.blockchainID, message.destinationBlockchainID, message.messageNonce);
    var _ :- Require(id in s.sentMessageInfo, MessageNotFound);
    var _ :- Require(message == s.sentMessageInfo[id].message, InvalidMessageHash);
    Ok(Log(s, Resent(id, message)))
  }

  function AddFee(s: Chain, id: MessageID, token: Address, additional: nat, received: Uint256): Result<Chain, Error> {
    var _ :- Require(!s.sendEntered, SenderReentrancy);
    var _ :- Require(!s.receiveEntered, ReceiverReentrancy);
    var _ :- Require(additional > 0, ZeroAdditionalFee);
    var _ :- Require(token != 0, ZeroFeeAsset);
    var _ :- Require(id in s.sentMessageInfo, MessageNotFound);
    var info := s.sentMessageInfo[id];
    var _ :- Require(info.feeInfo.feeTokenAddress == token, InvalidFeeAsset);
    var _ :- Require(received > 0, BalanceNotIncreased);
    var amount :- Checked256(info.feeInfo.amount + received, Panic);
    Ok(Log(s.(balances := Credited(s.balances, token, received),
              sentMessageInfo := s.sentMessageInfo[id := info.(feeInfo := FeeInfo(token, amount))]),
           FeeAdded(id, received)))
  }

  /** The receipts of the first `n` of the messages named by a caller. */
  function SpecifiedReceipts(s: Chain, source: ChainID, ids: seq<MessageID>, n: nat): Result<seq<Receipt>, Error>
    requires n <= |ids|
  {
    if n == 0 then Ok([])
    else
      var receipts :- SpecifiedReceipts(s, source, ids, n - 1);
      var id := ids[n - 1];
      var nonce := GetOr(s.receivedMessageNonces, id, 0);
      var _ :- Require(nonce != 0, ReceiptNotFound);
      var _ :- Require(id == MessageID(source, s.blockchainID, nonce), MessageIDNotFromSource);
      Ok(receipts + [Receipt(nonce, GetOr(s.relayerRewardAddresses, id, 0))])
  }

  function SendReceipts(
    self: ChainID, s: Chain, caller: Address, source: ChainID, ids: seq<MessageID>, feeInfo: FeeInfo,
    allowedRelayers: seq<Address>, received: Uint256)
    : Result<(Chain, MessageID), Error>
  {
    var _ :- Require(!s.sendEntered, SenderReentrancy);
    var receipts :- SpecifiedReceipts(s, source, ids, |ids|);
    SendMessage(self, s, caller, MessageInput(source, 0, feeInfo, 0, allowedRelayers, []), receipts, received, false)
  }

  function Redeem(s: Chain, caller: Address, token: Address): Result<Chain, Error> {
    var reward := GetOr(s.relayerRewardAmounts, (caller, token), 0);
    var balance := GetOr(s.balances, token, 0);
    var _ :- Require(reward > 0, NoRewardToRedeem);
    var _ :- Require(reward <= balance, TokenTransferFailed);
    Ok(Log(s.(relayerRewardAmounts := s.relayerRewardAmounts - {(caller, token)},
              balances := s.balances[token := balance - reward]),
           Redeemed(caller, token, reward)))
  }

  // ----- Receiving -----

  predicate AllowedRelayer(deliverer: Address, allowed: seq<Address>) {
    allowed == [] || deliverer in allowed
  }

  /** A receipt credits the fee of a message that is still outstanding; any other receipt is ignored. */
  function MarkReceipt(s: Chain, destination: ChainID, receipt: Receipt): Result<Chain, Error> {
    var id := MessageID(s.blockchainID, destination, receipt.receivedMessageNonce);
    if id !in s.sentMessageInfo then Ok(s)
    else
      var fee, relayer := s.sentMessageInfo[id].feeInfo, receipt.relayerRewardAddress;
      var key := (relayer, fee.feeTokenAddress);
      var amount :- Checked256(GetOr(s.relayerRewardAmounts, key, 0) + fee.amount, Panic);
      Ok(Log(s.(sentMessageInfo := s.sentMessageInfo - {id},
                relayerRewardAmounts := s.relayerRewardAmounts[key := amount]),
             ReceiptReceived(id, relayer, fee)))
  }

  function MarkReceipts(s: Chain, destination: ChainID, receipts: seq<Receipt>, n: nat): Result<Chain, Error>
    requires n <= |receipts|
  {
    if n == 0 then Ok(s)
    else
      var s1 :- MarkReceipts(s, destination, receipts, n - 1);
      MarkReceipt(s1, destination, receipts[n - 1])
  }

  /** Everything that receiving does before the message is executed; the guard is set. */
  function Accept(self: ChainID, s: Chain, caller: Address, warp: WarpMessage, relayer: Address)
    : Result<(Chain, MessageID), Error>
  {
    var m := warp.message;
    var own :- OwnID(self, s);
    var _ :- Require(m.destinationBlockchainID == own, InvalidDestinationChainID);
    var id := MessageID(warp.sourceChainID, own, m.messageNonce);
    var _ :- Require(GetOr(s.receivedMessageNonces, id, 0) == 0, MessageAlreadyReceived);
    var _ :- Require(AllowedRelayer(caller, m.allowedRelayerAddresses), UnauthorizedRelayer);
    var _ :- Require(m.messageNonce != 0, ZeroMessageNonce);
    var s2 := s.(
      blockchainID := own,
      receiveEntered := true,
      receivedMessageNonces := s.receivedMessageNonces[id := m.messageNonce],
      relayerRewardAddresses :=
        if relayer != 0 then s.relayerRewardAddresses[id := relayer] else s.relayerRewardAddresses);
    var s3 :- MarkReceipts(s2, warp.sourceChainID, m.receipts, |m.receipts|);
    var queue := GetOr(s3.receiptQueues, warp.sourceChainID, EMPTY);
    Ok((Log(s3.(receiptQueues := s3.receiptQueues[
                  warp.sourceChainID := Enqueue(queue, Receipt(m.messageNonce, relayer))]),
            Received(id, m, relayer)),
        id))
  }

  function StoreFailed(s: Chain, id: MessageID, message: Message): Chain {
    Log(s.(receivedFailedMessageHashes := s.receivedFailedMessageHashes[id := message]), ExecutionFailed(id))
  }

  /** The first execution. A target that fails leaves nothing behind but the stored message. */
  function Execute(self: ChainID, s: Chain, id: MessageID, message: Message, execution: Execution): Chain
    decreases execution, 0
  {
    match execution
    case NoCode => StoreFailed(s, id, message)
    case Attempt(script, success) =>
      if success then Log(Perform(self, s, script), Executed(id)) else StoreFailed(s, id, message)
  }

  /** The first execution, if the deliverer left the gas that the sender asked for. */
  function HandleInitialExecution(
    self: ChainID, s: Chain, id: MessageID, message: Message, gasLeft: nat, execution: Execution)
    : Result<Chain, Error>
    decreases execution, 1
  {
    var _ :- Require(gasLeft >= message.requiredGasLimit, InsufficientGas);
    Ok(Execute(self, s, id, message, execution))
  }

  function Receive(
    self: ChainID, s: Chain, caller: Address, warp: Option<WarpMessage>, relayer: Address, gasLeft: nat,
    execution: Execution)
    : Result<Chain, Error>
    decreases execution, 2
  {
    var _ :- Require(!s.receiveEntered, ReceiverReentrancy);
    var _ :- Require(warp.Some?, InvalidWarpMessage);
    var (s1, id) :- Accept(self, s, caller, warp.value, relayer);
    var m := warp.value.message;
    var s2 :- if m.payload == [] then Ok(s1) else HandleInitialExecution(self, s1, id, m, gasLeft, execution);
    Ok(s2.(receiveEntered := false))
  }

  function RetryExecution(self: ChainID, s: Chain, source: ChainID, message: Message, execution: Execution)
    : Result<Chain, Error>
    decreases execution
  {
    var _ :- Require(!s.receiveEntered, ReceiverReentrancy);
    var id := MessageID(source, s.blockchainID, message.messageNonce);
    var _ :- Require(id in s.receivedFailedMessageHashes, MessageNotFound);
    var _ :- Require(message == s.receivedFailedMessageHashes[id], InvalidMessageHash);
    var _ :- Require(execution.Attempt?, NoCodeAtDestination);
    var s1 := Log(s.(receiveEntered := true, receivedFailedMessageHashes := s.receivedFailedMessageHashes - {id}),
                  Executed(id));
    var s2 := Perform(self, s1, execution.script);
    var _ :- Require(execution.success, RetryExecutionFailed);
    Ok(s2.(receiveEntered := false))
  }

  // ----- Calls and scripts -----

  function Do(self: ChainID, s: Chain, caller: Address, call: Call): Result<Chain, Error>
    decreases call
  {
    match call
    case SendCrossChainMessage(input, received) =>
      var (s1, _) :- Send(self, s, caller, input, received);
      Ok(s1)
    case RetrySendCrossChainMessage(message) => RetrySend(s, message)
    case AddFeeAmount(id, token, additional, received) => AddFee(s, id, token, additional, received)
    case ReceiveCrossChainMessage(warp, relayer, gasLeft, execution) =>
      Receive(self, s, caller, warp, relayer, gasLeft, execution)
    case RetryMessageExecution(source, message, execution) => RetryExecution(self, s, source, message, execution)
    case SendSpecifiedReceipts(source, ids, feeInfo, allowedRelayers, received) =>
      var (s1, _) :- SendReceipts(self, s, caller, source, ids, feeInfo, allowedRelayers, received);
      Ok(s1)
    case RedeemRelayerRewards(token) => Redeem(s, caller, token)
    case InitializeBlockchainID =>
      var own :- OwnID(self, s);
      Ok(s.(blockchainID := own))
    case Donate(token, amount) =>
      Ok(s.(donated := Credited(s.donated, token, amount), balances := Credited(s.balances, token, amount)))
  }

  /** A target makes its calls one after the other; a call that reverts changes nothing and the next one follows. */
  function Perform(self: ChainID, s: Chain, script: Script): Chain
    decreases script
  {
    match script
    case Stop => s
    case Then(caller, call, rest) =>
      var s1 := match Do(self, s, caller, call) case Ok(t) => t case Revert(_) => s;
      Perform(self, s1, rest)
  }
}
