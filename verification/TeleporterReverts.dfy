/**
 What a revert says. Whatever call reverts, its reason is true of the call and of the storage before it, and no call
 gives a reason that is not its own.
 */
module TeleporterReverts {
  import opened Wrappers
  import opened Numeric
  import opened ReceiptQueue
  import opened TeleporterSpec
  import opened TeleporterInvariants
  import opened TeleporterProofs
  import opened TeleporterAnswers
  import opened TeleporterDelivery

  /** Reasons not to send anything. */
  ghost predicate CannotSend(self: ChainID, s: Chain, fee: FeeInfo, received: nat, e: Error) {
    match e
    case SenderReentrancy => s.sendEntered
    case ZeroBlockchainID => self == 0
    case Panic => s.messageNonce >= MAX_UINT256
    case ZeroFeeAsset => fee.amount > 0 && fee.feeTokenAddress == 0
    case BalanceNotIncreased => fee.amount > 0 && received == 0
    case _ => false
  }

  /** Reasons not to send receipts by name. */
  ghost predicate CannotName(self: ChainID, s: Chain, source: ChainID, ids: seq<MessageID>, e: Error) {
    match e
    case ReceiptNotFound => exists i :: 0 <= i < |ids| && ids[i] !in s.receivedMessageNonces
    case MessageIDNotFromSource => exists i :: 0 <= i < |ids| && ids[i].source != source
    case _ => false
  }

  ghost predicate CannotRetrySend(self: ChainID, s: Chain, message: Message, e: Error) {
    var id := MessageID(self, message.destinationBlockchainID, message.messageNonce);
    match e
    case SenderReentrancy => s.sendEntered
    case MessageNotFound => id !in s.sentMessageInfo
    case InvalidMessageHash => id in s.sentMessageInfo && s.sentMessageInfo[id].message != message
    case _ => false
  }

  ghost predicate CannotAddFee(s: Chain, id: MessageID, token: Address, additional: nat, received: nat, e: Error) {
    match e
    case SenderReentrancy => s.sendEntered
    case ReceiverReentrancy => s.receiveEntered
    case ZeroAdditionalFee => additional == 0
    case ZeroFeeAsset => token == 0
    case MessageNotFound => id !in s.sentMessageInfo
    case InvalidFeeAsset => id in s.sentMessageInfo && s.sentMessageInfo[id].feeInfo.feeTokenAddress != token
    case BalanceNotIncreased => received == 0
    case Panic => id in s.sentMessageInfo && s.sentMessageInfo[id].feeInfo.amount + received > MAX_UINT256
    case _ => false
  }

  ghost predicate CannotReceive(self: ChainID, s: Chain, caller: Address, warp: Option<WarpMessage>, gasLeft: nat,
                                e: Error) {
    match e
    case ReceiverReentrancy => s.receiveEntered
    case InvalidWarpMessage => warp.None?
    case ZeroBlockchainID => self == 0
    case InvalidDestinationChainID => warp.Some? && warp.value.message.destinationBlockchainID != self
    case MessageAlreadyReceived =>
      warp.Some? && MessageID(warp.value.sourceChainID, self, warp.value.message.messageNonce) in s.receivedMessageNonces
    case UnauthorizedRelayer =>
      && warp.Some? && warp.value.message.allowedRelayerAddresses != []
      && caller !in warp.value.message.allowedRelayerAddresses
    case ZeroMessageNonce => warp.Some? && warp.value.message.messageNonce == 0
    case InsufficientGas =>
      warp.Some? && warp.value.message.payload != [] && gasLeft < warp.value.message.requiredGasLimit
    case _ => false
  }

  ghost predicate CannotRetry(self: ChainID, s: Chain, source: ChainID, message: Message, execution: Execution, e: Error) {
    var id := MessageID(source, self, message.messageNonce);
    match e
    case ReceiverReentrancy => s.receiveEntered
    case MessageNotFound => id !in s.receivedFailedMessageHashes
    case InvalidMessageHash => id in s.receivedFailedMessageHashes && s.receivedFailedMessageHashes[id] != message
    case NoCodeAtDestination => execution.NoCode?
    case RetryExecutionFailed => execution.Attempt? && !execution.success
    case _ => false
  }

  /** A reason not to make a call. */
  ghost predicate Reason(self: ChainID, s: Chain, caller: Address, call: Call, e: Error) {
    match call
    case SendCrossChainMessage(input, received) => CannotSend(self, s, input.feeInfo, received, e)
    case RetrySendCrossChainMessage(message) => CannotRetrySend(self, s, message, e)
    case AddFeeAmount(id, token, additional, received) => CannotAddFee(s, id, token, additional, received, e)
    case ReceiveCrossChainMessage(warp, _, gasLeft, _) => CannotReceive(self, s, caller, warp, gasLeft, e)
    case RetryMessageExecution(source, message, execution) => CannotRetry(self, s, source, message, execution, e)
    case SendSpecifiedReceipts(source, ids, fee, _, received) =>
      CannotSend(self, s, fee, received, e) || CannotName(self, s, source, ids, e)
    case RedeemRelayerRewards(token) => e == NoRewardToRedeem && GetOr(s.relayerRewardAmounts, (caller, token), 0) == 0
    case InitializeBlockchainID => e == ZeroBlockchainID && self == 0
    case Donate(_, _) => false
  }

  lemma SendReason(self: ChainID, s: Chain, caller: Address, input: MessageInput, receipts: seq<Receipt>,
                   received: Uint256, queued: bool)
    ensures var r := SendMessage(self, s, caller, input, receipts, received, queued);
            r.Revert? ==> CannotSend(self, s, input.feeInfo, received, r.error)
  {
  }

  lemma {:induction false} NameReason(self: ChainID, s: Chain, source: ChainID, ids: seq<MessageID>, n: nat)
    requires ChainOK(self, s, None) && n <= |ids|
    ensures var r := SpecifiedReceipts(s, source, ids, n);
            r.Revert? ==> CannotName(self, s, source, ids, r.error)
  {
    if n > 0 {
      NameReason(self, s, source, ids, n - 1);
      assert ReceivedAt(self, s.receivedMessageNonces, s.receivedFailedMessageHashes, s.relayerRewardAddresses, s.log,
                        None, ids[n - 1]);
    }
  }

  lemma RetrySendReason(self: ChainID, s: Chain, message: Message)
    requires ChainOK(self, s, None)
    ensures var r := RetrySend(s, message);
            r.Revert? ==> CannotRetrySend(self, s, message, r.error)
  {
    var id := MessageID(self, message.destinationBlockchainID, message.messageNonce);
    var own := MessageID(s.blockchainID, message.destinationBlockchainID, message.messageNonce);
    if id in s.sentMessageInfo {
      KnownIfSent(self, s, None, id);
    }
    if own in s.sentMessageInfo {
      KnownIfSent(self, s, None, own);
    }
  }

  lemma AcceptReason(self: ChainID, s: Chain, caller: Address, warp: WarpMessage, relayer: Address, gasLeft: nat)
    requires ChainOK(self, s, None) && BalancesFit(s)
    ensures var r := Accept(self, s, caller, warp, relayer);
            r.Revert? ==> CannotReceive(self, s, caller, Some(warp), gasLeft, r.error)
  {
    var m := warp.message;
    var id := MessageID(warp.sourceChainID, self, m.messageNonce);
    MarkingSucceeds(self, s, warp.sourceChainID, m.receipts, id, relayer);
    assert self != 0 ==> OwnID(self, s) == Ok(self);
  }

  lemma ReceiveStagesReason(self: ChainID, s: Chain, caller: Address, warp: WarpMessage, relayer: Address, gasLeft: nat,
                            execution: Execution, accepted: Result<(Chain, MessageID), Error>)
    requires accepted == Accept(self, s, caller, warp, relayer)
    ensures var r := Receive(self, s, caller, Some(warp), relayer, gasLeft, execution);
            r.Revert? ==>
              || (r.error == ReceiverReentrancy && s.receiveEntered)
              || (accepted.Revert? && r.error == accepted.error)
              || (r.error == InsufficientGas && warp.message.payload != [] && gasLeft < warp.message.requiredGasLimit)
  {
  }

  lemma ReceiveReason(self: ChainID, s: Chain, caller: Address, warp: Option<WarpMessage>, relayer: Address, gasLeft: nat,
                      execution: Execution)
    requires ChainOK(self, s, None) && BalancesFit(s)
    ensures var r := Receive(self, s, caller, warp, relayer, gasLeft, execution);
            r.Revert? ==> CannotReceive(self, s, caller, warp, gasLeft, r.error)
  {
    if warp.Some? {
      AcceptReason(self, s, caller, warp.value, relayer, gasLeft);
      ReceiveStagesReason(self, s, caller, warp.value, relayer, gasLeft, execution,
                          Accept(self, s, caller, warp.value, relayer));
    }
  }

  lemma RetryReason(self: ChainID, s: Chain, source: ChainID, message: Message, execution: Execution)
    requires ChainOK(self, s, None)
    ensures var r := RetryExecution(self, s, source, message, execution);
            r.Revert? ==> CannotRetry(self, s, source, message, execution, r.error)
  {
    KnownIfStored(self, s, MessageID(source, self, message.messageNonce));
    KnownIfStored(self, s, MessageID(source, s.blockchainID, message.messageNonce));
  }

  /** Every revert has a true reason. */
  lemma RevertsForReason(self: ChainID, s: Chain, caller: Address, call: Call)
    requires ChainOK(self, s, None) && BalancesFit(s)
    ensures var r := Do(self, s, caller, call);
            r.Revert? ==> Reason(self, s, caller, call, r.error)
  {
    match call {
      case SendCrossChainMessage(input, received) =>
        var to := input.destinationBlockchainID;
        var (batch, rest) := OutstandingReceipts(GetOr(s.receiptQueues, to, EMPTY));
        SendReason(self, s.(receiptQueues := s.receiptQueues[to := rest]), caller, input, batch, received, true);
      case SendSpecifiedReceipts(source, ids, fee, allowed, received) =>
        NameReason(self, s, source, ids, |ids|);
        var receipts := SpecifiedReceipts(s, source, ids, |ids|);
        if receipts.Ok? {
          SendReason(self, s, caller, MessageInput(source, 0, fee, 0, allowed, []), receipts.value, received, false);
        }
      case RetrySendCrossChainMessage(message) => RetrySendReason(self, s, message);
      case ReceiveCrossChainMessage(warp, relayer, gasLeft, execution) =>
        ReceiveReason(self, s, caller, warp, relayer, gasLeft, execution);
      case RetryMessageExecution(source, message, execution) => RetryReason(self, s, source, message, execution);
      case RedeemRelayerRewards(token) => RewardCovered(s, (caller, token));
      case _ =>
    }
  }
}
