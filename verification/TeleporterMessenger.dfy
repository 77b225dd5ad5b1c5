/**
 The cross-chain messenger as the contract it is: an object that updates its storage step by step, takes its reentrancy
 guards, and may be called again by the target of a message. Every method is proved against `TeleporterSpec`.
 */
module TeleporterMessenger {
  import opened Wrappers
  import opened Numeric
  import opened ReceiptQueue
  import opened TeleporterSpec
  import opened TeleporterInvariants
  import opened TeleporterCalls
  import TeleporterNetwork

  /** A step that agrees with its specification on success, on the reason to revert, and on the new state. */
  ghost predicate Follows(r: Result<(), Error>, spec: Result<Chain, Error>, after: Chain) {
    match spec
    case Ok(s) => r.Ok? && after == s
    case Revert(e) => r == Revert(e)
  }

  /** The same for a step that also returns a message ID. */
  ghost predicate FollowsWithID(r: Result<MessageID, Error>, spec: Result<(Chain, MessageID), Error>, after: Chain) {
    match spec
    case Ok((s, id)) => r == Ok(id) && after == s
    case Revert(e) => r == Revert(e)
  }

  /** Whether a deliverer is among the allowed relayers; an empty list allows everybody. */
  method CheckIsAllowedRelayer(deliverer: Address, allowedRelayers: seq<Address>) returns (allowed: bool)
    ensures allowed <==> |allowedRelayers| == 0 || exists i :: 0 <= i < |allowedRelayers| && allowedRelayers[i] == deliverer
    ensures allowed == AllowedRelayer(deliverer, allowedRelayers)
  {
    if |allowedRelayers| == 0 {
      return true;
    }
    var i := 0;
    while i < |allowedRelayers|
      invariant 0 <= i <= |allowedRelayers|
      invariant deliverer !in allowedRelayers[..i]
    {
      if allowedRelayers[i] == deliverer {
        return true;
      }
      i := i + 1;
    }
    assert allowedRelayers[..i] == allowedRelayers;
    return false;
  }

  /** Sending a message takes no notice of the guard. */
  lemma SendUnderGuard(self: ChainID, s: Chain, caller: Address, input: MessageInput, receipts: seq<Receipt>,
                       received: Uint256, queued: bool)
    requires !s.sendEntered
    ensures var plain := SendMessage(self, s, caller, input, receipts, received, queued);
            var guarded := SendMessage(self, s.(sendEntered := true), caller, input, receipts, received, queued);
            match plain
            case Ok((t, id)) => guarded == Ok((t.(sendEntered := true), id)) && !t.sendEntered
            case Revert(e) => guarded == Revert(e)
  {
    assert OwnID(self, s.(sendEntered := true)) == OwnID(self, s);
  }

  lemma {:induction false} SpecifiedUnderGuard(s: Chain, source: ChainID, ids: seq<MessageID>, n: nat)
    requires n <= |ids|
    ensures SpecifiedReceipts(s.(sendEntered := true), source, ids, n) == SpecifiedReceipts(s, source, ids, n)
  {
    if n > 0 {
      SpecifiedUnderGuard(s, source, ids, n - 1);
    }
  }

  class Messenger {
    /** The ID that the precompile reports for this chain. */
    const self: ChainID

    /** The storage of the contract, its token balances, and the events it has emitted. */
    var state: Chain

    constructor (chainID: ChainID)
      ensures self == chainID && state == DEPLOYED && ChainOK(self, state, None) && AtRest(state)
    {
      self := chainID;
      state := DEPLOYED;
      TeleporterNetwork.DeployedOK(chainID);
    }

    // ----- Receipt queues -----

    method EnqueueReceipt(c: ChainID, receipt: Receipt)
      modifies this
      ensures state == old(state).(receiptQueues := old(state).receiptQueues[
                         c := Enqueue(GetOr(old(state).receiptQueues, c, EMPTY), receipt)])
    {
      var q := GetOr(state.receiptQueues, c, EMPTY);
      q := q.(data := q.data[q.last := receipt]);
      q := q.(last := q.last + 1);
      state := state.(receiptQueues := state.receiptQueues[c := q]);
    }

    method DequeueReceipt(c: ChainID) returns (r: Result<Receipt, QueueError>)
      modifies this
      ensures var q := GetOr(old(state).receiptQueues, c, EMPTY);
              match Dequeue(q)
              case Ok((receipt, rest)) =>
                && r == Ok(receipt) && state == old(state).(receiptQueues := state.receiptQueues)
                && state.receiptQueues == old(state).receiptQueues[c := rest]
              case Revert(e) => r == Revert(e) && state == old(state)
    {
      var q := GetOr(state.receiptQueues, c, EMPTY);
      var first := q.first;
      if q.last == first {
        return Revert(EmptyQueue);
      }
      var receipt := GetOr(q.data, first, NO_RECEIPT);
      q := q.(data := q.data - {first});
      q := q.(first := first + 1);
      state := state.(receiptQueues := state.receiptQueues[c := q]);
      return Ok(receipt);
    }

    method DequeueReceipts(c: ChainID, n: nat) returns (receipts: seq<Receipt>)
      requires var q := GetOr(state.receiptQueues, c, EMPTY); Valid(q) && n <= Size(q)
      modifies this
      ensures state == old(state).(receiptQueues := state.receiptQueues)
      ensures (receipts, GetOr(state.receiptQueues, c, EMPTY)) == TakeOut(GetOr(old(state).receiptQueues, c, EMPTY), n)
      ensures state.receiptQueues == old(state).receiptQueues[c := GetOr(state.receiptQueues, c, EMPTY)]
    {
      ghost var queues, q := state.receiptQueues, GetOr(state.receiptQueues, c, EMPTY);
      state := state.(receiptQueues := state.receiptQueues[c := GetOr(state.receiptQueues, c, EMPTY)]);
      receipts := [];
      ghost var rest := q;
      var i := 0;
      while i < n
        invariant 0 <= i <= n
        invariant (receipts, rest) == TakeOut(q, i)
        invariant state.receiptQueues == queues[c := rest]
        invariant state == old(state).(receiptQueues := state.receiptQueues)
      {
        TakeOutSteps(q, i);
        rest := Dequeue(rest).value.1;
        var receipt := DequeueReceipt(c);
        receipts := receipts + [receipt.value];
        i := i + 1;
      }
    }

    method OutstandingSize(c: ChainID) returns (n: nat)
      requires Valid(GetOr(state.receiptQueues, c, EMPTY))
      ensures n == BatchSize(GetOr(state.receiptQueues, c, EMPTY)) <= Size(GetOr(state.receiptQueues, c, EMPTY))
      ensures n <= MAXIMUM_RECEIPT_COUNT
    {
      n := Min(MAXIMUM_RECEIPT_COUNT, Size(GetOr(state.receiptQueues, c, EMPTY)));
    }

    method GetOutstandingReceiptsToSend(c: ChainID) returns (receipts: seq<Receipt>)
      requires Valid(GetOr(state.receiptQueues, c, EMPTY))
      modifies this
      ensures state == old(state).(receiptQueues := state.receiptQueues)
      ensures (receipts, GetOr(state.receiptQueues, c, EMPTY))
              == OutstandingReceipts(GetOr(old(state).receiptQueues, c, EMPTY))
      ensures state.receiptQueues == old(state).receiptQueues[c := GetOr(state.receiptQueues, c, EMPTY)]
    {
      var resultSize := OutstandingSize(c);
      receipts := DequeueReceipts(c, resultSize);
    }

    /** Another receipt can be taken out while fewer than all have been. */
    static lemma TakeOutSteps(q: Queue, n: nat)
      requires Valid(q) && n < Size(q)
      ensures var (receipts, rest) := TakeOut(q, n);
              Dequeue(rest).Ok?
              && TakeOut(q, n + 1) == (receipts + [Dequeue(rest).value.0], Dequeue(rest).value.1)
    {
      TakeOutTakesOldest(q, n);
      DequeueTakesOldest(TakeOut(q, n).1);
    }

    method GetReceiptAtIndex(c: ChainID, index: nat) returns (r: Result<Receipt, QueueError>)
      requires Valid(GetOr(state.receiptQueues, c, EMPTY))
      ensures var receipts := Contents(GetOr(state.receiptQueues, c, EMPTY));
              r == if index < |receipts| then Ok(receipts[index]) else Revert(IndexOutOfBounds)
    {
      var q := GetOr(state.receiptQueues, c, EMPTY);
      IndexAgrees(q, index);
      if index >= Size(q) {
        return Revert(IndexOutOfBounds);
      }
      return Ok(GetOr(q.data, q.first + index, NO_RECEIPT));
    }

    // ----- Sending -----

    method Emit(e: Event)
      modifies this
      ensures state == Log(old(state), e)
    {
      state := state.(log := state.log + [e]);
    }

    method EnsureBlockchainID() returns (r: Result<ChainID, Error>)
      modifies this
      ensures r == OwnID(self, old(state))
      ensures r.Ok? ==> state == old(state).(blockchainID := r.value)
    {
      var id := state.blockchainID;
      if id == 0 {
        id := self;
        if id == 0 {
          return Revert(ZeroBlockchainID);
        }
        state := state.(blockchainID := id);
      }
      return Ok(id);
    }

    method SendTeleporterMessage(caller: Address, input: MessageInput, receipts: seq<Receipt>, received: Uint256,
                                 queued: bool)
      returns (r: Result<MessageID, Error>)
      modifies this
      ensures FollowsWithID(r, SendMessage(self, old(state), caller, input, receipts, received, queued), state)
    {
      var own :- EnsureBlockchainID();
      var nonce :- Checked256(state.messageNonce + 1, Panic);
      state := state.(messageNonce := nonce);
      var id := MessageID(own, input.destinationBlockchainID, nonce);
      var message := Message(nonce, caller, input.destinationBlockchainID, input.destinationAddress,
                             input.requiredGasLimit, input.allowedRelayerAddresses, receipts, input.payload);
      var fee := 0;
      var token := input.feeInfo.feeTokenAddress;
      if input.feeInfo.amount > 0 {
        if token == 0 {
          return Revert(ZeroFeeAsset);
        }
        if received == 0 {
          return Revert(BalanceNotIncreased);
        }
        fee := received;
      }
      state := state.(balances := Credited(state.balances, token, fee),
                      sentMessageInfo := state.sentMessageInfo[id := SentMessageInfo(message, FeeInfo(token, fee))]);
      Emit(Sent(id, message, queued));
      return Ok(id);
    }

    method SendCrossChainMessage(caller: Address, input: MessageInput, received: Uint256)
      returns (r: Result<MessageID, Error>)
      requires Valid(GetOr(state.receiptQueues, input.destinationBlockchainID, EMPTY))
      modifies this
      ensures FollowsWithID(r, Send(self, old(state), caller, input, received), state)
    {
      if state.sendEntered {
        return Revert(SenderReentrancy);
      }
      state := state.(sendEntered := true);
      var receipts := GetOutstandingReceiptsToSend(input.destinationBlockchainID);
      ghost var unguarded := state.(sendEntered := false);
      SendUnderGuard(self, unguarded, caller, input, receipts, received, true);
      var id :- SendTeleporterMessage(caller, input, receipts, received, true);
      state := state.(sendEntered := false);
      return Ok(id);
    }

    method RetrySendCrossChainMessage(message: Message) returns (r: Result<(), Error>)
      modifies this
      ensures Follows(r, RetrySend(old(state), message), state)
    {
      if state.sendEntered {
        return Revert(SenderReentrancy);
      }
      var id := MessageID(state.blockchainID, message.destinationBlockchainID, message.messageNonce);
      if id !in state.sentMessageInfo {
        return Revert(MessageNotFound);
      }
      if message != state.sentMessageInfo[id].message {
        return Revert(InvalidMessageHash);
      }
      Emit(Resent(id, message));
      return Ok(());
    }

    method AddFeeAmount(id: MessageID, token: Address, additional: nat, received: Uint256)
      returns (r: Result<(), Error>)
      modifies this
      ensures Follows(r, AddFee(old(state), id, token, additional, received), state)
    {
      if state.sendEntered {
        return Revert(SenderReentrancy);
      }
      if state.receiveEntered {
        return Revert(ReceiverReentrancy);
      }
      if additional == 0 {
        return Revert(ZeroAdditionalFee);
      }
      if token == 0 {
        return Revert(ZeroFeeAsset);
      }
      if id !in state.sentMessageInfo {
        return Revert(MessageNotFound);
      }
      var info := state.sentMessageInfo[id];
      if info.feeInfo.feeTokenAddress != token {
        return Revert(InvalidFeeAsset);
      }
      if received == 0 {
        return Revert(BalanceNotIncreased);
      }
      state := state.(balances := Credited(state.balances, token, received));
      var amount :- Checked256(info.feeInfo.amount + received, Panic);
      state := state.(sentMessageInfo := state.sentMessageInfo[id := info.(feeInfo := FeeInfo(token, amount))]);
      Emit(FeeAdded(id, received));
      return Ok(());
    }

    method CollectReceipts(source: ChainID, ids: seq<MessageID>) returns (r: Result<seq<Receipt>, Error>)
      ensures r == SpecifiedReceipts(state, source, ids, |ids|)
    {
      var receipts: seq<Receipt> := [];
      var i := 0;
      while i < |ids|
        invariant 0 <= i <= |ids|
        invariant SpecifiedReceipts(state, source, ids, i) == Ok(receipts)
      {
        CollectedSoFar(state, source, ids, i + 1);
        var id := ids[i];
        var nonce := GetOr(state.receivedMessageNonces, id, 0);
        if nonce == 0 {
          return Revert(ReceiptNotFound);
        }
        if id != MessageID(source, state.blockchainID, nonce) {
          return Revert(MessageIDNotFromSource);
        }
        receipts := receipts + [Receipt(nonce, GetOr(state.relayerRewardAddresses, id, 0))];
        i := i + 1;
      }
      return Ok(receipts);
    }

    static lemma {:induction false} CollectedSoFar(s: Chain, source: ChainID, ids: seq<MessageID>, n: nat)
      requires n <= |ids|
      ensures var spec := SpecifiedReceipts(s, source, ids, n);
              spec.Revert? ==> SpecifiedReceipts(s, source, ids, |ids|) == spec
      decreases |ids| - n
    {
      if n < |ids| {
        CollectedSoFar(s, source, ids, n + 1);
      }
    }

    method SendReceiptsFor(caller: Address, source: ChainID, ids: seq<MessageID>, feeInfo: FeeInfo,
                           allowedRelayers: seq<Address>, received: Uint256)
      returns (r: Result<MessageID, Error>)
      modifies this
      ensures FollowsWithID(r, SendReceipts(self, old(state), caller, source, ids, feeInfo, allowedRelayers, received),
                            state)
    {
      if state.sendEntered {
        return Revert(SenderReentrancy);
      }
      ghost var before := state;
      state := state.(sendEntered := true);
      SpecifiedUnderGuard(before, source, ids, |ids|);
      var receipts :- CollectReceipts(source, ids);
      var input := MessageInput(source, 0, feeInfo, 0, allowedRelayers, []);
      SendUnderGuard(self, before, caller, input, receipts, received, false);
      var id :- SendTeleporterMessage(caller, input, receipts, received, false);
      state := state.(sendEntered := false);
      return Ok(id);
    }

    method RedeemRelayerRewards(caller: Address, token: Address) returns (r: Result<(), Error>)
      modifies this
      ensures Follows(r, Redeem(old(state), caller, token), state)
    {
      var reward := GetOr(state.relayerRewardAmounts, (caller, token), 0);
      if reward == 0 {
        return Revert(NoRewardToRedeem);
      }
      state := state.(relayerRewardAmounts := state.relayerRewardAmounts - {(caller, token)});
      var balance := GetOr(state.balances, token, 0);
      if reward > balance {
        return Revert(TokenTransferFailed);
      }
      state := state.(balances := state.balances[token := balance - reward]);
      Emit(Redeemed(caller, token, reward));
      return Ok(());
    }

    // ----- Receiving -----

    method MarkOneReceipt(destination: ChainID, receipt: Receipt) returns (r: Result<(), Error>)
      modifies this
      ensures Follows(r, MarkReceipt(old(state), destination, receipt), state)
    {
      var id := MessageID(state.blockchainID, destination, receipt.receivedMessageNonce);
      if id !in state.sentMessageInfo {
        return Ok(());
      }
      var fee := state.sentMessageInfo[id].feeInfo;
      var key := (receipt.relayerRewardAddress, fee.feeTokenAddress);
      state := state.(sentMessageInfo := state.sentMessageInfo - {id});
      var amount :- Checked256(GetOr(state.relayerRewardAmounts, key, 0) + fee.amount, Panic);
      state := state.(relayerRewardAmounts := state.relayerRewardAmounts[key := amount]);
      Emit(ReceiptReceived(id, receipt.relayerRewardAddress, fee));
      return Ok(());
    }

    method MarkAllReceipts(destination: ChainID, receipts: seq<Receipt>) returns (r: Result<(), Error>)
      modifies this
      ensures Follows(r, MarkReceipts(old(state), destination, receipts, |receipts|), state)
    {
      ghost var before := state;
      var i := 0;
      while i < |receipts|
        invariant 0 <= i <= |receipts|
        invariant MarkReceipts(before, destination, receipts, i) == Ok(state)
      {
        MarkedSoFar(before, destination, receipts, i + 1);
        var _ :- MarkOneReceipt(destination, receipts[i]);
        i := i + 1;
      }
      return Ok(());
    }

    static lemma {:induction false} MarkedSoFar(s: Chain, destination: ChainID, receipts: seq<Receipt>, n: nat)
      requires n <= |receipts|
      ensures var spec := MarkReceipts(s, destination, receipts, n);
              spec.Revert? ==> MarkReceipts(s, destination, receipts, |receipts|) == spec
      decreases |receipts| - n
    {
      if n < |receipts| {
        MarkedSoFar(s, destination, receipts, n + 1);
      }
    }

    method AcceptMessage(caller: Address, warp: WarpMessage, relayer: Address) returns (r: Result<MessageID, Error>)
      modifies this
      ensures FollowsWithID(r, Accept(self, old(state), caller, warp, relayer), state)
    {
      var m := warp.message;
      var own :- EnsureBlockchainID();
      if m.destinationBlockchainID != own {
        return Revert(InvalidDestinationChainID);
      }
      var id := MessageID(warp.sourceChainID, own, m.messageNonce);
      if GetOr(state.receivedMessageNonces, id, 0) != 0 {
        return Revert(MessageAlreadyReceived);
      }
      var allowed := CheckIsAllowedRelayer(caller, m.allowedRelayerAddresses);
      if !allowed {
        return Revert(UnauthorizedRelayer);
      }
      if m.messageNonce == 0 {
        return Revert(ZeroMessageNonce);
      }
      state := state.(receiveEntered := true,
                      receivedMessageNonces := state.receivedMessageNonces[id := m.messageNonce]);
      if relayer != 0 {
        state := state.(relayerRewardAddresses := state.relayerRewardAddresses[id := relayer]);
      }
      var _ :- MarkAllReceipts(warp.sourceChainID, m.receipts);
      EnqueueReceipt(warp.sourceChainID, Receipt(m.messageNonce, relayer));
      Emit(Received(id, m, relayer));
      return Ok(id);
    }

    method StoreFailedMessageExecution(id: MessageID, message: Message)
      modifies this
      ensures state == StoreFailed(old(state), id, message)
    {
      state := state.(receivedFailedMessageHashes := state.receivedFailedMessageHashes[id := message]);
      Emit(ExecutionFailed(id));
    }

    method HandleInitialMessageExecution(id: MessageID, message: Message, gasLeft: nat, execution: Execution)
      returns (r: Result<(), Error>)
      requires ChainOK(self, state, Some(id)) && state.receiveEntered
      modifies this
      ensures Follows(r, HandleInitialExecution(self, old(state), id, message, gasLeft, execution), state)
      decreases execution, 0
    {
      if gasLeft < message.requiredGasLimit {
        return Revert(InsufficientGas);
      }
      if execution.NoCode? {
        StoreFailedMessageExecution(id, message);
        return Ok(());
      }
      var before := state;
      Perform(execution.script, Some(id));
      if !execution.success {
        // The failed call to the target has undone what the target did.
        state := before;
        StoreFailedMessageExecution(id, message);
        return Ok(());
      }
      Emit(Executed(id));
      return Ok(());
    }

    method ReceiveCrossChainMessage(caller: Address, warp: Option<WarpMessage>, relayer: Address, gasLeft: nat,
                                    execution: Execution)
      returns (r: Result<(), Error>)
      requires state.receiveEntered || ChainOK(self, state, None)
      modifies this
      ensures Follows(r, Receive(self, old(state), caller, warp, relayer, gasLeft, execution), state)
      decreases execution, 1
    {
      if state.receiveEntered {
        return Revert(ReceiverReentrancy);
      }
      if warp.None? {
        return Revert(InvalidWarpMessage);
      }
      ghost var before := state;
      var id :- AcceptMessage(caller, warp.value, relayer);
      AcceptKeeps(self, before, caller, warp.value, relayer);
      if |warp.value.message.payload| > 0 {
        var _ :- HandleInitialMessageExecution(id, warp.value.message, gasLeft, execution);
      }
      state := state.(receiveEntered := false);
      return Ok(());
    }

    method RetryMessageExecution(source: ChainID, message: Message, execution: Execution)
      returns (r: Result<(), Error>)
      requires state.receiveEntered || ChainOK(self, state, None)
      modifies this
      ensures Follows(r, RetryExecution(self, old(state), source, message, execution), state)
      decreases execution, 0
    {
      if state.receiveEntered {
        return Revert(ReceiverReentrancy);
      }
      var id := MessageID(source, state.blockchainID, message.messageNonce);
      if id !in state.receivedFailedMessageHashes {
        return Revert(MessageNotFound);
      }
      if message != state.receivedFailedMessageHashes[id] {
        return Revert(InvalidMessageHash);
      }
      if execution.NoCode? {
        return Revert(NoCodeAtDestination);
      }
      RetryCore(self, state, id);
      state := state.(receiveEntered := true,
                      receivedFailedMessageHashes := state.receivedFailedMessageHashes - {id});
      Emit(Executed(id));
      Perform(execution.script, None);
      if !execution.success {
        return Revert(RetryExecutionFailed);
      }
      state := state.(receiveEntered := false);
      return Ok(());
    }

    // ----- Calls and scripts -----

    method Dispatch(caller: Address, call: Call, ghost open: Option<MessageID>) returns (r: Result<(), Error>)
      requires ChainOK(self, state, open) && (state.receiveEntered || open.None?)
      modifies this
      ensures Follows(r, Do(self, old(state), caller, call), state)
      decreases call
    {
      match call {
        case SendCrossChainMessage(input, received) =>
          assert QueueAt(state.receiptQueues, state.log, input.destinationBlockchainID);
          var _ :- SendCrossChainMessage(caller, input, received);
          r := Ok(());
        case RetrySendCrossChainMessage(message) =>
          r := RetrySendCrossChainMessage(message);
        case AddFeeAmount(id, token, additional, received) =>
          r := AddFeeAmount(id, token, additional, received);
        case ReceiveCrossChainMessage(warp, relayer, gasLeft, execution) =>
          r := ReceiveCrossChainMessage(caller, warp, relayer, gasLeft, execution);
        case RetryMessageExecution(source, message, execution) =>
          r := RetryMessageExecution(source, message, execution);
        case SendSpecifiedReceipts(source, ids, feeInfo, allowedRelayers, received) =>
          var _ :- SendReceiptsFor(caller, source, ids, feeInfo, allowedRelayers, received);
          r := Ok(());
        case RedeemRelayerRewards(token) =>
          r := RedeemRelayerRewards(caller, token);
        case InitializeBlockchainID =>
          var _ :- EnsureBlockchainID();
          r := Ok(());
        case Donate(token, amount) =>
          state := state.(donated := Credited(state.donated, token, amount),
                          balances := Credited(state.balances, token, amount));
          r := Ok(());
      }
    }

    /** The calls that the target of a message makes; one that reverts is undone. */
    method Perform(script: Script, ghost open: Option<MessageID>)
      requires ChainOK(self, state, open) && state.receiveEntered
      modifies this
      ensures state == TeleporterSpec.Perform(self, old(state), script)
      decreases script
    {
      match script {
        case Stop =>
        case Then(caller, call, rest) =>
          var before := state;
          var r := Dispatch(caller, call, open);
          if r.Revert? {
            state := before;
          } else {
            GuardedCall(self, before, caller, call);
            SimpleCallKeeps(self, before, caller, call, open);
          }
          Perform(rest, open);
      }
    }

    /** A call from outside: a revert undoes everything, and the messenger is at rest again. */
    method Transact(caller: Address, call: Call) returns (r: Result<(), Error>)
      requires ChainOK(self, state, None) && AtRest(state)
      modifies this
      ensures Follows(r, Do(self, old(state), caller, call), state)
      ensures r.Revert? ==> state == old(state)
      ensures ChainOK(self, state, None) && AtRest(state)
    {
      var before := state;
      r := Dispatch(caller, call, None);
      if r.Revert? {
        state := before;
      } else {
        DoKeeps(self, before, caller, call);
      }
    }
  }
}
