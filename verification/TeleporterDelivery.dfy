/**
 What a delivery and a retry answer: exactly when they succeed, when the message counts as executed, and what is left
 behind when its target fails.
 */
module TeleporterDelivery {
  import opened Wrappers
  import opened Numeric
  import opened ReceiptQueue
  import opened TeleporterSpec
  import opened TeleporterInvariants
  import opened TeleporterProofs
  import opened TeleporterCalls
  import opened TeleporterNetwork
  import opened TeleporterAnswers

  // ----- The calls of a target -----

  /** What the calls of a target can emit while its message is executed. */
  predicate FromTarget(e: Event) {
    e.Sent? || e.Resent? || e.FeeAdded? || e.Redeemed?
  }

  /** Only events of the target's calls were added, and what was outstanding is as it was. */
  ghost predicate TargetRan(s: Chain, t: Chain, calls: seq<Event>) {
    && t.log == s.log + calls
    && (forall e :: e in calls ==> FromTarget(e))
    && (forall id :: id in s.sentMessageInfo ==>
          id in t.sentMessageInfo && t.sentMessageInfo[id] == s.sentMessageInfo[id])
    && SameReceiving(s, t)
  }

  lemma SendRan(self: ChainID, s: Chain, open: Option<MessageID>, t: Chain, m: Message, fee: FeeInfo, queued: bool)
    requires ChainOK(self, s, open) && SentNext(self, s, t, m, fee, queued)
    ensures TargetRan(s, t, [Sent(MessageID(self, m.destinationBlockchainID, s.messageNonce + 1), m, queued)])
  {
    var id := MessageID(self, m.destinationBlockchainID, s.messageNonce + 1);
    NeverSent(self, s.messageNonce, s.sentMessageInfo, s.log, id);
  }

  lemma OneCallRan(self: ChainID, s: Chain, open: Option<MessageID>, caller: Address, call: Call)
    returns (calls: seq<Event>)
    requires ChainOK(self, s, open) && s.receiveEntered && Do(self, s, caller, call).Ok?
    ensures TargetRan(s, Do(self, s, caller, call).value, calls)
  {
    var t := Do(self, s, caller, call).value;
    GuardedCall(self, s, caller, call);
    match call {
      case SendCrossChainMessage(input, received) =>
        SendAnswers(self, s, open, caller, input, received);
        var n := Min(5, |Held(s.receiptQueues, input.destinationBlockchainID)|);
        var m := MessageSent(s, caller, input, Held(s.receiptQueues, input.destinationBlockchainID)[..n]);
        SendRan(self, s, open, t, m, FeeKept(input.feeInfo, received), true);
        calls := [t.log[|s.log|]];
      case SendSpecifiedReceipts(source, ids, fee, allowed, received) =>
        SendReceiptsAnswers(self, s, open, caller, source, ids, fee, allowed, received);
        SendRan(self, s, open, t, t.log[|s.log|].message, FeeKept(fee, received), false);
        calls := [t.log[|s.log|]];
      case RetrySendCrossChainMessage(message) =>
        RetrySendAnswers(self, s, open, caller, message);
        calls := [t.log[|s.log|]];
      case RedeemRelayerRewards(token) =>
        RedeemAnswers(self, s, open, caller, token);
        calls := [t.log[|s.log|]];
      case AddFeeAmount(id, token, additional, received) =>
        AddFeeAnswers(self, s, open, caller, id, token, additional, received);
        calls := [];
      case InitializeBlockchainID =>
        calls := [];
      case Donate(token, amount) =>
        calls := [];
    }
  }

  lemma RanTransitive(s: Chain, t: Chain, u: Chain, first: seq<Event>, second: seq<Event>)
    requires TargetRan(s, t, first) && TargetRan(t, u, second)
    ensures TargetRan(s, u, first + second)
  {
  }

  lemma {:induction false} ScriptRan(self: ChainID, s: Chain, open: Option<MessageID>, script: Script)
    returns (calls: seq<Event>)
    requires ChainOK(self, s, open) && s.receiveEntered
    ensures TargetRan(s, Perform(self, s, script), calls)
    decreases script
  {
    match script {
      case Stop =>
        calls := [];
      case Then(caller, call, rest) =>
        var r := Do(self, s, caller, call);
        if r.Ok? {
          GuardedCall(self, s, caller, call);
          SimpleCallKeeps(self, s, caller, call, open);
          var first := OneCallRan(self, s, open, caller, call);
          var second := ScriptRan(self, r.value, open, rest);
          RanTransitive(s, r.value, Perform(self, s, script), first, second);
          calls := first + second;
        } else {
          calls := ScriptRan(self, s, open, rest);
        }
    }
  }

  // ----- Delivery -----

  /** The message may be delivered here by this caller: it is meant for this chain, new, and open to the caller. */
  ghost predicate Deliverable(self: ChainID, s: Chain, caller: Address, warp: WarpMessage) {
    var m := warp.message;
    && self != 0 && m.destinationBlockchainID == self && m.messageNonce != 0
    && MessageID(warp.sourceChainID, self, m.messageNonce) !in s.receivedMessageNonces
    && (m.allowedRelayerAddresses == [] || caller in m.allowedRelayerAddresses)
  }

  /** The state after everything that a delivery does before it executes the message. */
  ghost predicate Recorded(self: ChainID, s: Chain, t: Chain, warp: WarpMessage, relayer: Address, credits: seq<Event>) {
    var m := warp.message;
    var id := MessageID(warp.sourceChainID, self, m.messageNonce);
    && t.log == s.log + credits + [Received(id, m, relayer)]
    && AllCredits(self, s, warp.sourceChainID, m.receipts, |m.receipts|, credits)
    && StillOutstanding(self, s, warp.sourceChainID, m.receipts, |m.receipts|, t)
    && t.receivedMessageNonces == s.receivedMessageNonces[id := m.messageNonce]
    && t.relayerRewardAddresses
       == (if relayer != 0 then s.relayerRewardAddresses[id := relayer] else s.relayerRewardAddresses)
    && t.receivedFailedMessageHashes == s.receivedFailedMessageHashes
    && t.messageNonce == s.messageNonce && t.balances == s.balances && t.donated == s.donated
    && (forall c :: Held(t.receiptQueues, c)
                    == Held(s.receiptQueues, c)
                       + if c == warp.sourceChainID then [Receipt(m.messageNonce, relayer)] else [])
  }

  lemma Aligns(self: ChainID, s: Chain, t: Chain, c: ChainID, receipts: seq<Receipt>)
    requires Aligned(s, t) && MarkReceipts(s, c, receipts, |receipts|).Ok?
    ensures MarkReceipts(t, c, receipts, |receipts|).Ok?
  {
    MarkReceiptsAligned(t, s, c, receipts, |receipts|);
  }

  /** The state in which the receipts are marked. */
  function Opened(self: ChainID, s: Chain, id: MessageID, relayer: Address): Chain {
    s.(blockchainID := self, receiveEntered := true,
       receivedMessageNonces := s.receivedMessageNonces[id := id.nonce],
       relayerRewardAddresses :=
         if relayer != 0 then s.relayerRewardAddresses[id := relayer] else s.relayerRewardAddresses)
  }

  lemma MarkingSucceeds(self: ChainID, s: Chain, c: ChainID, receipts: seq<Receipt>, id: MessageID, relayer: Address)
    requires ChainOK(self, s, None) && BalancesFit(s)
    ensures MarkReceipts(Opened(self, s, id, relayer), c, receipts, |receipts|).Ok?
  {
    var start := s.(blockchainID := self);
    InitializeKeeps(self, s, None);
    SameBalancesFit(s, start);
    var t, credits := MarkAnswers(self, start, None, c, receipts, |receipts|);
    Aligns(self, start, Opened(self, s, id, relayer), c, receipts);
  }

  lemma AcceptStages(self: ChainID, s: Chain, caller: Address, warp: WarpMessage, relayer: Address)
    requires s.blockchainID == 0 || s.blockchainID == self
    ensures var m := warp.message;
            var id := MessageID(warp.sourceChainID, self, m.messageNonce);
            Accept(self, s, caller, warp, relayer).Ok?
            <==> && self != 0 && m.destinationBlockchainID == self && m.messageNonce != 0
                 && GetOr(s.receivedMessageNonces, id, 0) == 0
                 && (m.allowedRelayerAddresses == [] || caller in m.allowedRelayerAddresses)
                 && MarkReceipts(Opened(self, s, id, relayer), warp.sourceChainID, m.receipts, |m.receipts|).Ok?
  {
  }

  /** Recording succeeds exactly for a deliverable message. */
  lemma AcceptSucceedsIff(self: ChainID, s: Chain, caller: Address, warp: WarpMessage, relayer: Address)
    requires ChainOK(self, s, None) && BalancesFit(s)
    ensures Accept(self, s, caller, warp, relayer).Ok? <==> Deliverable(self, s, caller, warp)
  {
    var id := MessageID(warp.sourceChainID, self, warp.message.messageNonce);
    assert ReceivedAt(self, s.receivedMessageNonces, s.receivedFailedMessageHashes, s.relayerRewardAddresses, s.log, None,
                      id);
    AcceptStages(self, s, caller, warp, relayer);
    MarkingSucceeds(self, s, warp.sourceChainID, warp.message.receipts, id, relayer);
  }

  lemma AcceptRecords(self: ChainID, s: Chain, caller: Address, warp: WarpMessage, relayer: Address)
    returns (credits: seq<Event>)
    requires ChainOK(self, s, None) && BalancesFit(s) && Accept(self, s, caller, warp, relayer).Ok?
    ensures var (t, id) := Accept(self, s, caller, warp, relayer).value;
            && id == MessageID(warp.sourceChainID, self, warp.message.messageNonce)
            && Recorded(self, s, t, warp, relayer, credits)
            && t.receiveEntered && t.sendEntered == s.sendEntered && t.blockchainID == self
  {
    var m, start := warp.message, s.(blockchainID := self);
    AcceptEffect(self, s, caller, warp, relayer);
    InitializeKeeps(self, s, None);
    SameBalancesFit(s, start);
    var u;
    u, credits := MarkAnswers(self, start, None, warp.sourceChainID, m.receipts, |m.receipts|);
    RecordedCredits(self, s, warp, credits, u);
    var (t, id) := Accept(self, s, caller, warp, relayer).value;
    forall c ensures Held(t.receiptQueues, c) == Held(s.receiptQueues, c)
                     + if c == warp.sourceChainID then [Receipt(m.messageNonce, relayer)] else []
    {
      assert QueueAt(s.receiptQueues, s.log, c);
      EnqueueAppends(GetOr(s.receiptQueues, c, EMPTY), Receipt(m.messageNonce, relayer));
    }
  }

  /** The credits do not depend on whether the chain ID was known before. */
  lemma RecordedCredits(self: ChainID, s: Chain, warp: WarpMessage, credits: seq<Event>, u: Chain)
    requires var c, receipts := warp.sourceChainID, warp.message.receipts;
             && AllCredits(self, s.(blockchainID := self), c, receipts, |receipts|, credits)
             && StillOutstanding(self, s.(blockchainID := self), c, receipts, |receipts|, u)
    ensures var c, receipts := warp.sourceChainID, warp.message.receipts;
            && AllCredits(self, s, c, receipts, |receipts|, credits)
            && StillOutstanding(self, s, c, receipts, |receipts|, u)
  {
    var c, receipts, start := warp.sourceChainID, warp.message.receipts, s.(blockchainID := self);
    forall i: nat | i < |receipts| ensures Counts(self, s, c, receipts, i) <==> Counts(self, start, c, receipts, i) {
    }
    forall e | e in credits
      ensures exists i: nat :: i < |receipts| && Counts(self, s, c, receipts, i) && e == CreditFor(self, s, c, receipts, i)
    {
      var i: nat :| i < |receipts| && Counts(self, start, c, receipts, i) && e == CreditFor(self, start, c, receipts, i);
      assert Counts(self, s, c, receipts, i) && e == CreditFor(self, s, c, receipts, i);
    }
  }

  /** A target that exists and does not fail. */
  predicate Succeeds(execution: Execution) {
    execution.Attempt? && execution.success
  }

  /** The state that a delivery leaves, from the one in which the message has been recorded. */
  ghost predicate Delivered(self: ChainID, u: Chain, t: Chain, id: MessageID, m: Message, execution: Execution) {
    if m.payload == [] then t == u.(receiveEntered := false)
    else if Succeeds(execution) then
      t == Log(Perform(self, u, execution.script), Executed(id)).(receiveEntered := false)
    else
      t == u.(receiveEntered := false,
              receivedFailedMessageHashes := u.receivedFailedMessageHashes[id := m],
              log := u.log + [ExecutionFailed(id)])
  }

  lemma ExecuteStages(self: ChainID, u: Chain, id: MessageID, m: Message, execution: Execution)
    requires m.payload != []
    ensures Delivered(self, u, Execute(self, u, id, m, execution).(receiveEntered := false), id, m, execution)
  {
  }

  lemma HandleStages(self: ChainID, u: Chain, id: MessageID, m: Message, gasLeft: nat, execution: Execution)
    ensures HandleInitialExecution(self, u, id, m, gasLeft, execution)
            == if gasLeft < m.requiredGasLimit then Revert(InsufficientGas)
               else Ok(Execute(self, u, id, m, execution))
  {
  }

  lemma ReceiveStages(self: ChainID, s: Chain, caller: Address, warp: Option<WarpMessage>, relayer: Address, gasLeft: nat,
                      execution: Execution, r: Result<Chain, Error>)
    requires r == Receive(self, s, caller, warp, relayer, gasLeft, execution)
    ensures r.Ok? <==> && !s.receiveEntered && warp.Some? && Accept(self, s, caller, warp.value, relayer).Ok?
                       && (warp.value.message.payload != [] ==> gasLeft >= warp.value.message.requiredGasLimit)
    ensures r.Ok? ==> var (u, id) := Accept(self, s, caller, warp.value, relayer).value;
                      Delivered(self, u, r.value, id, warp.value.message, execution)
  {
    if !s.receiveEntered && warp.Some? && Accept(self, s, caller, warp.value, relayer).Ok? {
      var (u, id) := Accept(self, s, caller, warp.value, relayer).value;
      HandleStages(self, u, id, warp.value.message, gasLeft, execution);
      if warp.value.message.payload != [] {
        ExecuteStages(self, u, id, warp.value.message, execution);
      }
    }
  }

  /** The stages of a delivery. */
  lemma DeliveryStages(self: ChainID, s: Chain, caller: Address, warp: Option<WarpMessage>, relayer: Address,
                       gasLeft: nat, execution: Execution)
    ensures var r := Do(self, s, caller, ReceiveCrossChainMessage(warp, relayer, gasLeft, execution));
            && (r.Ok? <==> && !s.receiveEntered && warp.Some? && Accept(self, s, caller, warp.value, relayer).Ok?
                           && (warp.value.message.payload != [] ==> gasLeft >= warp.value.message.requiredGasLimit))
            && (r.Ok? ==>
                  var (u, id) := Accept(self, s, caller, warp.value, relayer).value;
                  Delivered(self, u, r.value, id, warp.value.message, execution))
  {
    ReceiveStages(self, s, caller, warp, relayer, gasLeft, execution,
                  Do(self, s, caller, ReceiveCrossChainMessage(warp, relayer, gasLeft, execution)));
  }

  /**
   A delivery succeeds exactly if no other delivery is going on, the precompile vouches for the message, it is
   deliverable, and the gas that the sender asked for is left if there is something to execute.
   */
  lemma ReceiveSucceedsIff(self: ChainID, s: Chain, caller: Address, warp: Option<WarpMessage>, relayer: Address,
                           gasLeft: nat, execution: Execution)
    requires ChainOK(self, s, None) && BalancesFit(s)
    ensures Do(self, s, caller, ReceiveCrossChainMessage(warp, relayer, gasLeft, execution)).Ok? <==>
              && !s.receiveEntered && warp.Some? && Deliverable(self, s, caller, warp.value)
              && (warp.value.message.payload != [] ==> gasLeft >= warp.value.message.requiredGasLimit)
  {
    DeliveryStages(self, s, caller, warp, relayer, gasLeft, execution);
    if warp.Some? {
      AcceptSucceedsIff(self, s, caller, warp.value, relayer);
    }
  }

  /**
   A delivery records the message and its receipts. A message without payload is not executed. One whose target succeeds
   is executed, and that event comes after those of the target's calls. Otherwise the message is stored for a retry, an
   event says so, and the target's calls leave no trace: everything is as if there had been no target.
   */
  lemma ReceiveAnswers(self: ChainID, s: Chain, caller: Address, warp: WarpMessage, relayer: Address, gasLeft: nat,
                       execution: Execution)
    returns (u: Chain, credits: seq<Event>, calls: seq<Event>)
    requires ChainOK(self, s, None) && AtRest(s) && BalancesFit(s)
    requires Do(self, s, caller, ReceiveCrossChainMessage(Some(warp), relayer, gasLeft, execution)).Ok?
    ensures Recorded(self, s, u, warp, relayer, credits)
    ensures var t := Do(self, s, caller, ReceiveCrossChainMessage(Some(warp), relayer, gasLeft, execution)).value;
            var m := warp.message;
            var id := MessageID(warp.sourceChainID, self, m.messageNonce);
            && AtRest(t)
            && if m.payload == [] then t == u.(receiveEntered := false)
               else if Succeeds(execution) then
                 && t.log == u.log + calls + [Executed(id)] && (forall e :: e in calls ==> FromTarget(e))
                 && t.receivedFailedMessageHashes == s.receivedFailedMessageHashes
                 && t.receivedMessageNonces == u.receivedMessageNonces
                 && t.relayerRewardAddresses == u.relayerRewardAddresses
                 && (forall k :: k in u.sentMessageInfo ==>
                       k in t.sentMessageInfo && t.sentMessageInfo[k] == u.sentMessageInfo[k])
               else
                 t == u.(receiveEntered := false,
                         receivedFailedMessageHashes := s.receivedFailedMessageHashes[id := m],
                         log := u.log + [ExecutionFailed(id)])
  {
    DeliveryStages(self, s, caller, Some(warp), relayer, gasLeft, execution);
    credits := AcceptRecords(self, s, caller, warp, relayer);
    AcceptKeeps(self, s, caller, warp, relayer);
    u := Accept(self, s, caller, warp, relayer).value.0;
    calls := [];
    if warp.message.payload != [] && Succeeds(execution) {
      var id := MessageID(warp.sourceChainID, self, warp.message.messageNonce);
      calls := ScriptRan(self, u, Some(id), execution.script);
    }
  }

  // ----- Retry -----

  /**
   A retry succeeds exactly if no delivery is going on, this very message is stored, and its target now succeeds. The
   message is then no longer stored, and counts as executed once more than before.
   */
  lemma RetryAnswers(self: ChainID, s: Chain, caller: Address, source: ChainID, message: Message, execution: Execution)
    returns (calls: seq<Event>)
    requires ChainOK(self, s, None)
    ensures var r := Do(self, s, caller, RetryMessageExecution(source, message, execution));
            var id := MessageID(source, self, message.messageNonce);
            && (r.Ok? <==> && !s.receiveEntered && Succeeds(execution)
                           && id in s.receivedFailedMessageHashes && s.receivedFailedMessageHashes[id] == message)
            && (r.Ok? ==>
                  && r.value.log == s.log + [Executed(id)] + calls && (forall e :: e in calls ==> FromTarget(e))
                  && r.value.receivedFailedMessageHashes == s.receivedFailedMessageHashes - {id}
                  && r.value.receivedMessageNonces == s.receivedMessageNonces
                  && r.value.relayerRewardAddresses == s.relayerRewardAddresses
                  && (forall k :: k in s.sentMessageInfo ==>
                        k in r.value.sentMessageInfo && r.value.sentMessageInfo[k] == s.sentMessageInfo[k]))
  {
    var id := MessageID(source, self, message.messageNonce);
    KnownIfStored(self, s, id);
    KnownIfStored(self, s, MessageID(source, s.blockchainID, message.messageNonce));
    calls := [];
    if !s.receiveEntered && Succeeds(execution) && id in s.receivedFailedMessageHashes
       && s.receivedFailedMessageHashes[id] == message {
      RetryCore(self, s, id);
      calls := ScriptRan(self, Retrying(s, id), None, execution.script);
    }
  }

  lemma KnownIfStored(self: ChainID, s: Chain, id: MessageID)
    requires ChainOK(self, s, None)
    ensures id in s.receivedFailedMessageHashes ==> id.destination == self == s.blockchainID
  {
    assert ReceivedAt(self, s.receivedMessageNonces, s.receivedFailedMessageHashes, s.relayerRewardAddresses, s.log, None,
                      id);
  }

  /** A retry whose target does not succeed changes nothing, on this chain or any other. */
  lemma FailedRetryChangesNothing(net: Network, tx: Transaction)
    requires NetworkOK(net) && tx.call.RetryMessageExecution? && !Succeeds(tx.call.execution)
    ensures Next(net, tx) == net
  {
    assert RestingAt(net, tx.chain);
    var c := tx.call;
    var calls := RetryAnswers(tx.chain, ChainOf(net, tx.chain), tx.caller, c.sourceBlockchainID, c.message, c.execution);
  }
}
