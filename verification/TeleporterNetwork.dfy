/**
 Any number of chains with a messenger each. A message that a messenger has handed to the precompile may be delivered
 to its destination at any later time, in any order, any number of times, or never.
 */
module TeleporterNetwork {
  import opened Wrappers
  import opened MapSum
  import opened ReceiptQueue
  import opened TeleporterSpec
  import opened TeleporterInvariants
  import opened TeleporterCalls

  type Network = map<ChainID, Chain>

  function ChainOf(net: Network, c: ChainID): Chain {
    GetOr(net, c, DEPLOYED)
  }

  /** A call from outside on one chain. */
  datatype Transaction = Transaction(chain: ChainID, caller: Address, call: Call)

  function Next(net: Network, tx: Transaction): Network {
    match Do(tx.chain, ChainOf(net, tx.chain), tx.caller, tx.call)
    case Ok(t) => net[tx.chain := t]
    case Revert(_) => net
  }

  function Run(txs: seq<Transaction>): Network {
    if txs == [] then map[] else Next(Run(txs[..|txs| - 1]), txs[|txs| - 1])
  }

  /** The messenger of a chain has handed a message to the precompile. */
  ghost predicate Emitted(net: Network, c: ChainID, message: Message) {
    exists e :: e in ChainOf(net, c).log && (e.Sent? || e.Resent?) && e.message == message
  }

  /** The precompile vouches only for messages that were sent. */
  ghost predicate Vouched(net: Network, call: Call) {
    call.ReceiveCrossChainMessage? && call.warp.Some? ==>
      Emitted(net, call.warp.value.sourceChainID, call.warp.value.message)
  }

  ghost predicate Legal(txs: seq<Transaction>) {
    txs == [] || (Legal(txs[..|txs| - 1]) && Vouched(Run(txs[..|txs| - 1]), txs[|txs| - 1].call))
  }

  // ----- The invariant across chains -----

  /** A credited receipt tells the truth: the other chain received the message and recorded this relayer for it. */
  ghost predicate CreditAt(net: Network, a: ChainID, e: Event) {
    e.ReceiptReceived? ==>
      && e.id.source == a
      && e.id in ChainOf(net, e.id.destination).receivedMessageNonces
      && e.relayer == GetOr(ChainOf(net, e.id.destination).relayerRewardAddresses, e.id, 0)
  }

  /** What is received was sent, under the same ID and with the same content. */
  ghost predicate DeliverySoundAt(net: Network, b: ChainID, e: Event) {
    e.Received? ==> e.id.destination == b && SentLogged(e.message, e.id, ChainOf(net, e.id.source).log)
  }

  ghost predicate SoundAt(net: Network, c: ChainID) {
    forall e :: e in ChainOf(net, c).log ==> CreditAt(net, c, e) && DeliverySoundAt(net, c, e)
  }

  ghost predicate RestingAt(net: Network, c: ChainID) {
    ChainOK(c, ChainOf(net, c), None) && AtRest(ChainOf(net, c))
  }

  ghost predicate NetworkOK(net: Network) {
    forall c :: RestingAt(net, c) && SoundAt(net, c)
  }

  lemma DeployedOK(self: ChainID)
    ensures ChainOK(self, DEPLOYED, None)
  {
    var s := DEPLOYED;
    forall token ensures LedgerAt(s.balances, s.donated, s.sentMessageInfo, s.relayerRewardAmounts, token) {
      Zero(s.sentMessageInfo, FeeIn(token));
      Zero(s.relayerRewardAmounts, RewardIn(token));
    }
  }

  /** An emitted message was sent under its own ID, and its receipts are genuine. */
  lemma EmittedMessage(net: Network, c: ChainID, message: Message)
    requires RestingAt(net, c) && Emitted(net, c, message)
    ensures SentLogged(message, MessageID(c, message.destinationBlockchainID, message.messageNonce),
                       ChainOf(net, c).log)
    ensures AllGenuine(c, ChainOf(net, c), message.destinationBlockchainID, message.receipts)
  {
    var s := ChainOf(net, c);
    var e :| e in s.log && (e.Sent? || e.Resent?) && e.message == message;
    assert SentLogged(message, e.id, s.log) by {
      if e.Sent? {
        assert Sent(e.id, message, e.queued) in s.log;
      }
    }
    var queued :| Sent(e.id, message, queued) in s.log;
    assert EmittedAt(c, Sent(e.id, message, queued));
  }

  // ----- What a step adds to the events -----

  /** A new credit comes from a receipt in the delivered message, a new delivery is that of the message. */
  ghost predicate AddedAt(self: ChainID, s: Chain, call: Call, e: Event) {
    e in s.log ||
    (&& (e.ReceiptReceived? ==>
           && call.ReceiveCrossChainMessage? && call.warp.Some?
           && exists r :: r in call.warp.value.message.receipts && CreditOf(self, call.warp.value.sourceChainID, r, e))
     && (e.Received? ==>
           && call.ReceiveCrossChainMessage? && call.warp.Some?
           && var w := call.warp.value;
           && w.message.destinationBlockchainID == self
           && e.id == MessageID(w.sourceChainID, self, w.message.messageNonce) && e.message == w.message))
  }

  ghost predicate CreditOf(self: ChainID, source: ChainID, r: Receipt, e: Event) {
    e.ReceiptReceived? && e.id == MessageID(self, source, r.receivedMessageNonce) && e.relayer == r.relayerRewardAddress
  }

  lemma {:induction false} MarkedEvents(s: Chain, c: ChainID, receipts: seq<Receipt>, n: nat, e: Event)
    requires n <= |receipts| && MarkReceipts(s, c, receipts, n).Ok?
    requires e in MarkReceipts(s, c, receipts, n).value.log && e !in s.log
    ensures exists r :: r in receipts && CreditOf(s.blockchainID, c, r, e)
    ensures MarkReceipts(s, c, receipts, n).value.blockchainID == s.blockchainID
  {
    if n > 0 {
      var u := MarkReceipts(s, c, receipts, n - 1).value;
      if e in u.log {
        MarkedEvents(s, c, receipts, n - 1, e);
      } else {
        MarkedOwner(s, c, receipts, n - 1);
        assert CreditOf(s.blockchainID, c, receipts[n - 1], e);
      }
    }
  }

  lemma {:induction false} MarkedOwner(s: Chain, c: ChainID, receipts: seq<Receipt>, n: nat)
    requires n <= |receipts| && MarkReceipts(s, c, receipts, n).Ok?
    ensures MarkReceipts(s, c, receipts, n).value.blockchainID == s.blockchainID
  {
    if n > 0 {
      MarkedOwner(s, c, receipts, n - 1);
    }
  }

  lemma ReceiveAdds(self: ChainID, s: Chain, caller: Address, call: Call, e: Event)
    requires ChainOK(self, s, None) && AtRest(s) && call.ReceiveCrossChainMessage? && Do(self, s, caller, call).Ok?
    requires e in Do(self, s, caller, call).value.log
    ensures AddedAt(self, s, call, e)
  {
    var w := call.warp.value;
    ReceiveKeeps(self, s, caller, w, call.relayerRewardAddress, call.gasLeft, call.execution);
    AcceptKeeps(self, s, caller, w, call.relayerRewardAddress);
    var (u, id) := Accept(self, s, caller, w, call.relayerRewardAddress).value;
    var start := s.(blockchainID := self);
    if e in Marked(self, s, w).value.log && e !in s.log {
      InitializeKeeps(self, s, None);
      MarkReceiptsKeeps(self, start, None, w.sourceChainID, w.message.receipts, |w.message.receipts|);
      MarkedEvents(start, w.sourceChainID, w.message.receipts, |w.message.receipts|, e);
    }
  }

  lemma StepAdds(self: ChainID, s: Chain, caller: Address, call: Call, e: Event)
    requires ChainOK(self, s, None) && AtRest(s) && Do(self, s, caller, call).Ok?
    requires e in Do(self, s, caller, call).value.log
    ensures AddedAt(self, s, call, e)
  {
    match call {
      case ReceiveCrossChainMessage(_, _, _, _) => ReceiveAdds(self, s, caller, call, e);
      case RetryMessageExecution(source, message, execution) =>
        RetryKeeps(self, s, source, message, execution);
      case _ => SimpleCallKeeps(self, s, caller, call, None);
    }
  }

  // ----- Every run -----

  /** What holds of an event keeps holding while chains only move on. */
  lemma EventStays(net: Network, c: ChainID, t: Chain, a: ChainID, e: Event)
    requires Later(ChainOf(net, c), t) && CreditAt(net, a, e) && DeliverySoundAt(net, a, e)
    ensures CreditAt(net[c := t], a, e) && DeliverySoundAt(net[c := t], a, e)
  {
    if e.Received? {
      var queued :| Sent(e.id, e.message, queued) in ChainOf(net, e.id.source).log;
      assert Sent(e.id, e.message, queued) in ChainOf(net[c := t], e.id.source).log;
    }
  }

  lemma EventSound(net: Network, tx: Transaction, t: Chain, e: Event)
    requires NetworkOK(net) && Vouched(net, tx.call)
    requires Do(tx.chain, ChainOf(net, tx.chain), tx.caller, tx.call) == Ok(t)
    requires e in t.log
    ensures CreditAt(net[tx.chain := t], tx.chain, e) && DeliverySoundAt(net[tx.chain := t], tx.chain, e)
  {
    var c, s := tx.chain, ChainOf(net, tx.chain);
    assert RestingAt(net, c) && SoundAt(net, c);
    DoKeeps(c, s, tx.caller, tx.call);
    StepAdds(c, s, tx.caller, tx.call, e);
    if e !in s.log && (e.ReceiptReceived? || e.Received?) {
      var w := tx.call.warp.value;
      assert RestingAt(net, w.sourceChainID);
      EmittedMessage(net, w.sourceChainID, w.message);
      if e.ReceiptReceived? {
        CreditDestination(c, s, tx.caller, tx.call);
        var r :| r in w.message.receipts && CreditOf(c, w.sourceChainID, r, e);
        assert Genuine(w.sourceChainID, ChainOf(net, w.sourceChainID).receivedMessageNonces,
                       ChainOf(net, w.sourceChainID).relayerRewardAddresses, c, r);
      }
    }
    EventStays(net, c, t, c, e);
  }

  /** A message that is accepted is meant for this chain. */
  lemma CreditDestination(self: ChainID, s: Chain, caller: Address, call: Call)
    requires ChainOK(self, s, None) && call.ReceiveCrossChainMessage? && Do(self, s, caller, call).Ok?
    ensures call.warp.Some? && call.warp.value.message.destinationBlockchainID == self
  {
    AcceptEffect(self, s, caller, call.warp.value, call.relayerRewardAddress);
  }

  lemma StepKeeps(net: Network, tx: Transaction)
    requires NetworkOK(net) && Vouched(net, tx.call)
    ensures NetworkOK(Next(net, tx))
  {
    var c, s := tx.chain, ChainOf(net, tx.chain);
    var r := Do(c, s, tx.caller, tx.call);
    if r.Ok? {
      var t := r.value;
      var net' := net[c := t];
      assert RestingAt(net, c);
      DoKeeps(c, s, tx.caller, tx.call);
      forall a ensures RestingAt(net', a) && SoundAt(net', a) {
        assert RestingAt(net, a) && SoundAt(net, a);
        forall e | e in ChainOf(net', a).log ensures CreditAt(net', a, e) && DeliverySoundAt(net', a, e) {
          if a == c {
            EventSound(net, tx, t, e);
          } else {
            EventStays(net, c, t, a, e);
          }
        }
      }
    }
  }

  /** Every network that a run leads to satisfies the invariant. */
  lemma {:induction false} RunKeeps(txs: seq<Transaction>)
    requires Legal(txs)
    ensures NetworkOK(Run(txs))
  {
    if txs == [] {
      forall c ensures RestingAt(map[], c) && SoundAt(map[], c) {
        DeployedOK(c);
      }
    } else {
      RunKeeps(txs[..|txs| - 1]);
      StepKeeps(Run(txs[..|txs| - 1]), txs[|txs| - 1]);
    }
  }
}
