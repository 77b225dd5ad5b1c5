/**
 Calls that a validator set has signed, forwarded to their target contracts once each and in order. The target may
 call the contract again while it is called.
 */
module ValidatorSetSig {
  import opened Wrappers
  import opened Numeric

  type Address = nat

  datatype Message = Message(
    targetBlockchainID: nat,
    validatorSetSigAddress: Address,
    targetContractAddress: Address,
    nonce: nat,
    value: nat,
    payload: seq<Byte>)

  /** A signed message as the Warp precompile reports it. */
  datatype WarpMessage = WarpMessage(sourceChainID: nat, originSenderAddress: Address, message: Message)

  /** Settings fixed at deployment. */
  datatype Settings = Settings(validatorBlockchainID: nat, blockchainID: nat, ownAddress: Address)

  /** Storage, balance in the native token, and the `Delivered` events with the messages they stand for. */
  datatype State = State(nonces: map<Address, nat>, entered: bool, balance: nat, delivered: seq<Message>)

  const DEPLOYED := State(map[], false, 0, [])

  datatype Error =
    | Panic
    | ReentrantCall
    | InvalidWarpMessage
    | InvalidSourceChainID
    | NonZeroOriginSender
    | InvalidTargetBlockchainID
    | InvalidValidatorSetSigAddress
    | InvalidNonce
    | CallFailed

  datatype Call =
    | ExecuteCall(warp: Option<WarpMessage>, sent: nat, target: Target)
    /** Somebody sends native tokens to the contract. */
    | Fund(amount: nat)

  /** What a target does when it is called: calls of its own, and then it succeeds or fails. */
  datatype Target = Target(script: Script, success: bool)

  datatype Script = Stop | Then(call: Call, rest: Script)

  function NonceOf(s: State, target: Address): nat {
    GetOr(s.nonces, target, 0)
  }

  function ValidateMessage(cfg: Settings, s: State, m: Message): Result<(), Error> {
    var _ :- Require(m.targetBlockchainID == cfg.blockchainID, InvalidTargetBlockchainID);
    var _ :- Require(m.validatorSetSigAddress == cfg.ownAddress, InvalidValidatorSetSigAddress);
    Require(NonceOf(s, m.targetContractAddress) == m.nonce, InvalidNonce)
  }

  /** The checks before a call, in order. */
  function CheckedMessage(cfg: Settings, s: State, warp: Option<WarpMessage>): Result<Message, Error> {
    var _ :- Require(warp.Some?, InvalidWarpMessage);
    var _ :- Require(warp.value.sourceChainID == cfg.validatorBlockchainID, InvalidSourceChainID);
    var _ :- Require(warp.value.originSenderAddress == 0, NonZeroOriginSender);
    var _ :- ValidateMessage(cfg, s, warp.value.message);
    Ok(warp.value.message)
  }

  /** The contract's balance after handing the value to the target. */
  function BalanceAfter(cfg: Settings, balance: nat, m: Message): nat
    requires m.value <= balance
  {
    if m.targetContractAddress == cfg.ownAddress then balance else balance - m.value
  }

  function Do(cfg: Settings, s: State, call: Call): Result<State, Error>
    decreases call
  {
    match call
    case Fund(amount) => Ok(s.(balance := s.balance + amount))
    case ExecuteCall(warp, sent, target) =>
      var _ :- Require(!s.entered, ReentrantCall);
      var m :- CheckedMessage(cfg, s, warp);
      var next :- Checked256(m.nonce + 1, Panic);
      var balance := s.balance + sent;
      var _ :- Require(m.value <= balance, CallFailed);
      var s1 := s.(nonces := s.nonces[m.targetContractAddress := next], entered := true,
                   balance := BalanceAfter(cfg, balance, m));
      var s2 := Perform(cfg, s1, target.script);
      var _ :- Require(target.success, CallFailed);
      Ok(s2.(entered := false, delivered := s2.delivered + [m]))
  }

  /** The calls of a target; one that reverts changes nothing. */
  function Perform(cfg: Settings, s: State, script: Script): State
    decreases script
  {
    match script
    case Stop => s
    case Then(call, rest) =>
      var s1 := match Do(cfg, s, call) case Ok(t) => t case Revert(_) => s;
      Perform(cfg, s1, rest)
  }

  function Execute(cfg: Settings, s: State, call: Call): State {
    match Do(cfg, s, call)
    case Ok(t) => t
    case Revert(_) => s
  }

  function Run(cfg: Settings, calls: seq<Call>): State {
    if calls == [] then DEPLOYED else Execute(cfg, Run(cfg, calls[..|calls| - 1]), calls[|calls| - 1])
  }

  // ----- Order of delivery -----

  /** The nonces of the messages delivered to a target, in the order of delivery. */
  function DeliveredTo(delivered: seq<Message>, target: Address): seq<nat> {
    if delivered == [] then []
    else
      var m := delivered[|delivered| - 1];
      DeliveredTo(delivered[..|delivered| - 1], target) + if m.targetContractAddress == target then [m.nonce] else []
  }

  function Upto(n: nat): (s: seq<nat>)
    ensures |s| == n && forall i :: 0 <= i < n ==> s[i] == i
  {
    seq(n, i => i)
  }

  /** To every target the nonces 0, 1, 2, ... were delivered, each once and in this order, up to its next nonce. */
  ghost predicate InOrder(s: State) {
    forall target :: DeliveredTo(s.delivered, target) == Upto(NonceOf(s, target))
  }

  /** Only messages of the validator set, for this chain and this contract, are delivered. */
  ghost predicate Authorized(cfg: Settings, m: Message) {
    m.targetBlockchainID == cfg.blockchainID && m.validatorSetSigAddress == cfg.ownAddress
  }

  ghost predicate Invariant(cfg: Settings, s: State) {
    !s.entered && InOrder(s) && forall m :: m in s.delivered ==> Authorized(cfg, m)
  }

  /** What a script sends to the contract outside of any delivery. */
  function Funded(script: Script): nat {
    match script
    case Stop => 0
    case Then(call, rest) => (if call.Fund? then call.amount else 0) + Funded(rest)
  }

  /** While a target is called, its calls can only send tokens: the guard stops any further delivery. */
  lemma {:induction false} GuardedScript(cfg: Settings, s: State, script: Script)
    requires s.entered
    ensures Perform(cfg, s, script) == s.(balance := s.balance + Funded(script))
    decreases script
  {
    match script {
      case Stop =>
      case Then(call, rest) =>
        var s1 := match Do(cfg, s, call) case Ok(t) => t case Revert(_) => s;
        GuardedScript(cfg, s1, rest);
    }
  }

  lemma OneMore(delivered: seq<Message>, m: Message, target: Address)
    ensures DeliveredTo(delivered + [m], target)
            == DeliveredTo(delivered, target) + if m.targetContractAddress == target then [m.nonce] else []
  {
    assert (delivered + [m])[..|delivered|] == delivered;
  }

  lemma DeliveryKeeps(cfg: Settings, s: State, t: State, m: Message)
    requires Invariant(cfg, s) && ValidateMessage(cfg, s, m).Ok? && !t.entered
    requires t.nonces == s.nonces[m.targetContractAddress := m.nonce + 1] && t.delivered == s.delivered + [m]
    ensures Invariant(cfg, t)
  {
    forall target ensures DeliveredTo(t.delivered, target) == Upto(NonceOf(t, target)) {
      assert DeliveredTo(s.delivered, target) == Upto(NonceOf(s, target));
      OneMore(s.delivered, m, target);
    }
  }

  /**
   What a successful delivery does: the message is recorded, its target expects the next nonce, and the balance has
   gained what was sent along and by the target, and has lost the value unless the contract called itself.
   */
  lemma DeliveryEffect(cfg: Settings, s: State, call: Call)
    requires call.ExecuteCall? && Do(cfg, s, call).Ok?
    ensures call.warp.Some?
    ensures var t, m := Do(cfg, s, call).value, call.warp.value.message;
            && ValidateMessage(cfg, s, m).Ok?
            && t.nonces == s.nonces[m.targetContractAddress := m.nonce + 1]
            && t.delivered == s.delivered + [m] && !t.entered
            && t.balance + (if m.targetContractAddress == cfg.ownAddress then 0 else m.value)
               == s.balance + call.sent + Funded(call.target.script)
  {
    var m := call.warp.value.message;
    var s1 := s.(nonces := s.nonces[m.targetContractAddress := m.nonce + 1], entered := true,
                 balance := BalanceAfter(cfg, s.balance + call.sent, m));
    GuardedScript(cfg, s1, call.target.script);
  }

  lemma DoKeeps(cfg: Settings, s: State, call: Call)
    requires Invariant(cfg, s) && Do(cfg, s, call).Ok?
    ensures Invariant(cfg, Do(cfg, s, call).value)
  {
    if call.ExecuteCall? {
      DeliveryEffect(cfg, s, call);
      DeliveryKeeps(cfg, s, Do(cfg, s, call).value, call.warp.value.message);
    }
  }

  /** Over every run, with failing and re-entering targets, deliveries are in order, once each, and authorized. */
  lemma {:induction false} EveryRun(cfg: Settings, calls: seq<Call>)
    ensures Invariant(cfg, Run(cfg, calls))
  {
    if calls != [] {
      EveryRun(cfg, calls[..|calls| - 1]);
      if Do(cfg, Run(cfg, calls[..|calls| - 1]), calls[|calls| - 1]).Ok? {
        DoKeeps(cfg, Run(cfg, calls[..|calls| - 1]), calls[|calls| - 1]);
      }
    } else {
      assert InOrder(DEPLOYED);
    }
  }

  /**
   A call is delivered exactly when the precompile vouches for a message of the validator set that is meant for this
   chain and contract and is the next one for its target, the value is there, and the target succeeds.
   */
  lemma DeliveredIff(cfg: Settings, s: State, warp: Option<WarpMessage>, sent: nat, target: Target)
    requires Invariant(cfg, s)
    ensures Do(cfg, s, ExecuteCall(warp, sent, target)).Ok? <==>
              && warp.Some?
              && warp.value.sourceChainID == cfg.validatorBlockchainID && warp.value.originSenderAddress == 0
              && var m := warp.value.message;
              && Authorized(cfg, m)
              && m.nonce == |DeliveredTo(s.delivered, m.targetContractAddress)| < MAX_UINT256
              && m.value <= s.balance + sent
              && target.success
  {
    if warp.Some? {
      assert DeliveredTo(s.delivered, warp.value.message.targetContractAddress)
          == Upto(NonceOf(s, warp.value.message.targetContractAddress));
    }
  }

  /** One more call, after which the state is as the call leaves it. */
  lemma OneMoreCall(cfg: Settings, calls: seq<Call>, call: Call, t: State)
    requires t == Execute(cfg, Run(cfg, calls), call)
    ensures t == Run(cfg, calls + [call]) && Invariant(cfg, t)
  {
    assert (calls + [call])[..|calls|] == calls;
    EveryRun(cfg, calls + [call]);
  }

  /** The reason for which a call reverts is a true one, and funding never does. */
  lemma RevertsForReason(cfg: Settings, s: State, call: Call)
    requires Invariant(cfg, s) && Do(cfg, s, call).Revert?
    ensures call.ExecuteCall?
    ensures var warp := call.warp;
            match Do(cfg, s, call).error {
              case InvalidWarpMessage => warp.None?
              case InvalidSourceChainID => warp.Some? && warp.value.sourceChainID != cfg.validatorBlockchainID
              case NonZeroOriginSender => warp.Some? && warp.value.originSenderAddress != 0
              case InvalidTargetBlockchainID =>
                warp.Some? && warp.value.message.targetBlockchainID != cfg.blockchainID
              case InvalidValidatorSetSigAddress =>
                warp.Some? && warp.value.message.validatorSetSigAddress != cfg.ownAddress
              case InvalidNonce =>
                && warp.Some?
                && warp.value.message.nonce != |DeliveredTo(s.delivered, warp.value.message.targetContractAddress)|
              case Panic => warp.Some? && warp.value.message.nonce >= MAX_UINT256
              case CallFailed =>
                warp.Some? && (warp.value.message.value > s.balance + call.sent || !call.target.success)
              case ReentrantCall => false
            }
  {
    if call.ExecuteCall? && call.warp.Some? {
      assert DeliveredTo(s.delivered, call.warp.value.message.targetContractAddress)
          == Upto(NonceOf(s, call.warp.value.message.targetContractAddress));
    }
  }

  // ----- The contract -----

  /** A step that agrees with its specification on success, on the reason to revert, and on the new state. */
  ghost predicate Follows(r: Result<(), Error>, spec: Result<State, Error>, after: State) {
    match spec
    case Ok(s) => r.Ok? && after == s
    case Revert(e) => r == Revert(e)
  }

  class Contract {
    const cfg: Settings

    var nonces: map<Address, nat>
    var entered: bool
    var balance: nat
    var delivered: seq<Message>
    ghost var calls: seq<Call>

    constructor (settings: Settings)
      ensures cfg == settings && calls == [] && Valid()
    {
      cfg := settings;
      nonces := map[];
      entered := false;
      balance := 0;
      delivered := [];
      calls := [];
    }

    function View(): State
      reads this
    {
      State(nonces, entered, balance, delivered)
    }

    /** The contract is where its calls have led it. */
    ghost predicate Valid()
      reads this
    {
      View() == Run(cfg, calls)
    }

    method CheckMessage(message: Message) returns (r: Result<(), Error>)
      ensures r == ValidateMessage(cfg, View(), message)
      ensures r.Ok? <==> Authorized(cfg, message)
                         && message.nonce == if message.targetContractAddress in nonces
                                             then nonces[message.targetContractAddress] else 0
    {
      if message.targetBlockchainID != cfg.blockchainID {
        return Revert(InvalidTargetBlockchainID);
      }
      if message.validatorSetSigAddress != cfg.ownAddress {
        return Revert(InvalidValidatorSetSigAddress);
      }
      if GetOr(nonces, message.targetContractAddress, 0) != message.nonce {
        return Revert(InvalidNonce);
      }
      return Ok(());
    }

    method Call(call: Call) returns (r: Result<(), Error>)
      modifies this`nonces, this`entered, this`balance, this`delivered
      ensures Follows(r, Do(cfg, old(View()), call), View())
      decreases call
    {
      match call {
        case Fund(amount) =>
          balance := balance + amount;
          return Ok(());
        case ExecuteCall(warp, sent, target) =>
          if entered {
            return Revert(ReentrantCall);
          }
          if warp.None? {
            return Revert(InvalidWarpMessage);
          }
          if warp.value.sourceChainID != cfg.validatorBlockchainID {
            return Revert(InvalidSourceChainID);
          }
          if warp.value.originSenderAddress != 0 {
            return Revert(NonZeroOriginSender);
          }
          var m := warp.value.message;
          var _ :- CheckMessage(m);
          entered := true;
          balance := balance + sent;
          var next :- Checked256(m.nonce + 1, Panic);
          nonces := nonces[m.targetContractAddress := next];
          if m.value > balance {
            return Revert(CallFailed);
          }
          balance := BalanceAfter(cfg, balance, m);
          Answer(target.script);
          if !target.success {
            return Revert(CallFailed);
          }
          delivered := delivered + [m];
          entered := false;
          return Ok(());
      }
    }

    /** The target's own calls; one that reverts is undone. */
    method Answer(script: Script)
      modifies this`nonces, this`entered, this`balance, this`delivered
      ensures View() == Perform(cfg, old(View()), script)
      decreases script
    {
      match script {
        case Stop =>
        case Then(call, rest) =>
          var before := View();
          var r := Call(call);
          if r.Revert? {
            nonces, entered, balance, delivered := before.nonces, before.entered, before.balance, before.delivered;
          }
          Answer(rest);
      }
    }

    /** One call from outside; a revert undoes everything. */
    method Transact(call: Call) returns (r: Result<(), Error>)
      requires Valid()
      modifies this
      ensures Valid() && calls == old(calls) + [call]
      ensures Follows(r, Do(cfg, old(View()), call), View())
      ensures r.Revert? ==> View() == old(View())
      ensures Invariant(cfg, View())
    {
      var before := View();
      r := Call(call);
      if r.Revert? {
        nonces, entered, balance, delivered := before.nonces, before.entered, before.balance, before.delivered;
      }
      OneMoreCall(cfg, calls, call, View());
      calls := calls + [call];
    }
  }
}
