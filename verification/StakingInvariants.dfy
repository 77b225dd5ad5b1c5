/** What every reachable state of the staking manager satisfies, one predicate for each concern. */
module StakingInvariants {
  import opened Wrappers
  import opened MapSum
  import opened ChurnTracker
  import opened StakingTypes
  import opened StakingSpec

  // ----- Weights of validators and delegations -----

  /** The weight of a delegation that counts towards validator `id`. */
  ghost function Backing(id: ValidationID): (DelegationID, Delegator) -> nat {
    (_: DelegationID, d: Delegator) =>
      if d.validationID == id && (d.status == DelegatorStatus.PendingAdded || d.status == DelegatorStatus.Active)
      then d.weight else 0
  }

  /** The weight delegated to validator `id`. */
  ghost function Delegated(delegations: map<DelegationID, Delegator>, id: ValidationID): nat {
    Sum(delegations, Backing(id))
  }

  ghost predicate WeightRule(cfg: Settings, v: Validator, delegated: nat) {
    match v.status
    case Unknown => false
    case PendingAdded => v.weight == v.startingWeight && delegated == 0 && v.messageNonce == 0
    case Active =>
      v.weight == v.startingWeight + delegated && v.weight <= v.startingWeight * cfg.maximumStakeMultiplier
    case PendingRemoved => v.weight == 0 && v.messageNonce > 0
    case Completed => v.weight == 0
    case Invalidated => v.weight == v.startingWeight && delegated == 0 && v.messageNonce == 0
  }

  ghost predicate WeightsOK(
    cfg: Settings, periods: map<ValidationID, Validator>, delegations: map<DelegationID, Delegator>)
  {
    forall id :: WeightAt(cfg, periods, delegations, id)
  }

  ghost predicate WeightAt(
    cfg: Settings, periods: map<ValidationID, Validator>, delegations: map<DelegationID, Delegator>, id: ValidationID)
  {
    id in periods ==> WeightRule(cfg, periods[id], Delegated(delegations, id))
  }

  ghost predicate DelegationRule(
    periods: map<ValidationID, Validator>, pos: set<ValidationID>, delegationID: DelegationID, d: Delegator)
  {
    && d.validationID == delegationID.validationID
    && d.validationID in periods
    && d.validationID in pos
    && d.owner != 0
    && d.weight > 0
    && var v := periods[d.validationID];
    && v.status in {ValidatorStatus.Active, ValidatorStatus.PendingRemoved, ValidatorStatus.Completed}
    && 1 <= d.startingNonce <= v.messageNonce
    && d.startingNonce == delegationID.nonce
    && d.status != DelegatorStatus.Unknown
    && (d.status == DelegatorStatus.PendingRemoved ==> d.startingNonce < d.endingNonce <= v.messageNonce)
  }

  ghost predicate DelegationsOK(
    periods: map<ValidationID, Validator>, pos: set<ValidationID>, delegations: map<DelegationID, Delegator>)
  {
    forall k :: DelegationAt(periods, pos, delegations, k)
  }

  ghost predicate DelegationAt(
    periods: map<ValidationID, Validator>, pos: set<ValidationID>, delegations: map<DelegationID, Delegator>,
    k: DelegationID)
  {
    k in delegations ==> DelegationRule(periods, pos, k, delegations[k])
  }

  // ----- Total weight -----

  ghost function WeightOf(): (ValidationID, Validator) -> nat {
    (_: ValidationID, v: Validator) => v.weight
  }

  ghost predicate TotalOK(cfg: Settings, initialized: bool, total: nat, periods: map<ValidationID, Validator>) {
    if initialized then
      total == Sum(periods, WeightOf()) && cfg.churn.maximumPercentage * total >= 100
    else total == 0 && periods == map[]
  }

  // ----- Node registry -----

  predicate Live(status: ValidatorStatus) {
    status in {ValidatorStatus.PendingAdded, ValidatorStatus.Active, ValidatorStatus.PendingRemoved}
  }

  ghost predicate NodeAt(registered: map<NodeID, ValidationID>, periods: map<ValidationID, Validator>, n: NodeID) {
    n in registered ==>
      registered[n] in periods && Live(periods[registered[n]].status) && periods[registered[n]].nodeID == n
  }

  ghost predicate RegisteredAt(
    registered: map<NodeID, ValidationID>, periods: map<ValidationID, Validator>, id: ValidationID)
  {
    id in periods && Live(periods[id].status) ==>
      periods[id].nodeID in registered && registered[periods[id].nodeID] == id
  }

  ghost predicate RegistryOK(registered: map<NodeID, ValidationID>, periods: map<ValidationID, Validator>) {
    && (forall n :: NodeAt(registered, periods, n))
    && (forall id :: RegisteredAt(registered, periods, id))
  }

  // ----- Identity of registered periods -----

  /** A stored period is what its ID says, and exactly those registered against stake are PoS validators. */
  ghost predicate IdentityAt(
    pending: map<ValidationID, MessageTypes.ValidationPeriod>, periods: map<ValidationID, Validator>,
    pos: set<ValidationID>, id: ValidationID)
  {
    && (id in pos <==> id in periods && id.Registered?)
    && (id in pos ==> periods[id].nodeID == id.period.nodeID && periods[id].startingWeight == id.period.weight)
    && (id in pending ==> id in pos && pending[id] == id.period)
    && (id in periods && periods[id].status == ValidatorStatus.PendingAdded ==> id in pending)
  }

  ghost predicate IdentityOK(
    pending: map<ValidationID, MessageTypes.ValidationPeriod>, periods: map<ValidationID, Validator>,
    pos: set<ValidationID>)
  {
    forall id :: IdentityAt(pending, periods, pos, id)
  }

  // ----- Escrow -----

  /** The tokens owed to the owner of a live PoS validator. */
  function OwedToValidator(factor: nat, isPoS: bool, v: Validator): nat {
    if isPoS && Live(v.status) then TokenValue(factor, v.startingWeight) else 0
  }

  ghost function ValidatorEscrow(factor: nat, pos: set<ValidationID>): (ValidationID, Validator) -> nat {
    (id: ValidationID, v: Validator) => OwedToValidator(factor, id in pos, v)
  }

  /** The tokens owed to the owner of a delegation. */
  ghost function DelegatorEscrow(factor: nat): (DelegationID, Delegator) -> nat {
    (_: DelegationID, d: Delegator) => TokenValue(factor, d.weight)
  }

  ghost predicate EscrowOK(
    factor: nat, balance: nat, periods: map<ValidationID, Validator>, pos: set<ValidationID>,
    delegations: map<DelegationID, Delegator>)
  {
    balance >= Sum(periods, ValidatorEscrow(factor, pos)) + Sum(delegations, DelegatorEscrow(factor))
  }

  // ----- Rewards -----

  ghost function Amount<K(!new)>(): (K, nat) -> nat {
    (_: K, n: nat) => n
  }

  /** Everything awarded has been minted or can still be redeemed. */
  ghost predicate LedgerOK(
    awarded: nat, minted: nat, validatorRewards: map<ValidationID, nat>, delegatorRewards: map<DelegationID, nat>)
  {
    awarded == minted + Sum(validatorRewards, Amount()) + Sum(delegatorRewards, Amount())
  }

  ghost predicate RewardsOK(delegatorRewards: map<DelegationID, nat>, delegations: map<DelegationID, Delegator>) {
    forall k :: RewardAt(delegatorRewards, delegations, k)
  }

  ghost predicate RewardAt(
    delegatorRewards: map<DelegationID, nat>, delegations: map<DelegationID, Delegator>, k: DelegationID)
  {
    k in delegatorRewards ==> k in delegations && delegations[k].status == DelegatorStatus.PendingRemoved
  }

  // ----- Weight messages -----

  /**
   Messages with nonces 1, 2, 3, ... in this order, where a message may be repeated verbatim before the next one, and
   the last one carries the given nonce and weight.
   */
  ghost predicate Staircase(messages: seq<WeightMessage>, nonce: nat, weight: nat) {
    if messages == [] then nonce == 0
    else
      && nonce >= 1
      && messages[0].nonce == 1
      && messages[|messages| - 1] == WeightMessage(nonce, weight)
      && (forall i :: 0 < i < |messages| ==>
            messages[i] == messages[i - 1] || messages[i].nonce == messages[i - 1].nonce + 1)
  }

  ghost predicate MessagesOK(messages: map<ValidationID, seq<WeightMessage>>, periods: map<ValidationID, Validator>) {
    forall id :: MessagesAt(messages, periods, id)
  }

  ghost predicate MessagesAt(
    messages: map<ValidationID, seq<WeightMessage>>, periods: map<ValidationID, Validator>, id: ValidationID)
  {
    Staircase(GetOr(messages, id, []), GetOr(periods, id, NO_VALIDATOR).messageNonce,
              GetOr(periods, id, NO_VALIDATOR).weight)
  }

  // ----- Stakes -----

  /** The whole tokens that a deposit is worth in weight. */
  function Worth(factor: nat, value: nat): nat
    requires factor != 0
  {
    value / factor
  }

  ghost predicate ValidatorStakeAt(
    factor: nat, locked: map<Stake, seq<Deposit>>, unlocked: map<Stake, seq<Payment>>,
    periods: map<ValidationID, Validator>, info: map<ValidationID, PoSValidatorInfo>, id: ValidationID)
    requires factor != 0
  {
    var ins := GetOr(locked, ValidatorStake(id), []);
    var outs := GetOr(unlocked, ValidatorStake(id), []);
    if id in info then
      && id in periods
      && |ins| == 1 && ins[0].from == info[id].owner && Worth(factor, ins[0].value) == periods[id].startingWeight
      && outs == if Live(periods[id].status) then []
                 else [Payment(info[id].owner, TokenValue(factor, periods[id].startingWeight))]
    else ins == [] && outs == []
  }

  ghost predicate ValidatorStakesOK(
    factor: nat, locked: map<Stake, seq<Deposit>>, unlocked: map<Stake, seq<Payment>>,
    periods: map<ValidationID, Validator>, info: map<ValidationID, PoSValidatorInfo>)
    requires factor != 0
  {
    forall id :: ValidatorStakeAt(factor, locked, unlocked, periods, info, id)
  }

  /** A delegation that has ended, or never was. */
  ghost predicate PastDelegation(factor: nat, ins: seq<Deposit>, outs: seq<Payment>, nonce: nat, messageNonce: nat)
    requires factor != 0
  {
    || (ins == [] && outs == [])
    || (&& |ins| == 1 && nonce <= messageNonce
        && outs == [Payment(ins[0].from, TokenValue(factor, Worth(factor, ins[0].value)))])
  }

  ghost predicate DelegatorStakeAt(
    factor: nat, locked: map<Stake, seq<Deposit>>, unlocked: map<Stake, seq<Payment>>,
    periods: map<ValidationID, Validator>, delegations: map<DelegationID, Delegator>, k: DelegationID)
    requires factor != 0
  {
    var ins := GetOr(locked, DelegatorStake(k), []);
    var outs := GetOr(unlocked, DelegatorStake(k), []);
    if k in delegations then
      && |ins| == 1 && ins[0].from == delegations[k].owner && Worth(factor, ins[0].value) == delegations[k].weight
      && outs == []
    else PastDelegation(factor, ins, outs, k.nonce, GetOr(periods, k.validationID, NO_VALIDATOR).messageNonce)
  }

  ghost predicate DelegatorStakesOK(
    factor: nat, locked: map<Stake, seq<Deposit>>, unlocked: map<Stake, seq<Payment>>,
    periods: map<ValidationID, Validator>, delegations: map<DelegationID, Delegator>)
    requires factor != 0
  {
    forall k :: DelegatorStakeAt(factor, locked, unlocked, periods, delegations, k)
  }

  // ----- Churn -----

  ghost predicate ChurnOK(
    limit: Limit, now: nat, initialized: bool, tracker: Tracker, total: nat, changes: seq<Change>)
  {
    && Chronological(changes)
    && (forall i :: 0 <= i < |changes| ==> changes[i].now <= now)
    && Replay(limit, total, changes, |changes|) == Ok(tracker)
    && (!initialized ==> changes == [] && tracker == Fresh(0))
  }

  ghost predicate Invariant(cfg: Settings, now: nat, s: State)
    requires cfg.weightToValueFactor != 0
  {
    && InvariantExceptRewards(cfg, now, s)
    && RewardsOK(s.redeemableDelegatorRewards, s.delegatorStakes)
  }

  ghost predicate InvariantExceptRewards(cfg: Settings, now: nat, s: State)
    requires cfg.weightToValueFactor != 0
  {
    var pos := s.posValidatorInfo.Keys;
    var h := s.history;
    var factor := cfg.weightToValueFactor;
    && WeightsOK(cfg, s.validationPeriods, s.delegatorStakes)
    && DelegationsOK(s.validationPeriods, pos, s.delegatorStakes)
    && TotalOK(cfg, s.initializedValidatorSet, s.churnTracker.totalWeight, s.validationPeriods)
    && RegistryOK(s.registeredValidators, s.validationPeriods)
    && IdentityOK(s.pendingRegisterValidationMessages, s.validationPeriods, pos)
    && EscrowOK(factor, s.balance, s.validationPeriods, pos, s.delegatorStakes)
    && LedgerOK(h.awarded, Total(h.minted), s.redeemableValidatorRewards, s.redeemableDelegatorRewards)
    && MessagesOK(h.weightMessages, s.validationPeriods)
    && ValidatorStakesOK(factor, h.locked, h.unlocked, s.validationPeriods, s.posValidatorInfo)
    && DelegatorStakesOK(factor, h.locked, h.unlocked, s.validationPeriods, s.delegatorStakes)
    && ChurnOK(cfg.churn, now, s.initializedValidatorSet, s.churnTracker, h.initialTotal, h.changes)
  }

  /** The validation ID that a registration would use. */
  function NewID(cfg: Settings, call: Call): ValidationID
    requires call.CallInitializeValidatorRegistration? && cfg.weightToValueFactor != 0
  {
    Registered(RegistrationMessage(cfg, call.input, call.received / cfg.weightToValueFactor))
  }

  /** A successful registration does not repeat an earlier one. The contract does not check this. */
  ghost predicate FreshID(cfg: Settings, s: State, tx: Transaction)
    requires cfg.weightToValueFactor != 0
  {
    tx.call.CallInitializeValidatorRegistration? && Step(cfg, s, tx).Ok? ==>
      NewID(cfg, tx.call) !in s.validationPeriods
  }
}
