/**
 The calls of the proof-of-stake validator manager as functions on its state. Each returns the new state or the reason
 to revert.
 */
module StakingSpec {
  import opened Wrappers
  import opened Numeric
  import opened MessageTypes
  import opened ConversionMessage
  import opened ChurnTracker
  import opened StakingTypes

  // ----- Helpers shared by the calls -----

  function FromChurn<T>(r: Result<T, ChurnError>): Result<T, Error> {
    match r
    case Ok(t) => Ok(t)
    case Revert(Panic) => Revert(Error.Panic)
    case Revert(MaxChurnRateExceeded) => Revert(Error.MaxChurnRateExceeded)
    case Revert(InvalidTotalWeight) => Revert(Error.InvalidTotalWeight)
  }

  function ValueToWeight(cfg: Settings, value: nat): Result<nat, Error>
    requires cfg.weightToValueFactor != 0
  {
    var weight := value / cfg.weightToValueFactor;
    if weight == 0 || weight > MAX_UINT64 then Revert(InvalidStakeAmount) else Ok(weight)
  }

  function WeightToValue(cfg: Settings, weight: nat): Result<nat, Error> {
    Checked256(TokenValue(cfg.weightToValueFactor, weight), Error.Panic)
  }

  /** The churn check, recorded in the history. */
  function Churn(cfg: Settings, now: Timestamp, s: State, newWeight: nat, oldWeight: nat): Result<State, Error> {
    var change := Change(now, newWeight, oldWeight);
    var tracker :- FromChurn(CheckAndUpdate(cfg.churn, s.churnTracker, change));
    Ok(s.(churnTracker := tracker, history := s.history.(changes := s.history.changes + [change])))
  }

  /** A weight update message handed to the precompile. */
  function SendWeight(s: State, id: ValidationID, nonce: nat, weight: nat): State {
    s.(history := s.history.(
      weightMessages := Append(s.history.weightMessages, id, WeightMessage(nonce, weight))))
  }

  function SetValidatorWeight(cfg: Settings, now: Timestamp, s: State, id: ValidationID, newWeight: nat)
    : (r: Result<State, Error>)
    ensures r.Ok? ==> r.value.delegatorStakes == s.delegatorStakes
  {
    var v := ValidatorOf(s, id);
    var s1 :- Churn(cfg, now, s, newWeight, v.weight);
    var nonce :- Checked64(v.messageNonce + 1, Error.Panic);
    var s2 := s1.(validationPeriods := s1.validationPeriods[id := v.(messageNonce := nonce, weight := newWeight)]);
    Ok(SendWeight(s2, id, nonce, newWeight))
  }

  /** Tokens arriving as stake; `received` is the measured increase of the balance. */
  function Lock(s: State, stake: Stake, from: Address, received: Uint256): State {
    s.(balance := s.balance + received,
       history := s.history.(locked := Append(s.history.locked, stake, Deposit(from, received))))
  }

  /** Returning stake to its owner. */
  function Unlock(cfg: Settings, s: State, stake: Stake, to: Address, value: nat): Result<State, Error> {
    var _ :- Require(value <= s.balance, TokenTransferFailed);
    Ok(s.(balance := if to == cfg.managerAddress then s.balance else s.balance - value,
          history := s.history.(unlocked := Append(s.history.unlocked, stake, Payment(to, value)))))
  }

  /** Minting a reward. */
  function Mint(cfg: Settings, s: State, to: Address, value: nat): State {
    s.(balance := if to == cfg.managerAddress then s.balance + value else s.balance,
       history := s.history.(minted := s.history.minted + [Payment(to, value)]))
  }

  function WithdrawValidationRewards(cfg: Settings, s: State, to: Address, id: ValidationID): State {
    var rewards := GetOr(s.redeemableValidatorRewards, id, 0);
    Mint(cfg, s.(redeemableValidatorRewards := s.redeemableValidatorRewards - {id}), to, rewards)
  }

  // ----- Initial validators -----

  predicate Sorted(addresses: seq<nat>) {
    forall i :: 0 < i < |addresses| ==> addresses[i - 1] <= addresses[i]
  }

  function ValidatePChainOwner(owner: PChainOwner): Result<(), Error> {
    var _ :- Require(owner.threshold == 0 ==> owner.addresses == [], InvalidPChainOwnerThreshold);
    var _ :- Require(owner.threshold <= |owner.addresses|, InvalidPChainOwnerThreshold);
    Require(Sorted(owner.addresses), PChainOwnerAddressesNotSorted)
  }

  /** Storing the first `n` initial validators, counted in 32 bits; the second component is their total weight. */
  function StoreInitialValidators(now: Timestamp, s: State, data: ConversionData, n: nat): Result<(State, nat), Error>
    requires n <= |data.initialValidators|
  {
    if n == 0 then Ok((s, 0))
    else
      var (s1, sum) :- StoreInitialValidators(now, s, data, n - 1);
      var v := data.initialValidators[n - 1];
      var _ :- Require(v.nodeID !in s1.registeredValidators, NodeAlreadyRegistered);
      var id := Initial(data.subnetID, n - 1);
      var total :- Checked64(sum + v.weight, Error.Panic);
      var _ :- Require(n <= MAX_UINT32, Error.Panic);
      Ok((s1.(registeredValidators := s1.registeredValidators[v.nodeID := id],
              validationPeriods := s1.validationPeriods[
                id := Validator(ValidatorStatus.Active, v.nodeID, v.weight, 0, v.weight, now, 0)]),
          total))
  }

  /** `proof` is what the P-Chain vouches for: the bytes whose hash is the conversion ID it sent. */
  function InitializeValidatorSet(
    cfg: Settings, now: Timestamp, s: State, data: ConversionData, proof: Option<seq<Byte>>)
    : Result<State, Error>
  {
    var _ :- Require(!s.initializedValidatorSet, InvalidInitializationStatus);
    var _ :- Require(data.validatorManagerBlockchainID == cfg.blockchainID, InvalidValidatorManagerBlockchainID);
    var _ :- Require(data.validatorManagerAddress == cfg.managerAddress, InvalidValidatorManagerAddress);
    var (s1, total) :- StoreInitialValidators(now, s, data, |data.initialValidators|);
    var scaled :- Checked64(total * cfg.churn.maximumPercentage, Error.Panic);
    var _ :- Require(scaled >= 100, Error.InvalidTotalWeight);
    var _ :- Require(proof.Some?, InvalidWarpMessage);
    var _ :- Require(PackConversionData(data) == proof.value, InvalidConversionID);
    Ok(s1.(churnTracker := s1.churnTracker.(totalWeight := total),
           initializedValidatorSet := true,
           history := s1.history.(initialTotal := total)))
  }

  // ----- Validator registration -----

  /** The message that registers a validator, and whose hash is the validation ID. */
  function RegistrationMessage(cfg: Settings, input: RegistrationInput, weight: nat): ValidationPeriod {
    ValidationPeriod(cfg.subnetID, input.nodeID, input.blsPublicKey, input.registrationExpiry,
                     input.remainingBalanceOwner, input.disableOwner, weight)
  }

  /** Registration in the base contract: checks, churn, and the new period. */
  function RegisterPeriod(cfg: Settings, now: Timestamp, s: State, input: RegistrationInput, weight: nat)
    : Result<State, Error>
  {
    var _ :- Require(s.initializedValidatorSet, InvalidInitializationStatus);
    var _ :- Require(now < input.registrationExpiry < now + MAXIMUM_REGISTRATION_EXPIRY_LENGTH,
                     InvalidRegistrationExpiry);
    var _ :- Require(weight + s.churnTracker.totalWeight <= MAX_UINT64, Error.InvalidTotalWeight);
    var _ :- ValidatePChainOwner(input.remainingBalanceOwner);
    var _ :- ValidatePChainOwner(input.disableOwner);
    var _ :- Require(|input.blsPublicKey| == BLS_PUBLIC_KEY_LENGTH, InvalidBLSKeyLength);
    var _ :- Require(input.nodeID != [], InvalidNodeID);
    var _ :- Require(input.nodeID !in s.registeredValidators, NodeAlreadyRegistered);
    var s1 :- Churn(cfg, now, s, weight, 0);
    var message := RegistrationMessage(cfg, input, weight);
    var id := Registered(message);
    Ok(s1.(pendingRegisterValidationMessages := s1.pendingRegisterValidationMessages[id := message],
           registeredValidators := s1.registeredValidators[input.nodeID := id],
           validationPeriods := s1.validationPeriods[
             id := Validator(ValidatorStatus.PendingAdded, input.nodeID, weight, 0, weight, 0, 0)]))
  }

  function InitializeValidatorRegistration(
    cfg: Settings, now: Timestamp, caller: Account, s: State,
    input: RegistrationInput, delegationFeeBips: nat, minStakeDuration: nat, stakeAmount: nat, received: Uint256)
    : Result<(State, ValidationID), Error>
    requires cfg.weightToValueFactor != 0
  {
    var _ :- Require(cfg.minimumDelegationFeeBips <= delegationFeeBips <= MAXIMUM_DELEGATION_FEE_BIPS,
                     InvalidDelegationFee);
    var _ :- Require(minStakeDuration >= cfg.minimumStakeDuration, InvalidMinStakeDuration);
    var _ :- Require(cfg.minimumStakeAmount <= stakeAmount <= cfg.maximumStakeAmount, InvalidStakeAmount);
    var _ :- Require(received > 0, BalanceNotIncreased);
    var weight :- ValueToWeight(cfg, received);
    var s1 :- RegisterPeriod(cfg, now, s, input, weight);
    var id := Registered(RegistrationMessage(cfg, input, weight));
    Ok((Lock(s1.(posValidatorInfo := s1.posValidatorInfo[
                   id := PoSValidatorInfo(caller, delegationFeeBips, minStakeDuration, 0)],
                 rewardRecipients := s1.rewardRecipients[id := caller]),
             ValidatorStake(id), caller, received),
        id))
  }

  function CompleteValidatorRegistration(now: Timestamp, s: State, proof: Option<RegistrationProof>)
    : Result<State, Error>
  {
    var _ :- Require(proof.Some?, InvalidWarpMessage);
    var id := proof.value.validationID;
    var v := ValidatorOf(s, id);
    var _ :- Require(proof.value.valid, UnexpectedRegistrationStatus);
    var _ :- Require(id in s.pendingRegisterValidationMessages, InvalidValidationID);
    var _ :- Require(v.status == ValidatorStatus.PendingAdded, InvalidValidatorStatus);
    Ok(s.(pendingRegisterValidationMessages := s.pendingRegisterValidationMessages - {id},
          validationPeriods := s.validationPeriods[id := v.(status := ValidatorStatus.Active, startedAt := now)]))
  }

  // ----- Uptime and rewards -----

  /** Stores a larger uptime; PoS validators only. */
  function UpdateUptime(s: State, id: ValidationID, proof: Option<UptimeProof>): Result<State, Error>
    requires IsPoS(s, id)
  {
    var _ :- Require(proof.Some?, InvalidWarpMessage);
    var _ :- Require(proof.value.validationID == id, InvalidValidationID);
    var info := s.posValidatorInfo[id];
    if proof.value.uptime > info.uptimeSeconds then
      Ok(s.(posValidatorInfo := s.posValidatorInfo[id := info.(uptimeSeconds := proof.value.uptime)]))
    else Ok(s)
  }

  function MaybeUpdateUptime(s: State, id: ValidationID, withProof: bool, proof: Option<UptimeProof>)
    : (r: Result<State, Error>)
    requires IsPoS(s, id)
    ensures r.Ok? ==> r.value == s.(posValidatorInfo := r.value.posValidatorInfo)
    ensures r.Ok? ==> r.value.posValidatorInfo.Keys == s.posValidatorInfo.Keys
  {
    if withProof then UpdateUptime(s, id, proof) else Ok(s)
  }

  function SubmitUptimeProof(s: State, id: ValidationID, proof: Option<UptimeProof>): Result<State, Error> {
    var _ :- Require(IsPoS(s, id), ValidatorNotPoS);
    var _ :- Require(StatusOf(s, id) == ValidatorStatus.Active, InvalidValidatorStatus);
    UpdateUptime(s, id, proof)
  }

  function CalculateReward(cfg: Settings, weight: nat, validatorStart: nat, start: nat, end: nat, uptime: nat)
    : Result<nat, Error>
  {
    var stake :- WeightToValue(cfg, weight);
    var reward := cfg.rewardCalculator(RewardArgs(stake, validatorStart, start, end, uptime));
    var _ :- Require(reward.Some?, RewardCalculatorReverted);
    Checked256(reward.value, Error.Panic)
  }

  // ----- End of a validation period -----

  /** The end in the base contract. */
  function EndPeriod(cfg: Settings, now: Timestamp, s: State, id: ValidationID): Result<State, Error> {
    var v := ValidatorOf(s, id);
    var _ :- Require(v.status == ValidatorStatus.Active, InvalidValidatorStatus);
    var s1 := s.(validationPeriods := s.validationPeriods[
                   id := v.(status := ValidatorStatus.PendingRemoved, endedAt := now)]);
    SetValidatorWeight(cfg, now, s1, id, 0)
  }

  /** A reward becomes redeemable. */
  function AddValidatorReward(s: State, id: ValidationID, recipient: Address, reward: nat): Result<State, Error>
    requires IsPoS(s, id)
  {
    var redeemable :- Checked256(GetOr(s.redeemableValidatorRewards, id, 0) + reward, Error.Panic);
    Ok(s.(redeemableValidatorRewards := s.redeemableValidatorRewards[id := redeemable],
          rewardRecipients := s.rewardRecipients[
            id := if recipient == 0 then s.posValidatorInfo[id].owner else recipient],
          history := s.history.(awarded := s.history.awarded + reward)))
  }

  /** What a PoS validator is awarded when its period ends. */
  function AwardValidator(cfg: Settings, s: State, id: ValidationID, recipient: Address)
    : (r: Result<(State, nat), Error>)
    requires IsPoS(s, id)
    ensures r.Ok? ==> r.value.0.validationPeriods == s.validationPeriods
                      && r.value.0.delegatorStakes == s.delegatorStakes
  {
    var v := ValidatorOf(s, id);
    var info := s.posValidatorInfo[id];
    var reward :- CalculateReward(cfg, v.startingWeight, v.startedAt, v.startedAt, v.endedAt, info.uptimeSeconds);
    var s1 :- AddValidatorReward(s, id, recipient, reward);
    Ok((s1, reward))
  }

  /** The end of a PoS period: who may end it, when, and what it is awarded. */
  function SettlePoSPeriod(
    cfg: Settings, caller: Account, s: State,
    id: ValidationID, includeUptimeProof: bool, proof: Option<UptimeProof>, recipient: Address, force: bool)
    : (r: Result<State, Error>)
    requires IsPoS(s, id)
    ensures r.Ok? ==> r.value.validationPeriods == s.validationPeriods && r.value.delegatorStakes == s.delegatorStakes
  {
    var v := ValidatorOf(s, id);
    var _ :- Require(caller == s.posValidatorInfo[id].owner, UnauthorizedOwner);
    var earliest :- Checked64(v.startedAt + s.posValidatorInfo[id].minStakeDuration, Error.Panic);
    var _ :- Require(v.endedAt >= earliest, MinStakeDurationNotPassed);
    var s1 :- MaybeUpdateUptime(s, id, includeUptimeProof, proof);
    var (s2, reward) :- AwardValidator(cfg, s1, id, recipient);
    var _ :- Require(force || reward > 0, ValidatorIneligibleForRewards);
    Ok(s2)
  }

  /** `initializeEndValidation`, or with `force` the variant that does not insist on a reward. */
  function InitializeEndValidation(
    cfg: Settings, now: Timestamp, caller: Account, s: State,
    id: ValidationID, includeUptimeProof: bool, proof: Option<UptimeProof>, recipient: Address, force: bool)
    : Result<State, Error>
  {
    var s1 :- EndPeriod(cfg, now, s, id);
    if IsPoS(s1, id) then SettlePoSPeriod(cfg, caller, s1, id, includeUptimeProof, proof, recipient, force) else Ok(s1)
  }

  function ResendEndValidatorMessage(s: State, id: ValidationID): Result<State, Error> {
    var v := ValidatorOf(s, id);
    var _ :- Require(v.status == ValidatorStatus.PendingRemoved, InvalidValidatorStatus);
    Ok(SendWeight(s, id, v.messageNonce, 0))
  }

  /** The acknowledged end in the base contract. */
  function ClosePeriod(s: State, proof: Option<RegistrationProof>): Result<State, Error> {
    var _ :- Require(proof.Some?, InvalidWarpMessage);
    var _ :- Require(!proof.value.valid, UnexpectedRegistrationStatus);
    var id := proof.value.validationID;
    var v := ValidatorOf(s, id);
    var _ :- Require(v.status == ValidatorStatus.PendingRemoved || v.status == ValidatorStatus.PendingAdded,
                     InvalidValidatorStatus);
    var status := if v.status == ValidatorStatus.PendingRemoved then ValidatorStatus.Completed
                  else ValidatorStatus.Invalidated;
    Ok(s.(registeredValidators := s.registeredValidators - {v.nodeID},
          validationPeriods := s.validationPeriods[id := v.(status := status)]))
  }

  /** A closed PoS period is paid: rewards to the recipient if it completed, and the stake to its owner. */
  function PayOut(cfg: Settings, s: State, id: ValidationID): Result<State, Error>
    requires IsPoS(s, id)
  {
    var v := ValidatorOf(s, id);
    var owner := s.posValidatorInfo[id].owner;
    var stored := GetOr(s.rewardRecipients, id, 0);
    var recipient := if stored == 0 then owner else stored;
    var s1 := s.(rewardRecipients := s.rewardRecipients - {id});
    var s2 := if v.status == ValidatorStatus.Completed then WithdrawValidationRewards(cfg, s1, recipient, id) else s1;
    var value :- WeightToValue(cfg, v.startingWeight);
    Unlock(cfg, s2, ValidatorStake(id), owner, value)
  }

  function CompleteEndValidation(cfg: Settings, s: State, proof: Option<RegistrationProof>): Result<State, Error> {
    var s1 :- ClosePeriod(s, proof);
    var id := proof.value.validationID;
    if IsPoS(s1, id) then PayOut(cfg, s1, id) else Ok(s1)
  }

  function ClaimDelegationFees(cfg: Settings, caller: Account, s: State, id: ValidationID): Result<State, Error> {
    var _ :- Require(StatusOf(s, id) == ValidatorStatus.Completed, InvalidValidatorStatus);
    var _ :- Require(PoSOwner(s, id) == caller, UnauthorizedOwner);
    Ok(WithdrawValidationRewards(cfg, s, caller, id))
  }

  // ----- Delegation -----

  /** The weight of an active PoS validator with `weight` more delegated to it, within its limit. */
  function WeightWithDelegation(cfg: Settings, s: State, id: ValidationID, weight: nat): Result<nat, Error> {
    var v := ValidatorOf(s, id);
    var _ :- Require(IsPoS(s, id), ValidatorNotPoS);
    var _ :- Require(v.status == ValidatorStatus.Active, InvalidValidatorStatus);
    var newWeight :- Checked64(v.weight + weight, Error.Panic);
    var limit :- Checked64(v.startingWeight * cfg.maximumStakeMultiplier, Error.Panic);
    var _ :- Require(newWeight <= limit, MaxWeightExceeded);
    Ok(newWeight)
  }

  function InitializeDelegatorRegistration(
    cfg: Settings, now: Timestamp, caller: Account, s: State, id: ValidationID, received: Uint256)
    : Result<(State, DelegationID), Error>
    requires cfg.weightToValueFactor != 0
  {
    var _ :- Require(received > 0, BalanceNotIncreased);
    var weight :- ValueToWeight(cfg, received);
    var newWeight :- WeightWithDelegation(cfg, s, id, weight);
    var s1 :- SetValidatorWeight(cfg, now, s, id, newWeight);
    var nonce := ValidatorOf(s1, id).messageNonce;
    var delegationID := DelegationID(id, nonce);
    var d := Delegator(DelegatorStatus.PendingAdded, caller, id, weight, 0, nonce, 0);
    Ok((Lock(s1.(delegatorStakes := s1.delegatorStakes[delegationID := d]),
             DelegatorStake(delegationID), caller, received),
        delegationID))
  }

  /** The state in which the rewards of a finished delegation are withdrawn. */
  function WithoutDelegation(s: State, k: DelegationID): State {
    s.(delegatorStakes := s.delegatorStakes - {k}, delegatorRewardRecipients := s.delegatorRewardRecipients - {k})
  }

  function FinalRecipient(s: State, k: DelegationID): Address
    requires k in s.delegatorStakes
  {
    var stored := GetOr(s.delegatorRewardRecipients, k, 0);
    if stored == 0 then s.delegatorStakes[k].owner else stored
  }

  /**
   The finishing step: the delegation is deleted, its reward is split between the validator (fee) and the delegator
   (minted), and the stake goes back to its owner.
   */
  function FinishDelegation(cfg: Settings, now: Timestamp, s: State, delegationID: DelegationID): Result<State, Error>
    requires delegationID in s.delegatorStakes
  {
    var d := s.delegatorStakes[delegationID];
    var earliest :- Checked64(d.startedAt + cfg.churn.periodSeconds, Error.Panic);
    var _ :- Require(now >= earliest, MinStakeDurationNotPassed);
    var s2 :- WithdrawDelegationRewards(cfg, WithoutDelegation(s, delegationID), FinalRecipient(s, delegationID),
                                        delegationID, d.validationID);
    var value :- WeightToValue(cfg, d.weight);
    Unlock(cfg, s2, DelegatorStake(delegationID), d.owner, value)
  }

  /** The validator's part of a delegation reward. */
  function DelegationFee(s: State, id: ValidationID, rewards: nat): Result<nat, Error> {
    var bips := if IsPoS(s, id) then s.posValidatorInfo[id].delegationFeeBips else 0;
    var scaled :- Checked256(rewards * bips, Error.Panic);
    Ok(scaled / BIPS_CONVERSION_FACTOR)
  }

  /** The fee becomes redeemable by the validator, the rest is minted. */
  function SplitReward(cfg: Settings, s: State, to: Address, id: ValidationID, rewards: nat): Result<State, Error> {
    var fee :- DelegationFee(s, id, rewards);
    var redeemable :- Checked256(GetOr(s.redeemableValidatorRewards, id, 0) + fee, Error.Panic);
    var share :- Checked256(rewards - fee, Error.Panic);
    Ok(Mint(cfg, s.(redeemableValidatorRewards := s.redeemableValidatorRewards[id := redeemable]), to, share))
  }

  function WithdrawDelegationRewards(
    cfg: Settings, s: State, to: Address, delegationID: DelegationID, id: ValidationID)
    : Result<State, Error>
  {
    var rewards := GetOr(s.redeemableDelegatorRewards, delegationID, 0);
    var s1 := s.(redeemableDelegatorRewards := s.redeemableDelegatorRewards - {delegationID});
    if rewards == 0 then Ok(s1) else SplitReward(cfg, s1, to, id, rewards)
  }

  function CompleteDelegatorRegistration(
    cfg: Settings, now: Timestamp, s: State, delegationID: DelegationID, proof: Option<WeightProof>)
    : Result<State, Error>
  {
    var _ :- Require(delegationID in s.delegatorStakes, InvalidDelegatorStatus);
    var d := s.delegatorStakes[delegationID];
    var v := ValidatorOf(s, d.validationID);
    var _ :- Require(d.status == DelegatorStatus.PendingAdded, InvalidDelegatorStatus);
    if v.status == ValidatorStatus.Completed then FinishDelegation(cfg, now, s, delegationID)
    else
      var _ :- Require(proof.Some?, InvalidWarpMessage);
      var _ :- Require(proof.value.validationID == d.validationID, InvalidValidationID);
      var _ :- Require(d.startingNonce <= proof.value.nonce <= v.messageNonce, InvalidNonce);
      Ok(s.(delegatorStakes := s.delegatorStakes[
              delegationID := d.(status := DelegatorStatus.Active, startedAt := now)]))
  }

  /** Stores what a delegation has earned, if it began before the validation ended. */
  function AwardDelegator(cfg: Settings, now: Timestamp, s: State, delegationID: DelegationID, recipient: Address)
    : (r: Result<(State, nat), Error>)
    requires delegationID in s.delegatorStakes
    ensures r.Ok? ==> r.value.0.delegatorStakes == s.delegatorStakes
  {
    var d := s.delegatorStakes[delegationID];
    var v := ValidatorOf(s, d.validationID);
    var end :-
      if v.status == ValidatorStatus.PendingRemoved || v.status == ValidatorStatus.Completed then Ok(v.endedAt)
      else if v.status == ValidatorStatus.Active then Ok(now)
      else Revert(InvalidValidatorStatus);
    if end <= d.startedAt then Ok((s, 0))
    else
      var uptime := if IsPoS(s, d.validationID) then s.posValidatorInfo[d.validationID].uptimeSeconds else 0;
      var reward :- CalculateReward(cfg, d.weight, v.startedAt, d.startedAt, end, uptime);
      Ok((s.(redeemableDelegatorRewards := s.redeemableDelegatorRewards[delegationID := reward],
             delegatorRewardRecipients := s.delegatorRewardRecipients[
               delegationID := if recipient == 0 then d.owner else recipient],
             history := s.history.(awarded := s.history.awarded + reward)),
          reward))
  }

  /** Who may end a delegation: its owner, or the validator's owner once the validator's own minimum has passed. */
  function AuthorizeEndDelegation(now: Timestamp, caller: Account, s: State, d: Delegator): Result<(), Error> {
    if d.owner == caller then Ok(())
    else
      var _ :- Require(PoSOwner(s, d.validationID) == caller, UnauthorizedOwner);
      var earliest :- Checked64(ValidatorOf(s, d.validationID).startedAt
                                + s.posValidatorInfo[d.validationID].minStakeDuration, Error.Panic);
      Require(now >= earliest, MinStakeDurationNotPassed)
  }

  /** Ending a delegation while its validator is active: the weight update. */
  function Undelegate(cfg: Settings, now: Timestamp, s: State, delegationID: DelegationID)
    : (r: Result<State, Error>)
    requires delegationID in s.delegatorStakes
    ensures r.Ok? ==> delegationID in r.value.delegatorStakes
  {
    var d := s.delegatorStakes[delegationID];
    var newWeight :- Checked64(ValidatorOf(s, d.validationID).weight - d.weight, Error.Panic);
    var s1 :- SetValidatorWeight(cfg, now, s, d.validationID, newWeight);
    var nonce := ValidatorOf(s1, d.validationID).messageNonce;
    Ok(s1.(delegatorStakes := s1.delegatorStakes[
             delegationID := d.(status := DelegatorStatus.PendingRemoved, endingNonce := nonce)]))
  }

  /** The end of a delegation whose validator is active. */
  function EndWhileActive(
    cfg: Settings, now: Timestamp, s: State,
    delegationID: DelegationID, includeUptimeProof: bool, proof: Option<UptimeProof>, recipient: Address, force: bool)
    : Result<State, Error>
    requires delegationID in s.delegatorStakes
  {
    var d := s.delegatorStakes[delegationID];
    var earliest :- Checked64(d.startedAt + cfg.minimumStakeDuration, Error.Panic);
    var _ :- Require(now >= earliest, MinStakeDurationNotPassed);
    var _ :- Require(IsPoS(s, d.validationID), ValidatorNotPoS);
    var s1 :- MaybeUpdateUptime(s, d.validationID, includeUptimeProof, proof);
    var s2 :- Undelegate(cfg, now, s1, delegationID);
    var (s3, reward) :- AwardDelegator(cfg, now, s2, delegationID, recipient);
    var _ :- Require(force || reward > 0, DelegatorIneligibleForRewards);
    Ok(s3)
  }

  /** `initializeEndDelegation`, or with `force` the variant that does not insist on a reward. */
  function InitializeEndDelegation(
    cfg: Settings, now: Timestamp, caller: Account, s: State,
    delegationID: DelegationID, includeUptimeProof: bool, proof: Option<UptimeProof>, recipient: Address, force: bool)
    : Result<State, Error>
  {
    var _ :- Require(delegationID in s.delegatorStakes, InvalidDelegatorStatus);
    var d := s.delegatorStakes[delegationID];
    var v := ValidatorOf(s, d.validationID);
    var _ :- Require(d.status == DelegatorStatus.Active, InvalidDelegatorStatus);
    var _ :- AuthorizeEndDelegation(now, caller, s, d);
    if v.status == ValidatorStatus.Active then
      EndWhileActive(cfg, now, s, delegationID, includeUptimeProof, proof, recipient, force)
    else
      var _ :- Require(v.status == ValidatorStatus.Completed, InvalidValidatorStatus);
      var (s1, _) :- AwardDelegator(cfg, now, s, delegationID, recipient);
      FinishDelegation(cfg, now, s1, delegationID)
  }

  function ResendUpdateDelegation(s: State, delegationID: DelegationID): Result<State, Error> {
    var _ :- Require(delegationID in s.delegatorStakes, InvalidDelegatorStatus);
    var d := s.delegatorStakes[delegationID];
    var v := ValidatorOf(s, d.validationID);
    var _ :- Require(d.status == DelegatorStatus.PendingAdded || d.status == DelegatorStatus.PendingRemoved,
                     InvalidDelegatorStatus);
    var _ :- Require(v.messageNonce != 0, InvalidDelegationID);
    Ok(SendWeight(s, d.validationID, v.messageNonce, v.weight))
  }

  function CompleteEndDelegation(
    cfg: Settings, now: Timestamp, s: State, delegationID: DelegationID, proof: Option<WeightProof>)
    : Result<State, Error>
  {
    var _ :- Require(delegationID in s.delegatorStakes, InvalidDelegatorStatus);
    var d := s.delegatorStakes[delegationID];
    var v := ValidatorOf(s, d.validationID);
    var _ :- Require(d.status == DelegatorStatus.PendingRemoved, InvalidDelegatorStatus);
    if v.status == ValidatorStatus.Completed then FinishDelegation(cfg, now, s, delegationID)
    else
      var _ :- Require(proof.Some?, InvalidWarpMessage);
      var _ :- Require(proof.value.validationID == d.validationID, InvalidValidationID);
      var _ :- Require(d.endingNonce <= proof.value.nonce, InvalidNonce);
      FinishDelegation(cfg, now, s, delegationID)
  }

  // ----- Reward recipients -----

  function ChangeValidatorRewardRecipient(caller: Account, s: State, id: ValidationID, recipient: Address)
    : Result<State, Error>
  {
    var _ :- Require(recipient != 0, InvalidRewardRecipient);
    var _ :- Require(PoSOwner(s, id) == caller, UnauthorizedOwner);
    Ok(s.(rewardRecipients := s.rewardRecipients[id := recipient]))
  }

  function ChangeDelegatorRewardRecipient(caller: Account, s: State, delegationID: DelegationID, recipient: Address)
    : Result<State, Error>
  {
    var _ :- Require(recipient != 0, InvalidRewardRecipient);
    var _ :- Require(delegationID in s.delegatorStakes && s.delegatorStakes[delegationID].owner == caller,
                     UnauthorizedOwner);
    Ok(s.(delegatorRewardRecipients := s.delegatorRewardRecipients[delegationID := recipient]))
  }

  // ----- The transition system -----

  datatype Call =
    | CallInitializeValidatorSet(data: ConversionData, conversionProof: Option<seq<Byte>>)
    | CallInitializeValidatorRegistration(input: RegistrationInput, delegationFeeBips: nat, minStakeDuration: nat,
                                          stakeAmount: nat, received: Uint256)
    | CallCompleteValidatorRegistration(registrationProof: Option<RegistrationProof>)
    | CallInitializeEndValidation(validationID: ValidationID, includeUptimeProof: bool,
                                  uptimeProof: Option<UptimeProof>, recipient: Address, force: bool)
    | CallCompleteEndValidation(registrationProof: Option<RegistrationProof>)
    | CallSubmitUptimeProof(validationID: ValidationID, uptimeProof: Option<UptimeProof>)
    | CallClaimDelegationFees(validationID: ValidationID)
    | CallInitializeDelegatorRegistration(validationID: ValidationID, received: Uint256)
    | CallCompleteDelegatorRegistration(delegationID: DelegationID, weightProof: Option<WeightProof>)
    | CallInitializeEndDelegation(delegationID: DelegationID, includeUptimeProof: bool,
                                  uptimeProof: Option<UptimeProof>, recipient: Address, force: bool)
    | CallCompleteEndDelegation(delegationID: DelegationID, weightProof: Option<WeightProof>)
    | CallResendEndValidatorMessage(validationID: ValidationID)
    | CallResendUpdateDelegation(delegationID: DelegationID)
    | CallChangeValidatorRewardRecipient(validationID: ValidationID, recipient: Address)
    | CallChangeDelegatorRewardRecipient(delegationID: DelegationID, recipient: Address)
    /** Somebody transfers staking tokens to the contract outside of it. */
    | Donate(value: nat)

  /** A transaction: who calls, when, and what. */
  datatype Transaction = Transaction(now: Timestamp, caller: Account, call: Call)

  function Step(cfg: Settings, s: State, tx: Transaction): Result<State, Error>
    requires cfg.weightToValueFactor != 0
  {
    match tx.call
    case CallInitializeValidatorSet(data, proof) => InitializeValidatorSet(cfg, tx.now, s, data, proof)
    case CallInitializeValidatorRegistration(input, fee, duration, amount, received) =>
      var (s1, _) :- InitializeValidatorRegistration(cfg, tx.now, tx.caller, s, input, fee, duration, amount, received);
      Ok(s1)
    case CallCompleteValidatorRegistration(proof) => CompleteValidatorRegistration(tx.now, s, proof)
    case CallInitializeEndValidation(id, withProof, proof, recipient, force) =>
      InitializeEndValidation(cfg, tx.now, tx.caller, s, id, withProof, proof, recipient, force)
    case CallCompleteEndValidation(proof) => CompleteEndValidation(cfg, s, proof)
    case CallSubmitUptimeProof(id, proof) => SubmitUptimeProof(s, id, proof)
    case CallClaimDelegationFees(id) => ClaimDelegationFees(cfg, tx.caller, s, id)
    case CallInitializeDelegatorRegistration(id, received) =>
      var (s1, _) :- InitializeDelegatorRegistration(cfg, tx.now, tx.caller, s, id, received);
      Ok(s1)
    case CallCompleteDelegatorRegistration(delegationID, proof) =>
      CompleteDelegatorRegistration(cfg, tx.now, s, delegationID, proof)
    case CallInitializeEndDelegation(delegationID, withProof, proof, recipient, force) =>
      InitializeEndDelegation(cfg, tx.now, tx.caller, s, delegationID, withProof, proof, recipient, force)
    case CallCompleteEndDelegation(delegationID, proof) => CompleteEndDelegation(cfg, tx.now, s, delegationID, proof)
    case CallResendEndValidatorMessage(id) => ResendEndValidatorMessage(s, id)
    case CallResendUpdateDelegation(delegationID) => ResendUpdateDelegation(s, delegationID)
    case CallChangeValidatorRewardRecipient(id, recipient) =>
      ChangeValidatorRewardRecipient(tx.caller, s, id, recipient)
    case CallChangeDelegatorRewardRecipient(delegationID, recipient) =>
      ChangeDelegatorRewardRecipient(tx.caller, s, delegationID, recipient)
    case Donate(value) => Ok(s.(balance := s.balance + value))
  }

  /** A reverted transaction leaves the state as it was. */
  function Execute(cfg: Settings, s: State, tx: Transaction): State
    requires cfg.weightToValueFactor != 0
  {
    match Step(cfg, s, tx)
    case Ok(s') => s'
    case Revert(_) => s
  }

  /** The state after a run of transactions from deployment. */
  function Run(cfg: Settings, txs: seq<Transaction>): State
    requires cfg.weightToValueFactor != 0
  {
    if txs == [] then DEPLOYED else Execute(cfg, Run(cfg, txs[..|txs| - 1]), txs[|txs| - 1])
  }
}
