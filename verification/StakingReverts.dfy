/**
 What a revert says. Whatever transaction reverts, its reason is true of the call and of the storage before it, and no
 call gives a reason that is not its own.
 */
module StakingReverts {
  import opened Wrappers
  import opened Numeric
  import opened MessageTypes
  import opened ConversionMessage
  import opened ChurnTracker
  import opened StakingTypes
  import opened StakingSpec
  import opened StakingInvariants
  import opened StakingValidatorCalls
  import opened StakingDelegationCalls
  import opened StakingTheorems
  import opened StakingProgress
  import opened StakingInitialSet
  import opened StakingAnswers
  import opened StakingDelegationAnswers

  // ----- Reasons -----

  /** The churn limit does not accept a change. */
  ghost predicate ChurnRefuses(cfg: Settings, now: nat, s: State, newWeight: nat, oldWeight: nat, e: Error) {
    var change := Change(now, newWeight, oldWeight);
    match e
    case MaxChurnRateExceeded => Refuses(cfg.churn, s.churnTracker, change, ChurnError.MaxChurnRateExceeded)
    case InvalidTotalWeight => Refuses(cfg.churn, s.churnTracker, change, ChurnError.InvalidTotalWeight)
    case Panic => Refuses(cfg.churn, s.churnTracker, change, ChurnError.Panic)
    case _ => false
  }

  /** A validator's weight cannot be set: the churn limit, or no nonce left for the message. */
  ghost predicate WeightRefused(cfg: Settings, now: nat, s: State, id: ValidationID, newWeight: nat, e: Error) {
    || ChurnRefuses(cfg, now, s, newWeight, ValidatorOf(s, id).weight, e)
    || (e == Error.Panic && ValidatorOf(s, id).messageNonce >= MAX_UINT64)
  }

  /** A deposit is not worth a weight of 64 bits. */
  ghost predicate DepositRefused(cfg: Settings, received: nat, e: Error)
    requires cfg.weightToValueFactor != 0
  {
    match e
    case BalanceNotIncreased => received == 0
    case InvalidStakeAmount =>
      && received > 0
      && (Worth(cfg.weightToValueFactor, received) == 0 || Worth(cfg.weightToValueFactor, received) > MAX_UINT64)
    case _ => false
  }

  ghost predicate OwnerRefused(owner: PChainOwner, e: Error) {
    match e
    case InvalidPChainOwnerThreshold =>
      (owner.threshold == 0 && owner.addresses != []) || owner.threshold > |owner.addresses|
    case PChainOwnerAddressesNotSorted =>
      exists i :: 0 < i < |owner.addresses| && owner.addresses[i - 1] > owner.addresses[i]
    case _ => false
  }

  ghost predicate SetRefused(cfg: Settings, s: State, data: ConversionData, proof: Option<seq<Byte>>, e: Error) {
    var vs, n := data.initialValidators, |data.initialValidators|;
    match e
    case InvalidInitializationStatus => s.initializedValidatorSet
    case InvalidValidatorManagerBlockchainID => data.validatorManagerBlockchainID != cfg.blockchainID
    case InvalidValidatorManagerAddress => data.validatorManagerAddress != cfg.managerAddress
    case NodeAlreadyRegistered => !DistinctNodes(vs, n)
    case InvalidTotalWeight => WeightUpTo(vs, n) * cfg.churn.maximumPercentage < 100
    case Panic => n > MAX_UINT32 || WeightUpTo(vs, n) * cfg.churn.maximumPercentage > MAX_UINT64
    case InvalidWarpMessage => proof.None?
    case InvalidConversionID => proof.Some? && proof.value != PackConversionData(data)
    case _ => false
  }

  ghost predicate NodeRefused(cfg: Settings, now: nat, s: State, input: RegistrationInput, weight: nat, e: Error) {
    || OwnerRefused(input.remainingBalanceOwner, e) || OwnerRefused(input.disableOwner, e)
    || (weight + s.churnTracker.totalWeight <= MAX_UINT64 && ChurnRefuses(cfg, now, s, weight, 0, e))
    || match e
       case InvalidInitializationStatus => !s.initializedValidatorSet
       case InvalidRegistrationExpiry => input.registrationExpiry <= now || input.registrationExpiry >= now + 172800
       case InvalidTotalWeight => weight + s.churnTracker.totalWeight > MAX_UINT64
       case InvalidBLSKeyLength => |input.blsPublicKey| != 48
       case InvalidNodeID => input.nodeID == []
       case NodeAlreadyRegistered => input.nodeID in s.registeredValidators
       case _ => false
  }

  ghost predicate TermsRefused(cfg: Settings, fee: nat, duration: nat, amount: nat, e: Error) {
    match e
    case InvalidDelegationFee => fee < cfg.minimumDelegationFeeBips || fee > 10000
    case InvalidMinStakeDuration => duration < cfg.minimumStakeDuration
    case InvalidStakeAmount => amount < cfg.minimumStakeAmount || amount > cfg.maximumStakeAmount
    case _ => false
  }

  ghost predicate CompletionRefused(s: State, proof: Option<RegistrationProof>, e: Error) {
    match e
    case InvalidWarpMessage => proof.None?
    case UnexpectedRegistrationStatus => proof.Some? && !proof.value.valid
    case InvalidValidationID => proof.Some? && proof.value.validationID !in s.pendingRegisterValidationMessages
    case InvalidValidatorStatus =>
      && proof.Some? && proof.value.validationID in s.pendingRegisterValidationMessages
      && StatusOf(s, proof.value.validationID) != ValidatorStatus.PendingAdded
    case _ => false
  }

  ghost predicate CloseRefused(s: State, proof: Option<RegistrationProof>, e: Error) {
    match e
    case InvalidWarpMessage => proof.None?
    case UnexpectedRegistrationStatus => proof.Some? && proof.value.valid
    case InvalidValidatorStatus =>
      && proof.Some? && StatusOf(s, proof.value.validationID) != ValidatorStatus.PendingRemoved
      && StatusOf(s, proof.value.validationID) != ValidatorStatus.PendingAdded
    case _ => false
  }

  ghost predicate UptimeRefused(id: ValidationID, asked: bool, proof: Option<UptimeProof>, e: Error) {
    match e
    case InvalidWarpMessage => asked && proof.None?
    case InvalidValidationID => asked && proof.Some? && proof.value.validationID != id
    case _ => false
  }

  /** There is no reward of 256 bits for a stake of this weight. */
  ghost predicate RewardRefused(cfg: Settings, weight: nat, validatorStart: nat, start: nat, end: nat, uptime: nat,
                                e: Error) {
    var stake := TokenValue(cfg.weightToValueFactor, weight);
    var answer := cfg.rewardCalculator(RewardArgs(stake, validatorStart, start, end, uptime));
    match e
    case RewardCalculatorReverted => answer.None?
    case Panic => stake > MAX_UINT256 || (answer.Some? && answer.value > MAX_UINT256)
    case _ => false
  }

  ghost predicate SettleRefused(cfg: Settings, now: nat, caller: Account, s: State, id: ValidationID, asked: bool,
                                proof: Option<UptimeProof>, force: bool, e: Error)
    requires IsPoS(s, id)
  {
    var v, info := ValidatorOf(s, id), s.posValidatorInfo[id];
    || UptimeRefused(id, asked, proof, e)
    || (e == UnauthorizedOwner && caller != info.owner)
    || ((e == MinStakeDurationNotPassed || e == Error.Panic) && now < v.startedAt + info.minStakeDuration)
    || (&& ProofFor(id, asked, proof)
        && var uptime := UptimeAfter(s, id, asked, proof);
        || RewardRefused(cfg, v.startingWeight, v.startedAt, v.startedAt, now, uptime, e)
        || (e == Error.Panic
            && GetOr(s.redeemableValidatorRewards, id, 0) + EndReward(cfg, now, v, uptime) > MAX_UINT256)
        || (e == ValidatorIneligibleForRewards && !force && EndReward(cfg, now, v, uptime) == 0))
  }

  ghost predicate DelegationRefused(cfg: Settings, now: nat, s: State, id: ValidationID, weight: nat, e: Error) {
    var v := ValidatorOf(s, id);
    || WeightRefused(cfg, now, s, id, v.weight + weight, e)
    || match e
       case ValidatorNotPoS => !IsPoS(s, id)
       case InvalidValidatorStatus => v.status != ValidatorStatus.Active
       case MaxWeightExceeded => v.weight + weight > v.startingWeight * cfg.maximumStakeMultiplier
       case Panic => v.weight + weight > MAX_UINT64 || v.startingWeight * cfg.maximumStakeMultiplier > MAX_UINT64
       case _ => false
  }

  /** An acknowledgement of a weight is missing, for another validator, or for other nonces. */
  ghost predicate AcknowledgementRefused(id: ValidationID, proof: Option<WeightProof>, low: nat, high: Option<nat>,
                                         e: Error) {
    match e
    case InvalidWarpMessage => proof.None?
    case InvalidValidationID => proof.Some? && proof.value.validationID != id
    case InvalidNonce => proof.Some? && (proof.value.nonce < low || (high.Some? && proof.value.nonce > high.value))
    case _ => false
  }

  ghost predicate FinishRefused(cfg: Settings, now: nat, s: State, k: DelegationID, e: Error)
    requires k in s.delegatorStakes
  {
    match e
    case MinStakeDurationNotPassed => now < s.delegatorStakes[k].startedAt + cfg.churn.periodSeconds
    case Panic => now < s.delegatorStakes[k].startedAt + cfg.churn.periodSeconds || !RewardFits(s, k)
    case _ => false
  }

  /** The weight of delegation `k` cannot be taken off its validator. */
  ghost predicate UndelegateRefused(cfg: Settings, now: nat, s: State, k: DelegationID, e: Error)
    requires k in s.delegatorStakes
  {
    var d := s.delegatorStakes[k];
    var v := ValidatorOf(s, d.validationID);
    if d.weight > v.weight then e == Error.Panic else WeightRefused(cfg, now, s, d.validationID, v.weight - d.weight, e)
  }

  /** There is no reward of 256 bits for delegation `k`, although it has something to earn. */
  ghost predicate EarningRefused(cfg: Settings, end: nat, s: State, k: DelegationID, uptime: nat, e: Error)
    requires k in s.delegatorStakes
  {
    var d := s.delegatorStakes[k];
    var v := ValidatorOf(s, d.validationID);
    end > d.startedAt && RewardRefused(cfg, d.weight, v.startedAt, d.startedAt, end, uptime, e)
  }

  /** The end of a delegation while its validator is active. */
  ghost predicate EndActiveRefused(cfg: Settings, now: nat, s: State, k: DelegationID, asked: bool,
                                   proof: Option<UptimeProof>, force: bool, e: Error)
    requires k in s.delegatorStakes
  {
    var d := s.delegatorStakes[k];
    var id, v := d.validationID, ValidatorOf(s, d.validationID);
    || UptimeRefused(id, asked, proof, e)
    || ((e == MinStakeDurationNotPassed || e == Error.Panic) && now < d.startedAt + cfg.minimumStakeDuration)
    || (e == ValidatorNotPoS && !IsPoS(s, id))
    || UndelegateRefused(cfg, now, s, k, e)
    || (&& IsPoS(s, id) && ProofFor(id, asked, proof)
        && var uptime := UptimeAfter(s, id, asked, proof);
        || EarningRefused(cfg, now, s, k, uptime, e)
        || (e == DelegatorIneligibleForRewards && !force && Earned(cfg, now, v, d, uptime) == 0))
  }

  /** The end of a delegation whose validator has completed. */
  ghost predicate EndCompletedRefused(cfg: Settings, now: nat, s: State, k: DelegationID, e: Error)
    requires k in s.delegatorStakes
  {
    var d := s.delegatorStakes[k];
    var v, uptime := ValidatorOf(s, d.validationID), UptimeOf(s, d.validationID);
    || EarningRefused(cfg, v.endedAt, s, k, uptime, e)
    || ((e == MinStakeDurationNotPassed || e == Error.Panic) && now < d.startedAt + cfg.churn.periodSeconds)
    || (e == Error.Panic && !SplitFits(s, k, Earned(cfg, v.endedAt, v, d, uptime)))
  }

  /** A reason not to end delegation `k`. */
  ghost predicate EndRefused(cfg: Settings, now: nat, caller: Account, s: State, k: DelegationID, asked: bool,
                             proof: Option<UptimeProof>, force: bool, e: Error)
    requires k in s.delegatorStakes
  {
    var d := s.delegatorStakes[k];
    var v := ValidatorOf(s, d.validationID);
    || (e == InvalidDelegatorStatus && d.status != DelegatorStatus.Active)
    || (e == UnauthorizedOwner && caller != d.owner && caller != PoSOwner(s, d.validationID))
    || ((e == MinStakeDurationNotPassed || e == Error.Panic)
        && caller != d.owner && IsPoS(s, d.validationID)
        && now < v.startedAt + s.posValidatorInfo[d.validationID].minStakeDuration)
    || match v.status
       case Active => EndActiveRefused(cfg, now, s, k, asked, proof, force, e)
       case Completed => EndCompletedRefused(cfg, now, s, k, e)
       case _ => e == InvalidValidatorStatus
  }

  ghost predicate RegistrationRefused(cfg: Settings, now: nat, s: State, input: RegistrationInput, fee: nat,
                                      duration: nat, amount: nat, received: nat, e: Error)
    requires cfg.weightToValueFactor != 0
  {
    || TermsRefused(cfg, fee, duration, amount, e) || DepositRefused(cfg, received, e)
    || NodeRefused(cfg, now, s, input, Worth(cfg.weightToValueFactor, received), e)
  }

  ghost predicate EndValidationRefused(cfg: Settings, now: nat, caller: Account, s: State, id: ValidationID, asked: bool,
                                       proof: Option<UptimeProof>, force: bool, e: Error) {
    || (e == InvalidValidatorStatus && StatusOf(s, id) != ValidatorStatus.Active)
    || WeightRefused(cfg, now, s, id, 0, e)
    || (IsPoS(s, id) && SettleRefused(cfg, now, caller, s, id, asked, proof, force, e))
  }

  ghost predicate SubmitRefused(s: State, id: ValidationID, proof: Option<UptimeProof>, e: Error) {
    || UptimeRefused(id, true, proof, e)
    || (e == ValidatorNotPoS && !IsPoS(s, id))
    || (e == InvalidValidatorStatus && StatusOf(s, id) != ValidatorStatus.Active)
  }

  ghost predicate DelegateRefused(cfg: Settings, now: nat, s: State, id: ValidationID, received: nat, e: Error)
    requires cfg.weightToValueFactor != 0
  {
    || DepositRefused(cfg, received, e)
    || DelegationRefused(cfg, now, s, id, Worth(cfg.weightToValueFactor, received), e)
  }

  ghost predicate CompleteDelegationRefused(cfg: Settings, now: nat, s: State, k: DelegationID,
                                            proof: Option<WeightProof>, e: Error)
    requires k in s.delegatorStakes
  {
    var d := s.delegatorStakes[k];
    var v := ValidatorOf(s, d.validationID);
    || (e == InvalidDelegatorStatus && d.status != DelegatorStatus.PendingAdded)
    || if v.status == ValidatorStatus.Completed then FinishRefused(cfg, now, s, k, e)
       else AcknowledgementRefused(d.validationID, proof, d.startingNonce, Some(v.messageNonce), e)
  }

  ghost predicate CompleteEndRefused(cfg: Settings, now: nat, s: State, k: DelegationID, proof: Option<WeightProof>,
                                     e: Error)
    requires k in s.delegatorStakes
  {
    var d := s.delegatorStakes[k];
    || (e == InvalidDelegatorStatus && d.status != DelegatorStatus.PendingRemoved)
    || FinishRefused(cfg, now, s, k, e)
    || (StatusOf(s, d.validationID) != ValidatorStatus.Completed
        && AcknowledgementRefused(d.validationID, proof, d.endingNonce, None, e))
  }

  /** A reason not to make a call. */
  ghost predicate Reason(cfg: Settings, s: State, tx: Transaction, e: Error)
    requires cfg.weightToValueFactor != 0
  {
    var now, caller := tx.now, tx.caller;
    match tx.call
    case CallInitializeValidatorSet(data, proof) => SetRefused(cfg, s, data, proof, e)
    case CallInitializeValidatorRegistration(input, fee, duration, amount, received) =>
      RegistrationRefused(cfg, now, s, input, fee, duration, amount, received, e)
    case CallCompleteValidatorRegistration(proof) => CompletionRefused(s, proof, e)
    case CallInitializeEndValidation(id, asked, proof, _, force) =>
      EndValidationRefused(cfg, now, caller, s, id, asked, proof, force, e)
    case CallCompleteEndValidation(proof) => CloseRefused(s, proof, e)
    case CallSubmitUptimeProof(id, proof) => SubmitRefused(s, id, proof, e)
    case CallClaimDelegationFees(id) =>
      || (e == InvalidValidatorStatus && StatusOf(s, id) != ValidatorStatus.Completed)
      || (e == UnauthorizedOwner && caller != PoSOwner(s, id))
    case CallInitializeDelegatorRegistration(id, received) => DelegateRefused(cfg, now, s, id, received, e)
    case CallCompleteDelegatorRegistration(k, proof) =>
      if k in s.delegatorStakes then CompleteDelegationRefused(cfg, now, s, k, proof, e) else e == InvalidDelegatorStatus
    case CallInitializeEndDelegation(k, asked, proof, _, force) =>
      if k in s.delegatorStakes then EndRefused(cfg, now, caller, s, k, asked, proof, force, e)
      else e == InvalidDelegatorStatus
    case CallCompleteEndDelegation(k, proof) =>
      if k in s.delegatorStakes then CompleteEndRefused(cfg, now, s, k, proof, e) else e == InvalidDelegatorStatus
    case CallResendEndValidatorMessage(id) =>
      e == InvalidValidatorStatus && StatusOf(s, id) != ValidatorStatus.PendingRemoved
    case CallResendUpdateDelegation(k) =>
      e == InvalidDelegatorStatus && (k in s.delegatorStakes ==> s.delegatorStakes[k].status == DelegatorStatus.Active)
    case CallChangeValidatorRewardRecipient(id, recipient) =>
      || (e == InvalidRewardRecipient && recipient == 0)
      || (e == UnauthorizedOwner && caller != PoSOwner(s, id))
    case CallChangeDelegatorRewardRecipient(k, recipient) =>
      || (e == InvalidRewardRecipient && recipient == 0)
      || (e == UnauthorizedOwner && (k in s.delegatorStakes ==> s.delegatorStakes[k].owner != caller))
    case Donate(_) => false
  }

  // ----- Every revert has one -----

  lemma ChurnReason(cfg: Settings, now: Timestamp, s: State, newWeight: nat, oldWeight: nat)
    ensures var r := Churn(cfg, now, s, newWeight, oldWeight);
            r.Revert? ==> ChurnRefuses(cfg, now, s, newWeight, oldWeight, r.error)
  {
    if CheckAndUpdate(cfg.churn, s.churnTracker, Change(now, newWeight, oldWeight)).Revert? {
      RefusedFor(cfg.churn, s.churnTracker, Change(now, newWeight, oldWeight));
    }
  }

  lemma WeightReason(cfg: Settings, now: Timestamp, s: State, id: ValidationID, newWeight: nat)
    ensures var r := SetValidatorWeight(cfg, now, s, id, newWeight);
            r.Revert? ==> WeightRefused(cfg, now, s, id, newWeight, r.error)
  {
    ChurnReason(cfg, now, s, newWeight, ValidatorOf(s, id).weight);
  }

  lemma OwnerReason(owner: PChainOwner)
    ensures var r := ValidatePChainOwner(owner);
            r.Revert? ==> OwnerRefused(owner, r.error)
  {
  }

  lemma {:induction false} StoreReason(now: Timestamp, s: State, data: ConversionData, n: nat)
    requires n <= |data.initialValidators| && s.validationPeriods == map[] && s.registeredValidators == map[]
    ensures var r, vs := StoreInitialValidators(now, s, data, n), data.initialValidators;
            && (r == Revert(Error.Panic) ==> n > MAX_UINT32 || WeightUpTo(vs, n) > MAX_UINT64)
            && (r.Revert? && r.error != Error.Panic ==> r.error == NodeAlreadyRegistered && !DistinctNodes(vs, n))
  {
    var vs := data.initialValidators;
    if n > 0 {
      StoreReason(now, s, data, n - 1);
      StoreAnswers(now, s, data, n - 1);
      StoreAnswers(now, s, data, n);
    }
  }

  lemma SetReason(cfg: Settings, before: nat, now: Timestamp, s: State, data: ConversionData, proof: Option<seq<Byte>>)
    requires ValidSettings(cfg) && Invariant(cfg, before, s)
    ensures var r := InitializeValidatorSet(cfg, now, s, data, proof);
            r.Revert? ==> SetRefused(cfg, s, data, proof, r.error)
  {
    var n := |data.initialValidators|;
    if !s.initializedValidatorSet {
      EmptyBeforeInitialization(cfg, before, s);
      StoreReason(now, s, data, n);
      StoreAnswers(now, s, data, n);
      TotalFits(WeightUpTo(data.initialValidators, n), cfg.churn.maximumPercentage);
    }
  }

  lemma PeriodReason(cfg: Settings, now: Timestamp, s: State, input: RegistrationInput, weight: nat)
    ensures var r := RegisterPeriod(cfg, now, s, input, weight);
            r.Revert? ==> NodeRefused(cfg, now, s, input, weight, r.error)
  {
    OwnerReason(input.remainingBalanceOwner);
    OwnerReason(input.disableOwner);
    ChurnReason(cfg, now, s, weight, 0);
  }

  lemma RewardReason(cfg: Settings, weight: nat, validatorStart: nat, start: nat, end: nat, uptime: nat)
    ensures var r := CalculateReward(cfg, weight, validatorStart, start, end, uptime);
            r.Revert? ==> RewardRefused(cfg, weight, validatorStart, start, end, uptime, r.error)
  {
  }

  lemma AwardReason(cfg: Settings, now: nat, s: State, id: ValidationID, recipient: Address)
    requires IsPoS(s, id) && ValidatorOf(s, id).endedAt == now
    ensures var r, v := AwardValidator(cfg, s, id, recipient), ValidatorOf(s, id);
            var uptime := s.posValidatorInfo[id].uptimeSeconds;
            && (r.Revert? ==>
                  || RewardRefused(cfg, v.startingWeight, v.startedAt, v.startedAt, now, uptime, r.error)
                  || (r.error == Error.Panic
                      && GetOr(s.redeemableValidatorRewards, id, 0) + EndReward(cfg, now, v, uptime) > MAX_UINT256))
            && (r.Ok? ==> r.value.1 == EndReward(cfg, now, v, uptime))
  {
    var v := ValidatorOf(s, id);
    RewardReason(cfg, v.startingWeight, v.startedAt, v.startedAt, now, s.posValidatorInfo[id].uptimeSeconds);
  }

  lemma SettleReason(cfg: Settings, now: Timestamp, caller: Account, s: State, id: ValidationID, asked: bool,
                     proof: Option<UptimeProof>, recipient: Address, force: bool)
    requires IsPoS(s, id) && ValidatorOf(s, id).endedAt == now
    ensures var r := SettlePoSPeriod(cfg, caller, s, id, asked, proof, recipient, force);
            r.Revert? ==> SettleRefused(cfg, now, caller, s, id, asked, proof, force, r.error)
  {
    UptimeAnswers(s, id, asked, proof);
    if ProofFor(id, asked, proof) {
      AwardReason(cfg, now, WithUptime(s, id, UptimeAfter(s, id, asked, proof)), id, recipient);
    }
  }

  /** A reason to refuse the settlement does not come from the end in the base contract. */
  lemma SettleRefusedBefore(cfg: Settings, now: Timestamp, caller: Account, s: State, s1: State, id: ValidationID,
                            asked: bool, proof: Option<UptimeProof>, force: bool, e: Error)
    requires IsPoS(s, id) && s1.posValidatorInfo == s.posValidatorInfo
    requires s1.redeemableValidatorRewards == s.redeemableValidatorRewards
    requires ValidatorOf(s1, id).startedAt == ValidatorOf(s, id).startedAt
    requires ValidatorOf(s1, id).startingWeight == ValidatorOf(s, id).startingWeight
    requires SettleRefused(cfg, now, caller, s1, id, asked, proof, force, e)
    ensures SettleRefused(cfg, now, caller, s, id, asked, proof, force, e)
  {
  }

  lemma EndPeriodReason(cfg: Settings, now: Timestamp, s: State, id: ValidationID)
    ensures var r := EndPeriod(cfg, now, s, id);
            r.Revert? ==> || (r.error == InvalidValidatorStatus && StatusOf(s, id) != ValidatorStatus.Active)
                          || WeightRefused(cfg, now, s, id, 0, r.error)
  {
    var v := ValidatorOf(s, id);
    var s1 := s.(validationPeriods := s.validationPeriods[
                   id := v.(status := ValidatorStatus.PendingRemoved, endedAt := now)]);
    WeightReason(cfg, now, s1, id, 0);
  }

  lemma EndValidationReason(cfg: Settings, now: Timestamp, caller: Account, s: State, id: ValidationID, asked: bool,
                            proof: Option<UptimeProof>, recipient: Address, force: bool)
    ensures var r := InitializeEndValidation(cfg, now, caller, s, id, asked, proof, recipient, force);
            r.Revert? ==> EndValidationRefused(cfg, now, caller, s, id, asked, proof, force, r.error)
  {
    EndPeriodReason(cfg, now, s, id);
    var ended := EndPeriod(cfg, now, s, id);
    if ended.Ok? && IsPoS(s, id) {
      EndPeriodAnswers(cfg, now, s, id);
      SettleReason(cfg, now, caller, ended.value, id, asked, proof, recipient, force);
      var settled := SettlePoSPeriod(cfg, caller, ended.value, id, asked, proof, recipient, force);
      if settled.Revert? {
        SettleRefusedBefore(cfg, now, caller, s, ended.value, id, asked, proof, force, settled.error);
      }
    }
  }

  lemma CloseReason(cfg: Settings, before: nat, s: State, tx: Transaction)
    requires cfg.weightToValueFactor != 0 && Invariant(cfg, before, s) && tx.call.CallCompleteEndValidation?
    ensures Step(cfg, s, tx).Revert? ==> CloseRefused(s, tx.call.registrationProof, Step(cfg, s, tx).error)
  {
    var proof := tx.call.registrationProof;
    if proof.Some? {
      EndCompletesIff(cfg, before, s, proof.value.validationID, proof.value.valid);
    }
  }

  /** Splitting a reward fails by an overflow only. */
  lemma SplitReason(cfg: Settings, s: State, to: Address, k: DelegationID, id: ValidationID)
    ensures var r := WithdrawDelegationRewards(cfg, s, to, k, id);
            r.Revert? ==> r.error == Error.Panic
  {
  }

  /** Finishing fails for lack of time, in splitting the reward, or for lack of tokens. */
  lemma FinishStagesReason(cfg: Settings, now: Timestamp, s: State, k: DelegationID, split: Result<State, Error>)
    requires k in s.delegatorStakes && WeightToValue(cfg, s.delegatorStakes[k].weight).Ok?
    requires split == WithdrawDelegationRewards(cfg, WithoutDelegation(s, k), FinalRecipient(s, k), k,
                                                s.delegatorStakes[k].validationID)
    ensures var r := FinishDelegation(cfg, now, s, k);
            var early := now < s.delegatorStakes[k].startedAt + cfg.churn.periodSeconds;
            r.Revert? ==>
              || ((r.error == MinStakeDurationNotPassed || r.error == Error.Panic) && early)
              || (split.Revert? && r.error == split.error)
              || r.error == TokenTransferFailed
  {
  }

  lemma FinishReason(cfg: Settings, before: nat, now: Timestamp, s: State, k: DelegationID)
    requires cfg.weightToValueFactor != 0 && InvariantExceptRewards(cfg, before, s) && k in s.delegatorStakes
    ensures var r := FinishDelegation(cfg, now, s, k);
            r.Revert? ==> FinishRefused(cfg, now, s, k, r.error)
  {
    var id := s.delegatorStakes[k].validationID;
    ReturnFits(cfg, before, s);
    FinishCovered(cfg, now, s, k);
    WithdrawSucceedsIff(cfg, s, k);
    SplitReason(cfg, WithoutDelegation(s, k), FinalRecipient(s, k), k, id);
    FinishStagesReason(cfg, now, s, k,
                       WithdrawDelegationRewards(cfg, WithoutDelegation(s, k), FinalRecipient(s, k), k, id));
  }

  lemma DelegationReason(cfg: Settings, now: Timestamp, s: State, id: ValidationID, weight: nat)
    ensures var r := WeightWithDelegation(cfg, s, id, weight);
            && (r.Revert? ==> DelegationRefused(cfg, now, s, id, weight, r.error))
            && (r.Ok? ==> r.value == ValidatorOf(s, id).weight + weight)
  {
  }

  lemma DelegateStagesReason(cfg: Settings, now: Timestamp, caller: Account, s: State, id: ValidationID,
                             received: Uint256, limit: Result<nat, Error>)
    requires cfg.weightToValueFactor != 0
    requires limit == WeightWithDelegation(cfg, s, id, Worth(cfg.weightToValueFactor, received))
    ensures var r := InitializeDelegatorRegistration(cfg, now, caller, s, id, received);
            r.Revert? ==>
              || DepositRefused(cfg, received, r.error)
              || if limit.Revert? then r.error == limit.error
                 else var update := SetValidatorWeight(cfg, now, s, id, limit.value);
                      update.Revert? && r.error == update.error
  {
  }

  lemma WeightRefusesDelegation(cfg: Settings, now: nat, s: State, id: ValidationID, weight: nat, e: Error)
    requires WeightRefused(cfg, now, s, id, ValidatorOf(s, id).weight + weight, e)
    ensures DelegationRefused(cfg, now, s, id, weight, e)
  {
  }

  lemma UpdateRefusesDelegation(cfg: Settings, now: Timestamp, s: State, id: ValidationID, weight: nat, total: nat,
                                e: Error)
    requires total == ValidatorOf(s, id).weight + weight && SetValidatorWeight(cfg, now, s, id, total) == Revert(e)
    ensures DelegationRefused(cfg, now, s, id, weight, e)
  {
    WeightReason(cfg, now, s, id, total);
    WeightRefusesDelegation(cfg, now, s, id, weight, e);
  }

  lemma DelegateReason(cfg: Settings, now: Timestamp, caller: Account, s: State, id: ValidationID, received: Uint256,
                       weight: nat)
    requires cfg.weightToValueFactor != 0 && weight == Worth(cfg.weightToValueFactor, received)
    ensures var r := InitializeDelegatorRegistration(cfg, now, caller, s, id, received);
            r.Revert? ==> DelegateRefused(cfg, now, s, id, received, r.error)
  {
    var r, limit := InitializeDelegatorRegistration(cfg, now, caller, s, id, received),
                    WeightWithDelegation(cfg, s, id, weight);
    if r.Revert? && !DepositRefused(cfg, received, r.error) {
      DelegateStagesReason(cfg, now, caller, s, id, received, limit);
      DelegationReason(cfg, now, s, id, weight);
      if limit.Ok? {
        UpdateRefusesDelegation(cfg, now, s, id, weight, limit.value, r.error);
      }
    }
  }

  lemma CompleteDelegationStages(cfg: Settings, now: Timestamp, s: State, k: DelegationID, proof: Option<WeightProof>)
    requires k in s.delegatorStakes
    ensures var r, finish := CompleteDelegatorRegistration(cfg, now, s, k, proof), FinishDelegation(cfg, now, s, k);
            var d := s.delegatorStakes[k];
            var v := ValidatorOf(s, d.validationID);
            r.Revert? ==>
              || (r.error == InvalidDelegatorStatus && d.status != DelegatorStatus.PendingAdded)
              || if v.status == ValidatorStatus.Completed then finish == r
                 else AcknowledgementRefused(d.validationID, proof, d.startingNonce, Some(v.messageNonce), r.error)
  {
  }

  lemma CompleteDelegationReason(cfg: Settings, now: Timestamp, s: State, k: DelegationID, proof: Option<WeightProof>)
    requires k in s.delegatorStakes
    requires FinishDelegation(cfg, now, s, k).Revert? ==>
               FinishRefused(cfg, now, s, k, FinishDelegation(cfg, now, s, k).error)
    ensures var r := CompleteDelegatorRegistration(cfg, now, s, k, proof);
            r.Revert? ==> CompleteDelegationRefused(cfg, now, s, k, proof, r.error)
  {
    CompleteDelegationStages(cfg, now, s, k, proof);
  }

  lemma CompleteEndStages(cfg: Settings, now: Timestamp, s: State, k: DelegationID, proof: Option<WeightProof>)
    requires k in s.delegatorStakes
    ensures var r, finish := CompleteEndDelegation(cfg, now, s, k, proof), FinishDelegation(cfg, now, s, k);
            var d := s.delegatorStakes[k];
            r.Revert? ==>
              || (r.error == InvalidDelegatorStatus && d.status != DelegatorStatus.PendingRemoved)
              || finish == r
              || (StatusOf(s, d.validationID) != ValidatorStatus.Completed
                  && AcknowledgementRefused(d.validationID, proof, d.endingNonce, None, r.error))
  {
  }

  lemma CompleteEndReason(cfg: Settings, now: Timestamp, s: State, k: DelegationID, proof: Option<WeightProof>)
    requires k in s.delegatorStakes
    requires FinishDelegation(cfg, now, s, k).Revert? ==>
               FinishRefused(cfg, now, s, k, FinishDelegation(cfg, now, s, k).error)
    ensures var r := CompleteEndDelegation(cfg, now, s, k, proof);
            r.Revert? ==> CompleteEndRefused(cfg, now, s, k, proof, r.error)
  {
    CompleteEndStages(cfg, now, s, k, proof);
  }

  // ----- The end of a delegation -----

  lemma AwardDelegatorReason(cfg: Settings, now: Timestamp, s: State, k: DelegationID, recipient: Address)
    requires k in s.delegatorStakes
    requires StatusOf(s, s.delegatorStakes[k].validationID) in {ValidatorStatus.Active, ValidatorStatus.Completed}
    ensures var r, d := AwardDelegator(cfg, now, s, k, recipient), s.delegatorStakes[k];
            r.Revert? ==> EarningRefused(cfg, EarningEnd(now, s, d), s, k, UptimeOf(s, d.validationID), r.error)
  {
    var d := s.delegatorStakes[k];
    var v := ValidatorOf(s, d.validationID);
    RewardReason(cfg, d.weight, v.startedAt, d.startedAt, EarningEnd(now, s, d), UptimeOf(s, d.validationID));
  }

  lemma UndelegateReason(cfg: Settings, now: Timestamp, s: State, k: DelegationID)
    requires k in s.delegatorStakes
    ensures var r := Undelegate(cfg, now, s, k);
            r.Revert? ==> UndelegateRefused(cfg, now, s, k, r.error)
  {
    var d := s.delegatorStakes[k];
    var weight := ValidatorOf(s, d.validationID).weight;
    if d.weight <= weight {
      WeightReason(cfg, now, s, d.validationID, weight - d.weight);
    }
  }

  /** What a reward depends on is the same before and after the weight update. */
  lemma EarningAsBefore(cfg: Settings, now: nat, s: State, u: State, k: DelegationID, e: Error)
    requires k in s.delegatorStakes && s.delegatorStakes[k].validationID in s.validationPeriods && k in u.delegatorStakes
    requires Undelegated(now, s, u, k)
    requires EarningRefused(cfg, now, u, k, UptimeOf(u, u.delegatorStakes[k].validationID), e)
    ensures EarningRefused(cfg, now, s, k, UptimeOf(s, s.delegatorStakes[k].validationID), e)
  {
  }

  /** The validator can still be asked for its uptime and start after the weight update. */
  lemma StillActive(now: nat, s: State, u: State, k: DelegationID)
    requires k in s.delegatorStakes && s.delegatorStakes[k].validationID in s.validationPeriods && k in u.delegatorStakes
    requires StatusOf(s, s.delegatorStakes[k].validationID) == ValidatorStatus.Active && Undelegated(now, s, u, k)
    ensures StatusOf(u, u.delegatorStakes[k].validationID) == ValidatorStatus.Active
  {
  }

  lemma ThenAwardReason(cfg: Settings, now: Timestamp, s: State, k: DelegationID, recipient: Address)
    requires k in s.delegatorStakes && s.delegatorStakes[k].validationID in s.validationPeriods
    requires StatusOf(s, s.delegatorStakes[k].validationID) == ValidatorStatus.Active
    ensures var r := UndelegateThenAward(cfg, now, s, k, recipient);
            r.Revert? ==>
              || UndelegateRefused(cfg, now, s, k, r.error)
              || EarningRefused(cfg, now, s, k, UptimeOf(s, s.delegatorStakes[k].validationID), r.error)
  {
    UndelegateReason(cfg, now, s, k);
    var undelegated := Undelegate(cfg, now, s, k);
    if undelegated.Ok? {
      var u := undelegated.value;
      UndelegateAnswers(cfg, now, s, k);
      StillActive(now, s, u, k);
      AwardDelegatorReason(cfg, now, u, k, recipient);
      var award := AwardDelegator(cfg, now, u, k, recipient);
      if award.Revert? {
        EarningAsBefore(cfg, now, s, u, k, award.error);
      }
    }
  }

  lemma UptimeReason(s: State, id: ValidationID, asked: bool, proof: Option<UptimeProof>, e: Error)
    requires IsPoS(s, id) && MaybeUpdateUptime(s, id, asked, proof) == Revert(e)
    ensures UptimeRefused(id, asked, proof, e)
  {
  }

  lemma EndActiveStagesReason(cfg: Settings, now: Timestamp, s: State, k: DelegationID, asked: bool,
                              proof: Option<UptimeProof>, recipient: Address, force: bool, update: Result<State, Error>)
    requires k in s.delegatorStakes
    requires IsPoS(s, s.delegatorStakes[k].validationID) ==>
               update == MaybeUpdateUptime(s, s.delegatorStakes[k].validationID, asked, proof)
    requires update.Ok? ==> k in update.value.delegatorStakes
    ensures var r, d := EndWhileActive(cfg, now, s, k, asked, proof, recipient, force), s.delegatorStakes[k];
            r.Revert? ==>
              || ((r.error == MinStakeDurationNotPassed || r.error == Error.Panic)
                  && now < d.startedAt + cfg.minimumStakeDuration)
              || (r.error == ValidatorNotPoS && !IsPoS(s, d.validationID))
              || (IsPoS(s, d.validationID)
                  && if update.Revert? then r.error == update.error
                     else var award := UndelegateThenAward(cfg, now, update.value, k, recipient);
                          if award.Revert? then r.error == award.error
                          else r.error == DelegatorIneligibleForRewards && !force && award.value.1 == 0)
  {
  }

  /** The recorded uptime does not matter for the weight update, and is the one that the reward is asked for with. */
  lemma RefusedWithUptime(cfg: Settings, now: nat, s: State, k: DelegationID, uptime: nat, e: Error)
    requires k in s.delegatorStakes && IsPoS(s, s.delegatorStakes[k].validationID)
    ensures var id, s1 := s.delegatorStakes[k].validationID, WithUptime(s, s.delegatorStakes[k].validationID, uptime);
            && (UndelegateRefused(cfg, now, s1, k, e) <==> UndelegateRefused(cfg, now, s, k, e))
            && (EarningRefused(cfg, now, s1, k, UptimeOf(s1, id), e) <==> EarningRefused(cfg, now, s, k, uptime, e))
  {
  }

  lemma EndActiveReason(cfg: Settings, now: Timestamp, s: State, k: DelegationID, asked: bool,
                        proof: Option<UptimeProof>, recipient: Address, force: bool)
    requires k in s.delegatorStakes && s.delegatorStakes[k].validationID in s.validationPeriods
    requires StatusOf(s, s.delegatorStakes[k].validationID) == ValidatorStatus.Active
    ensures var r := EndWhileActive(cfg, now, s, k, asked, proof, recipient, force);
            r.Revert? ==> EndActiveRefused(cfg, now, s, k, asked, proof, force, r.error)
  {
    var id := s.delegatorStakes[k].validationID;
    var update := if IsPoS(s, id) then MaybeUpdateUptime(s, id, asked, proof) else Revert(ValidatorNotPoS);
    if IsPoS(s, id) {
      UptimeAnswers(s, id, asked, proof);
      if update.Ok? {
        ThenAwardReason(cfg, now, update.value, k, recipient);
        ThenAwardAnswers(cfg, now, update.value, k, recipient);
        var award := UndelegateThenAward(cfg, now, update.value, k, recipient);
        if award.Revert? {
          RefusedWithUptime(cfg, now, s, k, UptimeAfter(s, id, asked, proof), award.error);
        }
      } else {
        UptimeReason(s, id, asked, proof, update.error);
      }
    }
    EndActiveStagesReason(cfg, now, s, k, asked, proof, recipient, force, update);
  }

  lemma EndCompletedReason(cfg: Settings, before: nat, now: Timestamp, s: State, k: DelegationID, recipient: Address,
                           award: Result<(State, nat), Error>)
    requires cfg.weightToValueFactor != 0 && Invariant(cfg, before, s) && k in s.delegatorStakes
    requires s.delegatorStakes[k].status == DelegatorStatus.Active
    requires StatusOf(s, s.delegatorStakes[k].validationID) == ValidatorStatus.Completed
    requires award == AwardDelegator(cfg, now, s, k, recipient)
    ensures award.Revert? ==> EndCompletedRefused(cfg, now, s, k, award.error)
    ensures award.Ok? && FinishDelegation(cfg, now, award.value.0, k).Revert? ==>
              EndCompletedRefused(cfg, now, s, k, FinishDelegation(cfg, now, award.value.0, k).error)
  {
    assert k !in s.redeemableDelegatorRewards by {
      assert RewardAt(s.redeemableDelegatorRewards, s.delegatorStakes, k);
    }
    AwardDelegatorReason(cfg, now, s, k, recipient);
    AwardDelegatorAnswers(cfg, now, s, k, recipient);
    if award.Ok? {
      AwardDelegatorKeeps(cfg, before, now, s, k, recipient);
      FinishReason(cfg, before, now, award.value.0, k);
      SplitAfterAward(cfg, s, award.value.0, k, award.value.1, recipient);
    }
  }

  /** The reasons of the stages are reasons not to end a delegation. */
  lemma EndReason(cfg: Settings, now: Timestamp, caller: Account, s: State, k: DelegationID, asked: bool,
                  proof: Option<UptimeProof>, recipient: Address, force: bool, award: Result<(State, nat), Error>)
    requires k in s.delegatorStakes && award == AwardDelegator(cfg, now, s, k, recipient)
    requires StatusOf(s, s.delegatorStakes[k].validationID) == ValidatorStatus.Active ==>
               var r := EndWhileActive(cfg, now, s, k, asked, proof, recipient, force);
               r.Revert? ==> EndActiveRefused(cfg, now, s, k, asked, proof, force, r.error)
    requires s.delegatorStakes[k].status == DelegatorStatus.Active
             && StatusOf(s, s.delegatorStakes[k].validationID) == ValidatorStatus.Completed ==>
               && (award.Revert? ==> EndCompletedRefused(cfg, now, s, k, award.error))
               && (award.Ok? && FinishDelegation(cfg, now, award.value.0, k).Revert? ==>
                     EndCompletedRefused(cfg, now, s, k, FinishDelegation(cfg, now, award.value.0, k).error))
    ensures var r := InitializeEndDelegation(cfg, now, caller, s, k, asked, proof, recipient, force);
            r.Revert? ==> EndRefused(cfg, now, caller, s, k, asked, proof, force, r.error)
  {
  }

  // ----- All calls -----

  lemma RegistrationReason(cfg: Settings, now: Timestamp, caller: Account, s: State, input: RegistrationInput, fee: nat,
                           duration: nat, amount: nat, received: Uint256)
    requires cfg.weightToValueFactor != 0
    ensures var r := InitializeValidatorRegistration(cfg, now, caller, s, input, fee, duration, amount, received);
            r.Revert? ==> RegistrationRefused(cfg, now, s, input, fee, duration, amount, received, r.error)
  {
    PeriodReason(cfg, now, s, input, Worth(cfg.weightToValueFactor, received));
  }

  lemma ValidatorCallReason(cfg: Settings, before: nat, s: State, tx: Transaction)
    requires ValidSettings(cfg) && Invariant(cfg, before, s) && Step(cfg, s, tx).Revert?
    requires || tx.call.CallInitializeValidatorSet? || tx.call.CallInitializeValidatorRegistration?
             || tx.call.CallInitializeEndValidation? || tx.call.CallCompleteEndValidation?
             || tx.call.CallCompleteValidatorRegistration?
    ensures Reason(cfg, s, tx, Step(cfg, s, tx).error)
  {
    match tx.call {
      case CallInitializeValidatorSet(data, proof) => SetReason(cfg, before, tx.now, s, data, proof);
      case CallInitializeValidatorRegistration(input, fee, duration, amount, received) =>
        RegistrationReason(cfg, tx.now, tx.caller, s, input, fee, duration, amount, received);
      case CallInitializeEndValidation(id, asked, proof, recipient, force) =>
        EndValidationReason(cfg, tx.now, tx.caller, s, id, asked, proof, recipient, force);
      case CallCompleteEndValidation(_) => CloseReason(cfg, before, s, tx);
      case CallCompleteValidatorRegistration(proof) => CompletionReason(tx.now, s, proof);
    }
  }

  lemma CompletionReason(now: Timestamp, s: State, proof: Option<RegistrationProof>)
    ensures var r := CompleteValidatorRegistration(now, s, proof);
            r.Revert? ==> CompletionRefused(s, proof, r.error)
  {
  }

  lemma EndDelegationReason(cfg: Settings, before: nat, now: Timestamp, caller: Account, s: State, k: DelegationID,
                            asked: bool, proof: Option<UptimeProof>, recipient: Address, force: bool)
    requires cfg.weightToValueFactor != 0 && Invariant(cfg, before, s) && k in s.delegatorStakes
    ensures var r := InitializeEndDelegation(cfg, now, caller, s, k, asked, proof, recipient, force);
            r.Revert? ==> EndRefused(cfg, now, caller, s, k, asked, proof, force, r.error)
  {
    var id := s.delegatorStakes[k].validationID;
    var award := AwardDelegator(cfg, now, s, k, recipient);
    if StatusOf(s, id) == ValidatorStatus.Active {
      assert DelegationAt(s.validationPeriods, s.posValidatorInfo.Keys, s.delegatorStakes, k);
      EndActiveReason(cfg, now, s, k, asked, proof, recipient, force);
    } else if s.delegatorStakes[k].status == DelegatorStatus.Active && StatusOf(s, id) == ValidatorStatus.Completed {
      EndCompletedReason(cfg, before, now, s, k, recipient, award);
    }
    EndReason(cfg, now, caller, s, k, asked, proof, recipient, force, award);
  }

  lemma DelegationCallReason(cfg: Settings, before: nat, s: State, tx: Transaction)
    requires cfg.weightToValueFactor != 0 && Invariant(cfg, before, s) && Step(cfg, s, tx).Revert?
    requires || tx.call.CallInitializeDelegatorRegistration? || tx.call.CallCompleteDelegatorRegistration?
             || tx.call.CallInitializeEndDelegation? || tx.call.CallCompleteEndDelegation?
    ensures Reason(cfg, s, tx, Step(cfg, s, tx).error)
  {
    match tx.call {
      case CallInitializeDelegatorRegistration(id, received) =>
        DelegateReason(cfg, tx.now, tx.caller, s, id, received, Worth(cfg.weightToValueFactor, received));
      case CallCompleteDelegatorRegistration(k, proof) =>
        if k in s.delegatorStakes {
          FinishReason(cfg, before, tx.now, s, k);
          CompleteDelegationReason(cfg, tx.now, s, k, proof);
        }
      case CallInitializeEndDelegation(k, asked, proof, recipient, force) =>
        if k in s.delegatorStakes {
          EndDelegationReason(cfg, before, tx.now, tx.caller, s, k, asked, proof, recipient, force);
        }
      case CallCompleteEndDelegation(k, proof) =>
        if k in s.delegatorStakes {
          FinishReason(cfg, before, tx.now, s, k);
          CompleteEndReason(cfg, tx.now, s, k, proof);
        }
    }
  }

  lemma OtherCallReason(cfg: Settings, s: State, tx: Transaction)
    requires cfg.weightToValueFactor != 0 && Step(cfg, s, tx).Revert?
    requires || tx.call.CallSubmitUptimeProof? || tx.call.CallClaimDelegationFees?
             || tx.call.CallChangeValidatorRewardRecipient? || tx.call.CallChangeDelegatorRewardRecipient?
             || tx.call.Donate?
    ensures Reason(cfg, s, tx, Step(cfg, s, tx).error)
  {
  }

  lemma ResendReason(cfg: Settings, before: nat, s: State, tx: Transaction)
    requires cfg.weightToValueFactor != 0 && Invariant(cfg, before, s) && Step(cfg, s, tx).Revert?
    requires tx.call.CallResendEndValidatorMessage? || tx.call.CallResendUpdateDelegation?
    ensures Reason(cfg, s, tx, Step(cfg, s, tx).error)
  {
    if tx.call.CallResendUpdateDelegation? {
      assert DelegationAt(s.validationPeriods, s.posValidatorInfo.Keys, s.delegatorStakes, tx.call.delegationID);
    }
  }

  /** Every revert has a true reason. */
  lemma RevertsForReason(cfg: Settings, before: nat, s: State, tx: Transaction)
    requires ValidSettings(cfg) && Invariant(cfg, before, s)
    ensures Step(cfg, s, tx).Revert? ==> Reason(cfg, s, tx, Step(cfg, s, tx).error)
  {
    if Step(cfg, s, tx).Revert? {
      match tx.call {
        case CallInitializeValidatorSet(_, _) => ValidatorCallReason(cfg, before, s, tx);
        case CallInitializeValidatorRegistration(_, _, _, _, _) => ValidatorCallReason(cfg, before, s, tx);
        case CallCompleteValidatorRegistration(_) => ValidatorCallReason(cfg, before, s, tx);
        case CallInitializeEndValidation(_, _, _, _, _) => ValidatorCallReason(cfg, before, s, tx);
        case CallCompleteEndValidation(_) => ValidatorCallReason(cfg, before, s, tx);
        case CallInitializeDelegatorRegistration(_, _) => DelegationCallReason(cfg, before, s, tx);
        case CallCompleteDelegatorRegistration(_, _) => DelegationCallReason(cfg, before, s, tx);
        case CallInitializeEndDelegation(_, _, _, _, _) => DelegationCallReason(cfg, before, s, tx);
        case CallCompleteEndDelegation(_, _) => DelegationCallReason(cfg, before, s, tx);
        case CallResendEndValidatorMessage(_) => ResendReason(cfg, before, s, tx);
        case CallResendUpdateDelegation(_) => ResendReason(cfg, before, s, tx);
        case _ => OtherCallReason(cfg, s, tx);
      }
    }
  }
}
