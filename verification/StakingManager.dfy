/**
 The staking manager as the contract it is: an object that updates its storage structure step by step. Every method is
 proved against the function of the same name in `StakingSpec`; `Transact` adds that a revert undoes everything.
 */
module StakingManager {
  import opened Wrappers
  import opened Numeric
  import opened MessageTypes
  import opened ConversionMessage
  import opened ChurnTracker
  import opened StakingTypes
  import Spec = StakingSpec
  import opened StakingRuns
  import opened StakingTheorems

  /** A step that agrees with its specification on success, on the reason to revert, and on the new state. */
  ghost predicate Follows(r: Result<(), Error>, spec: Result<State, Error>, after: State) {
    match spec
    case Ok(s) => r.Ok? && after == s
    case Revert(e) => r == Revert(e)
  }

  /** The same for a step that also returns a value. */
  ghost predicate FollowsWith<T>(r: Result<T, Error>, spec: Result<(State, T), Error>, after: State) {
    match spec
    case Ok((s, t)) => r == Ok(t) && after == s
    case Revert(e) => r == Revert(e)
  }

  method ValidatePChainOwner(owner: PChainOwner) returns (r: Result<(), Error>)
    ensures r.Ok? <==> && (owner.threshold == 0 ==> owner.addresses == [])
                       && owner.threshold <= |owner.addresses|
                       && (forall i, j :: 0 <= i < j < |owner.addresses| ==> owner.addresses[i] <= owner.addresses[j])
    ensures r == Spec.ValidatePChainOwner(owner)
  {
    if owner.threshold == 0 && |owner.addresses| > 0 {
      return Revert(InvalidPChainOwnerThreshold);
    }
    if owner.threshold > |owner.addresses| {
      return Revert(InvalidPChainOwnerThreshold);
    }
    // The addresses are sorted if no address is below its predecessor.
    var i := 1;
    while i < |owner.addresses|
      invariant 1 <= i && (i <= |owner.addresses| || i == 1)
      invariant forall k :: 0 < k < i && k < |owner.addresses| ==> owner.addresses[k - 1] <= owner.addresses[k]
      invariant forall k, j :: 0 <= k < j < i && j < |owner.addresses| ==> owner.addresses[k] <= owner.addresses[j]
    {
      if owner.addresses[i] < owner.addresses[i - 1] {
        return Revert(PChainOwnerAddressesNotSorted);
      }
      i := i + 1;
    }
    return Ok(());
  }

  class Manager {
    const cfg: Settings

    /** The storage structure of the contract, its balance in the staking token, and what it has emitted. */
    var state: State

    /** The transactions so far. */
    ghost var trace: seq<Spec.Transaction>

    constructor (settings: Settings)
      requires settings.weightToValueFactor != 0
      ensures cfg == settings && trace == [] && Valid()
    {
      cfg := settings;
      state := DEPLOYED;
      trace := [];
    }

    /** The state is what the transactions so far lead to. */
    ghost predicate Valid()
      reads this
    {
      cfg.weightToValueFactor != 0 && state == Spec.Run(cfg, trace)
    }

    // ----- Weights -----

    method CheckAndUpdateChurnTracker(now: Timestamp, newWeight: nat, oldWeight: nat) returns (r: Result<(), Error>)
      modifies this`state
      ensures Follows(r, Spec.Churn(cfg, now, old(state), newWeight, oldWeight), state)
    {
      var weightChange := AbsDiff(newWeight, oldWeight);
      var tracker := state.churnTracker;
      if tracker.startedAt == 0 || now >= tracker.startedAt + cfg.churn.periodSeconds {
        tracker := tracker.(churnAmount := weightChange, startedAt := now, initialWeight := tracker.totalWeight);
      } else {
        var churn :- Checked64(tracker.churnAmount + weightChange, Error.Panic);
        tracker := tracker.(churnAmount := churn);
      }
      var allowed :- Checked64(cfg.churn.maximumPercentage * tracker.initialWeight, Error.Panic);
      var used :- Checked64(tracker.churnAmount * 100, Error.Panic);
      if allowed < used {
        return Revert(Error.MaxChurnRateExceeded);
      }
      var raised :- Checked64(tracker.totalWeight + newWeight, Error.Panic);
      var total :- Checked64(raised - oldWeight, Error.Panic);
      tracker := tracker.(totalWeight := total);
      var scaled :- Checked64(total * cfg.churn.maximumPercentage, Error.Panic);
      if scaled < 100 {
        return Revert(Error.InvalidTotalWeight);
      }
      state := state.(churnTracker := tracker);
      Record(Change(now, newWeight, oldWeight));
      return Ok(());
    }

    method Record(change: Change)
      modifies this`state
      ensures state == old(state).(history := old(state).history.(changes := old(state).history.changes + [change]))
    {
      state := state.(history := state.history.(changes := state.history.changes + [change]));
    }

    method SendWeight(id: ValidationID, nonce: nat, weight: nat)
      modifies this`state
      ensures state == Spec.SendWeight(old(state), id, nonce, weight)
    {
      var messages := Append(state.history.weightMessages, id, WeightMessage(nonce, weight));
      state := state.(history := state.history.(weightMessages := messages));
    }

    method SetValidatorWeight(now: Timestamp, id: ValidationID, newWeight: nat) returns (r: Result<(), Error>)
      modifies this`state
      ensures Follows(r, Spec.SetValidatorWeight(cfg, now, old(state), id, newWeight), state)
    {
      var v := ValidatorOf(state, id);
      var _ :- CheckAndUpdateChurnTracker(now, newWeight, v.weight);
      var nonce :- Checked64(v.messageNonce + 1, Error.Panic);
      state := state.(validationPeriods := state.validationPeriods[
                        id := v.(messageNonce := nonce, weight := newWeight)]);
      SendWeight(id, nonce, newWeight);
      return Ok(());
    }

    // ----- Tokens -----

    method Lock(stake: Stake, from: Address, received: Uint256)
      modifies this`state
      ensures state == Spec.Lock(old(state), stake, from, received)
    {
      var h := state.history;
      state := state.(balance := state.balance + received);
      state := state.(history := h.(locked := Append(h.locked, stake, Deposit(from, received))));
    }

    method Unlock(stake: Stake, to: Address, value: nat) returns (r: Result<(), Error>)
      modifies this`state
      ensures Follows(r, Spec.Unlock(cfg, old(state), stake, to, value), state)
    {
      if value > state.balance {
        return Revert(TokenTransferFailed);
      }
      if to != cfg.managerAddress {
        state := state.(balance := state.balance - value);
      }
      var h := state.history;
      state := state.(history := h.(unlocked := Append(h.unlocked, stake, Payment(to, value))));
      return Ok(());
    }

    method Mint(to: Address, value: nat)
      modifies this`state
      ensures state == Spec.Mint(cfg, old(state), to, value)
    {
      if to == cfg.managerAddress {
        state := state.(balance := state.balance + value);
      }
      state := state.(history := state.history.(minted := state.history.minted + [Payment(to, value)]));
    }

    method WithdrawValidationRewards(to: Address, id: ValidationID)
      modifies this`state
      ensures state == Spec.WithdrawValidationRewards(cfg, old(state), to, id)
    {
      var rewards := GetOr(state.redeemableValidatorRewards, id, 0);
      state := state.(redeemableValidatorRewards := state.redeemableValidatorRewards - {id});
      Mint(to, rewards);
    }

    // ----- Initial validators -----

    method InitializeValidatorSet(now: Timestamp, data: ConversionData, proof: Option<seq<Byte>>)
      returns (r: Result<(), Error>)
      modifies this`state
      ensures Follows(r, Spec.InitializeValidatorSet(cfg, now, old(state), data, proof), state)
    {
      if state.initializedValidatorSet {
        return Revert(InvalidInitializationStatus);
      }
      if data.validatorManagerBlockchainID != cfg.blockchainID {
        return Revert(InvalidValidatorManagerBlockchainID);
      }
      if data.validatorManagerAddress != cfg.managerAddress {
        return Revert(InvalidValidatorManagerAddress);
      }
      var totalWeight :- StoreInitialValidators(now, data);
      state := state.(churnTracker := state.churnTracker.(totalWeight := totalWeight));
      var scaled :- Checked64(totalWeight * cfg.churn.maximumPercentage, Error.Panic);
      if scaled < 100 {
        return Revert(Error.InvalidTotalWeight);
      }
      if proof.None? {
        return Revert(InvalidWarpMessage);
      }
      if PackConversionData(data) != proof.value {
        return Revert(InvalidConversionID);
      }
      state := state.(initializedValidatorSet := true, history := state.history.(initialTotal := totalWeight));
      return Ok(());
    }

    method StoreInitialValidators(now: Timestamp, data: ConversionData) returns (r: Result<nat, Error>)
      modifies this`state
      ensures FollowsWith(r, Spec.StoreInitialValidators(now, old(state), data, |data.initialValidators|), state)
    {
      ghost var before := state;
      var totalWeight: nat := 0;
      var i := 0;
      while i < |data.initialValidators|
        invariant 0 <= i <= |data.initialValidators|
        invariant Spec.StoreInitialValidators(now, before, data, i) == Ok((state, totalWeight))
      {
        StoredSoFar(now, before, data, i + 1);
        var v := data.initialValidators[i];
        if v.nodeID in state.registeredValidators {
          return Revert(NodeAlreadyRegistered);
        }
        var id := Initial(data.subnetID, i);
        totalWeight :- Checked64(totalWeight + v.weight, Error.Panic);
        if i == MAX_UINT32 {
          return Revert(Error.Panic);
        }
        state := state.(registeredValidators := state.registeredValidators[v.nodeID := id],
                        validationPeriods := state.validationPeriods[
                          id := Validator(ValidatorStatus.Active, v.nodeID, v.weight, 0, v.weight, now, 0)]);
        i := i + 1;
      }
      return Ok(totalWeight);
    }

    /** A failure to store the first `n` initial validators is a failure to store them all. */
    static lemma {:induction false} StoredSoFar(now: Timestamp, s: State, data: ConversionData, n: nat)
      requires n <= |data.initialValidators|
      ensures var spec := Spec.StoreInitialValidators(now, s, data, n);
              spec.Revert? ==> Spec.StoreInitialValidators(now, s, data, |data.initialValidators|) == Revert(spec.error)
      decreases |data.initialValidators| - n
    {
      if n < |data.initialValidators| {
        StoredSoFar(now, s, data, n + 1);
      }
    }

    // ----- Validator registration -----

    method RegisterPeriod(now: Timestamp, input: RegistrationInput, weight: nat) returns (r: Result<ValidationID, Error>)
      modifies this`state
      ensures var spec := Spec.RegisterPeriod(cfg, now, old(state), input, weight);
              match spec
              case Ok(s) => state == s && r == Ok(Registered(Spec.RegistrationMessage(cfg, input, weight)))
              case Revert(e) => r == Revert(e)
    {
      if !state.initializedValidatorSet {
        return Revert(InvalidInitializationStatus);
      }
      if input.registrationExpiry <= now
         || input.registrationExpiry >= now + MAXIMUM_REGISTRATION_EXPIRY_LENGTH {
        return Revert(InvalidRegistrationExpiry);
      }
      if weight + state.churnTracker.totalWeight > MAX_UINT64 {
        return Revert(Error.InvalidTotalWeight);
      }
      var _ :- ValidatePChainOwner(input.remainingBalanceOwner);
      var _ :- ValidatePChainOwner(input.disableOwner);
      if |input.blsPublicKey| != BLS_PUBLIC_KEY_LENGTH {
        return Revert(InvalidBLSKeyLength);
      }
      if |input.nodeID| == 0 {
        return Revert(InvalidNodeID);
      }
      if input.nodeID in state.registeredValidators {
        return Revert(NodeAlreadyRegistered);
      }
      var _ :- CheckAndUpdateChurnTracker(now, weight, 0);
      var message := ValidationPeriod(cfg.subnetID, input.nodeID, input.blsPublicKey, input.registrationExpiry,
                                      input.remainingBalanceOwner, input.disableOwner, weight);
      var id := Registered(message);
      state := state.(pendingRegisterValidationMessages := state.pendingRegisterValidationMessages[id := message]);
      state := state.(registeredValidators := state.registeredValidators[input.nodeID := id]);
      state := state.(validationPeriods := state.validationPeriods[
                        id := Validator(ValidatorStatus.PendingAdded, input.nodeID, weight, 0, weight, 0, 0)]);
      return Ok(id);
    }

    method InitializeValidatorRegistration(
      now: Timestamp, caller: Account, input: RegistrationInput, delegationFeeBips: nat, minStakeDuration: nat,
      stakeAmount: nat, received: Uint256)
      returns (r: Result<ValidationID, Error>)
      requires cfg.weightToValueFactor != 0
      modifies this`state
      ensures FollowsWith(r, Spec.InitializeValidatorRegistration(cfg, now, caller, old(state), input, delegationFeeBips,
                                                                  minStakeDuration, stakeAmount, received), state)
    {
      if delegationFeeBips < cfg.minimumDelegationFeeBips || delegationFeeBips > MAXIMUM_DELEGATION_FEE_BIPS {
        return Revert(InvalidDelegationFee);
      }
      if minStakeDuration < cfg.minimumStakeDuration {
        return Revert(InvalidMinStakeDuration);
      }
      if stakeAmount < cfg.minimumStakeAmount || stakeAmount > cfg.maximumStakeAmount {
        return Revert(InvalidStakeAmount);
      }
      if received == 0 {
        return Revert(BalanceNotIncreased);
      }
      var weight :- Spec.ValueToWeight(cfg, received);
      var id :- RegisterPeriod(now, input, weight);
      state := state.(posValidatorInfo := state.posValidatorInfo[
                        id := PoSValidatorInfo(caller, delegationFeeBips, minStakeDuration, 0)]);
      state := state.(rewardRecipients := state.rewardRecipients[id := caller]);
      Lock(ValidatorStake(id), caller, received);
      return Ok(id);
    }

    method CompleteValidatorRegistration(now: Timestamp, proof: Option<RegistrationProof>)
      returns (r: Result<(), Error>)
      modifies this`state
      ensures Follows(r, Spec.CompleteValidatorRegistration(now, old(state), proof), state)
    {
      if proof.None? {
        return Revert(InvalidWarpMessage);
      }
      var id := proof.value.validationID;
      if !proof.value.valid {
        return Revert(UnexpectedRegistrationStatus);
      }
      if id !in state.pendingRegisterValidationMessages {
        return Revert(InvalidValidationID);
      }
      var v := ValidatorOf(state, id);
      if v.status != ValidatorStatus.PendingAdded {
        return Revert(InvalidValidatorStatus);
      }
      state := state.(pendingRegisterValidationMessages := state.pendingRegisterValidationMessages - {id});
      state := state.(validationPeriods := state.validationPeriods[
                        id := v.(status := ValidatorStatus.Active, startedAt := now)]);
      return Ok(());
    }

    // ----- Uptime and rewards -----

    method UpdateUptime(id: ValidationID, proof: Option<UptimeProof>) returns (r: Result<(), Error>)
      requires IsPoS(state, id)
      modifies this`state
      ensures Follows(r, Spec.UpdateUptime(old(state), id, proof), state)
    {
      if proof.None? {
        return Revert(InvalidWarpMessage);
      }
      if proof.value.validationID != id {
        return Revert(InvalidValidationID);
      }
      var info := state.posValidatorInfo[id];
      if proof.value.uptime > info.uptimeSeconds {
        state := state.(posValidatorInfo := state.posValidatorInfo[id := info.(uptimeSeconds := proof.value.uptime)]);
      }
      return Ok(());
    }

    method SubmitUptimeProof(id: ValidationID, proof: Option<UptimeProof>) returns (r: Result<(), Error>)
      modifies this`state
      ensures Follows(r, Spec.SubmitUptimeProof(old(state), id, proof), state)
    {
      if !IsPoS(state, id) {
        return Revert(ValidatorNotPoS);
      }
      if StatusOf(state, id) != ValidatorStatus.Active {
        return Revert(InvalidValidatorStatus);
      }
      r := UpdateUptime(id, proof);
    }

    // ----- End of a validation period -----

    method EndPeriod(now: Timestamp, id: ValidationID) returns (r: Result<(), Error>)
      modifies this`state
      ensures Follows(r, Spec.EndPeriod(cfg, now, old(state), id), state)
    {
      var v := ValidatorOf(state, id);
      if v.status != ValidatorStatus.Active {
        return Revert(InvalidValidatorStatus);
      }
      state := state.(validationPeriods := state.validationPeriods[
                        id := v.(status := ValidatorStatus.PendingRemoved, endedAt := now)]);
      r := SetValidatorWeight(now, id, 0);
    }

    method AddValidatorReward(id: ValidationID, recipient: Address, reward: nat) returns (r: Result<(), Error>)
      requires IsPoS(state, id)
      modifies this`state
      ensures Follows(r, Spec.AddValidatorReward(old(state), id, recipient, reward), state)
    {
      ghost var spec := Spec.AddValidatorReward(state, id, recipient, reward);
      var owner := state.posValidatorInfo[id].owner;
      var redeemable :- Checked256(GetOr(state.redeemableValidatorRewards, id, 0) + reward, Error.Panic);
      state := state.(redeemableValidatorRewards := state.redeemableValidatorRewards[id := redeemable]);
      state := state.(rewardRecipients := state.rewardRecipients[id := if recipient == 0 then owner else recipient]);
      state := state.(history := state.history.(awarded := state.history.awarded + reward));
      assert spec == Ok(state);
      return Ok(());
    }

    method AwardValidator(id: ValidationID, recipient: Address) returns (r: Result<nat, Error>)
      requires IsPoS(state, id)
      modifies this`state
      ensures FollowsWith(r, Spec.AwardValidator(cfg, old(state), id, recipient), state)
    {
      var v, uptime := ValidatorOf(state, id), state.posValidatorInfo[id].uptimeSeconds;
      var reward :- Spec.CalculateReward(cfg, v.startingWeight, v.startedAt, v.startedAt, v.endedAt, uptime);
      var _ :- AddValidatorReward(id, recipient, reward);
      return Ok(reward);
    }

    method SettlePoSPeriod(caller: Account, id: ValidationID, includeUptimeProof: bool, proof: Option<UptimeProof>,
                           recipient: Address, force: bool)
      returns (r: Result<(), Error>)
      requires IsPoS(state, id)
      modifies this`state
      ensures Follows(r, Spec.SettlePoSPeriod(cfg, caller, old(state), id, includeUptimeProof, proof, recipient, force),
                      state)
    {
      var v, info := ValidatorOf(state, id), state.posValidatorInfo[id];
      if caller != info.owner {
        return Revert(UnauthorizedOwner);
      }
      var earliest :- Checked64(v.startedAt + info.minStakeDuration, Error.Panic);
      if v.endedAt < earliest {
        return Revert(MinStakeDurationNotPassed);
      }
      if includeUptimeProof {
        var _ :- UpdateUptime(id, proof);
      }
      var reward :- AwardValidator(id, recipient);
      if !force && reward == 0 {
        return Revert(ValidatorIneligibleForRewards);
      }
      return Ok(());
    }

    method InitializeEndValidation(
      now: Timestamp, caller: Account, id: ValidationID, includeUptimeProof: bool, proof: Option<UptimeProof>,
      recipient: Address, force: bool)
      returns (r: Result<(), Error>)
      modifies this`state
      ensures Follows(r, Spec.InitializeEndValidation(cfg, now, caller, old(state), id, includeUptimeProof, proof,
                                                      recipient, force), state)
    {
      var _ :- EndPeriod(now, id);
      if !IsPoS(state, id) {
        return Ok(());
      }
      r := SettlePoSPeriod(caller, id, includeUptimeProof, proof, recipient, force);
    }

    method ResendEndValidatorMessage(id: ValidationID) returns (r: Result<(), Error>)
      modifies this`state
      ensures Follows(r, Spec.ResendEndValidatorMessage(old(state), id), state)
    {
      var v := ValidatorOf(state, id);
      if v.status != ValidatorStatus.PendingRemoved {
        return Revert(InvalidValidatorStatus);
      }
      SendWeight(id, v.messageNonce, 0);
      return Ok(());
    }

    method ClosePeriod(proof: Option<RegistrationProof>) returns (r: Result<(), Error>)
      modifies this`state
      ensures Follows(r, Spec.ClosePeriod(old(state), proof), state)
    {
      if proof.None? {
        return Revert(InvalidWarpMessage);
      }
      if proof.value.valid {
        return Revert(UnexpectedRegistrationStatus);
      }
      var id := proof.value.validationID;
      var v := ValidatorOf(state, id);
      if v.status != ValidatorStatus.PendingRemoved && v.status != ValidatorStatus.PendingAdded {
        return Revert(InvalidValidatorStatus);
      }
      if v.status == ValidatorStatus.PendingRemoved {
        v := v.(status := ValidatorStatus.Completed);
      } else {
        v := v.(status := ValidatorStatus.Invalidated);
      }
      state := state.(registeredValidators := state.registeredValidators - {v.nodeID});
      state := state.(validationPeriods := state.validationPeriods[id := v]);
      return Ok(());
    }

    method PayOut(id: ValidationID) returns (r: Result<(), Error>)
      requires IsPoS(state, id)
      modifies this`state
      ensures Follows(r, Spec.PayOut(cfg, old(state), id), state)
    {
      var v, owner := ValidatorOf(state, id), state.posValidatorInfo[id].owner;
      var recipient := GetOr(state.rewardRecipients, id, 0);
      state := state.(rewardRecipients := state.rewardRecipients - {id});
      if recipient == 0 {
        recipient := owner;
      }
      if v.status == ValidatorStatus.Completed {
        WithdrawValidationRewards(recipient, id);
      }
      var value :- Spec.WeightToValue(cfg, v.startingWeight);
      r := Unlock(ValidatorStake(id), owner, value);
    }

    method CompleteEndValidation(proof: Option<RegistrationProof>) returns (r: Result<(), Error>)
      modifies this`state
      ensures Follows(r, Spec.CompleteEndValidation(cfg, old(state), proof), state)
    {
      var _ :- ClosePeriod(proof);
      var id := proof.value.validationID;
      if !IsPoS(state, id) {
        return Ok(());
      }
      r := PayOut(id);
    }

    method ClaimDelegationFees(caller: Account, id: ValidationID) returns (r: Result<(), Error>)
      modifies this`state
      ensures Follows(r, Spec.ClaimDelegationFees(cfg, caller, old(state), id), state)
    {
      if StatusOf(state, id) != ValidatorStatus.Completed {
        return Revert(InvalidValidatorStatus);
      }
      if PoSOwner(state, id) != caller {
        return Revert(UnauthorizedOwner);
      }
      WithdrawValidationRewards(caller, id);
      return Ok(());
    }

    // ----- Delegation -----

    method CheckDelegatedWeight(id: ValidationID, weight: nat) returns (r: Result<nat, Error>)
      ensures r == Spec.WeightWithDelegation(cfg, state, id, weight)
    {
      var v := ValidatorOf(state, id);
      if !IsPoS(state, id) {
        return Revert(ValidatorNotPoS);
      }
      if v.status != ValidatorStatus.Active {
        return Revert(InvalidValidatorStatus);
      }
      var newWeight :- Checked64(v.weight + weight, Error.Panic);
      var limit :- Checked64(v.startingWeight * cfg.maximumStakeMultiplier, Error.Panic);
      if newWeight > limit {
        return Revert(MaxWeightExceeded);
      }
      return Ok(newWeight);
    }

    method InitializeDelegatorRegistration(now: Timestamp, caller: Account, id: ValidationID, received: Uint256)
      returns (r: Result<DelegationID, Error>)
      requires cfg.weightToValueFactor != 0
      modifies this`state
      ensures FollowsWith(r, Spec.InitializeDelegatorRegistration(cfg, now, caller, old(state), id, received), state)
    {
      if received == 0 {
        return Revert(BalanceNotIncreased);
      }
      var weight :- Spec.ValueToWeight(cfg, received);
      var newWeight :- CheckDelegatedWeight(id, weight);
      var _ :- SetValidatorWeight(now, id, newWeight);
      var nonce := ValidatorOf(state, id).messageNonce;
      var delegationID := DelegationID(id, nonce);
      state := state.(delegatorStakes := state.delegatorStakes[
                        delegationID := Delegator(DelegatorStatus.PendingAdded, caller, id, weight, 0, nonce, 0)]);
      Lock(DelegatorStake(delegationID), caller, received);
      return Ok(delegationID);
    }

    method SplitReward(to: Address, id: ValidationID, rewards: nat) returns (r: Result<(), Error>)
      modifies this`state
      ensures Follows(r, Spec.SplitReward(cfg, old(state), to, id, rewards), state)
    {
      var fee :- Spec.DelegationFee(state, id, rewards);
      var redeemable :- Checked256(GetOr(state.redeemableValidatorRewards, id, 0) + fee, Error.Panic);
      state := state.(redeemableValidatorRewards := state.redeemableValidatorRewards[id := redeemable]);
      var rest: int := rewards as int - fee as int;
      var share :- Checked256(rest, Error.Panic);
      Mint(to, share);
      return Ok(());
    }

    method WithdrawDelegationRewards(to: Address, delegationID: DelegationID, id: ValidationID)
      returns (r: Result<(), Error>)
      modifies this`state
      ensures Follows(r, Spec.WithdrawDelegationRewards(cfg, old(state), to, delegationID, id), state)
    {
      var rewards := GetOr(state.redeemableDelegatorRewards, delegationID, 0);
      state := state.(redeemableDelegatorRewards := state.redeemableDelegatorRewards - {delegationID});
      if rewards == 0 {
        return Ok(());
      }
      r := SplitReward(to, id, rewards);
    }

    /** Deletes the record and says who gets the reward. */
    method DeleteDelegation(delegationID: DelegationID) returns (recipient: Address)
      requires delegationID in state.delegatorStakes
      modifies this`state
      ensures state == Spec.WithoutDelegation(old(state), delegationID)
      ensures recipient == Spec.FinalRecipient(old(state), delegationID)
    {
      recipient := GetOr(state.delegatorRewardRecipients, delegationID, 0);
      if recipient == 0 {
        recipient := state.delegatorStakes[delegationID].owner;
      }
      state := state.(delegatorStakes := state.delegatorStakes - {delegationID});
      state := state.(delegatorRewardRecipients := state.delegatorRewardRecipients - {delegationID});
    }

    method FinishDelegation(now: Timestamp, delegationID: DelegationID) returns (r: Result<(), Error>)
      requires delegationID in state.delegatorStakes
      modifies this`state
      ensures Follows(r, Spec.FinishDelegation(cfg, now, old(state), delegationID), state)
    {
      var d := state.delegatorStakes[delegationID];
      var earliest :- Checked64(d.startedAt + cfg.churn.periodSeconds, Error.Panic);
      if now < earliest {
        return Revert(MinStakeDurationNotPassed);
      }
      var recipient := DeleteDelegation(delegationID);
      var _ :- WithdrawDelegationRewards(recipient, delegationID, d.validationID);
      var value :- Spec.WeightToValue(cfg, d.weight);
      r := Unlock(DelegatorStake(delegationID), d.owner, value);
    }

    method CompleteDelegatorRegistration(now: Timestamp, delegationID: DelegationID, proof: Option<WeightProof>)
      returns (r: Result<(), Error>)
      modifies this`state
      ensures Follows(r, Spec.CompleteDelegatorRegistration(cfg, now, old(state), delegationID, proof), state)
    {
      if delegationID !in state.delegatorStakes
         || state.delegatorStakes[delegationID].status != DelegatorStatus.PendingAdded {
        return Revert(InvalidDelegatorStatus);
      }
      var d := state.delegatorStakes[delegationID];
      var v := ValidatorOf(state, d.validationID);
      if v.status == ValidatorStatus.Completed {
        r := FinishDelegation(now, delegationID);
        return;
      }
      if proof.None? {
        return Revert(InvalidWarpMessage);
      }
      if proof.value.validationID != d.validationID {
        return Revert(InvalidValidationID);
      }
      if proof.value.nonce > v.messageNonce || proof.value.nonce < d.startingNonce {
        return Revert(InvalidNonce);
      }
      state := state.(delegatorStakes := state.delegatorStakes[
                        delegationID := d.(status := DelegatorStatus.Active, startedAt := now)]);
      return Ok(());
    }

    method AwardDelegator(now: Timestamp, delegationID: DelegationID, recipient: Address) returns (r: Result<nat, Error>)
      requires delegationID in state.delegatorStakes
      modifies this`state
      ensures FollowsWith(r, Spec.AwardDelegator(cfg, now, old(state), delegationID, recipient), state)
    {
      var d := state.delegatorStakes[delegationID];
      var v := ValidatorOf(state, d.validationID);
      var end: nat;
      if v.status == ValidatorStatus.PendingRemoved || v.status == ValidatorStatus.Completed {
        end := v.endedAt;
      } else if v.status == ValidatorStatus.Active {
        end := now;
      } else {
        return Revert(InvalidValidatorStatus);
      }
      if end <= d.startedAt {
        return Ok(0);
      }
      var uptime := if IsPoS(state, d.validationID) then state.posValidatorInfo[d.validationID].uptimeSeconds else 0;
      var reward :- Spec.CalculateReward(cfg, d.weight, v.startedAt, d.startedAt, end, uptime);
      state := state.(redeemableDelegatorRewards := state.redeemableDelegatorRewards[delegationID := reward],
                      delegatorRewardRecipients := state.delegatorRewardRecipients[
                        delegationID := if recipient == 0 then d.owner else recipient],
                      history := state.history.(awarded := state.history.awarded + reward));
      return Ok(reward);
    }

    method Undelegate(now: Timestamp, delegationID: DelegationID) returns (r: Result<(), Error>)
      requires delegationID in state.delegatorStakes
      modifies this`state
      ensures Follows(r, Spec.Undelegate(cfg, now, old(state), delegationID), state)
    {
      var d := state.delegatorStakes[delegationID];
      var newWeight :- Checked64(ValidatorOf(state, d.validationID).weight - d.weight, Error.Panic);
      ghost var spec := Spec.Undelegate(cfg, now, state, delegationID);
      var _ :- SetValidatorWeight(now, d.validationID, newWeight);
      var nonce := ValidatorOf(state, d.validationID).messageNonce;
      state := state.(delegatorStakes := state.delegatorStakes[
                        delegationID := d.(status := DelegatorStatus.PendingRemoved, endingNonce := nonce)]);
      assert spec == Ok(state);
      return Ok(());
    }

    method EndWhileActive(
      now: Timestamp, delegationID: DelegationID, includeUptimeProof: bool, proof: Option<UptimeProof>,
      recipient: Address, force: bool)
      returns (r: Result<(), Error>)
      requires delegationID in state.delegatorStakes
      modifies this`state
      ensures Follows(r, Spec.EndWhileActive(cfg, now, old(state), delegationID, includeUptimeProof, proof, recipient,
                                             force), state)
    {
      var d := state.delegatorStakes[delegationID];
      var earliest :- Checked64(d.startedAt + cfg.minimumStakeDuration, Error.Panic);
      if now < earliest {
        return Revert(MinStakeDurationNotPassed);
      }
      if !IsPoS(state, d.validationID) {
        return Revert(ValidatorNotPoS);
      }
      if includeUptimeProof {
        var _ :- UpdateUptime(d.validationID, proof);
      }
      var _ :- Undelegate(now, delegationID);
      var reward :- AwardDelegator(now, delegationID, recipient);
      if !force && reward == 0 {
        return Revert(DelegatorIneligibleForRewards);
      }
      return Ok(());
    }

    method InitializeEndDelegation(
      now: Timestamp, caller: Account, delegationID: DelegationID, includeUptimeProof: bool,
      proof: Option<UptimeProof>, recipient: Address, force: bool)
      returns (r: Result<(), Error>)
      modifies this`state
      ensures Follows(r, Spec.InitializeEndDelegation(cfg, now, caller, old(state), delegationID, includeUptimeProof,
                                                      proof, recipient, force), state)
    {
      if delegationID !in state.delegatorStakes
         || state.delegatorStakes[delegationID].status != DelegatorStatus.Active {
        return Revert(InvalidDelegatorStatus);
      }
      var d := state.delegatorStakes[delegationID];
      var v := ValidatorOf(state, d.validationID);
      if d.owner != caller {
        if PoSOwner(state, d.validationID) != caller {
          return Revert(UnauthorizedOwner);
        }
        var earliest :- Checked64(v.startedAt + state.posValidatorInfo[d.validationID].minStakeDuration, Error.Panic);
        if now < earliest {
          return Revert(MinStakeDurationNotPassed);
        }
      }
      if v.status == ValidatorStatus.Active {
        r := EndWhileActive(now, delegationID, includeUptimeProof, proof, recipient, force);
      } else if v.status == ValidatorStatus.Completed {
        var _ :- AwardDelegator(now, delegationID, recipient);
        r := FinishDelegation(now, delegationID);
      } else {
        r := Revert(InvalidValidatorStatus);
      }
    }

    method ResendUpdateDelegation(delegationID: DelegationID) returns (r: Result<(), Error>)
      modifies this`state
      ensures Follows(r, Spec.ResendUpdateDelegation(old(state), delegationID), state)
    {
      if delegationID !in state.delegatorStakes {
        return Revert(InvalidDelegatorStatus);
      }
      var d := state.delegatorStakes[delegationID];
      if d.status != DelegatorStatus.PendingAdded && d.status != DelegatorStatus.PendingRemoved {
        return Revert(InvalidDelegatorStatus);
      }
      var v := ValidatorOf(state, d.validationID);
      if v.messageNonce == 0 {
        return Revert(InvalidDelegationID);
      }
      SendWeight(d.validationID, v.messageNonce, v.weight);
      return Ok(());
    }

    method CompleteEndDelegation(now: Timestamp, delegationID: DelegationID, proof: Option<WeightProof>)
      returns (r: Result<(), Error>)
      modifies this`state
      ensures Follows(r, Spec.CompleteEndDelegation(cfg, now, old(state), delegationID, proof), state)
    {
      if delegationID !in state.delegatorStakes
         || state.delegatorStakes[delegationID].status != DelegatorStatus.PendingRemoved {
        return Revert(InvalidDelegatorStatus);
      }
      var d := state.delegatorStakes[delegationID];
      if StatusOf(state, d.validationID) != ValidatorStatus.Completed {
        if proof.None? {
          return Revert(InvalidWarpMessage);
        }
        if proof.value.validationID != d.validationID {
          return Revert(InvalidValidationID);
        }
        if proof.value.nonce < d.endingNonce {
          return Revert(InvalidNonce);
        }
      }
      r := FinishDelegation(now, delegationID);
    }

    // ----- Reward recipients -----

    method ChangeValidatorRewardRecipient(caller: Account, id: ValidationID, recipient: Address)
      returns (r: Result<(), Error>)
      modifies this`state
      ensures Follows(r, Spec.ChangeValidatorRewardRecipient(caller, old(state), id, recipient), state)
    {
      if recipient == 0 {
        return Revert(InvalidRewardRecipient);
      }
      if PoSOwner(state, id) != caller {
        return Revert(UnauthorizedOwner);
      }
      state := state.(rewardRecipients := state.rewardRecipients[id := recipient]);
      return Ok(());
    }

    method ChangeDelegatorRewardRecipient(caller: Account, delegationID: DelegationID, recipient: Address)
      returns (r: Result<(), Error>)
      modifies this`state
      ensures Follows(r, Spec.ChangeDelegatorRewardRecipient(caller, old(state), delegationID, recipient), state)
    {
      if recipient == 0 {
        return Revert(InvalidRewardRecipient);
      }
      if delegationID !in state.delegatorStakes || state.delegatorStakes[delegationID].owner != caller {
        return Revert(UnauthorizedOwner);
      }
      state := state.(delegatorRewardRecipients := state.delegatorRewardRecipients[delegationID := recipient]);
      return Ok(());
    }

    // ----- Transactions -----

    method ValidatorCall(now: Timestamp, caller: Account, call: Spec.Call) returns (r: Result<(), Error>)
      requires cfg.weightToValueFactor != 0
      requires || call.CallInitializeValidatorSet? || call.CallInitializeValidatorRegistration?
               || call.CallCompleteValidatorRegistration? || call.CallInitializeEndValidation?
               || call.CallCompleteEndValidation? || call.CallSubmitUptimeProof? || call.CallClaimDelegationFees?
               || call.CallResendEndValidatorMessage? || call.CallChangeValidatorRewardRecipient?
      modifies this`state
      ensures Follows(r, Spec.Step(cfg, old(state), Spec.Transaction(now, caller, call)), state)
    {
      match call {
        case CallInitializeValidatorSet(data, proof) =>
          r := InitializeValidatorSet(now, data, proof);
        case CallInitializeValidatorRegistration(input, fee, duration, amount, received) =>
          var _ :- InitializeValidatorRegistration(now, caller, input, fee, duration, amount, received);
          r := Ok(());
        case CallCompleteValidatorRegistration(proof) =>
          r := CompleteValidatorRegistration(now, proof);
        case CallInitializeEndValidation(id, withProof, proof, recipient, force) =>
          r := InitializeEndValidation(now, caller, id, withProof, proof, recipient, force);
        case CallCompleteEndValidation(proof) =>
          r := CompleteEndValidation(proof);
        case CallSubmitUptimeProof(id, proof) =>
          r := SubmitUptimeProof(id, proof);
        case CallClaimDelegationFees(id) =>
          r := ClaimDelegationFees(caller, id);
        case CallResendEndValidatorMessage(id) =>
          r := ResendEndValidatorMessage(id);
        case CallChangeValidatorRewardRecipient(id, recipient) =>
          r := ChangeValidatorRewardRecipient(caller, id, recipient);
      }
    }

    method DelegationCall(now: Timestamp, caller: Account, call: Spec.Call) returns (r: Result<(), Error>)
      requires cfg.weightToValueFactor != 0
      requires || call.CallInitializeDelegatorRegistration? || call.CallCompleteDelegatorRegistration?
               || call.CallInitializeEndDelegation? || call.CallCompleteEndDelegation?
               || call.CallResendUpdateDelegation? || call.CallChangeDelegatorRewardRecipient?
      modifies this`state
      ensures Follows(r, Spec.Step(cfg, old(state), Spec.Transaction(now, caller, call)), state)
    {
      match call {
        case CallInitializeDelegatorRegistration(id, received) =>
          var _ :- InitializeDelegatorRegistration(now, caller, id, received);
          r := Ok(());
        case CallCompleteDelegatorRegistration(delegationID, proof) =>
          r := CompleteDelegatorRegistration(now, delegationID, proof);
        case CallInitializeEndDelegation(delegationID, withProof, proof, recipient, force) =>
          r := InitializeEndDelegation(now, caller, delegationID, withProof, proof, recipient, force);
        case CallCompleteEndDelegation(delegationID, proof) =>
          r := CompleteEndDelegation(now, delegationID, proof);
        case CallResendUpdateDelegation(delegationID) =>
          r := ResendUpdateDelegation(delegationID);
        case CallChangeDelegatorRewardRecipient(delegationID, recipient) =>
          r := ChangeDelegatorRewardRecipient(caller, delegationID, recipient);
      }
    }

    method Dispatch(now: Timestamp, caller: Account, call: Spec.Call) returns (r: Result<(), Error>)
      requires cfg.weightToValueFactor != 0
      modifies this`state
      ensures Follows(r, Spec.Step(cfg, old(state), Spec.Transaction(now, caller, call)), state)
    {
      if call.Donate? {
        state := state.(balance := state.balance + call.value);
        r := Ok(());
      } else if call.CallInitializeDelegatorRegistration? || call.CallCompleteDelegatorRegistration?
                || call.CallInitializeEndDelegation? || call.CallCompleteEndDelegation?
                || call.CallResendUpdateDelegation? || call.CallChangeDelegatorRewardRecipient? {
        r := DelegationCall(now, caller, call);
      } else {
        r := ValidatorCall(now, caller, call);
      }
    }

    /** One transaction; a revert leaves the state as it was, and over legal transactions all promises hold. */
    method Transact(tx: Spec.Transaction) returns (r: Result<(), Error>)
      requires Valid()
      modifies this
      ensures Valid() && trace == old(trace) + [tx]
      ensures Follows(r, Spec.Step(cfg, old(state), tx), state)
      ensures r.Revert? ==> state == old(state)
      ensures ValidSettings(cfg) && Legal(cfg, trace) ==> Promises(cfg, state)
    {
      var before := state;
      r := Dispatch(tx.now, tx.caller, tx.call);
      if r.Revert? {
        state := before;
      }
      assert (trace + [tx])[..|trace + [tx]| - 1] == trace;
      trace := trace + [tx];
      if ValidSettings(cfg) && Legal(cfg, trace) {
        EveryRun(cfg, trace);
      }
    }
  }
}
