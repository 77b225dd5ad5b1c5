/** The calls on delegations keep the invariant. */
module StakingDelegationCalls {
  import opened Wrappers
  import opened Numeric
  import opened MapSum
  import opened ChurnTracker
  import opened StakingTypes
  import opened StakingSpec
  import opened StakingInvariants
  import opened StakingProofs
  import opened StakingValidatorCalls

  // ----- A delegation starts -----

  /** The ID of a new delegation has no entry: its nonce is higher than any nonce used so far. */
  lemma NewDelegationID(periods: map<ValidationID, Validator>, pos: set<ValidationID>,
                        delegations: map<DelegationID, Delegator>, k: DelegationID)
    requires DelegationsOK(periods, pos, delegations)
    requires k.validationID in periods && k.nonce > periods[k.validationID].messageNonce
    ensures k !in delegations
  {
    assert DelegationAt(periods, pos, delegations, k);
  }

  lemma WithinWeightLimit(cfg: Settings, s: State, id: ValidationID, weight: nat)
    requires WeightWithDelegation(cfg, s, id, weight).Ok?
    ensures id in s.validationPeriods && s.validationPeriods[id].status == ValidatorStatus.Active
    ensures id in s.posValidatorInfo
    ensures var v, newWeight := s.validationPeriods[id], WeightWithDelegation(cfg, s, id, weight).value;
            newWeight == v.weight + weight <= v.startingWeight * cfg.maximumStakeMultiplier
  {
  }

  /** The effect of a new delegation. */
  lemma DelegateEffect(cfg: Settings, now: Timestamp, caller: Account, s: State, id: ValidationID, received: Uint256)
    requires ValidSettings(cfg)
    requires InitializeDelegatorRegistration(cfg, now, caller, s, id, received).Ok?
    ensures id in s.validationPeriods && s.validationPeriods[id].status == ValidatorStatus.Active
    ensures id in s.posValidatorInfo && Worth(cfg.weightToValueFactor, received) > 0
    ensures var s' := InitializeDelegatorRegistration(cfg, now, caller, s, id, received).value.0;
            var v := s.validationPeriods[id];
            var weight := Worth(cfg.weightToValueFactor, received);
            var nonce := v.messageNonce + 1;
            var k := DelegationID(id, nonce);
            var c := Change(now, v.weight + weight, v.weight);
            && v.weight + weight <= v.startingWeight * cfg.maximumStakeMultiplier
            && CheckAndUpdate(cfg.churn, s.churnTracker, c) == Ok(s'.churnTracker)
            && s' == s.(
                 validationPeriods := s.validationPeriods[id := v.(messageNonce := nonce, weight := v.weight + weight)],
                 churnTracker := s'.churnTracker,
                 delegatorStakes := s.delegatorStakes[
                   k := Delegator(DelegatorStatus.PendingAdded, caller, id, weight, 0, nonce, 0)],
                 balance := s.balance + received,
                 history := s.history.(
                   changes := s.history.changes + [c],
                   weightMessages := Append(s.history.weightMessages, id, WeightMessage(nonce, v.weight + weight)),
                   locked := Append(s.history.locked, DelegatorStake(k), Deposit(caller, received))))
  {
    var weight := Worth(cfg.weightToValueFactor, received);
    assert ValueToWeight(cfg, received) == Ok(weight) && weight > 0;
    WithinWeightLimit(cfg, s, id, weight);
    WeightUpdate(cfg, now, s, id, s.validationPeriods[id].weight + weight);
  }

  lemma DelegateWeights(cfg: Settings, s: State, k: DelegationID, d: Delegator, w: Validator)
    requires WeightsOK(cfg, s.validationPeriods, s.delegatorStakes)
    requires DelegationsOK(s.validationPeriods, s.posValidatorInfo.Keys, s.delegatorStakes)
    requires k.validationID in s.validationPeriods && k.validationID in s.posValidatorInfo
    requires var v := s.validationPeriods[k.validationID];
             && v.status == ValidatorStatus.Active
             && w == v.(messageNonce := v.messageNonce + 1, weight := v.weight + d.weight)
             && w.weight <= v.startingWeight * cfg.maximumStakeMultiplier
             && k.nonce == w.messageNonce
             && d == Delegator(DelegatorStatus.PendingAdded, d.owner, k.validationID, d.weight, 0, k.nonce, 0)
    requires d.owner != 0 && d.weight > 0
    ensures WeightsOK(cfg, s.validationPeriods[k.validationID := w], s.delegatorStakes[k := d])
    ensures DelegationsOK(s.validationPeriods[k.validationID := w], s.posValidatorInfo.Keys, s.delegatorStakes[k := d])
  {
    NewDelegationID(s.validationPeriods, s.posValidatorInfo.Keys, s.delegatorStakes, k);
    assert WeightAt(cfg, s.validationPeriods, s.delegatorStakes, k.validationID);
    Update(s.delegatorStakes, k, d, Backing(k.validationID));
    WeightsMoved(cfg, s.validationPeriods, s.posValidatorInfo.Keys, s.delegatorStakes, k, d, w);
  }

  lemma DelegateEscrow(factor: nat, balance: nat, periods: map<ValidationID, Validator>, pos: set<ValidationID>,
                       delegations: map<DelegationID, Delegator>, id: ValidationID, w: Validator,
                       k: DelegationID, d: Delegator, received: Uint256)
    requires factor != 0 && EscrowOK(factor, balance, periods, pos, delegations)
    requires id in periods && SameStanding(periods[id], w) && d.weight == Worth(factor, received)
    ensures EscrowOK(factor, balance + received, periods[id := w], pos, delegations[k := d])
  {
    EscrowKept(factor, balance, periods, pos, delegations, id, w);
    Update(delegations, k, d, DelegatorEscrow(factor));
    DepositRoundsDown(factor, received);
  }

  lemma DelegateCore(cfg: Settings, before: nat, s: State, k: DelegationID, d: Delegator, w: Validator, c: Change,
                     tracker': Tracker, received: Uint256, s': State)
    requires cfg.weightToValueFactor != 0 && Invariant(cfg, before, s) && before <= c.now && c.now > 0
    requires k.validationID in s.validationPeriods && k.validationID in s.posValidatorInfo
    requires var v := s.validationPeriods[k.validationID];
             && v.status == ValidatorStatus.Active
             && w == v.(messageNonce := v.messageNonce + 1, weight := v.weight + d.weight)
             && w.weight <= v.startingWeight * cfg.maximumStakeMultiplier
             && k.nonce == w.messageNonce
             && d == Delegator(DelegatorStatus.PendingAdded, d.owner, k.validationID, d.weight, 0, k.nonce, 0)
             && c.newWeight == w.weight && c.oldWeight == v.weight
    requires d.owner != 0 && d.weight > 0 && d.weight == Worth(cfg.weightToValueFactor, received)
    requires CheckAndUpdate(cfg.churn, s.churnTracker, c) == Ok(tracker')
    requires s' == s.(
               validationPeriods := s.validationPeriods[k.validationID := w], churnTracker := tracker',
               delegatorStakes := s.delegatorStakes[k := d], balance := s.balance + received,
               history := s.history.(
                 changes := s.history.changes + [c],
                 weightMessages := Append(s.history.weightMessages, k.validationID,
                                          WeightMessage(w.messageNonce, w.weight)),
                 locked := Append(s.history.locked, DelegatorStake(k), Deposit(d.owner, received))))
    ensures Invariant(cfg, c.now, s')
  {
    var factor, pos, id := cfg.weightToValueFactor, s.posValidatorInfo.Keys, k.validationID;
    NewDelegationID(s.validationPeriods, pos, s.delegatorStakes, k);
    DelegateWeights(cfg, s, k, d, w);
    ChurnKept(cfg.churn, before, s.churnTracker, s.history.initialTotal, s.history.changes, c, tracker');
    TotalAfterUpdate(cfg, s.churnTracker, s.validationPeriods, c, tracker', id, w);
    RegistryKept(s.registeredValidators, s.validationPeriods, id, w);
    IdentityKept(s.pendingRegisterValidationMessages, s.validationPeriods, pos, id, w);
    MessagesUp(s.history.weightMessages, s.validationPeriods, id, w);
    DelegateEscrow(factor, s.balance, s.validationPeriods, pos, s.delegatorStakes, id, w, k, d, received);
    DelegatorDeposit(factor, s, s'.validationPeriods, k, d, received);
    RewardsKept(s.redeemableDelegatorRewards, s.delegatorStakes, k, d);
  }

  lemma InitializeDelegatorRegistrationKeeps(
    cfg: Settings, before: nat, now: Timestamp, caller: Account, s: State, id: ValidationID, received: Uint256)
    requires ValidSettings(cfg) && Invariant(cfg, before, s) && before <= now
    requires InitializeDelegatorRegistration(cfg, now, caller, s, id, received).Ok?
    ensures Invariant(cfg, now, InitializeDelegatorRegistration(cfg, now, caller, s, id, received).value.0)
  {
    DelegateEffect(cfg, now, caller, s, id, received);
    var s' := InitializeDelegatorRegistration(cfg, now, caller, s, id, received).value.0;
    var v, w := s.validationPeriods[id], s'.validationPeriods[id];
    var k := DelegationID(id, w.messageNonce);
    DelegateCore(cfg, before, s, k, s'.delegatorStakes[k], w, Change(now, w.weight, v.weight), s'.churnTracker,
                 received, s');
  }

  // ----- A delegation becomes active -----

  lemma ActivateCore(cfg: Settings, now: nat, s: State, k: DelegationID, d: Delegator)
    requires cfg.weightToValueFactor != 0 && Invariant(cfg, now, s)
    requires k in s.delegatorStakes && s.delegatorStakes[k].status == DelegatorStatus.PendingAdded
    requires d == s.delegatorStakes[k].(status := DelegatorStatus.Active, startedAt := d.startedAt)
    ensures Invariant(cfg, now, s.(delegatorStakes := s.delegatorStakes[k := d]))
  {
    var factor, pos, id := cfg.weightToValueFactor, s.posValidatorInfo.Keys, d.validationID;
    assert DelegationAt(s.validationPeriods, pos, s.delegatorStakes, k);
    assert WeightAt(cfg, s.validationPeriods, s.delegatorStakes, id);
    Update(s.delegatorStakes, k, d, Backing(id));
    var v := s.validationPeriods[id];
    assert s.validationPeriods[id := v] == s.validationPeriods;
    WeightsMoved(cfg, s.validationPeriods, pos, s.delegatorStakes, k, d, v);
    DelegatorEscrowKept(factor, s.balance, s.validationPeriods, pos, s.delegatorStakes, k, d);
    DelegatorStakesKept(factor, s.history.locked, s.history.unlocked, s.validationPeriods, s.delegatorStakes, k, d);
    RewardsKept(s.redeemableDelegatorRewards, s.delegatorStakes, k, d);
  }

  // ----- The finishing step -----

  /** The fee is a part of the reward. */
  lemma FeeSplit(rewards: nat, bips: nat)
    requires bips <= BIPS_CONVERSION_FACTOR
    ensures 0 <= rewards * bips / BIPS_CONVERSION_FACTOR <= rewards
  {
    assert rewards * bips <= rewards * BIPS_CONVERSION_FACTOR;
  }

  /** How a delegation's reward is split: what the validator can redeem grows by the fee, the rest is minted. */
  lemma WithdrawEffect(cfg: Settings, s: State, to: Address, k: DelegationID, id: ValidationID)
    requires WithdrawDelegationRewards(cfg, s, to, k, id).Ok?
    ensures var s' := WithdrawDelegationRewards(cfg, s, to, k, id).value;
            var rewards := GetOr(s.redeemableDelegatorRewards, k, 0);
            && s' == s.(redeemableDelegatorRewards := s.redeemableDelegatorRewards - {k},
                        redeemableValidatorRewards := s'.redeemableValidatorRewards,
                        balance := s'.balance,
                        history := s.history.(minted := s'.history.minted))
            && s'.balance >= s.balance
            && if rewards == 0 then
                 s'.redeemableValidatorRewards == s.redeemableValidatorRewards && s'.history.minted == s.history.minted
               else
                 var bips := if IsPoS(s, id) then s.posValidatorInfo[id].delegationFeeBips else 0;
                 var fee := rewards * bips / BIPS_CONVERSION_FACTOR;
                 && 0 <= fee <= rewards
                 && s'.redeemableValidatorRewards ==
                    s.redeemableValidatorRewards[id := GetOr(s.redeemableValidatorRewards, id, 0) + fee]
                 && s'.history.minted == s.history.minted + [Payment(to, rewards - fee)]
  {
  }

  lemma WithdrawLedger(cfg: Settings, s: State, to: Address, k: DelegationID, id: ValidationID)
    requires WithdrawDelegationRewards(cfg, s, to, k, id).Ok?
    requires LedgerOK(s.history.awarded, Total(s.history.minted), s.redeemableValidatorRewards, s.redeemableDelegatorRewards)
    ensures var s' := WithdrawDelegationRewards(cfg, s, to, k, id).value;
            LedgerOK(s'.history.awarded, Total(s'.history.minted), s'.redeemableValidatorRewards, s'.redeemableDelegatorRewards)
  {
    WithdrawEffect(cfg, s, to, k, id);
    Delete(s.redeemableDelegatorRewards, k, Amount());
    var s' := WithdrawDelegationRewards(cfg, s, to, k, id).value;
    if GetOr(s.redeemableDelegatorRewards, k, 0) > 0 {
      var redeemable: nat := s'.redeemableValidatorRewards[id];
      Update(s.redeemableValidatorRewards, id, redeemable, Amount());
      TotalAppend(s.history.minted, s'.history.minted[|s.history.minted|]);
    }
  }

  lemma FinishEffect(cfg: Settings, now: Timestamp, s: State, k: DelegationID)
    requires k in s.delegatorStakes && FinishDelegation(cfg, now, s, k).Ok?
    ensures var d := s.delegatorStakes[k];
            var s' := FinishDelegation(cfg, now, s, k).value;
            var r := WithdrawDelegationRewards(cfg, WithoutDelegation(s, k), FinalRecipient(s, k), k, d.validationID);
            var value := TokenValue(cfg.weightToValueFactor, d.weight);
            && now >= d.startedAt + cfg.churn.periodSeconds
            && r.Ok? && value <= r.value.balance
            && s'.balance >= r.value.balance - value
            && s' == r.value.(
                 balance := s'.balance,
                 history := r.value.history.(
                   unlocked := Append(r.value.history.unlocked, DelegatorStake(k), Payment(d.owner, value))))
  {
  }

  lemma FinishEscrow(factor: nat, balance: nat, periods: map<ValidationID, Validator>, pos: set<ValidationID>,
                     delegations: map<DelegationID, Delegator>, k: DelegationID)
    requires EscrowOK(factor, balance, periods, pos, delegations) && k in delegations
    ensures var value := TokenValue(factor, delegations[k].weight);
            value <= balance && EscrowOK(factor, balance - value, periods, pos, delegations - {k})
  {
    Delete(delegations, k, DelegatorEscrow(factor));
  }

  lemma FinishCore(cfg: Settings, now: nat, s: State, k: DelegationID, s': State)
    requires cfg.weightToValueFactor != 0 && InvariantExceptRewards(cfg, now, s)
    requires k in s.delegatorStakes
    requires RewardsOK(s.redeemableDelegatorRewards - {k}, s.delegatorStakes - {k})
    requires var d := s.delegatorStakes[k];
             && (d.status == DelegatorStatus.PendingRemoved
                 || StatusOf(s, d.validationID) == ValidatorStatus.Completed)
             && var value := TokenValue(cfg.weightToValueFactor, d.weight);
             && s'.balance >= s.balance - value
             && s' == s.(delegatorStakes := s.delegatorStakes - {k},
                         delegatorRewardRecipients := s'.delegatorRewardRecipients,
                         redeemableDelegatorRewards := s.redeemableDelegatorRewards - {k},
                         redeemableValidatorRewards := s'.redeemableValidatorRewards,
                         balance := s'.balance,
                         history := s.history.(
                           minted := s'.history.minted,
                           unlocked := Append(s.history.unlocked, DelegatorStake(k), Payment(d.owner, value))))
    requires LedgerOK(s.history.awarded, Total(s'.history.minted), s'.redeemableValidatorRewards,
                      s'.redeemableDelegatorRewards)
    ensures Invariant(cfg, now, s')
  {
    var factor, pos := cfg.weightToValueFactor, s.posValidatorInfo.Keys;
    assert DelegationAt(s.validationPeriods, pos, s.delegatorStakes, k);
    WeightsAfterRemoval(cfg, s.validationPeriods, pos, s.delegatorStakes, k);
    FinishEscrow(factor, s.balance, s.validationPeriods, pos, s.delegatorStakes, k);
    DelegatorReturn(factor, s, k);
  }

  lemma FinishDelegationKeeps(cfg: Settings, now: nat, at: Timestamp, s: State, k: DelegationID)
    requires cfg.weightToValueFactor != 0 && InvariantExceptRewards(cfg, now, s)
    requires k in s.delegatorStakes && FinishDelegation(cfg, at, s, k).Ok?
    requires RewardsOK(s.redeemableDelegatorRewards - {k}, s.delegatorStakes - {k})
    requires s.delegatorStakes[k].status == DelegatorStatus.PendingRemoved
             || StatusOf(s, s.delegatorStakes[k].validationID) == ValidatorStatus.Completed
    ensures Invariant(cfg, now, FinishDelegation(cfg, at, s, k).value)
  {
    FinishEffect(cfg, at, s, k);
    var s0, to, id := WithoutDelegation(s, k), FinalRecipient(s, k), s.delegatorStakes[k].validationID;
    WithdrawEffect(cfg, s0, to, k, id);
    WithdrawLedger(cfg, s0, to, k, id);
    FinishCore(cfg, now, s, k, FinishDelegation(cfg, at, s, k).value);
  }

  lemma RewardsWithout(rewards: map<DelegationID, nat>, delegations: map<DelegationID, Delegator>, k: DelegationID,
                       reward: nat)
    requires RewardsOK(rewards, delegations)
    ensures RewardsOK(rewards - {k}, delegations - {k})
    ensures RewardsOK(rewards[k := reward] - {k}, delegations - {k})
  {
    var rewards', delegations' := rewards - {k}, delegations - {k};
    assert rewards[k := reward] - {k} == rewards';
    forall i ensures RewardAt(rewards', delegations', i) {
      assert RewardAt(rewards, delegations, i);
    }
  }

  lemma CompleteDelegatorRegistrationKeeps(
    cfg: Settings, before: nat, now: Timestamp, s: State, k: DelegationID, proof: Option<WeightProof>)
    requires cfg.weightToValueFactor != 0 && Invariant(cfg, before, s) && before <= now
    requires CompleteDelegatorRegistration(cfg, now, s, k, proof).Ok?
    ensures Invariant(cfg, now, CompleteDelegatorRegistration(cfg, now, s, k, proof).value)
  {
    InvariantLater(cfg, before, now, s);
    var d := s.delegatorStakes[k];
    if StatusOf(s, d.validationID) == ValidatorStatus.Completed {
      RewardsWithout(s.redeemableDelegatorRewards, s.delegatorStakes, k, 0);
      FinishDelegationKeeps(cfg, now, now, s, k);
    } else {
      ActivateCore(cfg, now, s, k, d.(status := DelegatorStatus.Active, startedAt := now));
    }
  }

  lemma CompleteEndDelegationKeeps(
    cfg: Settings, before: nat, now: Timestamp, s: State, k: DelegationID, proof: Option<WeightProof>)
    requires cfg.weightToValueFactor != 0 && Invariant(cfg, before, s) && before <= now
    requires CompleteEndDelegation(cfg, now, s, k, proof).Ok?
    ensures Invariant(cfg, now, CompleteEndDelegation(cfg, now, s, k, proof).value)
  {
    InvariantLater(cfg, before, now, s);
    RewardsWithout(s.redeemableDelegatorRewards, s.delegatorStakes, k, 0);
    FinishDelegationKeeps(cfg, now, now, s, k);
  }

  // ----- A delegation ends -----

  /** The state after the weight update that removes a delegation. */
  lemma UndelegateCore(cfg: Settings, before: nat, s: State, k: DelegationID, d: Delegator, w: Validator, c: Change,
                       tracker': Tracker, s': State)
    requires cfg.weightToValueFactor != 0 && Invariant(cfg, before, s) && before <= c.now && c.now > 0
    requires k in s.delegatorStakes && s.delegatorStakes[k].status == DelegatorStatus.Active
    requires d.validationID in s.validationPeriods
    requires var v := s.validationPeriods[d.validationID];
             && v.status == ValidatorStatus.Active
             && v.weight >= d.weight
             && w == v.(messageNonce := v.messageNonce + 1, weight := v.weight - d.weight)
             && d == s.delegatorStakes[k].(status := DelegatorStatus.PendingRemoved, endingNonce := w.messageNonce)
             && c.newWeight == w.weight && c.oldWeight == v.weight
    requires CheckAndUpdate(cfg.churn, s.churnTracker, c) == Ok(tracker')
    requires s' == s.(
               validationPeriods := s.validationPeriods[d.validationID := w], churnTracker := tracker',
               delegatorStakes := s.delegatorStakes[k := d],
               history := s.history.(
                 changes := s.history.changes + [c],
                 weightMessages := Append(s.history.weightMessages, d.validationID,
                                          WeightMessage(w.messageNonce, w.weight))))
    ensures Invariant(cfg, c.now, s')
    ensures k !in s'.redeemableDelegatorRewards
  {
    var factor, pos, id := cfg.weightToValueFactor, s.posValidatorInfo.Keys, d.validationID;
    assert DelegationAt(s.validationPeriods, pos, s.delegatorStakes, k);
    assert WeightAt(cfg, s.validationPeriods, s.delegatorStakes, id);
    Update(s.delegatorStakes, k, d, Backing(id));
    WeightsMoved(cfg, s.validationPeriods, pos, s.delegatorStakes, k, d, w);
    ChurnKept(cfg.churn, before, s.churnTracker, s.history.initialTotal, s.history.changes, c, tracker');
    TotalAfterUpdate(cfg, s.churnTracker, s.validationPeriods, c, tracker', id, w);
    RegistryKept(s.registeredValidators, s.validationPeriods, id, w);
    IdentityKept(s.pendingRegisterValidationMessages, s.validationPeriods, pos, id, w);
    MessagesUp(s.history.weightMessages, s.validationPeriods, id, w);
    EscrowKept(factor, s.balance, s.validationPeriods, pos, s.delegatorStakes, id, w);
    DelegatorEscrowKept(factor, s.balance, s'.validationPeriods, pos, s.delegatorStakes, k, d);
    StakesKept(factor, s, id, w);
    DelegatorStakesKept(factor, s.history.locked, s.history.unlocked, s'.validationPeriods, s.delegatorStakes, k, d);
    RewardsKept(s.redeemableDelegatorRewards, s.delegatorStakes, k, d);
  }

  /** The effect of awarding a delegation. */
  lemma AwardEffect(cfg: Settings, now: Timestamp, s: State, k: DelegationID, recipient: Address)
    requires k in s.delegatorStakes && AwardDelegator(cfg, now, s, k, recipient).Ok?
    ensures var (s', reward) := AwardDelegator(cfg, now, s, k, recipient).value;
            || (s' == s && reward == 0)
            || s' == s.(redeemableDelegatorRewards := s.redeemableDelegatorRewards[k := reward],
                        delegatorRewardRecipients := s'.delegatorRewardRecipients,
                        history := s.history.(awarded := s.history.awarded + reward))
  {
  }

  lemma AwardDelegatorKeeps(cfg: Settings, now: nat, at: Timestamp, s: State, k: DelegationID, recipient: Address)
    requires cfg.weightToValueFactor != 0 && Invariant(cfg, now, s)
    requires k in s.delegatorStakes && k !in s.redeemableDelegatorRewards
    requires AwardDelegator(cfg, at, s, k, recipient).Ok?
    ensures var s' := AwardDelegator(cfg, at, s, k, recipient).value.0;
            && InvariantExceptRewards(cfg, now, s')
            && RewardsOK(s'.redeemableDelegatorRewards - {k}, s'.delegatorStakes - {k})
            && (s.delegatorStakes[k].status == DelegatorStatus.PendingRemoved ==> Invariant(cfg, now, s'))
  {
    AwardEffect(cfg, at, s, k, recipient);
    var (s', reward) := AwardDelegator(cfg, at, s, k, recipient).value;
    Update(s.redeemableDelegatorRewards, k, reward, Amount());
    RewardsWithout(s.redeemableDelegatorRewards, s.delegatorStakes, k, reward);
    forall i ensures s.delegatorStakes[k].status == DelegatorStatus.PendingRemoved
                     ==> RewardAt(s'.redeemableDelegatorRewards, s'.delegatorStakes, i)
    {
      assert RewardAt(s.redeemableDelegatorRewards, s.delegatorStakes, i);
    }
  }

  /** The effect of the weight update that removes a delegation. */
  lemma UndelegateEffect(cfg: Settings, now: Timestamp, s: State, k: DelegationID)
    requires k in s.delegatorStakes && s.delegatorStakes[k].validationID in s.validationPeriods
    requires Undelegate(cfg, now, s, k).Ok?
    ensures var s' := Undelegate(cfg, now, s, k).value;
            var d := s.delegatorStakes[k];
            var v := s.validationPeriods[d.validationID];
            var nonce := v.messageNonce + 1;
            var c := Change(now, s'.validationPeriods[d.validationID].weight, v.weight);
            && v.weight >= d.weight && c.newWeight == v.weight - d.weight
            && CheckAndUpdate(cfg.churn, s.churnTracker, c) == Ok(s'.churnTracker)
            && s' == s.(
                 validationPeriods := s.validationPeriods[
                   d.validationID := v.(messageNonce := nonce, weight := c.newWeight)],
                 churnTracker := s'.churnTracker,
                 delegatorStakes := s.delegatorStakes[
                   k := d.(status := DelegatorStatus.PendingRemoved, endingNonce := nonce)],
                 history := s.history.(
                   changes := s.history.changes + [c],
                   weightMessages := Append(s.history.weightMessages, d.validationID,
                                            WeightMessage(nonce, c.newWeight))))
  {
    var d := s.delegatorStakes[k];
    WeightUpdate(cfg, now, s, d.validationID, s.validationPeriods[d.validationID].weight - d.weight);
  }

  lemma UndelegateKeeps(cfg: Settings, before: nat, now: Timestamp, s: State, k: DelegationID)
    requires cfg.weightToValueFactor != 0 && Invariant(cfg, before, s) && before <= now
    requires k in s.delegatorStakes && s.delegatorStakes[k].status == DelegatorStatus.Active
    requires StatusOf(s, s.delegatorStakes[k].validationID) == ValidatorStatus.Active
    requires Undelegate(cfg, now, s, k).Ok?
    ensures var s' := Undelegate(cfg, now, s, k).value;
            && Invariant(cfg, now, s')
            && k !in s'.redeemableDelegatorRewards
            && s'.delegatorStakes[k].status == DelegatorStatus.PendingRemoved
  {
    UndelegateEffect(cfg, now, s, k);
    var id, s' := s.delegatorStakes[k].validationID, Undelegate(cfg, now, s, k).value;
    var w := s'.validationPeriods[id];
    UndelegateCore(cfg, before, s, k, s'.delegatorStakes[k], w, Change(now, w.weight, s.validationPeriods[id].weight),
                   s'.churnTracker, s');
  }

  /** The stages of a successful end of delegation. */
  lemma EndDelegationStages(
    cfg: Settings, now: Timestamp, caller: Account, s: State,
    k: DelegationID, withProof: bool, proof: Option<UptimeProof>, recipient: Address, force: bool)
    requires InitializeEndDelegation(cfg, now, caller, s, k, withProof, proof, recipient, force).Ok?
    ensures k in s.delegatorStakes && s.delegatorStakes[k].status == DelegatorStatus.Active
    ensures var r := InitializeEndDelegation(cfg, now, caller, s, k, withProof, proof, recipient, force);
            var id := s.delegatorStakes[k].validationID;
            if StatusOf(s, id) == ValidatorStatus.Active then
              && IsPoS(s, id)
              && var s1 := MaybeUpdateUptime(s, id, withProof, proof);
              && s1.Ok? && s1.value.delegatorStakes == s.delegatorStakes
              && s1.value.validationPeriods == s.validationPeriods
              && var s2 := Undelegate(cfg, now, s1.value, k);
              && s2.Ok? && k in s2.value.delegatorStakes
              && AwardDelegator(cfg, now, s2.value, k, recipient).Ok?
              && r.value == AwardDelegator(cfg, now, s2.value, k, recipient).value.0
            else
              && StatusOf(s, id) == ValidatorStatus.Completed
              && var s1 := AwardDelegator(cfg, now, s, k, recipient);
              && s1.Ok? && r == FinishDelegation(cfg, now, s1.value.0, k)
  {
  }

  lemma ActiveEndKeeps(cfg: Settings, before: nat, now: Timestamp, s: State, k: DelegationID, recipient: Address)
    requires cfg.weightToValueFactor != 0 && Invariant(cfg, before, s) && before <= now
    requires k in s.delegatorStakes && s.delegatorStakes[k].status == DelegatorStatus.Active
    requires StatusOf(s, s.delegatorStakes[k].validationID) == ValidatorStatus.Active
    requires Undelegate(cfg, now, s, k).Ok?
    requires AwardDelegator(cfg, now, Undelegate(cfg, now, s, k).value, k, recipient).Ok?
    ensures Invariant(cfg, now, AwardDelegator(cfg, now, Undelegate(cfg, now, s, k).value, k, recipient).value.0)
  {
    UndelegateKeeps(cfg, before, now, s, k);
    AwardDelegatorKeeps(cfg, now, now, Undelegate(cfg, now, s, k).value, k, recipient);
  }

  lemma CompletedEndKeeps(cfg: Settings, now: Timestamp, s: State, k: DelegationID, recipient: Address)
    requires cfg.weightToValueFactor != 0 && Invariant(cfg, now, s)
    requires k in s.delegatorStakes && s.delegatorStakes[k].status == DelegatorStatus.Active
    requires StatusOf(s, s.delegatorStakes[k].validationID) == ValidatorStatus.Completed
    requires AwardDelegator(cfg, now, s, k, recipient).Ok?
    requires FinishDelegation(cfg, now, AwardDelegator(cfg, now, s, k, recipient).value.0, k).Ok?
    ensures Invariant(cfg, now, FinishDelegation(cfg, now, AwardDelegator(cfg, now, s, k, recipient).value.0, k).value)
  {
    assert RewardAt(s.redeemableDelegatorRewards, s.delegatorStakes, k);
    AwardDelegatorKeeps(cfg, now, now, s, k, recipient);
    AwardEffect(cfg, now, s, k, recipient);
    FinishDelegationKeeps(cfg, now, now, AwardDelegator(cfg, now, s, k, recipient).value.0, k);
  }

  lemma InitializeEndDelegationKeeps(
    cfg: Settings, before: nat, now: Timestamp, caller: Account, s: State,
    k: DelegationID, withProof: bool, proof: Option<UptimeProof>, recipient: Address, force: bool)
    requires cfg.weightToValueFactor != 0 && Invariant(cfg, before, s) && before <= now
    requires InitializeEndDelegation(cfg, now, caller, s, k, withProof, proof, recipient, force).Ok?
    ensures Invariant(cfg, now,
                      InitializeEndDelegation(cfg, now, caller, s, k, withProof, proof, recipient, force).value)
  {
    EndDelegationStages(cfg, now, caller, s, k, withProof, proof, recipient, force);
    var id := s.delegatorStakes[k].validationID;
    if StatusOf(s, id) == ValidatorStatus.Active {
      MaybeUpdateUptimeKeeps(cfg, before, s, id, withProof, proof);
      ActiveEndKeeps(cfg, before, now, MaybeUpdateUptime(s, id, withProof, proof).value, k, recipient);
    } else {
      InvariantLater(cfg, before, now, s);
      CompletedEndKeeps(cfg, now, s, k, recipient);
    }
  }

  lemma ResendUpdateDelegationKeeps(cfg: Settings, before: nat, now: nat, s: State, k: DelegationID)
    requires cfg.weightToValueFactor != 0 && Invariant(cfg, before, s) && before <= now
    requires ResendUpdateDelegation(s, k).Ok?
    ensures Invariant(cfg, now, ResendUpdateDelegation(s, k).value)
  {
    InvariantLater(cfg, before, now, s);
    var id := s.delegatorStakes[k].validationID;
    assert DelegationAt(s.validationPeriods, s.posValidatorInfo.Keys, s.delegatorStakes, k);
    MessagesRepeat(s.history.weightMessages, s.validationPeriods, id);
  }
}
