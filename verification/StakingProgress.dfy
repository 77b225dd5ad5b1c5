/** When the calls that give stake back succeed. */
module StakingProgress {
  import opened Wrappers
  import opened Numeric
  import opened StakingTypes
  import opened StakingSpec
  import opened StakingInvariants
  import opened StakingTheorems

  /** An acknowledged registration is completed exactly while it is pending: its message is then still stored. */
  lemma RegistrationCompletesIff(cfg: Settings, before: nat, now: Timestamp, s: State, id: ValidationID, valid: bool)
    requires cfg.weightToValueFactor != 0 && Invariant(cfg, before, s)
    ensures CompleteValidatorRegistration(now, s, Some(RegistrationProof(id, valid))).Ok?
            <==> valid && StatusOf(s, id) == ValidatorStatus.PendingAdded
  {
    assert IdentityAt(s.pendingRegisterValidationMessages, s.validationPeriods, s.posValidatorInfo.Keys, id);
  }

  /** The tokens to return fit in 256 bits, because they came in as such. */
  lemma ReturnFits(cfg: Settings, before: nat, s: State)
    requires cfg.weightToValueFactor != 0 && InvariantExceptRewards(cfg, before, s)
    ensures forall id :: id in s.posValidatorInfo ==>
              WeightToValue(cfg, ValidatorOf(s, id).startingWeight).Ok?
    ensures forall k :: k in s.delegatorStakes ==> WeightToValue(cfg, s.delegatorStakes[k].weight).Ok?
  {
    var h, factor := s.history, cfg.weightToValueFactor;
    forall id | id in s.posValidatorInfo ensures WeightToValue(cfg, ValidatorOf(s, id).startingWeight).Ok? {
      assert ValidatorStakeAt(factor, h.locked, h.unlocked, s.validationPeriods, s.posValidatorInfo, id);
      RoundingLoss(factor, h.locked[ValidatorStake(id)][0].value);
    }
    forall k | k in s.delegatorStakes ensures WeightToValue(cfg, s.delegatorStakes[k].weight).Ok? {
      assert DelegatorStakeAt(factor, h.locked, h.unlocked, s.validationPeriods, s.delegatorStakes, k);
      RoundingLoss(factor, h.locked[DelegatorStake(k)][0].value);
    }
  }

  /** The P-Chain's word that a validation is over always closes the period and returns the stake. */
  lemma EndCompletesIff(cfg: Settings, before: nat, s: State, id: ValidationID, valid: bool)
    requires cfg.weightToValueFactor != 0 && Invariant(cfg, before, s)
    ensures CompleteEndValidation(cfg, s, Some(RegistrationProof(id, valid))).Ok?
            <==> !valid && (StatusOf(s, id) == ValidatorStatus.PendingRemoved
                            || StatusOf(s, id) == ValidatorStatus.PendingAdded)
  {
    var proof := Some(RegistrationProof(id, valid));
    var closed := ClosePeriod(s, proof);
    ValidatorPayoutCovered(cfg, s, proof);
    if closed.Ok? && IsPoS(s, id) {
      ReturnFits(cfg, before, s);
      PayOutFails(cfg, closed.value, id);
    }
  }

  /** The two ways in which paying out a validator can fail. */
  lemma PayOutFails(cfg: Settings, s: State, id: ValidationID)
    requires IsPoS(s, id)
    ensures PayOut(cfg, s, id).Revert? ==>
              PayOut(cfg, s, id).error == TokenTransferFailed || WeightToValue(cfg, ValidatorOf(s, id).startingWeight).Revert?
  {
  }

  /** The reward arithmetic of the finishing step stays within 256 bits. */
  ghost predicate RewardFits(s: State, k: DelegationID)
    requires k in s.delegatorStakes
  {
    var rewards, id := GetOr(s.redeemableDelegatorRewards, k, 0), s.delegatorStakes[k].validationID;
    var bips := if IsPoS(s, id) then s.posValidatorInfo[id].delegationFeeBips else 0;
    rewards == 0 ||
    (&& rewards * bips <= MAX_UINT256
     && GetOr(s.redeemableValidatorRewards, id, 0) + rewards * bips / BIPS_CONVERSION_FACTOR <= MAX_UINT256
     && 0 <= rewards - rewards * bips / BIPS_CONVERSION_FACTOR <= MAX_UINT256)
  }

  lemma WithdrawSucceedsIff(cfg: Settings, s: State, k: DelegationID)
    requires k in s.delegatorStakes
    ensures WithdrawDelegationRewards(cfg, WithoutDelegation(s, k), FinalRecipient(s, k), k,
                                      s.delegatorStakes[k].validationID).Ok?
            <==> RewardFits(s, k)
  {
  }

  /**
   The finishing step returns a delegation's stake exactly when a churn period has passed since it began and the
   arithmetic of its reward does not overflow.
   */
  lemma FinishSucceedsIff(cfg: Settings, before: nat, now: Timestamp, s: State, k: DelegationID)
    requires cfg.weightToValueFactor != 0 && InvariantExceptRewards(cfg, before, s) && k in s.delegatorStakes
    ensures FinishDelegation(cfg, now, s, k).Ok?
            <==> now >= s.delegatorStakes[k].startedAt + cfg.churn.periodSeconds && RewardFits(s, k)
  {
    ReturnFits(cfg, before, s);
    FinishCovered(cfg, now, s, k);
    WithdrawSucceedsIff(cfg, s, k);
    FinishStages(cfg, now, s, k);
  }

  lemma FinishStages(cfg: Settings, now: Timestamp, s: State, k: DelegationID)
    requires k in s.delegatorStakes
    ensures var d := s.delegatorStakes[k];
            var r := FinishDelegation(cfg, now, s, k);
            r != Revert(TokenTransferFailed) && WeightToValue(cfg, d.weight).Ok? ==>
              (r.Ok? <==> && now >= d.startedAt + cfg.churn.periodSeconds
                          && WithdrawDelegationRewards(cfg, WithoutDelegation(s, k), FinalRecipient(s, k), k,
                                                       d.validationID).Ok?)
  {
  }
}
