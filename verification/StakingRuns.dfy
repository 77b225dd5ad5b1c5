/** Every run of transactions from deployment keeps the invariant. */
module StakingRuns {
  import opened Wrappers
  import opened ChurnTracker
  import opened StakingTypes
  import opened StakingSpec
  import opened StakingInvariants
  import opened StakingValidatorCalls
  import opened StakingDelegationCalls

  /** The time of the last transaction of a run. */
  function Latest(txs: seq<Transaction>): nat {
    if txs == [] then 0 else txs[|txs| - 1].now
  }

  /** Block times never go back, and no successful registration repeats an earlier one. */
  ghost predicate Legal(cfg: Settings, txs: seq<Transaction>)
    requires cfg.weightToValueFactor != 0
  {
    txs == [] ||
    var earlier, tx := txs[..|txs| - 1], txs[|txs| - 1];
    && Legal(cfg, earlier)
    && Latest(earlier) <= tx.now
    && FreshID(cfg, Run(cfg, earlier), tx)
  }

  /** Where nothing is stored. */
  lemma EmptyMaps(cfg: Settings, s: State)
    requires s.validationPeriods == map[] && s.delegatorStakes == map[] && s.posValidatorInfo.Keys == {}
    requires s.registeredValidators == map[] && s.pendingRegisterValidationMessages == map[]
    requires s.history.weightMessages == map[] && s.redeemableDelegatorRewards == map[]
    ensures WeightsOK(cfg, s.validationPeriods, s.delegatorStakes)
    ensures DelegationsOK(s.validationPeriods, s.posValidatorInfo.Keys, s.delegatorStakes)
    ensures RegistryOK(s.registeredValidators, s.validationPeriods)
    ensures IdentityOK(s.pendingRegisterValidationMessages, s.validationPeriods, s.posValidatorInfo.Keys)
    ensures MessagesOK(s.history.weightMessages, s.validationPeriods)
    ensures RewardsOK(s.redeemableDelegatorRewards, s.delegatorStakes)
  {
  }

  lemma EmptyStakes(factor: nat, s: State)
    requires factor != 0 && s.posValidatorInfo == map[] && s.delegatorStakes == map[]
    requires s.history.locked == map[] && s.history.unlocked == map[]
    ensures ValidatorStakesOK(factor, s.history.locked, s.history.unlocked, s.validationPeriods, s.posValidatorInfo)
    ensures DelegatorStakesOK(factor, s.history.locked, s.history.unlocked, s.validationPeriods, s.delegatorStakes)
  {
  }

  lemma NoChanges(limit: Limit, tracker: Tracker, changes: seq<Change>)
    requires tracker == Fresh(0) && changes == []
    ensures ChurnOK(limit, 0, false, tracker, 0, changes)
  {
  }

  lemma DeployedInvariant(cfg: Settings, s: State)
    requires cfg.weightToValueFactor != 0 && s == DEPLOYED
    ensures Invariant(cfg, 0, s)
  {
    EmptyMaps(cfg, s);
    EmptyStakes(cfg.weightToValueFactor, s);
    NoChanges(cfg.churn, s.churnTracker, s.history.changes);
  }

  lemma RegistrationStepKeeps(cfg: Settings, before: nat, s: State, tx: Transaction)
    requires ValidSettings(cfg) && Invariant(cfg, before, s) && before <= tx.now && FreshID(cfg, s, tx)
    requires tx.call.CallInitializeValidatorRegistration? && Step(cfg, s, tx).Ok?
    ensures Invariant(cfg, tx.now, Step(cfg, s, tx).value)
  {
    var c := tx.call;
    InitializeValidatorRegistrationKeeps(
      cfg, before, tx.now, tx.caller, s, c.input, c.delegationFeeBips, c.minStakeDuration, c.stakeAmount, c.received);
  }

  lemma SubmitKeeps(cfg: Settings, now: nat, s: State, id: ValidationID, proof: Option<UptimeProof>)
    requires cfg.weightToValueFactor != 0 && Invariant(cfg, now, s) && SubmitUptimeProof(s, id, proof).Ok?
    ensures Invariant(cfg, now, SubmitUptimeProof(s, id, proof).value)
  {
    MaybeUpdateUptimeKeeps(cfg, now, s, id, true, proof);
  }

  lemma RecipientKeeps(cfg: Settings, now: nat, s: State, recipients: map<ValidationID, Address>,
                       delegatorRecipients: map<DelegationID, Address>)
    requires cfg.weightToValueFactor != 0 && Invariant(cfg, now, s)
    ensures Invariant(cfg, now, s.(rewardRecipients := recipients))
    ensures Invariant(cfg, now, s.(delegatorRewardRecipients := delegatorRecipients))
  {
  }

  lemma BookkeepingStepKeeps(cfg: Settings, before: nat, s: State, tx: Transaction)
    requires cfg.weightToValueFactor != 0 && Invariant(cfg, before, s) && before <= tx.now
    requires Step(cfg, s, tx).Ok?
    requires || tx.call.CallSubmitUptimeProof? || tx.call.CallChangeValidatorRewardRecipient?
             || tx.call.CallChangeDelegatorRewardRecipient? || tx.call.Donate?
    ensures Invariant(cfg, tx.now, Step(cfg, s, tx).value)
  {
    InvariantLater(cfg, before, tx.now, s);
    match tx.call {
      case CallSubmitUptimeProof(id, proof) => SubmitKeeps(cfg, tx.now, s, id, proof);
      case CallChangeValidatorRewardRecipient(id, to) =>
        RecipientKeeps(cfg, tx.now, s, s.rewardRecipients[id := to], s.delegatorRewardRecipients);
      case CallChangeDelegatorRewardRecipient(k, to) =>
        RecipientKeeps(cfg, tx.now, s, s.rewardRecipients, s.delegatorRewardRecipients[k := to]);
      case Donate(_) =>
    }
  }

  lemma ValidatorStepKeeps(cfg: Settings, before: nat, s: State, tx: Transaction)
    requires ValidSettings(cfg) && Invariant(cfg, before, s) && before <= tx.now && Step(cfg, s, tx).Ok?
    requires || tx.call.CallInitializeValidatorSet? || tx.call.CallCompleteValidatorRegistration?
             || tx.call.CallInitializeEndValidation? || tx.call.CallCompleteEndValidation?
             || tx.call.CallClaimDelegationFees? || tx.call.CallResendEndValidatorMessage?
    ensures Invariant(cfg, tx.now, Step(cfg, s, tx).value)
  {
    match tx.call {
      case CallInitializeValidatorSet(data, proof) =>
        InitializeValidatorSetKeeps(cfg, before, tx.now, s, data, proof);
      case CallCompleteValidatorRegistration(proof) =>
        CompleteValidatorRegistrationKeeps(cfg, before, tx.now, s, proof);
      case CallInitializeEndValidation(id, withProof, proof, recipient, force) =>
        InitializeEndValidationKeeps(cfg, before, tx.now, tx.caller, s, id, withProof, proof, recipient, force);
      case CallCompleteEndValidation(proof) =>
        CompleteEndValidationKeeps(cfg, before, tx.now, s, proof);
      case CallClaimDelegationFees(id) =>
        ClaimDelegationFeesKeeps(cfg, before, tx.now, tx.caller, s, id);
      case CallResendEndValidatorMessage(id) =>
        ResendEndValidatorMessageKeeps(cfg, before, tx.now, s, id);
    }
  }

  lemma DelegationStepKeeps(cfg: Settings, before: nat, s: State, tx: Transaction)
    requires ValidSettings(cfg) && Invariant(cfg, before, s) && before <= tx.now && Step(cfg, s, tx).Ok?
    requires || tx.call.CallInitializeDelegatorRegistration? || tx.call.CallCompleteDelegatorRegistration?
             || tx.call.CallInitializeEndDelegation? || tx.call.CallCompleteEndDelegation?
             || tx.call.CallResendUpdateDelegation?
    ensures Invariant(cfg, tx.now, Step(cfg, s, tx).value)
  {
    match tx.call {
      case CallInitializeDelegatorRegistration(id, received) =>
        InitializeDelegatorRegistrationKeeps(cfg, before, tx.now, tx.caller, s, id, received);
      case CallCompleteDelegatorRegistration(k, proof) =>
        CompleteDelegatorRegistrationKeeps(cfg, before, tx.now, s, k, proof);
      case CallInitializeEndDelegation(k, withProof, proof, recipient, force) =>
        InitializeEndDelegationKeeps(cfg, before, tx.now, tx.caller, s, k, withProof, proof, recipient, force);
      case CallCompleteEndDelegation(k, proof) =>
        CompleteEndDelegationKeeps(cfg, before, tx.now, s, k, proof);
      case CallResendUpdateDelegation(k) =>
        ResendUpdateDelegationKeeps(cfg, before, tx.now, s, k);
    }
  }

  lemma StepKeeps(cfg: Settings, before: nat, s: State, tx: Transaction)
    requires ValidSettings(cfg) && Invariant(cfg, before, s) && before <= tx.now && FreshID(cfg, s, tx)
    requires Step(cfg, s, tx).Ok?
    ensures Invariant(cfg, tx.now, Step(cfg, s, tx).value)
  {
    match tx.call {
      case CallInitializeValidatorRegistration(_, _, _, _, _) =>
        RegistrationStepKeeps(cfg, before, s, tx);
      case CallSubmitUptimeProof(_, _) => BookkeepingStepKeeps(cfg, before, s, tx);
      case CallChangeValidatorRewardRecipient(_, _) => BookkeepingStepKeeps(cfg, before, s, tx);
      case CallChangeDelegatorRewardRecipient(_, _) => BookkeepingStepKeeps(cfg, before, s, tx);
      case Donate(_) => BookkeepingStepKeeps(cfg, before, s, tx);
      case CallInitializeDelegatorRegistration(_, _) => DelegationStepKeeps(cfg, before, s, tx);
      case CallCompleteDelegatorRegistration(_, _) => DelegationStepKeeps(cfg, before, s, tx);
      case CallInitializeEndDelegation(_, _, _, _, _) => DelegationStepKeeps(cfg, before, s, tx);
      case CallCompleteEndDelegation(_, _) => DelegationStepKeeps(cfg, before, s, tx);
      case CallResendUpdateDelegation(_) => DelegationStepKeeps(cfg, before, s, tx);
      case _ => ValidatorStepKeeps(cfg, before, s, tx);
    }
  }

  /** Every reachable state satisfies the invariant. */
  lemma {:induction false} RunKeeps(cfg: Settings, txs: seq<Transaction>)
    requires ValidSettings(cfg) && Legal(cfg, txs)
    ensures Invariant(cfg, Latest(txs), Run(cfg, txs))
  {
    if txs == [] {
      DeployedInvariant(cfg, DEPLOYED);
    } else {
      var earlier, tx := txs[..|txs| - 1], txs[|txs| - 1];
      RunKeeps(cfg, earlier);
      if Step(cfg, Run(cfg, earlier), tx).Ok? {
        StepKeeps(cfg, Latest(earlier), Run(cfg, earlier), tx);
      } else {
        InvariantLater(cfg, Latest(earlier), tx.now, Run(cfg, earlier));
      }
    }
  }
}
