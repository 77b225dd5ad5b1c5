/** What the calls that are not about delegations leave as it was. */
module StakingFrames {
  import opened Wrappers
  import opened StakingTypes
  import opened StakingSpec
  import opened StakingValidatorCalls

  /** The delegations, their rewards and what was awarded are the same. */
  ghost predicate DelegationsStay(s: State, s': State) {
    && s'.delegatorStakes == s.delegatorStakes
    && s'.redeemableDelegatorRewards == s.redeemableDelegatorRewards
    && s'.history.awarded == s.history.awarded
  }

  /** The calls that keep the books without touching a period or a delegation. */
  predicate Bookkeeping(call: Call) {
    || call.CallCompleteValidatorRegistration? || call.CallClaimDelegationFees? || call.CallSubmitUptimeProof?
    || call.CallResendEndValidatorMessage? || call.CallResendUpdateDelegation?
    || call.CallChangeValidatorRewardRecipient? || call.CallChangeDelegatorRewardRecipient? || call.Donate?
  }

  lemma SubmitFrame(s: State, id: ValidationID, proof: Option<UptimeProof>)
    requires SubmitUptimeProof(s, id, proof).Ok?
    ensures MaybeUpdateUptime(s, id, true, proof) == SubmitUptimeProof(s, id, proof)
    ensures DelegationsStay(s, SubmitUptimeProof(s, id, proof).value)
  {
  }

  lemma ClaimFrame(cfg: Settings, caller: Account, s: State, id: ValidationID)
    requires ClaimDelegationFees(cfg, caller, s, id).Ok?
    ensures DelegationsStay(s, ClaimDelegationFees(cfg, caller, s, id).value)
    ensures ClaimDelegationFees(cfg, caller, s, id).value.posValidatorInfo == s.posValidatorInfo
  {
  }

  lemma CompleteFrame(now: Timestamp, s: State, proof: Option<RegistrationProof>)
    requires CompleteValidatorRegistration(now, s, proof).Ok?
    ensures DelegationsStay(s, CompleteValidatorRegistration(now, s, proof).value)
    ensures CompleteValidatorRegistration(now, s, proof).value.posValidatorInfo == s.posValidatorInfo
  {
  }

  lemma ResendFrame(s: State, id: ValidationID, k: DelegationID)
    ensures var r := ResendEndValidatorMessage(s, id);
            r.Ok? ==> DelegationsStay(s, r.value) && r.value.posValidatorInfo == s.posValidatorInfo
    ensures var r := ResendUpdateDelegation(s, k);
            r.Ok? ==> DelegationsStay(s, r.value) && r.value.posValidatorInfo == s.posValidatorInfo
  {
  }

  lemma RecipientFrame(caller: Account, s: State, id: ValidationID, k: DelegationID, recipient: Address)
    ensures var r := ChangeValidatorRewardRecipient(caller, s, id, recipient);
            r.Ok? ==> DelegationsStay(s, r.value) && r.value.posValidatorInfo == s.posValidatorInfo
    ensures var r := ChangeDelegatorRewardRecipient(caller, s, k, recipient);
            r.Ok? ==> DelegationsStay(s, r.value) && r.value.posValidatorInfo == s.posValidatorInfo
  {
  }

  lemma BookkeepingFrame(cfg: Settings, s: State, tx: Transaction)
    requires cfg.weightToValueFactor != 0 && Bookkeeping(tx.call) && Step(cfg, s, tx).Ok?
    ensures DelegationsStay(s, Step(cfg, s, tx).value)
    ensures tx.call.CallSubmitUptimeProof? || Step(cfg, s, tx).value.posValidatorInfo == s.posValidatorInfo
  {
    match tx.call {
      case CallSubmitUptimeProof(id, proof) => SubmitFrame(s, id, proof);
      case CallClaimDelegationFees(id) => ClaimFrame(cfg, tx.caller, s, id);
      case CallCompleteValidatorRegistration(proof) => CompleteFrame(tx.now, s, proof);
      case CallResendEndValidatorMessage(id) => ResendFrame(s, id, DelegationID(id, 0));
      case CallResendUpdateDelegation(k) => ResendFrame(s, k.validationID, k);
      case CallChangeValidatorRewardRecipient(id, to) => RecipientFrame(tx.caller, s, id, DelegationID(id, 0), to);
      case CallChangeDelegatorRewardRecipient(k, to) => RecipientFrame(tx.caller, s, k.validationID, k, to);
      case Donate(_) =>
    }
  }

  /** Registering and closing a period. */
  lemma PeriodFrame(cfg: Settings, s: State, tx: Transaction)
    requires cfg.weightToValueFactor != 0 && Step(cfg, s, tx).Ok?
    requires || tx.call.CallInitializeValidatorSet? || tx.call.CallInitializeValidatorRegistration?
             || tx.call.CallCompleteEndValidation?
    ensures DelegationsStay(s, Step(cfg, s, tx).value)
    ensures tx.call.CallInitializeValidatorRegistration? || Step(cfg, s, tx).value.posValidatorInfo == s.posValidatorInfo
  {
    match tx.call {
      case CallInitializeValidatorSet(data, _) =>
        InitialValidatorsFrame(tx.now, s, data, |data.initialValidators|);
      case CallInitializeValidatorRegistration(input, fee, duration, amount, received) =>
        RegistrationEffect(cfg, tx.now, tx.caller, s, input, fee, duration, amount, received);
      case CallCompleteEndValidation(proof) =>
        CompleteEndEffect(cfg, s, proof);
    }
  }
}
