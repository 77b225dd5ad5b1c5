/**
 What is kept even if registrations repeat earlier ones. The contract does not check that a validation ID is new; a
 period that is overwritten is never live, though, so the registry, the churn limit and the cover of every stake do not
 depend on it.
 */
module StakingAnyIDs {
  import opened Wrappers
  import opened Numeric
  import opened MapSum
  import opened MessageTypes
  import opened ChurnTracker
  import opened StakingTypes
  import opened StakingSpec
  import opened StakingInvariants
  import opened StakingProofs
  import opened StakingValidatorCalls
  import opened StakingDelegationCalls
  import opened StakingRuns
  import opened StakingTheorems

  /** No more is minted or redeemable than was awarded. */
  ghost predicate AwardsCover(s: State) {
    s.history.awarded >= Total(s.history.minted) + Sum(s.redeemableValidatorRewards, Amount())
                         + Sum(s.redeemableDelegatorRewards, Amount())
  }

  ghost predicate Robust(cfg: Settings, now: nat, s: State) {
    && (!s.initializedValidatorSet ==> s.validationPeriods == map[])
    && RegistryOK(s.registeredValidators, s.validationPeriods)
    && IdentityOK(s.pendingRegisterValidationMessages, s.validationPeriods, s.posValidatorInfo.Keys)
    && Solvent(cfg, s)
    && AwardsCover(s)
    && ChurnOK(cfg.churn, now, s.initializedValidatorSet, s.churnTracker, s.history.initialTotal, s.history.changes)
  }

  lemma RobustLater(cfg: Settings, before: nat, now: nat, s: State)
    requires Robust(cfg, before, s) && before <= now
    ensures Robust(cfg, now, s)
  {
  }

  // ----- Calls on validators -----

  lemma EmptyAtFirst(cfg: Settings, now: nat, s: State)
    requires Robust(cfg, now, s) && !s.initializedValidatorSet
    ensures s.validationPeriods == map[] && s.registeredValidators == map[]
    ensures s.posValidatorInfo.Keys == {} && s.pendingRegisterValidationMessages == map[]
  {
    forall n ensures n !in s.registeredValidators {
      assert NodeAt(s.registeredValidators, s.validationPeriods, n);
    }
    forall id ensures id !in s.posValidatorInfo.Keys && id !in s.pendingRegisterValidationMessages {
      assert IdentityAt(s.pendingRegisterValidationMessages, s.validationPeriods, s.posValidatorInfo.Keys, id);
    }
  }

  lemma SetRobust(cfg: Settings, now: Timestamp, s: State, data: ConversionData, proof: Option<seq<Byte>>)
    requires Robust(cfg, now, s) && InitializeValidatorSet(cfg, now, s, data, proof).Ok?
    ensures Robust(cfg, now, InitializeValidatorSet(cfg, now, s, data, proof).value)
  {
    EmptyAtFirst(cfg, now, s);
    var n := |data.initialValidators|;
    StoreInitialValidatorsKeeps(now, s, data, n);
    InitialValidatorsFrame(now, s, data, n);
    var periods', pos := StoreInitialValidators(now, s, data, n).value.0.validationPeriods, s.posValidatorInfo.Keys;
    FreshReplay(cfg.churn, StoreInitialValidators(now, s, data, n).value.1, s.history.changes);
    Zero(periods', ValidatorEscrow(cfg.weightToValueFactor, pos));
    Zero(s.validationPeriods, ValidatorEscrow(cfg.weightToValueFactor, pos));
    forall id ensures IdentityAt(s.pendingRegisterValidationMessages, periods', pos, id) {
      assert InitialAt(data, n, periods', id);
    }
  }

  /** A period that a registration overwrites is not live, for its node would still be registered. */
  lemma OverwrittenNotLive(cfg: Settings, now: nat, s: State, id: ValidationID)
    requires Robust(cfg, now, s) && id.Registered? && id.period.nodeID !in s.registeredValidators
    ensures id in s.validationPeriods ==> !Live(s.validationPeriods[id].status)
  {
    assert RegisteredAt(s.registeredValidators, s.validationPeriods, id);
    assert IdentityAt(s.pendingRegisterValidationMessages, s.validationPeriods, s.posValidatorInfo.Keys, id);
  }

  lemma RegisterCoreRobust(cfg: Settings, before: nat, s: State, id: ValidationID, w: Validator, c: Change,
                           received: Uint256, s': State)
    requires cfg.weightToValueFactor != 0 && Robust(cfg, before, s) && before <= c.now && c.now > 0
    requires s.initializedValidatorSet && id.Registered? && w.nodeID == id.period.nodeID
    requires w == Validator(ValidatorStatus.PendingAdded, w.nodeID, id.period.weight, 0, id.period.weight, 0, 0)
    requires w.nodeID !in s.registeredValidators && w.weight == Worth(cfg.weightToValueFactor, received)
    requires CheckAndUpdate(cfg.churn, s.churnTracker, c) == Ok(s'.churnTracker)
    requires s'.posValidatorInfo.Keys == s.posValidatorInfo.Keys + {id}
    requires s' == s.(churnTracker := s'.churnTracker,
                      pendingRegisterValidationMessages := s.pendingRegisterValidationMessages[id := id.period],
                      registeredValidators := s.registeredValidators[w.nodeID := id],
                      validationPeriods := s.validationPeriods[id := w],
                      posValidatorInfo := s'.posValidatorInfo,
                      rewardRecipients := s'.rewardRecipients,
                      balance := s.balance + received,
                      history := s.history.(changes := s.history.changes + [c], locked := s'.history.locked))
    ensures Robust(cfg, c.now, s')
  {
    var pos := s.posValidatorInfo.Keys;
    OverwrittenNotLive(cfg, before, s, id);
    ChurnKept(cfg.churn, before, s.churnTracker, s.history.initialTotal, s.history.changes, c, s'.churnTracker);
    RegistryAdd(s.registeredValidators, s.validationPeriods, id, w);
    IdentityAdd(s.pendingRegisterValidationMessages, s.validationPeriods, pos, id, w);
    EscrowAdd(cfg.weightToValueFactor, s.balance, s.validationPeriods, pos, s.delegatorStakes, id, w, received);
  }

  lemma RegisterRobust(
    cfg: Settings, before: nat, now: Timestamp, caller: Account, s: State,
    input: RegistrationInput, fee: nat, duration: nat, amount: nat, received: Uint256)
    requires cfg.weightToValueFactor != 0 && Robust(cfg, before, s) && before <= now
    requires InitializeValidatorRegistration(cfg, now, caller, s, input, fee, duration, amount, received).Ok?
    ensures Robust(
              cfg, now, InitializeValidatorRegistration(cfg, now, caller, s, input, fee, duration, amount,
                                                        received).value.0)
  {
    var weight := Worth(cfg.weightToValueFactor, received);
    RegistrationEffect(cfg, now, caller, s, input, fee, duration, amount, received);
    RegisterCoreRobust(
      cfg, before, s, Registered(RegistrationMessage(cfg, input, weight)),
      Validator(ValidatorStatus.PendingAdded, input.nodeID, weight, 0, weight, 0, 0), Change(now, weight, 0), received,
      InitializeValidatorRegistration(cfg, now, caller, s, input, fee, duration, amount, received).value.0);
  }

  /** A live validator changes but stays live. */
  lemma StandingRobust(cfg: Settings, now: nat, s: State, id: ValidationID, w: Validator)
    requires Robust(cfg, now, s) && id in s.validationPeriods && SameStanding(s.validationPeriods[id], w)
    requires w.status != ValidatorStatus.PendingAdded
    ensures Robust(cfg, now, s.(validationPeriods := s.validationPeriods[id := w]))
    ensures Robust(cfg, now, s.(pendingRegisterValidationMessages := s.pendingRegisterValidationMessages - {id},
                                validationPeriods := s.validationPeriods[id := w]))
  {
    var pos := s.posValidatorInfo.Keys;
    RegistryKept(s.registeredValidators, s.validationPeriods, id, w);
    IdentityKept(s.pendingRegisterValidationMessages, s.validationPeriods, pos, id, w);
    EscrowKept(cfg.weightToValueFactor, s.balance, s.validationPeriods, pos, s.delegatorStakes, id, w);
  }

  /** Its weight is changed, with a churn check and a message. */
  lemma UpdateRobust(cfg: Settings, before: nat, s: State, id: ValidationID, w: Validator, c: Change, tracker': Tracker,
                     messages': map<ValidationID, seq<WeightMessage>>)
    requires Robust(cfg, before, s) && before <= c.now && c.now > 0
    requires id in s.validationPeriods && SameStanding(s.validationPeriods[id], w)
    requires w.status != ValidatorStatus.PendingAdded
    requires CheckAndUpdate(cfg.churn, s.churnTracker, c) == Ok(tracker')
    ensures Robust(cfg, c.now, s.(validationPeriods := s.validationPeriods[id := w], churnTracker := tracker',
                                  history := s.history.(changes := s.history.changes + [c],
                                                        weightMessages := messages')))
  {
    StandingRobust(cfg, before, s, id, w);
    ChurnKept(cfg.churn, before, s.churnTracker, s.history.initialTotal, s.history.changes, c, tracker');
  }

  lemma UptimeRobust(cfg: Settings, now: nat, s: State, id: ValidationID, withProof: bool, proof: Option<UptimeProof>)
    requires Robust(cfg, now, s) && IsPoS(s, id) && MaybeUpdateUptime(s, id, withProof, proof).Ok?
    ensures Robust(cfg, now, MaybeUpdateUptime(s, id, withProof, proof).value)
  {
  }

  lemma AwardValidatorRobust(cfg: Settings, now: nat, s: State, id: ValidationID, recipient: Address)
    requires Robust(cfg, now, s) && IsPoS(s, id) && AwardValidator(cfg, s, id, recipient).Ok?
    ensures Robust(cfg, now, AwardValidator(cfg, s, id, recipient).value.0)
  {
    var redeemable: nat := AwardValidator(cfg, s, id, recipient).value.0.redeemableValidatorRewards[id];
    Update(s.redeemableValidatorRewards, id, redeemable, Amount());
  }

  lemma EndValidationRobust(cfg: Settings, before: nat, s: State, tx: Transaction)
    requires cfg.weightToValueFactor != 0 && Robust(cfg, before, s) && before <= tx.now
    requires tx.call.CallInitializeEndValidation? && Step(cfg, s, tx).Ok?
    ensures Robust(cfg, tx.now, Step(cfg, s, tx).value)
  {
    var c, now := tx.call, tx.now;
    var id := c.validationID;
    EndValidationStages(cfg, now, tx.caller, s, id, c.includeUptimeProof, c.uptimeProof, c.recipient, c.force);
    EndPeriodEffect(cfg, now, s, id);
    var s1 := EndPeriod(cfg, now, s, id).value;
    UpdateRobust(cfg, before, s, id, s1.validationPeriods[id], Change(now, 0, s.validationPeriods[id].weight),
                 s1.churnTracker, s1.history.weightMessages);
    if IsPoS(s1, id) {
      UptimeRobust(cfg, now, s1, id, c.includeUptimeProof, c.uptimeProof);
      AwardValidatorRobust(cfg, now, MaybeUpdateUptime(s1, id, c.includeUptimeProof, c.uptimeProof).value, id,
                           c.recipient);
    }
  }

  /** Redeeming a validator's rewards mints what was redeemable. */
  lemma WithdrawCovers(s: State, id: ValidationID, to: Address)
    requires AwardsCover(s)
    ensures s.history.awarded >= Total(s.history.minted + [Payment(to, GetOr(s.redeemableValidatorRewards, id, 0))])
                                 + Sum(s.redeemableValidatorRewards - {id}, Amount())
                                 + Sum(s.redeemableDelegatorRewards, Amount())
  {
    Delete(s.redeemableValidatorRewards, id, Amount());
    TotalAppend(s.history.minted, Payment(to, GetOr(s.redeemableValidatorRewards, id, 0)));
  }

  lemma CloseCoreRobust(cfg: Settings, now: nat, s: State, id: ValidationID, w: Validator, s': State)
    requires Robust(cfg, now, s) && id in s.validationPeriods && w == s.validationPeriods[id].(status := w.status)
    requires Live(s.validationPeriods[id].status) && !Live(w.status)
    requires s'.balance >= s.balance - OwedToValidator(cfg.weightToValueFactor, id in s.posValidatorInfo,
                                                       s.validationPeriods[id])
    requires AwardsCover(s')
    requires s' == s.(registeredValidators := s.registeredValidators - {w.nodeID},
                      validationPeriods := s.validationPeriods[id := w],
                      redeemableValidatorRewards := s'.redeemableValidatorRewards,
                      rewardRecipients := s'.rewardRecipients,
                      balance := s'.balance,
                      history := s.history.(minted := s'.history.minted, unlocked := s'.history.unlocked))
    ensures Robust(cfg, now, s')
  {
    var pos := s.posValidatorInfo.Keys;
    RegistryRemove(s.registeredValidators, s.validationPeriods, id, w);
    IdentityKept(s.pendingRegisterValidationMessages, s.validationPeriods, pos, id, w);
    ClosedEscrow(cfg.weightToValueFactor, s.balance, s.validationPeriods, pos, s.delegatorStakes, id, w);
  }

  lemma CloseRobust(cfg: Settings, now: nat, s: State, proof: Option<RegistrationProof>)
    requires Robust(cfg, now, s) && CompleteEndValidation(cfg, s, proof).Ok?
    ensures Robust(cfg, now, CompleteEndValidation(cfg, s, proof).value)
  {
    var s' := CompleteEndValidation(cfg, s, proof).value;
    CompleteEndEffect(cfg, s, proof);
    var id := proof.value.validationID;
    assert AwardsCover(s') by {
      if IsPoS(s, id) {
        WithdrawCovers(s, id, RewardRecipient(s, id));
      }
    }
    CloseCoreRobust(cfg, now, s, id, s'.validationPeriods[id], s');
  }

  lemma ValidatorCallRobust(cfg: Settings, before: nat, s: State, tx: Transaction)
    requires cfg.weightToValueFactor != 0 && Robust(cfg, before, s) && before <= tx.now && Step(cfg, s, tx).Ok?
    requires || tx.call.CallInitializeValidatorSet? || tx.call.CallCompleteValidatorRegistration?
             || tx.call.CallCompleteEndValidation? || tx.call.CallClaimDelegationFees?
    ensures Robust(cfg, tx.now, Step(cfg, s, tx).value)
  {
    RobustLater(cfg, before, tx.now, s);
    match tx.call {
      case CallInitializeValidatorSet(data, proof) =>
        SetRobust(cfg, tx.now, s, data, proof);
      case CallCompleteValidatorRegistration(proof) =>
        var id := proof.value.validationID;
        StandingRobust(cfg, tx.now, s, id,
                       s.validationPeriods[id].(status := ValidatorStatus.Active, startedAt := tx.now));
      case CallCompleteEndValidation(proof) =>
        CloseRobust(cfg, tx.now, s, proof);
      case CallClaimDelegationFees(id) =>
        WithdrawCovers(s, id, tx.caller);
    }
  }

  // ----- Calls on delegations -----

  lemma DelegateCoreRobust(cfg: Settings, before: nat, s: State, k: DelegationID, d: Delegator, w: Validator, c: Change,
                           received: Uint256, s': State)
    requires cfg.weightToValueFactor != 0 && Robust(cfg, before, s) && before <= c.now && c.now > 0
    requires k.validationID in s.validationPeriods && SameStanding(s.validationPeriods[k.validationID], w)
    requires w.status == ValidatorStatus.Active && d.weight == Worth(cfg.weightToValueFactor, received)
    requires CheckAndUpdate(cfg.churn, s.churnTracker, c) == Ok(s'.churnTracker)
    requires s' == s.(validationPeriods := s.validationPeriods[k.validationID := w], churnTracker := s'.churnTracker,
                      delegatorStakes := s.delegatorStakes[k := d], balance := s.balance + received,
                      history := s.history.(changes := s.history.changes + [c],
                                            weightMessages := s'.history.weightMessages, locked := s'.history.locked))
    ensures Robust(cfg, c.now, s')
  {
    UpdateRobust(cfg, before, s, k.validationID, w, c, s'.churnTracker, s'.history.weightMessages);
    Update(s.delegatorStakes, k, d, DelegatorEscrow(cfg.weightToValueFactor));
    DepositRoundsDown(cfg.weightToValueFactor, received);
  }

  lemma DelegateRobust(cfg: Settings, before: nat, now: Timestamp, caller: Account, s: State, id: ValidationID,
                       received: Uint256)
    requires ValidSettings(cfg) && Robust(cfg, before, s) && before <= now
    requires InitializeDelegatorRegistration(cfg, now, caller, s, id, received).Ok?
    ensures Robust(cfg, now, InitializeDelegatorRegistration(cfg, now, caller, s, id, received).value.0)
  {
    var s' := InitializeDelegatorRegistration(cfg, now, caller, s, id, received).value.0;
    DelegateEffect(cfg, now, caller, s, id, received);
    var w := s'.validationPeriods[id];
    var k := DelegationID(id, w.messageNonce);
    DelegateCoreRobust(cfg, before, s, k, s'.delegatorStakes[k], w, Change(now, w.weight, s.validationPeriods[id].weight),
                       received, s');
  }

  lemma SameDelegationRobust(cfg: Settings, now: nat, s: State, k: DelegationID, d: Delegator)
    requires Robust(cfg, now, s) && k in s.delegatorStakes && SameDelegation(s.delegatorStakes[k], d)
    ensures Robust(cfg, now, s.(delegatorStakes := s.delegatorStakes[k := d]))
  {
    DelegatorEscrowKept(cfg.weightToValueFactor, s.balance, s.validationPeriods, s.posValidatorInfo.Keys,
                        s.delegatorStakes, k, d);
  }

  lemma UndelegateRobust(cfg: Settings, before: nat, now: Timestamp, s: State, k: DelegationID)
    requires Robust(cfg, before, s) && before <= now && k in s.delegatorStakes
    requires StatusOf(s, s.delegatorStakes[k].validationID) == ValidatorStatus.Active && Undelegate(cfg, now, s, k).Ok?
    ensures Robust(cfg, now, Undelegate(cfg, now, s, k).value)
  {
    UndelegateEffect(cfg, now, s, k);
    var id, s' := s.delegatorStakes[k].validationID, Undelegate(cfg, now, s, k).value;
    var w := s'.validationPeriods[id];
    var c := Change(now, w.weight, s.validationPeriods[id].weight);
    UpdateRobust(cfg, before, s, id, w, c, s'.churnTracker, s'.history.weightMessages);
    var s1 := s.(validationPeriods := s.validationPeriods[id := w], churnTracker := s'.churnTracker,
                 history := s.history.(changes := s.history.changes + [c], weightMessages := s'.history.weightMessages));
    SameDelegationRobust(cfg, now, s1, k, s'.delegatorStakes[k]);
  }

  /** A reward may overwrite an earlier one, which is then lost; it never adds more than was awarded. */
  lemma AwardDelegatorRobust(cfg: Settings, now: nat, at: Timestamp, s: State, k: DelegationID, recipient: Address)
    requires Robust(cfg, now, s) && k in s.delegatorStakes && AwardDelegator(cfg, at, s, k, recipient).Ok?
    ensures Robust(cfg, now, AwardDelegator(cfg, at, s, k, recipient).value.0)
  {
    AwardEffect(cfg, at, s, k, recipient);
    var reward := AwardDelegator(cfg, at, s, k, recipient).value.1;
    Update(s.redeemableDelegatorRewards, k, reward, Amount());
  }

  lemma SplitCovers(cfg: Settings, s: State, to: Address, k: DelegationID, id: ValidationID)
    requires AwardsCover(s) && WithdrawDelegationRewards(cfg, s, to, k, id).Ok?
    ensures AwardsCover(WithdrawDelegationRewards(cfg, s, to, k, id).value)
  {
    WithdrawEffect(cfg, s, to, k, id);
    Delete(s.redeemableDelegatorRewards, k, Amount());
    if GetOr(s.redeemableDelegatorRewards, k, 0) > 0 {
      var redeemable: nat := WithdrawDelegationRewards(cfg, s, to, k, id).value.redeemableValidatorRewards[id];
      Update(s.redeemableValidatorRewards, id, redeemable, Amount());
      var minted := WithdrawDelegationRewards(cfg, s, to, k, id).value.history.minted;
      TotalAppend(s.history.minted, minted[|s.history.minted|]);
    }
  }

  lemma FinishRobust(cfg: Settings, now: nat, at: Timestamp, s: State, k: DelegationID)
    requires Robust(cfg, now, s) && k in s.delegatorStakes && FinishDelegation(cfg, at, s, k).Ok?
    ensures Robust(cfg, now, FinishDelegation(cfg, at, s, k).value)
  {
    FinishEffect(cfg, at, s, k);
    var s0, to, id := WithoutDelegation(s, k), FinalRecipient(s, k), s.delegatorStakes[k].validationID;
    WithdrawEffect(cfg, s0, to, k, id);
    SplitCovers(cfg, s0, to, k, id);
    FinishEscrow(cfg.weightToValueFactor, s.balance, s.validationPeriods, s.posValidatorInfo.Keys, s.delegatorStakes, k);
  }

  lemma EndDelegationRobust(cfg: Settings, before: nat, s: State, tx: Transaction)
    requires cfg.weightToValueFactor != 0 && Robust(cfg, before, s) && before <= tx.now
    requires tx.call.CallInitializeEndDelegation? && Step(cfg, s, tx).Ok?
    ensures Robust(cfg, tx.now, Step(cfg, s, tx).value)
  {
    var c, now := tx.call, tx.now;
    var k := c.delegationID;
    EndDelegationStages(cfg, now, tx.caller, s, k, c.includeUptimeProof, c.uptimeProof, c.recipient, c.force);
    var id := s.delegatorStakes[k].validationID;
    if StatusOf(s, id) == ValidatorStatus.Active {
      UptimeRobust(cfg, before, s, id, c.includeUptimeProof, c.uptimeProof);
      var s1 := MaybeUpdateUptime(s, id, c.includeUptimeProof, c.uptimeProof).value;
      UndelegateRobust(cfg, before, now, s1, k);
      AwardDelegatorRobust(cfg, now, now, Undelegate(cfg, now, s1, k).value, k, c.recipient);
    } else {
      RobustLater(cfg, before, now, s);
      AwardDelegatorRobust(cfg, now, now, s, k, c.recipient);
      FinishRobust(cfg, now, now, AwardDelegator(cfg, now, s, k, c.recipient).value.0, k);
    }
  }

  lemma CompletionRobust(cfg: Settings, before: nat, s: State, tx: Transaction)
    requires cfg.weightToValueFactor != 0 && Robust(cfg, before, s) && before <= tx.now && Step(cfg, s, tx).Ok?
    requires tx.call.CallCompleteDelegatorRegistration? || tx.call.CallCompleteEndDelegation?
    ensures Robust(cfg, tx.now, Step(cfg, s, tx).value)
  {
    RobustLater(cfg, before, tx.now, s);
    var k := tx.call.delegationID;
    if tx.call.CallCompleteEndDelegation? || StatusOf(s, s.delegatorStakes[k].validationID) == ValidatorStatus.Completed {
      FinishRobust(cfg, tx.now, tx.now, s, k);
    } else {
      SameDelegationRobust(cfg, tx.now, s, k,
                           s.delegatorStakes[k].(status := DelegatorStatus.Active, startedAt := tx.now));
    }
  }

  lemma SubmitRobust(cfg: Settings, now: nat, s: State, id: ValidationID, proof: Option<UptimeProof>)
    requires Robust(cfg, now, s) && SubmitUptimeProof(s, id, proof).Ok?
    ensures Robust(cfg, now, SubmitUptimeProof(s, id, proof).value)
  {
    UptimeRobust(cfg, now, s, id, true, proof);
  }

  lemma OtherCallRobust(cfg: Settings, now: nat, s: State, tx: Transaction)
    requires cfg.weightToValueFactor != 0 && Robust(cfg, now, s) && Step(cfg, s, tx).Ok?
    requires || tx.call.CallResendEndValidatorMessage? || tx.call.CallResendUpdateDelegation?
             || tx.call.CallChangeValidatorRewardRecipient? || tx.call.CallChangeDelegatorRewardRecipient?
             || tx.call.Donate?
    ensures Robust(cfg, now, Step(cfg, s, tx).value)
  {
  }

  lemma StepRobust(cfg: Settings, before: nat, s: State, tx: Transaction)
    requires ValidSettings(cfg) && Robust(cfg, before, s) && before <= tx.now && Step(cfg, s, tx).Ok?
    ensures Robust(cfg, tx.now, Step(cfg, s, tx).value)
  {
    var c := tx.call;
    if c.CallInitializeValidatorRegistration? {
      RegisterRobust(cfg, before, tx.now, tx.caller, s, c.input, c.delegationFeeBips, c.minStakeDuration, c.stakeAmount,
                     c.received);
    } else if c.CallInitializeEndValidation? {
      EndValidationRobust(cfg, before, s, tx);
    } else if c.CallInitializeDelegatorRegistration? {
      DelegateRobust(cfg, before, tx.now, tx.caller, s, c.validationID, c.received);
    } else if c.CallInitializeEndDelegation? {
      EndDelegationRobust(cfg, before, s, tx);
    } else if c.CallCompleteDelegatorRegistration? || c.CallCompleteEndDelegation? {
      CompletionRobust(cfg, before, s, tx);
    } else if c.CallInitializeValidatorSet? || c.CallCompleteValidatorRegistration? || c.CallCompleteEndValidation?
              || c.CallClaimDelegationFees? {
      ValidatorCallRobust(cfg, before, s, tx);
    } else {
      RobustLater(cfg, before, tx.now, s);
      if c.CallSubmitUptimeProof? {
        SubmitRobust(cfg, tx.now, s, c.validationID, c.uptimeProof);
      } else {
        OtherCallRobust(cfg, tx.now, s, tx);
      }
    }
  }

  // ----- Every run -----

  /** Block times never go back; nothing about validation IDs. */
  ghost predicate Timely(txs: seq<Transaction>) {
    forall i :: 0 < i < |txs| ==> txs[i - 1].now <= txs[i].now
  }

  lemma DeployedRobust(cfg: Settings, s: State)
    requires s == DEPLOYED
    ensures Robust(cfg, 0, s)
  {
    EmptyMaps(cfg, s);
    NoChanges(cfg.churn, s.churnTracker, s.history.changes);
  }

  lemma {:induction false} RunRobust(cfg: Settings, txs: seq<Transaction>)
    requires ValidSettings(cfg) && Timely(txs)
    ensures Robust(cfg, Latest(txs), Run(cfg, txs))
  {
    if txs == [] {
      DeployedRobust(cfg, DEPLOYED);
    } else {
      var earlier, tx := txs[..|txs| - 1], txs[|txs| - 1];
      RunRobust(cfg, earlier);
      if Step(cfg, Run(cfg, earlier), tx).Ok? {
        StepRobust(cfg, Latest(earlier), Run(cfg, earlier), tx);
      } else {
        RobustLater(cfg, Latest(earlier), tx.now, Run(cfg, earlier));
      }
    }
  }

  /**
   The promises that hold of every run whatever is registered: every live stake is covered and no return fails for lack
   of tokens, no more is paid in rewards than was awarded, the churn limit holds, and the registry is exact.
   */
  lemma EveryRunWithAnyIDs(cfg: Settings, txs: seq<Transaction>)
    requires ValidSettings(cfg) && Timely(txs)
    ensures var s := Run(cfg, txs);
            Solvent(cfg, s) && PayoutsNeverFail(cfg, s) && AwardsCover(s) && ChurnLimited(cfg, s) && RegistryIsExact(s)
  {
    RunRobust(cfg, txs);
    var s := Run(cfg, txs);
    PayoutsWhenSolvent(cfg, s);
    ChurnFromInvariant(cfg, Latest(txs), s);
    RegistryFromInvariant(s);
  }
}
