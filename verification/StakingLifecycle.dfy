/**
 The two state machines of the staking manager, validators and delegations: every move of either, what causes it, and
 who may cause it.
 */
module StakingLifecycle {
  import opened Wrappers
  import opened StakingTypes
  import opened StakingSpec
  import opened StakingInvariants
  import opened StakingProofs
  import opened StakingValidatorCalls
  import opened StakingDelegationCalls
  import opened StakingFrames
  import opened StakingRuns

  // ----- Validators -----

  /** What must be the case for validator `id` to take a new status. */
  ghost predicate ValidatorMove(cfg: Settings, s: State, tx: Transaction, id: ValidationID, status: ValidatorStatus)
    requires cfg.weightToValueFactor != 0
  {
    var v := ValidatorOf(s, id);
    match (v.status, status)
    case (Unknown, Active) => tx.call.CallInitializeValidatorSet? && !s.initializedValidatorSet && id.Initial?
    case (Unknown, PendingAdded) =>
      tx.call.CallInitializeValidatorRegistration? && id == NewID(cfg, tx.call) && s.initializedValidatorSet
    case (PendingAdded, Active) => tx.call == CallCompleteValidatorRegistration(Some(RegistrationProof(id, true)))
    case (PendingAdded, Invalidated) => tx.call == CallCompleteEndValidation(Some(RegistrationProof(id, false)))
    case (PendingRemoved, Completed) => tx.call == CallCompleteEndValidation(Some(RegistrationProof(id, false)))
    case (Active, PendingRemoved) =>
      && tx.call.CallInitializeEndValidation? && tx.call.validationID == id
      && (IsPoS(s, id) ==>
            && tx.caller == s.posValidatorInfo[id].owner
            && tx.now >= v.startedAt + s.posValidatorInfo[id].minStakeDuration)
    case _ => false
  }

  /** Validator `id` takes a new status and no other validator does. */
  ghost predicate OnlyMove(s: State, s': State, id: ValidationID, status: ValidatorStatus) {
    forall k :: StatusOf(s', k) == if k == id then status else StatusOf(s, k)
  }

  /** A call on delegations changes nothing about the standing of any validator. */
  ghost predicate StatusesKept(s: State, s': State) {
    forall id :: StatusOf(s', id) == StatusOf(s, id)
  }

  lemma WeightUpdateKeepsStatuses(cfg: Settings, now: Timestamp, s: State, id: ValidationID, weight: nat)
    requires SetValidatorWeight(cfg, now, s, id, weight).Ok? && id in s.validationPeriods
    ensures StatusesKept(s, SetValidatorWeight(cfg, now, s, id, weight).value)
  {
    WeightUpdate(cfg, now, s, id, weight);
  }

  lemma FinishKeepsPeriods(cfg: Settings, now: Timestamp, s: State, k: DelegationID)
    requires k in s.delegatorStakes && FinishDelegation(cfg, now, s, k).Ok?
    ensures FinishDelegation(cfg, now, s, k).value.validationPeriods == s.validationPeriods
  {
    FinishEffect(cfg, now, s, k);
    WithdrawEffect(cfg, WithoutDelegation(s, k), FinalRecipient(s, k), k, s.delegatorStakes[k].validationID);
  }

  lemma UndelegateKeepsStatuses(cfg: Settings, now: Timestamp, s: State, k: DelegationID)
    requires k in s.delegatorStakes && s.delegatorStakes[k].validationID in s.validationPeriods
    requires Undelegate(cfg, now, s, k).Ok?
    ensures StatusesKept(s, Undelegate(cfg, now, s, k).value)
  {
    var id := s.delegatorStakes[k].validationID;
    WeightUpdateKeepsStatuses(cfg, now, s, id, ValidatorOf(s, id).weight - s.delegatorStakes[k].weight);
  }

  lemma AwardKeepsPeriods(cfg: Settings, now: Timestamp, s: State, k: DelegationID, recipient: Address)
    requires k in s.delegatorStakes && AwardDelegator(cfg, now, s, k, recipient).Ok?
    ensures AwardDelegator(cfg, now, s, k, recipient).value.0.validationPeriods == s.validationPeriods
  {
  }

  lemma DelegationEndKeepsStatuses(
    cfg: Settings, now: Timestamp, caller: Account, s: State,
    k: DelegationID, withProof: bool, proof: Option<UptimeProof>, recipient: Address, force: bool)
    requires InitializeEndDelegation(cfg, now, caller, s, k, withProof, proof, recipient, force).Ok?
    ensures StatusesKept(
              s, InitializeEndDelegation(cfg, now, caller, s, k, withProof, proof, recipient, force).value)
  {
    EndDelegationStages(cfg, now, caller, s, k, withProof, proof, recipient, force);
    var id := s.delegatorStakes[k].validationID;
    if StatusOf(s, id) == ValidatorStatus.Active {
      var s1 := MaybeUpdateUptime(s, id, withProof, proof).value;
      UndelegateKeepsStatuses(cfg, now, s1, k);
      AwardKeepsPeriods(cfg, now, Undelegate(cfg, now, s1, k).value, k, recipient);
    } else {
      AwardKeepsPeriods(cfg, now, s, k, recipient);
      FinishKeepsPeriods(cfg, now, AwardDelegator(cfg, now, s, k, recipient).value.0, k);
    }
  }

  lemma CompleteRegistrationKeepsStatuses(cfg: Settings, now: Timestamp, s: State, k: DelegationID,
                                          proof: Option<WeightProof>)
    requires CompleteDelegatorRegistration(cfg, now, s, k, proof).Ok?
    ensures StatusesKept(s, CompleteDelegatorRegistration(cfg, now, s, k, proof).value)
  {
    if StatusOf(s, s.delegatorStakes[k].validationID) == ValidatorStatus.Completed {
      FinishKeepsPeriods(cfg, now, s, k);
    }
  }

  lemma DelegationCallsKeepStatuses(cfg: Settings, s: State, tx: Transaction)
    requires ValidSettings(cfg) && Step(cfg, s, tx).Ok?
    requires || tx.call.CallInitializeDelegatorRegistration? || tx.call.CallCompleteDelegatorRegistration?
             || tx.call.CallInitializeEndDelegation? || tx.call.CallCompleteEndDelegation?
             || tx.call.CallResendUpdateDelegation?
    ensures StatusesKept(s, Step(cfg, s, tx).value)
  {
    match tx.call {
      case CallInitializeDelegatorRegistration(id, received) =>
        DelegateEffect(cfg, tx.now, tx.caller, s, id, received);
      case CallCompleteDelegatorRegistration(k, proof) =>
        CompleteRegistrationKeepsStatuses(cfg, tx.now, s, k, proof);
      case CallInitializeEndDelegation(k, withProof, proof, recipient, force) =>
        DelegationEndKeepsStatuses(cfg, tx.now, tx.caller, s, k, withProof, proof, recipient, force);
      case CallCompleteEndDelegation(k, _) =>
        FinishKeepsPeriods(cfg, tx.now, s, k);
      case CallResendUpdateDelegation(_) =>
    }
  }

  /** The settlement leaves periods and delegations as the end in the base contract left them. */
  lemma SettlementFrame(
    cfg: Settings, now: Timestamp, caller: Account, s: State,
    id: ValidationID, withProof: bool, proof: Option<UptimeProof>, recipient: Address, force: bool)
    requires InitializeEndValidation(cfg, now, caller, s, id, withProof, proof, recipient, force).Ok?
    ensures EndPeriod(cfg, now, s, id).Ok?
    ensures var s1 := EndPeriod(cfg, now, s, id).value;
            var s' := InitializeEndValidation(cfg, now, caller, s, id, withProof, proof, recipient, force).value;
            s'.validationPeriods == s1.validationPeriods && s'.delegatorStakes == s1.delegatorStakes
  {
  }

  /** Who may end a PoS period, and when. */
  lemma SettlementAuthorized(cfg: Settings, caller: Account, s: State, id: ValidationID, withProof: bool,
                             proof: Option<UptimeProof>, recipient: Address, force: bool)
    requires IsPoS(s, id) && SettlePoSPeriod(cfg, caller, s, id, withProof, proof, recipient, force).Ok?
    ensures caller == s.posValidatorInfo[id].owner
    ensures ValidatorOf(s, id).endedAt >= ValidatorOf(s, id).startedAt + s.posValidatorInfo[id].minStakeDuration
  {
  }

  lemma EndValidationMoves(
    cfg: Settings, now: Timestamp, caller: Account, s: State,
    id: ValidationID, withProof: bool, proof: Option<UptimeProof>, recipient: Address, force: bool)
    requires InitializeEndValidation(cfg, now, caller, s, id, withProof, proof, recipient, force).Ok?
    ensures StatusOf(s, id) == ValidatorStatus.Active
    ensures OnlyMove(s, InitializeEndValidation(cfg, now, caller, s, id, withProof, proof, recipient, force).value, id,
                     ValidatorStatus.PendingRemoved)
    ensures IsPoS(s, id) ==> caller == s.posValidatorInfo[id].owner
                             && now >= ValidatorOf(s, id).startedAt + s.posValidatorInfo[id].minStakeDuration
  {
    SettlementFrame(cfg, now, caller, s, id, withProof, proof, recipient, force);
    EndPeriodEffect(cfg, now, s, id);
    var s1 := EndPeriod(cfg, now, s, id).value;
    if IsPoS(s1, id) {
      SettlementAuthorized(cfg, caller, s1, id, withProof, proof, recipient, force);
    }
  }

  lemma CloseMoves(cfg: Settings, s: State, proof: Option<RegistrationProof>)
    requires CompleteEndValidation(cfg, s, proof).Ok?
    ensures proof.Some? && !proof.value.valid
    ensures var id := proof.value.validationID;
            && (StatusOf(s, id) == ValidatorStatus.PendingRemoved || StatusOf(s, id) == ValidatorStatus.PendingAdded)
            && OnlyMove(s, CompleteEndValidation(cfg, s, proof).value, id,
                        if StatusOf(s, id) == ValidatorStatus.PendingRemoved then ValidatorStatus.Completed
                        else ValidatorStatus.Invalidated)
  {
    ClosePeriodEffect(s, proof);
    CompleteEndEffect(cfg, s, proof);
  }

  lemma RegistrationMoves(cfg: Settings, s: State, tx: Transaction, id: ValidationID)
    requires cfg.weightToValueFactor != 0 && tx.call.CallInitializeValidatorRegistration? && Step(cfg, s, tx).Ok?
    requires FreshID(cfg, s, tx)
    ensures var s' := Step(cfg, s, tx).value;
            StatusOf(s', id) == StatusOf(s, id) || ValidatorMove(cfg, s, tx, id, StatusOf(s', id))
  {
    RegisterPeriodEffect(cfg, tx.now, s, tx.call.input, Worth(cfg.weightToValueFactor, tx.call.received));
  }

  lemma SetMoves(cfg: Settings, before: nat, s: State, tx: Transaction, id: ValidationID)
    requires cfg.weightToValueFactor != 0 && Invariant(cfg, before, s)
    requires tx.call.CallInitializeValidatorSet? && Step(cfg, s, tx).Ok?
    ensures var s' := Step(cfg, s, tx).value;
            StatusOf(s', id) == StatusOf(s, id) || ValidatorMove(cfg, s, tx, id, StatusOf(s', id))
  {
    EmptyBeforeInitialization(cfg, before, s);
    var data := tx.call.data;
    StoreInitialValidatorsKeeps(tx.now, s, data, |data.initialValidators|);
    var s1 := StoreInitialValidators(tx.now, s, data, |data.initialValidators|).value.0;
    assert InitialAt(data, |data.initialValidators|, s1.validationPeriods, id);
  }

  lemma ClosingStepMoves(cfg: Settings, s: State, tx: Transaction, id: ValidationID)
    requires cfg.weightToValueFactor != 0 && Step(cfg, s, tx).Ok?
    requires tx.call.CallInitializeEndValidation? || tx.call.CallCompleteEndValidation?
    ensures var s' := Step(cfg, s, tx).value;
            StatusOf(s', id) == StatusOf(s, id) || ValidatorMove(cfg, s, tx, id, StatusOf(s', id))
  {
    match tx.call {
      case CallInitializeEndValidation(ended, withProof, proof, recipient, force) =>
        EndValidationMoves(cfg, tx.now, tx.caller, s, ended, withProof, proof, recipient, force);
      case CallCompleteEndValidation(proof) =>
        CloseMoves(cfg, s, proof);
    }
  }

  lemma OtherStepMoves(cfg: Settings, s: State, tx: Transaction, id: ValidationID)
    requires cfg.weightToValueFactor != 0 && Step(cfg, s, tx).Ok?
    requires || tx.call.CallCompleteValidatorRegistration? || tx.call.CallClaimDelegationFees?
             || tx.call.CallSubmitUptimeProof? || tx.call.CallResendEndValidatorMessage?
             || tx.call.CallChangeValidatorRewardRecipient? || tx.call.CallChangeDelegatorRewardRecipient?
             || tx.call.Donate?
    ensures var s' := Step(cfg, s, tx).value;
            StatusOf(s', id) == StatusOf(s, id) || ValidatorMove(cfg, s, tx, id, StatusOf(s', id))
  {
  }

  /** Every change of a validator's status is one of the six moves, made by the one call that may make it. */
  lemma ValidatorStatusMoves(cfg: Settings, before: nat, s: State, tx: Transaction, id: ValidationID)
    requires ValidSettings(cfg) && Invariant(cfg, before, s) && FreshID(cfg, s, tx) && Step(cfg, s, tx).Ok?
    ensures var s' := Step(cfg, s, tx).value;
            StatusOf(s', id) == StatusOf(s, id) || ValidatorMove(cfg, s, tx, id, StatusOf(s', id))
  {
    var c := tx.call;
    if c.CallInitializeValidatorSet? {
      SetMoves(cfg, before, s, tx, id);
    } else if c.CallInitializeValidatorRegistration? {
      RegistrationMoves(cfg, s, tx, id);
    } else if c.CallInitializeEndValidation? || c.CallCompleteEndValidation? {
      ClosingStepMoves(cfg, s, tx, id);
    } else if c.CallInitializeDelegatorRegistration? || c.CallCompleteDelegatorRegistration?
              || c.CallInitializeEndDelegation? || c.CallCompleteEndDelegation? || c.CallResendUpdateDelegation? {
      DelegationCallsKeepStatuses(cfg, s, tx);
    } else {
      OtherStepMoves(cfg, s, tx, id);
    }
  }

  /** The statuses that a status can lead to. */
  predicate Reaches(a: ValidatorStatus, b: ValidatorStatus) {
    match a
    case Unknown => true
    case PendingAdded => b != ValidatorStatus.Unknown
    case Active => b in {ValidatorStatus.Active, ValidatorStatus.PendingRemoved, ValidatorStatus.Completed}
    case PendingRemoved => b in {ValidatorStatus.PendingRemoved, ValidatorStatus.Completed}
    case Completed => b == ValidatorStatus.Completed
    case Invalidated => b == ValidatorStatus.Invalidated
  }

  lemma MoveReaches(cfg: Settings, before: nat, s: State, tx: Transaction, id: ValidationID, from: ValidatorStatus)
    requires ValidSettings(cfg) && Invariant(cfg, before, s) && FreshID(cfg, s, tx)
    requires Reaches(from, StatusOf(s, id))
    ensures Reaches(from, StatusOf(Execute(cfg, s, tx), id))
  {
    if Step(cfg, s, tx).Ok? {
      ValidatorStatusMoves(cfg, before, s, tx, id);
    }
  }

  /** Over any run a validator's status only moves forward. */
  lemma {:induction false} StatusOnlyMovesForward(cfg: Settings, txs: seq<Transaction>, n: nat, id: ValidationID)
    requires ValidSettings(cfg) && Legal(cfg, txs) && n <= |txs|
    ensures Reaches(StatusOf(Run(cfg, txs[..n]), id), StatusOf(Run(cfg, txs), id))
  {
    if n == |txs| {
      assert txs[..n] == txs;
    } else {
      var earlier, tx := txs[..|txs| - 1], txs[|txs| - 1];
      StatusOnlyMovesForward(cfg, earlier, n, id);
      assert earlier[..n] == txs[..n];
      RunKeeps(cfg, earlier);
      MoveReaches(cfg, Latest(earlier), Run(cfg, earlier), tx, id, StatusOf(Run(cfg, txs[..n]), id));
    }
  }

  // ----- Delegations -----

  function DelegationOf(s: State, k: DelegationID): Option<Delegator> {
    if k in s.delegatorStakes then Some(s.delegatorStakes[k]) else None
  }

  /** Who may end a delegation: its owner, or the validator's owner once the validator's own minimum has passed. */
  ghost predicate MayEnd(s: State, now: Timestamp, caller: Account, d: Delegator) {
    || caller == d.owner
    || (&& IsPoS(s, d.validationID) && caller == s.posValidatorInfo[d.validationID].owner
        && now >= ValidatorOf(s, d.validationID).startedAt + s.posValidatorInfo[d.validationID].minStakeDuration)
  }

  /** A delegation is gone: a churn period after it began, and its stake was paid to its owner. */
  ghost predicate PaidOut(cfg: Settings, now: Timestamp, s: State, s': State, k: DelegationID, d: Delegator) {
    && now >= d.startedAt + cfg.churn.periodSeconds
    && s'.delegatorStakes == s.delegatorStakes - {k}
    && s'.history.unlocked == Append(s.history.unlocked, DelegatorStake(k),
                                     Payment(d.owner, TokenValue(cfg.weightToValueFactor, d.weight)))
  }

  /** The proof of a weight update with at least the given nonce. */
  ghost predicate Acknowledged(proof: Option<WeightProof>, id: ValidationID, nonce: nat) {
    proof.Some? && proof.value.validationID == id && proof.value.nonce >= nonce
  }

  /** How delegation `k` may appear, change or disappear. */
  ghost predicate DelegationMove(cfg: Settings, s: State, tx: Transaction, s': State, k: DelegationID)
    requires cfg.weightToValueFactor != 0
  {
    var c := tx.call;
    match (DelegationOf(s, k), DelegationOf(s', k))
    case (None, Some(d)) =>
      && c.CallInitializeDelegatorRegistration? && c.validationID == k.validationID
      && StatusOf(s, k.validationID) == ValidatorStatus.Active && IsPoS(s, k.validationID)
      && k.nonce == ValidatorOf(s, k.validationID).messageNonce + 1
      && d == Delegator(DelegatorStatus.PendingAdded, tx.caller, k.validationID,
                        Worth(cfg.weightToValueFactor, c.received), 0, k.nonce, 0)
    case (Some(d), None) =>
      var completed := StatusOf(s, d.validationID) == ValidatorStatus.Completed;
      && PaidOut(cfg, tx.now, s, s', k, d)
      && match d.status {
        case PendingAdded => c.CallCompleteDelegatorRegistration? && c.delegationID == k && completed
        case Active =>
          c.CallInitializeEndDelegation? && c.delegationID == k && completed && MayEnd(s, tx.now, tx.caller, d)
        case PendingRemoved =>
          && c.CallCompleteEndDelegation? && c.delegationID == k
          && (completed || Acknowledged(c.weightProof, d.validationID, d.endingNonce))
        case Unknown => false
      }
    case (Some(d), Some(d')) =>
      var v := ValidatorOf(s, d.validationID);
      (match d.status
       case PendingAdded =>
         && c.CallCompleteDelegatorRegistration? && c.delegationID == k
         && v.status != ValidatorStatus.Completed
         && Acknowledged(c.weightProof, d.validationID, d.startingNonce)
         && c.weightProof.value.nonce <= v.messageNonce
         && d' == d.(status := DelegatorStatus.Active, startedAt := tx.now)
       case Active =>
         && c.CallInitializeEndDelegation? && c.delegationID == k
         && v.status == ValidatorStatus.Active
         && MayEnd(s, tx.now, tx.caller, d)
         && tx.now >= d.startedAt + cfg.minimumStakeDuration
         && d' == d.(status := DelegatorStatus.PendingRemoved, endingNonce := v.messageNonce + 1)
       case _ => false)
    case (None, None) => false
  }

  lemma FinishPaysOut(cfg: Settings, now: Timestamp, s: State, k: DelegationID)
    requires k in s.delegatorStakes && FinishDelegation(cfg, now, s, k).Ok?
    ensures PaidOut(cfg, now, s, FinishDelegation(cfg, now, s, k).value, k, s.delegatorStakes[k])
  {
    FinishEffect(cfg, now, s, k);
    WithdrawEffect(cfg, WithoutDelegation(s, k), FinalRecipient(s, k), k, s.delegatorStakes[k].validationID);
  }

  lemma AuthorizedMayEnd(now: Timestamp, caller: Account, s: State, d: Delegator)
    requires AuthorizeEndDelegation(now, caller, s, d).Ok?
    ensures MayEnd(s, now, caller, d)
  {
  }

  lemma UndelegateChanges(cfg: Settings, now: Timestamp, s: State, k: DelegationID)
    requires k in s.delegatorStakes && s.delegatorStakes[k].validationID in s.validationPeriods
    requires Undelegate(cfg, now, s, k).Ok?
    ensures Undelegate(cfg, now, s, k).value.delegatorStakes
            == s.delegatorStakes[k := s.delegatorStakes[k].(
                   status := DelegatorStatus.PendingRemoved,
                   endingNonce := ValidatorOf(s, s.delegatorStakes[k].validationID).messageNonce + 1)]
  {
    var id := s.delegatorStakes[k].validationID;
    WeightUpdate(cfg, now, s, id, ValidatorOf(s, id).weight - s.delegatorStakes[k].weight);
  }

  lemma EndWhileActiveChanges(
    cfg: Settings, now: Timestamp, s: State,
    k: DelegationID, withProof: bool, proof: Option<UptimeProof>, recipient: Address, force: bool)
    requires k in s.delegatorStakes && s.delegatorStakes[k].validationID in s.validationPeriods
    requires EndWhileActive(cfg, now, s, k, withProof, proof, recipient, force).Ok?
    ensures now >= s.delegatorStakes[k].startedAt + cfg.minimumStakeDuration
    ensures EndWhileActive(cfg, now, s, k, withProof, proof, recipient, force).value.delegatorStakes
            == s.delegatorStakes[k := s.delegatorStakes[k].(
                   status := DelegatorStatus.PendingRemoved,
                   endingNonce := ValidatorOf(s, s.delegatorStakes[k].validationID).messageNonce + 1)]
  {
    UndelegateChanges(cfg, now, MaybeUpdateUptime(s, s.delegatorStakes[k].validationID, withProof, proof).value, k);
  }

  lemma AwardThenFinish(cfg: Settings, now: Timestamp, s: State, k: DelegationID, recipient: Address)
    requires k in s.delegatorStakes && AwardDelegator(cfg, now, s, k, recipient).Ok?
    requires FinishDelegation(cfg, now, AwardDelegator(cfg, now, s, k, recipient).value.0, k).Ok?
    ensures PaidOut(cfg, now, s, FinishDelegation(cfg, now, AwardDelegator(cfg, now, s, k, recipient).value.0, k).value,
                    k, s.delegatorStakes[k])
  {
    AwardEffect(cfg, now, s, k, recipient);
    FinishPaysOut(cfg, now, AwardDelegator(cfg, now, s, k, recipient).value.0, k);
  }

  lemma EndDelegationMoves(
    cfg: Settings, now: Timestamp, caller: Account, s: State,
    k: DelegationID, withProof: bool, proof: Option<UptimeProof>, recipient: Address, force: bool)
    requires InitializeEndDelegation(cfg, now, caller, s, k, withProof, proof, recipient, force).Ok?
    ensures k in s.delegatorStakes && s.delegatorStakes[k].status == DelegatorStatus.Active
    ensures var s' := InitializeEndDelegation(cfg, now, caller, s, k, withProof, proof, recipient, force).value;
            var d := s.delegatorStakes[k];
            && MayEnd(s, now, caller, d)
            && if StatusOf(s, d.validationID) == ValidatorStatus.Active then
                 && now >= d.startedAt + cfg.minimumStakeDuration
                 && s'.delegatorStakes == s.delegatorStakes[
                      k := d.(status := DelegatorStatus.PendingRemoved,
                              endingNonce := ValidatorOf(s, d.validationID).messageNonce + 1)]
               else StatusOf(s, d.validationID) == ValidatorStatus.Completed && PaidOut(cfg, now, s, s', k, d)
  {
    var d := s.delegatorStakes[k];
    AuthorizedMayEnd(now, caller, s, d);
    if StatusOf(s, d.validationID) == ValidatorStatus.Active {
      EndWhileActiveChanges(cfg, now, s, k, withProof, proof, recipient, force);
    } else {
      AwardThenFinish(cfg, now, s, k, recipient);
    }
  }

  lemma EndValidationKeepsDelegations(
    cfg: Settings, now: Timestamp, caller: Account, s: State,
    id: ValidationID, withProof: bool, proof: Option<UptimeProof>, recipient: Address, force: bool)
    requires InitializeEndValidation(cfg, now, caller, s, id, withProof, proof, recipient, force).Ok?
    ensures InitializeEndValidation(cfg, now, caller, s, id, withProof, proof, recipient, force).value.delegatorStakes
            == s.delegatorStakes
  {
    SettlementFrame(cfg, now, caller, s, id, withProof, proof, recipient, force);
    EndPeriodEffect(cfg, now, s, id);
  }

  lemma CompletionMoves(cfg: Settings, s: State, tx: Transaction, k: DelegationID)
    requires cfg.weightToValueFactor != 0 && Step(cfg, s, tx).Ok?
    requires tx.call.CallCompleteDelegatorRegistration? || tx.call.CallCompleteEndDelegation?
    ensures var s' := Step(cfg, s, tx).value;
            DelegationOf(s', k) == DelegationOf(s, k) || DelegationMove(cfg, s, tx, s', k)
  {
    var ended := tx.call.delegationID;
    if StatusOf(s, s.delegatorStakes[ended].validationID) == ValidatorStatus.Completed
       || tx.call.CallCompleteEndDelegation? {
      FinishPaysOut(cfg, tx.now, s, ended);
    }
  }

  lemma StartMoves(cfg: Settings, before: nat, s: State, tx: Transaction, k: DelegationID)
    requires ValidSettings(cfg) && Invariant(cfg, before, s) && Step(cfg, s, tx).Ok?
    requires tx.call.CallInitializeDelegatorRegistration?
    ensures var s' := Step(cfg, s, tx).value;
            DelegationOf(s', k) == DelegationOf(s, k) || DelegationMove(cfg, s, tx, s', k)
  {
    var id := tx.call.validationID;
    DelegateEffect(cfg, tx.now, tx.caller, s, id, tx.call.received);
    NewDelegationID(s.validationPeriods, s.posValidatorInfo.Keys, s.delegatorStakes,
                    DelegationID(id, s.validationPeriods[id].messageNonce + 1));
  }

  lemma EndMoves(cfg: Settings, s: State, tx: Transaction, k: DelegationID)
    requires cfg.weightToValueFactor != 0 && Step(cfg, s, tx).Ok? && tx.call.CallInitializeEndDelegation?
    ensures var s' := Step(cfg, s, tx).value;
            DelegationOf(s', k) == DelegationOf(s, k) || DelegationMove(cfg, s, tx, s', k)
  {
    var c := tx.call;
    EndDelegationMoves(cfg, tx.now, tx.caller, s, c.delegationID, c.includeUptimeProof, c.uptimeProof, c.recipient,
                       c.force);
  }

  /** Every change of a delegation is one of the moves above; any other call leaves it exactly as it was. */
  lemma DelegationMoves(cfg: Settings, before: nat, s: State, tx: Transaction, k: DelegationID)
    requires ValidSettings(cfg) && Invariant(cfg, before, s) && Step(cfg, s, tx).Ok?
    ensures var s' := Step(cfg, s, tx).value;
            DelegationOf(s', k) == DelegationOf(s, k) || DelegationMove(cfg, s, tx, s', k)
  {
    var c := tx.call;
    if c.CallInitializeDelegatorRegistration? {
      StartMoves(cfg, before, s, tx, k);
    } else if c.CallInitializeEndDelegation? {
      EndMoves(cfg, s, tx, k);
    } else if c.CallCompleteDelegatorRegistration? || c.CallCompleteEndDelegation? {
      CompletionMoves(cfg, s, tx, k);
    } else if c.CallInitializeEndValidation? {
      EndValidationKeepsDelegations(cfg, tx.now, tx.caller, s, c.validationID, c.includeUptimeProof, c.uptimeProof,
                                    c.recipient, c.force);
    } else if Bookkeeping(c) {
      BookkeepingFrame(cfg, s, tx);
    } else {
      PeriodFrame(cfg, s, tx);
    }
  }
}
