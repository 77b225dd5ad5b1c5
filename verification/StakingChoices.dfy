/**
 Who is paid the rewards. A recipient is chosen by calls; over every run, what is minted goes to the recipient that was
 chosen last, or to the owner.
 */
module StakingChoices {
  import opened Wrappers
  import opened StakingTypes
  import opened StakingSpec
  import opened StakingInvariants
  import opened StakingDelegationCalls
  import opened StakingRuns
  import opened StakingLifecycle
  import opened StakingInitialSet
  import opened StakingAnswers
  import opened StakingDelegationAnswers

  // ----- Choices -----

  /** The recipient of validator `id`'s rewards that a successful call chooses, if it chooses one. */
  function Choice(cfg: Settings, s: State, tx: Transaction, id: ValidationID): Option<Address>
    requires cfg.weightToValueFactor != 0
  {
    match tx.call
    case CallInitializeValidatorRegistration(_, _, _, _, _) => if NewID(cfg, tx.call) == id then Some(tx.caller) else None
    case CallInitializeEndValidation(ended, _, _, recipient, _) =>
      if ended == id && IsPoS(s, id) then Some(if recipient == 0 then PoSOwner(s, id) else recipient) else None
    case CallChangeValidatorRewardRecipient(changed, recipient) => if changed == id then Some(recipient) else None
    case _ => None
  }

  /** A delegation has something to earn when it ends. */
  predicate Earns(now: nat, s: State, d: Delegator) {
    (if StatusOf(s, d.validationID) == ValidatorStatus.Active then now else ValidatorOf(s, d.validationID).endedAt)
    > d.startedAt
  }

  /** The recipient of delegation `k`'s reward that a successful call chooses; a new delegation has none yet. */
  function DelegatorChoice(s: State, tx: Transaction, k: DelegationID): Option<Address> {
    match tx.call
    case CallInitializeDelegatorRegistration(id, _) =>
      if k == DelegationID(id, ValidatorOf(s, id).messageNonce + 1) then Some(0) else None
    case CallInitializeEndDelegation(ended, _, _, recipient, _) =>
      if ended == k && k in s.delegatorStakes && Earns(tx.now, s, s.delegatorStakes[k]) then
        Some(if recipient == 0 then s.delegatorStakes[k].owner else recipient)
      else None
    case CallChangeDelegatorRewardRecipient(changed, recipient) => if changed == k then Some(recipient) else None
    case _ => None
  }

  /** The choice last made in a run. */
  function Chosen(cfg: Settings, txs: seq<Transaction>, id: ValidationID): Address
    requires cfg.weightToValueFactor != 0
  {
    if txs == [] then 0
    else
      var earlier, tx := txs[..|txs| - 1], txs[|txs| - 1];
      var s := Run(cfg, earlier);
      if Step(cfg, s, tx).Ok? && Choice(cfg, s, tx, id).Some? then Choice(cfg, s, tx, id).value
      else Chosen(cfg, earlier, id)
  }

  function ChosenByDelegation(cfg: Settings, txs: seq<Transaction>, k: DelegationID): Address
    requires cfg.weightToValueFactor != 0
  {
    if txs == [] then 0
    else
      var earlier, tx := txs[..|txs| - 1], txs[|txs| - 1];
      var s := Run(cfg, earlier);
      if Step(cfg, s, tx).Ok? && DelegatorChoice(s, tx, k).Some? then DelegatorChoice(s, tx, k).value
      else ChosenByDelegation(cfg, earlier, k)
  }

  /** Only the owner of a validator chooses who is paid its rewards. */
  lemma OwnerChooses(cfg: Settings, s: State, tx: Transaction, id: ValidationID)
    requires cfg.weightToValueFactor != 0 && Step(cfg, s, tx).Ok? && Choice(cfg, s, tx, id).Some?
    ensures IsPoS(Step(cfg, s, tx).value, id) && Step(cfg, s, tx).value.posValidatorInfo[id].owner == tx.caller
    ensures Choice(cfg, s, tx, id).value != 0
  {
    match tx.call {
      case CallInitializeValidatorRegistration(_, _, _, _, _) => RegistrationStores(cfg, s, tx);
      case CallInitializeEndValidation(_, _, _, _, _) =>
        EndValidationSucceedsIff(cfg, s, tx);
        EndValidationChanges(cfg, s, tx);
      case CallChangeValidatorRewardRecipient(_, _) => ChooseRecipientAnswers(cfg, s, tx);
    }
  }

  /** Who is paid a delegation's reward is chosen by its owner, or by its validator's owner in ending it. */
  lemma DelegatorChooses(cfg: Settings, before: nat, s: State, tx: Transaction, k: DelegationID)
    requires cfg.weightToValueFactor != 0 && Invariant(cfg, before, s) && Step(cfg, s, tx).Ok?
    requires DelegatorChoice(s, tx, k).Some? && DelegatorChoice(s, tx, k).value != 0
    ensures k in s.delegatorStakes
    ensures var d := s.delegatorStakes[k];
            || tx.caller == d.owner
            || (&& tx.call.CallInitializeEndDelegation? && tx.call.delegationID == k
                && IsPoS(s, d.validationID) && tx.caller == s.posValidatorInfo[d.validationID].owner)
  {
    match tx.call {
      case CallInitializeEndDelegation(_, _, _, _, _) => EndDelegationAnswers(cfg, before, s, tx);
      case CallChangeDelegatorRewardRecipient(_, _) => ChooseDelegatorRecipientAnswers(cfg, s, tx);
    }
  }

  // ----- What a step does to recipients and to what is minted -----

  /** Recipients and minted rewards are as they were. */
  ghost predicate PaymentsStay(s: State, s': State) {
    && s'.rewardRecipients == s.rewardRecipients
    && s'.delegatorRewardRecipients == s.delegatorRewardRecipients
    && s'.history.minted == s.history.minted
  }

  /** Recipients are kept only for delegations that there are. */
  ghost predicate RecipientsOfDelegations(s: State) {
    forall k :: k in s.delegatorRewardRecipients ==> k in s.delegatorStakes
  }

  /** What a step does to the recipient of delegation `k`. */
  ghost predicate DelegatorRecipientMove(s: State, tx: Transaction, s': State, k: DelegationID) {
    && (k in s'.delegatorRewardRecipients ==> k in s'.delegatorStakes)
    && (k in s'.delegatorStakes ==>
          var kept := GetOr(s'.delegatorRewardRecipients, k, 0);
          match DelegatorChoice(s, tx, k)
          case Some(chosen) => kept == chosen
          case None => k in s.delegatorStakes && kept == GetOr(s.delegatorRewardRecipients, k, 0))
  }

  /** What a step does to the recipient of validator `id`. */
  ghost predicate RecipientMove(cfg: Settings, s: State, tx: Transaction, s': State, id: ValidationID)
    requires cfg.weightToValueFactor != 0
  {
    match Choice(cfg, s, tx, id)
    case Some(chosen) => id in s'.rewardRecipients && s'.rewardRecipients[id] == chosen
    case None =>
      Live(StatusOf(s', id)) ==>
        && (id in s'.rewardRecipients <==> id in s.rewardRecipients)
        && GetOr(s'.rewardRecipients, id, 0) == GetOr(s.rewardRecipients, id, 0)
  }

  /** Who a mint goes to, and how much it is. */
  ghost predicate PaidRightly(s: State, tx: Transaction, p: Payment) {
    match tx.call
    case CallClaimDelegationFees(id) =>
      && IsPoS(s, id) && p.to == tx.caller == s.posValidatorInfo[id].owner
      && p.value == GetOr(s.redeemableValidatorRewards, id, 0)
    case CallCompleteEndValidation(proof) =>
      && proof.Some? && IsPoS(s, proof.value.validationID)
      && var id := proof.value.validationID;
      var chosen := GetOr(s.rewardRecipients, id, 0);
      && p.to == (if chosen == 0 then s.posValidatorInfo[id].owner else chosen)
      && p.value == GetOr(s.redeemableValidatorRewards, id, 0)
    case CallCompleteDelegatorRegistration(k, _) => DelegatorPaid(s, k, GetOr(s.redeemableDelegatorRewards, k, 0), p)
    case CallCompleteEndDelegation(k, _) => DelegatorPaid(s, k, GetOr(s.redeemableDelegatorRewards, k, 0), p)
    case CallInitializeEndDelegation(k, _, _, recipient, _) =>
      k in s.delegatorStakes && p.to == if recipient == 0 then s.delegatorStakes[k].owner else recipient
    case _ => false
  }

  ghost predicate DelegatorPaid(s: State, k: DelegationID, rewards: nat, p: Payment) {
    && k in s.delegatorStakes && p.to == PaidFor(s, k)
    && p.value == rewards - FeeOn(s, s.delegatorStakes[k].validationID, rewards)
  }

  ghost predicate MintMove(s: State, tx: Transaction, s': State) {
    || s'.history.minted == s.history.minted
    || (&& |s'.history.minted| == |s.history.minted| + 1
        && s'.history.minted[..|s.history.minted|] == s.history.minted
        && PaidRightly(s, tx, s'.history.minted[|s.history.minted|]))
  }

  ghost predicate RecipientMoves(cfg: Settings, s: State, tx: Transaction, s': State)
    requires cfg.weightToValueFactor != 0
  {
    forall id :: RecipientMove(cfg, s, tx, s', id)
  }

  ghost predicate DelegatorRecipientMoves(s: State, tx: Transaction, s': State) {
    forall k :: DelegatorRecipientMove(s, tx, s', k)
  }

  /** Everything that a step does to payments. */
  ghost predicate PaymentMove(cfg: Settings, s: State, tx: Transaction, s': State)
    requires cfg.weightToValueFactor != 0
  {
    MintMove(s, tx, s') && RecipientMoves(cfg, s, tx, s') && DelegatorRecipientMoves(s, tx, s')
  }

  /** The call chooses nobody for any validator other than `id`. */
  ghost predicate ChoosesOnlyFor(cfg: Settings, s: State, tx: Transaction, id: Option<ValidationID>)
    requires cfg.weightToValueFactor != 0
  {
    forall other :: id != Some(other) ==> Choice(cfg, s, tx, other).None?
  }

  ghost predicate DelegatorChoosesOnlyFor(s: State, tx: Transaction, k: Option<DelegationID>) {
    forall other :: k != Some(other) ==> DelegatorChoice(s, tx, other).None?
  }

  lemma SameRecipients(cfg: Settings, s: State, tx: Transaction, s': State)
    requires cfg.weightToValueFactor != 0 && ChoosesOnlyFor(cfg, s, tx, None)
    requires s'.rewardRecipients == s.rewardRecipients
    ensures RecipientMoves(cfg, s, tx, s')
  {
  }

  lemma RecipientSet(cfg: Settings, s: State, tx: Transaction, s': State, id: ValidationID, to: Address)
    requires cfg.weightToValueFactor != 0 && ChoosesOnlyFor(cfg, s, tx, Some(id)) && Choice(cfg, s, tx, id) == Some(to)
    requires s'.rewardRecipients == s.rewardRecipients[id := to]
    ensures RecipientMoves(cfg, s, tx, s')
  {
  }

  lemma RecipientDeleted(cfg: Settings, s: State, tx: Transaction, s': State, id: ValidationID)
    requires cfg.weightToValueFactor != 0 && ChoosesOnlyFor(cfg, s, tx, None)
    requires s'.rewardRecipients == s.rewardRecipients - {id} && !Live(StatusOf(s', id))
    ensures RecipientMoves(cfg, s, tx, s')
  {
  }

  lemma SameDelegatorRecipients(s: State, tx: Transaction, s': State)
    requires RecipientsOfDelegations(s) && DelegatorChoosesOnlyFor(s, tx, None)
    requires s'.delegatorRewardRecipients == s.delegatorRewardRecipients
    requires s'.delegatorStakes.Keys == s.delegatorStakes.Keys
    ensures DelegatorRecipientMoves(s, tx, s')
  {
    forall k ensures DelegatorRecipientMove(s, tx, s', k) {
      assert k in s'.delegatorStakes <==> k in s'.delegatorStakes.Keys;
    }
  }

  lemma DelegatorRecipientSet(s: State, tx: Transaction, s': State, k: DelegationID, to: Address)
    requires RecipientsOfDelegations(s) && DelegatorChoosesOnlyFor(s, tx, Some(k)) && DelegatorChoice(s, tx, k) == Some(to)
    requires s'.delegatorRewardRecipients == s.delegatorRewardRecipients[k := to] && k in s.delegatorStakes
    requires s'.delegatorStakes.Keys == s.delegatorStakes.Keys
    ensures DelegatorRecipientMoves(s, tx, s')
  {
    forall i ensures DelegatorRecipientMove(s, tx, s', i) {
      assert i in s'.delegatorStakes <==> i in s'.delegatorStakes.Keys;
    }
  }

  lemma DelegationAdded(s: State, tx: Transaction, s': State, k: DelegationID)
    requires RecipientsOfDelegations(s) && DelegatorChoosesOnlyFor(s, tx, Some(k)) && DelegatorChoice(s, tx, k) == Some(0)
    requires s'.delegatorRewardRecipients == s.delegatorRewardRecipients && k !in s.delegatorStakes
    requires s'.delegatorStakes.Keys == s.delegatorStakes.Keys + {k}
    ensures DelegatorRecipientMoves(s, tx, s')
  {
    forall i ensures DelegatorRecipientMove(s, tx, s', i) {
      assert i in s'.delegatorStakes <==> i in s'.delegatorStakes.Keys;
    }
  }

  lemma DelegationGone(s: State, tx: Transaction, s': State, k: DelegationID)
    requires RecipientsOfDelegations(s) && DelegatorChoosesOnlyFor(s, tx, Some(k))
    requires s'.delegatorRewardRecipients == s.delegatorRewardRecipients - {k}
    requires s'.delegatorStakes.Keys == s.delegatorStakes.Keys - {k}
    ensures DelegatorRecipientMoves(s, tx, s')
  {
    forall i ensures DelegatorRecipientMove(s, tx, s', i) {
      assert i in s'.delegatorStakes <==> i in s'.delegatorStakes.Keys;
    }
  }

  lemma StaysMove(cfg: Settings, s: State, tx: Transaction, s': State)
    requires cfg.weightToValueFactor != 0 && PaymentsStay(s, s') && RecipientsOfDelegations(s)
    requires s'.delegatorStakes.Keys == s.delegatorStakes.Keys
    requires ChoosesOnlyFor(cfg, s, tx, None) && DelegatorChoosesOnlyFor(s, tx, None)
    ensures PaymentMove(cfg, s, tx, s')
  {
    SameRecipients(cfg, s, tx, s');
    SameDelegatorRecipients(s, tx, s');
  }

  lemma ValidatorCallMoves(cfg: Settings, before: nat, s: State, tx: Transaction)
    requires ValidSettings(cfg) && Invariant(cfg, before, s) && RecipientsOfDelegations(s) && Step(cfg, s, tx).Ok?
    requires || tx.call.CallInitializeValidatorSet? || tx.call.CallCompleteValidatorRegistration?
             || tx.call.CallSubmitUptimeProof?
    ensures PaymentMove(cfg, s, tx, Step(cfg, s, tx).value)
  {
    match tx.call {
      case CallInitializeValidatorSet(_, _) => InitialSetAnswers(cfg, before, s, tx);
      case CallCompleteValidatorRegistration(_) => CompletionAnswers(cfg, before, s, tx);
      case CallSubmitUptimeProof(_, _) => SubmitUptimeAnswers(cfg, s, tx);
    }
    StaysMove(cfg, s, tx, Step(cfg, s, tx).value);
  }

  lemma ResendMoves(cfg: Settings, before: nat, s: State, tx: Transaction)
    requires ValidSettings(cfg) && Invariant(cfg, before, s) && RecipientsOfDelegations(s) && Step(cfg, s, tx).Ok?
    requires tx.call.CallResendEndValidatorMessage? || tx.call.CallResendUpdateDelegation? || tx.call.Donate?
    ensures PaymentMove(cfg, s, tx, Step(cfg, s, tx).value)
  {
    match tx.call {
      case CallResendEndValidatorMessage(_) => ResendEndAnswers(cfg, s, tx);
      case CallResendUpdateDelegation(_) => ResendAnswers(cfg, before, s, tx);
      case Donate(_) =>
    }
    StaysMove(cfg, s, tx, Step(cfg, s, tx).value);
  }

  lemma RegistrationPayments(cfg: Settings, s: State, tx: Transaction)
    requires ValidSettings(cfg) && RecipientsOfDelegations(s) && Step(cfg, s, tx).Ok?
    requires tx.call.CallInitializeValidatorRegistration?
    ensures PaymentMove(cfg, s, tx, Step(cfg, s, tx).value)
  {
    RegistrationStores(cfg, s, tx);
    RecipientSet(cfg, s, tx, Step(cfg, s, tx).value, NewID(cfg, tx.call), tx.caller);
    SameDelegatorRecipients(s, tx, Step(cfg, s, tx).value);
  }

  lemma ChoosePayments(cfg: Settings, s: State, tx: Transaction)
    requires ValidSettings(cfg) && RecipientsOfDelegations(s) && Step(cfg, s, tx).Ok?
    requires tx.call.CallChangeValidatorRewardRecipient? || tx.call.CallChangeDelegatorRewardRecipient?
    ensures PaymentMove(cfg, s, tx, Step(cfg, s, tx).value)
  {
    var s' := Step(cfg, s, tx).value;
    match tx.call {
      case CallChangeValidatorRewardRecipient(id, to) =>
        ChooseRecipientAnswers(cfg, s, tx);
        RecipientSet(cfg, s, tx, s', id, to);
        SameDelegatorRecipients(s, tx, s');
      case CallChangeDelegatorRewardRecipient(k, to) =>
        ChooseDelegatorRecipientAnswers(cfg, s, tx);
        SameRecipients(cfg, s, tx, s');
        DelegatorRecipientSet(s, tx, s', k, to);
    }
  }

  lemma EndedMoves(cfg: Settings, s: State, tx: Transaction, s': State, id: ValidationID, recipient: Address)
    requires cfg.weightToValueFactor != 0 && RecipientsOfDelegations(s) && tx.call.CallInitializeEndValidation?
    requires id == tx.call.validationID && recipient == tx.call.recipient
    requires s'.delegatorStakes == s.delegatorStakes && s'.history.minted == s.history.minted
    requires s'.delegatorRewardRecipients == s.delegatorRewardRecipients
    requires s'.rewardRecipients ==
             if IsPoS(s, id) then s.rewardRecipients[id := if recipient == 0 then PoSOwner(s, id) else recipient]
             else s.rewardRecipients
    ensures PaymentMove(cfg, s, tx, s')
  {
    if IsPoS(s, id) {
      RecipientSet(cfg, s, tx, s', id, if recipient == 0 then PoSOwner(s, id) else recipient);
    } else {
      SameRecipients(cfg, s, tx, s');
    }
    SameDelegatorRecipients(s, tx, s');
  }

  lemma EndValidationPayments(cfg: Settings, s: State, tx: Transaction)
    requires ValidSettings(cfg) && RecipientsOfDelegations(s) && Step(cfg, s, tx).Ok?
    requires tx.call.CallInitializeEndValidation?
    ensures PaymentMove(cfg, s, tx, Step(cfg, s, tx).value)
  {
    EndValidationChanges(cfg, s, tx);
    EndedMoves(cfg, s, tx, Step(cfg, s, tx).value, tx.call.validationID, tx.call.recipient);
  }

  lemma ClosedMoves(cfg: Settings, s: State, tx: Transaction, s': State, id: ValidationID)
    requires cfg.weightToValueFactor != 0 && RecipientsOfDelegations(s) && Closed(cfg, s, s', id)
    requires tx.call.CallCompleteEndValidation? && tx.call.registrationProof.Some?
    requires tx.call.registrationProof.value.validationID == id
    ensures PaymentMove(cfg, s, tx, s')
  {
    if IsPoS(s, id) {
      RecipientDeleted(cfg, s, tx, s', id);
    } else {
      SameRecipients(cfg, s, tx, s');
    }
    SameDelegatorRecipients(s, tx, s');
  }

  lemma ClosePayments(cfg: Settings, before: nat, s: State, tx: Transaction)
    requires ValidSettings(cfg) && Invariant(cfg, before, s) && RecipientsOfDelegations(s) && Step(cfg, s, tx).Ok?
    requires tx.call.CallCompleteEndValidation?
    ensures PaymentMove(cfg, s, tx, Step(cfg, s, tx).value)
  {
    CloseAnswers(cfg, before, s, tx);
    ClosedMoves(cfg, s, tx, Step(cfg, s, tx).value, tx.call.registrationProof.value.validationID);
  }

  lemma ClaimPayments(cfg: Settings, s: State, tx: Transaction)
    requires ValidSettings(cfg) && RecipientsOfDelegations(s) && Step(cfg, s, tx).Ok?
    requires tx.call.CallClaimDelegationFees?
    ensures PaymentMove(cfg, s, tx, Step(cfg, s, tx).value)
  {
    ClaimAnswers(cfg, s, tx);
    SameRecipients(cfg, s, tx, Step(cfg, s, tx).value);
    SameDelegatorRecipients(s, tx, Step(cfg, s, tx).value);
  }

  lemma StoredMoves(cfg: Settings, s: State, tx: Transaction, s': State, k: DelegationID)
    requires cfg.weightToValueFactor != 0 && RecipientsOfDelegations(s) && tx.call.CallInitializeDelegatorRegistration?
    requires DelegationStored(cfg, tx.now, tx.caller, s, s', tx.call.validationID, tx.call.received)
    requires k == DelegationID(tx.call.validationID, ValidatorOf(s, tx.call.validationID).messageNonce + 1)
    requires k !in s.delegatorStakes
    ensures PaymentMove(cfg, s, tx, s')
  {
    SameRecipients(cfg, s, tx, s');
    DelegationAdded(s, tx, s', k);
  }

  lemma NewIsFresh(cfg: Settings, before: nat, s: State, id: ValidationID)
    requires cfg.weightToValueFactor != 0 && Invariant(cfg, before, s) && id in s.validationPeriods
    ensures DelegationID(id, ValidatorOf(s, id).messageNonce + 1) !in s.delegatorStakes
  {
    NewDelegationID(s.validationPeriods, s.posValidatorInfo.Keys, s.delegatorStakes,
                    DelegationID(id, s.validationPeriods[id].messageNonce + 1));
  }

  lemma DelegateMoves(cfg: Settings, s: State, tx: Transaction)
    requires ValidSettings(cfg) && RecipientsOfDelegations(s) && Step(cfg, s, tx).Ok?
    requires tx.call.CallInitializeDelegatorRegistration?
    requires tx.call.validationID in s.validationPeriods ==>
               DelegationID(tx.call.validationID, ValidatorOf(s, tx.call.validationID).messageNonce + 1)
                 !in s.delegatorStakes
    ensures PaymentMove(cfg, s, tx, Step(cfg, s, tx).value)
  {
    var id := tx.call.validationID;
    DelegateStores(cfg, s, tx);
    StoredMoves(cfg, s, tx, Step(cfg, s, tx).value, DelegationID(id, ValidatorOf(s, id).messageNonce + 1));
  }

  lemma FinishMoves(cfg: Settings, s: State, tx: Transaction, s': State, k: DelegationID)
    requires cfg.weightToValueFactor != 0 && RecipientsOfDelegations(s)
    requires k in s.delegatorStakes && Finished(cfg, s, s', k)
    requires tx.call.CallCompleteDelegatorRegistration? || tx.call.CallCompleteEndDelegation?
    requires tx.call.delegationID == k
    ensures PaymentMove(cfg, s, tx, s')
  {
    SameRecipients(cfg, s, tx, s');
    DelegationGone(s, tx, s', k);
  }

  lemma CompletionPayments(cfg: Settings, before: nat, s: State, tx: Transaction)
    requires ValidSettings(cfg) && Invariant(cfg, before, s) && RecipientsOfDelegations(s) && Step(cfg, s, tx).Ok?
    requires tx.call.CallCompleteDelegatorRegistration? || tx.call.CallCompleteEndDelegation?
    ensures PaymentMove(cfg, s, tx, Step(cfg, s, tx).value)
  {
    var k, s' := tx.call.delegationID, Step(cfg, s, tx).value;
    if tx.call.CallCompleteEndDelegation? {
      CompleteEndAnswers(cfg, before, s, tx);
      FinishMoves(cfg, s, tx, s', k);
    } else {
      CompleteDelegationAnswers(cfg, before, s, tx);
      if StatusOf(s, s.delegatorStakes[k].validationID) == ValidatorStatus.Completed {
        FinishMoves(cfg, s, tx, s', k);
      } else {
        StaysMove(cfg, s, tx, s');
      }
    }
  }

  /** What the end of a delegation does to payments while its validator is active. */
  lemma RewardedShape(now: nat, s: State, u: State, s': State, k: DelegationID, uptime: nat, reward: nat,
                      recipient: Address)
    requires k in s.delegatorStakes && IsPoS(s, s.delegatorStakes[k].validationID)
    requires s.delegatorStakes[k].validationID in s.validationPeriods
    requires Undelegated(now, WithUptime(s, s.delegatorStakes[k].validationID, uptime), u, k)
    requires Rewarded(u, s', k, now, reward, recipient)
    ensures s'.rewardRecipients == s.rewardRecipients && s'.history.minted == s.history.minted
    ensures s'.delegatorStakes.Keys == s.delegatorStakes.Keys
    ensures s'.delegatorRewardRecipients ==
            if now <= s.delegatorStakes[k].startedAt then s.delegatorRewardRecipients
            else s.delegatorRewardRecipients[k := if recipient == 0 then s.delegatorStakes[k].owner else recipient]
  {
  }

  lemma RewardedMoves(cfg: Settings, s: State, tx: Transaction, s': State, k: DelegationID)
    requires cfg.weightToValueFactor != 0 && RecipientsOfDelegations(s) && tx.call.CallInitializeEndDelegation?
    requires k == tx.call.delegationID && k in s.delegatorStakes
    requires StatusOf(s, s.delegatorStakes[k].validationID) == ValidatorStatus.Active
    requires s'.rewardRecipients == s.rewardRecipients && s'.history.minted == s.history.minted
    requires s'.delegatorStakes.Keys == s.delegatorStakes.Keys
    requires s'.delegatorRewardRecipients ==
             if tx.now <= s.delegatorStakes[k].startedAt then s.delegatorRewardRecipients
             else s.delegatorRewardRecipients[
               k := if tx.call.recipient == 0 then s.delegatorStakes[k].owner else tx.call.recipient]
    ensures PaymentMove(cfg, s, tx, s')
  {
    SameRecipients(cfg, s, tx, s');
    if tx.now <= s.delegatorStakes[k].startedAt {
      SameDelegatorRecipients(s, tx, s');
    } else {
      DelegatorRecipientSet(s, tx, s', k,
                            if tx.call.recipient == 0 then s.delegatorStakes[k].owner else tx.call.recipient);
    }
  }

  lemma EndActivePayments(cfg: Settings, s: State, tx: Transaction, s': State, k: DelegationID)
    requires cfg.weightToValueFactor != 0 && RecipientsOfDelegations(s) && tx.call.CallInitializeEndDelegation?
    requires k == tx.call.delegationID && k in s.delegatorStakes
    requires s.delegatorStakes[k].validationID in s.validationPeriods
    requires StatusOf(s, s.delegatorStakes[k].validationID) == ValidatorStatus.Active
    requires EndedActive(cfg, tx.now, s, s', k, tx.call.includeUptimeProof, tx.call.uptimeProof, tx.call.recipient)
    ensures PaymentMove(cfg, s, tx, s')
  {
    var d := s.delegatorStakes[k];
    var uptime := UptimeAfter(s, d.validationID, tx.call.includeUptimeProof, tx.call.uptimeProof);
    var reward := Earned(cfg, tx.now, s.validationPeriods[d.validationID], d, uptime);
    var u :| Undelegated(tx.now, WithUptime(s, d.validationID, uptime), u, k)
             && Rewarded(u, s', k, tx.now, reward, tx.call.recipient);
    RewardedShape(tx.now, s, u, s', k, uptime, reward, tx.call.recipient);
    RewardedMoves(cfg, s, tx, s', k);
  }

  /** Nothing was minted, or one payment to this address. */
  ghost predicate MintedFor(s: State, s': State, to: Address) {
    || s'.history.minted == s.history.minted
    || (&& |s'.history.minted| == |s.history.minted| + 1
        && s'.history.minted[..|s.history.minted|] == s.history.minted
        && s'.history.minted[|s.history.minted|].to == to)
  }

  /** What it does to payments when its validator has completed. */
  lemma FinishedShape(cfg: Settings, s: State, u: State, s': State, k: DelegationID, end: nat, reward: nat,
                      recipient: Address)
    requires k in s.delegatorStakes && k !in s.redeemableDelegatorRewards && s.delegatorStakes[k].owner != 0
    requires Rewarded(s, u, k, end, reward, recipient) && k in u.delegatorStakes && Finished(cfg, u, s', k)
    ensures s'.rewardRecipients == s.rewardRecipients
    ensures s'.delegatorStakes.Keys == s.delegatorStakes.Keys - {k}
    ensures s'.delegatorRewardRecipients == s.delegatorRewardRecipients - {k}
    ensures MintedFor(s, s', if recipient == 0 then s.delegatorStakes[k].owner else recipient)
  {
  }

  lemma FinishedMoves(cfg: Settings, s: State, tx: Transaction, s': State, k: DelegationID)
    requires cfg.weightToValueFactor != 0 && RecipientsOfDelegations(s) && tx.call.CallInitializeEndDelegation?
    requires k == tx.call.delegationID && k in s.delegatorStakes
    requires s'.rewardRecipients == s.rewardRecipients
    requires s'.delegatorStakes.Keys == s.delegatorStakes.Keys - {k}
    requires s'.delegatorRewardRecipients == s.delegatorRewardRecipients - {k}
    requires MintedFor(s, s', if tx.call.recipient == 0 then s.delegatorStakes[k].owner else tx.call.recipient)
    ensures PaymentMove(cfg, s, tx, s')
  {
    SameRecipients(cfg, s, tx, s');
    DelegationGone(s, tx, s', k);
  }

  lemma EndCompletedPayments(cfg: Settings, s: State, tx: Transaction, s': State, k: DelegationID)
    requires cfg.weightToValueFactor != 0 && RecipientsOfDelegations(s) && tx.call.CallInitializeEndDelegation?
    requires k == tx.call.delegationID && k in s.delegatorStakes && k !in s.redeemableDelegatorRewards
    requires s.delegatorStakes[k].owner != 0
    requires EndedCompleted(cfg, s, s', k, tx.call.recipient)
    ensures PaymentMove(cfg, s, tx, s')
  {
    var d := s.delegatorStakes[k];
    var v := ValidatorOf(s, d.validationID);
    var reward := Earned(cfg, v.endedAt, v, d, UptimeOf(s, d.validationID));
    var u :| Rewarded(s, u, k, v.endedAt, reward, tx.call.recipient) && k in u.delegatorStakes && Finished(cfg, u, s', k);
    FinishedShape(cfg, s, u, s', k, v.endedAt, reward, tx.call.recipient);
    FinishedMoves(cfg, s, tx, s', k);
  }

  lemma EndDelegationPayments(cfg: Settings, before: nat, s: State, tx: Transaction)
    requires ValidSettings(cfg) && Invariant(cfg, before, s) && RecipientsOfDelegations(s) && Step(cfg, s, tx).Ok?
    requires tx.call.CallInitializeEndDelegation?
    ensures PaymentMove(cfg, s, tx, Step(cfg, s, tx).value)
  {
    var k, s' := tx.call.delegationID, Step(cfg, s, tx).value;
    EndDelegationAnswers(cfg, before, s, tx);
    if StatusOf(s, s.delegatorStakes[k].validationID) == ValidatorStatus.Active {
      EndActivePayments(cfg, s, tx, s', k);
    } else {
      assert RewardAt(s.redeemableDelegatorRewards, s.delegatorStakes, k);
      assert DelegationAt(s.validationPeriods, s.posValidatorInfo.Keys, s.delegatorStakes, k);
      EndCompletedPayments(cfg, s, tx, s', k);
    }
  }

  lemma ValidatorPayments(cfg: Settings, before: nat, s: State, tx: Transaction)
    requires ValidSettings(cfg) && Invariant(cfg, before, s) && RecipientsOfDelegations(s) && Step(cfg, s, tx).Ok?
    requires || tx.call.CallInitializeValidatorRegistration? || tx.call.CallChangeValidatorRewardRecipient?
             || tx.call.CallChangeDelegatorRewardRecipient? || tx.call.CallInitializeEndValidation?
             || tx.call.CallCompleteEndValidation? || tx.call.CallClaimDelegationFees?
    ensures PaymentMove(cfg, s, tx, Step(cfg, s, tx).value)
  {
    match tx.call {
      case CallInitializeValidatorRegistration(_, _, _, _, _) => RegistrationPayments(cfg, s, tx);
      case CallChangeValidatorRewardRecipient(_, _) => ChoosePayments(cfg, s, tx);
      case CallChangeDelegatorRewardRecipient(_, _) => ChoosePayments(cfg, s, tx);
      case CallInitializeEndValidation(_, _, _, _, _) => EndValidationPayments(cfg, s, tx);
      case CallCompleteEndValidation(_) => ClosePayments(cfg, before, s, tx);
      case CallClaimDelegationFees(_) => ClaimPayments(cfg, s, tx);
    }
  }

  lemma NewDelegationPayments(cfg: Settings, before: nat, s: State, tx: Transaction)
    requires ValidSettings(cfg) && Invariant(cfg, before, s) && RecipientsOfDelegations(s) && Step(cfg, s, tx).Ok?
    requires tx.call.CallInitializeDelegatorRegistration?
    ensures PaymentMove(cfg, s, tx, Step(cfg, s, tx).value)
  {
    if tx.call.validationID in s.validationPeriods {
      NewIsFresh(cfg, before, s, tx.call.validationID);
    }
    DelegateMoves(cfg, s, tx);
  }

  /** Every mint goes to the owner who claims, or to the recipient on record; recipients change only by choice. */
  lemma PaymentMoves(cfg: Settings, before: nat, s: State, tx: Transaction)
    requires ValidSettings(cfg) && Invariant(cfg, before, s) && RecipientsOfDelegations(s) && Step(cfg, s, tx).Ok?
    ensures PaymentMove(cfg, s, tx, Step(cfg, s, tx).value)
  {
    match tx.call {
      case CallInitializeDelegatorRegistration(_, _) => NewDelegationPayments(cfg, before, s, tx);
      case CallCompleteDelegatorRegistration(_, _) => CompletionPayments(cfg, before, s, tx);
      case CallCompleteEndDelegation(_, _) => CompletionPayments(cfg, before, s, tx);
      case CallInitializeEndDelegation(_, _, _, _, _) => EndDelegationPayments(cfg, before, s, tx);
      case CallResendEndValidatorMessage(_) => ResendMoves(cfg, before, s, tx);
      case CallResendUpdateDelegation(_) => ResendMoves(cfg, before, s, tx);
      case Donate(_) => ResendMoves(cfg, before, s, tx);
      case CallInitializeValidatorSet(_, _) => ValidatorCallMoves(cfg, before, s, tx);
      case CallCompleteValidatorRegistration(_) => ValidatorCallMoves(cfg, before, s, tx);
      case CallSubmitUptimeProof(_, _) => ValidatorCallMoves(cfg, before, s, tx);
      case _ => ValidatorPayments(cfg, before, s, tx);
    }
  }

  // ----- Every run -----

  /** The recipients on record are those chosen in the run. */
  ghost predicate RecipientsChosen(cfg: Settings, txs: seq<Transaction>, s: State)
    requires cfg.weightToValueFactor != 0
  {
    && RecipientsOfDelegations(s)
    && (forall id :: IsPoS(s, id) && Live(StatusOf(s, id)) ==> GetOr(s.rewardRecipients, id, 0) == Chosen(cfg, txs, id))
    && (forall k :: k in s.delegatorStakes ==>
          GetOr(s.delegatorRewardRecipients, k, 0) == ChosenByDelegation(cfg, txs, k))
  }

  /** A PoS validator that is live after a step was so before, unless it has just been registered. */
  lemma LiveBefore(cfg: Settings, before: nat, s: State, tx: Transaction, id: ValidationID)
    requires ValidSettings(cfg) && Invariant(cfg, before, s) && FreshID(cfg, s, tx) && Step(cfg, s, tx).Ok?
    requires Choice(cfg, s, tx, id).None?
    requires IsPoS(Step(cfg, s, tx).value, id) && Live(StatusOf(Step(cfg, s, tx).value, id))
    requires Invariant(cfg, tx.now, Step(cfg, s, tx).value)
    ensures IsPoS(s, id) && Live(StatusOf(s, id))
  {
    var s' := Step(cfg, s, tx).value;
    ValidatorStatusMoves(cfg, before, s, tx, id);
    assert IdentityAt(s'.pendingRegisterValidationMessages, s'.validationPeriods, s'.posValidatorInfo.Keys, id);
    assert IdentityAt(s.pendingRegisterValidationMessages, s.validationPeriods, s.posValidatorInfo.Keys, id);
    assert WeightAt(cfg, s.validationPeriods, s.delegatorStakes, id);
  }

  lemma ChosenAppend(cfg: Settings, txs: seq<Transaction>, tx: Transaction, id: ValidationID)
    requires cfg.weightToValueFactor != 0
    ensures var s := Run(cfg, txs);
            Chosen(cfg, txs + [tx], id)
            == if Step(cfg, s, tx).Ok? && Choice(cfg, s, tx, id).Some? then Choice(cfg, s, tx, id).value
               else Chosen(cfg, txs, id)
  {
    assert (txs + [tx])[..|txs + [tx]| - 1] == txs;
  }

  lemma ChosenByDelegationAppend(cfg: Settings, txs: seq<Transaction>, tx: Transaction, k: DelegationID)
    requires cfg.weightToValueFactor != 0
    ensures var s := Run(cfg, txs);
            ChosenByDelegation(cfg, txs + [tx], k)
            == if Step(cfg, s, tx).Ok? && DelegatorChoice(s, tx, k).Some? then DelegatorChoice(s, tx, k).value
               else ChosenByDelegation(cfg, txs, k)
  {
    assert (txs + [tx])[..|txs + [tx]| - 1] == txs;
  }

  lemma DelegatorsStayChosen(cfg: Settings, txs: seq<Transaction>, tx: Transaction, s: State, s': State)
    requires cfg.weightToValueFactor != 0 && s == Run(cfg, txs) && Step(cfg, s, tx) == Ok(s')
    requires RecipientsChosen(cfg, txs, s) && DelegatorRecipientMoves(s, tx, s')
    ensures RecipientsOfDelegations(s')
    ensures forall k :: k in s'.delegatorStakes ==>
              GetOr(s'.delegatorRewardRecipients, k, 0) == ChosenByDelegation(cfg, txs + [tx], k)
  {
    forall k | k in s'.delegatorStakes
      ensures GetOr(s'.delegatorRewardRecipients, k, 0) == ChosenByDelegation(cfg, txs + [tx], k)
    {
      assert DelegatorRecipientMove(s, tx, s', k);
      ChosenByDelegationAppend(cfg, txs, tx, k);
    }
    forall k | k in s'.delegatorRewardRecipients ensures k in s'.delegatorStakes {
      assert DelegatorRecipientMove(s, tx, s', k);
    }
  }

  lemma ValidatorStaysChosen(cfg: Settings, txs: seq<Transaction>, tx: Transaction, s: State, s': State,
                             id: ValidationID)
    requires cfg.weightToValueFactor != 0 && s == Run(cfg, txs) && Step(cfg, s, tx) == Ok(s')
    requires RecipientsChosen(cfg, txs, s) && RecipientMove(cfg, s, tx, s', id) && Live(StatusOf(s', id))
    requires Choice(cfg, s, tx, id).None? ==> IsPoS(s, id) && Live(StatusOf(s, id))
    ensures GetOr(s'.rewardRecipients, id, 0) == Chosen(cfg, txs + [tx], id)
  {
    ChosenAppend(cfg, txs, tx, id);
  }

  lemma StepChosen(cfg: Settings, txs: seq<Transaction>, tx: Transaction)
    requires ValidSettings(cfg) && Legal(cfg, txs + [tx]) && Legal(cfg, txs)
    requires RecipientsChosen(cfg, txs, Run(cfg, txs)) && Step(cfg, Run(cfg, txs), tx).Ok?
    ensures RecipientsChosen(cfg, txs + [tx], Step(cfg, Run(cfg, txs), tx).value)
  {
    var s, s' := Run(cfg, txs), Step(cfg, Run(cfg, txs), tx).value;
    RunPaymentMoves(cfg, txs, tx);
    DelegatorsStayChosen(cfg, txs, tx, s, s');
    forall id | IsPoS(s', id) && Live(StatusOf(s', id))
      ensures GetOr(s'.rewardRecipients, id, 0) == Chosen(cfg, txs + [tx], id)
    {
      assert RecipientMove(cfg, s, tx, s', id);
      if Choice(cfg, s, tx, id).None? {
        RunLiveBefore(cfg, txs, tx, id);
      }
      ValidatorStaysChosen(cfg, txs, tx, s, s', id);
    }
  }

  lemma RunPaymentMoves(cfg: Settings, txs: seq<Transaction>, tx: Transaction)
    requires ValidSettings(cfg) && Legal(cfg, txs) && RecipientsOfDelegations(Run(cfg, txs))
    requires Step(cfg, Run(cfg, txs), tx).Ok?
    ensures PaymentMove(cfg, Run(cfg, txs), tx, Step(cfg, Run(cfg, txs), tx).value)
  {
    RunKeeps(cfg, txs);
    PaymentMoves(cfg, Latest(txs), Run(cfg, txs), tx);
  }

  lemma RunLiveBefore(cfg: Settings, txs: seq<Transaction>, tx: Transaction, id: ValidationID)
    requires ValidSettings(cfg) && Legal(cfg, txs + [tx]) && Legal(cfg, txs) && Step(cfg, Run(cfg, txs), tx).Ok?
    requires var s, s' := Run(cfg, txs), Step(cfg, Run(cfg, txs), tx).value;
             Choice(cfg, s, tx, id).None? && IsPoS(s', id) && Live(StatusOf(s', id))
    ensures IsPoS(Run(cfg, txs), id) && Live(StatusOf(Run(cfg, txs), id))
  {
    assert (txs + [tx])[..|txs + [tx]| - 1] == txs;
    RunKeeps(cfg, txs);
    RunKeeps(cfg, txs + [tx]);
    LiveBefore(cfg, Latest(txs), Run(cfg, txs), tx, id);
  }

  lemma {:induction false} RunChosen(cfg: Settings, txs: seq<Transaction>)
    requires ValidSettings(cfg) && Legal(cfg, txs)
    ensures RecipientsChosen(cfg, txs, Run(cfg, txs))
  {
    if txs != [] {
      var earlier, tx := txs[..|txs| - 1], txs[|txs| - 1];
      assert earlier + [tx] == txs;
      RunChosen(cfg, earlier);
      if Step(cfg, Run(cfg, earlier), tx).Ok? {
        StepChosen(cfg, earlier, tx);
      } else {
        ChosenAfterRevert(cfg, earlier, tx, Run(cfg, earlier));
      }
    }
  }

  lemma ChosenAfterRevert(cfg: Settings, txs: seq<Transaction>, tx: Transaction, s: State)
    requires cfg.weightToValueFactor != 0 && s == Run(cfg, txs) && Step(cfg, s, tx).Revert?
    requires RecipientsChosen(cfg, txs, s)
    ensures RecipientsChosen(cfg, txs + [tx], s)
  {
    forall id | IsPoS(s, id) && Live(StatusOf(s, id))
      ensures GetOr(s.rewardRecipients, id, 0) == Chosen(cfg, txs + [tx], id)
    {
      ChosenAppend(cfg, txs, tx, id);
    }
    forall k | k in s.delegatorStakes
      ensures GetOr(s.delegatorRewardRecipients, k, 0) == ChosenByDelegation(cfg, txs + [tx], k)
    {
      ChosenByDelegationAppend(cfg, txs, tx, k);
    }
  }

  /** Who is to be paid when a call mints, by the choices made in the run up to and including that call. */
  ghost predicate ForTheChosen(cfg: Settings, txs: seq<Transaction>, s: State, tx: Transaction, to: Address)
    requires cfg.weightToValueFactor != 0
  {
    match tx.call
    case CallClaimDelegationFees(id) => IsPoS(s, id) && to == tx.caller == s.posValidatorInfo[id].owner
    case CallCompleteEndValidation(proof) => proof.Some? && to == Chosen(cfg, txs, proof.value.validationID)
    case CallCompleteDelegatorRegistration(k, _) => ForDelegator(s, k, ChosenByDelegation(cfg, txs, k), to)
    case CallCompleteEndDelegation(k, _) => ForDelegator(s, k, ChosenByDelegation(cfg, txs, k), to)
    case CallInitializeEndDelegation(k, _, _, recipient, _) => ForDelegator(s, k, recipient, to)
    case _ => false
  }

  ghost predicate ForDelegator(s: State, k: DelegationID, chosen: Address, to: Address) {
    k in s.delegatorStakes && to == if chosen == 0 then s.delegatorStakes[k].owner else chosen
  }

  lemma PaidIsChosen(cfg: Settings, txs: seq<Transaction>, s: State, tx: Transaction, p: Payment)
    requires cfg.weightToValueFactor != 0 && RecipientsChosen(cfg, txs, s) && PaidRightly(s, tx, p)
    requires tx.call.CallCompleteEndValidation? && tx.call.registrationProof.Some? ==>
               var id := tx.call.registrationProof.value.validationID;
               Live(StatusOf(s, id)) && (IsPoS(s, id) ==> GetOr(s.rewardRecipients, id, 0) != 0)
    ensures ForTheChosen(cfg, txs, s, tx, p.to)
  {
  }

  /**
   Over every run, a call mints at most once, and what it mints is for the owner who claims, for the recipient that was
   chosen last for the validator or the delegation, or for the delegation's owner if none was chosen.
   */
  lemma MintedForTheChosen(cfg: Settings, txs: seq<Transaction>, tx: Transaction)
    requires ValidSettings(cfg) && Legal(cfg, txs) && Step(cfg, Run(cfg, txs), tx).Ok?
    ensures var s, s' := Run(cfg, txs), Step(cfg, Run(cfg, txs), tx).value;
            || s'.history.minted == s.history.minted
            || (&& |s'.history.minted| == |s.history.minted| + 1
                && s'.history.minted[..|s.history.minted|] == s.history.minted
                && ForTheChosen(cfg, txs, s, tx, s'.history.minted[|s.history.minted|].to))
  {
    var s, s' := Run(cfg, txs), Step(cfg, Run(cfg, txs), tx).value;
    RunChosen(cfg, txs);
    RunPaymentMoves(cfg, txs, tx);
    if s'.history.minted != s.history.minted {
      if tx.call.CallCompleteEndValidation? {
        ClosedWasLive(cfg, txs, tx);
      }
      PaidIsChosen(cfg, txs, s, tx, s'.history.minted[|s.history.minted|]);
    }
  }

  /** The recipient of a validator that is being closed was chosen. */
  lemma ClosedWasLive(cfg: Settings, txs: seq<Transaction>, tx: Transaction)
    requires ValidSettings(cfg) && Legal(cfg, txs) && Step(cfg, Run(cfg, txs), tx).Ok?
    requires tx.call.CallCompleteEndValidation?
    ensures tx.call.registrationProof.Some?
    ensures var s, id := Run(cfg, txs), tx.call.registrationProof.value.validationID;
            Live(StatusOf(s, id)) && (IsPoS(s, id) ==> GetOr(s.rewardRecipients, id, 0) != 0)
  {
    RunKeeps(cfg, txs);
    CloseAnswers(cfg, Latest(txs), Run(cfg, txs), tx);
    var id := tx.call.registrationProof.value.validationID;
    if IsPoS(Run(cfg, txs), id) {
      RunChosen(cfg, txs);
      SomebodyChosen(cfg, txs, id);
    }
  }

  /** For every PoS validator somebody was chosen: to begin with, its owner. */
  lemma {:induction false} SomebodyChosen(cfg: Settings, txs: seq<Transaction>, id: ValidationID)
    requires ValidSettings(cfg) && Legal(cfg, txs) && IsPoS(Run(cfg, txs), id) && Live(StatusOf(Run(cfg, txs), id))
    ensures Chosen(cfg, txs, id) != 0
  {
    if txs != [] {
      var earlier, tx := txs[..|txs| - 1], txs[|txs| - 1];
      RunKeeps(cfg, earlier);
      RunKeeps(cfg, txs);
      var s := Run(cfg, earlier);
      if Step(cfg, s, tx).Ok? {
        if Choice(cfg, s, tx, id).Some? {
          OwnerChooses(cfg, s, tx, id);
        } else {
          LiveBefore(cfg, Latest(earlier), s, tx, id);
          SomebodyChosen(cfg, earlier, id);
        }
      } else {
        SomebodyChosen(cfg, earlier, id);
      }
    }
  }
}
