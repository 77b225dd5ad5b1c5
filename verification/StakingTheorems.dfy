/**
 What the documentation of the staking manager promises. Each promise is a predicate on the state; a lemma derives it
 from the invariant, and `EveryRun` states all of them for every run from deployment.
 */
module StakingTheorems {
  import opened Wrappers
  import opened Numeric
  import opened MapSum
  import opened MessageTypes
  import opened ChurnTracker
  import opened StakingTypes
  import opened StakingSpec
  import opened StakingInvariants
  import opened StakingValidatorCalls
  import opened StakingDelegationCalls
  import opened StakingRuns

  // ----- Weights -----

  /** A PoS validator weighs what it staked plus what is delegated to it, within the multiplier. */
  ghost predicate StakePlusDelegations(cfg: Settings, s: State) {
    forall id ::
      StatusOf(s, id) == ValidatorStatus.PendingAdded || StatusOf(s, id) == ValidatorStatus.Active ==>
        var v := ValidatorOf(s, id);
        && v.weight == v.startingWeight + Delegated(s.delegatorStakes, id)
        && v.weight <= v.startingWeight * cfg.maximumStakeMultiplier
  }

  lemma WeightsFromInvariant(cfg: Settings, now: nat, s: State)
    requires ValidSettings(cfg) && Invariant(cfg, now, s)
    ensures StakePlusDelegations(cfg, s)
  {
    forall id | StatusOf(s, id) == ValidatorStatus.PendingAdded || StatusOf(s, id) == ValidatorStatus.Active
      ensures var v := ValidatorOf(s, id);
              && v.weight == v.startingWeight + Delegated(s.delegatorStakes, id)
              && v.weight <= v.startingWeight * cfg.maximumStakeMultiplier
    {
      assert WeightAt(cfg, s.validationPeriods, s.delegatorStakes, id);
      StartingWithinLimit(s.validationPeriods[id].startingWeight, cfg.maximumStakeMultiplier);
    }
  }

  /** Taking a delegation's weight off its active validator leaves at least the validator's own stake. */
  ghost predicate EndingNeverUnderflows(s: State) {
    forall k :: k in s.delegatorStakes && s.delegatorStakes[k].status == DelegatorStatus.Active
                && StatusOf(s, s.delegatorStakes[k].validationID) == ValidatorStatus.Active ==>
                  var v := ValidatorOf(s, s.delegatorStakes[k].validationID);
                  v.weight - s.delegatorStakes[k].weight >= v.startingWeight
  }

  lemma EndingFromInvariant(cfg: Settings, now: nat, s: State)
    requires ValidSettings(cfg) && Invariant(cfg, now, s)
    ensures EndingNeverUnderflows(s)
  {
    WeightsFromInvariant(cfg, now, s);
    forall k | k in s.delegatorStakes && s.delegatorStakes[k].status == DelegatorStatus.Active
               && StatusOf(s, s.delegatorStakes[k].validationID) == ValidatorStatus.Active
      ensures var v := ValidatorOf(s, s.delegatorStakes[k].validationID);
              v.weight - s.delegatorStakes[k].weight >= v.startingWeight
    {
      Member(s.delegatorStakes, k, Backing(s.delegatorStakes[k].validationID));
    }
  }

  /** The churn tracker's total is the sum of all weights, and it is large enough to be changed. */
  ghost predicate TotalIsSumOfWeights(cfg: Settings, s: State) {
    s.initializedValidatorSet ==>
      && s.churnTracker.totalWeight == Sum(s.validationPeriods, WeightOf())
      && cfg.churn.maximumPercentage * s.churnTracker.totalWeight >= 100
  }

  ghost function WeightIf(keep: bool): (ValidationID, Validator) -> nat {
    (_: ValidationID, v: Validator) => if (v.status == ValidatorStatus.Invalidated) == keep then v.weight else 0
  }

  lemma {:induction false} SplitByStatus(periods: map<ValidationID, Validator>)
    ensures Sum(periods, WeightOf()) == Sum(periods, WeightIf(true)) + Sum(periods, WeightIf(false))
    decreases |periods.Keys|
  {
    if periods.Keys != {} {
      var id := Pick(periods.Keys);
      Rest(periods, id);
      Split(periods, id, WeightOf());
      Split(periods, id, WeightIf(true));
      Split(periods, id, WeightIf(false));
      SplitByStatus(periods - {id});
    }
  }

  /**
   The total that the churn limit is measured against exceeds the weight of the validators that were not invalidated by
   exactly the weight of those that were: an invalidated registration is never taken off it.
   */
  lemma InvalidatedWeightStays(cfg: Settings, now: nat, s: State)
    requires cfg.weightToValueFactor != 0 && Invariant(cfg, now, s)
    ensures s.churnTracker.totalWeight
            == Sum(s.validationPeriods, WeightIf(false)) + Sum(s.validationPeriods, WeightIf(true))
  {
    SplitByStatus(s.validationPeriods);
    if !s.initializedValidatorSet {
      Zero(s.validationPeriods, WeightOf());
    }
  }

  // ----- Registrations that repeat an earlier one -----

  lemma RegistrationMovesTotal(cfg: Settings, now: Timestamp, caller: Account, s: State, input: RegistrationInput,
                               fee: nat, duration: nat, amount: nat, received: Uint256)
    requires cfg.weightToValueFactor != 0
    requires InitializeValidatorRegistration(cfg, now, caller, s, input, fee, duration, amount, received).Ok?
    ensures var (s', id) :=
              InitializeValidatorRegistration(cfg, now, caller, s, input, fee, duration, amount, received).value;
            var weight := Worth(cfg.weightToValueFactor, received);
            && id == Registered(RegistrationMessage(cfg, input, weight))
            && s'.churnTracker.totalWeight == s.churnTracker.totalWeight + weight
            && Sum(s'.validationPeriods, WeightOf()) + (if id in s.validationPeriods then s.validationPeriods[id].weight
                                                        else 0)
               == Sum(s.validationPeriods, WeightOf()) + weight
  {
    var weight := Worth(cfg.weightToValueFactor, received);
    RegistrationEffect(cfg, now, caller, s, input, fee, duration, amount, received);
    var id := Registered(RegistrationMessage(cfg, input, weight));
    AcceptedChange(cfg.churn, s.churnTracker, Change(now, weight, 0));
    Update(s.validationPeriods, id,
           Validator(ValidatorStatus.PendingAdded, input.nodeID, weight, 0, weight, 0, 0), WeightOf());
  }

  /**
   Where the total equals the sum of the weights, a successful registration keeps it so exactly when its ID is new or
   the earlier period of that ID carries no weight any more.
   */
  lemma RegistrationKeepsTotalIff(cfg: Settings, now: Timestamp, caller: Account, s: State, input: RegistrationInput,
                                  fee: nat, duration: nat, amount: nat, received: Uint256)
    requires cfg.weightToValueFactor != 0
    requires s.churnTracker.totalWeight == Sum(s.validationPeriods, WeightOf())
    requires InitializeValidatorRegistration(cfg, now, caller, s, input, fee, duration, amount, received).Ok?
    ensures var (s', id) :=
              InitializeValidatorRegistration(cfg, now, caller, s, input, fee, duration, amount, received).value;
            s'.churnTracker.totalWeight == Sum(s'.validationPeriods, WeightOf())
            <==> (id in s.validationPeriods ==> s.validationPeriods[id].weight == 0)
  {
    RegistrationMovesTotal(cfg, now, caller, s, input, fee, duration, amount, received);
  }

  // ----- Escrow -----

  /** The contract holds at least what it owes: every live stake and every delegation, in tokens. */
  ghost predicate Solvent(cfg: Settings, s: State) {
    s.balance >= Sum(s.validationPeriods, ValidatorEscrow(cfg.weightToValueFactor, s.posValidatorInfo.Keys))
                 + Sum(s.delegatorStakes, DelegatorEscrow(cfg.weightToValueFactor))
  }

  /** A payment of stake: to the depositor, at most what was deposited and less than one factor short of it. */
  ghost predicate FairReturn(factor: nat, deposit: Deposit, payment: Payment) {
    payment.to == deposit.from && payment.value <= deposit.value < payment.value + factor
  }

  /** Every stake is deposited at most once and returned at most once, to who deposited it. */
  ghost predicate ReturnedAtMostOnce(cfg: Settings, s: State) {
    forall stake ::
      var ins, outs := GetOr(s.history.locked, stake, []), GetOr(s.history.unlocked, stake, []);
      && |outs| <= |ins| <= 1
      && (outs != [] ==> FairReturn(cfg.weightToValueFactor, ins[0], outs[0]))
  }

  lemma RoundingLoss(factor: nat, value: nat)
    requires factor != 0
    ensures TokenValue(factor, Worth(factor, value)) <= value < TokenValue(factor, Worth(factor, value)) + factor
  {
    assert value == factor * (value / factor) + value % factor;
  }

  lemma ReturnsFromStakes(factor: nat, s: State, stake: Stake)
    requires factor != 0
    requires ValidatorStakesOK(factor, s.history.locked, s.history.unlocked, s.validationPeriods, s.posValidatorInfo)
    requires DelegatorStakesOK(factor, s.history.locked, s.history.unlocked, s.validationPeriods, s.delegatorStakes)
    ensures var ins, outs := GetOr(s.history.locked, stake, []), GetOr(s.history.unlocked, stake, []);
            && |outs| <= |ins| <= 1
            && (outs != [] ==> FairReturn(factor, ins[0], outs[0]))
  {
    var h := s.history;
    var ins := GetOr(h.locked, stake, []);
    match stake {
      case ValidatorStake(id) =>
        assert ValidatorStakeAt(factor, h.locked, h.unlocked, s.validationPeriods, s.posValidatorInfo, id);
      case DelegatorStake(k) =>
        assert DelegatorStakeAt(factor, h.locked, h.unlocked, s.validationPeriods, s.delegatorStakes, k);
    }
    if ins != [] {
      RoundingLoss(factor, ins[0].value);
    }
  }

  lemma ReturnsFromInvariant(cfg: Settings, now: nat, s: State)
    requires cfg.weightToValueFactor != 0 && Invariant(cfg, now, s)
    ensures ReturnedAtMostOnce(cfg, s)
  {
    forall stake ensures
        var ins, outs := GetOr(s.history.locked, stake, []), GetOr(s.history.unlocked, stake, []);
        && |outs| <= |ins| <= 1
        && (outs != [] ==> FairReturn(cfg.weightToValueFactor, ins[0], outs[0]))
    {
      ReturnsFromStakes(cfg.weightToValueFactor, s, stake);
    }
  }

  /** A validator's stake is still held exactly while its period is pending, active or being removed. */
  ghost predicate HeldWhileLive(s: State) {
    forall id :: id in s.posValidatorInfo ==>
      && |GetOr(s.history.locked, ValidatorStake(id), [])| == 1
      && (GetOr(s.history.unlocked, ValidatorStake(id), []) == [] <==> Live(StatusOf(s, id)))
  }

  lemma HeldFromInvariant(cfg: Settings, now: nat, s: State)
    requires cfg.weightToValueFactor != 0 && Invariant(cfg, now, s)
    ensures HeldWhileLive(s)
  {
    forall id | id in s.posValidatorInfo
      ensures |GetOr(s.history.locked, ValidatorStake(id), [])| == 1
      ensures GetOr(s.history.unlocked, ValidatorStake(id), []) == [] <==> Live(StatusOf(s, id))
    {
      assert ValidatorStakeAt(cfg.weightToValueFactor, s.history.locked, s.history.unlocked, s.validationPeriods,
                              s.posValidatorInfo, id);
    }
  }

  /** Paying out fails for lack of tokens only if the stake exceeds the balance. */
  lemma PayOutShort(cfg: Settings, s: State, id: ValidationID)
    requires IsPoS(s, id) && PayOut(cfg, s, id) == Revert(TokenTransferFailed)
    ensures TokenValue(cfg.weightToValueFactor, ValidatorOf(s, id).startingWeight) > s.balance
  {
  }

  lemma ValidatorPayoutCovered(cfg: Settings, s: State, proof: Option<RegistrationProof>)
    requires Solvent(cfg, s)
    ensures CompleteEndValidation(cfg, s, proof) != Revert(TokenTransferFailed)
  {
    var closed := ClosePeriod(s, proof);
    if closed.Ok? {
      ClosePeriodEffect(s, proof);
      var id := proof.value.validationID;
      Member(s.validationPeriods, id, ValidatorEscrow(cfg.weightToValueFactor, s.posValidatorInfo.Keys));
      if IsPoS(closed.value, id) && PayOut(cfg, closed.value, id) == Revert(TokenTransferFailed) {
        PayOutShort(cfg, closed.value, id);
      }
    }
  }

  lemma WithdrawWithoutTransfer(cfg: Settings, s: State, to: Address, k: DelegationID, id: ValidationID)
    ensures WithdrawDelegationRewards(cfg, s, to, k, id) != Revert(TokenTransferFailed)
  {
  }

  /** Finishing fails for lack of tokens only if the stake exceeds the balance. */
  lemma FinishShort(cfg: Settings, at: Timestamp, s: State, k: DelegationID)
    requires k in s.delegatorStakes && FinishDelegation(cfg, at, s, k) == Revert(TokenTransferFailed)
    ensures var d := s.delegatorStakes[k];
            var r := WithdrawDelegationRewards(cfg, WithoutDelegation(s, k), FinalRecipient(s, k), k, d.validationID);
            r.Ok? && TokenValue(cfg.weightToValueFactor, d.weight) > r.value.balance
  {
    WithdrawWithoutTransfer(cfg, WithoutDelegation(s, k), FinalRecipient(s, k), k, s.delegatorStakes[k].validationID);
  }

  lemma FinishCovered(cfg: Settings, now: Timestamp, s: State, k: DelegationID)
    requires Solvent(cfg, s) && k in s.delegatorStakes
    ensures FinishDelegation(cfg, now, s, k) != Revert(TokenTransferFailed)
  {
    Member(s.delegatorStakes, k, DelegatorEscrow(cfg.weightToValueFactor));
    if FinishDelegation(cfg, now, s, k) == Revert(TokenTransferFailed) {
      FinishShort(cfg, now, s, k);
      WithdrawEffect(cfg, WithoutDelegation(s, k), FinalRecipient(s, k), k, s.delegatorStakes[k].validationID);
      assert false;
    }
  }

  lemma UndelegateWithoutTransfer(cfg: Settings, now: Timestamp, s: State, k: DelegationID)
    requires k in s.delegatorStakes
    ensures Undelegate(cfg, now, s, k) != Revert(TokenTransferFailed)
  {
  }

  lemma AwardWithoutTransfer(cfg: Settings, now: Timestamp, s: State, k: DelegationID, recipient: Address)
    requires k in s.delegatorStakes
    ensures AwardDelegator(cfg, now, s, k, recipient) != Revert(TokenTransferFailed)
  {
  }

  /** Ending a delegation of an active validator moves no stake. */
  lemma ActiveEndWithoutTransfer(
    cfg: Settings, now: Timestamp, s: State,
    k: DelegationID, withProof: bool, proof: Option<UptimeProof>, recipient: Address, force: bool)
    requires k in s.delegatorStakes
    ensures EndWhileActive(cfg, now, s, k, withProof, proof, recipient, force) != Revert(TokenTransferFailed)
  {
    var d := s.delegatorStakes[k];
    if IsPoS(s, d.validationID) {
      var s1 := MaybeUpdateUptime(s, d.validationID, withProof, proof);
      if s1.Ok? {
        UndelegateWithoutTransfer(cfg, now, s1.value, k);
        var s2 := Undelegate(cfg, now, s1.value, k);
        if s2.Ok? {
          AwardWithoutTransfer(cfg, now, s2.value, k, recipient);
        }
      }
    }
  }

  lemma EndDelegationCovered(
    cfg: Settings, now: Timestamp, caller: Account, s: State,
    k: DelegationID, withProof: bool, proof: Option<UptimeProof>, recipient: Address, force: bool)
    requires Solvent(cfg, s) && k in s.delegatorStakes
    requires s.delegatorStakes[k].status == DelegatorStatus.Active
    requires StatusOf(s, s.delegatorStakes[k].validationID) == ValidatorStatus.Completed
    ensures InitializeEndDelegation(cfg, now, caller, s, k, withProof, proof, recipient, force)
            != Revert(TokenTransferFailed)
  {
    AwardWithoutTransfer(cfg, now, s, k, recipient);
    var awarded := AwardDelegator(cfg, now, s, k, recipient);
    if awarded.Ok? {
      AwardEffect(cfg, now, s, k, recipient);
      FinishCovered(cfg, now, awarded.value.0, k);
    }
  }

  lemma RegistrationWithoutTransfer(cfg: Settings, s: State, tx: Transaction)
    requires cfg.weightToValueFactor != 0
    requires tx.call.CallInitializeValidatorRegistration? || tx.call.CallInitializeDelegatorRegistration?
    ensures Step(cfg, s, tx) != Revert(TokenTransferFailed)
  {
  }

  lemma EndValidationWithoutTransfer(cfg: Settings, s: State, tx: Transaction)
    requires cfg.weightToValueFactor != 0 && tx.call.CallInitializeEndValidation?
    ensures Step(cfg, s, tx) != Revert(TokenTransferFailed)
  {
  }

  /** The calls that return no stake. */
  lemma OtherCallsCovered(cfg: Settings, s: State, tx: Transaction)
    requires cfg.weightToValueFactor != 0
    requires !tx.call.CallCompleteEndValidation? && !tx.call.CallCompleteDelegatorRegistration?
    requires !tx.call.CallCompleteEndDelegation? && !tx.call.CallInitializeEndDelegation?
    ensures Step(cfg, s, tx) != Revert(TokenTransferFailed)
  {
    if tx.call.CallInitializeValidatorSet? {
      InitialValidatorsMoveNoTokens(tx.now, s, tx.call.data, |tx.call.data.initialValidators|);
    } else if tx.call.CallInitializeEndValidation? {
      EndValidationWithoutTransfer(cfg, s, tx);
    } else if tx.call.CallInitializeValidatorRegistration? || tx.call.CallInitializeDelegatorRegistration? {
      RegistrationWithoutTransfer(cfg, s, tx);
    }
  }

  /** No call ever fails because the contract lacks the tokens to return a stake. */
  ghost predicate PayoutsNeverFail(cfg: Settings, s: State)
    requires cfg.weightToValueFactor != 0
  {
    forall tx: Transaction :: Step(cfg, s, tx) != Revert(TokenTransferFailed)
  }

  lemma PayoutsWhenSolvent(cfg: Settings, s: State)
    requires cfg.weightToValueFactor != 0 && Solvent(cfg, s)
    ensures PayoutsNeverFail(cfg, s)
  {
    forall tx: Transaction ensures Step(cfg, s, tx) != Revert(TokenTransferFailed) {
      PayoutWhenSolvent(cfg, s, tx);
    }
  }

  lemma PayoutWhenSolvent(cfg: Settings, s: State, tx: Transaction)
    requires cfg.weightToValueFactor != 0 && Solvent(cfg, s)
    ensures Step(cfg, s, tx) != Revert(TokenTransferFailed)
  {
    match tx.call {
      case CallCompleteEndValidation(proof) =>
        ValidatorPayoutCovered(cfg, s, proof);
      case CallCompleteDelegatorRegistration(k, _) =>
        if k in s.delegatorStakes { FinishCovered(cfg, tx.now, s, k); }
      case CallCompleteEndDelegation(k, _) =>
        if k in s.delegatorStakes { FinishCovered(cfg, tx.now, s, k); }
      case CallInitializeEndDelegation(_, _, _, _, _) =>
        EndDelegationNeverFails(cfg, tx, s);
      case _ =>
        OtherCallsCovered(cfg, s, tx);
    }
  }

  lemma EndDelegationNeverFails(cfg: Settings, tx: Transaction, s: State)
    requires cfg.weightToValueFactor != 0 && Solvent(cfg, s) && tx.call.CallInitializeEndDelegation?
    ensures Step(cfg, s, tx) != Revert(TokenTransferFailed)
  {
    var c := tx.call;
    var k := c.delegationID;
    if k in s.delegatorStakes && s.delegatorStakes[k].status == DelegatorStatus.Active {
      if StatusOf(s, s.delegatorStakes[k].validationID) == ValidatorStatus.Active {
        ActiveEndWithoutTransfer(cfg, tx.now, s, k, c.includeUptimeProof, c.uptimeProof, c.recipient,
                                 c.force);
      } else if StatusOf(s, s.delegatorStakes[k].validationID) == ValidatorStatus.Completed {
        EndDelegationCovered(cfg, tx.now, tx.caller, s, k, c.includeUptimeProof, c.uptimeProof, c.recipient, c.force);
      }
    }
  }

  lemma {:induction false} InitialValidatorsMoveNoTokens(now: Timestamp, s: State, data: ConversionData, n: nat)
    requires n <= |data.initialValidators|
    ensures StoreInitialValidators(now, s, data, n) != Revert(TokenTransferFailed)
  {
    if n > 0 {
      InitialValidatorsMoveNoTokens(now, s, data, n - 1);
    }
  }

  // ----- Rewards -----

  /** Every reward awarded has been minted or can still be redeemed, never both. */
  ghost predicate RewardsAddUp(s: State) {
    s.history.awarded == Total(s.history.minted) + Sum(s.redeemableValidatorRewards, Amount())
                         + Sum(s.redeemableDelegatorRewards, Amount())
  }

  // ----- Churn -----

  /** The changes from number `i` to number `j`, if closer than a period, stay within what two windows allow. */
  ghost predicate WithinTwoWindows(limit: Limit, total: nat, changes: seq<Change>, i: nat, j: nat)
    requires i <= j < |changes|
  {
    && changes[i].now <= changes[j].now
    && (changes[j].now < changes[i].now + limit.periodSeconds ==>
          100 * Churned(changes, i, j + 1) <= Allowance(limit, total, changes, i) + Allowance(limit, total, changes, j))
  }

  lemma ReplayIsLimited(limit: Limit, total: nat, changes: seq<Change>, i: nat, j: nat)
    requires i <= j < |changes| && Chronological(changes) && Replay(limit, total, changes, |changes|).Ok?
    ensures WithinTwoWindows(limit, total, changes, i, j)
  {
    if changes[j].now < changes[i].now + limit.periodSeconds {
      ReplayPrefix(limit, total, changes, j + 1, |changes|);
      SlidingBound(limit, total, changes, i, j);
    }
  }

  lemma ReplayTotal(limit: Limit, total: nat, changes: seq<Change>)
    requires Chronological(changes) && Replay(limit, total, changes, |changes|).Ok?
    ensures Replay(limit, total, changes, |changes|).value.totalWeight == NetTotal(total, changes, |changes|)
  {
    if changes != [] {
      TrackerMeaning(limit, total, changes, |changes| - 1);
    }
  }

  /**
   The churn limit over a run: the weight changes accepted so far are in time order, those of any stretch shorter than
   a period stay within what two windows allow, and together they lead from the initial total to the current one.
   */
  ghost predicate ChurnLimited(cfg: Settings, s: State) {
    var h := s.history;
    && NetTotal(h.initialTotal, h.changes, |h.changes|) == s.churnTracker.totalWeight
    && forall i: nat, j: nat | i <= j < |h.changes| ::
         WithinTwoWindows(cfg.churn, h.initialTotal, h.changes, i, j)
  }

  lemma ChurnFromInvariant(cfg: Settings, now: nat, s: State)
    requires ChurnOK(cfg.churn, now, s.initializedValidatorSet, s.churnTracker, s.history.initialTotal, s.history.changes)
    ensures ChurnLimited(cfg, s)
  {
    var h := s.history;
    ReplayTotal(cfg.churn, h.initialTotal, h.changes);
    forall i: nat, j: nat | i <= j < |h.changes|
      ensures WithinTwoWindows(cfg.churn, h.initialTotal, h.changes, i, j)
    {
      ReplayIsLimited(cfg.churn, h.initialTotal, h.changes, i, j);
    }
  }

  // ----- Weight messages -----

  lemma {:induction false} StaircaseClimbs(messages: seq<WeightMessage>, nonce: nat, weight: nat, i: nat, j: nat)
    requires Staircase(messages, nonce, weight) && i <= j < |messages|
    ensures messages[i].nonce <= messages[j].nonce
    ensures messages[i].nonce == messages[j].nonce ==> messages[i] == messages[j]
  {
    if i < j {
      StaircaseClimbs(messages, nonce, weight, i, j - 1);
    }
  }

  ghost predicate HasNonce(messages: seq<WeightMessage>, n: int) {
    exists i :: 0 <= i < |messages| && messages[i].nonce == n
  }

  lemma {:induction false} StaircaseHasEveryNonce(
    messages: seq<WeightMessage>, nonce: nat, weight: nat, n: nat, j: nat)
    requires Staircase(messages, nonce, weight) && j < |messages| && 1 <= n <= messages[j].nonce
    ensures HasNonce(messages, n)
  {
    if messages[j].nonce != n {
      StaircaseHasEveryNonce(messages, nonce, weight, n, j - 1);
    }
  }

  /**
   The weight messages of a validator carry the nonces 1, 2, 3, ... up to its current nonce, without gaps and never
   going back; messages with the same nonce are the same; the last message carries the current weight.
   */
  ghost predicate CompleteHistory(messages: seq<WeightMessage>, nonce: nat, weight: nat) {
    && (messages == [] <==> nonce == 0)
    && (messages != [] ==> messages[|messages| - 1] == WeightMessage(nonce, weight))
    && (forall i :: 0 <= i < |messages| ==> 1 <= messages[i].nonce <= nonce)
    && (forall n :: 1 <= n <= nonce ==> HasNonce(messages, n))
    && (forall i, j :: 0 <= i <= j < |messages| ==> messages[i].nonce <= messages[j].nonce)
    && (forall i, j :: 0 <= i <= j < |messages| && messages[i].nonce == messages[j].nonce ==>
                         messages[i] == messages[j])
  }

  ghost predicate HistoriesComplete(s: State) {
    forall id :: CompleteHistory(GetOr(s.history.weightMessages, id, []), ValidatorOf(s, id).messageNonce,
                                 ValidatorOf(s, id).weight)
  }

  lemma StaircaseIsComplete(messages: seq<WeightMessage>, nonce: nat, weight: nat)
    requires Staircase(messages, nonce, weight)
    ensures CompleteHistory(messages, nonce, weight)
  {
    forall i, j | 0 <= i <= j < |messages|
      ensures 1 <= messages[i].nonce <= messages[j].nonce <= nonce
      ensures messages[i].nonce == messages[j].nonce ==> messages[i] == messages[j]
    {
      StaircaseClimbs(messages, nonce, weight, 0, i);
      StaircaseClimbs(messages, nonce, weight, i, j);
      StaircaseClimbs(messages, nonce, weight, j, |messages| - 1);
    }
    forall n | 1 <= n <= nonce ensures HasNonce(messages, n) {
      StaircaseHasEveryNonce(messages, nonce, weight, n, |messages| - 1);
    }
  }

  lemma HistoriesFromInvariant(cfg: Settings, now: nat, s: State)
    requires cfg.weightToValueFactor != 0 && Invariant(cfg, now, s)
    ensures HistoriesComplete(s)
  {
    forall id ensures CompleteHistory(GetOr(s.history.weightMessages, id, []), ValidatorOf(s, id).messageNonce,
                                      ValidatorOf(s, id).weight)
    {
      assert MessagesAt(s.history.weightMessages, s.validationPeriods, id);
      StaircaseIsComplete(GetOr(s.history.weightMessages, id, []), ValidatorOf(s, id).messageNonce,
                          ValidatorOf(s, id).weight);
    }
  }

  /** The validator whose weight message a resend call repeats. */
  function ResentFor(s: State, call: Call): Option<ValidationID> {
    match call
    case CallResendEndValidatorMessage(id) => Some(id)
    case CallResendUpdateDelegation(k) =>
      if k in s.delegatorStakes then Some(s.delegatorStakes[k].validationID) else None
    case _ => None
  }

  /** Both resend calls repeat the last message of the validator word for word and do nothing else. */
  lemma ResendRepeatsLastMessage(cfg: Settings, now: nat, s: State, tx: Transaction)
    requires cfg.weightToValueFactor != 0 && Invariant(cfg, now, s)
    requires ResentFor(s, tx.call).Some? && Step(cfg, s, tx).Ok?
    ensures var id := ResentFor(s, tx.call).value;
            var messages := GetOr(s.history.weightMessages, id, []);
            && messages != []
            && Step(cfg, s, tx).value == s.(history := s.history.(
                 weightMessages := s.history.weightMessages[id := messages + [messages[|messages| - 1]]]))
  {
    var id := ResentFor(s, tx.call).value;
    assert MessagesAt(s.history.weightMessages, s.validationPeriods, id);
    assert WeightAt(cfg, s.validationPeriods, s.delegatorStakes, id);
    if tx.call.CallResendUpdateDelegation? {
      assert DelegationAt(s.validationPeriods, s.posValidatorInfo.Keys, s.delegatorStakes, tx.call.delegationID);
    }
  }

  /** A new delegation never takes the ID of an earlier one, even if that one has ended and its record is gone. */
  lemma DelegationIDsAreFresh(cfg: Settings, before: nat, now: Timestamp, caller: Account, s: State, id: ValidationID,
                              received: Uint256)
    requires ValidSettings(cfg) && Invariant(cfg, before, s)
    requires InitializeDelegatorRegistration(cfg, now, caller, s, id, received).Ok?
    ensures var k := InitializeDelegatorRegistration(cfg, now, caller, s, id, received).value.1;
            && k !in s.delegatorStakes
            && GetOr(s.history.locked, DelegatorStake(k), []) == []
  {
    DelegateEffect(cfg, now, caller, s, id, received);
    var k := InitializeDelegatorRegistration(cfg, now, caller, s, id, received).value.1;
    NewDelegationID(s.validationPeriods, s.posValidatorInfo.Keys, s.delegatorStakes, k);
    assert DelegatorStakeAt(cfg.weightToValueFactor, s.history.locked, s.history.unlocked, s.validationPeriods,
                            s.delegatorStakes, k);
  }

  // ----- Node registry -----

  /** The registry names `id` for a node exactly when `id` is a live period of that node, so a node has at most one. */
  ghost predicate RegistryIsExact(s: State) {
    forall n, id ::
      (n in s.registeredValidators && s.registeredValidators[n] == id)
      <==> (id in s.validationPeriods && Live(s.validationPeriods[id].status) && s.validationPeriods[id].nodeID == n)
  }

  lemma RegistryFromInvariant(s: State)
    requires RegistryOK(s.registeredValidators, s.validationPeriods)
    ensures RegistryIsExact(s)
  {
    forall n, id
      ensures (n in s.registeredValidators && s.registeredValidators[n] == id)
              <==> (id in s.validationPeriods && Live(s.validationPeriods[id].status)
                    && s.validationPeriods[id].nodeID == n)
    {
      assert NodeAt(s.registeredValidators, s.validationPeriods, n);
      assert RegisteredAt(s.registeredValidators, s.validationPeriods, id);
    }
  }

  // ----- All promises -----

  ghost predicate Promises(cfg: Settings, s: State)
    requires cfg.weightToValueFactor != 0
  {
    && StakePlusDelegations(cfg, s)
    && EndingNeverUnderflows(s)
    && TotalIsSumOfWeights(cfg, s)
    && Solvent(cfg, s)
    && ReturnedAtMostOnce(cfg, s)
    && HeldWhileLive(s)
    && PayoutsNeverFail(cfg, s)
    && RewardsAddUp(s)
    && ChurnLimited(cfg, s)
    && HistoriesComplete(s)
    && RegistryIsExact(s)
  }

  lemma PromisesFromInvariant(cfg: Settings, now: nat, s: State)
    requires ValidSettings(cfg) && Invariant(cfg, now, s)
    ensures Promises(cfg, s)
  {
    WeightsFromInvariant(cfg, now, s);
    EndingFromInvariant(cfg, now, s);
    ReturnsFromInvariant(cfg, now, s);
    HeldFromInvariant(cfg, now, s);
    PayoutsWhenSolvent(cfg, s);
    ChurnFromInvariant(cfg, now, s);
    HistoriesFromInvariant(cfg, now, s);
    RegistryFromInvariant(s);
  }

  /** A registration under an ID that was used before deposits a second stake under that ID. */
  lemma RepeatedDeposit(cfg: Settings, before: nat, s: State, tx: Transaction)
    requires ValidSettings(cfg) && Invariant(cfg, before, s)
    requires tx.call.CallInitializeValidatorRegistration? && Step(cfg, s, tx).Ok?
    requires NewID(cfg, tx.call) in s.validationPeriods
    ensures |GetOr(Step(cfg, s, tx).value.history.locked, ValidatorStake(NewID(cfg, tx.call)), [])| == 2
  {
    var id := NewID(cfg, tx.call);
    var c := tx.call;
    RegistrationEffect(cfg, tx.now, tx.caller, s, c.input, c.delegationFeeBips, c.minStakeDuration, c.stakeAmount,
                       c.received);
    assert IdentityAt(s.pendingRegisterValidationMessages, s.validationPeriods, s.posValidatorInfo.Keys, id);
    assert ValidatorStakeAt(cfg.weightToValueFactor, s.history.locked, s.history.unlocked, s.validationPeriods,
                            s.posValidatorInfo, id);
  }

  /** A successful registration keeps the promises if and only if its ID was not used before. */
  lemma RegistrationKeepsPromisesIff(cfg: Settings, before: nat, s: State, tx: Transaction)
    requires ValidSettings(cfg) && Invariant(cfg, before, s) && before <= tx.now
    requires tx.call.CallInitializeValidatorRegistration? && Step(cfg, s, tx).Ok?
    ensures Promises(cfg, Step(cfg, s, tx).value) <==> NewID(cfg, tx.call) !in s.validationPeriods
  {
    if NewID(cfg, tx.call) in s.validationPeriods {
      RepeatedDeposit(cfg, before, s, tx);
    } else {
      RegistrationStepKeeps(cfg, before, s, tx);
      PromisesFromInvariant(cfg, tx.now, Step(cfg, s, tx).value);
    }
  }

  /** Every run from deployment keeps every promise. */
  lemma EveryRun(cfg: Settings, txs: seq<Transaction>)
    requires ValidSettings(cfg) && Legal(cfg, txs)
    ensures Promises(cfg, Run(cfg, txs))
  {
    RunKeeps(cfg, txs);
    PromisesFromInvariant(cfg, Latest(txs), Run(cfg, txs));
  }
}
