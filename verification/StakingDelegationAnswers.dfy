/**
 What each call on delegations answers: exactly when it succeeds, and what it then changes, in terms of the call and the
 storage before it alone.
 */
module StakingDelegationAnswers {
  import opened Wrappers
  import opened Numeric
  import opened ChurnTracker
  import opened StakingTypes
  import opened StakingSpec
  import opened StakingInvariants
  import opened StakingDelegationCalls
  import opened StakingLifecycle
  import opened StakingProgress
  import opened StakingAnswers

  // ----- A delegation begins -----

  /** A weight may be delegated: to an active PoS validator, within its limit, and within the churn limit. */
  ghost predicate CanDelegate(cfg: Settings, now: nat, s: State, id: ValidationID, weight: nat) {
    var v := ValidatorOf(s, id);
    && IsPoS(s, id) && v.status == ValidatorStatus.Active && v.messageNonce < MAX_UINT64
    && v.weight + weight <= v.startingWeight * cfg.maximumStakeMultiplier <= MAX_UINT64
    && Accepts(cfg.churn, s.churnTracker, Change(now, v.weight + weight, v.weight))
  }

  lemma SetWeightSucceedsIff(cfg: Settings, now: Timestamp, s: State, id: ValidationID, weight: nat)
    ensures SetValidatorWeight(cfg, now, s, id, weight).Ok?
            <==> && ValidatorOf(s, id).messageNonce < MAX_UINT64
                 && Accepts(cfg.churn, s.churnTracker, Change(now, weight, ValidatorOf(s, id).weight))
  {
    AcceptedIff(cfg.churn, s.churnTracker, Change(now, weight, ValidatorOf(s, id).weight));
  }

  lemma WithinLimitIff(cfg: Settings, s: State, id: ValidationID, weight: nat)
    ensures var r, v := WeightWithDelegation(cfg, s, id, weight), ValidatorOf(s, id);
            && (r.Ok? <==> && IsPoS(s, id) && v.status == ValidatorStatus.Active
                           && v.weight + weight <= v.startingWeight * cfg.maximumStakeMultiplier <= MAX_UINT64)
            && (r.Ok? ==> r.value == v.weight + weight)
  {
  }

  lemma DelegateStages(cfg: Settings, now: Timestamp, caller: Account, s: State, id: ValidationID, received: Uint256,
                       limit: Result<nat, Error>)
    requires cfg.weightToValueFactor != 0
    requires limit == WeightWithDelegation(cfg, s, id, Worth(cfg.weightToValueFactor, received))
    ensures InitializeDelegatorRegistration(cfg, now, caller, s, id, received).Ok?
            <==> && 1 <= Worth(cfg.weightToValueFactor, received) <= MAX_UINT64 && limit.Ok?
                 && SetValidatorWeight(cfg, now, s, id, limit.value).Ok?
  {
  }

  lemma DelegableIff(cfg: Settings, now: Timestamp, caller: Account, s: State, id: ValidationID, received: Uint256,
                     weight: nat)
    requires cfg.weightToValueFactor != 0 && weight == Worth(cfg.weightToValueFactor, received)
    ensures InitializeDelegatorRegistration(cfg, now, caller, s, id, received).Ok?
            <==> 1 <= weight <= MAX_UINT64 && CanDelegate(cfg, now, s, id, weight)
  {
    WithinLimitIff(cfg, s, id, weight);
    SetWeightSucceedsIff(cfg, now, s, id, ValidatorOf(s, id).weight + weight);
    DelegateStages(cfg, now, caller, s, id, received, WeightWithDelegation(cfg, s, id, weight));
  }

  /** A delegation begins exactly with a deposit worth a weight of 64 bits that may be delegated. */
  lemma DelegateSucceedsIff(cfg: Settings, s: State, tx: Transaction)
    requires cfg.weightToValueFactor != 0 && tx.call.CallInitializeDelegatorRegistration?
    ensures var id, weight := tx.call.validationID, Worth(cfg.weightToValueFactor, tx.call.received);
            Step(cfg, s, tx).Ok? <==> 1 <= weight <= MAX_UINT64 && CanDelegate(cfg, tx.now, s, id, weight)
  {
    var id, weight := tx.call.validationID, Worth(cfg.weightToValueFactor, tx.call.received);
    DelegableIff(cfg, tx.now, tx.caller, s, id, tx.call.received, weight);
  }

  /** The validator weighs more, the P-Chain is told, and delegation and deposit are stored under the new nonce. */
  ghost predicate DelegationStored(cfg: Settings, now: nat, caller: Account, s: State, s': State, id: ValidationID,
                                   received: nat)
    requires cfg.weightToValueFactor != 0
  {
    && id in s.validationPeriods
    && var v, weight := s.validationPeriods[id], Worth(cfg.weightToValueFactor, received);
    var nonce, total := v.messageNonce + 1, v.weight + weight;
    var k := DelegationID(validationID := id, nonce := nonce);
    && received <= MAX_UINT256
    && s' == s.(
         validationPeriods := s.validationPeriods[id := v.(messageNonce := nonce, weight := total)],
         churnTracker := s'.churnTracker,
         delegatorStakes := s.delegatorStakes[
           k := Delegator(status := DelegatorStatus.PendingAdded, owner := caller, validationID := id,
                          weight := weight, startedAt := 0, startingNonce := nonce, endingNonce := 0)],
         balance := s.balance + received,
         history := s.history.(
           changes := s.history.changes + [Change(now := now, newWeight := total, oldWeight := v.weight)],
           weightMessages := Append(s.history.weightMessages, id, WeightMessage(nonce := nonce, weight := total)),
           locked := Append(s.history.locked, DelegatorStake(k), Deposit(from := caller, value := received))))
  }

  lemma DelegateStoresIt(cfg: Settings, now: Timestamp, caller: Account, s: State, id: ValidationID, received: Uint256)
    requires ValidSettings(cfg) && InitializeDelegatorRegistration(cfg, now, caller, s, id, received).Ok?
    ensures DelegationStored(cfg, now, caller, s,
                             InitializeDelegatorRegistration(cfg, now, caller, s, id, received).value.0, id, received)
  {
    DelegateEffect(cfg, now, caller, s, id, received);
  }

  lemma DelegateStores(cfg: Settings, s: State, tx: Transaction)
    requires ValidSettings(cfg) && tx.call.CallInitializeDelegatorRegistration? && Step(cfg, s, tx).Ok?
    ensures DelegationStored(cfg, tx.now, tx.caller, s, Step(cfg, s, tx).value, tx.call.validationID, tx.call.received)
  {
    DelegateStoresIt(cfg, tx.now, tx.caller, s, tx.call.validationID, tx.call.received);
  }

  // ----- The finishing step -----

  /** Who is paid a delegation's reward: the recipient that was chosen, or its owner. */
  function PaidFor(s: State, k: DelegationID): Address
    requires k in s.delegatorStakes
  {
    var chosen := GetOr(s.delegatorRewardRecipients, k, 0);
    if chosen == 0 then s.delegatorStakes[k].owner else chosen
  }

  /** The validator's part of a delegation's reward. */
  function FeeOn(s: State, id: ValidationID, rewards: nat): nat {
    rewards * (if IsPoS(s, id) then s.posValidatorInfo[id].delegationFeeBips else 0) / 10000
  }

  /**
   The delegation is gone. Its reward is split into the validator's fee, which can be redeemed, and the rest, which is
   minted for the recipient; its stake goes back to its owner.
   */
  ghost predicate Finished(cfg: Settings, s: State, s': State, k: DelegationID)
    requires k in s.delegatorStakes
  {
    var d, rewards := s.delegatorStakes[k], GetOr(s.redeemableDelegatorRewards, k, 0);
    var fee, to := FeeOn(s, d.validationID, rewards), PaidFor(s, k);
    var value := TokenValue(cfg.weightToValueFactor, d.weight);
    && fee <= rewards
    && s'.balance == AfterReturn(cfg, AfterMint(cfg, s.balance, to, rewards - fee), d.owner, value)
    && s' == s.(
         delegatorStakes := s.delegatorStakes - {k},
         delegatorRewardRecipients := s.delegatorRewardRecipients - {k},
         redeemableDelegatorRewards := s.redeemableDelegatorRewards - {k},
         redeemableValidatorRewards :=
           if rewards == 0 then s.redeemableValidatorRewards
           else s.redeemableValidatorRewards[
             d.validationID := GetOr(s.redeemableValidatorRewards, d.validationID, 0) + fee],
         balance := s'.balance,
         history := s.history.(
           minted := s.history.minted
                     + (if rewards == 0 then [] else [Payment(to := to, value := rewards - fee)]),
           unlocked := Append(s.history.unlocked, DelegatorStake(k), Payment(to := d.owner, value := value))))
  }

  /** The reward has been split. */
  ghost predicate RewardSplit(cfg: Settings, s: State, s': State, to: Address, k: DelegationID, id: ValidationID) {
    var rewards := GetOr(s.redeemableDelegatorRewards, k, 0);
    var fee := FeeOn(s, id, rewards);
    && fee <= rewards
    && s'.balance == AfterMint(cfg, s.balance, to, rewards - fee)
    && s' == s.(
         redeemableDelegatorRewards := s.redeemableDelegatorRewards - {k},
         redeemableValidatorRewards :=
           if rewards == 0 then s.redeemableValidatorRewards
           else s.redeemableValidatorRewards[id := GetOr(s.redeemableValidatorRewards, id, 0) + fee],
         balance := s'.balance,
         history := s.history.(
           minted := s.history.minted + (if rewards == 0 then [] else [Payment(to := to, value := rewards - fee)])))
  }

  lemma SplitChanges(cfg: Settings, s: State, to: Address, id: ValidationID, rewards: nat, s': State)
    requires SplitReward(cfg, s, to, id, rewards) == Ok(s')
    ensures var fee := FeeOn(s, id, rewards);
            && fee <= rewards
            && s'.balance == AfterMint(cfg, s.balance, to, rewards - fee)
            && s' == s.(
                 redeemableValidatorRewards :=
                   s.redeemableValidatorRewards[id := GetOr(s.redeemableValidatorRewards, id, 0) + fee],
                 balance := s'.balance,
                 history := s.history.(minted := s.history.minted + [Payment(to := to, value := rewards - fee)]))
  {
  }

  lemma WithdrawSplits(cfg: Settings, s: State, to: Address, k: DelegationID, id: ValidationID)
    requires WithdrawDelegationRewards(cfg, s, to, k, id).Ok?
    ensures RewardSplit(cfg, s, WithdrawDelegationRewards(cfg, s, to, k, id).value, to, k, id)
  {
    var rewards := GetOr(s.redeemableDelegatorRewards, k, 0);
    var s1 := s.(redeemableDelegatorRewards := s.redeemableDelegatorRewards - {k});
    if rewards == 0 {
      assert s.history.minted + [] == s.history.minted;
    } else {
      SplitChanges(cfg, s1, to, id, rewards, WithdrawDelegationRewards(cfg, s, to, k, id).value);
    }
  }

  lemma FinishReturns(cfg: Settings, now: Timestamp, s: State, k: DelegationID, s': State)
    requires k in s.delegatorStakes && FinishDelegation(cfg, now, s, k) == Ok(s')
    ensures var d := s.delegatorStakes[k];
            var r := WithdrawDelegationRewards(cfg, WithoutDelegation(s, k), FinalRecipient(s, k), k, d.validationID);
            var value := TokenValue(cfg.weightToValueFactor, d.weight);
            && r.Ok? && s'.balance == AfterReturn(cfg, r.value.balance, d.owner, value)
            && s' == r.value.(
                 balance := s'.balance,
                 history := r.value.history.(unlocked := Append(r.value.history.unlocked, DelegatorStake(k),
                                                                Payment(to := d.owner, value := value))))
  {
  }

  lemma FinishCombined(cfg: Settings, s: State, u: State, s': State, k: DelegationID)
    requires k in s.delegatorStakes
    requires RewardSplit(cfg, WithoutDelegation(s, k), u, PaidFor(s, k), k, s.delegatorStakes[k].validationID)
    requires var d := s.delegatorStakes[k];
             var value := TokenValue(cfg.weightToValueFactor, d.weight);
             && s'.balance == AfterReturn(cfg, u.balance, d.owner, value)
             && s' == u.(balance := s'.balance,
                         history := u.history.(unlocked := Append(u.history.unlocked, DelegatorStake(k),
                                                                  Payment(to := d.owner, value := value))))
    ensures Finished(cfg, s, s', k)
  {
  }

  lemma FinishChanges(cfg: Settings, now: Timestamp, s: State, k: DelegationID, s': State)
    requires k in s.delegatorStakes && FinishDelegation(cfg, now, s, k) == Ok(s')
    ensures Finished(cfg, s, s', k)
  {
    var s0, id := WithoutDelegation(s, k), s.delegatorStakes[k].validationID;
    FinishReturns(cfg, now, s, k, s');
    WithdrawSplits(cfg, s0, PaidFor(s, k), k, id);
    FinishCombined(cfg, s, WithdrawDelegationRewards(cfg, s0, PaidFor(s, k), k, id).value, s', k);
  }

  /** The finishing step may be taken: a churn period has passed, and the reward arithmetic fits. */
  ghost predicate CanFinish(cfg: Settings, now: nat, s: State, k: DelegationID)
    requires k in s.delegatorStakes
  {
    now >= s.delegatorStakes[k].startedAt + cfg.churn.periodSeconds && RewardFits(s, k)
  }

  // ----- A delegation becomes active -----

  /**
   A delegation becomes active exactly by an acknowledgement of a weight update between its own and the last one. If its
   validator has completed, it is finished instead, without any acknowledgement.
   */
  lemma CompleteDelegationAnswers(cfg: Settings, before: nat, s: State, tx: Transaction)
    requires cfg.weightToValueFactor != 0 && Invariant(cfg, before, s) && tx.call.CallCompleteDelegatorRegistration?
    ensures var k, proof, r := tx.call.delegationID, tx.call.weightProof, Step(cfg, s, tx);
            if k !in s.delegatorStakes then r.Revert?
            else
              var d := s.delegatorStakes[k];
              var v := ValidatorOf(s, d.validationID);
              if v.status == ValidatorStatus.Completed then
                && (r.Ok? <==> d.status == DelegatorStatus.PendingAdded && CanFinish(cfg, tx.now, s, k))
                && (r.Ok? ==> Finished(cfg, s, r.value, k))
              else
                && (r.Ok? <==> && d.status == DelegatorStatus.PendingAdded
                               && proof.Some? && proof.value.validationID == d.validationID
                               && d.startingNonce <= proof.value.nonce <= v.messageNonce)
                && (r.Ok? ==> r.value == s.(delegatorStakes := s.delegatorStakes[
                                              k := d.(status := DelegatorStatus.Active, startedAt := tx.now)]))
  {
    var k := tx.call.delegationID;
    if k in s.delegatorStakes {
      FinishSucceedsIff(cfg, before, tx.now, s, k);
      if FinishDelegation(cfg, tx.now, s, k).Ok? {
        FinishChanges(cfg, tx.now, s, k, FinishDelegation(cfg, tx.now, s, k).value);
      }
    }
  }

  // ----- A delegation ends -----

  /** When a delegation stops earning: now, while its validator is active, and otherwise when the validator ended. */
  function EarningEnd(now: nat, s: State, d: Delegator): nat {
    var v := ValidatorOf(s, d.validationID);
    if v.status == ValidatorStatus.Active then now else v.endedAt
  }

  /** What a delegation has earned on its own weight over its own time; nothing if it began too late. */
  function Earned(cfg: Settings, end: nat, v: Validator, d: Delegator, uptime: nat): nat {
    if end <= d.startedAt then 0 else RewardFor(cfg, d.weight, v.startedAt, d.startedAt, end, uptime)
  }

  ghost predicate CanEarn(cfg: Settings, end: nat, v: Validator, d: Delegator, uptime: nat) {
    end > d.startedAt ==> Rewardable(cfg, d.weight, v.startedAt, d.startedAt, end, uptime)
  }

  function UptimeOf(s: State, id: ValidationID): nat {
    if IsPoS(s, id) then s.posValidatorInfo[id].uptimeSeconds else 0
  }

  /** A reward was kept for delegation `k`, for the recipient named or its owner; nothing if there is nothing to earn. */
  ghost predicate Rewarded(s: State, s': State, k: DelegationID, end: nat, reward: nat, recipient: Address)
    requires k in s.delegatorStakes
  {
    if end <= s.delegatorStakes[k].startedAt then s' == s
    else
      s' == s.(redeemableDelegatorRewards := s.redeemableDelegatorRewards[k := reward],
               delegatorRewardRecipients := s.delegatorRewardRecipients[
                 k := if recipient == 0 then s.delegatorStakes[k].owner else recipient],
               history := s.history.(awarded := s.history.awarded + reward))
  }

  lemma AwardStages(cfg: Settings, now: Timestamp, s: State, k: DelegationID, recipient: Address,
                    calculated: Result<nat, Error>)
    requires k in s.delegatorStakes
    requires StatusOf(s, s.delegatorStakes[k].validationID) in
               {ValidatorStatus.Active, ValidatorStatus.PendingRemoved, ValidatorStatus.Completed}
    requires var d := s.delegatorStakes[k];
             var v := ValidatorOf(s, d.validationID);
             calculated == CalculateReward(cfg, d.weight, v.startedAt, d.startedAt, EarningEnd(now, s, d),
                                           UptimeOf(s, d.validationID))
    ensures var r, end := AwardDelegator(cfg, now, s, k, recipient), EarningEnd(now, s, s.delegatorStakes[k]);
            if end <= s.delegatorStakes[k].startedAt then r == Ok((s, 0))
            else
              && (r.Ok? <==> calculated.Ok?)
              && (r.Ok? ==> r.value.1 == calculated.value && Rewarded(s, r.value.0, k, end, calculated.value, recipient))
  {
  }

  lemma AwardDelegatorAnswers(cfg: Settings, now: Timestamp, s: State, k: DelegationID, recipient: Address)
    requires k in s.delegatorStakes
    requires StatusOf(s, s.delegatorStakes[k].validationID) in
               {ValidatorStatus.Active, ValidatorStatus.PendingRemoved, ValidatorStatus.Completed}
    ensures var r, d := AwardDelegator(cfg, now, s, k, recipient), s.delegatorStakes[k];
            var v, end, uptime := ValidatorOf(s, d.validationID), EarningEnd(now, s, d), UptimeOf(s, d.validationID);
            && (r.Ok? <==> CanEarn(cfg, end, v, d, uptime))
            && (r.Ok? ==> && r.value.1 == Earned(cfg, end, v, d, uptime)
                          && Rewarded(s, r.value.0, k, end, r.value.1, recipient))
  {
    var d := s.delegatorStakes[k];
    var v, end, uptime := ValidatorOf(s, d.validationID), EarningEnd(now, s, d), UptimeOf(s, d.validationID);
    var calculated := CalculateReward(cfg, d.weight, v.startedAt, d.startedAt, end, uptime);
    RewardAnswers(cfg, d.weight, v.startedAt, d.startedAt, end, uptime);
    AwardStages(cfg, now, s, k, recipient, calculated);
  }

  lemma AuthorizedIff(now: Timestamp, caller: Account, s: State, d: Delegator)
    ensures AuthorizeEndDelegation(now, caller, s, d).Ok? <==> MayEnd(s, now, caller, d)
  {
  }

  /** Ending takes the weight off the validator, tells the P-Chain, and marks the delegation as being removed. */
  ghost predicate Undelegated(now: nat, s: State, s': State, k: DelegationID)
    requires k in s.delegatorStakes && s.delegatorStakes[k].validationID in s.validationPeriods
  {
    var d := s.delegatorStakes[k];
    var v := s.validationPeriods[d.validationID];
    var nonce, rest := v.messageNonce + 1, v.weight - d.weight;
    && rest >= 0
    && s' == s.(
         validationPeriods := s.validationPeriods[d.validationID := v.(messageNonce := nonce, weight := rest)],
         churnTracker := s'.churnTracker,
         delegatorStakes := s.delegatorStakes[
           k := d.(status := DelegatorStatus.PendingRemoved, endingNonce := nonce)],
         history := s.history.(
           changes := s.history.changes + [Change(now := now, newWeight := rest, oldWeight := v.weight)],
           weightMessages := Append(s.history.weightMessages, d.validationID,
                                    WeightMessage(nonce := nonce, weight := rest))))
  }

  lemma UndelegateStages(cfg: Settings, now: Timestamp, s: State, k: DelegationID)
    requires k in s.delegatorStakes && s.delegatorStakes[k].validationID in s.validationPeriods
    ensures var d := s.delegatorStakes[k];
            var v := s.validationPeriods[d.validationID];
            Undelegate(cfg, now, s, k).Ok? <==>
              && d.weight <= v.weight <= d.weight + MAX_UINT64
              && SetValidatorWeight(cfg, now, s, d.validationID, v.weight - d.weight).Ok?
  {
  }

  lemma UndelegateAnswers(cfg: Settings, now: Timestamp, s: State, k: DelegationID)
    requires k in s.delegatorStakes && s.delegatorStakes[k].validationID in s.validationPeriods
    ensures var r, d := Undelegate(cfg, now, s, k), s.delegatorStakes[k];
            var v := s.validationPeriods[d.validationID];
            && (r.Ok? <==> && v.messageNonce < MAX_UINT64 && d.weight <= v.weight
                           && Accepts(cfg.churn, s.churnTracker, Change(now, v.weight - d.weight, v.weight)))
            && (r.Ok? ==> Undelegated(now, s, r.value, k))
  {
    var d := s.delegatorStakes[k];
    var v := s.validationPeriods[d.validationID];
    UndelegateStages(cfg, now, s, k);
    if d.weight <= v.weight {
      SetWeightSucceedsIff(cfg, now, s, d.validationID, v.weight - d.weight);
    }
    if Undelegate(cfg, now, s, k).Ok? {
      UndelegateEffect(cfg, now, s, k);
    }
  }

  /**
   While the validator is active, a delegation ends exactly after the minimum duration, with the uptime proof if one is
   asked for, within the churn limit, and with a reward unless it is forced.
   */
  ghost predicate CanEndActive(cfg: Settings, now: nat, s: State, k: DelegationID, asked: bool,
                               proof: Option<UptimeProof>, force: bool)
    requires k in s.delegatorStakes && s.delegatorStakes[k].validationID in s.validationPeriods
  {
    var d := s.delegatorStakes[k];
    var id, v := d.validationID, s.validationPeriods[d.validationID];
    && now >= d.startedAt + cfg.minimumStakeDuration
    && IsPoS(s, id) && ProofFor(id, asked, proof)
    && v.messageNonce < MAX_UINT64 && d.weight <= v.weight
    && Accepts(cfg.churn, s.churnTracker, Change(now, v.weight - d.weight, v.weight))
    && CanEarn(cfg, now, v, d, UptimeAfter(s, id, asked, proof))
    && (force || Earned(cfg, now, v, d, UptimeAfter(s, id, asked, proof)) > 0)
  }

  /** The weight update, the uptime and the reward. */
  ghost predicate EndedActive(cfg: Settings, now: nat, s: State, s': State, k: DelegationID, asked: bool,
                              proof: Option<UptimeProof>, recipient: Address)
    requires k in s.delegatorStakes && s.delegatorStakes[k].validationID in s.validationPeriods
  {
    var d := s.delegatorStakes[k];
    var id, v := d.validationID, s.validationPeriods[d.validationID];
    && IsPoS(s, id) && ProofFor(id, asked, proof)
    && var uptime := UptimeAfter(s, id, asked, proof);
    exists u ::
      && Undelegated(now, WithUptime(s, id, uptime), u, k)
      && Rewarded(u, s', k, now, Earned(cfg, now, v, d, uptime), recipient)
  }

  /** The weight update and then the award. */
  function UndelegateThenAward(cfg: Settings, now: Timestamp, s: State, k: DelegationID, recipient: Address)
    : Result<(State, nat), Error>
    requires k in s.delegatorStakes
  {
    var s1 :- Undelegate(cfg, now, s, k);
    AwardDelegator(cfg, now, s1, k, recipient)
  }

  lemma EndActiveStages(cfg: Settings, now: Timestamp, s: State, k: DelegationID, asked: bool,
                        proof: Option<UptimeProof>, recipient: Address, force: bool, s1: State)
    requires k in s.delegatorStakes && k in s1.delegatorStakes
    requires MaybeUpdateUptimeIs(s, s.delegatorStakes[k].validationID, asked, proof, s1)
    ensures var r, d := EndWhileActive(cfg, now, s, k, asked, proof, recipient, force), s.delegatorStakes[k];
            var award := UndelegateThenAward(cfg, now, s1, k, recipient);
            && (r.Ok? <==> && now >= d.startedAt + cfg.minimumStakeDuration && IsPoS(s, d.validationID)
                           && ProofFor(d.validationID, asked, proof)
                           && award.Ok? && (force || award.value.1 > 0))
            && (r.Ok? ==> r.value == award.value.0)
  {
  }

  /** The state after the uptime update, if it succeeds. */
  ghost predicate MaybeUpdateUptimeIs(s: State, id: ValidationID, asked: bool, proof: Option<UptimeProof>, s1: State) {
    IsPoS(s, id) ==>
      && (MaybeUpdateUptime(s, id, asked, proof).Ok? <==> ProofFor(id, asked, proof))
      && (ProofFor(id, asked, proof) ==> MaybeUpdateUptime(s, id, asked, proof) == Ok(s1))
  }

  /** When this succeeds for an active validator, and what it then changes. */
  ghost predicate AwardedThen(cfg: Settings, now: nat, s: State, k: DelegationID, recipient: Address,
                              r: Result<(State, nat), Error>)
    requires k in s.delegatorStakes && s.delegatorStakes[k].validationID in s.validationPeriods
  {
    var d := s.delegatorStakes[k];
    var v, uptime := s.validationPeriods[d.validationID], UptimeOf(s, d.validationID);
    && (r.Ok? <==> && v.messageNonce < MAX_UINT64 && d.weight <= v.weight
                   && Accepts(cfg.churn, s.churnTracker, Change(now, v.weight - d.weight, v.weight))
                   && CanEarn(cfg, now, v, d, uptime))
    && (r.Ok? ==> && r.value.1 == Earned(cfg, now, v, d, uptime)
                  && exists u :: Undelegated(now, s, u, k) && Rewarded(u, r.value.0, k, now, r.value.1, recipient))
  }

  lemma ThenAwardAnswers(cfg: Settings, now: Timestamp, s: State, k: DelegationID, recipient: Address)
    requires k in s.delegatorStakes && s.delegatorStakes[k].validationID in s.validationPeriods
    requires s.validationPeriods[s.delegatorStakes[k].validationID].status == ValidatorStatus.Active
    ensures AwardedThen(cfg, now, s, k, recipient, UndelegateThenAward(cfg, now, s, k, recipient))
  {
    UndelegateAnswers(cfg, now, s, k);
    if Undelegate(cfg, now, s, k).Ok? {
      var u := Undelegate(cfg, now, s, k).value;
      EarnsTheSame(cfg, now, s, u, k);
      AwardDelegatorAnswers(cfg, now, u, k, recipient);
    }
  }

  lemma EndActiveCombined(cfg: Settings, now: Timestamp, s: State, k: DelegationID, asked: bool,
                          proof: Option<UptimeProof>, recipient: Address, force: bool, s1: State,
                          award: Result<(State, nat), Error>, r: Result<State, Error>)
    requires k in s.delegatorStakes && s.delegatorStakes[k].validationID in s.validationPeriods
    requires var id := s.delegatorStakes[k].validationID;
             s1 == if IsPoS(s, id) && ProofFor(id, asked, proof) then WithUptime(s, id, UptimeAfter(s, id, asked, proof))
                      else s
    requires var d := s.delegatorStakes[k];
             && (r.Ok? <==> && now >= d.startedAt + cfg.minimumStakeDuration && IsPoS(s, d.validationID)
                            && ProofFor(d.validationID, asked, proof)
                            && award.Ok? && (force || award.value.1 > 0))
             && (r.Ok? ==> r.value == award.value.0)
    requires AwardedThen(cfg, now, s1, k, recipient, award)
    ensures r.Ok? <==> CanEndActive(cfg, now, s, k, asked, proof, force)
    ensures r.Ok? ==> EndedActive(cfg, now, s, r.value, k, asked, proof, recipient)
  {
  }

  lemma EndActiveAnswers(cfg: Settings, now: Timestamp, s: State, k: DelegationID, asked: bool,
                         proof: Option<UptimeProof>, recipient: Address, force: bool, r: Result<State, Error>)
    requires k in s.delegatorStakes && s.delegatorStakes[k].validationID in s.validationPeriods
    requires s.validationPeriods[s.delegatorStakes[k].validationID].status == ValidatorStatus.Active
    requires r == EndWhileActive(cfg, now, s, k, asked, proof, recipient, force)
    ensures r.Ok? <==> CanEndActive(cfg, now, s, k, asked, proof, force)
    ensures r.Ok? ==> EndedActive(cfg, now, s, r.value, k, asked, proof, recipient)
  {
    var id := s.delegatorStakes[k].validationID;
    var s1 := if IsPoS(s, id) && ProofFor(id, asked, proof) then WithUptime(s, id, UptimeAfter(s, id, asked, proof)) else s;
    if IsPoS(s, id) {
      UptimeAnswers(s, id, asked, proof);
    }
    EndActiveStages(cfg, now, s, k, asked, proof, recipient, force, s1);
    ThenAwardAnswers(cfg, now, s1, k, recipient);
    EndActiveCombined(cfg, now, s, k, asked, proof, recipient, force, s1,
                      UndelegateThenAward(cfg, now, s1, k, recipient), r);
  }

  /** The weight update changes nothing that a reward depends on. */
  lemma EarnsTheSame(cfg: Settings, now: nat, s: State, u: State, k: DelegationID)
    requires k in s.delegatorStakes && s.delegatorStakes[k].validationID in s.validationPeriods
    requires StatusOf(s, s.delegatorStakes[k].validationID) == ValidatorStatus.Active && Undelegated(now, s, u, k)
    ensures k in u.delegatorStakes
    ensures var d, d' := s.delegatorStakes[k], u.delegatorStakes[k];
            var v, v' := ValidatorOf(s, d.validationID), ValidatorOf(u, d'.validationID);
            && d'.validationID == d.validationID && d'.startedAt == d.startedAt
            && EarningEnd(now, u, d') == now && UptimeOf(u, d'.validationID) == UptimeOf(s, d.validationID)
            && forall end, uptime :: (CanEarn(cfg, end, v', d', uptime) <==> CanEarn(cfg, end, v, d, uptime))
                                     && Earned(cfg, end, v', d', uptime) == Earned(cfg, end, v, d, uptime)
  {
  }

  /** Whether a delegation of a completed validator may end: with its reward, and finished at once. */
  ghost predicate CanEndCompleted(cfg: Settings, now: nat, s: State, k: DelegationID)
    requires k in s.delegatorStakes
  {
    var d := s.delegatorStakes[k];
    var v, uptime := ValidatorOf(s, d.validationID), UptimeOf(s, d.validationID);
    && CanEarn(cfg, v.endedAt, v, d, uptime)
    && now >= d.startedAt + cfg.churn.periodSeconds
    && SplitFits(s, k, Earned(cfg, v.endedAt, v, d, uptime))
  }

  /** The arithmetic of splitting a reward of this size fits in 256 bits. */
  ghost predicate SplitFits(s: State, k: DelegationID, rewards: nat)
    requires k in s.delegatorStakes
  {
    var id := s.delegatorStakes[k].validationID;
    rewards == 0 ||
    (&& rewards * (if IsPoS(s, id) then s.posValidatorInfo[id].delegationFeeBips else 0) <= MAX_UINT256
     && GetOr(s.redeemableValidatorRewards, id, 0) + FeeOn(s, id, rewards) <= MAX_UINT256
     && 0 <= rewards - FeeOn(s, id, rewards) <= MAX_UINT256)
  }

  /** The award and then the finishing step. */
  ghost predicate EndedCompleted(cfg: Settings, s: State, s': State, k: DelegationID, recipient: Address)
    requires k in s.delegatorStakes
  {
    var d := s.delegatorStakes[k];
    var v := ValidatorOf(s, d.validationID);
    exists u ::
      && Rewarded(s, u, k, v.endedAt, Earned(cfg, v.endedAt, v, d, UptimeOf(s, d.validationID)), recipient)
      && k in u.delegatorStakes && Finished(cfg, u, s', k)
  }

  lemma EndCompletedAnswers(cfg: Settings, before: nat, now: Timestamp, s: State, k: DelegationID, recipient: Address,
                            award: Result<(State, nat), Error>)
    requires cfg.weightToValueFactor != 0 && Invariant(cfg, before, s) && k in s.delegatorStakes
    requires s.delegatorStakes[k].status == DelegatorStatus.Active
    requires StatusOf(s, s.delegatorStakes[k].validationID) == ValidatorStatus.Completed
    requires award == AwardDelegator(cfg, now, s, k, recipient)
    ensures (award.Ok? && FinishDelegation(cfg, now, award.value.0, k).Ok?) <==> CanEndCompleted(cfg, now, s, k)
    ensures award.Ok? && FinishDelegation(cfg, now, award.value.0, k).Ok? ==>
              EndedCompleted(cfg, s, FinishDelegation(cfg, now, award.value.0, k).value, k, recipient)
  {
    assert k !in s.redeemableDelegatorRewards by {
      assert RewardAt(s.redeemableDelegatorRewards, s.delegatorStakes, k);
    }
    AwardDelegatorAnswers(cfg, now, s, k, recipient);
    if award.Ok? {
      var u := award.value.0;
      AwardDelegatorKeeps(cfg, before, now, s, k, recipient);
      FinishSucceedsIff(cfg, before, now, u, k);
      SplitAfterAward(cfg, s, u, k, award.value.1, recipient);
      if FinishDelegation(cfg, now, u, k).Ok? {
        FinishChanges(cfg, now, u, k, FinishDelegation(cfg, now, u, k).value);
      }
    }
  }

  lemma SplitAfterAward(cfg: Settings, s: State, u: State, k: DelegationID, reward: nat, recipient: Address)
    requires k in s.delegatorStakes && k !in s.redeemableDelegatorRewards && k in u.delegatorStakes
    requires var d := s.delegatorStakes[k];
             var v := ValidatorOf(s, d.validationID);
             && reward == Earned(cfg, v.endedAt, v, d, UptimeOf(s, d.validationID))
             && Rewarded(s, u, k, v.endedAt, reward, recipient)
    ensures RewardFits(u, k) <==> SplitFits(s, k, reward)
    ensures u.delegatorStakes == s.delegatorStakes
  {
  }

  lemma EndStages(
    cfg: Settings, now: Timestamp, caller: Account, s: State,
    k: DelegationID, asked: bool, proof: Option<UptimeProof>, recipient: Address, force: bool,
    award: Result<(State, nat), Error>)
    requires k in s.delegatorStakes && award == AwardDelegator(cfg, now, s, k, recipient)
    ensures var r := InitializeEndDelegation(cfg, now, caller, s, k, asked, proof, recipient, force);
            var d, status := s.delegatorStakes[k], StatusOf(s, s.delegatorStakes[k].validationID);
            if d.status != DelegatorStatus.Active || AuthorizeEndDelegation(now, caller, s, d).Revert? then r.Revert?
            else if status == ValidatorStatus.Active then
              r == EndWhileActive(cfg, now, s, k, asked, proof, recipient, force)
            else if status == ValidatorStatus.Completed then
              if award.Ok? then r == FinishDelegation(cfg, now, award.value.0, k) else r.Revert?
            else r.Revert?
  {
  }

  /**
   A delegation ends exactly if it is active, by its owner or, later, its validator's owner, while its validator is
   active or has completed. While it is active this takes the weight off; once it has completed it finishes the
   delegation at once.
   */
  lemma EndDelegationAnswers(cfg: Settings, before: nat, s: State, tx: Transaction)
    requires cfg.weightToValueFactor != 0 && Invariant(cfg, before, s) && tx.call.CallInitializeEndDelegation?
    ensures var c, k, r := tx.call, tx.call.delegationID, Step(cfg, s, tx);
            if k !in s.delegatorStakes then r.Revert?
            else
              var d := s.delegatorStakes[k];
              var may := d.status == DelegatorStatus.Active && MayEnd(s, tx.now, tx.caller, d);
              && d.validationID in s.validationPeriods
              && match StatusOf(s, d.validationID) {
                case Active =>
                  && (r.Ok? <==> may && CanEndActive(cfg, tx.now, s, k, c.includeUptimeProof, c.uptimeProof, c.force))
                  && (r.Ok? ==> EndedActive(cfg, tx.now, s, r.value, k, c.includeUptimeProof, c.uptimeProof, c.recipient))
                case Completed =>
                  && (r.Ok? <==> may && CanEndCompleted(cfg, tx.now, s, k))
                  && (r.Ok? ==> EndedCompleted(cfg, s, r.value, k, c.recipient))
                case _ => r.Revert?
              }
  {
    var c, k, now := tx.call, tx.call.delegationID, tx.now;
    if k in s.delegatorStakes {
      var d := s.delegatorStakes[k];
      var award := AwardDelegator(cfg, now, s, k, c.recipient);
      assert DelegationAt(s.validationPeriods, s.posValidatorInfo.Keys, s.delegatorStakes, k);
      EndStages(cfg, now, tx.caller, s, k, c.includeUptimeProof, c.uptimeProof, c.recipient, c.force, award);
      AuthorizedIff(now, tx.caller, s, d);
      if StatusOf(s, d.validationID) == ValidatorStatus.Active {
        EndActiveAnswers(cfg, now, s, k, c.includeUptimeProof, c.uptimeProof, c.recipient, c.force,
                         EndWhileActive(cfg, now, s, k, c.includeUptimeProof, c.uptimeProof, c.recipient, c.force));
      } else if StatusOf(s, d.validationID) == ValidatorStatus.Completed && d.status == DelegatorStatus.Active {
        EndCompletedAnswers(cfg, before, now, s, k, c.recipient, award);
      }
    }
  }

  lemma AwardedActive(cfg: Settings, now: nat, s: State, s': State, k: DelegationID, asked: bool,
                      proof: Option<UptimeProof>, recipient: Address)
    requires k in s.delegatorStakes && s.delegatorStakes[k].validationID in s.validationPeriods
    requires EndedActive(cfg, now, s, s', k, asked, proof, recipient)
    ensures var d := s.delegatorStakes[k];
            s'.history.awarded == s.history.awarded + Earned(cfg, now, ValidatorOf(s, d.validationID), d,
                                                             UptimeOf(s', d.validationID))
  {
  }

  lemma AwardedCompleted(cfg: Settings, s: State, s': State, k: DelegationID, recipient: Address)
    requires k in s.delegatorStakes && EndedCompleted(cfg, s, s', k, recipient)
    ensures var d := s.delegatorStakes[k];
            var v := ValidatorOf(s, d.validationID);
            s'.history.awarded == s.history.awarded + Earned(cfg, v.endedAt, v, d, UptimeOf(s', d.validationID))
  {
  }

  /**
   What ending a delegation awards: what the calculator answers for its own weight and its own time, with the uptime on
   record after the call, and nothing if it began too late.
   */
  lemma AwardedOnEnd(cfg: Settings, before: nat, s: State, tx: Transaction)
    requires cfg.weightToValueFactor != 0 && Invariant(cfg, before, s) && tx.call.CallInitializeEndDelegation?
    requires Step(cfg, s, tx).Ok?
    ensures tx.call.delegationID in s.delegatorStakes
    ensures var d, s' := s.delegatorStakes[tx.call.delegationID], Step(cfg, s, tx).value;
            var v, uptime := ValidatorOf(s, d.validationID), UptimeOf(s', d.validationID);
            var end := if v.status == ValidatorStatus.Active then tx.now else v.endedAt;
            if end <= d.startedAt then s'.history.awarded == s.history.awarded
            else
              && Rewardable(cfg, d.weight, v.startedAt, d.startedAt, end, uptime)
              && s'.history.awarded
                 == s.history.awarded + RewardFor(cfg, d.weight, v.startedAt, d.startedAt, end, uptime)
  {
    var c, k, s' := tx.call, tx.call.delegationID, Step(cfg, s, tx).value;
    EndDelegationAnswers(cfg, before, s, tx);
    var d := s.delegatorStakes[k];
    if StatusOf(s, d.validationID) == ValidatorStatus.Active {
      AwardedActive(cfg, tx.now, s, s', k, c.includeUptimeProof, c.uptimeProof, c.recipient);
      UptimeStays(cfg, tx.now, s, s', k, c.includeUptimeProof, c.uptimeProof, c.recipient);
    } else {
      AwardedCompleted(cfg, s, s', k, c.recipient);
      UptimeStaysCompleted(cfg, s, s', k, c.recipient);
    }
  }

  /** The uptime on record after the call. */
  lemma UptimeStays(cfg: Settings, now: nat, s: State, s': State, k: DelegationID, asked: bool,
                    proof: Option<UptimeProof>, recipient: Address)
    requires k in s.delegatorStakes && s.delegatorStakes[k].validationID in s.validationPeriods
    requires EndedActive(cfg, now, s, s', k, asked, proof, recipient)
    ensures var id := s.delegatorStakes[k].validationID;
            && IsPoS(s, id) && ProofFor(id, asked, proof) && UptimeOf(s', id) == UptimeAfter(s, id, asked, proof)
  {
  }

  lemma UptimeStaysCompleted(cfg: Settings, s: State, s': State, k: DelegationID, recipient: Address)
    requires k in s.delegatorStakes && EndedCompleted(cfg, s, s', k, recipient)
    ensures UptimeOf(s', s.delegatorStakes[k].validationID) == UptimeOf(s, s.delegatorStakes[k].validationID)
  {
  }

  // ----- The end of a delegation is acknowledged -----

  /**
   The end of a delegation is completed exactly by an acknowledgement of at least its ending nonce, or without any once
   its validator has completed, when the finishing step may be taken.
   */
  lemma CompleteEndAnswers(cfg: Settings, before: nat, s: State, tx: Transaction)
    requires cfg.weightToValueFactor != 0 && Invariant(cfg, before, s) && tx.call.CallCompleteEndDelegation?
    ensures var k, proof, r := tx.call.delegationID, tx.call.weightProof, Step(cfg, s, tx);
            if k !in s.delegatorStakes then r.Revert?
            else
              var d := s.delegatorStakes[k];
              && (r.Ok? <==>
                    && d.status == DelegatorStatus.PendingRemoved && CanFinish(cfg, tx.now, s, k)
                    && (StatusOf(s, d.validationID) == ValidatorStatus.Completed
                        || Acknowledged(proof, d.validationID, d.endingNonce)))
              && (r.Ok? ==> Finished(cfg, s, r.value, k))
  {
    var k := tx.call.delegationID;
    if k in s.delegatorStakes {
      FinishSucceedsIff(cfg, before, tx.now, s, k);
      if FinishDelegation(cfg, tx.now, s, k).Ok? {
        FinishChanges(cfg, tx.now, s, k, FinishDelegation(cfg, tx.now, s, k).value);
      }
    }
  }

  // ----- Resends and recipients -----

  /** The validator's weight is told the P-Chain again exactly for a delegation that waits for its acknowledgement. */
  lemma ResendAnswers(cfg: Settings, before: nat, s: State, tx: Transaction)
    requires cfg.weightToValueFactor != 0 && Invariant(cfg, before, s) && tx.call.CallResendUpdateDelegation?
    ensures var k, r := tx.call.delegationID, Step(cfg, s, tx);
            if k !in s.delegatorStakes then r.Revert?
            else
              var d := s.delegatorStakes[k];
              var v := ValidatorOf(s, d.validationID);
              && (r.Ok? <==> d.status == DelegatorStatus.PendingAdded || d.status == DelegatorStatus.PendingRemoved)
              && (r.Ok? ==>
                    r.value == s.(history := s.history.(weightMessages := Append(
                      s.history.weightMessages, d.validationID,
                      WeightMessage(nonce := v.messageNonce, weight := v.weight)))))
  {
    assert DelegationAt(s.validationPeriods, s.posValidatorInfo.Keys, s.delegatorStakes, tx.call.delegationID);
  }

  /** Exactly the owner of a delegation can choose who is paid its reward, and not nobody. */
  lemma ChooseDelegatorRecipientAnswers(cfg: Settings, s: State, tx: Transaction)
    requires cfg.weightToValueFactor != 0 && tx.call.CallChangeDelegatorRewardRecipient?
    ensures var k, to := tx.call.delegationID, tx.call.recipient;
            && (Step(cfg, s, tx).Ok? <==>
                  to != 0 && k in s.delegatorStakes && s.delegatorStakes[k].owner == tx.caller)
            && (Step(cfg, s, tx).Ok? ==>
                  Step(cfg, s, tx).value == s.(delegatorRewardRecipients := s.delegatorRewardRecipients[k := to]))
  {
  }
}
