/**
 Rewards over whole runs: where the rewards in the ledger come from, why the example calculator never stands in the way
 of returning a stake, and how one that is too generous locks a stake for ever.
 */
module StakingRewards {
  import opened Wrappers
  import opened Numeric
  import opened MapSum
  import opened StakingTypes
  import opened StakingSpec
  import opened StakingInvariants
  import opened StakingValidatorCalls
  import opened StakingDelegationCalls
  import opened StakingFrames
  import opened StakingRuns
  import opened StakingLifecycle
  import opened StakingTerms
  import opened StakingProgress
  import opened StakingAnswers
  import opened StakingDelegationAnswers
  import opened RewardCalculator

  // ----- Where rewards come from -----

  /** An answer of the reward calculator. */
  ghost predicate Calculated(cfg: Settings, reward: int) {
    exists args :: cfg.rewardCalculator(args) == Some(reward)
  }

  /** What a step does to the reward kept for delegation `k`: it stays, it is calculated, or it goes with the delegation. */
  ghost predicate RewardMove(cfg: Settings, s: State, tx: Transaction, s': State, k: DelegationID) {
    var before, after := s.redeemableDelegatorRewards, s'.redeemableDelegatorRewards;
    if k in after then
      || (k in before && after[k] == before[k])
      || (&& tx.call.CallInitializeEndDelegation? && tx.call.delegationID == k
          && k in s.delegatorStakes && s.delegatorStakes[k].status == DelegatorStatus.Active
          && Calculated(cfg, after[k]))
    else k in before ==> k in s.delegatorStakes && k !in s'.delegatorStakes
  }

  /** A step awards nothing, or one answer of the calculator. */
  ghost predicate AwardMove(cfg: Settings, s: State, s': State) {
    s'.history.awarded == s.history.awarded || Calculated(cfg, s'.history.awarded - s.history.awarded)
  }

  ghost predicate LedgerMove(cfg: Settings, s: State, tx: Transaction, s': State) {
    AwardMove(cfg, s, s') && forall k :: RewardMove(cfg, s, tx, s', k)
  }

  lemma CalculatedReward(cfg: Settings, weight: nat, validatorStart: nat, start: nat, end: nat, uptime: nat)
    requires CalculateReward(cfg, weight, validatorStart, start, end, uptime).Ok?
    ensures Calculated(cfg, CalculateReward(cfg, weight, validatorStart, start, end, uptime).value)
  {
    var stake := WeightToValue(cfg, weight).value;
    assert cfg.rewardCalculator(RewardArgs(stake, validatorStart, start, end, uptime)).Some?;
  }

  lemma ValidatorAwardMove(cfg: Settings, s: State, id: ValidationID, recipient: Address)
    requires IsPoS(s, id) && AwardValidator(cfg, s, id, recipient).Ok?
    ensures var s' := AwardValidator(cfg, s, id, recipient).value.0;
            AwardMove(cfg, s, s') && s'.redeemableDelegatorRewards == s.redeemableDelegatorRewards
  {
    var v := ValidatorOf(s, id);
    CalculatedReward(cfg, v.startingWeight, v.startedAt, v.startedAt, v.endedAt, s.posValidatorInfo[id].uptimeSeconds);
  }

  lemma DelegatorAwardMove(cfg: Settings, now: Timestamp, s: State, k: DelegationID, recipient: Address)
    requires k in s.delegatorStakes && AwardDelegator(cfg, now, s, k, recipient).Ok?
    ensures var (s', reward) := AwardDelegator(cfg, now, s, k, recipient).value;
            && s'.delegatorStakes == s.delegatorStakes
            && ((s' == s && reward == 0)
                || (&& Calculated(cfg, reward)
                    && s'.redeemableDelegatorRewards == s.redeemableDelegatorRewards[k := reward]
                    && s'.history.awarded == s.history.awarded + reward))
  {
    var d := s.delegatorStakes[k];
    var v := ValidatorOf(s, d.validationID);
    var end := if v.status == ValidatorStatus.Active then now else v.endedAt;
    var uptime := if IsPoS(s, d.validationID) then s.posValidatorInfo[d.validationID].uptimeSeconds else 0;
    if end > d.startedAt {
      CalculatedReward(cfg, d.weight, v.startedAt, d.startedAt, end, uptime);
    }
  }

  /** The finishing step deletes the delegation with its reward and awards nothing. */
  lemma FinishMove(cfg: Settings, now: Timestamp, s: State, k: DelegationID)
    requires k in s.delegatorStakes && FinishDelegation(cfg, now, s, k).Ok?
    ensures var s' := FinishDelegation(cfg, now, s, k).value;
            && s'.redeemableDelegatorRewards == s.redeemableDelegatorRewards - {k}
            && s'.delegatorStakes == s.delegatorStakes - {k}
            && s'.history.awarded == s.history.awarded
  {
    FinishEffect(cfg, now, s, k);
    WithdrawEffect(cfg, WithoutDelegation(s, k), FinalRecipient(s, k), k, s.delegatorStakes[k].validationID);
  }

  /** The weight update that removes a delegation awards nothing. */
  lemma UndelegateMove(cfg: Settings, now: Timestamp, s: State, k: DelegationID)
    requires k in s.delegatorStakes && Undelegate(cfg, now, s, k).Ok?
    ensures var s' := Undelegate(cfg, now, s, k).value;
            s'.redeemableDelegatorRewards == s.redeemableDelegatorRewards && s'.history.awarded == s.history.awarded
  {
  }

  /** Ending a delegation awards at most one reward and keeps it, or deletes it together with the delegation. */
  ghost predicate EndedMove(cfg: Settings, s: State, s': State, k: DelegationID) {
    && AwardMove(cfg, s, s')
    && (|| s'.redeemableDelegatorRewards == s.redeemableDelegatorRewards
        || (s'.redeemableDelegatorRewards == s.redeemableDelegatorRewards - {k} && k !in s'.delegatorStakes)
        || (k in s'.redeemableDelegatorRewards && Calculated(cfg, s'.redeemableDelegatorRewards[k])
            && s'.redeemableDelegatorRewards - {k} == s.redeemableDelegatorRewards - {k}))
  }

  lemma ActiveEndMove(cfg: Settings, now: Timestamp, s: State, k: DelegationID, recipient: Address)
    requires k in s.delegatorStakes && Undelegate(cfg, now, s, k).Ok?
    requires AwardDelegator(cfg, now, Undelegate(cfg, now, s, k).value, k, recipient).Ok?
    ensures EndedMove(cfg, s, AwardDelegator(cfg, now, Undelegate(cfg, now, s, k).value, k, recipient).value.0, k)
  {
    UndelegateMove(cfg, now, s, k);
    DelegatorAwardMove(cfg, now, Undelegate(cfg, now, s, k).value, k, recipient);
  }

  lemma CompletedEndMove(cfg: Settings, now: Timestamp, s: State, k: DelegationID, recipient: Address)
    requires k in s.delegatorStakes && AwardDelegator(cfg, now, s, k, recipient).Ok?
    requires FinishDelegation(cfg, now, AwardDelegator(cfg, now, s, k, recipient).value.0, k).Ok?
    ensures EndedMove(cfg, s, FinishDelegation(cfg, now, AwardDelegator(cfg, now, s, k, recipient).value.0, k).value, k)
  {
    DelegatorAwardMove(cfg, now, s, k, recipient);
    FinishMove(cfg, now, AwardDelegator(cfg, now, s, k, recipient).value.0, k);
  }

  lemma EndDelegationMove(
    cfg: Settings, now: Timestamp, caller: Account, s: State,
    k: DelegationID, withProof: bool, proof: Option<UptimeProof>, recipient: Address, force: bool)
    requires InitializeEndDelegation(cfg, now, caller, s, k, withProof, proof, recipient, force).Ok?
    ensures k in s.delegatorStakes && s.delegatorStakes[k].status == DelegatorStatus.Active
    ensures EndedMove(
              cfg, s, InitializeEndDelegation(cfg, now, caller, s, k, withProof, proof, recipient, force).value, k)
  {
    EndDelegationStages(cfg, now, caller, s, k, withProof, proof, recipient, force);
    var id := s.delegatorStakes[k].validationID;
    if StatusOf(s, id) == ValidatorStatus.Active {
      ActiveEndMove(cfg, now, MaybeUpdateUptime(s, id, withProof, proof).value, k, recipient);
    } else {
      CompletedEndMove(cfg, now, s, k, recipient);
    }
  }

  lemma EndedIsLedgerMove(cfg: Settings, s: State, tx: Transaction, s': State)
    requires tx.call.CallInitializeEndDelegation? && EndedMove(cfg, s, s', tx.call.delegationID)
    requires tx.call.delegationID in s.delegatorStakes
    requires s.delegatorStakes[tx.call.delegationID].status == DelegatorStatus.Active
    ensures LedgerMove(cfg, s, tx, s')
  {
    var k := tx.call.delegationID;
    forall i ensures RewardMove(cfg, s, tx, s', i) {
      assert i != k && i in s.redeemableDelegatorRewards ==> i in s.redeemableDelegatorRewards - {k};
      assert i != k && i in s'.redeemableDelegatorRewards ==> i in s'.redeemableDelegatorRewards - {k};
      if i != k && i in s.redeemableDelegatorRewards && i in s'.redeemableDelegatorRewards {
        assert (s.redeemableDelegatorRewards - {k})[i] == s.redeemableDelegatorRewards[i];
        assert (s'.redeemableDelegatorRewards - {k})[i] == s'.redeemableDelegatorRewards[i];
      }
    }
  }

  lemma SettledMove(cfg: Settings, s: State, id: ValidationID, withProof: bool, proof: Option<UptimeProof>,
                    recipient: Address)
    requires IsPoS(s, id) && MaybeUpdateUptime(s, id, withProof, proof).Ok?
    requires AwardValidator(cfg, MaybeUpdateUptime(s, id, withProof, proof).value, id, recipient).Ok?
    ensures var s' := AwardValidator(cfg, MaybeUpdateUptime(s, id, withProof, proof).value, id, recipient).value.0;
            AwardMove(cfg, s, s') && s'.redeemableDelegatorRewards == s.redeemableDelegatorRewards
  {
    ValidatorAwardMove(cfg, MaybeUpdateUptime(s, id, withProof, proof).value, id, recipient);
  }

  lemma EndValidationMove(
    cfg: Settings, now: Timestamp, caller: Account, s: State,
    id: ValidationID, withProof: bool, proof: Option<UptimeProof>, recipient: Address, force: bool)
    requires InitializeEndValidation(cfg, now, caller, s, id, withProof, proof, recipient, force).Ok?
    ensures var s' := InitializeEndValidation(cfg, now, caller, s, id, withProof, proof, recipient, force).value;
            AwardMove(cfg, s, s') && s'.redeemableDelegatorRewards == s.redeemableDelegatorRewards
  {
    EndValidationStages(cfg, now, caller, s, id, withProof, proof, recipient, force);
    EndPeriodEffect(cfg, now, s, id);
    if IsPoS(EndPeriod(cfg, now, s, id).value, id) {
      SettledMove(cfg, EndPeriod(cfg, now, s, id).value, id, withProof, proof, recipient);
    }
  }

  /** The calls that finish a delegation. */
  lemma CompletionMove(cfg: Settings, s: State, tx: Transaction)
    requires cfg.weightToValueFactor != 0 && Step(cfg, s, tx).Ok?
    requires tx.call.CallCompleteEndDelegation? || tx.call.CallCompleteDelegatorRegistration?
    ensures LedgerMove(cfg, s, tx, Step(cfg, s, tx).value)
  {
    var k := tx.call.delegationID;
    if tx.call.CallCompleteEndDelegation? || StatusOf(s, s.delegatorStakes[k].validationID) == ValidatorStatus.Completed {
      FinishMove(cfg, tx.now, s, k);
    }
  }

  /** Every reward in the ledger was calculated when its delegation was ended, and goes when the delegation is paid out. */
  lemma LedgerMoves(cfg: Settings, s: State, tx: Transaction)
    requires ValidSettings(cfg) && Step(cfg, s, tx).Ok?
    ensures LedgerMove(cfg, s, tx, Step(cfg, s, tx).value)
  {
    var c := tx.call;
    if c.CallInitializeEndDelegation? {
      EndDelegationMove(cfg, tx.now, tx.caller, s, c.delegationID, c.includeUptimeProof, c.uptimeProof, c.recipient,
                        c.force);
      EndedIsLedgerMove(cfg, s, tx, Step(cfg, s, tx).value);
    } else if c.CallInitializeEndValidation? {
      EndValidationMove(cfg, tx.now, tx.caller, s, c.validationID, c.includeUptimeProof, c.uptimeProof, c.recipient,
                        c.force);
    } else if c.CallCompleteEndDelegation? || c.CallCompleteDelegatorRegistration? {
      CompletionMove(cfg, s, tx);
    } else if c.CallInitializeDelegatorRegistration? {
      DelegateEffect(cfg, tx.now, tx.caller, s, c.validationID, c.received);
    } else if Bookkeeping(c) {
      BookkeepingFrame(cfg, s, tx);
    } else {
      PeriodFrame(cfg, s, tx);
    }
  }

  // ----- The example calculator never blocks a stake -----

  /** With the example calculator every single reward is far below 256 bits. */
  lemma SmallReward(basisPoints: nat, cfg: Settings, reward: nat)
    requires cfg.rewardCalculator == AsSetting(basisPoints) && Calculated(cfg, reward)
    ensures YEAR_OF_BIPS * reward <= MAX_UINT256
  {
    var args :| cfg.rewardCalculator(args) == Some(reward);
    RewardMeaning(basisPoints, args);
    AnswersIff(basisPoints, args);
  }

  /** No single reward is large, and all that was awarded is at most `n` times as large. */
  ghost predicate Small(s: State, n: nat) {
    && YEAR_OF_BIPS * s.history.awarded <= n * MAX_UINT256
    && forall k :: k in s.redeemableDelegatorRewards ==> YEAR_OF_BIPS * s.redeemableDelegatorRewards[k] <= MAX_UINT256
  }

  lemma StaysSmall(basisPoints: nat, cfg: Settings, s: State, tx: Transaction, s': State, n: nat)
    requires cfg.rewardCalculator == AsSetting(basisPoints) && LedgerMove(cfg, s, tx, s') && Small(s, n)
    ensures Small(s', n + 1)
  {
    if s'.history.awarded != s.history.awarded {
      SmallReward(basisPoints, cfg, s'.history.awarded - s.history.awarded);
    }
    forall k | k in s'.redeemableDelegatorRewards
      ensures YEAR_OF_BIPS * s'.redeemableDelegatorRewards[k] <= MAX_UINT256
    {
      assert RewardMove(cfg, s, tx, s', k);
      if k !in s.redeemableDelegatorRewards || s'.redeemableDelegatorRewards[k] != s.redeemableDelegatorRewards[k] {
        SmallReward(basisPoints, cfg, s'.redeemableDelegatorRewards[k]);
      }
    }
  }

  lemma {:induction false} RewardsStaySmall(basisPoints: nat, cfg: Settings, txs: seq<Transaction>)
    requires ValidSettings(cfg) && cfg.rewardCalculator == AsSetting(basisPoints)
    ensures Small(Run(cfg, txs), |txs|)
  {
    if txs != [] {
      var earlier, tx := txs[..|txs| - 1], txs[|txs| - 1];
      RewardsStaySmall(basisPoints, cfg, earlier);
      if Step(cfg, Run(cfg, earlier), tx).Ok? {
        LedgerMoves(cfg, Run(cfg, earlier), tx);
        StaysSmall(basisPoints, cfg, Run(cfg, earlier), tx, Run(cfg, txs), |earlier|);
      }
    }
  }

  /** The fee in basis points that applies to a delegation. */
  function FeeBips(s: State, k: DelegationID): nat
    requires k in s.delegatorStakes
  {
    var id := s.delegatorStakes[k].validationID;
    if IsPoS(s, id) then s.posValidatorInfo[id].delegationFeeBips else 0
  }

  lemma SmallProduct(reward: nat, bips: nat)
    requires YEAR_OF_BIPS * reward <= MAX_UINT256 && bips <= MAXIMUM_DELEGATION_FEE_BIPS
    ensures reward * bips <= MAX_UINT256
  {
    assert reward * bips <= reward * YEAR_OF_BIPS;
  }

  /** What a validator can redeem and the reward of a delegation are together at most what was awarded. */
  lemma TwoParts(s: State, id: ValidationID, k: DelegationID)
    requires LedgerOK(s.history.awarded, Total(s.history.minted), s.redeemableValidatorRewards, s.redeemableDelegatorRewards)
    ensures GetOr(s.redeemableValidatorRewards, id, 0) + GetOr(s.redeemableDelegatorRewards, k, 0) <= s.history.awarded
  {
    if id in s.redeemableValidatorRewards {
      Member(s.redeemableValidatorRewards, id, Amount());
    }
    if k in s.redeemableDelegatorRewards {
      Member(s.redeemableDelegatorRewards, k, Amount());
    }
  }

  /**
   With the example calculator the fee of a delegation can always be computed. As long as all that was awarded fits in
   256 bits, which it does for the first 315360000000 transactions, nothing in the reward arithmetic overflows, so the
   finishing step returns the stake exactly when a churn period has passed.
   */
  lemma ExampleCalculatorNeverBlocks(basisPoints: nat, cfg: Settings, txs: seq<Transaction>, now: Timestamp,
                                     k: DelegationID)
    requires ValidSettings(cfg) && Legal(cfg, txs) && cfg.rewardCalculator == AsSetting(basisPoints)
    requires k in Run(cfg, txs).delegatorStakes
    ensures var s := Run(cfg, txs);
            && GetOr(s.redeemableDelegatorRewards, k, 0) * FeeBips(s, k) <= MAX_UINT256
            && (|txs| <= YEAR_OF_BIPS ==> s.history.awarded <= MAX_UINT256)
            && (s.history.awarded <= MAX_UINT256 ==>
                  (FinishDelegation(cfg, now, s, k).Ok? <==>
                   now >= s.delegatorStakes[k].startedAt + cfg.churn.periodSeconds))
  {
    var s := Run(cfg, txs);
    var id, reward := s.delegatorStakes[k].validationID, GetOr(s.redeemableDelegatorRewards, k, 0);
    RunKeeps(cfg, txs);
    RewardsStaySmall(basisPoints, cfg, txs);
    if IsPoS(s, id) {
      TermsWithinSettings(cfg, txs, id);
    }
    SmallProduct(reward, FeeBips(s, k));
    FinishSucceedsIff(cfg, Latest(txs), now, s, k);
    if |txs| <= YEAR_OF_BIPS {
      assert |txs| * MAX_UINT256 <= YEAR_OF_BIPS * MAX_UINT256;
    }
    TwoParts(s, id, k);
    FeeSplit(reward, FeeBips(s, k));
  }

  /** The linear amount on a stake over a time, rounded down; nothing below the uptime threshold or for no time. */
  ghost predicate Linear(basisPoints: nat, stake: nat, validatorStart: nat, start: nat, end: nat, uptime: nat,
                         reward: int) {
    if end > start && 100 * uptime >= 80 * (end - validatorStart) then
      315360000000 * reward <= stake * basisPoints * (end - start) < 315360000000 * (reward + 1)
    else reward == 0
  }

  lemma LinearReward(basisPoints: nat, cfg: Settings, weight: nat, validatorStart: nat, start: nat, end: nat, uptime: nat,
                     reward: int)
    requires cfg.rewardCalculator == AsSetting(basisPoints)
    requires if end <= start then reward == 0
             else && Rewardable(cfg, weight, validatorStart, start, end, uptime)
                  && reward == RewardFor(cfg, weight, validatorStart, start, end, uptime)
    ensures Linear(basisPoints, TokenValue(cfg.weightToValueFactor, weight), validatorStart, start, end, uptime, reward)
  {
    if end > start {
      RewardMeaning(basisPoints,
                    RewardArgs(TokenValue(cfg.weightToValueFactor, weight), validatorStart, start, end, uptime));
    }
  }

  /**
   With the example calculator, what a delegation is awarded when it ends is the linear amount on its own tokens, over
   its own time, and nothing if its validator's uptime fell short or if it began too late.
   */
  lemma DelegationAward(basisPoints: nat, cfg: Settings, before: nat, s: State, tx: Transaction)
    requires cfg.weightToValueFactor != 0 && cfg.rewardCalculator == AsSetting(basisPoints)
    requires Invariant(cfg, before, s) && tx.call.CallInitializeEndDelegation? && Step(cfg, s, tx).Ok?
    ensures tx.call.delegationID in s.delegatorStakes
    ensures var d, s' := s.delegatorStakes[tx.call.delegationID], Step(cfg, s, tx).value;
            var v := ValidatorOf(s, d.validationID);
            var end := if v.status == ValidatorStatus.Active then tx.now else v.endedAt;
            Linear(basisPoints, TokenValue(cfg.weightToValueFactor, d.weight), v.startedAt, d.startedAt, end,
                   UptimeOf(s', d.validationID), s'.history.awarded - s.history.awarded)
  {
    AwardedOnEnd(cfg, before, s, tx);
    var d, s' := s.delegatorStakes[tx.call.delegationID], Step(cfg, s, tx).value;
    var v := ValidatorOf(s, d.validationID);
    var end := if v.status == ValidatorStatus.Active then tx.now else v.endedAt;
    LinearReward(basisPoints, cfg, d.weight, v.startedAt, d.startedAt, end, UptimeOf(s', d.validationID),
                 s'.history.awarded - s.history.awarded);
  }

  // ----- A reward that is too large -----

  /** An ended delegation whose fee cannot be computed in 256 bits. */
  ghost predicate Blocked(s: State, k: DelegationID) {
    && k in s.delegatorStakes && s.delegatorStakes[k].status == DelegatorStatus.PendingRemoved
    && IsPoS(s, s.delegatorStakes[k].validationID)
    && k in s.redeemableDelegatorRewards
    && s.redeemableDelegatorRewards[k] * FeeBips(s, k) > MAX_UINT256
  }

  /** No call returns the stake of such a delegation, at whatever time and with whatever proof. */
  lemma BlockedNotReturned(cfg: Settings, before: nat, s: State, tx: Transaction, k: DelegationID)
    requires ValidSettings(cfg) && Invariant(cfg, before, s) && Blocked(s, k)
    requires tx.call.CallCompleteEndDelegation? && tx.call.delegationID == k
    ensures Step(cfg, s, tx).Revert?
  {
    FinishSucceedsIff(cfg, before, tx.now, s, k);
  }

  lemma BlockedStep(cfg: Settings, before: nat, s: State, tx: Transaction, k: DelegationID)
    requires ValidSettings(cfg) && Invariant(cfg, before, s) && FreshID(cfg, s, tx) && Step(cfg, s, tx).Ok?
    requires Blocked(s, k)
    ensures Blocked(Step(cfg, s, tx).value, k)
  {
    var s' := Step(cfg, s, tx).value;
    DelegationMoves(cfg, before, s, tx, k);
    if tx.call.CallCompleteEndDelegation? && tx.call.delegationID == k {
      BlockedNotReturned(cfg, before, s, tx, k);
    }
    assert DelegationOf(s', k) == DelegationOf(s, k);
    LedgerMoves(cfg, s, tx);
    assert RewardMove(cfg, s, tx, s', k);
    StepTerms(cfg, before, s, tx);
    assert TermsKeptAt(s.posValidatorInfo, s'.posValidatorInfo, s.delegatorStakes[k].validationID);
  }

  /** So its stake is never returned: once blocked, it is blocked after every continuation of the run. */
  lemma {:induction false} BlockedForever(cfg: Settings, txs: seq<Transaction>, n: nat, k: DelegationID)
    requires ValidSettings(cfg) && Legal(cfg, txs) && n <= |txs| && Blocked(Run(cfg, txs[..n]), k)
    ensures Blocked(Run(cfg, txs), k)
    ensures GetOr(Run(cfg, txs).history.unlocked, DelegatorStake(k), []) == []
  {
    if n == |txs| {
      assert txs[..n] == txs;
    } else {
      var earlier, tx := txs[..|txs| - 1], txs[|txs| - 1];
      assert earlier[..n] == txs[..n];
      BlockedForever(cfg, earlier, n, k);
      RunKeeps(cfg, earlier);
      if Step(cfg, Run(cfg, earlier), tx).Ok? {
        BlockedStep(cfg, Latest(earlier), Run(cfg, earlier), tx, k);
      }
    }
    RunKeeps(cfg, txs);
    var s := Run(cfg, txs);
    assert DelegatorStakeAt(cfg.weightToValueFactor, s.history.locked, s.history.unlocked, s.validationPeriods,
                            s.delegatorStakes, k);
  }
}
