/**
 The terms on which a validator registered: owner, delegation fee and minimum duration. They are within the settings,
 they never change, and with them a delegation reward always splits into a fee and a rest.
 */
module StakingTerms {
  import opened Wrappers
  import opened Numeric
  import opened StakingTypes
  import opened StakingSpec
  import opened StakingInvariants
  import opened StakingValidatorCalls
  import opened StakingDelegationCalls
  import opened StakingFrames
  import opened StakingRuns

  type Terms = map<ValidationID, PoSValidatorInfo>

  /** A validator keeps its terms, and its recorded uptime only grows. */
  ghost predicate TermsKeptAt(before: Terms, after: Terms, id: ValidationID) {
    id in before ==>
      && id in after
      && after[id] == before[id].(uptimeSeconds := after[id].uptimeSeconds)
      && after[id].uptimeSeconds >= before[id].uptimeSeconds
  }

  ghost predicate TermsKept(before: Terms, after: Terms) {
    forall id :: TermsKeptAt(before, after, id)
  }

  /** What the settings allow. */
  ghost predicate WithinSettings(cfg: Settings, info: PoSValidatorInfo) {
    && cfg.minimumDelegationFeeBips <= info.delegationFeeBips <= MAXIMUM_DELEGATION_FEE_BIPS
    && info.minStakeDuration >= cfg.minimumStakeDuration
  }

  /** The terms that a step adds: those of a new validator, owned by who registered it. */
  ghost predicate TermsAdded(cfg: Settings, tx: Transaction, before: Terms, after: Terms) {
    forall id :: id in after && id !in before ==> WithinSettings(cfg, after[id]) && after[id].owner == tx.caller
  }

  lemma UptimeKeepsTerms(s: State, id: ValidationID, withProof: bool, proof: Option<UptimeProof>)
    requires IsPoS(s, id) && MaybeUpdateUptime(s, id, withProof, proof).Ok?
    ensures var after := MaybeUpdateUptime(s, id, withProof, proof).value.posValidatorInfo;
            TermsKept(s.posValidatorInfo, after) && after.Keys == s.posValidatorInfo.Keys
  {
  }

  lemma AwardsKeepTerms(cfg: Settings, now: Timestamp, s: State, id: ValidationID, k: DelegationID, recipient: Address)
    ensures IsPoS(s, id) && AwardValidator(cfg, s, id, recipient).Ok? ==>
              AwardValidator(cfg, s, id, recipient).value.0.posValidatorInfo == s.posValidatorInfo
    ensures k in s.delegatorStakes && AwardDelegator(cfg, now, s, k, recipient).Ok? ==>
              AwardDelegator(cfg, now, s, k, recipient).value.0.posValidatorInfo == s.posValidatorInfo
  {
  }

  lemma FinishKeepsTerms(cfg: Settings, now: Timestamp, s: State, k: DelegationID)
    requires k in s.delegatorStakes && FinishDelegation(cfg, now, s, k).Ok?
    ensures FinishDelegation(cfg, now, s, k).value.posValidatorInfo == s.posValidatorInfo
  {
    FinishEffect(cfg, now, s, k);
    WithdrawEffect(cfg, WithoutDelegation(s, k), FinalRecipient(s, k), k, s.delegatorStakes[k].validationID);
  }

  lemma UndelegateKeepsTerms(cfg: Settings, now: Timestamp, s: State, k: DelegationID)
    requires k in s.delegatorStakes && Undelegate(cfg, now, s, k).Ok?
    ensures Undelegate(cfg, now, s, k).value.posValidatorInfo == s.posValidatorInfo
  {
  }

  lemma EndDelegationKeepsTerms(
    cfg: Settings, now: Timestamp, caller: Account, s: State,
    k: DelegationID, withProof: bool, proof: Option<UptimeProof>, recipient: Address, force: bool)
    requires InitializeEndDelegation(cfg, now, caller, s, k, withProof, proof, recipient, force).Ok?
    ensures var after :=
              InitializeEndDelegation(cfg, now, caller, s, k, withProof, proof, recipient, force).value.posValidatorInfo;
            TermsKept(s.posValidatorInfo, after) && after.Keys == s.posValidatorInfo.Keys
  {
    EndDelegationStages(cfg, now, caller, s, k, withProof, proof, recipient, force);
    var id := s.delegatorStakes[k].validationID;
    if StatusOf(s, id) == ValidatorStatus.Active {
      UptimeKeepsTerms(s, id, withProof, proof);
      var s1 := MaybeUpdateUptime(s, id, withProof, proof).value;
      UndelegateKeepsTerms(cfg, now, s1, k);
      AwardsKeepTerms(cfg, now, Undelegate(cfg, now, s1, k).value, id, k, recipient);
    } else {
      AwardsKeepTerms(cfg, now, s, id, k, recipient);
      FinishKeepsTerms(cfg, now, AwardDelegator(cfg, now, s, k, recipient).value.0, k);
    }
  }

  lemma EndValidationKeepsTerms(
    cfg: Settings, now: Timestamp, caller: Account, s: State,
    id: ValidationID, withProof: bool, proof: Option<UptimeProof>, recipient: Address, force: bool)
    requires InitializeEndValidation(cfg, now, caller, s, id, withProof, proof, recipient, force).Ok?
    ensures var after :=
              InitializeEndValidation(cfg, now, caller, s, id, withProof, proof, recipient, force).value.posValidatorInfo;
            TermsKept(s.posValidatorInfo, after) && after.Keys == s.posValidatorInfo.Keys
  {
    EndPeriodEffect(cfg, now, s, id);
    var s1 := EndPeriod(cfg, now, s, id).value;
    if IsPoS(s1, id) {
      UptimeKeepsTerms(s1, id, withProof, proof);
      AwardsKeepTerms(cfg, now, MaybeUpdateUptime(s1, id, withProof, proof).value, id, DelegationID(id, 0), recipient);
    }
  }

  lemma DelegationStepTerms(cfg: Settings, s: State, tx: Transaction)
    requires ValidSettings(cfg) && Step(cfg, s, tx).Ok?
    requires || tx.call.CallInitializeDelegatorRegistration? || tx.call.CallCompleteDelegatorRegistration?
             || tx.call.CallInitializeEndDelegation? || tx.call.CallCompleteEndDelegation?
    ensures var after := Step(cfg, s, tx).value.posValidatorInfo;
            TermsKept(s.posValidatorInfo, after) && after.Keys == s.posValidatorInfo.Keys
  {
    match tx.call {
      case CallInitializeDelegatorRegistration(id, received) =>
        DelegateEffect(cfg, tx.now, tx.caller, s, id, received);
      case CallCompleteDelegatorRegistration(k, proof) =>
        if StatusOf(s, s.delegatorStakes[k].validationID) == ValidatorStatus.Completed {
          FinishKeepsTerms(cfg, tx.now, s, k);
        }
      case CallInitializeEndDelegation(k, withProof, proof, recipient, force) =>
        EndDelegationKeepsTerms(cfg, tx.now, tx.caller, s, k, withProof, proof, recipient, force);
      case CallCompleteEndDelegation(k, _) =>
        FinishKeepsTerms(cfg, tx.now, s, k);
    }
  }

  lemma RegistrationTerms(cfg: Settings, before: nat, s: State, tx: Transaction)
    requires ValidSettings(cfg) && Invariant(cfg, before, s) && FreshID(cfg, s, tx)
    requires tx.call.CallInitializeValidatorRegistration? && Step(cfg, s, tx).Ok?
    ensures var after := Step(cfg, s, tx).value.posValidatorInfo;
            TermsKept(s.posValidatorInfo, after) && TermsAdded(cfg, tx, s.posValidatorInfo, after)
  {
    var c := tx.call;
    RegistrationEffect(cfg, tx.now, tx.caller, s, c.input, c.delegationFeeBips, c.minStakeDuration, c.stakeAmount,
                       c.received);
    assert IdentityAt(s.pendingRegisterValidationMessages, s.validationPeriods, s.posValidatorInfo.Keys,
                      NewID(cfg, tx.call));
  }

  /** A step keeps the terms of every validator and adds only terms within the settings. */
  lemma StepTerms(cfg: Settings, before: nat, s: State, tx: Transaction)
    requires ValidSettings(cfg) && Invariant(cfg, before, s) && FreshID(cfg, s, tx) && Step(cfg, s, tx).Ok?
    ensures var after := Step(cfg, s, tx).value.posValidatorInfo;
            TermsKept(s.posValidatorInfo, after) && TermsAdded(cfg, tx, s.posValidatorInfo, after)
  {
    var c := tx.call;
    if c.CallInitializeValidatorRegistration? {
      RegistrationTerms(cfg, before, s, tx);
    } else if c.CallInitializeEndValidation? {
      EndValidationKeepsTerms(cfg, tx.now, tx.caller, s, c.validationID, c.includeUptimeProof, c.uptimeProof, c.recipient,
                              c.force);
    } else if c.CallSubmitUptimeProof? {
      SubmitFrame(s, c.validationID, c.uptimeProof);
      UptimeKeepsTerms(s, c.validationID, true, c.uptimeProof);
    } else if Bookkeeping(c) {
      BookkeepingFrame(cfg, s, tx);
    } else if c.CallInitializeValidatorSet? || c.CallCompleteEndValidation? {
      PeriodFrame(cfg, s, tx);
    } else {
      DelegationStepTerms(cfg, s, tx);
    }
  }

  // ----- Every run -----

  /** Over any run the terms of a validator never change once it has registered. */
  lemma {:induction false} TermsNeverChange(cfg: Settings, txs: seq<Transaction>, n: nat)
    requires ValidSettings(cfg) && Legal(cfg, txs) && n <= |txs|
    ensures TermsKept(Run(cfg, txs[..n]).posValidatorInfo, Run(cfg, txs).posValidatorInfo)
  {
    if n == |txs| {
      assert txs[..n] == txs;
    } else {
      var earlier, tx := txs[..|txs| - 1], txs[|txs| - 1];
      TermsNeverChange(cfg, earlier, n);
      assert earlier[..n] == txs[..n];
      if Step(cfg, Run(cfg, earlier), tx).Ok? {
        RunKeeps(cfg, earlier);
        StepTerms(cfg, Latest(earlier), Run(cfg, earlier), tx);
        TermsCompose(Run(cfg, txs[..n]).posValidatorInfo, Run(cfg, earlier).posValidatorInfo,
                     Run(cfg, txs).posValidatorInfo);
      }
    }
  }

  lemma TermsCompose(a: Terms, b: Terms, c: Terms)
    requires TermsKept(a, b) && TermsKept(b, c)
    ensures TermsKept(a, c)
  {
    forall id ensures TermsKeptAt(a, c, id) {
      assert TermsKeptAt(a, b, id) && TermsKeptAt(b, c, id);
    }
  }

  /** In every reachable state the terms of every validator are within the settings. */
  lemma {:induction false} TermsWithinSettings(cfg: Settings, txs: seq<Transaction>, id: ValidationID)
    requires ValidSettings(cfg) && Legal(cfg, txs) && id in Run(cfg, txs).posValidatorInfo
    ensures WithinSettings(cfg, Run(cfg, txs).posValidatorInfo[id])
  {
    if txs != [] {
      var earlier, tx := txs[..|txs| - 1], txs[|txs| - 1];
      var s := Run(cfg, earlier);
      if Step(cfg, s, tx).Ok? {
        RunKeeps(cfg, earlier);
        StepTerms(cfg, Latest(earlier), s, tx);
        assert TermsKeptAt(s.posValidatorInfo, Run(cfg, txs).posValidatorInfo, id);
      }
      if id in s.posValidatorInfo {
        TermsWithinSettings(cfg, earlier, id);
      }
    }
  }

  /**
   In every reachable state a delegation reward splits exactly: the fee is the agreed share rounded down, never more
   than the reward, the rest is minted, and nothing but an overflow stands in the way.
   */
  lemma RewardSplitsExactly(cfg: Settings, txs: seq<Transaction>, id: ValidationID, to: Address, rewards: nat)
    requires ValidSettings(cfg) && Legal(cfg, txs) && IsPoS(Run(cfg, txs), id) && rewards <= MAX_UINT256
    ensures SplitsExactly(cfg, Run(cfg, txs), id, to, rewards)
  {
    TermsWithinSettings(cfg, txs, id);
    SplitExactly(cfg, Run(cfg, txs), id, to, rewards);
  }

  /** The reward splits by the fee that the validator asks for, and everything that is not its fee is minted. */
  ghost predicate SplitsExactly(cfg: Settings, s: State, id: ValidationID, to: Address, rewards: nat)
    requires IsPoS(s, id)
  {
    var bips := s.posValidatorInfo[id].delegationFeeBips;
    var owed := GetOr(s.redeemableValidatorRewards, id, 0);
    var r := SplitReward(cfg, s, to, id, rewards);
    && (r.Ok? ==>
          var fee := GetOr(r.value.redeemableValidatorRewards, id, 0) - owed;
          && 0 <= fee <= rewards
          && BIPS_CONVERSION_FACTOR * fee <= rewards * bips < BIPS_CONVERSION_FACTOR * (fee + 1)
          && r.value.history.minted == s.history.minted + [Payment(to, rewards - fee)])
    && (rewards * bips <= MAX_UINT256 && owed + rewards <= MAX_UINT256 ==> r.Ok?)
  }

  lemma FeeIsShare(s: State, id: ValidationID, rewards: nat, product: nat) returns (fee: nat)
    requires IsPoS(s, id) && product == rewards * s.posValidatorInfo[id].delegationFeeBips
    requires s.posValidatorInfo[id].delegationFeeBips <= BIPS_CONVERSION_FACTOR
    ensures DelegationFee(s, id, rewards) == if product <= MAX_UINT256 then Ok(fee) else Revert(Error.Panic)
    ensures fee <= rewards && BIPS_CONVERSION_FACTOR * fee <= product < BIPS_CONVERSION_FACTOR * (fee + 1)
  {
    FeeSplit(rewards, s.posValidatorInfo[id].delegationFeeBips);
    fee := product / BIPS_CONVERSION_FACTOR;
  }

  lemma SplitWithFee(cfg: Settings, s: State, id: ValidationID, to: Address, rewards: nat, fee: nat)
    requires DelegationFee(s, id, rewards) == Ok(fee) && fee <= rewards <= MAX_UINT256
    ensures var r := SplitReward(cfg, s, to, id, rewards);
            var owed := GetOr(s.redeemableValidatorRewards, id, 0);
            && (r.Ok? <==> owed + fee <= MAX_UINT256)
            && (r.Ok? ==>
                  && GetOr(r.value.redeemableValidatorRewards, id, 0) == owed + fee
                  && r.value.history.minted == s.history.minted + [Payment(to, rewards - fee)])
  {
  }

  lemma SplitExactly(cfg: Settings, s: State, id: ValidationID, to: Address, rewards: nat)
    requires IsPoS(s, id) && rewards <= MAX_UINT256
    requires s.posValidatorInfo[id].delegationFeeBips <= BIPS_CONVERSION_FACTOR
    ensures SplitsExactly(cfg, s, id, to, rewards)
  {
    var product := rewards * s.posValidatorInfo[id].delegationFeeBips;
    var fee := FeeIsShare(s, id, rewards, product);
    if product <= MAX_UINT256 {
      SplitWithFee(cfg, s, id, to, rewards, fee);
    }
  }
}
