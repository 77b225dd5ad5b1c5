/**
 What each call on validators answers: exactly when it succeeds, and what it then changes, in terms of the call and the
 storage before it alone.
 */
module StakingAnswers {
  import opened Wrappers
  import opened Numeric
  import opened MessageTypes
  import opened ChurnTracker
  import opened StakingTypes
  import opened StakingSpec
  import opened StakingInvariants
  import opened StakingValidatorCalls
  import opened StakingProgress

  // ----- Registration -----

  /** An owner with a usable threshold and sorted addresses. */
  ghost predicate OwnerAllowed(owner: PChainOwner) {
    && (owner.threshold == 0 ==> owner.addresses == [])
    && owner.threshold <= |owner.addresses|
    && forall i, j :: 0 <= i < j < |owner.addresses| ==> owner.addresses[i] <= owner.addresses[j]
  }

  lemma {:induction false} SortedPairs(addresses: seq<nat>, i: nat, j: nat)
    requires Sorted(addresses) && i <= j < |addresses|
    ensures addresses[i] <= addresses[j]
  {
    if i < j {
      SortedPairs(addresses, i, j - 1);
    }
  }

  lemma OwnerAllowedIff(owner: PChainOwner)
    ensures ValidatePChainOwner(owner).Ok? <==> OwnerAllowed(owner)
  {
    if Sorted(owner.addresses) {
      forall i, j | 0 <= i < j < |owner.addresses| ensures owner.addresses[i] <= owner.addresses[j] {
        SortedPairs(owner.addresses, i, j);
      }
    }
  }

  /** The terms asked for are within the settings, and the deposit is worth a weight of 64 bits. */
  ghost predicate TermsAllowed(cfg: Settings, fee: nat, duration: nat, amount: nat, received: nat)
    requires cfg.weightToValueFactor != 0
  {
    && cfg.minimumDelegationFeeBips <= fee <= 10000
    && cfg.minimumStakeDuration <= duration
    && cfg.minimumStakeAmount <= amount <= cfg.maximumStakeAmount
    && 1 <= Worth(cfg.weightToValueFactor, received) <= MAX_UINT64
  }

  /** The node may be registered now, with this message. */
  ghost predicate NodeAllowed(now: nat, s: State, input: RegistrationInput) {
    && s.initializedValidatorSet
    && now < input.registrationExpiry < now + 172800
    && OwnerAllowed(input.remainingBalanceOwner) && OwnerAllowed(input.disableOwner)
    && |input.blsPublicKey| == 48
    && input.nodeID != [] && input.nodeID !in s.registeredValidators
  }

  lemma RegisterPeriodSucceedsIff(cfg: Settings, now: Timestamp, s: State, input: RegistrationInput, weight: nat)
    ensures RegisterPeriod(cfg, now, s, input, weight).Ok?
            <==> && NodeAllowed(now, s, input)
                 && weight + s.churnTracker.totalWeight <= MAX_UINT64
                 && Accepts(cfg.churn, s.churnTracker, Change(now, weight, 0))
  {
    OwnerAllowedIff(input.remainingBalanceOwner);
    OwnerAllowedIff(input.disableOwner);
    AcceptedIff(cfg.churn, s.churnTracker, Change(now, weight, 0));
  }

  /** A registration succeeds exactly if every one of these conditions holds. */
  lemma RegistrationSucceedsIff(cfg: Settings, s: State, tx: Transaction)
    requires cfg.weightToValueFactor != 0 && tx.call.CallInitializeValidatorRegistration?
    ensures var c := tx.call;
            var weight := Worth(cfg.weightToValueFactor, c.received);
            Step(cfg, s, tx).Ok?
            <==> && TermsAllowed(cfg, c.delegationFeeBips, c.minStakeDuration, c.stakeAmount, c.received)
                 && NodeAllowed(tx.now, s, c.input)
                 && weight + s.churnTracker.totalWeight <= MAX_UINT64
                 && Accepts(cfg.churn, s.churnTracker, Change(tx.now, weight, 0))
  {
    RegisterPeriodSucceedsIff(cfg, tx.now, s, tx.call.input, Worth(cfg.weightToValueFactor, tx.call.received));
  }

  /** It stores a pending period of the deposit's weight, its terms and message, and the deposit under its ID. */
  lemma RegistrationStores(cfg: Settings, s: State, tx: Transaction)
    requires cfg.weightToValueFactor != 0 && tx.call.CallInitializeValidatorRegistration? && Step(cfg, s, tx).Ok?
    ensures var c, s' := tx.call, Step(cfg, s, tx).value;
            var weight := Worth(cfg.weightToValueFactor, c.received);
            var message := ValidationPeriod(
              subnetID := cfg.subnetID, nodeID := c.input.nodeID, blsPublicKey := c.input.blsPublicKey,
              registrationExpiry := c.input.registrationExpiry,
              remainingBalanceOwner := c.input.remainingBalanceOwner, disableOwner := c.input.disableOwner,
              weight := weight);
            var id := Registered(message);
            s' == s.(
              churnTracker := s'.churnTracker,
              pendingRegisterValidationMessages := s.pendingRegisterValidationMessages[id := message],
              registeredValidators := s.registeredValidators[c.input.nodeID := id],
              validationPeriods := s.validationPeriods[
                id := Validator(status := ValidatorStatus.PendingAdded, nodeID := c.input.nodeID,
                                startingWeight := weight, messageNonce := 0, weight := weight,
                                startedAt := 0, endedAt := 0)],
              posValidatorInfo := s.posValidatorInfo[
                id := PoSValidatorInfo(owner := tx.caller, delegationFeeBips := c.delegationFeeBips,
                                       minStakeDuration := c.minStakeDuration, uptimeSeconds := 0)],
              rewardRecipients := s.rewardRecipients[id := tx.caller],
              balance := s.balance + c.received,
              history := s.history.(
                changes := s.history.changes + [Change(now := tx.now, newWeight := weight, oldWeight := 0)],
                locked := Append(s.history.locked, ValidatorStake(id), Deposit(from := tx.caller, value := c.received))))
  {
    var c := tx.call;
    RegistrationEffect(cfg, tx.now, tx.caller, s, c.input, c.delegationFeeBips, c.minStakeDuration, c.stakeAmount,
                       c.received);
  }

  /**
   A registration is completed exactly by a positive acknowledgement of a pending period. The period is then active from
   the time of the block, and its message is not kept any longer.
   */
  lemma CompletionAnswers(cfg: Settings, before: nat, s: State, tx: Transaction)
    requires cfg.weightToValueFactor != 0 && Invariant(cfg, before, s) && tx.call.CallCompleteValidatorRegistration?
    ensures var proof := tx.call.registrationProof;
            && (Step(cfg, s, tx).Ok? <==>
                  proof.Some? && proof.value.valid && StatusOf(s, proof.value.validationID) == ValidatorStatus.PendingAdded)
            && (Step(cfg, s, tx).Ok? ==>
                  var id := proof.value.validationID;
                  Step(cfg, s, tx).value == s.(
                    pendingRegisterValidationMessages := s.pendingRegisterValidationMessages - {id},
                    validationPeriods := s.validationPeriods[
                      id := s.validationPeriods[id].(status := ValidatorStatus.Active, startedAt := tx.now)]))
  {
    var proof := tx.call.registrationProof;
    if proof.Some? {
      RegistrationCompletesIff(cfg, before, tx.now, s, proof.value.validationID, proof.value.valid);
    }
  }

  // ----- Uptime -----

  /** A proof of the uptime of this validator, if one is asked for. */
  ghost predicate ProofFor(id: ValidationID, asked: bool, proof: Option<UptimeProof>) {
    asked ==> proof.Some? && proof.value.validationID == id
  }

  /** The uptime on record afterwards: the larger one. */
  function UptimeAfter(s: State, id: ValidationID, asked: bool, proof: Option<UptimeProof>): nat
    requires IsPoS(s, id) && (asked ==> proof.Some?)
  {
    var known := s.posValidatorInfo[id].uptimeSeconds;
    if asked && proof.value.uptime > known then proof.value.uptime else known
  }

  /** The state with this uptime on record. */
  function WithUptime(s: State, id: ValidationID, uptime: nat): (s': State)
    requires IsPoS(s, id)
  {
    s.(posValidatorInfo := s.posValidatorInfo[id := s.posValidatorInfo[id].(uptimeSeconds := uptime)])
  }

  lemma UptimeAnswers(s: State, id: ValidationID, asked: bool, proof: Option<UptimeProof>)
    requires IsPoS(s, id)
    ensures MaybeUpdateUptime(s, id, asked, proof).Ok? <==> ProofFor(id, asked, proof)
    ensures ProofFor(id, asked, proof) ==>
              MaybeUpdateUptime(s, id, asked, proof) == Ok(WithUptime(s, id, UptimeAfter(s, id, asked, proof)))
  {
    var info := s.posValidatorInfo[id];
    assert info.(uptimeSeconds := info.uptimeSeconds) == info;
    assert s.posValidatorInfo[id := info] == s.posValidatorInfo;
  }

  /** Uptime is accepted exactly with a proof for an active PoS validator; the larger one is kept. */
  lemma SubmitUptimeAnswers(cfg: Settings, s: State, tx: Transaction)
    requires cfg.weightToValueFactor != 0 && tx.call.CallSubmitUptimeProof?
    ensures var id, proof := tx.call.validationID, tx.call.uptimeProof;
            && (Step(cfg, s, tx).Ok? <==>
                  IsPoS(s, id) && StatusOf(s, id) == ValidatorStatus.Active && ProofFor(id, true, proof))
            && (Step(cfg, s, tx).Ok? ==>
                  Step(cfg, s, tx).value == s.(posValidatorInfo := s.posValidatorInfo[
                    id := s.posValidatorInfo[id].(uptimeSeconds := UptimeAfter(s, id, true, proof))]))
  {
    var id, proof := tx.call.validationID, tx.call.uptimeProof;
    if IsPoS(s, id) {
      UptimeAnswers(s, id, true, proof);
    }
  }

  // ----- Rewards -----

  /** The calculator has an answer of 256 bits for a stake of this weight. */
  ghost predicate Rewardable(cfg: Settings, weight: nat, validatorStart: nat, start: nat, end: nat, uptime: nat) {
    var stake := TokenValue(cfg.weightToValueFactor, weight);
    var answer := cfg.rewardCalculator(RewardArgs(stake, validatorStart, start, end, uptime));
    stake <= MAX_UINT256 && answer.Some? && answer.value <= MAX_UINT256
  }

  /** The answer. */
  function RewardFor(cfg: Settings, weight: nat, validatorStart: nat, start: nat, end: nat, uptime: nat): nat {
    var answer := cfg.rewardCalculator(RewardArgs(
      stakeAmount := TokenValue(cfg.weightToValueFactor, weight), validatorStartTime := validatorStart,
      stakingStartTime := start, stakingEndTime := end, uptimeSeconds := uptime));
    if answer.Some? then answer.value else 0
  }

  lemma RewardAnswers(cfg: Settings, weight: nat, validatorStart: nat, start: nat, end: nat, uptime: nat)
    ensures var r := CalculateReward(cfg, weight, validatorStart, start, end, uptime);
            && (r.Ok? <==> Rewardable(cfg, weight, validatorStart, start, end, uptime))
            && (r.Ok? ==> r.value == RewardFor(cfg, weight, validatorStart, start, end, uptime))
  {
  }

  // ----- The end of a validation -----

  /** A validator's reward for its whole period, ending now. */
  function EndReward(cfg: Settings, now: nat, v: Validator, uptime: nat): nat {
    RewardFor(cfg, v.startingWeight, v.startedAt, v.startedAt, now, uptime)
  }

  /** A PoS period may be settled: by its owner, after the agreed duration, with its uptime, and with its reward. */
  ghost predicate CanSettle(cfg: Settings, now: nat, caller: Account, s: State, id: ValidationID, asked: bool,
                            proof: Option<UptimeProof>, force: bool)
    requires IsPoS(s, id)
  {
    var v, info := ValidatorOf(s, id), s.posValidatorInfo[id];
    && caller == info.owner && now >= v.startedAt + info.minStakeDuration
    && ProofFor(id, asked, proof)
    && var uptime := UptimeAfter(s, id, asked, proof);
    && Rewardable(cfg, v.startingWeight, v.startedAt, v.startedAt, now, uptime)
    && GetOr(s.redeemableValidatorRewards, id, 0) + EndReward(cfg, now, v, uptime) <= MAX_UINT256
    && (force || EndReward(cfg, now, v, uptime) > 0)
  }

  /** What settling changes: the uptime, what can be redeemed, and who is to be paid. */
  ghost predicate Settled(cfg: Settings, now: nat, s: State, s': State, id: ValidationID, asked: bool,
                          proof: Option<UptimeProof>, recipient: Address)
    requires IsPoS(s, id) && ProofFor(id, asked, proof)
  {
    var info, uptime := s.posValidatorInfo[id], UptimeAfter(s, id, asked, proof);
    var reward := EndReward(cfg, now, ValidatorOf(s, id), uptime);
    && s'.posValidatorInfo == s.posValidatorInfo[id := info.(uptimeSeconds := uptime)]
    && s'.redeemableValidatorRewards
       == s.redeemableValidatorRewards[id := GetOr(s.redeemableValidatorRewards, id, 0) + reward]
    && s'.rewardRecipients == s.rewardRecipients[id := if recipient == 0 then info.owner else recipient]
    && s'.history.awarded == s.history.awarded + reward
  }

  lemma AwardAnswers(cfg: Settings, now: nat, s: State, id: ValidationID, recipient: Address)
    requires IsPoS(s, id) && ValidatorOf(s, id).endedAt == now
    ensures var r, v, info := AwardValidator(cfg, s, id, recipient), ValidatorOf(s, id), s.posValidatorInfo[id];
            var reward := EndReward(cfg, now, v, info.uptimeSeconds);
            var redeemable := GetOr(s.redeemableValidatorRewards, id, 0);
            && (r.Ok? <==> && Rewardable(cfg, v.startingWeight, v.startedAt, v.startedAt, now, info.uptimeSeconds)
                           && redeemable + reward <= MAX_UINT256)
            && (r.Ok? ==>
                  r.value == (s.(redeemableValidatorRewards := s.redeemableValidatorRewards[id := redeemable + reward],
                                 rewardRecipients := s.rewardRecipients[
                                   id := if recipient == 0 then info.owner else recipient],
                                 history := s.history.(awarded := s.history.awarded + reward)),
                              reward))
  {
    var v := ValidatorOf(s, id);
    RewardAnswers(cfg, v.startingWeight, v.startedAt, v.startedAt, now, s.posValidatorInfo[id].uptimeSeconds);
  }

  lemma SettleStages(cfg: Settings, caller: Account, s: State, id: ValidationID, asked: bool,
                     proof: Option<UptimeProof>, recipient: Address, force: bool, s1: State)
    requires IsPoS(s, id) && IsPoS(s1, id) && ValidatorOf(s, id).endedAt <= MAX_UINT64
    requires ProofFor(id, asked, proof) ==> MaybeUpdateUptime(s, id, asked, proof) == Ok(s1)
    requires MaybeUpdateUptime(s, id, asked, proof).Ok? <==> ProofFor(id, asked, proof)
    ensures var r, v, info := SettlePoSPeriod(cfg, caller, s, id, asked, proof, recipient, force), ValidatorOf(s, id),
                              s.posValidatorInfo[id];
            var award := AwardValidator(cfg, s1, id, recipient);
            && (r.Ok? <==> && caller == info.owner && v.endedAt >= v.startedAt + info.minStakeDuration
                           && ProofFor(id, asked, proof) && award.Ok? && (force || award.value.1 > 0))
            && (r.Ok? ==> r.value == award.value.0)
  {
  }

  lemma SettleAwarded(cfg: Settings, now: nat, s: State, id: ValidationID, asked: bool, proof: Option<UptimeProof>,
                      recipient: Address, award: Result<(State, nat), Error>)
    requires IsPoS(s, id) && ValidatorOf(s, id).endedAt == now && ProofFor(id, asked, proof)
    requires award == AwardValidator(cfg, WithUptime(s, id, UptimeAfter(s, id, asked, proof)), id, recipient)
    ensures var v, uptime := ValidatorOf(s, id), UptimeAfter(s, id, asked, proof);
            award.Ok? <==>
              && Rewardable(cfg, v.startingWeight, v.startedAt, v.startedAt, now, uptime)
              && GetOr(s.redeemableValidatorRewards, id, 0) + EndReward(cfg, now, v, uptime) <= MAX_UINT256
    ensures award.Ok? ==>
              && award.value.1 == EndReward(cfg, now, ValidatorOf(s, id), UptimeAfter(s, id, asked, proof))
              && Settled(cfg, now, s, award.value.0, id, asked, proof, recipient) && SettledOnly(s, award.value.0)
  {
    AwardAnswers(cfg, now, WithUptime(s, id, UptimeAfter(s, id, asked, proof)), id, recipient);
  }

  lemma SettleAnswers(cfg: Settings, now: Timestamp, caller: Account, s: State, id: ValidationID, asked: bool,
                      proof: Option<UptimeProof>, recipient: Address, force: bool)
    requires IsPoS(s, id) && ValidatorOf(s, id).endedAt == now
    ensures var r := SettlePoSPeriod(cfg, caller, s, id, asked, proof, recipient, force);
            && (r.Ok? <==> CanSettle(cfg, now, caller, s, id, asked, proof, force))
            && (r.Ok? ==> Settled(cfg, now, s, r.value, id, asked, proof, recipient) && SettledOnly(s, r.value))
  {
    UptimeAnswers(s, id, asked, proof);
    var s1 := if ProofFor(id, asked, proof) then WithUptime(s, id, UptimeAfter(s, id, asked, proof)) else s;
    SettleStages(cfg, caller, s, id, asked, proof, recipient, force, s1);
    if ProofFor(id, asked, proof) {
      SettleAwarded(cfg, now, s, id, asked, proof, recipient, AwardValidator(cfg, s1, id, recipient));
    }
  }

  /** Nothing but the uptime and the rewards differs. */
  ghost predicate SettledOnly(s: State, s': State) {
    s' == s.(posValidatorInfo := s'.posValidatorInfo,
             redeemableValidatorRewards := s'.redeemableValidatorRewards,
             rewardRecipients := s'.rewardRecipients,
             history := s.history.(awarded := s'.history.awarded))
  }

  lemma EndPeriodSucceedsIff(cfg: Settings, now: Timestamp, s: State, id: ValidationID)
    ensures var v := ValidatorOf(s, id);
            EndPeriod(cfg, now, s, id).Ok?
            <==> && v.status == ValidatorStatus.Active && v.messageNonce < MAX_UINT64
                 && Accepts(cfg.churn, s.churnTracker, Change(now, 0, v.weight))
  {
    AcceptedIff(cfg.churn, s.churnTracker, Change(now, 0, ValidatorOf(s, id).weight));
  }

  /** The end of a period in the base contract: being removed, ended now, of no weight, and the P-Chain is told. */
  ghost predicate Ended(s: State, s': State, now: nat, id: ValidationID)
    requires id in s.validationPeriods
  {
    var v := s.validationPeriods[id];
    var nonce := v.messageNonce + 1;
    && s'.validationPeriods == s.validationPeriods[
         id := v.(status := ValidatorStatus.PendingRemoved, endedAt := now, messageNonce := nonce, weight := 0)]
    && s'.history.changes == s.history.changes + [Change(now := now, newWeight := 0, oldWeight := v.weight)]
    && s'.history.weightMessages == Append(s.history.weightMessages, id, WeightMessage(nonce := nonce, weight := 0))
  }

  /** Settling looks at the same things before and after the end in the base contract. */
  lemma SettleAfterEnd(cfg: Settings, now: Timestamp, caller: Account, s: State, s1: State, id: ValidationID, asked: bool,
                       proof: Option<UptimeProof>, force: bool)
    requires IsPoS(s, id) && id in s.validationPeriods && id in s1.validationPeriods
    requires s1.posValidatorInfo == s.posValidatorInfo
    requires s1.redeemableValidatorRewards == s.redeemableValidatorRewards
    requires s1.validationPeriods[id].startedAt == s.validationPeriods[id].startedAt
    requires s1.validationPeriods[id].startingWeight == s.validationPeriods[id].startingWeight
    ensures CanSettle(cfg, now, caller, s1, id, asked, proof, force)
            <==> CanSettle(cfg, now, caller, s, id, asked, proof, force)
  {
  }

  /**
   A validation ends exactly if it is active, its weight may be taken off the total, and, for a PoS validator, it may be
   settled.
   */
  lemma EndValidationSucceedsIff(cfg: Settings, s: State, tx: Transaction)
    requires cfg.weightToValueFactor != 0 && tx.call.CallInitializeEndValidation?
    ensures var c, id := tx.call, tx.call.validationID;
            var v := ValidatorOf(s, id);
            Step(cfg, s, tx).Ok?
            <==> && v.status == ValidatorStatus.Active && v.messageNonce < MAX_UINT64
                 && Accepts(cfg.churn, s.churnTracker, Change(tx.now, 0, v.weight))
                 && (IsPoS(s, id) ==>
                       CanSettle(cfg, tx.now, tx.caller, s, id, c.includeUptimeProof, c.uptimeProof, c.force))
  {
    var c, id := tx.call, tx.call.validationID;
    EndPeriodSucceedsIff(cfg, tx.now, s, id);
    if EndPeriod(cfg, tx.now, s, id).Ok? {
      EndPeriodEffect(cfg, tx.now, s, id);
      var s1 := EndPeriod(cfg, tx.now, s, id).value;
      if IsPoS(s, id) {
        SettleAfterEnd(cfg, tx.now, tx.caller, s, s1, id, c.includeUptimeProof, c.uptimeProof, c.force);
        SettleAnswers(cfg, tx.now, tx.caller, s1, id, c.includeUptimeProof, c.uptimeProof, c.recipient, c.force);
      }
    }
  }

  lemma EndPeriodAnswers(cfg: Settings, now: Timestamp, s: State, id: ValidationID)
    requires EndPeriod(cfg, now, s, id).Ok?
    ensures id in s.validationPeriods
    ensures Ended(s, EndPeriod(cfg, now, s, id).value, now, id) && EndedOnly(s, EndPeriod(cfg, now, s, id).value)
  {
    EndPeriodEffect(cfg, now, s, id);
  }

  /** Nothing but the period, the total and what is recorded of them differs. */
  ghost predicate EndedOnly(s: State, s': State) {
    s' == s.(validationPeriods := s'.validationPeriods, churnTracker := s'.churnTracker,
             history := s.history.(changes := s'.history.changes, weightMessages := s'.history.weightMessages))
  }

  /** What the end of a validation changes. */
  ghost predicate EndedAndSettled(cfg: Settings, now: nat, s: State, s': State, id: ValidationID, asked: bool,
                                  proof: Option<UptimeProof>, recipient: Address) {
    && id in s.validationPeriods && Ended(s, s', now, id)
    && if IsPoS(s, id) then
         && ProofFor(id, asked, proof) && Settled(cfg, now, s, s', id, asked, proof, recipient)
         && s' == s.(validationPeriods := s'.validationPeriods, churnTracker := s'.churnTracker,
                     posValidatorInfo := s'.posValidatorInfo,
                     redeemableValidatorRewards := s'.redeemableValidatorRewards,
                     rewardRecipients := s'.rewardRecipients,
                     history := s.history.(changes := s'.history.changes, awarded := s'.history.awarded,
                                           weightMessages := s'.history.weightMessages))
       else EndedOnly(s, s')
  }

  lemma EndThenSettle(cfg: Settings, now: nat, s: State, s1: State, s': State, id: ValidationID, asked: bool,
                      proof: Option<UptimeProof>, recipient: Address)
    requires id in s.validationPeriods && Ended(s, s1, now, id) && EndedOnly(s, s1) && IsPoS(s, id)
    requires ProofFor(id, asked, proof) && Settled(cfg, now, s1, s', id, asked, proof, recipient) && SettledOnly(s1, s')
    ensures EndedAndSettled(cfg, now, s, s', id, asked, proof, recipient)
  {
  }

  lemma EndThenSettleStages(
    cfg: Settings, now: Timestamp, caller: Account, s: State,
    id: ValidationID, asked: bool, proof: Option<UptimeProof>, recipient: Address, force: bool, s': State)
    requires InitializeEndValidation(cfg, now, caller, s, id, asked, proof, recipient, force) == Ok(s')
    ensures EndPeriod(cfg, now, s, id).Ok?
    ensures var s1 := EndPeriod(cfg, now, s, id).value;
            if IsPoS(s1, id) then SettlePoSPeriod(cfg, caller, s1, id, asked, proof, recipient, force) == Ok(s')
            else s' == s1
  {
  }

  lemma EndChanges(
    cfg: Settings, now: Timestamp, caller: Account, s: State,
    id: ValidationID, asked: bool, proof: Option<UptimeProof>, recipient: Address, force: bool, s': State)
    requires InitializeEndValidation(cfg, now, caller, s, id, asked, proof, recipient, force) == Ok(s')
    ensures EndedAndSettled(cfg, now, s, s', id, asked, proof, recipient)
  {
    EndThenSettleStages(cfg, now, caller, s, id, asked, proof, recipient, force, s');
    EndPeriodAnswers(cfg, now, s, id);
    var s1 := EndPeriod(cfg, now, s, id).value;
    if IsPoS(s, id) {
      SettleAnswers(cfg, now, caller, s1, id, asked, proof, recipient, force);
      EndThenSettle(cfg, now, s, s1, s', id, asked, proof, recipient);
    }
  }

  /** What the end of a validation changes, and nothing else. */
  lemma EndValidationChanges(cfg: Settings, s: State, tx: Transaction)
    requires cfg.weightToValueFactor != 0 && tx.call.CallInitializeEndValidation? && Step(cfg, s, tx).Ok?
    ensures var c := tx.call;
            EndedAndSettled(cfg, tx.now, s, Step(cfg, s, tx).value, c.validationID, c.includeUptimeProof, c.uptimeProof,
                            c.recipient)
  {
    var c := tx.call;
    EndChanges(cfg, tx.now, tx.caller, s, c.validationID, c.includeUptimeProof, c.uptimeProof, c.recipient, c.force,
               Step(cfg, s, tx).value);
  }

  // ----- The acknowledged end -----

  /** The balance after stake was returned: the contract's own stake stays with it. */
  function AfterReturn(cfg: Settings, balance: int, owner: Address, value: nat): int {
    if owner == cfg.managerAddress then balance else balance - value
  }

  /** The balance after a reward was minted. */
  function AfterMint(cfg: Settings, balance: int, to: Address, value: nat): int {
    if to == cfg.managerAddress then balance + value else balance
  }

  lemma PayOutBalance(cfg: Settings, s: State, id: ValidationID)
    requires IsPoS(s, id) && PayOut(cfg, s, id).Ok?
    ensures var v := ValidatorOf(s, id);
            var minted := if v.status == ValidatorStatus.Completed then GetOr(s.redeemableValidatorRewards, id, 0) else 0;
            PayOut(cfg, s, id).value.balance
            == AfterReturn(cfg, AfterMint(cfg, s.balance, RewardRecipient(s, id), minted), s.posValidatorInfo[id].owner,
                           TokenValue(cfg.weightToValueFactor, v.startingWeight))
  {
  }

  lemma CloseChanges(cfg: Settings, s: State, proof: Option<RegistrationProof>, s': State)
    requires CompleteEndValidation(cfg, s, proof) == Ok(s')
    ensures proof.Some? && Closed(cfg, s, s', proof.value.validationID)
  {
    ClosePeriodEffect(s, proof);
    CompleteEndEffect(cfg, s, proof);
    if IsPoS(s, proof.value.validationID) {
      PayOutBalance(cfg, ClosePeriod(s, proof).value, proof.value.validationID);
    }
  }

  /**
   A period is closed exactly by the P-Chain's word that it is over, while it is pending or being removed. Its node is
   free again. A PoS validator that completed is paid its rewards, to the recipient that was chosen or else the owner,
   and the stake goes back to the owner.
   */
  lemma CloseAnswers(cfg: Settings, before: nat, s: State, tx: Transaction)
    requires cfg.weightToValueFactor != 0 && Invariant(cfg, before, s) && tx.call.CallCompleteEndValidation?
    ensures var proof := tx.call.registrationProof;
            && (Step(cfg, s, tx).Ok? <==>
                  && proof.Some? && !proof.value.valid
                  && (StatusOf(s, proof.value.validationID) == ValidatorStatus.PendingRemoved
                      || StatusOf(s, proof.value.validationID) == ValidatorStatus.PendingAdded))
            && (Step(cfg, s, tx).Ok? ==> Closed(cfg, s, Step(cfg, s, tx).value, proof.value.validationID))
  {
    var proof := tx.call.registrationProof;
    if proof.Some? {
      EndCompletesIff(cfg, before, s, proof.value.validationID, proof.value.valid);
      if Step(cfg, s, tx).Ok? {
        CloseChanges(cfg, s, proof, Step(cfg, s, tx).value);
      }
    }
  }

  /** What the close of a period changes, and nothing else. */
  ghost predicate Closed(cfg: Settings, s: State, s': State, id: ValidationID) {
    && id in s.validationPeriods
    && var v := s.validationPeriods[id];
    var completed := v.status == ValidatorStatus.PendingRemoved;
    var rewards := GetOr(s.redeemableValidatorRewards, id, 0);
    && s'.validationPeriods == s.validationPeriods[
         id := v.(status := if completed then ValidatorStatus.Completed else ValidatorStatus.Invalidated)]
    && s'.registeredValidators == s.registeredValidators - {v.nodeID}
    && if !IsPoS(s, id) then
         s' == s.(validationPeriods := s'.validationPeriods, registeredValidators := s'.registeredValidators)
       else
         var owner := s.posValidatorInfo[id].owner;
         var chosen := GetOr(s.rewardRecipients, id, 0);
         var to := if chosen == 0 then owner else chosen;
         var value := TokenValue(cfg.weightToValueFactor, v.startingWeight);
         && s'.balance == AfterReturn(cfg, AfterMint(cfg, s.balance, to, if completed then rewards else 0), owner, value)
         && s' == s.(
              validationPeriods := s'.validationPeriods, registeredValidators := s'.registeredValidators,
              rewardRecipients := s.rewardRecipients - {id}, balance := s'.balance,
              redeemableValidatorRewards :=
                if completed then s.redeemableValidatorRewards - {id} else s.redeemableValidatorRewards,
              history := s.history.(
                minted := s.history.minted + (if completed then [Payment(to := to, value := rewards)] else []),
                unlocked := Append(s.history.unlocked, ValidatorStake(id), Payment(to := owner, value := value))))
  }

  // ----- Fees, resends, recipients -----

  /** Exactly the owner of a completed PoS validator can claim what it can redeem, and is paid all of it. */
  lemma ClaimAnswers(cfg: Settings, s: State, tx: Transaction)
    requires cfg.weightToValueFactor != 0 && tx.call.CallClaimDelegationFees?
    ensures var id := tx.call.validationID;
            var rewards := GetOr(s.redeemableValidatorRewards, id, 0);
            && (Step(cfg, s, tx).Ok? <==>
                  && StatusOf(s, id) == ValidatorStatus.Completed
                  && IsPoS(s, id) && s.posValidatorInfo[id].owner == tx.caller)
            && (Step(cfg, s, tx).Ok? ==>
                  var s' := Step(cfg, s, tx).value;
                  && s'.balance == AfterMint(cfg, s.balance, tx.caller, rewards)
                  && s' == s.(redeemableValidatorRewards := s.redeemableValidatorRewards - {id},
                              balance := s'.balance,
                              history := s.history.(
                                minted := s.history.minted + [Payment(to := tx.caller, value := rewards)])))
  {
  }

  /** The end of a validation is told the P-Chain again exactly while the period is being removed. */
  lemma ResendEndAnswers(cfg: Settings, s: State, tx: Transaction)
    requires cfg.weightToValueFactor != 0 && tx.call.CallResendEndValidatorMessage?
    ensures var id := tx.call.validationID;
            && (Step(cfg, s, tx).Ok? <==> StatusOf(s, id) == ValidatorStatus.PendingRemoved)
            && (Step(cfg, s, tx).Ok? ==>
                  Step(cfg, s, tx).value == s.(history := s.history.(weightMessages := Append(
                    s.history.weightMessages, id,
                    WeightMessage(nonce := ValidatorOf(s, id).messageNonce, weight := 0)))))
  {
  }

  /** Exactly the owner of a PoS validator can choose who is paid its rewards, and not nobody. */
  lemma ChooseRecipientAnswers(cfg: Settings, s: State, tx: Transaction)
    requires cfg.weightToValueFactor != 0 && tx.call.CallChangeValidatorRewardRecipient?
    ensures var id, to := tx.call.validationID, tx.call.recipient;
            && (Step(cfg, s, tx).Ok? <==> to != 0 && IsPoS(s, id) && s.posValidatorInfo[id].owner == tx.caller)
            && (Step(cfg, s, tx).Ok? ==>
                  Step(cfg, s, tx).value == s.(rewardRecipients := s.rewardRecipients[id := to]))
  {
  }
}
