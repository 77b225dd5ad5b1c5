/** The calls on validators keep the invariant. */
module StakingValidatorCalls {
  import opened Wrappers
  import opened Numeric
  import opened MapSum
  import opened MessageTypes
  import opened ChurnTracker
  import opened StakingTypes
  import opened StakingSpec
  import opened StakingInvariants
  import opened StakingProofs

  // ----- Initial validators -----

  lemma EmptyBeforeInitialization(cfg: Settings, now: nat, s: State)
    requires cfg.weightToValueFactor != 0 && Invariant(cfg, now, s) && !s.initializedValidatorSet
    ensures s.validationPeriods == map[] && s.registeredValidators == map[] && s.posValidatorInfo == map[]
    ensures s.delegatorStakes == map[] && s.pendingRegisterValidationMessages == map[]
  {
    forall n ensures n !in s.registeredValidators {
      assert NodeAt(s.registeredValidators, s.validationPeriods, n);
    }
    forall id ensures id !in s.posValidatorInfo && id !in s.pendingRegisterValidationMessages {
      assert IdentityAt(s.pendingRegisterValidationMessages, s.validationPeriods, s.posValidatorInfo.Keys, id);
      assert id !in s.posValidatorInfo.Keys;
    }
    forall k ensures k !in s.delegatorStakes {
      assert DelegationAt(s.validationPeriods, s.posValidatorInfo.Keys, s.delegatorStakes, k);
    }
  }

  /** The last step of storing initial validators. */
  lemma StoringStep(now: Timestamp, s: State, data: ConversionData, n: nat)
    requires 0 < n <= |data.initialValidators| && StoreInitialValidators(now, s, data, n).Ok?
    ensures StoreInitialValidators(now, s, data, n - 1).Ok?
    ensures var (s1, sum) := StoreInitialValidators(now, s, data, n - 1).value;
            var v, id := data.initialValidators[n - 1], Initial(data.subnetID, n - 1);
            && v.nodeID !in s1.registeredValidators
            && StoreInitialValidators(now, s, data, n).value
               == (s1.(registeredValidators := s1.registeredValidators[v.nodeID := id],
                       validationPeriods := s1.validationPeriods[
                         id := Validator(ValidatorStatus.Active, v.nodeID, v.weight, 0, v.weight, now, 0)]),
                   sum + v.weight)
  {
  }

  /** Nothing but the periods and the registry differs. */
  ghost predicate SameBesidesPeriods(s: State, s': State) {
    s' == s.(registeredValidators := s'.registeredValidators, validationPeriods := s'.validationPeriods)
  }

  lemma SameTransitive(s: State, s1: State, s2: State)
    requires SameBesidesPeriods(s, s1) && SameBesidesPeriods(s1, s2)
    ensures SameBesidesPeriods(s, s2)
  {
  }

  /** Storing initial validators touches nothing but the periods and the registry. */
  lemma {:induction false} InitialValidatorsFrame(now: Timestamp, s: State, data: ConversionData, n: nat)
    requires n <= |data.initialValidators| && StoreInitialValidators(now, s, data, n).Ok?
    ensures SameBesidesPeriods(s, StoreInitialValidators(now, s, data, n).value.0)
  {
    if n > 0 {
      StoringStep(now, s, data, n);
      InitialValidatorsFrame(now, s, data, n - 1);
      SameTransitive(s, StoreInitialValidators(now, s, data, n - 1).value.0,
                     StoreInitialValidators(now, s, data, n).value.0);
    }
  }

  /** An initial validator as it is stored. */
  ghost predicate InitialAt(data: ConversionData, n: nat, periods: map<ValidationID, Validator>, id: ValidationID) {
    id in periods ==>
      && id.Initial? && id.subnetID == data.subnetID && id.index < n
      && var v := periods[id];
      && v.status == ValidatorStatus.Active && v.weight == v.startingWeight && v.messageNonce == 0
  }

  ghost predicate InitialsOK(data: ConversionData, n: nat, periods: map<ValidationID, Validator>) {
    forall id :: InitialAt(data, n, periods, id)
  }

  lemma {:induction false} StoreInitialValidatorsKeeps(now: Timestamp, s: State, data: ConversionData, n: nat)
    requires n <= |data.initialValidators|
    requires s.validationPeriods == map[] && s.registeredValidators == map[]
    requires StoreInitialValidators(now, s, data, n).Ok?
    ensures var (s', total) := StoreInitialValidators(now, s, data, n).value;
            && total == Sum(s'.validationPeriods, WeightOf())
            && RegistryOK(s'.registeredValidators, s'.validationPeriods)
            && InitialsOK(data, n, s'.validationPeriods)
  {
    if n == 0 {
      forall k ensures NodeAt(s.registeredValidators, s.validationPeriods, k) {}
      forall k ensures RegisteredAt(s.registeredValidators, s.validationPeriods, k) {}
      forall k ensures InitialAt(data, 0, s.validationPeriods, k) {}
    } else {
      StoringStep(now, s, data, n);
      StoreInitialValidatorsKeeps(now, s, data, n - 1);
      var (s1, sum) := StoreInitialValidators(now, s, data, n - 1).value;
      var v := data.initialValidators[n - 1];
      var id := Initial(data.subnetID, n - 1);
      var w := Validator(ValidatorStatus.Active, v.nodeID, v.weight, 0, v.weight, now, 0);
      assert InitialAt(data, n - 1, s1.validationPeriods, id);
      RegistryAdd(s1.registeredValidators, s1.validationPeriods, id, w);
      Update(s1.validationPeriods, id, w, WeightOf());
      InitialsAdd(data, n - 1, s1.validationPeriods, id, w);
    }
  }

  lemma InitialsAdd(data: ConversionData, n: nat, periods: map<ValidationID, Validator>, id: ValidationID, w: Validator)
    requires InitialsOK(data, n, periods) && id == Initial(data.subnetID, n)
    requires w.status == ValidatorStatus.Active && w.weight == w.startingWeight && w.messageNonce == 0
    ensures InitialsOK(data, n + 1, periods[id := w])
  {
    var n', periods' := n + 1, periods[id := w];
    forall k ensures InitialAt(data, n', periods', k) {
      assert InitialAt(data, n, periods, k);
    }
  }

  lemma StartingWithinLimit(weight: nat, multiplier: nat)
    requires multiplier >= 1
    ensures weight <= weight * multiplier
  {
  }

  lemma InitialWeights(cfg: Settings, data: ConversionData, n: nat, periods: map<ValidationID, Validator>,
                       delegations: map<DelegationID, Delegator>)
    requires cfg.maximumStakeMultiplier >= 1 && delegations == map[] && InitialsOK(data, n, periods)
    ensures WeightsOK(cfg, periods, delegations) && DelegationsOK(periods, {}, delegations)
  {
    forall id ensures WeightAt(cfg, periods, delegations, id) {
      assert InitialAt(data, n, periods, id);
      if id in periods {
        StartingWithinLimit(periods[id].startingWeight, cfg.maximumStakeMultiplier);
        Zero(delegations, Backing(id));
      }
    }
    forall k ensures DelegationAt(periods, {}, delegations, k) {}
  }

  /** The parts of the invariant about stake and messages, which initial validators have none of. */
  lemma InitialOthers(factor: nat, data: ConversionData, n: nat, s: State, periods': map<ValidationID, Validator>)
    requires factor != 0 && InitialsOK(data, n, periods')
    requires s.validationPeriods == map[] && s.posValidatorInfo == map[] && s.delegatorStakes == map[]
    requires s.pendingRegisterValidationMessages == map[]
    requires ValidatorStakesOK(factor, s.history.locked, s.history.unlocked, s.validationPeriods, s.posValidatorInfo)
    requires DelegatorStakesOK(factor, s.history.locked, s.history.unlocked, s.validationPeriods, s.delegatorStakes)
    requires MessagesOK(s.history.weightMessages, s.validationPeriods)
    ensures ValidatorStakesOK(factor, s.history.locked, s.history.unlocked, periods', s.posValidatorInfo)
    ensures DelegatorStakesOK(factor, s.history.locked, s.history.unlocked, periods', s.delegatorStakes)
    ensures MessagesOK(s.history.weightMessages, periods')
    ensures IdentityOK(s.pendingRegisterValidationMessages, periods', s.posValidatorInfo.Keys)
    ensures EscrowOK(factor, s.balance, periods', s.posValidatorInfo.Keys, s.delegatorStakes)
  {
    var h := s.history;
    forall id ensures ValidatorStakeAt(factor, h.locked, h.unlocked, periods', s.posValidatorInfo, id) {
      assert ValidatorStakeAt(factor, h.locked, h.unlocked, s.validationPeriods, s.posValidatorInfo, id);
    }
    forall k ensures DelegatorStakeAt(factor, h.locked, h.unlocked, periods', s.delegatorStakes, k) {
      assert DelegatorStakeAt(factor, h.locked, h.unlocked, s.validationPeriods, s.delegatorStakes, k);
    }
    forall id ensures MessagesAt(h.weightMessages, periods', id) {
      assert MessagesAt(h.weightMessages, s.validationPeriods, id);
      assert InitialAt(data, n, periods', id);
    }
    forall id ensures IdentityAt(s.pendingRegisterValidationMessages, periods', s.posValidatorInfo.Keys, id) {
      assert InitialAt(data, n, periods', id);
    }
    Zero(periods', ValidatorEscrow(factor, s.posValidatorInfo.Keys));
    Zero(s.delegatorStakes, DelegatorEscrow(factor));
  }

  lemma InitializationCore(cfg: Settings, before: nat, s: State, data: ConversionData, n: nat, total: nat,
                           registered': map<NodeID, ValidationID>, periods': map<ValidationID, Validator>)
    requires ValidSettings(cfg) && Invariant(cfg, before, s) && !s.initializedValidatorSet
    requires total == Sum(periods', WeightOf()) && total * cfg.churn.maximumPercentage >= 100
    requires RegistryOK(registered', periods') && InitialsOK(data, n, periods')
    ensures Invariant(cfg, before, s.(
                        registeredValidators := registered', validationPeriods := periods',
                        churnTracker := s.churnTracker.(totalWeight := total), initializedValidatorSet := true,
                        history := s.history.(initialTotal := total)))
  {
    EmptyBeforeInitialization(cfg, before, s);
    InitialWeights(cfg, data, n, periods', s.delegatorStakes);
    InitialOthers(cfg.weightToValueFactor, data, n, s, periods');
    FreshReplay(cfg.churn, total, s.history.changes);
  }

  lemma FreshReplay(limit: Limit, total: nat, changes: seq<Change>)
    requires changes == []
    ensures Replay(limit, total, changes, |changes|) == Ok(Fresh(0).(totalWeight := total))
  {
  }

  lemma InitializeValidatorSetKeeps(
    cfg: Settings, before: nat, now: Timestamp, s: State, data: ConversionData, proof: Option<seq<Byte>>)
    requires ValidSettings(cfg) && Invariant(cfg, before, s) && before <= now
    requires InitializeValidatorSet(cfg, now, s, data, proof).Ok?
    ensures Invariant(cfg, now, InitializeValidatorSet(cfg, now, s, data, proof).value)
  {
    EmptyBeforeInitialization(cfg, before, s);
    var n := |data.initialValidators|;
    StoreInitialValidatorsKeeps(now, s, data, n);
    InitialValidatorsFrame(now, s, data, n);
    var (s1, total) := StoreInitialValidators(now, s, data, n).value;
    InvariantLater(cfg, before, now, s);
    InitializationCore(cfg, now, s, data, n, total, s1.registeredValidators, s1.validationPeriods);
  }

  // ----- Registration -----

  lemma RegisterPeriodEffect(cfg: Settings, now: Timestamp, s: State, input: RegistrationInput, weight: nat)
    requires RegisterPeriod(cfg, now, s, input, weight).Ok?
    ensures s.initializedValidatorSet && input.nodeID !in s.registeredValidators
    ensures var s' := RegisterPeriod(cfg, now, s, input, weight).value;
            var message := RegistrationMessage(cfg, input, weight);
            var id := Registered(message);
            var c := Change(now, weight, 0);
            && CheckAndUpdate(cfg.churn, s.churnTracker, c) == Ok(s'.churnTracker)
            && s' == s.(churnTracker := s'.churnTracker,
                        pendingRegisterValidationMessages := s.pendingRegisterValidationMessages[id := message],
                        registeredValidators := s.registeredValidators[input.nodeID := id],
                        validationPeriods := s.validationPeriods[
                          id := Validator(ValidatorStatus.PendingAdded, input.nodeID, weight, 0, weight, 0, 0)],
                        history := s.history.(changes := s.history.changes + [c]))
  {
  }

  lemma IdentityAdd(pending: map<ValidationID, ValidationPeriod>, periods: map<ValidationID, Validator>,
                    pos: set<ValidationID>, id: ValidationID, w: Validator)
    requires IdentityOK(pending, periods, pos)
    requires id.Registered? && w.nodeID == id.period.nodeID && w.startingWeight == id.period.weight
    ensures IdentityOK(pending[id := id.period], periods[id := w], pos + {id})
  {
    var pending', periods', pos' := pending[id := id.period], periods[id := w], pos + {id};
    forall k ensures IdentityAt(pending', periods', pos', k) {
      assert IdentityAt(pending, periods, pos, k);
    }
  }

  lemma EscrowAdd(factor: nat, balance: nat, periods: map<ValidationID, Validator>, pos: set<ValidationID>,
                  delegations: map<DelegationID, Delegator>, id: ValidationID, w: Validator, received: Uint256)
    requires factor != 0 && EscrowOK(factor, balance, periods, pos, delegations)
    requires (id in periods ==> !Live(periods[id].status)) && w.startingWeight == Worth(factor, received)
    ensures EscrowOK(factor, balance + received, periods[id := w], pos + {id}, delegations)
  {
    Agree(periods, ValidatorEscrow(factor, pos), ValidatorEscrow(factor, pos + {id}));
    Update(periods, id, w, ValidatorEscrow(factor, pos + {id}));
    DepositRoundsDown(factor, received);
  }

  /** A first-time registration finds no trace of its ID. */
  lemma NewPeriodKept(cfg: Settings, s: State, id: ValidationID, w: Validator)
    requires id !in s.validationPeriods
    requires w.status == ValidatorStatus.PendingAdded && w.weight == w.startingWeight && w.messageNonce == 0
    requires WeightsOK(cfg, s.validationPeriods, s.delegatorStakes)
    requires DelegationsOK(s.validationPeriods, s.posValidatorInfo.Keys, s.delegatorStakes)
    requires MessagesOK(s.history.weightMessages, s.validationPeriods)
    ensures WeightsOK(cfg, s.validationPeriods[id := w], s.delegatorStakes)
    ensures DelegationsOK(s.validationPeriods[id := w], s.posValidatorInfo.Keys + {id}, s.delegatorStakes)
    ensures MessagesOK(s.history.weightMessages, s.validationPeriods[id := w])
  {
    var periods', pos' := s.validationPeriods[id := w], s.posValidatorInfo.Keys + {id};
    forall k ensures DelegationAt(periods', pos', s.delegatorStakes, k) {
      assert DelegationAt(s.validationPeriods, s.posValidatorInfo.Keys, s.delegatorStakes, k);
    }
    forall k ensures WeightAt(cfg, periods', s.delegatorStakes, k) {
      assert WeightAt(cfg, s.validationPeriods, s.delegatorStakes, k);
      if k == id {
        forall d | d in s.delegatorStakes ensures Backing(id)(d, s.delegatorStakes[d]) == 0 {
          assert DelegationAt(s.validationPeriods, s.posValidatorInfo.Keys, s.delegatorStakes, d);
        }
        Zero(s.delegatorStakes, Backing(id));
      }
    }
    forall k ensures MessagesAt(s.history.weightMessages, periods', k) {
      assert MessagesAt(s.history.weightMessages, s.validationPeriods, k);
    }
  }

  lemma RegistrationCore(cfg: Settings, before: nat, s: State, id: ValidationID, w: Validator, c: Change,
                         tracker': Tracker, info: PoSValidatorInfo, received: Uint256, s': State)
    requires ValidSettings(cfg) && Invariant(cfg, before, s) && before <= c.now && c.now > 0
    requires s.initializedValidatorSet && id.Registered? && id !in s.validationPeriods
    requires w == Validator(ValidatorStatus.PendingAdded, id.period.nodeID, id.period.weight, 0, id.period.weight, 0, 0)
    requires w.nodeID !in s.registeredValidators && w.weight == Worth(cfg.weightToValueFactor, received)
    requires c.oldWeight == 0 && c.newWeight == w.weight
    requires CheckAndUpdate(cfg.churn, s.churnTracker, c) == Ok(tracker')
    requires s' == s.(churnTracker := tracker',
                      pendingRegisterValidationMessages := s.pendingRegisterValidationMessages[id := id.period],
                      registeredValidators := s.registeredValidators[w.nodeID := id],
                      validationPeriods := s.validationPeriods[id := w],
                      posValidatorInfo := s.posValidatorInfo[id := info],
                      rewardRecipients := s'.rewardRecipients,
                      balance := s.balance + received,
                      history := s.history.(
                        changes := s.history.changes + [c],
                        locked := Append(s.history.locked, ValidatorStake(id), Deposit(info.owner, received))))
    ensures Invariant(cfg, c.now, s')
  {
    var factor, pos := cfg.weightToValueFactor, s.posValidatorInfo.Keys;
    assert s'.posValidatorInfo.Keys == pos + {id};
    assert IdentityAt(s.pendingRegisterValidationMessages, s.validationPeriods, pos, id);
    NewPeriodKept(cfg, s, id, w);
    ChurnKept(cfg.churn, before, s.churnTracker, s.history.initialTotal, s.history.changes, c, tracker');
    TotalAfterUpdate(cfg, s.churnTracker, s.validationPeriods, c, tracker', id, w);
    RegistryAdd(s.registeredValidators, s.validationPeriods, id, w);
    IdentityAdd(s.pendingRegisterValidationMessages, s.validationPeriods, pos, id, w);
    EscrowAdd(factor, s.balance, s.validationPeriods, pos, s.delegatorStakes, id, w, received);
    ValidatorDeposit(factor, s, id, w, info, received);
  }

  /** What a PoS registration changes. */
  lemma RegistrationEffect(
    cfg: Settings, now: Timestamp, caller: Account, s: State,
    input: RegistrationInput, delegationFeeBips: nat, minStakeDuration: nat, stakeAmount: nat, received: Uint256)
    requires cfg.weightToValueFactor != 0
    requires InitializeValidatorRegistration(cfg, now, caller, s, input, delegationFeeBips, minStakeDuration,
                                             stakeAmount, received).Ok?
    ensures s.initializedValidatorSet && input.nodeID !in s.registeredValidators
    ensures var (s', id) := InitializeValidatorRegistration(cfg, now, caller, s, input, delegationFeeBips,
                                                            minStakeDuration, stakeAmount, received).value;
            var weight := Worth(cfg.weightToValueFactor, received);
            var message, c := RegistrationMessage(cfg, input, weight), Change(now, weight, 0);
            && id == Registered(message)
            && CheckAndUpdate(cfg.churn, s.churnTracker, c) == Ok(s'.churnTracker)
            && s' == s.(churnTracker := s'.churnTracker,
                        pendingRegisterValidationMessages := s.pendingRegisterValidationMessages[id := message],
                        registeredValidators := s.registeredValidators[input.nodeID := id],
                        validationPeriods := s.validationPeriods[
                          id := Validator(ValidatorStatus.PendingAdded, input.nodeID, weight, 0, weight, 0, 0)],
                        posValidatorInfo := s.posValidatorInfo[
                          id := PoSValidatorInfo(caller, delegationFeeBips, minStakeDuration, 0)],
                        rewardRecipients := s.rewardRecipients[id := caller],
                        balance := s.balance + received,
                        history := s.history.(
                          changes := s.history.changes + [c],
                          locked := Append(s.history.locked, ValidatorStake(id), Deposit(caller, received))))
  {
    RegisterPeriodEffect(cfg, now, s, input, Worth(cfg.weightToValueFactor, received));
  }

  lemma InitializeValidatorRegistrationKeeps(
    cfg: Settings, before: nat, now: Timestamp, caller: Account, s: State,
    input: RegistrationInput, delegationFeeBips: nat, minStakeDuration: nat, stakeAmount: nat, received: Uint256)
    requires ValidSettings(cfg) && Invariant(cfg, before, s) && before <= now
    requires Registered(RegistrationMessage(cfg, input, received / cfg.weightToValueFactor)) !in s.validationPeriods
    requires InitializeValidatorRegistration(cfg, now, caller, s, input, delegationFeeBips, minStakeDuration,
                                             stakeAmount, received).Ok?
    ensures Invariant(cfg, now, InitializeValidatorRegistration(
                        cfg, now, caller, s, input, delegationFeeBips, minStakeDuration, stakeAmount,
                        received).value.0)
  {
    RegistrationEffect(cfg, now, caller, s, input, delegationFeeBips, minStakeDuration, stakeAmount, received);
    var weight := Worth(cfg.weightToValueFactor, received);
    var s' := InitializeValidatorRegistration(
      cfg, now, caller, s, input, delegationFeeBips, minStakeDuration, stakeAmount, received).value.0;
    RegistrationCore(cfg, before, s, Registered(RegistrationMessage(cfg, input, weight)),
                     Validator(ValidatorStatus.PendingAdded, input.nodeID, weight, 0, weight, 0, 0),
                     Change(now, weight, 0), s'.churnTracker,
                     PoSValidatorInfo(caller, delegationFeeBips, minStakeDuration, 0), received, s');
  }

  lemma CompleteRegistrationCore(cfg: Settings, now: nat, s: State, id: ValidationID, w: Validator)
    requires ValidSettings(cfg) && Invariant(cfg, now, s)
    requires id in s.validationPeriods && s.validationPeriods[id].status == ValidatorStatus.PendingAdded
    requires w == s.validationPeriods[id].(status := ValidatorStatus.Active, startedAt := w.startedAt)
    ensures Invariant(cfg, now, s.(
                        pendingRegisterValidationMessages := s.pendingRegisterValidationMessages - {id},
                        validationPeriods := s.validationPeriods[id := w]))
  {
    var factor, pos := cfg.weightToValueFactor, s.posValidatorInfo.Keys;
    assert WeightAt(cfg, s.validationPeriods, s.delegatorStakes, id);
    StartingWithinLimit(w.startingWeight, cfg.maximumStakeMultiplier);
    WeightsKept(cfg, s.validationPeriods, pos, s.delegatorStakes, id, w);
    TotalKept(cfg, s.churnTracker.totalWeight, s.validationPeriods, id, w);
    RegistryKept(s.registeredValidators, s.validationPeriods, id, w);
    EscrowKept(factor, s.balance, s.validationPeriods, pos, s.delegatorStakes, id, w);
    MessagesKept(s.history.weightMessages, s.validationPeriods, id, w);
    StakesKept(factor, s, id, w);
    IdentityKept(s.pendingRegisterValidationMessages, s.validationPeriods, pos, id, w);
  }

  lemma InvariantLater(cfg: Settings, before: nat, now: nat, s: State)
    requires cfg.weightToValueFactor != 0 && Invariant(cfg, before, s) && before <= now
    ensures Invariant(cfg, now, s)
  {
  }

  lemma CompleteValidatorRegistrationKeeps(
    cfg: Settings, before: nat, now: Timestamp, s: State, proof: Option<RegistrationProof>)
    requires ValidSettings(cfg) && Invariant(cfg, before, s) && before <= now
    requires CompleteValidatorRegistration(now, s, proof).Ok?
    ensures Invariant(cfg, now, CompleteValidatorRegistration(now, s, proof).value)
  {
    InvariantLater(cfg, before, now, s);
    var id := proof.value.validationID;
    CompleteRegistrationCore(cfg, now, s, id,
                             s.validationPeriods[id].(status := ValidatorStatus.Active, startedAt := now));
  }

  // ----- End of a validation period -----

  lemma EndPeriodEffect(cfg: Settings, now: Timestamp, s: State, id: ValidationID)
    requires EndPeriod(cfg, now, s, id).Ok?
    ensures id in s.validationPeriods && s.validationPeriods[id].status == ValidatorStatus.Active
    ensures var s' := EndPeriod(cfg, now, s, id).value;
            var v := s.validationPeriods[id];
            var w := v.(status := ValidatorStatus.PendingRemoved, endedAt := now,
                        messageNonce := v.messageNonce + 1, weight := 0);
            var c := Change(now, 0, v.weight);
            && CheckAndUpdate(cfg.churn, s.churnTracker, c) == Ok(s'.churnTracker)
            && s' == s.(validationPeriods := s.validationPeriods[id := w], churnTracker := s'.churnTracker,
                        history := s.history.(
                          changes := s.history.changes + [c],
                          weightMessages := Append(s.history.weightMessages, id, WeightMessage(w.messageNonce, 0))))
  {
    var v := s.validationPeriods[id];
    var s1 := s.(validationPeriods := s.validationPeriods[
                   id := v.(status := ValidatorStatus.PendingRemoved, endedAt := now)]);
    WeightUpdate(cfg, now, s1, id, 0);
    var w := v.(status := ValidatorStatus.PendingRemoved, endedAt := now,
                messageNonce := v.messageNonce + 1, weight := 0);
    assert s1.validationPeriods[id := w] == s.validationPeriods[id := w];
  }

  lemma EndPeriodCore(cfg: Settings, before: nat, s: State, id: ValidationID, c: Change, tracker': Tracker, w: Validator,
                      s': State)
    requires cfg.weightToValueFactor != 0
    requires Invariant(cfg, before, s) && before <= c.now && c.now > 0 && s.initializedValidatorSet
    requires id in s.validationPeriods && s.validationPeriods[id].status == ValidatorStatus.Active
    requires w == s.validationPeriods[id].(status := ValidatorStatus.PendingRemoved, endedAt := c.now,
                                           messageNonce := s.validationPeriods[id].messageNonce + 1, weight := 0)
    requires c == Change(c.now, 0, s.validationPeriods[id].weight)
    requires CheckAndUpdate(cfg.churn, s.churnTracker, c) == Ok(tracker')
    requires s' == s.(validationPeriods := s.validationPeriods[id := w], churnTracker := tracker',
                      history := s.history.(
                        changes := s.history.changes + [c],
                        weightMessages := Append(s.history.weightMessages, id, WeightMessage(w.messageNonce, 0))))
    ensures Invariant(cfg, c.now, s')
  {
    var factor, pos := cfg.weightToValueFactor, s.posValidatorInfo.Keys;
    ChurnKept(cfg.churn, before, s.churnTracker, s.history.initialTotal, s.history.changes, c, tracker');
    TotalAfterUpdate(cfg, s.churnTracker, s.validationPeriods, c, tracker', id, w);
    RegistryKept(s.registeredValidators, s.validationPeriods, id, w);
    EscrowKept(factor, s.balance, s.validationPeriods, pos, s.delegatorStakes, id, w);
    MessagesUp(s.history.weightMessages, s.validationPeriods, id, w);
    StakesKept(factor, s, id, w);
    IdentityKept(s.pendingRegisterValidationMessages, s.validationPeriods, pos, id, w);
    WeightsKept(cfg, s.validationPeriods, pos, s.delegatorStakes, id, w);
  }

  lemma EndPeriodKeeps(cfg: Settings, before: nat, now: Timestamp, s: State, id: ValidationID)
    requires cfg.weightToValueFactor != 0 && Invariant(cfg, before, s) && before <= now
    requires EndPeriod(cfg, now, s, id).Ok?
    ensures Invariant(cfg, now, EndPeriod(cfg, now, s, id).value)
  {
    EndPeriodEffect(cfg, now, s, id);
    var v, s' := s.validationPeriods[id], EndPeriod(cfg, now, s, id).value;
    EndPeriodCore(cfg, before, s, id, Change(now, 0, v.weight), s'.churnTracker, s'.validationPeriods[id], s');
  }

  lemma UptimeKeeps(cfg: Settings, now: nat, s: State, id: ValidationID, info: PoSValidatorInfo)
    requires cfg.weightToValueFactor != 0 && InvariantExceptRewards(cfg, now, s)
    requires id in s.posValidatorInfo && info.owner == s.posValidatorInfo[id].owner
    ensures InvariantExceptRewards(cfg, now, s.(posValidatorInfo := s.posValidatorInfo[id := info]))
  {
    var factor, h, info' := cfg.weightToValueFactor, s.history, s.posValidatorInfo[id := info];
    assert info'.Keys == s.posValidatorInfo.Keys;
    forall k ensures ValidatorStakeAt(factor, h.locked, h.unlocked, s.validationPeriods, info', k) {
      assert ValidatorStakeAt(factor, h.locked, h.unlocked, s.validationPeriods, s.posValidatorInfo, k);
    }
  }

  lemma MaybeUpdateUptimeKeeps(cfg: Settings, now: nat, s: State, id: ValidationID, withProof: bool,
                               proof: Option<UptimeProof>)
    requires cfg.weightToValueFactor != 0 && Invariant(cfg, now, s) && IsPoS(s, id)
    requires MaybeUpdateUptime(s, id, withProof, proof).Ok?
    ensures Invariant(cfg, now, MaybeUpdateUptime(s, id, withProof, proof).value)
  {
    if withProof && proof.value.uptime > s.posValidatorInfo[id].uptimeSeconds {
      UptimeKeeps(cfg, now, s, id, s.posValidatorInfo[id].(uptimeSeconds := proof.value.uptime));
    }
  }

  lemma AwardValidatorKeeps(cfg: Settings, now: nat, s: State, id: ValidationID, recipient: Address)
    requires cfg.weightToValueFactor != 0 && Invariant(cfg, now, s) && IsPoS(s, id)
    requires AwardValidator(cfg, s, id, recipient).Ok?
    ensures Invariant(cfg, now, AwardValidator(cfg, s, id, recipient).value.0)
  {
    var (s', reward) := AwardValidator(cfg, s, id, recipient).value;
    var redeemable: nat := s'.redeemableValidatorRewards[id];
    Update(s.redeemableValidatorRewards, id, redeemable, Amount());
  }

  /** The stages of a successful end of validation. */
  lemma EndValidationStages(
    cfg: Settings, now: Timestamp, caller: Account, s: State,
    id: ValidationID, withProof: bool, proof: Option<UptimeProof>, recipient: Address, force: bool)
    requires InitializeEndValidation(cfg, now, caller, s, id, withProof, proof, recipient, force).Ok?
    ensures EndPeriod(cfg, now, s, id).Ok?
    ensures var r := InitializeEndValidation(cfg, now, caller, s, id, withProof, proof, recipient, force);
            var s1 := EndPeriod(cfg, now, s, id).value;
            if IsPoS(s1, id) then
              var s2 := MaybeUpdateUptime(s1, id, withProof, proof);
              && s2.Ok? && AwardValidator(cfg, s2.value, id, recipient).Ok?
              && r.value == AwardValidator(cfg, s2.value, id, recipient).value.0
            else r.value == s1
  {
  }

  lemma InitializeEndValidationKeeps(
    cfg: Settings, before: nat, now: Timestamp, caller: Account, s: State,
    id: ValidationID, withProof: bool, proof: Option<UptimeProof>, recipient: Address, force: bool)
    requires cfg.weightToValueFactor != 0 && Invariant(cfg, before, s) && before <= now
    requires InitializeEndValidation(cfg, now, caller, s, id, withProof, proof, recipient, force).Ok?
    ensures Invariant(cfg, now,
                      InitializeEndValidation(cfg, now, caller, s, id, withProof, proof, recipient, force).value)
  {
    EndValidationStages(cfg, now, caller, s, id, withProof, proof, recipient, force);
    EndPeriodKeeps(cfg, before, now, s, id);
    var s1 := EndPeriod(cfg, now, s, id).value;
    if IsPoS(s1, id) {
      MaybeUpdateUptimeKeeps(cfg, now, s1, id, withProof, proof);
      AwardValidatorKeeps(cfg, now, MaybeUpdateUptime(s1, id, withProof, proof).value, id, recipient);
    }
  }

  // ----- Acknowledged end -----

  lemma WithdrawKeepsLedger(h: History, rewards: map<ValidationID, nat>, delegatorRewards: map<DelegationID, nat>,
                            id: ValidationID, to: Address)
    requires LedgerOK(h.awarded, Total(h.minted), rewards, delegatorRewards)
    ensures LedgerOK(h.awarded, Total(h.minted + [Payment(to, GetOr(rewards, id, 0))]), rewards - {id}, delegatorRewards)
  {
    TotalAppend(h.minted, Payment(to, GetOr(rewards, id, 0)));
    Delete(rewards, id, Amount());
  }

  /** What remains of the weights when a period closes. */
  lemma ClosedWeights(cfg: Settings, periods: map<ValidationID, Validator>, pos: set<ValidationID>,
                      delegations: map<DelegationID, Delegator>, id: ValidationID, w: Validator)
    requires WeightsOK(cfg, periods, delegations) && DelegationsOK(periods, pos, delegations)
    requires id in periods
    requires w == periods[id].(status := w.status)
    requires || (periods[id].status == ValidatorStatus.PendingRemoved && w.status == ValidatorStatus.Completed)
             || (periods[id].status == ValidatorStatus.PendingAdded && w.status == ValidatorStatus.Invalidated)
    ensures WeightsOK(cfg, periods[id := w], delegations) && DelegationsOK(periods[id := w], pos, delegations)
  {
    var periods' := periods[id := w];
    forall k ensures WeightAt(cfg, periods', delegations, k) {
      assert WeightAt(cfg, periods, delegations, k);
    }
    forall k ensures DelegationAt(periods', pos, delegations, k) {
      assert DelegationAt(periods, pos, delegations, k);
    }
  }

  /** The balance still covers the live stakes after a closed period's stake is paid out. */
  lemma ClosedEscrow(factor: nat, balance: nat, periods: map<ValidationID, Validator>, pos: set<ValidationID>,
                     delegations: map<DelegationID, Delegator>, id: ValidationID, w: Validator)
    requires EscrowOK(factor, balance, periods, pos, delegations)
    requires id in periods && Live(periods[id].status) && !Live(w.status)
    ensures var owed := OwedToValidator(factor, id in pos, periods[id]);
            owed <= balance && EscrowOK(factor, balance - owed, periods[id := w], pos, delegations)
  {
    Update(periods, id, w, ValidatorEscrow(factor, pos));
  }

  lemma ClosePeriodEffect(s: State, proof: Option<RegistrationProof>)
    requires ClosePeriod(s, proof).Ok?
    ensures proof.Some? && proof.value.validationID in s.validationPeriods && !proof.value.valid
    ensures var id := proof.value.validationID;
            var v := s.validationPeriods[id];
            var w := v.(status := if v.status == ValidatorStatus.PendingRemoved then ValidatorStatus.Completed
                                  else ValidatorStatus.Invalidated);
            && (v.status == ValidatorStatus.PendingRemoved || v.status == ValidatorStatus.PendingAdded)
            && ClosePeriod(s, proof).value ==
               s.(registeredValidators := s.registeredValidators - {v.nodeID},
                  validationPeriods := s.validationPeriods[id := w])
  {
  }

  lemma CloseCore(cfg: Settings, now: nat, s: State, id: ValidationID, w: Validator, s': State)
    requires cfg.weightToValueFactor != 0 && Invariant(cfg, now, s)
    requires id in s.validationPeriods && w == s.validationPeriods[id].(status := w.status)
    requires var v := s.validationPeriods[id];
             || (v.status == ValidatorStatus.PendingRemoved && w.status == ValidatorStatus.Completed)
             || (v.status == ValidatorStatus.PendingAdded && w.status == ValidatorStatus.Invalidated)
    requires var owed := OwedToValidator(cfg.weightToValueFactor, id in s.posValidatorInfo, s.validationPeriods[id]);
             && s'.balance >= s.balance - owed
             && s' == s.(registeredValidators := s.registeredValidators - {w.nodeID},
                         validationPeriods := s.validationPeriods[id := w],
                         redeemableValidatorRewards := s'.redeemableValidatorRewards,
                         rewardRecipients := s'.rewardRecipients,
                         balance := s'.balance,
                         history := s.history.(
                           minted := s'.history.minted,
                           unlocked := if id in s.posValidatorInfo then
                             Append(s.history.unlocked, ValidatorStake(id), Payment(s.posValidatorInfo[id].owner, owed))
                             else s.history.unlocked))
    requires LedgerOK(s.history.awarded, Total(s'.history.minted), s'.redeemableValidatorRewards, s.redeemableDelegatorRewards)
    ensures Invariant(cfg, now, s')
  {
    var factor, pos := cfg.weightToValueFactor, s.posValidatorInfo.Keys;
    ClosedWeights(cfg, s.validationPeriods, pos, s.delegatorStakes, id, w);
    TotalKept(cfg, s.churnTracker.totalWeight, s.validationPeriods, id, w);
    RegistryRemove(s.registeredValidators, s.validationPeriods, id, w);
    IdentityKept(s.pendingRegisterValidationMessages, s.validationPeriods, pos, id, w);
    ClosedEscrow(factor, s.balance, s.validationPeriods, pos, s.delegatorStakes, id, w);
    MessagesKept(s.history.weightMessages, s.validationPeriods, id, w);
    if id in s.posValidatorInfo {
      ValidatorReturn(factor, s, id, w);
    } else {
      UnstakedReturn(factor, s, id, w);
    }
  }

  /** Who is paid a validator's rewards: the recipient that was chosen, or the owner. */
  function RewardRecipient(s: State, id: ValidationID): Address
    requires IsPoS(s, id)
  {
    var chosen := GetOr(s.rewardRecipients, id, 0);
    if chosen == 0 then s.posValidatorInfo[id].owner else chosen
  }

  /** What paying out changes. */
  lemma PayOutEffect(cfg: Settings, s: State, id: ValidationID)
    requires IsPoS(s, id) && PayOut(cfg, s, id).Ok?
    ensures var s' := PayOut(cfg, s, id).value;
            var completed := ValidatorOf(s, id).status == ValidatorStatus.Completed;
            var value := TokenValue(cfg.weightToValueFactor, ValidatorOf(s, id).startingWeight);
            var rewards := GetOr(s.redeemableValidatorRewards, id, 0);
            && s'.balance >= s.balance - value
            && s' == s.(rewardRecipients := s.rewardRecipients - {id},
                        redeemableValidatorRewards :=
                          if completed then s.redeemableValidatorRewards - {id} else s.redeemableValidatorRewards,
                        balance := s'.balance,
                        history := s.history.(
                          minted := if completed then s.history.minted + [Payment(RewardRecipient(s, id), rewards)]
                                    else s.history.minted,
                          unlocked := Append(s.history.unlocked, ValidatorStake(id),
                                             Payment(s.posValidatorInfo[id].owner, value))))
  {
  }

  /** What an acknowledged end changes. */
  lemma CompleteEndEffect(cfg: Settings, s: State, proof: Option<RegistrationProof>)
    requires CompleteEndValidation(cfg, s, proof).Ok?
    ensures proof.Some? && proof.value.validationID in s.validationPeriods
    ensures var s' := CompleteEndValidation(cfg, s, proof).value;
            var id := proof.value.validationID;
            var v := s.validationPeriods[id];
            var w := v.(status := if v.status == ValidatorStatus.PendingRemoved then ValidatorStatus.Completed
                                  else ValidatorStatus.Invalidated);
            var owed := TokenValue(cfg.weightToValueFactor, v.startingWeight);
            var paid := IsPoS(s, id) && w.status == ValidatorStatus.Completed;
            && (v.status == ValidatorStatus.PendingRemoved || v.status == ValidatorStatus.PendingAdded)
            && s'.balance >= s.balance - (if IsPoS(s, id) then owed else 0)
            && s' == s.(registeredValidators := s.registeredValidators - {v.nodeID},
                        validationPeriods := s.validationPeriods[id := w],
                        redeemableValidatorRewards :=
                          if paid then s.redeemableValidatorRewards - {id} else s.redeemableValidatorRewards,
                        rewardRecipients := if IsPoS(s, id) then s.rewardRecipients - {id} else s.rewardRecipients,
                        balance := s'.balance,
                        history := s.history.(
                          minted := if paid then
                            s.history.minted + [Payment(RewardRecipient(s, id), GetOr(s.redeemableValidatorRewards, id, 0))]
                            else s.history.minted,
                          unlocked := if IsPoS(s, id) then
                            Append(s.history.unlocked, ValidatorStake(id), Payment(s.posValidatorInfo[id].owner, owed))
                            else s.history.unlocked))
  {
    ClosePeriodEffect(s, proof);
    if IsPoS(s, proof.value.validationID) {
      PayOutEffect(cfg, ClosePeriod(s, proof).value, proof.value.validationID);
    }
  }

  lemma CompleteEndValidationKeeps(
    cfg: Settings, before: nat, now: nat, s: State, proof: Option<RegistrationProof>)
    requires cfg.weightToValueFactor != 0 && Invariant(cfg, before, s) && before <= now
    requires CompleteEndValidation(cfg, s, proof).Ok?
    ensures Invariant(cfg, now, CompleteEndValidation(cfg, s, proof).value)
  {
    InvariantLater(cfg, before, now, s);
    CompleteEndEffect(cfg, s, proof);
    var id := proof.value.validationID;
    var s' := CompleteEndValidation(cfg, s, proof).value;
    if IsPoS(s, id) {
      WithdrawKeepsLedger(s.history, s.redeemableValidatorRewards, s.redeemableDelegatorRewards, id,
                          RewardRecipient(s, id));
    }
    CloseCore(cfg, now, s, id, s'.validationPeriods[id], s');
  }

  lemma ClaimDelegationFeesKeeps(cfg: Settings, before: nat, now: nat, caller: Account, s: State, id: ValidationID)
    requires cfg.weightToValueFactor != 0 && Invariant(cfg, before, s) && before <= now
    requires ClaimDelegationFees(cfg, caller, s, id).Ok?
    ensures Invariant(cfg, now, ClaimDelegationFees(cfg, caller, s, id).value)
  {
    InvariantLater(cfg, before, now, s);
    WithdrawKeepsLedger(s.history, s.redeemableValidatorRewards, s.redeemableDelegatorRewards, id, caller);
  }

  lemma ResendEndValidatorMessageKeeps(cfg: Settings, before: nat, now: nat, s: State, id: ValidationID)
    requires cfg.weightToValueFactor != 0 && Invariant(cfg, before, s) && before <= now
    requires ResendEndValidatorMessage(s, id).Ok?
    ensures Invariant(cfg, now, ResendEndValidatorMessage(s, id).value)
  {
    InvariantLater(cfg, before, now, s);
    assert WeightAt(cfg, s.validationPeriods, s.delegatorStakes, id);
    MessagesRepeat(s.history.weightMessages, s.validationPeriods, id);
  }
}
