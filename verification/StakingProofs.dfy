/** How changes to one validator, one delegation or one entry of a ledger keep the parts of the invariant. */
module StakingProofs {
  import opened Wrappers
  import opened Numeric
  import opened MapSum
  import opened ChurnTracker
  import opened StakingTypes
  import opened StakingSpec
  import opened StakingInvariants

  // ----- One validator changes -----

  /** A live validator stays live and stays the same validator; its nonce does not go back. */
  ghost predicate SameStanding(v: Validator, w: Validator) {
    && Live(v.status) && Live(w.status)
    && w.nodeID == v.nodeID && w.startingWeight == v.startingWeight && w.messageNonce >= v.messageNonce
  }

  lemma RegistryKept(registered: map<NodeID, ValidationID>, periods: map<ValidationID, Validator>,
                     id: ValidationID, w: Validator)
    requires RegistryOK(registered, periods)
    requires id in periods && SameStanding(periods[id], w)
    ensures RegistryOK(registered, periods[id := w])
  {
    var periods' := periods[id := w];
    forall n ensures NodeAt(registered, periods', n) {
      assert NodeAt(registered, periods, n);
    }
    forall k ensures RegisteredAt(registered, periods', k) {
      assert RegisteredAt(registered, periods, k);
    }
  }

  /** A node is registered. */
  lemma RegistryAdd(registered: map<NodeID, ValidationID>, periods: map<ValidationID, Validator>,
                    id: ValidationID, w: Validator)
    requires RegistryOK(registered, periods)
    requires (id in periods ==> !Live(periods[id].status)) && Live(w.status) && w.nodeID !in registered
    ensures RegistryOK(registered[w.nodeID := id], periods[id := w])
  {
    var registered', periods' := registered[w.nodeID := id], periods[id := w];
    forall n ensures NodeAt(registered', periods', n) {
      assert NodeAt(registered, periods, n);
    }
    forall k ensures RegisteredAt(registered', periods', k) {
      assert RegisteredAt(registered, periods, k);
    }
  }

  /** A node is unregistered. */
  lemma RegistryRemove(registered: map<NodeID, ValidationID>, periods: map<ValidationID, Validator>,
                       id: ValidationID, w: Validator)
    requires RegistryOK(registered, periods)
    requires id in periods && Live(periods[id].status) && !Live(w.status) && w.nodeID == periods[id].nodeID
    ensures RegistryOK(registered - {w.nodeID}, periods[id := w])
  {
    var registered', periods' := registered - {w.nodeID}, periods[id := w];
    assert RegisteredAt(registered, periods, id);
    forall n ensures NodeAt(registered', periods', n) {
      assert NodeAt(registered, periods, n);
    }
    forall k ensures RegisteredAt(registered', periods', k) {
      assert RegisteredAt(registered, periods, k);
    }
  }

  lemma EscrowKept(factor: nat, balance: nat, periods: map<ValidationID, Validator>, pos: set<ValidationID>,
                   delegations: map<DelegationID, Delegator>, id: ValidationID, w: Validator)
    requires EscrowOK(factor, balance, periods, pos, delegations)
    requires id in periods && SameStanding(periods[id], w)
    ensures EscrowOK(factor, balance, periods[id := w], pos, delegations)
  {
    Update(periods, id, w, ValidatorEscrow(factor, pos));
  }

  lemma TotalKept(cfg: Settings, total: nat, periods: map<ValidationID, Validator>, id: ValidationID, w: Validator)
    requires TotalOK(cfg, true, total, periods)
    requires id in periods && w.weight == periods[id].weight
    ensures TotalOK(cfg, true, total, periods[id := w])
  {
    Update(periods, id, w, WeightOf());
  }

  lemma MessagesKept(messages: map<ValidationID, seq<WeightMessage>>, periods: map<ValidationID, Validator>,
                     id: ValidationID, w: Validator)
    requires MessagesOK(messages, periods)
    requires id in periods && w.messageNonce == periods[id].messageNonce && w.weight == periods[id].weight
    ensures MessagesOK(messages, periods[id := w])
  {
    var periods' := periods[id := w];
    forall k ensures MessagesAt(messages, periods', k) {
      assert MessagesAt(messages, periods, k);
    }
  }

  lemma StakesKept(factor: nat, s: State, id: ValidationID, w: Validator)
    requires factor != 0
    requires id in s.validationPeriods && SameStanding(s.validationPeriods[id], w)
    requires ValidatorStakesOK(factor, s.history.locked, s.history.unlocked, s.validationPeriods, s.posValidatorInfo)
    requires DelegatorStakesOK(factor, s.history.locked, s.history.unlocked, s.validationPeriods, s.delegatorStakes)
    ensures ValidatorStakesOK(factor, s.history.locked, s.history.unlocked, s.validationPeriods[id := w],
                              s.posValidatorInfo)
    ensures DelegatorStakesOK(factor, s.history.locked, s.history.unlocked, s.validationPeriods[id := w],
                              s.delegatorStakes)
  {
    var h, periods' := s.history, s.validationPeriods[id := w];
    forall k ensures ValidatorStakeAt(factor, h.locked, h.unlocked, periods', s.posValidatorInfo, k) {
      assert ValidatorStakeAt(factor, h.locked, h.unlocked, s.validationPeriods, s.posValidatorInfo, k);
    }
    forall k ensures DelegatorStakeAt(factor, h.locked, h.unlocked, periods', s.delegatorStakes, k) {
      assert DelegatorStakeAt(factor, h.locked, h.unlocked, s.validationPeriods, s.delegatorStakes, k);
    }
  }

  lemma IdentityKept(pending: map<ValidationID, MessageTypes.ValidationPeriod>,
                     periods: map<ValidationID, Validator>, pos: set<ValidationID>, id: ValidationID, w: Validator)
    requires IdentityOK(pending, periods, pos)
    requires id in periods && w.nodeID == periods[id].nodeID && w.startingWeight == periods[id].startingWeight
    requires w.status != ValidatorStatus.PendingAdded
    ensures IdentityOK(pending, periods[id := w], pos)
    ensures IdentityOK(pending - {id}, periods[id := w], pos)
  {
    var periods', pending' := periods[id := w], pending - {id};
    forall k ensures IdentityAt(pending, periods', pos, k) && IdentityAt(pending', periods', pos, k) {
      assert IdentityAt(pending, periods, pos, k);
    }
  }

  /** Weights and delegations, when the new status of one validator says nothing about its delegations. */
  lemma WeightsKept(cfg: Settings, periods: map<ValidationID, Validator>, pos: set<ValidationID>,
                    delegations: map<DelegationID, Delegator>, id: ValidationID, w: Validator)
    requires WeightsOK(cfg, periods, delegations) && DelegationsOK(periods, pos, delegations)
    requires id in periods && WeightRule(cfg, w, Delegated(delegations, id))
    requires w.messageNonce >= periods[id].messageNonce
    requires w.status in {ValidatorStatus.Active, ValidatorStatus.PendingRemoved, ValidatorStatus.Completed}
    ensures WeightsOK(cfg, periods[id := w], delegations) && DelegationsOK(periods[id := w], pos, delegations)
  {
    var periods' := periods[id := w];
    forall k ensures WeightAt(cfg, periods', delegations, k) {
      assert WeightAt(cfg, periods, delegations, k);
    }
    forall k ensures DelegationAt(periods', pos, delegations, k) {
      assert DelegationAt(periods, pos, delegations, k);
    }
  }

  // ----- Churn and weight updates -----

  lemma {:induction false} ReplayAppend(limit: Limit, total: nat, changes: seq<Change>, c: Change, n: nat)
    requires n <= |changes|
    ensures Replay(limit, total, changes + [c], n) == Replay(limit, total, changes, n)
  {
    if n > 0 {
      ReplayAppend(limit, total, changes, c, n - 1);
    }
  }

  lemma ChronologicalAppend(before: nat, changes: seq<Change>, c: Change)
    requires Chronological(changes) && before <= c.now && c.now > 0
    requires forall i :: 0 <= i < |changes| ==> changes[i].now <= before
    ensures Chronological(changes + [c])
    ensures forall i :: 0 <= i < |changes + [c]| ==> (changes + [c])[i].now <= c.now
  {
  }

  lemma ChurnKept(limit: Limit, before: nat, tracker: Tracker, total: nat, changes: seq<Change>,
                  c: Change, tracker': Tracker)
    requires ChurnOK(limit, before, true, tracker, total, changes)
    requires before <= c.now && c.now > 0
    requires CheckAndUpdate(limit, tracker, c) == Ok(tracker')
    ensures ChurnOK(limit, c.now, true, tracker', total, changes + [c])
  {
    ReplayAppend(limit, total, changes, c, |changes|);
    ChronologicalAppend(before, changes, c);
    assert (changes + [c])[|changes|] == c;
  }

  lemma TotalAfterUpdate(cfg: Settings, tracker: Tracker, periods: map<ValidationID, Validator>, c: Change,
                         tracker': Tracker, id: ValidationID, w: Validator)
    requires TotalOK(cfg, true, tracker.totalWeight, periods)
    requires c.oldWeight == (if id in periods then periods[id].weight else 0) && c.newWeight == w.weight
    requires CheckAndUpdate(cfg.churn, tracker, c) == Ok(tracker')
    ensures TotalOK(cfg, true, tracker'.totalWeight, periods[id := w])
  {
    AcceptedChange(cfg.churn, tracker, c);
    Update(periods, id, w, WeightOf());
  }

  lemma MessagesUp(messages: map<ValidationID, seq<WeightMessage>>, periods: map<ValidationID, Validator>,
                   id: ValidationID, w: Validator)
    requires MessagesOK(messages, periods)
    requires id in periods && w.messageNonce == periods[id].messageNonce + 1
    ensures MessagesOK(Append(messages, id, WeightMessage(w.messageNonce, w.weight)), periods[id := w])
  {
    var messages', periods' := Append(messages, id, WeightMessage(w.messageNonce, w.weight)), periods[id := w];
    forall k ensures MessagesAt(messages', periods', k) {
      assert MessagesAt(messages, periods, k);
    }
  }

  lemma MessagesRepeat(messages: map<ValidationID, seq<WeightMessage>>, periods: map<ValidationID, Validator>,
                       id: ValidationID)
    requires MessagesOK(messages, periods)
    requires id in periods && periods[id].messageNonce > 0
    ensures MessagesOK(Append(messages, id, WeightMessage(periods[id].messageNonce, periods[id].weight)), periods)
  {
    var messages' := Append(messages, id, WeightMessage(periods[id].messageNonce, periods[id].weight));
    assert MessagesAt(messages, periods, id);
    forall k ensures MessagesAt(messages', periods, k) {
      assert MessagesAt(messages, periods, k);
    }
  }

  /** The effect of a weight update. */
  lemma WeightUpdate(cfg: Settings, now: Timestamp, s: State, id: ValidationID, newWeight: nat)
    requires id in s.validationPeriods
    requires SetValidatorWeight(cfg, now, s, id, newWeight).Ok?
    ensures var s' := SetValidatorWeight(cfg, now, s, id, newWeight).value;
            var v := s.validationPeriods[id];
            var c := Change(now, newWeight, v.weight);
            && CheckAndUpdate(cfg.churn, s.churnTracker, c) == Ok(s'.churnTracker)
            && s' == s.(validationPeriods := s.validationPeriods[
                          id := v.(messageNonce := v.messageNonce + 1, weight := newWeight)],
                        churnTracker := s'.churnTracker,
                        history := s.history.(
                          changes := s.history.changes + [c],
                          weightMessages := Append(s.history.weightMessages, id,
                                                   WeightMessage(v.messageNonce + 1, newWeight))))
  {
  }

  // ----- One delegation changes -----

  /** Replacing or removing a delegation to one validator leaves what is delegated to the others. */
  lemma DelegatedElsewhere(delegations: map<DelegationID, Delegator>, k: DelegationID, d: Delegator, id: ValidationID)
    requires d.validationID != id
    requires k in delegations ==> delegations[k].validationID == d.validationID
    ensures Delegated(delegations[k := d], id) == Delegated(delegations, id)
    ensures Delegated(delegations - {k}, id) == Delegated(delegations, id)
  {
    Update(delegations, k, d, Backing(id));
    Delete(delegations, k, Backing(id));
  }

  /**
   One validator and one of its delegations change together: the weight of the validator moves by what the delegation
   adds or stops adding.
   */
  lemma WeightsMoved(cfg: Settings, periods: map<ValidationID, Validator>, pos: set<ValidationID>,
                     delegations: map<DelegationID, Delegator>, k: DelegationID, d: Delegator, w: Validator)
    requires WeightsOK(cfg, periods, delegations) && DelegationsOK(periods, pos, delegations)
    requires d.validationID in periods && DelegationRule(periods[d.validationID := w], pos, k, d)
    requires k in delegations ==> delegations[k].validationID == d.validationID
    requires w.messageNonce >= periods[d.validationID].messageNonce
    requires WeightRule(cfg, w, Delegated(delegations[k := d], d.validationID))
    ensures WeightsOK(cfg, periods[d.validationID := w], delegations[k := d])
    ensures DelegationsOK(periods[d.validationID := w], pos, delegations[k := d])
  {
    var id := d.validationID;
    var periods', delegations' := periods[id := w], delegations[k := d];
    forall i ensures WeightAt(cfg, periods', delegations', i) {
      assert WeightAt(cfg, periods, delegations, i);
      if i != id {
        DelegatedElsewhere(delegations, k, d, i);
      }
    }
    forall i ensures DelegationAt(periods', pos, delegations', i) {
      assert DelegationAt(periods, pos, delegations, i);
    }
  }

  /** A delegation that no longer counts is removed. */
  lemma WeightsAfterRemoval(cfg: Settings, periods: map<ValidationID, Validator>, pos: set<ValidationID>,
                            delegations: map<DelegationID, Delegator>, k: DelegationID)
    requires WeightsOK(cfg, periods, delegations) && DelegationsOK(periods, pos, delegations)
    requires k in delegations && delegations[k].validationID in periods
    requires delegations[k].status == DelegatorStatus.PendingRemoved
             || periods[delegations[k].validationID].status == ValidatorStatus.Completed
    ensures WeightsOK(cfg, periods, delegations - {k}) && DelegationsOK(periods, pos, delegations - {k})
  {
    var d, delegations' := delegations[k], delegations - {k};
    forall i ensures WeightAt(cfg, periods, delegations', i) {
      assert WeightAt(cfg, periods, delegations, i);
      if i != d.validationID {
        DelegatedElsewhere(delegations, k, d, i);
      } else {
        Delete(delegations, k, Backing(i));
      }
    }
    forall i ensures DelegationAt(periods, pos, delegations', i) {
      assert DelegationAt(periods, pos, delegations, i);
    }
  }

  /** Status and nonces of a delegation change. */
  ghost predicate SameDelegation(d: Delegator, e: Delegator) {
    d.owner == e.owner && d.validationID == e.validationID && d.weight == e.weight
  }

  lemma DelegatorStakesKept(factor: nat, locked: map<Stake, seq<Deposit>>, unlocked: map<Stake, seq<Payment>>,
                            periods: map<ValidationID, Validator>, delegations: map<DelegationID, Delegator>,
                            k: DelegationID, d: Delegator)
    requires factor != 0
    requires DelegatorStakesOK(factor, locked, unlocked, periods, delegations)
    requires k in delegations && SameDelegation(delegations[k], d)
    ensures DelegatorStakesOK(factor, locked, unlocked, periods, delegations[k := d])
  {
    var delegations' := delegations[k := d];
    forall i ensures DelegatorStakeAt(factor, locked, unlocked, periods, delegations', i) {
      assert DelegatorStakeAt(factor, locked, unlocked, periods, delegations, i);
    }
  }

  lemma DelegatorEscrowKept(factor: nat, balance: nat, periods: map<ValidationID, Validator>, pos: set<ValidationID>,
                            delegations: map<DelegationID, Delegator>, k: DelegationID, d: Delegator)
    requires EscrowOK(factor, balance, periods, pos, delegations)
    requires k in delegations && SameDelegation(delegations[k], d)
    ensures EscrowOK(factor, balance, periods, pos, delegations[k := d])
  {
    Update(delegations, k, d, DelegatorEscrow(factor));
  }

  lemma RewardsKept(rewards: map<DelegationID, nat>, delegations: map<DelegationID, Delegator>,
                    k: DelegationID, d: Delegator)
    requires RewardsOK(rewards, delegations)
    requires k in delegations ==> delegations[k].status != DelegatorStatus.PendingRemoved
                                  || d.status == DelegatorStatus.PendingRemoved
    ensures RewardsOK(rewards, delegations[k := d])
    ensures k in delegations && delegations[k].status != DelegatorStatus.PendingRemoved ==> k !in rewards
    ensures k !in delegations ==> k !in rewards
  {
    var delegations' := delegations[k := d];
    assert RewardAt(rewards, delegations, k);
    forall i ensures RewardAt(rewards, delegations', i) {
      assert RewardAt(rewards, delegations, i);
    }
  }

  // ----- Stakes come and go -----

  lemma DepositRoundsDown(factor: nat, value: nat)
    requires factor != 0
    ensures TokenValue(factor, Worth(factor, value)) <= value < TokenValue(factor, Worth(factor, value)) + factor
  {
  }

  /** A new PoS validator's deposit. */
  lemma ValidatorDeposit(factor: nat, s: State, id: ValidationID, w: Validator, info: PoSValidatorInfo, received: Uint256)
    requires factor != 0 && id !in s.validationPeriods && id !in s.posValidatorInfo
    requires Live(w.status) && w.startingWeight == Worth(factor, received) && w.messageNonce == 0
    requires ValidatorStakesOK(factor, s.history.locked, s.history.unlocked, s.validationPeriods, s.posValidatorInfo)
    requires DelegatorStakesOK(factor, s.history.locked, s.history.unlocked, s.validationPeriods, s.delegatorStakes)
    ensures var locked' := Append(s.history.locked, ValidatorStake(id), Deposit(info.owner, received));
            && ValidatorStakesOK(factor, locked', s.history.unlocked, s.validationPeriods[id := w],
                                 s.posValidatorInfo[id := info])
            && DelegatorStakesOK(factor, locked', s.history.unlocked, s.validationPeriods[id := w], s.delegatorStakes)
  {
    var h, periods', info' := s.history, s.validationPeriods[id := w], s.posValidatorInfo[id := info];
    var locked' := Append(h.locked, ValidatorStake(id), Deposit(info.owner, received));
    forall k ensures ValidatorStakeAt(factor, locked', h.unlocked, periods', info', k) {
      assert ValidatorStakeAt(factor, h.locked, h.unlocked, s.validationPeriods, s.posValidatorInfo, k);
    }
    forall k ensures DelegatorStakeAt(factor, locked', h.unlocked, periods', s.delegatorStakes, k) {
      assert DelegatorStakeAt(factor, h.locked, h.unlocked, s.validationPeriods, s.delegatorStakes, k);
    }
  }

  /** A PoS validator is no longer live and its stake goes back. */
  lemma ValidatorReturn(factor: nat, s: State, id: ValidationID, w: Validator)
    requires factor != 0 && id in s.validationPeriods && id in s.posValidatorInfo
    requires Live(s.validationPeriods[id].status) && !Live(w.status)
    requires w.startingWeight == s.validationPeriods[id].startingWeight
    requires w.messageNonce == s.validationPeriods[id].messageNonce
    requires ValidatorStakesOK(factor, s.history.locked, s.history.unlocked, s.validationPeriods, s.posValidatorInfo)
    requires DelegatorStakesOK(factor, s.history.locked, s.history.unlocked, s.validationPeriods, s.delegatorStakes)
    ensures var unlocked' := Append(s.history.unlocked, ValidatorStake(id),
                                    Payment(s.posValidatorInfo[id].owner, TokenValue(factor, w.startingWeight)));
            && ValidatorStakesOK(factor, s.history.locked, unlocked', s.validationPeriods[id := w], s.posValidatorInfo)
            && DelegatorStakesOK(factor, s.history.locked, unlocked', s.validationPeriods[id := w], s.delegatorStakes)
  {
    var h, periods' := s.history, s.validationPeriods[id := w];
    var unlocked' := Append(h.unlocked, ValidatorStake(id),
                            Payment(s.posValidatorInfo[id].owner, TokenValue(factor, w.startingWeight)));
    forall k ensures ValidatorStakeAt(factor, h.locked, unlocked', periods', s.posValidatorInfo, k) {
      assert ValidatorStakeAt(factor, h.locked, h.unlocked, s.validationPeriods, s.posValidatorInfo, k);
    }
    forall k ensures DelegatorStakeAt(factor, h.locked, unlocked', periods', s.delegatorStakes, k) {
      assert DelegatorStakeAt(factor, h.locked, h.unlocked, s.validationPeriods, s.delegatorStakes, k);
    }
  }

  /** A validator without stake of its own stops being live. */
  lemma UnstakedReturn(factor: nat, s: State, id: ValidationID, w: Validator)
    requires factor != 0 && id in s.validationPeriods && id !in s.posValidatorInfo
    requires w.messageNonce == s.validationPeriods[id].messageNonce
    requires ValidatorStakesOK(factor, s.history.locked, s.history.unlocked, s.validationPeriods, s.posValidatorInfo)
    requires DelegatorStakesOK(factor, s.history.locked, s.history.unlocked, s.validationPeriods, s.delegatorStakes)
    ensures ValidatorStakesOK(factor, s.history.locked, s.history.unlocked, s.validationPeriods[id := w],
                              s.posValidatorInfo)
    ensures DelegatorStakesOK(factor, s.history.locked, s.history.unlocked, s.validationPeriods[id := w],
                              s.delegatorStakes)
  {
    var h, periods' := s.history, s.validationPeriods[id := w];
    forall k ensures ValidatorStakeAt(factor, h.locked, h.unlocked, periods', s.posValidatorInfo, k) {
      assert ValidatorStakeAt(factor, h.locked, h.unlocked, s.validationPeriods, s.posValidatorInfo, k);
    }
    forall k ensures DelegatorStakeAt(factor, h.locked, h.unlocked, periods', s.delegatorStakes, k) {
      assert DelegatorStakeAt(factor, h.locked, h.unlocked, s.validationPeriods, s.delegatorStakes, k);
    }
  }

  /** A new delegation's deposit; its ID carries a nonce not used before. */
  lemma DelegatorDeposit(factor: nat, s: State, periods': map<ValidationID, Validator>, k: DelegationID, d: Delegator,
                         received: Uint256)
    requires factor != 0 && k.validationID in s.validationPeriods && k.validationID in periods'
    requires periods' == s.validationPeriods[k.validationID := periods'[k.validationID]]
    requires SameStanding(s.validationPeriods[k.validationID], periods'[k.validationID])
    requires k.nonce > s.validationPeriods[k.validationID].messageNonce && k !in s.delegatorStakes
    requires d.weight == Worth(factor, received)
    requires ValidatorStakesOK(factor, s.history.locked, s.history.unlocked, s.validationPeriods, s.posValidatorInfo)
    requires DelegatorStakesOK(factor, s.history.locked, s.history.unlocked, s.validationPeriods, s.delegatorStakes)
    ensures var locked' := Append(s.history.locked, DelegatorStake(k), Deposit(d.owner, received));
            && ValidatorStakesOK(factor, locked', s.history.unlocked, periods', s.posValidatorInfo)
            && DelegatorStakesOK(factor, locked', s.history.unlocked, periods', s.delegatorStakes[k := d])
  {
    var h, delegations' := s.history, s.delegatorStakes[k := d];
    var locked' := Append(h.locked, DelegatorStake(k), Deposit(d.owner, received));
    forall i ensures ValidatorStakeAt(factor, locked', h.unlocked, periods', s.posValidatorInfo, i) {
      assert ValidatorStakeAt(factor, h.locked, h.unlocked, s.validationPeriods, s.posValidatorInfo, i);
    }
    forall i ensures DelegatorStakeAt(factor, locked', h.unlocked, periods', delegations', i) {
      assert DelegatorStakeAt(factor, h.locked, h.unlocked, s.validationPeriods, s.delegatorStakes, i);
    }
  }

  /** A delegation is deleted and its stake goes back. */
  lemma DelegatorReturn(factor: nat, s: State, k: DelegationID)
    requires factor != 0 && k in s.delegatorStakes && k.validationID in s.validationPeriods
    requires k.nonce <= s.validationPeriods[k.validationID].messageNonce
    requires ValidatorStakesOK(factor, s.history.locked, s.history.unlocked, s.validationPeriods, s.posValidatorInfo)
    requires DelegatorStakesOK(factor, s.history.locked, s.history.unlocked, s.validationPeriods, s.delegatorStakes)
    ensures var d := s.delegatorStakes[k];
            var unlocked' := Append(s.history.unlocked, DelegatorStake(k),
                                    Payment(d.owner, TokenValue(factor, d.weight)));
            && ValidatorStakesOK(factor, s.history.locked, unlocked', s.validationPeriods, s.posValidatorInfo)
            && DelegatorStakesOK(factor, s.history.locked, unlocked', s.validationPeriods, s.delegatorStakes - {k})
  {
    var h, d, delegations' := s.history, s.delegatorStakes[k], s.delegatorStakes - {k};
    var unlocked' := Append(h.unlocked, DelegatorStake(k), Payment(d.owner, TokenValue(factor, d.weight)));
    forall i ensures ValidatorStakeAt(factor, h.locked, unlocked', s.validationPeriods, s.posValidatorInfo, i) {
      assert ValidatorStakeAt(factor, h.locked, h.unlocked, s.validationPeriods, s.posValidatorInfo, i);
    }
    forall i ensures DelegatorStakeAt(factor, h.locked, unlocked', s.validationPeriods, delegations', i) {
      assert DelegatorStakeAt(factor, h.locked, h.unlocked, s.validationPeriods, s.delegatorStakes, i);
    }
  }
}
