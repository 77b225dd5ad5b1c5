/**
 The initial validator set. The contract compares hashes of packed conversion data and does not look at the keys of the
 validators; this module says when the set it stores is the one that the P-Chain vouches for.
 */
module StakingInitialSet {
  import opened Numeric
  import opened Wrappers
  import opened MessageTypes
  import opened ConversionMessage
  import opened StakingTypes
  import opened StakingSpec
  import opened StakingInvariants
  import opened StakingValidatorCalls

  // ----- When the set is accepted -----

  /** The weight of the first `n` validators together. */
  function WeightUpTo(vs: seq<InitialValidator>, n: nat): nat
    requires n <= |vs|
  {
    if n == 0 then 0 else WeightUpTo(vs, n - 1) + vs[n - 1].weight
  }

  predicate DistinctNodes(vs: seq<InitialValidator>, n: nat)
    requires n <= |vs|
  {
    forall i, j :: 0 <= i < j < n ==> vs[i].nodeID != vs[j].nodeID
  }

  /** The registry and the periods after the first `n` validators: exactly these, active from now. */
  ghost predicate SetStored(now: nat, s: State, data: ConversionData, n: nat)
    requires n <= |data.initialValidators|
  {
    && (forall node :: node in s.registeredValidators <==>
          exists i: nat :: i < n && data.initialValidators[i].nodeID == node)
    && (forall i: nat :: i < n ==> NodeStored(now, s, data, i))
    && InitialsOK(data, n, s.validationPeriods)
  }

  ghost predicate NodeStored(now: nat, s: State, data: ConversionData, i: nat)
    requires i < |data.initialValidators|
  {
    var id, v := Initial(subnetID := data.subnetID, index := i), data.initialValidators[i];
    && v.nodeID in s.registeredValidators && s.registeredValidators[v.nodeID] == id
    && id in s.validationPeriods
    && s.validationPeriods[id] == Validator(status := ValidatorStatus.Active, nodeID := v.nodeID,
                                            startingWeight := v.weight, messageNonce := 0, weight := v.weight,
                                            startedAt := now, endedAt := 0)
  }

  lemma StoreOneMore(now: Timestamp, s: State, data: ConversionData, n: nat)
    requires n < |data.initialValidators| && SetStored(now, s, data, n)
    requires data.initialValidators[n].nodeID !in s.registeredValidators
    ensures var v, id := data.initialValidators[n], Initial(data.subnetID, n);
            SetStored(now, s.(registeredValidators := s.registeredValidators[v.nodeID := id],
                              validationPeriods := s.validationPeriods[
                                id := Validator(ValidatorStatus.Active, v.nodeID, v.weight, 0, v.weight, now, 0)]),
                      data, n + 1)
  {
    var v, id := data.initialValidators[n], Initial(data.subnetID, n);
    var w := Validator(ValidatorStatus.Active, v.nodeID, v.weight, 0, v.weight, now, 0);
    var s' := s.(registeredValidators := s.registeredValidators[v.nodeID := id],
                 validationPeriods := s.validationPeriods[id := w]);
    var m := n + 1;
    InitialsAdd(data, n, s.validationPeriods, id, w);
    forall i: nat | i < m ensures NodeStored(now, s', data, i) {
      assert i < n ==> NodeStored(now, s, data, i);
    }
    forall node
      ensures node in s'.registeredValidators <==> exists i: nat :: i < m && data.initialValidators[i].nodeID == node
    {
      if node == v.nodeID {
        assert data.initialValidators[n].nodeID == node;
      } else if exists i: nat :: i < n && data.initialValidators[i].nodeID == node {
        var i: nat :| i < n && data.initialValidators[i].nodeID == node;
        assert i < m;
      }
    }
  }

  /** The first `n` validators can be stored exactly if their nodes differ and their weight and number fit. */
  lemma {:induction false} StoreAnswers(now: Timestamp, s: State, data: ConversionData, n: nat)
    requires n <= |data.initialValidators| && s.validationPeriods == map[] && s.registeredValidators == map[]
    ensures var r, vs := StoreInitialValidators(now, s, data, n), data.initialValidators;
            && (r.Ok? <==> DistinctNodes(vs, n) && WeightUpTo(vs, n) <= MAX_UINT64 && n <= MAX_UINT32)
            && (r.Ok? ==> r.value.1 == WeightUpTo(vs, n) && SetStored(now, r.value.0, data, n))
  {
    var vs := data.initialValidators;
    if n > 0 {
      StoreAnswers(now, s, data, n - 1);
      if StoreInitialValidators(now, s, data, n - 1).Ok? {
        var s1 := StoreInitialValidators(now, s, data, n - 1).value.0;
        DistinctOneMore(vs, n, vs[n - 1].nodeID in s1.registeredValidators);
        if vs[n - 1].nodeID !in s1.registeredValidators {
          StoreOneMore(now, s1, data, n - 1);
        }
      }
    }
  }

  lemma DistinctOneMore(vs: seq<InitialValidator>, n: nat, known: bool)
    requires 0 < n <= |vs| && DistinctNodes(vs, n - 1)
    requires known <==> exists i: nat :: i < n - 1 && vs[i].nodeID == vs[n - 1].nodeID
    ensures DistinctNodes(vs, n) <==> !known
  {
  }

  lemma SetStages(cfg: Settings, now: Timestamp, s: State, data: ConversionData, proof: Option<seq<Byte>>,
                  stored: Result<(State, nat), Error>)
    requires stored == StoreInitialValidators(now, s, data, |data.initialValidators|)
    ensures var r := InitializeValidatorSet(cfg, now, s, data, proof);
            && (r.Ok? <==>
                  && !s.initializedValidatorSet
                  && data.validatorManagerBlockchainID == cfg.blockchainID
                  && data.validatorManagerAddress == cfg.managerAddress
                  && stored.Ok? && 100 <= stored.value.1 * cfg.churn.maximumPercentage <= MAX_UINT64
                  && proof == Some(PackConversionData(data)))
            && (r.Ok? ==>
                  var (s1, total) := stored.value;
                  r.value == s1.(churnTracker := s1.churnTracker.(totalWeight := total),
                                 initializedValidatorSet := true,
                                 history := s1.history.(initialTotal := total)))
  {
  }

  /** What an accepted set changes, and nothing else. */
  ghost predicate SetAccepted(now: nat, s: State, s': State, data: ConversionData) {
    var n := |data.initialValidators|;
    var total := WeightUpTo(data.initialValidators, n);
    && SetStored(now, s', data, n)
    && s' == s.(registeredValidators := s'.registeredValidators,
                validationPeriods := s'.validationPeriods,
                churnTracker := s.churnTracker.(totalWeight := total),
                initializedValidatorSet := true,
                history := s.history.(initialTotal := total))
  }

  lemma AcceptedFromStored(now: Timestamp, s: State, data: ConversionData, s1: State, total: nat)
    requires SetStored(now, s1, data, |data.initialValidators|) && SameBesidesPeriods(s, s1)
    requires total == WeightUpTo(data.initialValidators, |data.initialValidators|)
    ensures SetAccepted(now, s, s1.(churnTracker := s1.churnTracker.(totalWeight := total),
                                    initializedValidatorSet := true,
                                    history := s1.history.(initialTotal := total)), data)
  {
    var s' := s1.(churnTracker := s1.churnTracker.(totalWeight := total), initializedValidatorSet := true,
                  history := s1.history.(initialTotal := total));
    forall i: nat | i < |data.initialValidators| ensures NodeStored(now, s', data, i) {
      assert NodeStored(now, s1, data, i);
    }
  }

  lemma SetAnswers(cfg: Settings, now: Timestamp, s: State, data: ConversionData, proof: Option<seq<Byte>>)
    requires ValidSettings(cfg) && s.validationPeriods == map[] && s.registeredValidators == map[]
    ensures var r := InitializeValidatorSet(cfg, now, s, data, proof);
            var n := |data.initialValidators|;
            && (r.Ok? <==>
                  && !s.initializedValidatorSet
                  && data.validatorManagerBlockchainID == cfg.blockchainID
                  && data.validatorManagerAddress == cfg.managerAddress
                  && n <= MAX_UINT32 && DistinctNodes(data.initialValidators, n)
                  && 100 <= WeightUpTo(data.initialValidators, n) * cfg.churn.maximumPercentage <= MAX_UINT64
                  && proof == Some(PackConversionData(data)))
            && (r.Ok? ==> SetAccepted(now, s, r.value, data))
  {
    var n := |data.initialValidators|;
    var stored := StoreInitialValidators(now, s, data, n);
    SetStages(cfg, now, s, data, proof, stored);
    StoreAnswers(now, s, data, n);
    TotalFits(WeightUpTo(data.initialValidators, n), cfg.churn.maximumPercentage);
    if stored.Ok? {
      InitialValidatorsFrame(now, s, data, n);
      AcceptedFromStored(now, s, data, stored.value.0, stored.value.1);
    }
  }

  /**
   The initial set is accepted exactly once, for this chain and this contract, with different nodes, with a total weight
   that can be changed and fits, and if the P-Chain vouches for its bytes. Exactly these validators are then registered
   and active from now on.
   */
  lemma InitialSetAnswers(cfg: Settings, before: nat, s: State, tx: Transaction)
    requires ValidSettings(cfg) && Invariant(cfg, before, s) && tx.call.CallInitializeValidatorSet?
    ensures var data := tx.call.data;
            var n := |data.initialValidators|;
            && (Step(cfg, s, tx).Ok? <==>
                  && !s.initializedValidatorSet
                  && data.validatorManagerBlockchainID == cfg.blockchainID
                  && data.validatorManagerAddress == cfg.managerAddress
                  && n <= MAX_UINT32 && DistinctNodes(data.initialValidators, n)
                  && 100 <= WeightUpTo(data.initialValidators, n) * cfg.churn.maximumPercentage <= MAX_UINT64
                  && tx.call.conversionProof == Some(PackConversionData(data)))
            && (Step(cfg, s, tx).Ok? ==> SetAccepted(tx.now, s, Step(cfg, s, tx).value, data))
  {
    if !s.initializedValidatorSet {
      EmptyBeforeInitialization(cfg, before, s);
      SetAnswers(cfg, tx.now, s, tx.call.data, tx.call.conversionProof);
    } else {
      SetStages(cfg, tx.now, s, tx.call.data, tx.call.conversionProof,
                StoreInitialValidators(tx.now, s, tx.call.data, |tx.call.data.initialValidators|));
    }
  }

  lemma TotalFits(total: nat, percentage: nat)
    requires percentage >= 1
    ensures total <= total * percentage
  {
  }

  // ----- Whether it is the vouched set -----

  /** Number `i` of the validators in `data` is stored, active with its weight. */
  ghost predicate StoredAt(periods: map<ValidationID, Validator>, data: ConversionData, i: nat)
    requires i < |data.initialValidators|
  {
    var id, v := Initial(data.subnetID, i), data.initialValidators[i];
    && id in periods
    && periods[id].status == ValidatorStatus.Active
    && periods[id].nodeID == v.nodeID
    && periods[id].weight == periods[id].startingWeight == v.weight
  }

  /** The periods are those of the first `n` validators in `data`, and no others. */
  ghost predicate FirstStored(periods: map<ValidationID, Validator>, data: ConversionData, n: nat)
    requires n <= |data.initialValidators|
  {
    && InitialsOK(data, n, periods)
    && forall i: nat :: i < n ==> StoredAt(periods, data, i)
  }

  ghost predicate StoredSet(s: State, data: ConversionData) {
    FirstStored(s.validationPeriods, data, |data.initialValidators|)
  }

  /** The same nodes with the same weights, in the same order. */
  predicate SameNodes(v: seq<InitialValidator>, w: seq<InitialValidator>) {
    |v| == |w| && forall i :: 0 <= i < |v| ==> v[i].nodeID == w[i].nodeID && v[i].weight == w[i].weight
  }

  /** What is stored determines the nodes and the weights. */
  lemma StoredSetIff(s: State, d: ConversionData, e: ConversionData)
    requires StoredSet(s, d) && d.subnetID == e.subnetID && |d.initialValidators| == |e.initialValidators|
    ensures StoredSet(s, e) <==> SameNodes(d.initialValidators, e.initialValidators)
  {
    var v, w := d.initialValidators, e.initialValidators;
    if StoredSet(s, e) {
      forall i: nat | i < |v| ensures v[i].nodeID == w[i].nodeID && v[i].weight == w[i].weight {
        assert StoredAt(s.validationPeriods, d, i) && StoredAt(s.validationPeriods, e, i);
      }
    }
    if SameNodes(v, w) {
      forall i: nat | i < |w| ensures StoredAt(s.validationPeriods, e, i) {
        assert StoredAt(s.validationPeriods, d, i);
      }
      forall id ensures InitialAt(e, |w|, s.validationPeriods, id) {
        assert InitialAt(d, |v|, s.validationPeriods, id);
      }
    }
  }

  /**
   The submitted set is stored. It is submitted as the P-Chain knows it if and only if the keys have the lengths that
   they have there: 48 bytes each, if the P-Chain's keys are BLS keys. Then what is stored is the vouched set; otherwise
   it is if and only if the nodes and weights happen to be the same.
   */
  lemma InitialSetIsVouched(cfg: Settings, before: nat, now: Timestamp, s: State, d: ConversionData, e: ConversionData)
    requires ValidSettings(cfg) && Invariant(cfg, before, s) && ConversionFits(d) && ConversionFits(e)
    requires InitializeValidatorSet(cfg, now, s, d, Some(PackConversionData(e))).Ok?
    ensures var s' := InitializeValidatorSet(cfg, now, s, d, Some(PackConversionData(e))).value;
            && StoredSet(s', d)
            && (d == e <==> SameKeyLengths(d.initialValidators, e.initialValidators))
            && (BLSKeys(e.initialValidators) ==> (d == e <==> BLSKeys(d.initialValidators)))
            && (StoredSet(s', e) <==> SameNodes(d.initialValidators, e.initialValidators))
  {
    var s' := InitializeValidatorSet(cfg, now, s, d, Some(PackConversionData(e))).value;
    EmptyBeforeInitialization(cfg, before, s);
    SetAnswers(cfg, now, s, d, Some(PackConversionData(e)));
    forall i: nat | i < |d.initialValidators| ensures StoredAt(s'.validationPeriods, d, i) {
      assert NodeStored(now, s', d, i);
    }
    ConversionInjective(d, e);
    StoredSetIff(s', d, e);
  }

  /**
   It can happen: two lists with the same bytes, the same nodes and the same weights, whose keys end elsewhere. So the
   lengths of the keys decide whether the data is the vouched data, but not always whether the stored set is.
   */
  lemma SameNodesOtherKeys(a: seq<Byte>, b: seq<Byte>, key: seq<Byte>, last: seq<Byte>, v: nat, w: nat)
    ensures var p := [InitialValidator(a, key + Between(v, b), v), InitialValidator(b, last, w)];
            var q := [InitialValidator(a, key, v), InitialValidator(b, Between(v, b) + last, w)];
            && PackInitialValidators(p) == PackInitialValidators(q)
            && SameNodes(p, q) && !SameKeyLengths(p, q)
  {
    KeyLengthsMatter(a, b, b, key, last, v, w, v);
    var p := [InitialValidator(a, key + Between(v, b), v), InitialValidator(b, last, w)];
    var q := [InitialValidator(a, key, v), InitialValidator(b, Between(v, b) + last, w)];
    assert |p[0].blsPublicKey| != |q[0].blsPublicKey|;
  }
}
