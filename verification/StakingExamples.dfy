/**
 Runs from deployment that show what the theorems need their conditions for: a wrong initial set that is accepted, a
 registration made twice, and a reward that locks a stake for ever.
 */
module StakingExamples {
  import opened Wrappers
  import opened Numeric
  import opened MapSum
  import opened MessageTypes
  import opened ConversionMessage
  import opened ChurnTracker
  import opened StakingTypes
  import opened StakingSpec
  import opened StakingInvariants
  import opened StakingValidatorCalls
  import opened StakingDelegationCalls
  import opened StakingRuns
  import opened StakingTheorems
  import opened StakingProgress
  import opened StakingRewards

  const NODE_A: NodeID := [1]
  const NODE_B: NodeID := [2]
  const NODE_C: NodeID := [3]

  function LargestReward(args: RewardArgs): Option<nat> {
    Some(MAX_UINT256)
  }

  function ExampleSettings(): Settings {
    Settings(5, 6, 7, Limit(3600, 20), 1, 100, 3600, 1, 4, 1, LargestReward)
  }

  function Key(n: nat): seq<Byte> {
    seq(n, _ => 0)
  }

  lemma RunAppend(cfg: Settings, txs: seq<Transaction>, tx: Transaction)
    requires cfg.weightToValueFactor != 0
    ensures Run(cfg, txs + [tx]) == Execute(cfg, Run(cfg, txs), tx)
    ensures Legal(cfg, txs) && Latest(txs) <= tx.now && FreshID(cfg, Run(cfg, txs), tx) ==> Legal(cfg, txs + [tx])
  {
    assert (txs + [tx])[..|txs + [tx]| - 1] == txs;
  }

  // ----- An initial set that is not the vouched one -----

  function Vouched(): ConversionData {
    ConversionData(5, 6, 7, [InitialValidator(NODE_A, Key(35) + Between(1000, NODE_C), 1000),
                             InitialValidator(NODE_B, Key(48), 1000)])
  }

  function Submitted(): ConversionData {
    ConversionData(5, 6, 7, [InitialValidator(NODE_A, Key(35), 1000),
                             InitialValidator(NODE_C, Between(1000, NODE_B) + Key(48), 1000)])
  }

  function SubmitWrongSet(): Transaction {
    Transaction(100, 9, CallInitializeValidatorSet(Submitted(), Some(PackConversionData(Vouched()))))
  }

  lemma StoreTwo(now: Timestamp, s: State, data: ConversionData)
    requires s.registeredValidators == map[] && |data.initialValidators| == 2
    requires data.initialValidators[0].nodeID != data.initialValidators[1].nodeID
    requires data.initialValidators[0].weight == data.initialValidators[1].weight == 1000
    ensures StoreInitialValidators(now, s, data, 2).Ok? && StoreInitialValidators(now, s, data, 2).value.1 == 2000
    ensures StoreInitialValidators(now, s, data, 2).value.0.registeredValidators.Keys
            == {data.initialValidators[0].nodeID, data.initialValidators[1].nodeID}
  {
    assert StoreInitialValidators(now, s, data, 0) == Ok((s, 0));
    assert StoreInitialValidators(now, s, data, 1).Ok?;
  }

  lemma SameBytes()
    ensures PackConversionData(Submitted()) == PackConversionData(Vouched()) && BLSKeys(Vouched().initialValidators)
  {
    KeyLengthsMatter(NODE_A, NODE_B, NODE_C, Key(35), Key(48), 1000, 1000, 1000);
  }

  /**
   The P-Chain vouches for nodes A and B with keys of 48 bytes. Nodes A and C, with keys that end elsewhere, have the
   same bytes; they are accepted, and node B is not a validator.
   */
  lemma WrongSetAccepted()
    ensures ValidSettings(ExampleSettings()) && BLSKeys(Vouched().initialValidators)
    ensures Step(ExampleSettings(), DEPLOYED, SubmitWrongSet()).Ok?
    ensures var s := Run(ExampleSettings(), [SubmitWrongSet()]);
            s.initializedValidatorSet && s.registeredValidators.Keys == {NODE_A, NODE_C}
  {
    SameBytes();
    StoreTwo(100, DEPLOYED, Submitted());
    var none: seq<Transaction> := [];
    RunAppend(ExampleSettings(), none, SubmitWrongSet());
    assert none + [SubmitWrongSet()] == [SubmitWrongSet()];
  }

  // ----- One validator and one delegation -----

  function ExampleInput(): RegistrationInput {
    RegistrationInput(NODE_B, Key(48), 10000, PChainOwner(0, []), PChainOwner(0, []))
  }

  function ExampleID(): ValidationID {
    Registered(RegistrationMessage(ExampleSettings(), ExampleInput(), 10))
  }

  function ExampleDelegation(): DelegationID {
    DelegationID(ExampleID(), 1)
  }

  function ExampleSet(): ConversionData {
    ConversionData(5, 6, 7, [InitialValidator(NODE_A, Key(48), 1000)])
  }

  function Setup(): Transaction {
    Transaction(100, 9, CallInitializeValidatorSet(ExampleSet(), Some(PackConversionData(ExampleSet()))))
  }

  function Register(now: Timestamp): Transaction {
    Transaction(now, 9, CallInitializeValidatorRegistration(ExampleInput(), 2, 3600, 10, 10))
  }

  function Acknowledge(now: Timestamp): Transaction {
    Transaction(now, 9, CallCompleteValidatorRegistration(Some(RegistrationProof(ExampleID(), true))))
  }

  function Delegate(now: Timestamp): Transaction {
    Transaction(now, 8, CallInitializeDelegatorRegistration(ExampleID(), 5))
  }

  function AcknowledgeDelegation(now: Timestamp): Transaction {
    Transaction(now, 8, CallCompleteDelegatorRegistration(ExampleDelegation(), Some(WeightProof(ExampleID(), 1, 15))))
  }

  function EndDelegation(now: Timestamp): Transaction {
    Transaction(now, 8, CallInitializeEndDelegation(ExampleDelegation(), false, None, 0, true))
  }

  function EndValidation(now: Timestamp): Transaction {
    Transaction(now, 9, CallInitializeEndValidation(ExampleID(), false, None, 0, true))
  }

  /** The P-Chain's word that the validation is over, or that the registration was rejected. */
  function Over(now: Timestamp): Transaction {
    Transaction(now, 9, CallCompleteEndValidation(Some(RegistrationProof(ExampleID(), false))))
  }

  /** The tracker's window opened at `start` and has room for changes as small as those below. */
  ghost predicate Room(tracker: Tracker, start: nat, n: nat) {
    && n <= 100 && tracker.startedAt == start && tracker.churnAmount <= n
    && 900 <= tracker.initialWeight <= 1100 && 1000 - n <= tracker.totalWeight <= 1000 + n
  }

  /** The next change is accepted, in the same window or a period later. */
  lemma NextChange(tracker: Tracker, start: nat, n: nat, c: Change)
    requires Room(tracker, start, n) && n <= 85 && start > 0
    requires c.oldWeight <= 50 && c.newWeight <= 50 && AbsDiff(c.newWeight, c.oldWeight) <= 15
    requires c.now == start || c.now >= start + 3600
    ensures var r := CheckAndUpdate(ExampleSettings().churn, tracker, c); r.Ok? && Room(r.value, c.now, n + 15)
  {
  }

  datatype Ledger = Ledger(awarded: nat, minted: nat, validatorRewards: map<ValidationID, nat>,
                           delegatorRewards: map<DelegationID, nat>)

  function LedgerOf(s: State): Ledger {
    Ledger(s.history.awarded, Total(s.history.minted), s.redeemableValidatorRewards, s.redeemableDelegatorRewards)
  }

  /** The validator with its terms, and the delegation if there is one. */
  ghost predicate Stage(s: State, v: Validator, d: Option<Delegator>, l: Ledger) {
    && s.initializedValidatorSet && LedgerOf(s) == l
    && ExampleID() in s.validationPeriods && s.validationPeriods[ExampleID()] == v
    && ExampleID() in s.posValidatorInfo && s.posValidatorInfo[ExampleID()] == PoSValidatorInfo(9, 2, 3600, 0)
    && (v.status == ValidatorStatus.PendingAdded ==> ExampleID() in s.pendingRegisterValidationMessages)
    && (d.Some? ==> ExampleDelegation() in s.delegatorStakes && s.delegatorStakes[ExampleDelegation()] == d.value)
  }

  const NO_REWARDS := Ledger(0, 0, map[], map[])

  function NewValidator(): Validator {
    Validator(ValidatorStatus.PendingAdded, NODE_B, 10, 0, 10, 0, 0)
  }

  function ActiveValidator(start: nat, nonce: nat, weight: nat): Validator {
    Validator(ValidatorStatus.Active, NODE_B, 10, nonce, weight, start, 0)
  }

  function NewDelegation(): Delegator {
    Delegator(DelegatorStatus.PendingAdded, 8, ExampleID(), 5, 0, 1, 0)
  }

  function ActiveDelegation(start: nat): Delegator {
    NewDelegation().(status := DelegatorStatus.Active, startedAt := start)
  }

  function EndedDelegation(start: nat): Delegator {
    ActiveDelegation(start).(status := DelegatorStatus.PendingRemoved, endingNonce := 2)
  }

  lemma AfterSetup(s: State)
    requires s == DEPLOYED
    ensures Step(ExampleSettings(), s, Setup()).Ok?
    ensures var s1 := Step(ExampleSettings(), s, Setup()).value;
            && s1.initializedValidatorSet && s1.churnTracker == Fresh(1000) && LedgerOf(s1) == NO_REWARDS
            && NODE_B !in s1.registeredValidators && ExampleID() !in s1.validationPeriods
  {
    var data := ExampleSet();
    assert StoreInitialValidators(100, s, data, 0) == Ok((s, 0));
    assert StoreInitialValidators(100, s, data, 1).Ok?;
  }

  /** The registration succeeds wherever its node is free and the tracker leaves room. */
  lemma AfterRegister(s: State, now: Timestamp)
    requires now < 10000 && s.initializedValidatorSet && NODE_B !in s.registeredValidators
    requires s.churnTracker.totalWeight <= 2000
    requires CheckAndUpdate(ExampleSettings().churn, s.churnTracker, Change(now, 10, 0)).Ok?
    ensures Step(ExampleSettings(), s, Register(now)).Ok?
    ensures var s1 := Step(ExampleSettings(), s, Register(now)).value;
            && s1.churnTracker == CheckAndUpdate(ExampleSettings().churn, s.churnTracker, Change(now, 10, 0)).value
            && s1.delegatorStakes == s.delegatorStakes && Stage(s1, NewValidator(), None, LedgerOf(s))
  {
  }

  lemma AfterAcknowledge(s: State, now: Timestamp, l: Ledger)
    requires Stage(s, NewValidator(), None, l)
    ensures Step(ExampleSettings(), s, Acknowledge(now)).Ok?
    ensures var s1 := Step(ExampleSettings(), s, Acknowledge(now)).value;
            s1.churnTracker == s.churnTracker && Stage(s1, ActiveValidator(now, 0, 10), None, l)
  {
  }

  lemma AfterDelegate(s: State, now: Timestamp, n: nat, l: Ledger)
    requires Stage(s, ActiveValidator(now, 0, 10), None, l) && Room(s.churnTracker, now, n) && n <= 85
    ensures Step(ExampleSettings(), s, Delegate(now)).Ok?
    ensures var s1 := Step(ExampleSettings(), s, Delegate(now)).value;
            Room(s1.churnTracker, now, n + 15) && Stage(s1, ActiveValidator(now, 1, 15), Some(NewDelegation()), l)
  {
    assert WeightWithDelegation(ExampleSettings(), s, ExampleID(), 5) == Ok(15);
    NextChange(s.churnTracker, now, n, Change(now, 15, 10));
    DelegateEffect(ExampleSettings(), now, 8, s, ExampleID(), 5);
  }

  lemma AfterAcknowledgeDelegation(s: State, now: Timestamp, l: Ledger)
    requires Stage(s, ActiveValidator(now, 1, 15), Some(NewDelegation()), l)
    ensures Step(ExampleSettings(), s, AcknowledgeDelegation(now)).Ok?
    ensures var s1 := Step(ExampleSettings(), s, AcknowledgeDelegation(now)).value;
            && s1.churnTracker == s.churnTracker
            && Stage(s1, ActiveValidator(now, 1, 15), Some(ActiveDelegation(now)), l)
  {
  }

  lemma AfterUndelegate(s: State, start: nat, now: Timestamp, n: nat, l: Ledger)
    requires Stage(s, ActiveValidator(start, 1, 15), Some(ActiveDelegation(start)), l)
    requires Room(s.churnTracker, start, n) && n <= 85 && start > 0 && now >= start + 3600
    ensures Undelegate(ExampleSettings(), now, s, ExampleDelegation()).Ok?
    ensures var s1 := Undelegate(ExampleSettings(), now, s, ExampleDelegation()).value;
            && Room(s1.churnTracker, now, n + 15)
            && Stage(s1, ActiveValidator(start, 2, 10), Some(EndedDelegation(start)), l)
  {
    NextChange(s.churnTracker, start, n, Change(now, 10, 15));
    UndelegateEffect(ExampleSettings(), now, s, ExampleDelegation());
  }

  /** What the ledger is after the largest reward was awarded to the delegation. */
  function Rewarded(l: Ledger): Ledger {
    l.(awarded := l.awarded + MAX_UINT256, delegatorRewards := l.delegatorRewards[ExampleDelegation() := MAX_UINT256])
  }

  lemma AfterAward(s: State, start: nat, now: Timestamp, l: Ledger)
    requires Stage(s, ActiveValidator(start, 2, 10), Some(EndedDelegation(start)), l) && now > start
    ensures var r := AwardDelegator(ExampleSettings(), now, s, ExampleDelegation(), 0);
            && r.Ok? && r.value.1 == MAX_UINT256 && r.value.0.churnTracker == s.churnTracker
            && Stage(r.value.0, ActiveValidator(start, 2, 10), Some(EndedDelegation(start)), Rewarded(l))
  {
  }

  lemma AfterEndDelegation(s: State, start: nat, now: Timestamp, n: nat, l: Ledger)
    requires Stage(s, ActiveValidator(start, 1, 15), Some(ActiveDelegation(start)), l)
    requires Room(s.churnTracker, start, n) && n <= 85 && 0 < start < 10000 && now >= start + 3600
    ensures Step(ExampleSettings(), s, EndDelegation(now)).Ok?
    ensures var s1 := Step(ExampleSettings(), s, EndDelegation(now)).value;
            && Room(s1.churnTracker, now, n + 15)
            && Stage(s1, ActiveValidator(start, 2, 10), Some(EndedDelegation(start)), Rewarded(l))
  {
    AfterUndelegate(s, start, now, n, l);
    AfterAward(Undelegate(ExampleSettings(), now, s, ExampleDelegation()).value, start, now, l);
  }

  // ----- Runs -----

  function Registration(): seq<Transaction> {
    [Setup(), Register(100)]
  }

  function FirstLedger(): Ledger {
    LedgerOf(Run(ExampleSettings(), Registration()))
  }

  lemma NothingAwarded()
    ensures FirstLedger() == NO_REWARDS
  {
    var none: seq<Transaction> := [];
    RunAppend(ExampleSettings(), none, Setup());
    AfterSetup(DEPLOYED);
    RunAppend(ExampleSettings(), none + [Setup()], Register(100));
    AfterRegister(Run(ExampleSettings(), none + [Setup()]), 100);
    assert none + [Setup()] + [Register(100)] == Registration();
  }

  lemma AfterRegistration()
    ensures ValidSettings(ExampleSettings()) && Legal(ExampleSettings(), Registration())
    ensures var s := Run(ExampleSettings(), Registration());
            Room(s.churnTracker, 100, 10) && Stage(s, NewValidator(), None, FirstLedger())
  {
    var cfg := ExampleSettings();
    var none: seq<Transaction> := [];
    RunAppend(cfg, none, Setup());
    AfterSetup(DEPLOYED);
    RunAppend(cfg, none + [Setup()], Register(100));
    AfterRegister(Run(cfg, none + [Setup()]), 100);
    assert none + [Setup()] + [Register(100)] == Registration();
  }

  /** A validator registers and a delegation to it begins. */
  function Beginning(now: Timestamp): seq<Transaction> {
    [Acknowledge(now), Delegate(now), AcknowledgeDelegation(now)]
  }

  lemma RunThree(cfg: Settings, txs: seq<Transaction>, a: Transaction, b: Transaction, c: Transaction)
    requires cfg.weightToValueFactor != 0
    requires !a.call.CallInitializeValidatorRegistration? && !b.call.CallInitializeValidatorRegistration?
    requires !c.call.CallInitializeValidatorRegistration? && Latest(txs) <= a.now <= b.now <= c.now
    ensures Run(cfg, txs + [a, b, c]) == Execute(cfg, Execute(cfg, Execute(cfg, Run(cfg, txs), a), b), c)
    ensures Legal(cfg, txs) ==> Legal(cfg, txs + [a, b, c])
  {
    RunAppend(cfg, txs, a);
    RunAppend(cfg, txs + [a], b);
    RunAppend(cfg, txs + [a] + [b], c);
    assert txs + [a] + [b] + [c] == txs + [a, b, c];
  }

  lemma AfterBeginning(txs: seq<Transaction>, now: Timestamp, n: nat, l: Ledger)
    requires var s := Run(ExampleSettings(), txs);
             Stage(s, NewValidator(), None, l) && Room(s.churnTracker, now, n) && n <= 85
    requires Latest(txs) <= now
    ensures Legal(ExampleSettings(), txs) ==> Legal(ExampleSettings(), txs + Beginning(now))
    ensures var s := Run(ExampleSettings(), txs + Beginning(now));
            && Room(s.churnTracker, now, n + 15)
            && Stage(s, ActiveValidator(now, 1, 15), Some(ActiveDelegation(now)), l)
  {
    var cfg := ExampleSettings();
    RunThree(cfg, txs, Acknowledge(now), Delegate(now), AcknowledgeDelegation(now));
    AfterAcknowledge(Run(cfg, txs), now, l);
    var s1 := Execute(cfg, Run(cfg, txs), Acknowledge(now));
    AfterDelegate(s1, now, n, l);
    AfterAcknowledgeDelegation(Execute(cfg, s1, Delegate(now)), now, l);
  }

  function Ended(): seq<Transaction> {
    Registration() + Beginning(100) + [EndDelegation(3700)]
  }

  lemma AfterEnded()
    ensures ValidSettings(ExampleSettings()) && Legal(ExampleSettings(), Ended())
    ensures var s := Run(ExampleSettings(), Ended());
            && Room(s.churnTracker, 3700, 40)
            && Stage(s, ActiveValidator(100, 2, 10), Some(EndedDelegation(100)), Rewarded(FirstLedger()))
  {
    var cfg, txs := ExampleSettings(), Registration() + Beginning(100);
    AfterRegistration();
    AfterBeginning(Registration(), 100, 10, FirstLedger());
    RunAppend(cfg, txs, EndDelegation(3700));
    AfterEndDelegation(Run(cfg, txs), 100, 3700, 25, FirstLedger());
  }

  // ----- A recipient that the delegator did not choose -----

  /** The validator's owner ends the delegation and names itself. */
  function EndByValidator(now: Timestamp): Transaction {
    Transaction(now, 9, CallInitializeEndDelegation(ExampleDelegation(), false, None, 9, true))
  }

  lemma AfterEndByValidator(s: State, l: Ledger)
    requires Stage(s, ActiveValidator(100, 1, 15), Some(ActiveDelegation(100)), l) && Room(s.churnTracker, 100, 25)
    ensures Step(ExampleSettings(), s, EndByValidator(3700)).Ok?
    ensures var s1 := Step(ExampleSettings(), s, EndByValidator(3700)).value;
            && ExampleDelegation() in s1.delegatorStakes && s1.delegatorStakes[ExampleDelegation()].owner == 8
            && GetOr(s1.delegatorRewardRecipients, ExampleDelegation(), 0) == 9
  {
    AfterUndelegate(s, 100, 3700, 25, l);
  }

  /** So the reward of a delegation need not go where its owner wants it: here it is kept for the validator's owner. */
  lemma ValidatorOwnerChooses()
    ensures ValidSettings(ExampleSettings())
    ensures Legal(ExampleSettings(), Registration() + Beginning(100) + [EndByValidator(3700)])
    ensures var s := Run(ExampleSettings(), Registration() + Beginning(100) + [EndByValidator(3700)]);
            && ExampleDelegation() in s.delegatorStakes && s.delegatorStakes[ExampleDelegation()].owner == 8
            && GetOr(s.delegatorRewardRecipients, ExampleDelegation(), 0) == 9
  {
    var cfg, txs := ExampleSettings(), Registration() + Beginning(100);
    AfterRegistration();
    AfterBeginning(Registration(), 100, 10, FirstLedger());
    RunAppend(cfg, txs, EndByValidator(3700));
    AfterEndByValidator(Run(cfg, txs), FirstLedger());
  }

  // ----- A stake that is never returned -----

  /**
   The stake of the delegation that ended in this run is never returned: after every continuation, completing its end
   reverts, at any time and with any proof.
   */
  lemma StakeLockedForever(more: seq<Transaction>, now: Timestamp, caller: Account, proof: Option<WeightProof>)
    requires ValidSettings(ExampleSettings()) && Legal(ExampleSettings(), Ended() + more)
    ensures Legal(ExampleSettings(), Ended())
    ensures var s := Run(ExampleSettings(), Ended() + more);
            && ExampleDelegation() in s.delegatorStakes
            && GetOr(s.history.unlocked, DelegatorStake(ExampleDelegation()), []) == []
            && Step(ExampleSettings(), s,
                    Transaction(now, caller, CallCompleteEndDelegation(ExampleDelegation(), proof))).Revert?
  {
    var cfg, txs, k := ExampleSettings(), Ended() + more, ExampleDelegation();
    AfterEnded();
    assert txs[..|Ended()|] == Ended();
    BlockedForever(cfg, txs, |Ended()|, k);
    RunKeeps(cfg, txs);
    BlockedNotReturned(cfg, Latest(txs), Run(cfg, txs), Transaction(now, caller, CallCompleteEndDelegation(k, proof)), k);
  }

  // ----- A registration that is made again -----

  lemma RejectedRegistration(s: State, l: Ledger)
    requires Invariant(ExampleSettings(), 100, s) && Stage(s, NewValidator(), None, l)
    ensures Step(ExampleSettings(), s, Over(100)).Ok?
    ensures var s1 := Step(ExampleSettings(), s, Over(100)).value;
            && s1.initializedValidatorSet && s1.churnTracker == s.churnTracker && NODE_B !in s1.registeredValidators
            && ExampleID() in s1.validationPeriods && s1.validationPeriods[ExampleID()].weight == 10
  {
    EndCompletesIff(ExampleSettings(), 100, s, ExampleID(), false);
    CompleteEndEffect(ExampleSettings(), s, Some(RegistrationProof(ExampleID(), false)));
  }

  lemma RepeatingMovesOff(s: State)
    requires Invariant(ExampleSettings(), 100, s)
    requires s.initializedValidatorSet && ExampleID() in s.validationPeriods
    requires s.validationPeriods[ExampleID()].weight == 10
    requires Step(ExampleSettings(), s, Register(100)).Ok?
    ensures var s1 := Step(ExampleSettings(), s, Register(100)).value;
            s1.churnTracker.totalWeight != Sum(s1.validationPeriods, WeightOf())
  {
    RegistrationKeepsTotalIff(ExampleSettings(), 100, 9, s, ExampleInput(), 2, 3600, 10, 10);
  }

  lemma RejectionSucceeds()
    ensures var s := Run(ExampleSettings(), Registration());
            && Step(ExampleSettings(), s, Over(100)).Ok?
            && var s1 := Step(ExampleSettings(), s, Over(100)).value;
            && s1.initializedValidatorSet && s1.churnTracker == s.churnTracker && NODE_B !in s1.registeredValidators
            && ExampleID() in s1.validationPeriods && s1.validationPeriods[ExampleID()].weight == 10
  {
    AfterRegistration();
    RunKeeps(ExampleSettings(), Registration());
    RejectedRegistration(Run(ExampleSettings(), Registration()), FirstLedger());
  }

  lemma AfterRejection()
    ensures ValidSettings(ExampleSettings()) && Legal(ExampleSettings(), Registration() + [Over(100)])
    ensures var s := Run(ExampleSettings(), Registration() + [Over(100)]);
            && Room(s.churnTracker, 100, 10)
            && s.initializedValidatorSet && NODE_B !in s.registeredValidators
            && ExampleID() in s.validationPeriods && s.validationPeriods[ExampleID()].weight == 10
  {
    AfterRegistration();
    RejectionSucceeds();
    RunAppend(ExampleSettings(), Registration(), Over(100));
  }

  lemma RepetitionMovesOff()
    requires Step(ExampleSettings(), Run(ExampleSettings(), Registration() + [Over(100)]), Register(100)).Ok?
    ensures var s1 := Step(ExampleSettings(), Run(ExampleSettings(), Registration() + [Over(100)]), Register(100)).value;
            s1.churnTracker.totalWeight != Sum(s1.validationPeriods, WeightOf())
  {
    AfterRejection();
    RunKeeps(ExampleSettings(), Registration() + [Over(100)]);
    RepeatingMovesOff(Run(ExampleSettings(), Registration() + [Over(100)]));
  }

  /**
   Without fresh IDs the total weight is not the sum of the weights: a validator registers, the P-Chain rejects the
   registration, and the same registration is made again.
   */
  lemma RepeatedRegistrationBreaksTotal()
    ensures ValidSettings(ExampleSettings())
    ensures var s := Run(ExampleSettings(), Registration() + [Over(100)] + [Register(100)]);
            s.initializedValidatorSet && s.churnTracker.totalWeight != Sum(s.validationPeriods, WeightOf())
  {
    var cfg, txs := ExampleSettings(), Registration() + [Over(100)];
    AfterRejection();
    RunAppend(cfg, txs, Register(100));
    NextChange(Run(cfg, txs).churnTracker, 100, 10, Change(100, 10, 0));
    AfterRegister(Run(cfg, txs), 100);
    RepetitionMovesOff();
  }

  // ----- A reward that is lost -----

  lemma AfterEndPeriod(s: State, l: Ledger)
    requires Room(s.churnTracker, 3700, 40)
    requires Stage(s, ActiveValidator(100, 2, 10), Some(EndedDelegation(100)), l)
    ensures EndPeriod(ExampleSettings(), 3700, s, ExampleID()).Ok?
    ensures var s1 := EndPeriod(ExampleSettings(), 3700, s, ExampleID()).value;
            && Room(s1.churnTracker, 3700, 55)
            && Stage(s1, Validator(ValidatorStatus.PendingRemoved, NODE_B, 10, 3, 0, 100, 3700), None, l)
  {
    NextChange(s.churnTracker, 3700, 40, Change(3700, 0, 10));
    EndPeriodEffect(ExampleSettings(), 3700, s, ExampleID());
  }

  function ValidatorRewarded(l: Ledger): Ledger {
    l.(awarded := l.awarded + MAX_UINT256, validatorRewards := l.validatorRewards[ExampleID() := MAX_UINT256])
  }

  /** The validator ends too, with the largest reward. */
  lemma AfterEndValidation(s: State, l: Ledger)
    requires Room(s.churnTracker, 3700, 40) && ExampleID() !in l.validatorRewards
    requires Stage(s, ActiveValidator(100, 2, 10), Some(EndedDelegation(100)), l)
    ensures Step(ExampleSettings(), s, EndValidation(3700)).Ok?
    ensures var s1 := Step(ExampleSettings(), s, EndValidation(3700)).value;
            && Room(s1.churnTracker, 3700, 55)
            && Stage(s1, Validator(ValidatorStatus.PendingRemoved, NODE_B, 10, 3, 0, 100, 3700), None,
                     ValidatorRewarded(l))
  {
    AfterEndPeriod(s, l);
  }

  /** Its rewards are minted, and its node is free again. */
  lemma AfterOver(s: State, l: Ledger)
    requires Invariant(ExampleSettings(), 3700, s)
    requires Stage(s, Validator(ValidatorStatus.PendingRemoved, NODE_B, 10, 3, 0, 100, 3700), None, l)
    ensures Step(ExampleSettings(), s, Over(3700)).Ok?
    ensures var s1 := Step(ExampleSettings(), s, Over(3700)).value;
            && s1.churnTracker == s.churnTracker && s1.initializedValidatorSet && NODE_B !in s1.registeredValidators
            && LedgerOf(s1) == l.(minted := l.minted + GetOr(l.validatorRewards, ExampleID(), 0),
                                  validatorRewards := l.validatorRewards - {ExampleID()})
  {
    EndCompletesIff(ExampleSettings(), 3700, s, ExampleID(), false);
    CompleteEndEffect(ExampleSettings(), s, Some(RegistrationProof(ExampleID(), false)));
  }

  function BothEnded(): seq<Transaction> {
    Ended() + [EndValidation(3700)]
  }

  lemma AfterBothEnded()
    ensures ValidSettings(ExampleSettings()) && Legal(ExampleSettings(), BothEnded()) && Latest(BothEnded()) == 3700
    ensures var s := Run(ExampleSettings(), BothEnded());
            && Room(s.churnTracker, 3700, 55)
            && Stage(s, Validator(ValidatorStatus.PendingRemoved, NODE_B, 10, 3, 0, 100, 3700), None,
                     ValidatorRewarded(Rewarded(FirstLedger())))
  {
    AfterEnded();
    NothingAwarded();
    RunAppend(ExampleSettings(), Ended(), EndValidation(3700));
    AfterEndValidation(Run(ExampleSettings(), Ended()), Rewarded(FirstLedger()));
  }

  lemma AfterBothOver()
    ensures var s := Run(ExampleSettings(), BothEnded() + [Over(3700)]);
            var l := ValidatorRewarded(Rewarded(FirstLedger()));
            && Room(s.churnTracker, 3700, 55) && s.initializedValidatorSet && NODE_B !in s.registeredValidators
            && LedgerOf(s) == l.(minted := l.minted + MAX_UINT256, validatorRewards := l.validatorRewards - {ExampleID()})
  {
    AfterBothEnded();
    RunAppend(ExampleSettings(), BothEnded(), Over(3700));
    RunKeeps(ExampleSettings(), BothEnded());
    AfterOver(Run(ExampleSettings(), BothEnded()), ValidatorRewarded(Rewarded(FirstLedger())));
  }

  function Repeated(): seq<Transaction> {
    BothEnded() + [Over(3700)] + [Register(3700)]
  }

  /** What the ledger is after both rewards were awarded, and the validator's was minted. */
  function SecondLedger(): Ledger {
    Ledger(2 * MAX_UINT256, MAX_UINT256, map[], map[ExampleDelegation() := MAX_UINT256])
  }

  lemma AfterRepeated()
    ensures var s := Run(ExampleSettings(), Repeated());
            Room(s.churnTracker, 3700, 70) && Stage(s, NewValidator(), None, SecondLedger())
  {
    var cfg, txs := ExampleSettings(), BothEnded() + [Over(3700)];
    NothingAwarded();
    AfterBothOver();
    assert LedgerOf(Run(cfg, txs)) == SecondLedger();
    RunAppend(cfg, txs, Register(3700));
    NextChange(Run(cfg, txs).churnTracker, 3700, 55, Change(3700, 10, 0));
    AfterRegister(Run(cfg, txs), 3700);
  }

  /** Three rewards were awarded; one was minted, one can be redeemed. */
  lemma OneLost(s: State)
    requires LedgerOf(s) == Rewarded(SecondLedger())
    ensures !RewardsAddUp(s)
  {
    var none: map<DelegationID, nat> := map[];
    Zero(none, Amount());
    Zero(s.redeemableValidatorRewards, Amount());
    var reward: nat := MAX_UINT256;
    Update(none, ExampleDelegation(), reward, Amount());
    assert s.redeemableDelegatorRewards == none[ExampleDelegation() := MAX_UINT256];
  }

  /**
   Without fresh IDs a reward can be lost: both ended while the reward of the first delegation was still waiting, the
   same registration was made again, and the first delegation of the new period took the ID and the reward's place.
   */
  lemma RepeatedRegistrationLosesReward()
    ensures var s := Run(ExampleSettings(), Repeated() + Beginning(3700) + [EndDelegation(7300)]);
            !RewardsAddUp(s)
  {
    var cfg, txs := ExampleSettings(), Repeated() + Beginning(3700);
    AfterRepeated();
    AfterBeginning(Repeated(), 3700, 70, SecondLedger());
    RunAppend(cfg, txs, EndDelegation(7300));
    AfterEndDelegation(Run(cfg, txs), 3700, 7300, 85, SecondLedger());
    OneLost(Run(cfg, txs + [EndDelegation(7300)]));
  }
}
