/** Data of the proof-of-stake validator manager. */
module StakingTypes {
  import opened Wrappers
  import opened Numeric
  import opened MessageTypes
  import opened ChurnTracker

  type NodeID = seq<Byte>

  type Address = nat

  /** The sender of a transaction is never the zero address. */
  type Account = a: Address | a != 0 witness 1

  /** Block times are positive and fit in 64 bits. */
  type Timestamp = t: nat | 0 < t <= 0xffff_ffff_ffff_ffff witness 1

  /**
   A validation ID is the SHA-256 hash of the subnet ID and an index (initial validators) or of the registration
   message. Hashes are taken to be injective, so an ID is represented by what was hashed.
   */
  datatype ValidationID =
    | Initial(subnetID: nat, index: nat)
    | Registered(period: ValidationPeriod)

  /** A delegation ID is the Keccak hash of the validation ID and the nonce of the weight update. */
  datatype DelegationID = DelegationID(validationID: ValidationID, nonce: nat)

  datatype ValidatorStatus = Unknown | PendingAdded | Active | PendingRemoved | Completed | Invalidated

  datatype Validator = Validator(
    status: ValidatorStatus,
    nodeID: NodeID,
    startingWeight: nat,
    messageNonce: nat,
    weight: nat,
    startedAt: nat,
    endedAt: nat)

  datatype DelegatorStatus = Unknown | PendingAdded | Active | PendingRemoved

  datatype Delegator = Delegator(
    status: DelegatorStatus,
    owner: Address,
    validationID: ValidationID,
    weight: nat,
    startedAt: nat,
    startingNonce: nat,
    endingNonce: nat)

  datatype PoSValidatorInfo = PoSValidatorInfo(
    owner: Account,
    delegationFeeBips: nat,
    minStakeDuration: nat,
    uptimeSeconds: nat)

  datatype RewardArgs = RewardArgs(
    stakeAmount: nat,
    validatorStartTime: nat,
    stakingStartTime: nat,
    stakingEndTime: nat,
    uptimeSeconds: nat)

  /** Settings fixed at initialization. The reward calculator is a contract of its own: None when it reverts. */
  datatype Settings = Settings(
    subnetID: nat,
    blockchainID: nat,
    managerAddress: Account,
    churn: Limit,
    minimumStakeAmount: nat,
    maximumStakeAmount: nat,
    minimumStakeDuration: nat,
    minimumDelegationFeeBips: nat,
    maximumStakeMultiplier: nat,
    weightToValueFactor: nat,
    rewardCalculator: RewardArgs -> Option<nat>)

  const MAXIMUM_CHURN_PERCENTAGE_LIMIT := 20
  const MAXIMUM_REGISTRATION_EXPIRY_LENGTH := 172800
  const BLS_PUBLIC_KEY_LENGTH := 48
  const MAXIMUM_STAKE_MULTIPLIER_LIMIT := 10
  const MAXIMUM_DELEGATION_FEE_BIPS := 10000
  const BIPS_CONVERSION_FACTOR := 10000

  /** The tokens that a weight stands for. */
  function TokenValue(factor: nat, weight: nat): nat {
    weight * factor
  }

  /** What the initializer checks. */
  ghost predicate ValidSettings(cfg: Settings) {
    && 1 <= cfg.churn.maximumPercentage <= MAXIMUM_CHURN_PERCENTAGE_LIMIT
    && 1 <= cfg.minimumDelegationFeeBips <= MAXIMUM_DELEGATION_FEE_BIPS
    && cfg.minimumStakeAmount <= cfg.maximumStakeAmount
    && 1 <= cfg.maximumStakeMultiplier <= MAXIMUM_STAKE_MULTIPLIER_LIMIT
    && cfg.minimumStakeDuration >= cfg.churn.periodSeconds
    && cfg.weightToValueFactor != 0
  }

  datatype RegistrationInput = RegistrationInput(
    nodeID: NodeID,
    blsPublicKey: seq<Byte>,
    registrationExpiry: nat,
    remainingBalanceOwner: PChainOwner,
    disableOwner: PChainOwner)

  // Contents of the signed messages handed to the contract. Where a call takes an Option of one, None stands for a
  // message that is missing, not from the expected chain and sender, or malformed.
  datatype RegistrationProof = RegistrationProof(validationID: ValidationID, valid: bool)

  datatype WeightMessage = WeightMessage(nonce: nat, weight: nat)

  datatype WeightProof = WeightProof(validationID: ValidationID, nonce: nat, weight: nat)

  datatype UptimeProof = UptimeProof(validationID: ValidationID, uptime: nat)

  datatype Error =
    | Panic
    | InvalidInitializationStatus
    | InvalidValidatorManagerBlockchainID
    | InvalidValidatorManagerAddress
    | NodeAlreadyRegistered
    | InvalidTotalWeight
    | InvalidConversionID
    | InvalidPChainOwnerThreshold
    | PChainOwnerAddressesNotSorted
    | InvalidRegistrationExpiry
    | InvalidBLSKeyLength
    | InvalidNodeID
    | MaxChurnRateExceeded
    | InvalidValidationID
    | InvalidValidatorStatus
    | UnexpectedRegistrationStatus
    | InvalidWarpMessage
    | InvalidDelegationFee
    | InvalidMinStakeDuration
    | InvalidStakeAmount
    | BalanceNotIncreased
    | UnauthorizedOwner
    | MinStakeDurationNotPassed
    | ValidatorIneligibleForRewards
    | DelegatorIneligibleForRewards
    | RewardCalculatorReverted
    | TokenTransferFailed
    | ValidatorNotPoS
    | MaxWeightExceeded
    | InvalidDelegatorStatus
    | InvalidNonce
    | InvalidDelegationID
    | InvalidRewardRecipient

  /** What stake a token movement belongs to. */
  datatype Stake = ValidatorStake(validationID: ValidationID) | DelegatorStake(delegationID: DelegationID)

  datatype Deposit = Deposit(from: Address, value: Uint256)

  datatype Payment = Payment(to: Address, value: nat)

  /** The sum of some payments. */
  function Total(payments: seq<Payment>): nat {
    if payments == [] then 0 else Total(payments[..|payments| - 1]) + payments[|payments| - 1].value
  }

  lemma TotalAppend(payments: seq<Payment>, last: Payment)
    ensures Total(payments + [last]) == Total(payments) + last.value
  {
    assert (payments + [last])[..|payments|] == payments;
  }

  /** What the contract has sent to the P-Chain and moved in tokens so far. */
  datatype History = History(
    weightMessages: map<ValidationID, seq<WeightMessage>>,
    initialTotal: nat,
    changes: seq<Change>,
    locked: map<Stake, seq<Deposit>>,
    unlocked: map<Stake, seq<Payment>>,
    awarded: nat,
    minted: seq<Payment>)

  /** The storage of the contract, its token balance, and the history. */
  datatype State = State(
    churnTracker: Tracker,
    pendingRegisterValidationMessages: map<ValidationID, ValidationPeriod>,
    validationPeriods: map<ValidationID, Validator>,
    registeredValidators: map<NodeID, ValidationID>,
    initializedValidatorSet: bool,
    posValidatorInfo: map<ValidationID, PoSValidatorInfo>,
    delegatorStakes: map<DelegationID, Delegator>,
    redeemableDelegatorRewards: map<DelegationID, nat>,
    delegatorRewardRecipients: map<DelegationID, Address>,
    redeemableValidatorRewards: map<ValidationID, nat>,
    rewardRecipients: map<ValidationID, Address>,
    balance: nat,
    history: History)

  const EMPTY_HISTORY := History(map[], 0, [], map[], map[], 0, [])

  /** A freshly deployed contract. */
  const DEPLOYED := State(Fresh(0), map[], map[], map[], false, map[], map[], map[], map[], map[], map[], 0, EMPTY_HISTORY)

  const NO_VALIDATOR := Validator(ValidatorStatus.Unknown, [], 0, 0, 0, 0, 0)

  function ValidatorOf(s: State, id: ValidationID): Validator {
    GetOr(s.validationPeriods, id, NO_VALIDATOR)
  }

  function StatusOf(s: State, id: ValidationID): ValidatorStatus {
    ValidatorOf(s, id).status
  }

  predicate IsPoS(s: State, id: ValidationID) {
    id in s.posValidatorInfo
  }

  function PoSOwner(s: State, id: ValidationID): Address {
    if id in s.posValidatorInfo then s.posValidatorInfo[id].owner else 0
  }

  /** Appending to the sequence a key holds. */
  function Append<K, V>(m: map<K, seq<V>>, k: K, v: V): map<K, seq<V>> {
    m[k := GetOr(m, k, []) + [v]]
  }
}
