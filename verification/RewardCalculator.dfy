/** The example reward calculator: linear in stake and time, and nothing below the uptime threshold. */
module RewardCalculator {
  import opened Wrappers
  import opened Numeric
  import opened StakingTypes
  import opened StakingSpec

  const SECONDS_IN_YEAR := 31536000
  const UPTIME_REWARDS_THRESHOLD_PERCENTAGE := 80

  /** A year of basis points: what the two divisions of the contract divide by together. */
  const YEAR_OF_BIPS := 315360000000

  /** uint64 arguments; an intermediate overflow or a negative duration reverts. */
  function Calculate(rewardBasisPoints: nat, args: RewardArgs): Result<nat, Error> {
    var uptime :- Checked64(args.uptimeSeconds * 100, Panic);
    var validating :- Checked64(args.stakingEndTime - args.validatorStartTime, Panic);
    var threshold :- Checked64(validating * UPTIME_REWARDS_THRESHOLD_PERCENTAGE, Panic);
    if uptime < threshold then Ok(0)
    else
      var scaled :- Checked256(args.stakeAmount * rewardBasisPoints, Panic);
      var staking :- Checked64(args.stakingEndTime - args.stakingStartTime, Panic);
      var total :- Checked256(scaled * staking, Panic);
      Ok(total / SECONDS_IN_YEAR / BIPS_CONVERSION_FACTOR)
  }

  /** The calculator as the staking manager sees it. */
  function AsSetting(rewardBasisPoints: nat): RewardArgs -> Option<nat> {
    (args: RewardArgs) =>
      match Calculate(rewardBasisPoints, args)
      case Ok(reward) => Some(reward)
      case Revert(_) => None
  }

  /** The uptime reaches 80 percent of the time validated. */
  predicate Eligible(args: RewardArgs) {
    100 * args.uptimeSeconds >= 80 * (args.stakingEndTime - args.validatorStartTime)
  }

  /** Stake, times rate, times duration, before the divisions. */
  function Product(rewardBasisPoints: nat, args: RewardArgs): int {
    args.stakeAmount * rewardBasisPoints * (args.stakingEndTime - args.stakingStartTime)
  }

  /** The two floor divisions of the contract are one division by their product. */
  lemma OneDivision(x: nat)
    ensures x / SECONDS_IN_YEAR / BIPS_CONVERSION_FACTOR == x / YEAR_OF_BIPS
  {
  }

  /** The reward is the exact linear amount rounded down once. */
  lemma RewardMeaning(rewardBasisPoints: nat, args: RewardArgs)
    requires Calculate(rewardBasisPoints, args).Ok?
    ensures var reward := Calculate(rewardBasisPoints, args).value;
            if Eligible(args) then
              YEAR_OF_BIPS * reward <= Product(rewardBasisPoints, args) < YEAR_OF_BIPS * (reward + 1)
            else reward == 0
  {
    if Eligible(args) {
      OneDivision(Product(rewardBasisPoints, args));
    }
  }

  /** The calculator answers exactly when no intermediate result overflows and no duration is negative. */
  lemma AnswersIff(rewardBasisPoints: nat, args: RewardArgs)
    ensures Calculate(rewardBasisPoints, args).Ok? <==>
              && args.uptimeSeconds * 100 <= MAX_UINT64
              && 0 <= 80 * (args.stakingEndTime - args.validatorStartTime) <= MAX_UINT64
              && (Eligible(args) ==>
                    && args.stakeAmount * rewardBasisPoints <= MAX_UINT256
                    && 0 <= args.stakingEndTime - args.stakingStartTime <= MAX_UINT64
                    && Product(rewardBasisPoints, args) <= MAX_UINT256)
  {
    var duration := args.stakingEndTime - args.stakingStartTime;
    if Eligible(args) && duration >= 0 {
      assert args.stakeAmount * rewardBasisPoints * duration >= 0;
    }
  }

  /** More stake never earns less. */
  lemma MonotoneInStake(rewardBasisPoints: nat, args: RewardArgs, more: nat)
    requires more >= args.stakeAmount
    requires Calculate(rewardBasisPoints, args.(stakeAmount := more)).Ok?
    ensures Calculate(rewardBasisPoints, args).Ok?
    ensures Calculate(rewardBasisPoints, args).value
            <= Calculate(rewardBasisPoints, args.(stakeAmount := more)).value
  {
    var larger := args.(stakeAmount := more);
    AnswersIff(rewardBasisPoints, larger);
    if Eligible(args) {
      ProductSum(rewardBasisPoints, args, args.stakeAmount, more - args.stakeAmount);
    }
    assert Calculate(rewardBasisPoints, args).Ok? by {
      assert args.stakeAmount * rewardBasisPoints <= more * rewardBasisPoints;
      AnswersIff(rewardBasisPoints, args);
    }
    RewardMeaning(rewardBasisPoints, args);
    RewardMeaning(rewardBasisPoints, larger);
  }

  /** The amount before the divisions is additive in the stake. */
  lemma ProductSum(rewardBasisPoints: nat, args: RewardArgs, a: nat, b: nat)
    requires args.stakingEndTime >= args.stakingStartTime
    ensures Product(rewardBasisPoints, args.(stakeAmount := a + b))
            == Product(rewardBasisPoints, args.(stakeAmount := a)) + Product(rewardBasisPoints, args.(stakeAmount := b))
    ensures Product(rewardBasisPoints, args.(stakeAmount := a)) >= 0
    ensures Product(rewardBasisPoints, args.(stakeAmount := b)) >= 0
    ensures args.(stakeAmount := args.stakeAmount) == args
  {
    var duration := args.stakingEndTime - args.stakingStartTime;
    assert (a + b) * rewardBasisPoints == a * rewardBasisPoints + b * rewardBasisPoints;
    assert (a * rewardBasisPoints + b * rewardBasisPoints) * duration
        == a * rewardBasisPoints * duration + b * rewardBasisPoints * duration;
  }

  /** Splitting a stake in two never gains anything and loses at most one unit. */
  lemma SplittingLosesAtMostOne(rewardBasisPoints: nat, args: RewardArgs, a: nat, b: nat)
    requires Calculate(rewardBasisPoints, args.(stakeAmount := a + b)).Ok?
    ensures var whole := Calculate(rewardBasisPoints, args.(stakeAmount := a + b));
            var first := Calculate(rewardBasisPoints, args.(stakeAmount := a));
            var second := Calculate(rewardBasisPoints, args.(stakeAmount := b));
            && first.Ok? && second.Ok?
            && whole.value - 1 <= first.value + second.value <= whole.value
  {
    var whole := args.(stakeAmount := a + b);
    var first, second := args.(stakeAmount := a), args.(stakeAmount := b);
    MonotoneInStake(rewardBasisPoints, first, a + b);
    MonotoneInStake(rewardBasisPoints, second, a + b);
    AnswersIff(rewardBasisPoints, whole);
    if Eligible(args) {
      ProductSum(rewardBasisPoints, args, a, b);
    }
    RewardMeaning(rewardBasisPoints, whole);
    RewardMeaning(rewardBasisPoints, first);
    RewardMeaning(rewardBasisPoints, second);
  }

  /**
   With this calculator, what a validator is awarded at the end of its period is the linear amount on the tokens it
   staked, over the time it validated, and nothing if its uptime fell short.
   */
  lemma ValidatorAward(rewardBasisPoints: nat, cfg: Settings, s: State, id: ValidationID, recipient: Address)
    requires cfg.rewardCalculator == AsSetting(rewardBasisPoints)
    requires IsPoS(s, id) && AwardValidator(cfg, s, id, recipient).Ok?
    ensures var v, reward := ValidatorOf(s, id), AwardValidator(cfg, s, id, recipient).value.1;
            var args := RewardArgs(TokenValue(cfg.weightToValueFactor, v.startingWeight), v.startedAt, v.startedAt,
                                   v.endedAt, s.posValidatorInfo[id].uptimeSeconds);
            if Eligible(args) then
              YEAR_OF_BIPS * reward <= Product(rewardBasisPoints, args) < YEAR_OF_BIPS * (reward + 1)
            else reward == 0
  {
    var v := ValidatorOf(s, id);
    RewardMeaning(rewardBasisPoints,
                  RewardArgs(TokenValue(cfg.weightToValueFactor, v.startingWeight), v.startedAt, v.startedAt,
                             v.endedAt, s.posValidatorInfo[id].uptimeSeconds));
  }
}
