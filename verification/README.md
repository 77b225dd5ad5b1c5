# Interchain messaging contracts: models and proofs

This project models the contracts whose Go bindings the repository ships, and proves what they promise, for every run.

- **The proof-of-stake validator manager** (`Staking*.dfy`, `ChurnTracker.dfy`). Two interlocking state machines,
  validators and delegations, over shared weights, a churn limit, an escrow of stakes and a ledger of rewards. Every
  call is one transaction that completes or reverts. `StakingSpec` has the calls as functions, `StakingManager` the
  contract as an object that updates its storage step by step, proved against them. `StakingAnswers`,
  `StakingDelegationAnswers` and `StakingInitialSet` say of every call exactly when it succeeds and all that it changes,
  in terms of the call and the storage before it, and `StakingReverts` why it reverts; `StakingTheorems` and
  `StakingChoices` have the promises of every run; the other modules have the proofs.
- **The messages between it and the P-Chain** (`BigEndian.dfy`, `ValidatorMessages.dfy`, `RegisterMessage.dfy`,
  `ConversionMessage.dfy`, `ValidatorMessagesLibrary.dfy`), with the byte loops of the library, and where every field is
  in them (`MessageLayout.dfy`).
- **The example reward calculator** (`RewardCalculator.dfy`).
- **The cross-chain messenger** (`Teleporter*.dfy`, `ReceiptQueue.dfy`). Any number of chains; the environment may
  deliver any message that was sent, in any order, any number of times, or never; a message being executed may call the
  messenger again. `TeleporterSpec` has the calls, `TeleporterMessenger` the contract object, `TeleporterAnswers` and
  `TeleporterDelivery` what each call answers, `TeleporterReverts` why it reverts, `TeleporterNetwork` and
  `TeleporterTheorems` the runs.
- **Its wire format and message IDs** (`AbiCodec.dfy`, `AbiLayout.dfy`), after the Contract ABI Specification, section
  "Formal Specification of the Encoding".
- **Forwarding of calls signed by a validator set** (`ValidatorSetSig.dfy`).

`dafny verify dfyconfig.toml` checks everything.

## What is assumed

- Hashes are injective and not zero. An ID is represented by what is hashed: a validation ID by the subnet and index or by
  the registration, a delegation ID by the validation ID and the nonce, a message ID by the chains and the nonce, a message
  hash by the message. `RegisterMessage.RegisterInjective`, `AbiCodec.EncodeInjective` and `AbiCodec.PreimageInjective`
  prove that the bytes that are hashed determine these. The bytes of the conversion data do not determine it, so the
  conversion ID is represented by the bytes; `StakingInitialSet` says what follows.
- Block times are positive and never go back (`StakingRuns.Legal`).
- A successful registration uses a validation ID that was not used before (`StakingInvariants.FreshID`). The contract does
  not check this, and the first registration for which it is not true breaks the promises
  (`StakingTheorems.RegistrationKeepsPromisesIff`). Solvency, the returns, the churn limit and the registry do not depend
  on it (`StakingAnyIDs.EveryRunWithAnyIDs`); the sum of the weights and the ledger of rewards do (`StakingExamples`).
- The precompile vouches only for messages that a messenger has sent (`TeleporterNetwork.Vouched`). About the P-Chain
  nothing is assumed: any proof may arrive at any time.
- A token moves what it reports and does not call back; minting does not fail. Anybody may also transfer tokens in
  (`Donate`).
- The lemmas about marking receipts and deliveries in `TeleporterAnswers` and `TeleporterDelivery` take a token balance to
  be a number of 256 bits (`BalancesFit`).
- Arithmetic of 64, 32 and 256 bits is checked and reverts on overflow, as written out in the calls.

## Where code and documentation differ

The model follows the deployed bytecode.

- The bytecode limits the churn percentage to 20; `contracts/validator-manager/ValidatorManager.sol:62` says 80. No proof
  uses the limit.
- The delegation functions of `contracts/validator-manager/PoSValidatorManager.sol:522-598` are empty; the bytecode has all
  of them. Their rows cite the bytecode or the documentation of the interface. Functions present in both agree, so the
  other rows cite the Solidity lines.
- The interface says that only the delegator may end a delegation; the code, and
  `contracts/validator-manager/README.md:141`, let the validator's owner do so too, after the validator's minimum duration
  (`StakingLifecycle.DelegationMoves`).
- So the recipient of a delegation's reward, which the interface has the delegator name, can be named by the validator's
  owner in ending it (`StakingChoices.DelegatorChooses`, `StakingExamples.ValidatorOwnerChooses`).
- The interface says that the nonce that ends a delegation must have been sent by the contract; the code only asks that it
  is at least the ending nonce.
- The messenger's documentation asks for a reward address that is not zero; the code accepts zero and records none.

## Model

| member | source | states |
|---|---|---|
| `StakingTheorems.EveryRun` | abi-bindings/go/validator-manager/ERC20TokenStakingManager/ERC20TokenStakingManager.go:107 | For every legal run from deployment, all of the promises below hold of the state reached: `StakePlusDelegations`, `EndingNeverUnderflows`, `TotalIsSumOfWeights`, `Solvent`, `ReturnedAtMostOnce`, `HeldWhileLive`, `PayoutsNeverFail`, `RewardsAddUp`, `ChurnLimited`, `HistoriesComplete`, `RegistryIsExact` |
| `StakingRuns.RunKeeps` | abi-bindings/go/validator-manager/ERC20TokenStakingManager/ERC20TokenStakingManager.go:107 | The invariant behind these promises holds after every legal run, reverted transactions included |
| `StakingRuns.StepKeeps` | abi-bindings/go/validator-manager/ERC20TokenStakingManager/ERC20TokenStakingManager.go:107 | Every successful call keeps the invariant; each kind of call has its own lemma ending in `Keeps` |
| `StakingTheorems.WeightsFromInvariant` | abi-bindings/go/validator-manager/ERC20TokenStakingManager/ERC20TokenStakingManager.go:107 | A pending or active validator weighs its starting weight plus the pending and active weight delegated to it, within the multiplier |
| `StakingTheorems.EndingFromInvariant` | abi-bindings/go/validator-manager/ERC20TokenStakingManager/ERC20TokenStakingManager.go:107 | Taking an active delegation off an active validator leaves at least the validator's own stake: the subtraction cannot underflow |
| `StakingTheorems.InvalidatedWeightStays` | contracts/validator-manager/ValidatorManager.sol:443-482 | The total that churn is measured against exceeds the weight of all other periods by exactly the weight of the invalidated ones, which is never taken off |
| `StakingTheorems.RegistrationKeepsTotalIff` | contracts/validator-manager/ValidatorManager.sol:241-307 | A successful registration keeps the total equal to the sum of the weights if and only if its validation ID is new or the earlier period of that ID has weight zero |
| `StakingTheorems.RegistrationKeepsPromisesIff` | contracts/validator-manager/ValidatorManager.sol:241-307 | From any state that satisfies the invariant, a successful registration keeps all of the promises of `EveryRun` if and only if its validation ID was not used before |
| `StakingExamples.RepeatedRegistrationBreaksTotal` | contracts/validator-manager/ValidatorManager.sol:241-307 | A concrete run, with a rejected registration made a second time, after which the total is not the sum of the weights |
| `StakingExamples.RepeatedRegistrationLosesReward` | abi-bindings/go/validator-manager/ERC20TokenStakingManager/ERC20TokenStakingManager.go:107 | A concrete run, with a completed validation registered a second time, after which one of the rewards awarded is neither minted nor redeemable |
| `StakingAnyIDs.EveryRunWithAnyIDs` | abi-bindings/go/validator-manager/ERC20TokenStakingManager/ERC20TokenStakingManager.go:107 | Over every run, whatever IDs are registered: the contract stays solvent, no return of stake fails for lack of tokens, no more is minted or redeemable than was awarded, the churn limit holds and the registry is exact |
| `StakingAnyIDs.OverwrittenNotLive` | contracts/validator-manager/ValidatorManager.sol:357-366 | A registration never overwrites a live period, although IDs are not checked |
| `StakingInitialSet.InitialSetIsVouched` | contracts/validator-manager/ValidatorManager.sol:147-212 | What is submitted is stored; it is the vouched data if and only if the keys have the vouched lengths (48 bytes each, for vouched BLS keys); what is stored is the vouched set if and only if nodes and weights are the same |
| `StakingInitialSet.SameNodesOtherKeys` | contracts/validator-manager/ValidatorMessages.sol:150-183 | Two lists with the same packed bytes, nodes and weights can still differ in their key lengths, so key lengths decide about the data and not always about the stored set |
| `StakingExamples.WrongSetAccepted` | contracts/validator-manager/ValidatorManager.sol:196-207 | A concrete run in which the P-Chain vouches for nodes A and B with 48-byte keys, nodes A and C are submitted with other key lengths, and A and C become the validators |
| `StakingTheorems.ReturnsFromInvariant` | contracts/validator-manager/ERC20TokenStakingManager.sol:133-143 | Every stake is deposited at most once and returned at most once, to its depositor, at most what was deposited and less than one weight-to-value factor short of it |
| `StakingTheorems.HeldFromInvariant` | contracts/validator-manager/interfaces/IValidatorManager.sol:135-137 | A validator's stake is still locked exactly while its period is pending, active or being removed |
| `StakingTheorems.PayoutsWhenSolvent` | contracts/validator-manager/ERC20TokenStakingManager.sol:141-143 | From a solvent state, no transaction whatever fails because the contract lacks the tokens to return a stake |
| `StakingTheorems.FinishCovered` | abi-bindings/go/validator-manager/ERC20TokenStakingManager/ERC20TokenStakingManager.go:107 | From a solvent state, finishing a delegation never runs short of tokens |
| `StakingTheorems.ValidatorPayoutCovered` | contracts/validator-manager/PoSValidatorManager.sol:369-398 | From a solvent state, closing a validation period never runs short of tokens |
| `StakingTheorems.ChurnFromInvariant` | contracts/validator-manager/ValidatorManager.sol:543-593 | The changes of a run lead from the initial total to the current one, and any stretch of them shorter than one period stays within the allowance of two windows |
| `StakingTheorems.HistoriesFromInvariant` | contracts/validator-manager/ValidatorManager.sol:510-537 | The weight messages of a validator carry the nonces 1, 2, 3, ... without gaps and never going back; equal nonces mean equal messages; the last one carries the current weight |
| `StakingTheorems.ResendRepeatsLastMessage` | contracts/validator-manager/ValidatorManager.sol:419-433 | Both resend calls repeat the validator's last weight message word for word and change nothing else |
| `StakingTheorems.DelegationIDsAreFresh` | abi-bindings/go/validator-manager/ERC20TokenStakingManager/ERC20TokenStakingManager.go:107 | A new delegation never takes the ID of an earlier one, ended ones included |
| `StakingTheorems.RegistryFromInvariant` | contracts/validator-manager/ValidatorManager.sol:357-366 | The registry names a period for a node if and only if that period is live and is the node's |
| `StakingLifecycle.ValidatorStatusMoves` | abi-bindings/go/validator-manager/ERC20TokenStakingManager/ERC20TokenStakingManager.go:107 | Every change of a validator's status is one of six moves, each made only by its own call, with its proof, its owner and its minimum duration |
| `StakingLifecycle.StatusOnlyMovesForward` | abi-bindings/go/validator-manager/ERC20TokenStakingManager/ERC20TokenStakingManager.go:107 | Over any legal run, between any two points, a status only moves forward |
| `StakingLifecycle.DelegationMoves` | contracts/validator-manager/interfaces/IPoSValidatorManager.sol:193-289 | Every appearance, change or disappearance of a delegation is one of the listed moves, with who may make it, the nonces a proof must have, the durations, and the stake paid out; any other call leaves every delegation as it was |
| `StakingTerms.TermsNeverChange` | contracts/validator-manager/PoSValidatorManager.sol:442-481 | Over any legal run a registered validator keeps its owner, delegation fee and minimum duration, and its uptime only grows |
| `StakingTerms.TermsWithinSettings` | contracts/validator-manager/PoSValidatorManager.sol:449-459 | In every reachable state the fee and the minimum duration of every validator are within the settings |
| `StakingTerms.RewardSplitsExactly` | abi-bindings/go/validator-manager/ERC20TokenStakingManager/ERC20TokenStakingManager.go:107 | A delegation reward splits into the agreed fee, rounded down and at most the reward, and a rest that is minted to the recipient; only an overflow can stop it |
| `StakingDelegationCalls.WithdrawEffect` | abi-bindings/go/validator-manager/ERC20TokenStakingManager/ERC20TokenStakingManager.go:107 | Withdrawing a delegation's reward moves exactly the fee to the validator's redeemable rewards and mints exactly the rest |
| `StakingDelegationCalls.WithdrawLedger` | abi-bindings/go/validator-manager/ERC20TokenStakingManager/ERC20TokenStakingManager.go:107 | The split keeps awarded = minted + redeemable |
| `StakingAnswers.RegistrationSucceedsIff` | contracts/validator-manager/PoSValidatorManager.sol:442-481 | A registration succeeds if and only if fee, duration and stake are within the settings, the deposit is worth a weight of 1 to 2^64-1, the set is initialized, the expiry lies in its window, the total has room, both owners have usable thresholds and addresses sorted for all pairs, the key has 48 bytes, the node ID is not empty and not registered, and the churn limit accepts the weight |
| `StakingAnswers.RegistrationStores` | contracts/validator-manager/ValidatorManager.sol:241-307 | It stores a pending period of the deposit's weight under the ID of its message, with the caller's terms and the deposit, and changes nothing else |
| `StakingAnswers.OwnerAllowedIff` | contracts/validator-manager/ValidatorManager.sol:214-232 | An owner passes the check if and only if its threshold is usable and every pair of its addresses is in order |
| `StakingAnswers.CompletionAnswers` | contracts/validator-manager/ValidatorManager.sol:331-355 | A registration is completed if and only if a positive acknowledgement arrives for a pending period; the period then starts at the block time, its message goes, and nothing else changes |
| `StakingAnswers.SubmitUptimeAnswers` | contracts/validator-manager/PoSValidatorManager.sol:184-195 | Uptime is accepted if and only if its proof is for an active PoS validator; the larger uptime is kept |
| `StakingAnswers.EndValidationSucceedsIff` | contracts/validator-manager/PoSValidatorManager.sol:312-364 | A validation ends if and only if it is active, the churn limit accepts the loss of its weight, and, for a PoS validator, the caller is its owner, its duration has passed, the uptime proof is its own, and there is a reward or the end is forced |
| `StakingAnswers.EndValidationChanges` | contracts/validator-manager/PoSValidatorManager.sol:312-364 | The period is being removed since the block time with weight zero, the P-Chain is told, the reward for the starting weight over the whole period becomes redeemable by the recipient named or the owner, and nothing else changes |
| `StakingAnswers.CloseAnswers` | contracts/validator-manager/ValidatorManager.sol:443-482 | A period closes if and only if the P-Chain says that it is over while it is pending or being removed; a completed one is paid its rewards, the stake goes to the owner, the node is free, and nothing else changes |
| `StakingAnswers.ClaimAnswers` | contracts/validator-manager/PoSValidatorManager.sol:200-215 | A claim succeeds if and only if the validation has completed and the caller owns it; the caller is paid all that is redeemable and nothing else changes |
| `StakingAnswers.ResendEndAnswers` | contracts/validator-manager/ValidatorManager.sol:419-433 | The end is told again if and only if the period is being removed |
| `StakingAnswers.ChooseRecipientAnswers` | contracts/validator-manager/PoSValidatorManager.sol:284-299 | A recipient is chosen if and only if the caller owns the validator and the recipient is not zero |
| `StakingInitialSet.InitialSetAnswers` | contracts/validator-manager/ValidatorManager.sol:147-212 | The initial set is accepted if and only if there is none yet, it is meant for this chain and contract, its nodes differ, its total fits and can be changed by one, and its bytes are vouched for; the validators are then active from the block time and the total is their sum |
| `StakingDelegationAnswers.DelegateSucceedsIff` | abi-bindings/go/validator-manager/ERC20TokenStakingManager/ERC20TokenStakingManager.go:107 | A delegation begins if and only if the deposit is worth a weight of 1 to 2^64-1, the validator is an active PoS validator with a nonce left, its weight stays within the multiplier, and the churn limit accepts the change |
| `StakingDelegationAnswers.DelegateStores` | abi-bindings/go/validator-manager/ERC20TokenStakingManager/ERC20TokenStakingManager.go:107 | The validator gains the deposit's weight, the P-Chain is told, and delegation and deposit are stored under the new nonce and the caller's name; nothing else changes |
| `StakingDelegationAnswers.CompleteDelegationAnswers` | contracts/validator-manager/interfaces/IPoSValidatorManager.sol:193-204 | A pending delegation becomes active at the block time if and only if a weight update between its own and the last one is acknowledged; once the validator has completed it is finished instead, with or without a proof |
| `StakingDelegationAnswers.EndDelegationAnswers` | contracts/validator-manager/interfaces/IPoSValidatorManager.sol:206-236 | A delegation ends if and only if it is active, the caller may end it, and, while the validator is active, duration, proof, churn and reward are in order, or, once the validator has completed, it can be finished; with everything that this changes |
| `StakingDelegationAnswers.AwardedOnEnd` | abi-bindings/go/validator-manager/ERC20TokenStakingManager/ERC20TokenStakingManager.go:107 | What ending a delegation awards is the calculator's answer for its own weight and its own time up to its end, with the validator's start and the uptime on record after the call, and nothing if it began too late |
| `StakingDelegationAnswers.CompleteEndAnswers` | contracts/validator-manager/interfaces/IPoSValidatorManager.sol:278-289 | The end of a delegation is completed if and only if at least its ending nonce is acknowledged, or the validator has completed, and it can be finished; the stake goes to its owner, the fee to the validator, the rest of the reward to the recipient |
| `StakingDelegationAnswers.ResendAnswers` | contracts/validator-manager/interfaces/IPoSValidatorManager.sol:269-276 | The validator's nonce and weight are told again if and only if the delegation waits for an acknowledgement |
| `StakingDelegationAnswers.ChooseDelegatorRecipientAnswers` | contracts/validator-manager/interfaces/IPoSValidatorManager.sol:306-311 | A recipient is chosen if and only if the caller owns the delegation and the recipient is not zero |
| `StakingChoices.MintedForTheChosen` | contracts/validator-manager/PoSValidatorManager.sol:200-215 | Over every run a call mints at most once: to the owner who claims, to the recipient last chosen for the validator or the delegation, or to the delegation's owner if none was chosen |
| `StakingChoices.OwnerChooses` | contracts/validator-manager/PoSValidatorManager.sol:284-299 | Who is paid a validator's rewards is chosen by its owner only, in registering it, in ending it or by changing the choice |
| `StakingChoices.DelegatorChooses` | abi-bindings/go/validator-manager/ERC20TokenStakingManager/ERC20TokenStakingManager.go:107 | Who is paid a delegation's reward is chosen by its owner, or by the validator's owner in ending it, and by nobody else |
| `StakingExamples.ValidatorOwnerChooses` | abi-bindings/go/validator-manager/ERC20TokenStakingManager/ERC20TokenStakingManager.go:107 | A concrete run in which the validator's owner ends a delegation that is not its own and names itself as the recipient of the reward |
| `StakingReverts.RevertsForReason` | abi-bindings/go/validator-manager/ERC20TokenStakingManager/ERC20TokenStakingManager.go:107 | Whatever transaction reverts, the reason it gives is true of the call and of the storage before it, and is one of its own reasons: lack of tokens, for one, is never a reason |
| `StakingProgress.RegistrationCompletesIff` | contracts/validator-manager/ValidatorManager.sol:331-355 | An acknowledged registration completes if and only if the acknowledgement is positive and the period is pending |
| `StakingProgress.EndCompletesIff` | contracts/validator-manager/PoSValidatorManager.sol:369-398 | The P-Chain's word that a validation is over closes the period and returns the stake if and only if the word is negative and the period is pending or being removed |
| `StakingProgress.FinishSucceedsIff` | abi-bindings/go/validator-manager/ERC20TokenStakingManager/ERC20TokenStakingManager.go:107 | The finishing step returns the stake if and only if a churn period has passed and the reward arithmetic does not overflow |
| `StakingRewards.LedgerMoves` | abi-bindings/go/validator-manager/ERC20TokenStakingManager/ERC20TokenStakingManager.go:107 | Every call awards nothing or one answer of the calculator; a delegation's reward appears only when that delegation is ended and goes only when the delegation is deleted |
| `StakingRewards.ExampleCalculatorNeverBlocks` | contracts/validator-manager/ExampleRewardCalculator.sol:29-47 | With the example calculator, in every reachable state the fee computation stays within 256 bits, and while all that was awarded does so (as it must for the first 315360000000 transactions) a stake is returned if and only if a churn period has passed |
| `StakingRewards.BlockedForever` | abi-bindings/go/validator-manager/ERC20TokenStakingManager/ERC20TokenStakingManager.go:107 | A delegation that ended with a reward whose fee overflows stays so over every continuation of the run, and its stake is never returned |
| `StakingExamples.StakeLockedForever` | abi-bindings/go/validator-manager/ERC20TokenStakingManager/ERC20TokenStakingManager.go:107 | A concrete run from deployment that reaches this, with a calculator that answers the largest number: after every continuation, completing the end of the delegation reverts, at any time and with any proof |
| `ChurnTracker.TrackerMeaning` | contracts/validator-manager/ValidatorManager.sol:548-593 | After any accepted run of changes the tracker holds what an account kept from the times alone says: window start, weight at its opening, sum of absolute changes since, net total |
| `ChurnTracker.AcceptedIff` | contracts/validator-manager/ValidatorManager.sol:548-593 | A change is accepted if and only if the absolute changes of its window, with it, stay within the percentage of the weight at the opening of the window, the total stays large enough to be changed by one, and every number within 64 bits |
| `ChurnTracker.RefusedFor` | contracts/validator-manager/ValidatorManager.sol:548-593 | A change is refused for the reason given: too much in its window, too little left in all, or a number that does not fit |
| `ChurnTracker.WindowBound` | contracts/validator-manager/ValidatorManager.sol:544-546 | Within a window the absolute changes stay within the percentage of the weight at its opening, the total drifts no further than that, and it stays large enough to be changed by one |
| `ChurnTracker.TwoWindows` | contracts/validator-manager/ValidatorManager.sol:564-574 | A stretch shorter than a period that reaches into a window meets only one window before it |
| `ChurnTracker.SlidingBound` | contracts/validator-manager/ValidatorManager.sol:548-593 | Any stretch of changes shorter than one period, wherever it lies, stays within the allowances of the two windows of its first and last change |
| `StakingManager.Manager.Transact` | abi-bindings/go/validator-manager/ERC20TokenStakingManager/ERC20TokenStakingManager.go:107 | One transaction on the contract object follows the transition system, records itself, undoes everything when it reverts, and after legal transactions leaves all of the promises of `EveryRun` |
| `StakingManager.Manager.CheckAndUpdateChurnTracker` | contracts/validator-manager/ValidatorManager.sol:548-593 | Step by step as the contract does it, with every panic and both reverts in order; agrees with the specification in state and error |
| `StakingManager.Manager.InitializeValidatorSet` | contracts/validator-manager/ValidatorManager.sol:147-212 | Checks, loop, total, and the comparison of the packed data with the bytes that the P-Chain vouches for, in source order |
| `StakingManager.Manager.StoreInitialValidators` | contracts/validator-manager/ValidatorManager.sol:167-190 | The loop over the initial validators stores exactly what the specification stores for that many, with the same error at the same place |
| `StakingManager.ValidatePChainOwner` | contracts/validator-manager/ValidatorManager.sol:214-232 | Accepts an owner if and only if a zero threshold has no addresses, the threshold is at most their number and they are sorted (stated for all pairs) |
| `StakingManager.Manager.InitializeValidatorRegistration` | contracts/validator-manager/PoSValidatorManager.sol:442-481 | Bounds, measured deposit, weight, registration, terms and recipient |
| `StakingManager.Manager.CompleteValidatorRegistration` | contracts/validator-manager/ValidatorManager.sol:331-355 | Pending to active, message deleted, start recorded |
| `StakingManager.Manager.SubmitUptimeProof` | contracts/validator-manager/PoSValidatorManager.sol:184-195 | Only for an active PoS validator |
| `StakingManager.Manager.InitializeEndValidation` | contracts/validator-manager/PoSValidatorManager.sol:312-364 | The end of a period, with the settlement for PoS validators only |
| `StakingManager.Manager.ResendEndValidatorMessage` | contracts/validator-manager/ValidatorManager.sol:419-433 | Sends the current nonce with weight zero while the period is being removed |
| `StakingManager.Manager.CompleteEndValidation` | contracts/validator-manager/PoSValidatorManager.sol:369-398 | Closing, rewards only if completed, and the stake back to its owner |
| `StakingManager.Manager.ClaimDelegationFees` | contracts/validator-manager/PoSValidatorManager.sol:200-215 | The owner of a completed validator takes the redeemable rewards |
| `StakingManager.Manager.InitializeDelegatorRegistration` | abi-bindings/go/validator-manager/ERC20TokenStakingManager/ERC20TokenStakingManager.go:107 | Measured deposit, limit by the multiplier, weight update, new delegation under the new nonce |
| `StakingManager.Manager.CompleteDelegatorRegistration` | contracts/validator-manager/interfaces/IPoSValidatorManager.sol:193-204 | Activates a delegation for a proof between its starting nonce and the last nonce sent, or finishes it if the validator has completed |
| `StakingManager.Manager.InitializeEndDelegation` | contracts/validator-manager/interfaces/IPoSValidatorManager.sol:206-236 | Who may end it and when; the weight update and the award while the validator is active, the award and the finish once it has completed |
| `StakingManager.Manager.CompleteEndDelegation` | contracts/validator-manager/interfaces/IPoSValidatorManager.sol:278-289 | Finishes a delegation for a proof of at least its ending nonce, or for none once the validator has completed |
| `StakingManager.Manager.ResendUpdateDelegation` | contracts/validator-manager/interfaces/IPoSValidatorManager.sol:269-276 | Sends the current nonce and weight for a pending or ending delegation |
| `StakingManager.Manager.ChangeValidatorRewardRecipient` | contracts/validator-manager/PoSValidatorManager.sol:284-299 | Only the owner, never to the zero address |
| `StakingManager.Manager.ChangeDelegatorRewardRecipient` | contracts/validator-manager/interfaces/IPoSValidatorManager.sol:306-311 | Only the delegation's owner, never to the zero address |
| `BigEndian.ReadInteger` | contracts/validator-manager/ValidatorMessages.sol:93-115 | The loop that shifts each byte into place and combines with a bitwise or reads the big-endian value; an index outside of the input reverts |
| `BigEndian.OrIsPlus` | contracts/validator-manager/ValidatorMessages.sol:93-115 | A bitwise or of a multiple of 2^k and a number below 2^k is their sum |
| `BigEndian.FromTo` | contracts/validator-manager/ValidatorMessages.sol:155-183 | A number is read back from its bytes if and only if it fits in them |
| `BigEndian.ToFrom` | contracts/validator-manager/ValidatorMessages.sol:84-118 | Any bytes are written back unchanged |
| `RegisterMessage.RegisterCodec` | contracts/validator-manager/ValidatorMessages.sol:224-438 | Unpacking gives a period for a byte string if and only if packing that period gives that byte string and the period is within the types and 2^32 bytes: the codec is a bijection, for node IDs and owner lists of any length |
| `RegisterMessage.RegisterRoundTrip` | contracts/validator-manager/ValidatorMessages.sol:224-438 | What is packed is unpacked again if and only if the message is shorter than 2^32 bytes; its length is 122 + node ID + 20 per address |
| `RegisterMessage.RegisterInjective` | contracts/validator-manager/ValidatorMessages.sol:224-259 | Different periods have different messages, so a validation ID stands for one period |
| `RegisterMessage.NoConfusion` | contracts/validator-manager/ValidatorMessages.sol:69-675 | No byte string is accepted as messages of two kinds |
| `ValidatorMessages.ConversionCodec` | contracts/validator-manager/ValidatorMessages.sol:69-118 | Conversion messages: unpacking accepts exactly what packing makes |
| `ValidatorMessages.RegistrationCodec` | contracts/validator-manager/ValidatorMessages.sol:459-512 | Registration messages: what is packed is unpacked; packing gives back the bytes that were unpacked if and only if their last byte is at most 1 |
| `ValidatorMessages.WeightCodec` | contracts/validator-manager/ValidatorMessages.sol:536-599 | Weight messages: unpacking accepts exactly what packing makes |
| `ValidatorMessages.UptimeCodec` | contracts/validator-manager/ValidatorMessages.sol:620-675 | Uptime messages: unpacking accepts exactly what packing makes |
| `MessageLayout.RegisterLayout` | contracts/validator-manager/ValidatorMessages.sol:224-438 | A byte string is unpacked to a period if and only if codec version, type, subnet, node ID with its length, key, expiry, both owners and weight are at the places of the message format |
| `MessageLayout.ConversionLayout` | contracts/validator-manager/ValidatorMessages.sol:84-118 | A conversion message is unpacked to an ID if and only if version, type and ID are at their places and nothing follows |
| `MessageLayout.RegistrationLayout` | contracts/validator-manager/ValidatorMessages.sol:476-512 | The same for registration messages, with the flag as the last byte |
| `MessageLayout.WeightLayout` | contracts/validator-manager/ValidatorMessages.sol:553-599 | The same for weight messages, with nonce and weight |
| `MessageLayout.UptimeLayout` | contracts/validator-manager/ValidatorMessages.sol:634-675 | The same for uptime messages |
| `MessageLayout.ConversionHeadLayout` | contracts/validator-manager/ValidatorMessages.sol:155-183 | Where subnet, chain, manager and number of validators are in packed conversion data |
| `MessageLayout.InitialValidatorLayout` | contracts/validator-manager/ValidatorMessages.sol:155-183 | Where node ID, key and weight of an initial validator are in its part of the data |
| `MessageLayout.ValidatorsInOrder` | contracts/validator-manager/ValidatorMessages.sol:155-183 | The parts of the validators follow one another in the order of the list |
| `ValidatorMessagesLibrary.PackRegisterL1ValidatorMessage` | contracts/validator-manager/ValidatorMessages.sol:224-259 | The loops over both owner lists build exactly the packed message |
| `ValidatorMessagesLibrary.UnpackRegisterL1ValidatorMessage` | contracts/validator-manager/ValidatorMessages.sol:268-438 | The running index, the loops and the checked 32-bit arithmetic accept and reject exactly what the specification does |
| `ValidatorMessagesLibrary.UnpackOwner` | contracts/validator-manager/ValidatorMessages.sol:347-420 | The address loop of one owner list |
| `ValidatorMessagesLibrary.PackConversion` | contracts/validator-manager/ValidatorMessages.sol:155-183 | The loop over the initial validators builds exactly the packed data |
| `ValidatorMessagesLibrary.UnpackSubnetToL1ConversionMessage` | contracts/validator-manager/ValidatorMessages.sol:84-118 | Length, header and ID in the order of the contract, with its errors |
| `ValidatorMessagesLibrary.UnpackL1ValidatorRegistrationMessage` | contracts/validator-manager/ValidatorMessages.sol:476-512 | The same for registration messages |
| `ValidatorMessagesLibrary.UnpackL1ValidatorWeightMessage` | contracts/validator-manager/ValidatorMessages.sol:553-599 | The same for weight messages |
| `ValidatorMessagesLibrary.UnpackValidationUptimeMessage` | contracts/validator-manager/ValidatorMessages.sol:634-675 | The same for uptime messages |
| `ConversionMessage.ConversionInjective` | contracts/validator-manager/ValidatorMessages.sol:155-183 | Conversion data with the same packed bytes agree in everything but their validators, have as many validators, and are the same if and only if their keys have the same lengths |
| `ConversionMessage.KeyLengthsMatter` | contracts/validator-manager/ValidatorMessages.sol:150-183 | For any node IDs, keys and weights: moving the end of one key to the next validator leaves the packed bytes as they are |
| `RewardCalculator.RewardMeaning` | contracts/validator-manager/ExampleRewardCalculator.sol:29-47 | The reward is stake times rate times duration rounded down once by a year of bips, and nothing below the uptime threshold |
| `RewardCalculator.AnswersIff` | contracts/validator-manager/ExampleRewardCalculator.sol:29-47 | The calculation succeeds if and only if no intermediate result overflows and no duration is negative |
| `RewardCalculator.MonotoneInStake` | contracts/validator-manager/ExampleRewardCalculator.sol:29-47 | More stake never earns less |
| `RewardCalculator.SplittingLosesAtMostOne` | contracts/validator-manager/ExampleRewardCalculator.sol:29-47 | Splitting a stake in two never gains and loses at most one unit |
| `RewardCalculator.ValidatorAward` | contracts/validator-manager/PoSValidatorManager.sol:348-360 | With this calculator a validator is awarded that amount on its staked tokens over the time it validated |
| `StakingRewards.DelegationAward` | abi-bindings/go/validator-manager/ERC20TokenStakingManager/ERC20TokenStakingManager.go:107 | With this calculator, ending a delegation awards that amount on its own tokens over its own time, and nothing if its validator's uptime fell short |
| `TeleporterTheorems.EveryRun` | abi-bindings/go/teleporter/TeleporterMessenger/TeleporterMessenger.go:69 | For every run of any number of chains and any order of delivery, all of the promises below hold: `AtMostOnce`, `ExecutedOrStored`, `Authentic`, `CreditsTrue`, `ReceiptsAgree`, `QueuesInOrder`, `FeesConserved`, `CreditedOnce`, `RewardsPayable`, `RewardsEarned`, `IDsNeverReused` |
| `TeleporterNetwork.RunKeeps` | abi-bindings/go/teleporter/TeleporterMessenger/TeleporterMessenger.go:69 | The invariant of all chains and between them holds after every legal run |
| `TeleporterNetwork.StepKeeps` | abi-bindings/go/teleporter/TeleporterMessenger/TeleporterMessenger.go:69 | Every call on any chain keeps it, calls made by an executing message included |
| `TeleporterCalls.DoKeeps` | abi-bindings/go/teleporter/TeleporterMessenger/TeleporterMessenger.go:69 | Every successful call keeps the invariant of its chain, ends with both guards released, and only adds events |
| `TeleporterCalls.PerformKeeps` | contracts/teleporter/TeleporterMessenger.sol:788-813 | Whatever an executing target calls, the invariant holds and the receiving side is untouched |
| `TeleporterTheorems.AtMostOnceHolds` | contracts/teleporter/TeleporterMessenger.sol:83-89 | Each message is received at most once and executed at most once, and a stored failed message has been received and not executed |
| `TeleporterTheorems.ExecutedOrStoredHolds` | contracts/teleporter/TeleporterMessenger.sol:743-786 | A received message with a payload has been executed, or else is stored with its original content; one without a payload is neither |
| `TeleporterTheorems.AuthenticHolds` | contracts/teleporter/TeleporterMessenger.sol:248-329 | What is received or stored for a retry was sent under its ID with the same content by the source it names, and what is executed was received and sent once |
| `TeleporterTheorems.CreditsTrueHolds` | contracts/teleporter/README.md:60-68 | A fee is credited to a relayer only if the destination received that message with that reward address |
| `TeleporterTheorems.ReceiptsAgreeHolds` | contracts/teleporter/TeleporterMessenger.sol:398-464 | Queued receipts, receipts sent from the queue and receipts sent by name agree on the relayer of a message |
| `TeleporterTheorems.QueuesInOrderHolds` | contracts/teleporter/ReceiptQueue.sol:37-80 | All receipts ever queued for a chain are the batches sent to it, in order, followed by the current queue; a batch has at most five |
| `TeleporterTheorems.FeesConservedHolds` | contracts/teleporter/README.md:56 | Per token, the balance is what was donated plus the fees of outstanding messages plus the rewards not redeemed |
| `TeleporterTheorems.CreditedOnceHolds` | contracts/teleporter/TeleporterMessenger.sol:689-728 | A fee is credited at most once however often its receipt arrives, and is outstanding until then |
| `TeleporterTheorems.RewardsPayableHolds` | contracts/teleporter/TeleporterMessenger.sol:473-487 | A redemption succeeds if and only if there is a reward to redeem |
| `TeleporterTheorems.RewardsEarnedHolds` | contracts/teleporter/TeleporterMessenger.sol:473-487 | Per relayer and token, what can be redeemed and what was redeemed add up to the fees credited |
| `TeleporterTheorems.IDsNeverReusedHolds` | contracts/teleporter/TeleporterMessenger.sol:616-677 | Neither kind of send ever takes an ID that was used before, so it overwrites nothing |
| `TeleporterAnswers.SendAnswers` | contracts/teleporter/TeleporterMessenger.sol:616-677 | A send succeeds if and only if the messenger can send and the fee is paid; one message is sent under the next nonce, from the caller to the target, with the gas limit, relayers and payload asked for, the oldest five receipts or all, and the fee that arrived |
| `TeleporterAnswers.SendReceiptsAnswers` | contracts/teleporter/TeleporterMessenger.sol:415-464 | Receipts are sent by name if and only if every message named was received from that chain and the fee is paid; the message has no target and no payload, and receipts for exactly those messages in that order |
| `TeleporterAnswers.RetrySendAnswers` | contracts/teleporter/TeleporterMessenger.sol:145-179 | A message is sent again if and only if it is outstanding, word for word, and nothing else changes |
| `TeleporterAnswers.AddFeeAnswers` | contracts/teleporter/TeleporterMessenger.sol:193-232 | A fee is added if and only if the message is outstanding, the token is its own, tokens arrive and the sum fits; the fee grows by what arrived and nothing else changes |
| `TeleporterAnswers.RedeemAnswers` | contracts/teleporter/TeleporterMessenger.sol:473-487 | A redemption succeeds if and only if the caller has a reward in that token; all of it is paid and nothing else changes |
| `TeleporterAnswers.MarkAnswers` | contracts/teleporter/TeleporterMessenger.sol:689-728 | Marking receipts never fails; it credits, in order, each receipt whose message is outstanding, once, and the messages named are outstanding no longer |
| `TeleporterDelivery.ReceiveSucceedsIff` | contracts/teleporter/TeleporterMessenger.sol:248-329 | A delivery succeeds if and only if no other one is going on, the precompile vouches for the message, it is for this chain, new and with a nonce, the caller may deliver it, and the gas asked for is left if there is a payload |
| `TeleporterDelivery.AcceptRecords` | contracts/teleporter/TeleporterMessenger.sol:267-323 | A delivery records the message, its relayer, its receipts and a receipt of its own, and nothing else |
| `TeleporterDelivery.ReceiveAnswers` | contracts/teleporter/TeleporterMessenger.sol:743-786 | The message counts as executed if and only if its target succeeds, after the events of the target's calls; otherwise it is stored, an event says so, and everything else is as if there had been no target; without a payload neither happens |
| `TeleporterDelivery.RetryAnswers` | contracts/teleporter/TeleporterMessenger.sol:346-396 | A retry succeeds if and only if no delivery is going on, this very message is stored and its target succeeds; it is then stored no longer and counts as executed |
| `TeleporterDelivery.FailedRetryChangesNothing` | contracts/teleporter/TeleporterMessenger.sol:346-396 | A retry whose target does not succeed changes nothing |
| `TeleporterReverts.RevertsForReason` | contracts/teleporter/TeleporterMessenger.sol:122-487 | Whatever call reverts, the reason it gives is true of the call and of the storage before it, and is one of its own reasons; a delivery never fails over its receipts, nor a redemption for lack of tokens |
| `ReceiptQueue.EnqueueAppends` | contracts/teleporter/ReceiptQueue.sol:37-42 | Enqueueing appends to the sequence that the counters and the mapping stand for |
| `ReceiptQueue.DequeueTakesOldest` | contracts/teleporter/ReceiptQueue.sol:50-60 | Dequeueing succeeds if and only if the sequence is not empty, and takes its first element |
| `ReceiptQueue.BatchIsOldest` | contracts/teleporter/ReceiptQueue.sol:65-80 | A batch is the oldest five receipts, or all if there are fewer, and the queue keeps the rest |
| `ReceiptQueue.IndexAgrees` | contracts/teleporter/ReceiptQueue.sol:92-98 | Indexing agrees with the sequence, out of bounds included |
| `TeleporterMessenger.Messenger.Transact` | abi-bindings/go/teleporter/TeleporterMessenger/TeleporterMessenger.go:69 | A call from outside follows the specification, undoes everything when it reverts, and leaves the invariant and both guards as they should be |
| `TeleporterMessenger.Messenger.SendCrossChainMessage` | contracts/teleporter/TeleporterMessenger.sol:122-134 | Guard, batch of receipts, send |
| `TeleporterMessenger.Messenger.SendTeleporterMessage` | contracts/teleporter/TeleporterMessenger.sol:616-677 | Nonce, ID, message, measured fee, store, event |
| `TeleporterMessenger.Messenger.RetrySendCrossChainMessage` | contracts/teleporter/TeleporterMessenger.sol:145-179 | Only the message that was sent |
| `TeleporterMessenger.Messenger.AddFeeAmount` | contracts/teleporter/TeleporterMessenger.sol:193-232 | Both guards, same token, outstanding message |
| `TeleporterMessenger.Messenger.AcceptMessage` | contracts/teleporter/TeleporterMessenger.sol:267-323 | Everything that receiving does before execution, in order |
| `TeleporterMessenger.Messenger.MarkOneReceipt` | contracts/teleporter/TeleporterMessenger.sol:697-728 | An unknown ID is ignored, a known one is deleted and its fee credited |
| `TeleporterMessenger.Messenger.MarkAllReceipts` | contracts/teleporter/TeleporterMessenger.sol:304-307 | The loop over the receipts of a message |
| `TeleporterMessenger.Messenger.HandleInitialMessageExecution` | contracts/teleporter/TeleporterMessenger.sol:743-786 | Too little gas reverts, no code or a failed call stores the message, a successful call emits the event |
| `TeleporterMessenger.Messenger.ReceiveCrossChainMessage` | contracts/teleporter/TeleporterMessenger.sol:248-329 | Guard, acceptance, execution of a payload |
| `TeleporterMessenger.Messenger.RetryMessageExecution` | contracts/teleporter/TeleporterMessenger.sol:346-396 | The stored message only; deleted before the call; a failed call reverts all |
| `TeleporterMessenger.Messenger.SendReceiptsFor` | contracts/teleporter/TeleporterMessenger.sol:415-464 | Receipts by name, with both checks in the loop |
| `TeleporterMessenger.Messenger.RedeemRelayerRewards` | contracts/teleporter/TeleporterMessenger.sol:473-487 | Deleted before it is paid |
| `TeleporterMessenger.Messenger.Perform` | contracts/teleporter/TeleporterMessenger.sol:788-813 | The calls of an executing target, re-entering the messenger; a reverting one is undone |
| `TeleporterMessenger.Messenger.GetOutstandingReceiptsToSend` | contracts/teleporter/ReceiptQueue.sol:65-80 | The dequeue loop |
| `TeleporterMessenger.Messenger.GetReceiptAtIndex` | contracts/teleporter/TeleporterMessenger.sol:550-555 | The receipt at that place of the queue |
| `TeleporterMessenger.CheckIsAllowedRelayer` | contracts/teleporter/TeleporterMessenger.sol:590-607 | True if and only if the list is empty or the deliverer is in it |
| `AbiCodec.DecodeEncode` | abi-bindings/go/teleporter/TeleporterMessenger/packing.go:23-63 | Decoding the encoding gives back the message, for any number of relayers and receipts, any payload and any bytes that follow |
| `AbiCodec.EncodeInjective` | contracts/teleporter/TeleporterMessenger.sol:159-168 | Different messages have different encodings, so a hash stands for one message and a retry accepts only the original |
| `AbiCodec.PreimageInjective` | utils/teleporter-utils/teleporter_utils.go:27-51 | The 128 bytes hashed into a message ID are equal if and only if messenger, chains and nonce are |
| `AbiLayout.EncodeLayout` | abi-bindings/go/teleporter/TeleporterMessenger/packing.go:23-63 | Where each field is in an encoded message, word by word: head, offsets, relayers, receipts with the nonce first, payload, and zeros up to a whole word |
| `AbiLayout.PreimageLayout` | utils/teleporter-utils/teleporter_utils.go:27-51 | The hashed bytes are messenger, source, destination and nonce, one word each |
| `ValidatorSetSig.EveryRun` | contracts/governance/ValidatorSetSig.sol:94-128 | Over every run, with failing and re-entering targets, the nonces delivered to each target are 0, 1, 2, ... in order up to its next nonce, and every delivery is meant for this chain and contract |
| `ValidatorSetSig.DeliveredIff` | contracts/governance/ValidatorSetSig.sol:94-142 | A call is delivered if and only if it is vouched for by the validator set, meant for this chain and contract, carries the number of earlier deliveries as its nonce, its value is there and the target succeeds |
| `ValidatorSetSig.DeliveryEffect` | contracts/governance/ValidatorSetSig.sol:94-128 | A delivery records the message, counts up the nonce of its target alone, and the balance gains what was sent and loses the value, unless the contract called itself |
| `ValidatorSetSig.RevertsForReason` | contracts/governance/ValidatorSetSig.sol:94-142 | Only a delivery reverts, and the reason it gives is true |
| `ValidatorSetSig.GuardedScript` | contracts/governance/ValidatorSetSig.sol:94 | While a target runs, what it calls adds to the balance what it sends outside of deliveries, and changes nothing else |
| `ValidatorSetSig.Contract.Transact` | contracts/governance/ValidatorSetSig.sol:94-128 | One call follows the specification, undoes everything when it reverts, and keeps the order of deliveries |
| `ValidatorSetSig.Contract.CheckMessage` | contracts/governance/ValidatorSetSig.sol:130-142 | Accepts a message if and only if it is meant for this chain and contract and is next for its target |

## Left out

- The bindings' call, transact, filter, watch and iterator wrappers, the command line tools and the deployment utilities: plumbing.
- BLS and Warp signature checks, Keccak and SHA-256: a signed message arrives as a value, and one that is missing, malformed, or from the wrong chain or sender arrives as `None`.
- InitialSetIsVouched: numbers are in the range of their types and node IDs shorter than 2^32 bytes; a transaction cannot carry longer ones.
- ExampleCalculatorNeverBlocks: once more than 256 bits hold has been awarded, only the fee computation is shown not to overflow, not the sum of what a validator can redeem, which has no bound of its own.
- RegisterPeriod: node IDs and owner lists so long that the registration message reaches 2^32 bytes are registered under their data here; no transaction can carry them.
- ReceiveCrossChainMessage: the gas left is a parameter; what each step of a call costs is not counted.
- RedeemRelayerRewards: the messenger is not its own relayer; a transfer to itself would have to be followed by a `Donate` of the same amount.
- Perform: a target's calls are a script fixed beforehand; since it may be any script, this leaves out no behaviour.
- Tokens that call back during a transfer.
- DecodeEncode: only encodings are decoded; what the decoder makes of byte strings that are no encodings is not stated.
- The call that sends a registration message again: it sends the stored message and changes nothing.
- Getters, events of the staking manager other than weight messages, and upgradeable storage locations: no protocol content.
- The native-token manager, the proof-of-authority manager, the registry, token transfers between chains (`contracts/ictt`) and `contracts/coqnet`: other contracts.
- Packing of registry and validator-set messages: smaller schemas of the same encoding.
