# Axionvera network: verified model

A Dafny model of four parts of the Axionvera network and proofs of what they keep over every run:

- **The reward vault** (`contracts/vault-contract`): an index-based reward ledger with lazy accrual, time locks,
  vesting, a utilization multiplier, one main ledger and any number of asset ledgers that share one pool of reward
  tokens, and entry points that run as transactions with a reentrancy guard and token transfers.
- **Parameter upgrades and governance** (`network-node/src/chain_params.rs`, `governance.rs`): a registry that keeps
  merged patches per activation height next to a submission log, and proposals that are voted on, tallied and executed.
- **The Kademlia routing table** (`network-node/src/p2p.rs`): XOR distance, 256 buckets of 20 peers, closest-node query.
- **The Horizon client** (`network-node/src/horizon_client.rs`): providers with circuit breakers and a retry loop.

Each part has a value level (datatypes and functions, with the theorems) and, where the code updates state in place, an
object level: a class whose methods change fields, maps or arrays step by step, in loops where the code loops, and
whose contracts tie every new state to the value level.

| files | contents |
|---|---|
| `machine_ints`, `time_locks`, `utilization` | integer widths, sums over maps, lock lists, the multiplier curve |
| `reward_pool`, `solvency`, `ledger_theorems` | one ledger: operations, potential and dust, consequences for users |
| `vault_world`, `vault_invariant`, `vault_theorems`, `vault_runs` | entry points as transactions with callback trees; theorems over runs |
| `vault_effects`, `vault_refusals`, `vault_journal` | what every call comes to, its errors, and the books read off a run |
| `vault_calls`, `funding_exactness`, `exit_exactness` | single calls in closed form, and the runs that show which conditions are exact |
| `vault_storage`, `vault_contract` | keyed storage and the contract object |
| `chain_params`, `registry_theorems`, `registry_object` | parameter registry |
| `governance`, `governance_runs`, `governance_votes`, `governance_object` | proposals, votes and ticks |
| `xor_metric`, `kademlia`, `kademlia_object` | routing table |
| `failover`, `failover_theorems`, `failover_runs`, `failover_history`, `horizon_object` | Horizon client |

## Main results

1. **Solvency with a two-sided rounding bound.** In every reachable world and every ledger, what users are owed (scaled)
   plus what they were paid never exceeds what was credited, and falls short of it by at most (total deposits − 1) per
   distribution plus (SCALE − 1) per accrual that divides. The same holds of the claims, distributions and accruals read
   off the run itself.
2. **Holdings cover liabilities, claims are paid and withdrawals find their tokens**, each of them in every reachable
   world of a configuration, if and only if no total of deposits meets a multiplier above 1.0x. For every other
   configuration, vesting period included, a run is built after which tokens are missing.
3. **Withdrawals**: in every reachable world they succeed exactly when the accrual fits and the amount is covered by the
   liquid balance and the first five expired locks; the accrual always fits while the credited rewards do.
4. **Lazy crediting refines eager crediting** for every interleaving, exactly within n − 1 units.
5. **Time locks** stay until they expire over every run; batched unlocking is path independent and clears the list in
   exactly the expected number of calls.
6. **Reentrancy**: for every tree of callbacks the outer call ends as if there had been none.
7. **Registry**: the index equals the replayed log; the past is frozen; a single record governs each field.
8. **Governance**: over every run a vote counts the way it was last cast and under a DAO a proposal passes exactly by
   the members' last votes; over every run from an empty log, with any roles, effective parameters are the replayed log;
   over every run with the tip at or above a floor the past below it is frozen; a tick is order independent if and only
   if no two executed proposals contradict each other; proposals are decided once, by their tally, and the history
   counts each executed proposal once; a proposal that passes is executed under exact conditions on who voted, in both
   modes.
9. **Kademlia**: the table over every run of updates, what a query sees of them, and its unique answer.
10. **Horizon**: the request is modelled exactly for any list of providers. Over every run, failure counters stay in
    order (so that they never pass max(threshold, 1) or overflow), and no request asks a provider twice, each if and
    only if no URL is configured twice. With distinct URLs a request goes down a fixed visiting order, and the state of
    every provider is a function of the results and health checks it has been through.
11. **Every vault call, exactly**, in every reachable world and with any callbacks: when it succeeds, with which error a
    guarded one fails, who pays whom, and what becomes of every ledger. Over every run nobody's account or tokens are
    touched without their signature, a lock holds until its time has come, and the admin changes only by handover.

## Where the code and its documentation disagree

The model follows the code.

- The index scale is 10^9 (`contracts/vault-contract/src/storage.rs:5`); the documents say 1e18.
- The contract's documents promise, as an exit liquidity guarantee, that users can always withdraw. A withdrawal first
  accrues rewards and fails when that overflows: `ExitExactness.BlockedExitIsReachable` gives a run and
  `VaultTheorems.ExitGuaranteeIffFits` the exact condition.
- `contracts/vault-contract/src/test.rs:141-146` expects rewards to vest from the distribution on. The clock starts when
  rewards are accrued (`VestingClockRestartsOnAccrual`), and a new accrual takes vested rewards back into vesting
  (`VestedStaysClaimableIffNothingAccrues`).
- Multipliers have no upper bound, but only the plain amount is transferred in: above 1.0x rewards are promised that the
  vault does not hold. `FundingExactness.FundedIffNeverAboveOne` is the exact condition on target and curve.
- The utilization is cast to u32, which is harmless exactly below 2^32 basis points
  (`TruncationHarmlessIffUtilizationFits`).
- `docs/horizon-fallback.md` promises automatic fallback and recovery. A failure that does not open the circuit ends the
  request (`FallbackIffPathCoversReady`, `FallbackIffAllOnLastStrike`), and an open circuit never closes
  (`OpenStaysOpen`): nothing enters `HalfOpen` or calls `should_attempt_reset`.
- Nothing refuses a provider list that repeats a URL, but results are booked on the first provider with the URL. From
  every such list a run is built in which a counter goes one past max(threshold, 1), or wraps to zero at 255
  (`RunsOver`), and one in which a single request asks a provider twice (`AskedTwice`).
- The end of voting is an unchecked u64 sum; when it wraps, the tick at the proposal's own height decides it
  (`DecidedAtOnceIff`).
- `network-node/src/chain_params.rs:3-5` wants every node to switch at the same height. That needs a tip that does not
  fall, and nothing enforces it; the exact condition on the new tip is `FrozenIffTipStaysHigh`.
- A proposal that passes may still be refused, and is then never tried again. With admin keys any vote on it, an
  approving one included, makes the registry refuse it, and so does a proposer who is not a key
  (`ExecutedIffKeyAndNobodyVoted`, with a run from genesis in `OwnApprovalBlocks`). Under a DAO a vote from outside the
  membership does (`ExecutedIffOnlyMembersVoted`).
- Genesis gives a DAO no role and only administrators grant roles, so from a DAO genesis nothing can ever be proposed
  or upgraded (`DaoGenesisIsInert`). The DAO results are therefore stated for any assignment of roles.
- A full bucket ignores updates even of peers it holds (`LatestReportKeptIff`, `FullBucketIsFrozen`).

## Conventions

- Arithmetic is on unbounded integers with the code's widths written out: checked operations return an error, unchecked
  ones wrap (release builds have no overflow checks), casts truncate.
- Caller authorisation, the clock, random ids, the answers of Horizon providers and of health checks are parameters.
- A contract call that fails leaves storage and token balances as they were. Tokens transfer exact amounts, and only the
  vault spends the vault's tokens.
- `Lock`, `MultiplierPoint` and two storage keys are used but not declared by the contract; their fields are taken from
  their uses. A peer id is 32 bytes, and the `f32` logarithm of `bucket_index` is the integer one.
- Map iteration order is arbitrary where the code iterates over a hash map.

## Model

| member | source | states |
|---|---|---|
| `TimeLocks.CheckedSumIsAmount` | contracts/vault-contract/src/storage.rs:619-634 | the running checked sum of the unlock loop fails exactly when the true sum of the positive amounts leaves i128 |
| `TimeLocks.SplitConserves` | contracts/vault-contract/src/storage.rs:613-646 | a batch splits the lock list: taken and kept together are the old list as a multiset and as an amount, and everything taken has expired |
| `TimeLocks.BatchIsPrefix` | contracts/vault-contract/src/storage.rs:613-646 | a batch is a walk along the list that takes all expired locks up to some position and ends at the limit or at the end of the list |
| `TimeLocks.UnexpiredSurvives` | contracts/vault-contract/src/storage.rs:613-646 | a lock that has not expired is kept by every batch, as often as it was listed |
| `TimeLocks.BatchesCompose` | contracts/vault-contract/src/storage.rs:613-646 | limit a then limit b equals one batch of limit a + b, in what is taken and in what is kept, order included |
| `TimeLocks.RepeatedBatches` | contracts/vault-contract/src/storage.rs:613-646 | n calls with one limit are one batch of n times the limit |
| `TimeLocks.ClearedExactlyWhenEnoughCalls` | contracts/vault-contract/src/storage.rs:613-646 | repeated calls leave exactly the unexpired locks, in order, if and only if calls times limit reaches the number of expired locks |
| `TimeLocks.LockedAmountPersists` | contracts/vault-contract/src/storage.rs:444-453 | if every unexpired lock is still listed, the locked amount is at most the amount now listed |
| `TimeLocks.LockedNowPersists` | contracts/vault-contract/src/storage.rs:444-453 | if no unexpired lock disappears the amount under lock does not fall |
| `TimeLocks.LockedWithNew` | contracts/vault-contract/src/storage.rs:444-453 | a new lock counts as locked exactly until its time has come |
| `TimeLocks.TakenIsNotLocked` | contracts/vault-contract/src/storage.rs:613-646 | what a batch makes liquid and what is still under lock never overlap |
| `Utilization.CalculateUtilizationMultiplier` | contracts/vault-contract/src/storage.rs:805-833 | the search loop returns the multiplier of the first point that is not below total / target in basis points, or of the last point, and fails exactly as the checked arithmetic does; 1.0x without a target or a curve |
| `Utilization.MultiplierMeaning` | contracts/vault-contract/src/storage.rs:805-833 | from total, target and curve alone: computed if and only if total * 10000 fits in i128, and below 2^32 basis points the first point with total * 10000 < (q + 1) * target applies, or the last point; on a sorted curve it is the lowest such point |
| `Utilization.NoCurveNoMultiplier` | contracts/vault-contract/src/storage.rs:805-814 | without a target or a curve a distribution credits exactly what is paid in |
| `Utilization.ValidateUtilizationMultipliers` | contracts/vault-contract/src/lib.rs:449-466 | the pass with a running last value accepts exactly the curves in ascending order |
| `Utilization.SelectIsFirstReached` | contracts/vault-contract/src/storage.rs:822-832 | on a sorted curve the selected point is the lowest that reaches the utilization, and the last one if none does |
| `Utilization.TruncationHarmlessIffUtilizationFits` | contracts/vault-contract/src/storage.rs:815-832 | the cast to u32 never changes the selected point, for any curve, if and only if the utilization is below 2^32 basis points |
| `Utilization.EffectiveAmountMeaning` | contracts/vault-contract/src/storage.rs:661-666 | for an accepted amount the effective amount is the plain quotient, fails exactly when the u128 product overflows, and exceeds the amount exactly when the multiplier is above 1.0x |
| `RewardPool.PositionReadsBalance` | contracts/vault-contract/src/storage.rs:341-384 | in a well-formed ledger the unchecked lock sum never wraps and every read of a position succeeds with liquid plus locks |
| `RewardPool.SettleMeaning` | contracts/vault-contract/src/storage.rs:797-803 | accrual succeeds exactly when product and new rewards fit in i128, and then credits the floor of the share |
| `RewardPool.SettleOwed` | contracts/vault-contract/src/storage.rs:835-864 | accrual realises what is owed up to less than one unit of the scale and does not change the balance |
| `RewardPool.UnlockMeaning` | contracts/vault-contract/src/storage.rs:613-646 | one batch never fails on a well-formed account, moves exactly the taken locks to the liquid balance and keeps the total |
| `RewardPool.PutEffect` | contracts/vault-contract/src/storage.rs:386-413 | writing one account moves the sum of balances and the potential by that account's difference |
| `Solvency.DepositStep` | contracts/vault-contract/src/storage.rs:480-517 | a deposit keeps the ledger solvent, with rounding charged only if the accrual divides, and raises total deposits by the amount |
| `Solvency.DepositMeaning` | contracts/vault-contract/src/storage.rs:480-517 | closed form of a deposit with its only failures, an accrual or a total beyond i128 |
| `Solvency.WithdrawMeaning` | contracts/vault-contract/src/storage.rs:519-567 | closed form of a withdrawal: it fails on accrual overflow or when liquid plus the first five expired locks is too little, and for no other reason |
| `Solvency.WithdrawStep` | contracts/vault-contract/src/storage.rs:519-567 | a withdrawal keeps the ledger solvent and lowers total deposits by the amount, never below zero |
| `Solvency.LockStep` | contracts/vault-contract/src/storage.rs:573-611 | locking keeps the ledger solvent and total deposits as they are |
| `Solvency.LockMeaning` | contracts/vault-contract/src/storage.rs:573-611 | closed form: succeeds if and only if the accrual fits, the liquid balance reaches the amount and the end is a u64; then one lock of the amount is appended, and the amount under lock at every time before now + duration, and at no later one, is higher by it |
| `Solvency.UnlockStep` | contracts/vault-contract/src/storage.rs:613-646 | unlocking always succeeds on a solvent ledger and costs no rounding at all |
| `Solvency.UnlockExpiredMeaning` | contracts/vault-contract/src/storage.rs:613-646 | closed form: the first expired locks up to the limit become liquid and are returned, the others stay in order, and no other account or field changes |
| `Solvency.IncrementBounds` | contracts/vault-contract/src/storage.rs:775-795 | the increment times total deposits is at most the scaled amount and short of it by less than total deposits |
| `Solvency.DistributeMeaning` | contracts/vault-contract/src/storage.rs:652-681 | closed form: the index rises by the floor of the scaled amount over total deposits, with every error and its condition |
| `Solvency.DistributeStep` | contracts/vault-contract/src/storage.rs:652-681 | a distribution keeps the ledger solvent, with at most total deposits − 1 of dust |
| `Solvency.VestedMeaning` | contracts/vault-contract/src/storage.rs:687-717 | the vested part is the floor of the linear share, fails exactly when the u128 product overflows, and never exceeds what has accrued |
| `Solvency.ClaimStep` | contracts/vault-contract/src/storage.rs:719-739 | a claim pays between zero and what the ledger owes, and keeps the ledger solvent |
| `Solvency.ClaimMeaning` | contracts/vault-contract/src/storage.rs:719-739 | closed form: the vested part of the settled rewards is taken out and returned, nothing else changes |
| `LedgerTheorems.NoAccrualOverflow` | contracts/vault-contract/src/storage.rs:797-803 | if the scale times all credited rewards fits in i128, no user's accrual overflows |
| `LedgerTheorems.WithdrawSucceedsIffAvailable` | contracts/vault-contract/src/storage.rs:519-567 | within that budget a positive withdrawal succeeds if and only if liquid plus the first five expired locks covers it |
| `LedgerTheorems.ExitGuaranteeIffAccrualFits` | contracts/vault-contract/src/storage.rs:519-567 | every covered withdrawal succeeds if and only if the user's accrual fits |
| `LedgerTheorems.ExitCanBeBlocked` | contracts/vault-contract/src/storage.rs:519-567 | a concrete ledger history after which the only depositor cannot withdraw |
| `LedgerTheorems.UnlockingIsPathIndependent` | contracts/vault-contract/src/storage.rs:613-646 | on the ledger, two batches at one time give the accounts, totals and unlocked amount of one batch of the summed limit |
| `LedgerTheorems.PreviewMatchesClaim` | contracts/vault-contract/src/storage.rs:719-761 | the preview fails exactly when a claim at that time does, and otherwise names what it pays and what it leaves |
| `LedgerTheorems.ClaimSucceedsIff` | contracts/vault-contract/src/storage.rs:687-739 | a claim succeeds if and only if the accrual fits and the vesting product, if formed, fits in u128 |
| `LedgerTheorems.VestingClockRestartsOnAccrual` | contracts/vault-contract/src/storage.rs:835-864 | when there is something to accrue, nothing shows as vested, and a claim stores the present as the new start |
| `LedgerTheorems.VestedStaysClaimableIffNothingAccrues` | contracts/vault-contract/src/storage.rs:687-739 | rewards vested by the stored clock stay claimable if and only if the claim accrues nothing new or nothing had vested |
| `LedgerTheorems.VestingIsMonotone` | contracts/vault-contract/src/storage.rs:687-717 | with an untouched clock the vested part never falls and is complete after the period |
| `LedgerTheorems.ClaimMidVesting` | contracts/vault-contract/src/storage.rs:687-739 | with nothing to accrue, a claim during vesting pays the floor of the linear share of what is left, something exactly if that share reaches one unit, and does not touch the clock |
| `LedgerTheorems.SecondClaimPaysIff` | contracts/vault-contract/src/storage.rs:719-739 | two claims at one moment pay more than the linear share of the whole if and only if the share of the remainder reaches one unit |
| `LedgerTheorems.ClaimsRunOut` | contracts/vault-contract/src/storage.rs:719-739 | some number of claims at one moment leaves a remainder whose share is less than one unit, with the clock where it was |
| `LedgerTheorems.LazyRefinesEager` | contracts/vault-contract/src/storage.rs:797-803 | settling once after n distributions gives at least the sum of n separate credits and at most n − 1 more |
| `VaultInvariant.GuardedCallFails` | contracts/vault-contract/src/lib.rs:475-483 | while the guard is set every guarded entry point fails |
| `VaultInvariant.CallbacksUnderGuard` | contracts/vault-contract/src/storage.rs:314-330 | any tree of calls made under the guard changes at most administration, pause flag and new empty asset ledgers, and leaves the guard set |
| `VaultInvariant.BeginOk` | contracts/vault-contract/src/lib.rs:85-211 | every entry point, up to and including its transfer, keeps the invariant, with incoming funds not yet booked |
| `Utilization.NeverAboveOneIf` | contracts/vault-contract/src/storage.rs:805-833 | without a target, or without a point above 1.0x, no total meets a multiplier above 1.0x |
| `VaultInvariant.EffectiveFunded` | contracts/vault-contract/src/storage.rs:652-681 | the credited amount is never negative, and never above what was paid in if and only if the multiplier met at the present total is at most 1.0x |
| `VaultInvariant.TransactionOk` | contracts/vault-contract/src/lib.rs:475-483 | one call with any tree of callbacks keeps the invariant and leaves the guard open |
| `VaultInvariant.RunOk` | contracts/vault-contract/src/lib.rs:85-402 | the invariant holds over every run of calls, callbacks and other token activity |
| `VaultTheorems.EveryLedgerIsSolvent` | contracts/vault-contract/src/storage.rs:652-739 | in every reachable world: owed plus paid is at most credited, short of it by at most the rounding budget, and no user index is ahead of the ledger's |
| `VaultTheorems.DepositsAreConserved` | contracts/vault-contract/src/storage.rs:341-347 | in every reachable world total deposits are the sum of all balances, liquid balances are not negative, locks are positive and the unchecked lock sum cannot wrap |
| `VaultTheorems.HoldingsCoverLiabilities` | contracts/vault-contract/src/lib.rs:85-144 | if no total meets a multiplier above 1.0x the vault's balance of every token covers main deposits, asset deposits and all owed rewards in it |
| `VaultTheorems.CoveredClaim` | contracts/vault-contract/src/lib.rs:192-211 | where the reward token's liabilities are covered, a claim is paid if and only if the ledger accepts it |
| `VaultTheorems.ClaimsAreAlwaysFunded` | contracts/vault-contract/src/lib.rs:192-211 | then the balance check of a claim never fails: it succeeds if and only if the ledger accepts it |
| `VaultTheorems.WithdrawalsAreAlwaysFunded` | contracts/vault-contract/src/lib.rs:102-119 | a withdrawal never lacks tokens; on the main ledger whatever the curve is |
| `VaultTheorems.ExitSucceedsIff` | contracts/vault-contract/src/lib.rs:102-119 | on every initialised, unpaused, reachable vault a withdrawal call, with any callbacks, succeeds if and only if the user's accrual fits and the amount is available |
| `VaultTheorems.ExitGuaranteeIffFits` | contracts/vault-contract/src/lib.rs:102-119 | every covered exit of a user succeeds if and only if that user's accrual fits |
| `VaultTheorems.ExitSucceedsIffAvailable` | contracts/vault-contract/src/lib.rs:102-119 | while the scale times all credited rewards fits in i128, only the amount decides |
| `ExitExactness.BlockedExitIsReachable` | contracts/vault-contract/src/lib.rs:102-119 | a reachable world in which the covered exit of the only depositor fails |
| `FundingExactness.FundedIffNeverAboveOne` | contracts/vault-contract/src/lib.rs:192-211 | for every sorted curve, target and vesting period: all accepted claims are paid, all accepted withdrawals find their tokens and all liabilities are covered, in every reachable world, each if and only if no total meets a multiplier above 1.0x; also if only runs with a steady clock and without callbacks count |
| `FundingExactness.FlatCurveFundedIff` | contracts/vault-contract/src/storage.rs:822-832 | with one point and any target, claims are always paid if and only if its multiplier is at most 1.0x |
| `FundingExactness.UnselectedPointIsHarmless` | contracts/vault-contract/src/storage.rs:822-832 | a sorted curve with a point above 1.0x that is never selected, under which claims are always paid |
| `FundingExactness.GainedBounds` | contracts/vault-contract/src/storage.rs:775-803 | the distribution used against a configuration above 1.0x overflows nowhere and lets the depositor gain at least the goal, which exceeds what was paid in |
| `FundingExactness.Drain` | contracts/vault-contract/src/storage.rs:687-739 | under any vesting period partial claims go on until one exceeds the tokens left |
| `VaultRuns.TransactionIsLedgerStep` | contracts/vault-contract/src/lib.rs:85-402 | a call with any callbacks applies at most its own one ledger operation to a ledger |
| `VaultRuns.UntouchedOverRuns` | contracts/vault-contract/src/storage.rs:835-864 | over any run in which a user at most unlocks, balance and reward fields are unchanged and the index moves by the distributions alone; without any action the whole account is unchanged |
| `VaultRuns.PassiveUserGains` | contracts/vault-contract/src/storage.rs:652-681 | over any run and interleaving a user who at most unlocks gains the floor of balance times the sum of increments, within n − 1 of eager crediting |
| `VaultRuns.LockedFundsStay` | contracts/vault-contract/src/storage.rs:444-453 | over any run with the clock at most t, every lock that runs beyond t stays listed and the balance covers all of them |
| `VaultRuns.CallbacksAreHarmless` | contracts/vault-contract/src/lib.rs:475-483 | for any tree of callbacks the outer call has the result, ledgers and token balances it would have without them, and nested guarded calls fail |
| `VaultEffects.CallMeaning` | contracts/vault-contract/src/lib.rs:22-402 | every call in every reachable world, with any tree of callbacks: exactly when it succeeds, what it returns, who pays whom with every other holding of every token unchanged, and what becomes of every ledger |
| `VaultEffects.PlainWithdrawal` | contracts/vault-contract/src/lib.rs:102-119 | a withdrawal from any ledger succeeds if and only if the vault is open, the user signed and the amount is covered; the user receives exactly the amount from the vault |
| `VaultEffects.PlainClaim` | contracts/vault-contract/src/lib.rs:192-211 | a claim on any ledger pays the vested rewards, in the reward token, to the user who signed |
| `VaultEffects.PlainDistribution` | contracts/vault-contract/src/lib.rs:121-144 | a distribution takes the amount from the admin, who has to sign, and raises the index by the credited amount; no account is touched |
| `VaultEffects.PlainLock` | contracts/vault-contract/src/lib.rs:146-170 | when locking succeeds, and the one lock it adds |
| `VaultEffects.PlainUnlock` | contracts/vault-contract/src/lib.rs:172-190 | unlocking succeeds if and only if the vault is open, the user signed and the limit is at most 50 |
| `VaultEffects.AdministrationMeaning` | contracts/vault-contract/src/lib.rs:22-83 | initialisation, the two-step change of admin, pausing and adding assets: exactly when they succeed, and the whole new state |
| `VaultEffects.OnlySignersPay` | contracts/vault-contract/src/lib.rs:85-144 | a call takes tokens from a holder only if that holder signed it, for an own deposit or, from the admin, a distribution |
| `VaultEffects.UnsignedIsUntouched` | contracts/vault-contract/src/lib.rs:85-402 | over every run in which a user signs nothing, that user's accounts stay as they are and no token holding falls |
| `VaultEffects.LockHolds` | contracts/vault-contract/src/lib.rs:146-170 | after an accepted lock, whatever happens while the clock is at most t before its end: the amount under lock at t has risen by the amount, and no withdrawal by then gets at it |
| `VaultEffects.AdministrationOverRuns` | contracts/vault-contract/src/lib.rs:55-83 | over every run the configuration is fixed; and while neither the admin nor a proposed successor signs any call, callbacks included, the admin, the proposal, the pause flag and the set of ledgers stay |
| `VaultRefusals.RefusalMeaning` | contracts/vault-contract/src/lib.rs:85-402 | a guarded call that fails, with any callbacks, fails with the error of the first obstacle in the order of the checks |
| `VaultJournal.BooksAreJournal` | contracts/vault-contract/src/storage.rs:652-739 | credited, received and paid rewards and the rounding budget of a ledger are the sums over the outcomes of the run's calls |
| `VaultJournal.SolventOverRuns` | contracts/vault-contract/src/storage.rs:652-739 | two-sided solvency over every run since a ledger was opened, stated on the claims paid and the rewards credited in that run |
| `SorobanVault.VaultContract.constructor` | contracts/vault-contract/src/storage.rs:125-138 | a fresh contract without any key stands for the world before initialisation, which is reachable |
| `SorobanVault.VaultContract.StoreDeposit` | contracts/vault-contract/src/storage.rs:480-517 | writing storage key by key gives exactly the ledger after a deposit, other users' keys untouched |
| `SorobanVault.VaultContract.StoreUnlockExpired` | contracts/vault-contract/src/storage.rs:613-646 | the loop over the lock list with counter and running sum stores exactly the account after one batch |
| `SorobanVault.VaultContract.StoreWithdraw` | contracts/vault-contract/src/storage.rs:519-567 | stores exactly the ledger after a withdrawal, locks processed first, or reports its error |
| `SorobanVault.VaultContract.StoreLock` | contracts/vault-contract/src/storage.rs:573-611 | stores exactly the ledger after locking, or reports its error |
| `SorobanVault.VaultContract.StoreClaimableRewards` | contracts/vault-contract/src/storage.rs:719-739 | stores exactly the ledger after a claim and returns the amount to pay, or its error |
| `SorobanVault.VaultContract.StoreRewardDistribution` | contracts/vault-contract/src/storage.rs:652-681 | writes the new index and nothing of any user, or reports the error |
| `SorobanVault.VaultContract.StoreAssetDeposit` | contracts/vault-contract/src/storage.rs:1043-1075 | the deposit on an asset ledger, leaving all other ledgers alone |
| `SorobanVault.VaultContract.StoreAssetWithdraw` | contracts/vault-contract/src/storage.rs:1077-1113 | the withdrawal on an asset ledger, leaving all other ledgers alone |
| `SorobanVault.VaultContract.StoreAssetRewardDistribution` | contracts/vault-contract/src/storage.rs:1115-1132 | the distribution on an asset ledger |
| `SorobanVault.VaultContract.StoreAssetClaimableRewards` | contracts/vault-contract/src/storage.rs:1134-1160 | the claim on an asset ledger |
| `SorobanVault.VaultContract.Invoke` | contracts/vault-contract/src/lib.rs:22-402 | one call on storage and balances, with rollback on error, refines the call on the world and keeps it reachable |
| `SorobanVault.VaultContract.EnterDeposit` | contracts/vault-contract/src/lib.rs:85-100 | guard, transfer, callbacks and booking of a deposit refine the world's deposit; the asset twin is lib.rs:305-323 |
| `SorobanVault.VaultContract.EnterWithdraw` | contracts/vault-contract/src/lib.rs:102-119 | the same for a withdrawal; the asset twin is lib.rs:325-345 |
| `SorobanVault.VaultContract.EnterDistribute` | contracts/vault-contract/src/lib.rs:121-144 | the same for a distribution; the asset twin is lib.rs:347-377 |
| `SorobanVault.VaultContract.EnterClaim` | contracts/vault-contract/src/lib.rs:192-211 | the same for a claim, with the check of the contract's balance; the asset twin is lib.rs:379-402 |
| `SorobanVault.VaultContract.EnterLock` | contracts/vault-contract/src/lib.rs:146-170 | the same for locking |
| `SorobanVault.VaultContract.EnterUnlock` | contracts/vault-contract/src/lib.rs:172-190 | the same for unlocking a batch |
| `SorobanVault.VaultContract.EnterInitialize` | contracts/vault-contract/src/lib.rs:22-53 | initialisation happens once, with distinct tokens and a sorted curve, and stores an empty main ledger |
| `SorobanVault.VaultContract.Administer` | contracts/vault-contract/src/lib.rs:55-83 | handing over administration, pausing (lib.rs:261-275) and adding an asset (lib.rs:292-303) refine the world's calls |
| `ChainParams.NormalizeIdempotent` | network-node/src/chain_params.rs:364-366 | normalising an id twice is normalising it once |
| `ChainParams.SameIdIffAlike` | network-node/src/chain_params.rs:364-366 | two identifiers normalise alike if and only if they differ at most in surrounding white space and the case of ASCII letters |
| `ChainParams.HasChangesIff` | network-node/src/chain_params.rs:368-372 | a patch has changes if and only if it can change some parameters |
| `RegistryTheorems.MergeIsSequentialApply` | network-node/src/chain_params.rs:50-73 | applying a merged patch is applying the two patches in order |
| `RegistryTheorems.ApplyAllIsMerged` | network-node/src/chain_params.rs:50-73 | the same for any sequence of patches |
| `RegistryTheorems.IndexEqualsReplay` | network-node/src/chain_params.rs:195-203 | at every height the merged index gives what replaying the log one patch at a time gives |
| `RegistryTheorems.ScheduleKeepsIndexed` | network-node/src/chain_params.rs:290-301 | an accepted upgrade keeps index and log in step |
| `RegistryTheorems.EffectiveEqualsReplay` | network-node/src/chain_params.rs:195-203 | over every run from genesis, effective parameters are genesis with the history replayed by height, then by submission |
| `RegistryTheorems.PastIsFrozen` | network-node/src/chain_params.rs:281-303 | over every run with the tip at or above a floor, parameters below floor plus minimum delay never change |
| `RegistryTheorems.DivergingNodesAgree` | network-node/src/chain_params.rs:281-303 | nodes that share a state and then see different submissions agree on those heights for good |
| `RegistryTheorems.FrozenIffTipStaysHigh` | network-node/src/chain_params.rs:220-222 | after a change of tip, no authorised submission can change a height if and only if it lies below the new tip plus minimum delay |
| `RegistryTheorems.PendingMeaning` | network-node/src/chain_params.rs:211-217 | pending are exactly the logged records that activate above the tip |
| `RegistryTheorems.PendingInOrder` | network-node/src/chain_params.rs:211-217 | every pending record is listed, in the order of the log and as often as logged |
| `RegistryTheorems.NothingPendingMeansSteady` | network-node/src/chain_params.rs:206-217 | with nothing pending, every height at or above the tip has the active parameters |
| `RegistryTheorems.GoverningRecordDecides` | network-node/src/chain_params.rs:195-203 | each field at each height is set by the last record, by height and then by submission, that sets it, and by genesis without one |
| `RegistryTheorems.AcceptedIff` | network-node/src/chain_params.rs:264-304 | an upgrade is accepted if and only if it can change something, its proposer holds a role, the governance backs it and it leaves the minimum delay; accepted, it is logged once, decides its fields at its height and changes nothing below; refused, nothing changes |
| `RegistryTheorems.RoleIsLastDecision` | network-node/src/chain_params.rs:225-262 | over every run everybody holds exactly the role an administrator last gave them |
| `RegistryTheorems.NoAdminNoPromotion` | network-node/src/chain_params.rs:225-244 | without an administrator no run changes any role |
| `RegistryObject.ChainParameterRegistry.constructor` | network-node/src/chain_params.rs:133-153 | admin keys are seeded as administrators, a DAO seeds no role |
| `RegistryObject.ChainParameterRegistry.EffectiveParametersAt` | network-node/src/chain_params.rs:195-203 | the loop over the ordered map computes the effective parameters |
| `RegistryObject.ChainParameterRegistry.ActiveParameters` | network-node/src/chain_params.rs:206-208 | the parameters at the tip, and with nothing pending those of every later height |
| `RegistryObject.ChainParameterRegistry.PendingUpgrades` | network-node/src/chain_params.rs:211-217 | lists exactly the pending records, in submission order |
| `RegistryObject.ChainParameterRegistry.SetChainTipHeight` | network-node/src/chain_params.rs:220-222 | changes the tip and nothing else |
| `RegistryObject.ChainParameterRegistry.GrantRole` | network-node/src/chain_params.rs:225-231 | succeeds exactly for administrators, and then the target has the role |
| `RegistryObject.ChainParameterRegistry.RevokeRole` | network-node/src/chain_params.rs:234-244 | succeeds exactly for administrators and existing roles, and then the target has none |
| `RegistryObject.ChainParameterRegistry.AuthorizeUpgrade` | network-node/src/chain_params.rs:306-361 | accepts exactly by the configured rule, counting each normalised voter once, whatever the order and spelling |
| `RegistryObject.ChainParameterRegistry.CountVoters` | network-node/src/chain_params.rs:339-358 | the loop accepts exactly when all voters are members and the number of distinct ones, modulo 2^32, reaches the minimum |
| `RegistryObject.ChainParameterRegistry.SubmitParameterUpgrade` | network-node/src/chain_params.rs:264-304 | refuses with the first failing check or schedules, merges and logs, and keeps index and log in step |
| `Governance.FieldAfterTick` | network-node/src/governance.rs:169-188 | after a tick a field at a height is what some executed proposal asks for, or what it was if none asks |
| `Governance.OrderIndependentIffCompatible` | network-node/src/governance.rs:129-189 | effective parameters after a tick do not depend on the iteration order if and only if no two executed proposals ask for different values of one field at one height |
| `Governance.LastVisitedWins` | network-node/src/governance.rs:169-188 | otherwise the proposal visited last decides |
| `GovernanceRuns.ExecutionIsEarned` | network-node/src/governance.rs:136-187 | an executed DAO proposal has at least the minimum, and more than zero, of distinct approving members, and only members voted; an executed admin-key proposal comes from a key and nobody voted |
| `GovernanceRuns.ExecutedIffOnlyMembersVoted` | network-node/src/chain_params.rs:330-358 | a passed DAO proposal otherwise in order is executed if and only if all non-blank voters are members and, counted in u32, reach a positive minimum |
| `GovernanceRuns.ExecutedIffKeyAndNobodyVoted` | network-node/src/chain_params.rs:312-329 | with admin keys a due proposal otherwise in order is executed if and only if nobody voted and the proposer is a key |
| `GovernanceRuns.OwnApprovalBlocks` | network-node/src/governance.rs:129-189 | from every admin-key genesis: a key's proposal is executed, and the same one with that key's own approval passes and is not |
| `GovernanceRuns.DaoGenesisIsInert` | network-node/src/chain_params.rs:133-153 | over every run from a DAO genesis no proposal is opened, no upgrade accepted and no parameter changed |
| `GovernanceRuns.TickAppends` | network-node/src/governance.rs:169-188 | a tick appends exactly one record per executed proposal, in visiting order, and keeps index and log in step |
| `GovernanceRuns.HistoryGrowth` | network-node/src/governance.rs:169-188 | the history grows by exactly the number of proposals executed |
| `GovernanceRuns.GovernanceFromStart` | network-node/src/governance.rs:60-189 | over every run from an empty log and no proposals, with any roles: statuses agree with tallies, none expires, the log counts each executed proposal exactly once beside the direct submissions, and effective parameters at every height are genesis with the log replayed |
| `GovernanceRuns.GovernanceOverRuns` | network-node/src/governance.rs:60-189 | from any state with that invariant, over every run: the invariant is kept, statuses only move from Voting to Rejected, Passed or Executed, and a decided proposal never changes |
| `GovernanceRuns.TickIsRun` | network-node/src/governance.rs:169-188 | a tick does to the registry what a list of submissions does |
| `GovernanceRuns.GovernedPastIsFrozen` | network-node/src/governance.rs:60-189 | over every governance run with the tip at or above a floor, parameters below floor plus minimum delay never change |
| `GovernanceRuns.NoSecondAttempt` | network-node/src/governance.rs:129-189 | a tick decides every due proposal for good, also one that passed but was refused |
| `GovernanceVotes.VoteMeaning` | network-node/src/governance.rs:91-126 | an accepted vote puts the voter among the approving members if and only if it approves and the voter is a member, and affects no other voter; without a role or on a closed proposal it changes nothing |
| `GovernanceVotes.StoredIsLastSaid` | network-node/src/governance.rs:91-126 | over every run the stored vote of a voter is the last one that counted, as it was cast |
| `GovernanceVotes.PassesIffMembersApprove` | network-node/src/governance.rs:129-167 | over every run under a DAO: a tick passes a proposal whose voting has ended if and only if the members whose last vote approved, counted in u32, reach the minimum, and rejects it otherwise |
| `GovernanceVotes.OpenIffNoTickReachedEnd` | network-node/src/governance.rs:60-87 | a proposal is accepted if and only if its proposer holds a role, says what was proposed, and over every later run is open if and only if no tick has reached the end of its voting |
| `GovernanceVotes.DecidedAtOnceIff` | network-node/src/governance.rs:60-167 | a tick at the proposal's own height decides it if and only if there is no voting time or the end of voting wraps beyond u64 |
| `GovernanceObject.GovernanceService.Propose` | network-node/src/governance.rs:60-87 | operators and administrators open a proposal, others change nothing |
| `GovernanceObject.GovernanceService.CastVote` | network-node/src/governance.rs:91-126 | accepted exactly for a role holder on an open proposal; the stored vote of the voter is then the one cast, replacing an earlier one |
| `GovernanceObject.GovernanceService.Tally` | network-node/src/governance.rs:129-167 | the first loop decides every due proposal and lists the passed ones in visiting order |
| `GovernanceObject.GovernanceService.Tick` | network-node/src/governance.rs:129-189 | the two loops together give the specified statuses, independent of order, and the registry for the order of the iteration |
| `XorMetric.DistancesOrdered` | network-node/src/p2p.rs:36-42 | for a fixed target any two ids are strictly ordered by distance |
| `XorMetric.BucketIsFirstDifferingBit` | network-node/src/p2p.rs:45-53 | the bucket of another node is the first bit in which the ids differ |
| `XorMetric.LowerBucketIsFarther` | network-node/src/p2p.rs:45-53 | a node of a lower bucket is strictly farther |
| `Kademlia.TableOverRuns` | network-node/src/p2p.rs:56-67 | after any updates each bucket holds only its own reported ids, at most twenty, and as many of them as fit |
| `Kademlia.NothingDroppedIffItFits` | network-node/src/p2p.rs:56-67 | a bucket holds all its reported ids if and only if there are at most twenty |
| `Kademlia.FullBucketIsFrozen` | network-node/src/p2p.rs:60-66 | a full bucket never changes again |
| `Kademlia.LatestReportKeptIff` | network-node/src/p2p.rs:56-67 | the latest report about a peer is stored if and only if fewer than twenty ids of its bucket were reported before or it says nothing new |
| `Kademlia.HeldIsLastReport` | network-node/src/p2p.rs:56-67 | while fewer than twenty ids of its bucket have been reported, a peer's entry is the last report about it |
| `Kademlia.StoredAreLastReports` | network-node/src/p2p.rs:56-85 | while that holds for all buckets a query sees exactly the last report about every peer |
| `Kademlia.BucketsAreShells` | network-node/src/p2p.rs:45-67 | after any updates every peer of a lower bucket is strictly farther from the local node, and shares exactly the bits before its bucket number |
| `Kademlia.AnswerIsUnique` | network-node/src/p2p.rs:70-85 | the answer to a query depends on the set of stored peers only |
| `KademliaObject.XorDistance` | network-node/src/p2p.rs:36-42 | the loop fills the bytewise XOR |
| `KademliaObject.SortByDistance` | network-node/src/p2p.rs:78-82 | sorts by distance and keeps exactly the given peers |
| `KademliaObject.KademliaRoutingTable.BucketIndex` | network-node/src/p2p.rs:45-53 | the loop finds the bucket of an id |
| `KademliaObject.KademliaRoutingTable.Update` | network-node/src/p2p.rs:56-67 | changes one bucket of the array as specified and keeps the table in order |
| `KademliaObject.KademliaRoutingTable.AllPeers` | network-node/src/p2p.rs:71-76 | the nested loops list every stored peer exactly once |
| `KademliaObject.KademliaRoutingTable.FindClosest` | network-node/src/p2p.rs:70-85 | returns min(k, size) peers, nearest first, and nobody left out is nearer than one returned |
| `Failover.FailureCounts` | network-node/src/horizon_client.rs:38-51 | on a usable provider the counter goes up by one without wrapping, and the circuit opens exactly at the threshold |
| `Failover.SwitchMeaning` | network-node/src/horizon_client.rs:145-175 | a switch goes to a ready provider with nobody ready in between |
| `Failover.VisitNext` | network-node/src/horizon_client.rs:145-175 | after each fallback the rest of the visiting order is what the next state would visit |
| `Failover.VisitEnumerates` | network-node/src/horizon_client.rs:121-175 | the visiting order holds every ready provider exactly once |
| `FailoverTheorems.RequestServed` | network-node/src/horizon_client.rs:178-237 | with distinct URLs a request goes down the visiting order as long as each failure opens a circuit, and changes exactly the providers it tried |
| `FailoverTheorems.TriedOnce` | network-node/src/horizon_client.rs:178-237 | with distinct URLs a request tries only ready providers, each at most once |
| `FailoverTheorems.OutcomeIsDetermined` | network-node/src/horizon_client.rs:178-237 | that description leaves no choice: state and operation determine who is tried and how the request ends |
| `FailoverTheorems.FallbackIffPathCoversReady` | network-node/src/horizon_client.rs:211-234 | for any list: a request succeeds whenever some ready provider can serve it, for all operations, if and only if a request that always fails gets to every ready provider |
| `FailoverTheorems.FallbackIffAllOnLastStrike` | network-node/src/horizon_client.rs:211-234 | with distinct URLs: if and only if every provider visited before the last stands one failure below the threshold |
| `FailoverTheorems.FreshClientDoesNotFallBack` | network-node/src/horizon_client.rs:211-234 | for any list: a client without failures and with a threshold of two or more asks its first provider only |
| `FailoverRuns.CountersOverRuns` | network-node/src/horizon_client.rs:38-88 | with distinct URLs: over every run of requests, switches and health checks a closed circuit's counter is below max(threshold, 1) and an open one's is at it |
| `FailoverRuns.CountersKeptIffDistinct` | network-node/src/horizon_client.rs:240-260 | from a fresh client, at every moment of every request of every run: counters are in that order if and only if no URL is configured twice, and at most max(threshold, 1) if and only if that holds or the threshold is 255 |
| `FailoverRuns.RunsOver` | network-node/src/horizon_client.rs:249-260 | with a repeated URL, a run and a request in which the first holder's counter goes one past max(threshold, 1), modulo 256, behind an open circuit |
| `FailoverRuns.AskedOnceIffDistinct` | network-node/src/horizon_client.rs:178-237 | no request of any run from a fresh client asks a provider twice if and only if no URL is configured twice |
| `FailoverRuns.AskedTwice` | network-node/src/horizon_client.rs:178-237 | for every list with a repeated URL, a run from the fresh client after which one failing request asks a provider twice |
| `FailoverRuns.OpenStaysOpen` | network-node/src/horizon_client.rs:38-67 | for any list: over every run an open circuit stays open and none becomes half open |
| `FailoverRuns.OpenIsNeverAsked` | network-node/src/horizon_client.rs:81-87 | for any list: a provider with an open circuit is asked by no later request of the run |
| `FailoverHistory.StatusIsHistory` | network-node/src/horizon_client.rs:38-67 | with distinct URLs, over every run from a fresh client: the counter is the number of failures since the last success, the circuit opens exactly at the max(threshold, 1)-th failure in a row, and health is what the last success or health check says |
| `FailoverHistory.AskedOnlyIfWell` | network-node/src/horizon_client.rs:81-87 | so a request asks a provider only below that streak and looking healthy, and nobody only if there is no such provider |
| `FailoverHistory.SuccessResets` | network-node/src/horizon_client.rs:53-67 | for any list: a request that succeeds leaves the provider it is booked on healthy with a counter of zero |
| `FailoverHistory.FirstAsked` | network-node/src/horizon_client.rs:121-142 | for any list: the current provider is asked first if it is closed and healthy, or else the first in the list that is |
| `HorizonObject.SortByPriority` | network-node/src/horizon_client.rs:105-107 | sorts by priority, and providers of equal priority keep their configured order |
| `HorizonObject.HorizonClient.GetCurrentProvider` | network-node/src/horizon_client.rs:121-142 | returns the current provider if it is ready, or else the lowest ready one |
| `HorizonObject.HorizonClient.SwitchProvider` | network-node/src/horizon_client.rs:145-175 | moves to the next ready provider in cyclic order, and fails, without a change, exactly when nobody is ready |
| `HorizonObject.HorizonClient.RecordFailure` | network-node/src/horizon_client.rs:249-260 | books a failure on the first provider with the url and tells whether its circuit is open; for an unknown provider it changes nothing |
| `HorizonObject.HorizonClient.constructor` | network-node/src/horizon_client.rs:98-118 | a fresh client over the configured providers, stably sorted by priority; URLs are distinct exactly if the configured ones are |
| `HorizonObject.HorizonClient.HealthCheckAll` | network-node/src/horizon_client.rs:263-318 | sets health flags only: the first provider of each URL gets the last answer for that URL, all others keep theirs |
| `Failover.OwnAnswer` | network-node/src/horizon_client.rs:291-315 | with distinct URLs every provider gets its own answer |
| `HorizonObject.HorizonClient.ExecuteRequest` | network-node/src/horizon_client.rs:178-237 | for any list the retry loop ends in exactly the state, with exactly the attempts and the result of the specified request; there are no more attempts than providers, and with distinct URLs no provider is asked twice |

## Left out

- Storage TTL bumps, events, code upgrade and the second contract version: host effects without accounting content.
- Signatures and `require_auth`: the set of authorising addresses is a parameter of a call.
- The read-only views of the vault other than the reward preview: they return fields that the model already carries.
- Setting the target deposits or the curve after initialisation: the contract has storage setters and no entry point for them.
- Token contracts that deliver less than the transferred amount.
- JSON loading of genesis and configuration, chain ids, transaction ids, log messages and error texts.
- `network-node/src/consensus.rs`, `amazon_eks.rs`, `state_trie.rs`, the gRPC, HTTP, database, indexer, signing and telemetry code, the rate limiter and the error middleware.
- Concurrent use of the Horizon client, and its time stamps: nothing that is modelled reads them.
- HorizonObject.HorizonClient.ExecuteRequest: one caller at a time.
- HorizonObject.HorizonClient.HealthCheckAll: locks are not modelled; the code asks for the write lock (network-node/src/horizon_client.rs:289) while its read guard from line 264 is alive, and the model describes the update that follows.
- KademliaObject.SortByDistance: the library sort is modelled as an insertion sort on a sequence, not in place.
- HorizonObject.SortByPriority: the library sort is modelled as a stable insertion sort on a sequence, not in place.
- SorobanVault.VaultContract.StoreUnlockExpired: the position is passed between helper methods as a value; the code passes a mutable reference.
- Vote weights: they are always one and never read.
- A cap on several partial claims over time: a claim leaves the clock alone and the remainder vests again by the same clock, so a linear cap does not hold; what repeated claims at one moment pay is stated.
