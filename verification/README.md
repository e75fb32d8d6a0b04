# Aura vault: a verified model

A Dafny model of the accounting engine of the Aura vault (`aura-vault/src`) and of the migrator
(`aura-migration/src`), with proofs of what the vault keeps over whole runs. Check it with
`dafny verify dfyconfig.toml`.

## What is modelled

The vault takes deposits of one underlying token and issues shares; yield is harvested into it, vests
linearly, or is distributed through a yield-per-share accumulator; large withdrawals are queued; a
multi-signature committee governs it. Six machines, each a value holding the contract's storage cells, a
function for every entry point (from cells and arguments to the cells and result it commits, or to its
error), and runs: arbitrary sequences of calls and clock ticks, failed calls included.

| files | machine |
|---|---|
| `ShareMath`, `Batch` | share arithmetic in checked i128, and the batch loops over running totals |
| `VaultModel`, `VaultRuns`, `VaultContract` | the vault: deposits, withdrawals, queue, harvest, vesting, distribution, transfers, fees, limits |
| `Credits`, `EntryPoints`, `Refusals` | every vault call in exact integers: when it goes through, what it leaves, why it is refused |
| `Accounts`, `AccountEffects`, `Reserves`, `Solvency`, `TotalAssets`, `RateLimits`, `Gates`, `YieldAccuracy`, `Vesting`, `Prices` | theorems about the vault's runs |
| `Scenarios` | concrete runs from a fresh vault that show where a documented promise stops holding |
| `EpochModel`, `EpochContract`, `EpochShares`, `EpochClaims`, `EpochRules`, `EpochGrowth`, `EpochScenario` | time-weighted harvest epochs: lazy share-seconds, the loop over slept-through epochs, claims |
| `Governance`, `GovernanceProofs`, `GovernanceRules`, `GovernanceContract` | multi-signature operations, signer set and threshold |
| `Keepers`, `KeeperHistory` | the keeper registry and leaderboard, and what they say about the calls made |
| `Migration` | the migrator as two vault calls |

`Core`, `Sums` and `Arith` hold errors, checked arithmetic, finite sums and floor lemmas.

The `*Contract` classes carry the imperative form: an object over its storage, methods that read and rewrite
cells in the source's order, and the source's loops. Each method's postcondition says it commits exactly what
the machine's function specifies and that a failed call changes nothing, so the run theorems are theorems about
those methods. The functions keep the source's checks and their order; the `...Exactly` and `...ExactlyWhen` lemmas say
in exact integers, without them, when each call goes through and what it then leaves. The Soroban contract is itself stateless over host storage; a class therefore has one field,
`cells`. The three storage cells that mirror `total_assets` and `total_shares` are written together by every setter
(`aura-vault/src/storage.rs:314-344`) and are one pair here.

## Readings

The source is in the middle of a merge. Where it does not determine a behaviour by itself, this is how it is read.

- An error makes the host discard every write of the call (`aura-vault/src/test.rs:1366-1387`). The exception is a
  queued withdrawal, which the source reports as an error but documents as committed
  (`aura-vault/src/lib.rs:1121-1133`): the result is `Queued(id, amount)` and the state is kept. The batch
  withdrawal (`aura-vault/src/batch.rs:112-115`) and the migrator treat it as a real error.
- `deposit` computes the new share supply but has no store for it (`aura-vault/src/lib.rs:745-751`). It is stored, as in
  `batch_deposit` (line 1089) and `withdraw` (lines 1277-1280).
- Two pricing rules have been merged into `deposit` and `withdraw`: one prices `total_deposited - unvested`, the
  other `total_deposited - outstanding` with a separate claim on closed epochs. Each is a machine of its own
  (`VaultModel` and `EpochModel`).
- `distribute_yield` checks the managed balance and then compares with a name that is not defined
  (`aura-vault/src/lib.rs:2239-2251`); the managed-balance check is the one modelled.
- The circuit breaker pauses the vault and then returns an error (`aura-vault/src/lib.rs:1906-1920`), which undoes the
  pause. The model does the same: a tripped harvest leaves the vault as it was, unpaused.
- A comment says every recipient of `batch_deposit` is priced at the same baseline
  (`aura-vault/src/lib.rs:1016-1019`); the code prices each at the running totals, and so does the model.
- Transfers follow the entry point `transfer_shares` (lines 3585-3631). The helper of the same name (lines 190-251)
  differs only in accepting a transfer to oneself, which it leaves without effect.
- `ReadyAt` is written and never read, and a Ready operation is not checked for expiry
  (`aura-vault/src/governance.rs:344`), although lines 320-321 say it must not have expired. The code is followed:
  `LateExecutionExactlyWhenReady` says exactly which operations outlive their expiry. No general timelock is claimed.
- `apply_add_signer`, `apply_remove_signer` and `apply_set_threshold` are not called by `execute`; they are steps of
  their own. The signers handed to `initialize_governance` are taken to be distinct.
- Authorisation and roles are conditions on who may take a step and are left to the caller. The admin's single-cell
  setters, the admission lists and the treasury are one step, `Configure`, with the setters' bounds.
- A token transfer out fails when the vault does not hold the amount (`TransferFailed` stands for the host's trap);
  a transfer in brings exactly the amount.
- The declaration of the keeper record is not part of the repository; its harvest counter is taken to be a u64.

## Promised properties that fail, and when they hold

Each of these has its exact condition, and a run from a fresh contract on which it fails.

- "`total_assets >= 0`" (`aura-vault/src/invariants.rs:11`, read from the view that subtracts the unvested yield,
  `aura-vault/src/lib.rs:3216-3218`): collections, emergency exits and batch exits pay from all deposits. The invariant
  holds at every point of a run if and only if no such call pays more than has vested
  (`TotalAssets.TotalAssetsNeverNegativeExactlyWhen`). `Scenarios.BatchExitTakesUnvested` and
  `Scenarios.EmergencyExitTakesUnvested` end at -10; `Scenarios.DepositsCanGoNegative`, where distributed yield has been
  redeemed with the shares and is then collected again, at -154.
- "If `total_shares == 0` then `total_assets == 0`" (`aura-vault/src/invariants.rs:13-14`): it holds through a call if and
  only if the call is not a last exit at the plain price while yield is unvested, a collection after the last share
  has gone, or ledgers closing while yield left behind still vests (`TotalAssets.NothingStrandedExactlyWhen`; both
  invariants over runs, `TotalAssets.HealthyExactlyWhen`). A last `withdraw` keeps it at that instant and leaves the
  unvested yield (`Prices.LastWithdrawalLeavesUnvested`); a vesting period later ten assets stand without a share
  (`Scenarios.LastWithdrawalStrandsYield`).
- "Shares imply assets", the contract's own health check on tracked deposits (`aura-vault/src/lib.rs:3434-3436`,
  3481-3488): at every point of a run tracked deposits are non-negative, and positive while there are shares, if and
  only if no collection takes everything tracked or more (`TotalAssets.SharesAlwaysBackedExactlyWhen`).
  `Scenarios.SharesWithoutAssets` ends with nine shares and nothing tracked.
- "The maximum percentage of vault assets that may be withdrawn in a single ledger" (`aura-vault/src/lib.rs:4086-4088`):
  `batch_withdraw` neither consults nor feeds the limit. Everything redeemed in a ledger stays within it if and only if
  the batches fit in what the counted withdrawals leave (`RateLimits.WholeLedgerLimitExactlyWhen`), so always in runs
  without batches (`RateLimits.LimitHoldsWithoutBatches`). `Scenarios.BatchPassesLimit` takes everything under a limit
  that refuses any withdrawal.
- A share price that never falls: a collection keeps either price if and only if it has nothing to pay
  (`Prices.CollectKeepsPriceExactlyWhen`); a deposit keeps the plain price if and only if the unvested yield's
  slice of what it mints is within the mint's rounding remainder (`Prices.DepositKeepsPlainPriceExactlyWhen`, `Scenarios.DepositCanLowerPlainPrice`); an emergency exit,
  paid from all deposits, keeps the vested price if and only if its slice of the unvested yield is within its rounding
  remainder (`Prices.EmergencyKeepsVestedPriceExactlyWhen`, `Scenarios.EmergencyExitCanLowerVestedPrice`), and a batch
  exit keeps it if and only if its items together pay at most what the vested price gives for all the shares
  (`Prices.BatchExitKeepsVestedPriceExactlyWhen`, `Scenarios.BatchExitCanLowerVestedPrice`).
- "The user's accrued yield stays consistent" (`aura-vault/src/lib.rs:1490-1491`, in `emergency_withdraw`) and "start
  with no outstanding yield debt" (lines 1052-1053, in `batch_deposit`): all deposit and withdraw paths reset the
  checkpoint without accruing. What had accrued survives if and only if it was under one unit; that is proved for each
  of the six paths, and in `batch_deposit` for every recipient, whoever pays (the `...ForfeitsAccrual` lemmas of
  `AccountEffects`). `Scenarios.ThirdPartyDepositDestroys` and its neighbours lose ten units each.
- The strict balance guard of `deposit`, `batch_deposit`, `withdraw` and `harvest` compares the token balance with
  deposits alone, so it refuses exactly while a fee is uncollected or a withdrawal is queued; the managed guard of the
  caller's batches and of `distribute_yield` refuses exactly while one is queued (`Reserves.GuardsPassExactlyWhen`,
  `Scenarios.FeeBlocksDeposit`, `Scenarios.QueueBlocksDeposit`).
- "Governance can always get there": a pending operation that already has enough signatures, because the threshold was
  lowered, still needs one more (`GovernanceProofs.ReadyReachableExactlyWhen`); `GovernanceProofs.StrandedOperation` is a
  run after which nobody is left to give it. Past its expiry an operation still executes exactly
  when it is Ready and, for an allowlist change, has the signatures and a value that are required
  (`GovernanceProofs.LateExecutionExactlyWhenReady`, `GovernanceProofs.LateExecutionHappens`).
- A split deposit, and a migration there and back, are safe exactly in a vault without stranded shares or assets
  (`Batch.SplitDepositsFairExactlyWhen`, `Migration.RoundTripSafeExactlyWhen`); both kinds of vault are reached
  (`Scenarios.SplitDepositGains`, `Scenarios.MigrationThereAndBackGains`).
- An account's payment and remaining floored claim together never exceed its old claim: true of all runs with n closed
  epochs if and only if n is at most one (`EpochGrowth.FlooredClaimsStayExactlyWhen`). The excess is at most one unit per
  further closed epoch (`EpochGrowth.FlooredClaimGrowthBound`). The quantity that never grows is the unfloored
  entitlement, and that is what the coverage proof follows.

## Model

| member | source | states |
|---|---|---|
| ShareMath.MintFavoursVault | aura-vault/src/share_math.rs:16-40 | minting never takes the pool's price down, whatever the pool held |
| ShareMath.RedeemFavoursVault | aura-vault/src/share_math.rs:43-54 | redeeming pays the exact floor of the share, never overdraws the pool or lowers its price; all shares redeem all assets, fewer never do |
| ShareMath.InsufficientAssetsUnreachable | aura-vault/src/share_math.rs:58-69 | the available-assets error cannot occur when the shares exist |
| ShareMath.RoundTrip | aura-vault/src/proptest_strategies.rs:434-459 | deposit and immediate redemption never gain, and lose less than one share's worth plus one unit: (d - r)(S + n) < A + (S + n) |
| ShareMath.RoundTripOfFirstDeposit | aura-vault/src/proptest_strategies.rs:445-456 | the first depositor gets back exactly the deposit |
| Batch.DepositLoop | aura-vault/src/batch.rs:33-54 | the deposit loop equals the left fold of single share_math steps, error for error |
| Batch.WithdrawLoop | aura-vault/src/batch.rs:87-107 | the withdrawal loop equals the left fold of single share_math steps, error for error |
| Batch.DepositTotals | aura-vault/src/batch.rs:50-65 | running assets and shares are the start plus the sums paid in and minted; every item mints at least one share |
| Batch.WithdrawTotals | aura-vault/src/batch.rs:92-106 | running totals are the start less the sums burned and paid; burned stays within the caller's balance |
| Batch.DepositsKeepPrice | aura-vault/src/batch.rs:37-54 | no batch of deposits lowers the share price |
| Batch.SplitDepositMintsNoMore | aura-vault/src/batch.rs:37-54 | splitting a deposit never mints more than one deposit of the sum |
| Batch.SplitDepositsFairExactlyWhen | aura-vault/src/batch.rs:42-49 | that is so for every split if and only if the vault does not hold shares without assets |
| Scenarios.SplitDepositGains | aura-vault/src/batch.rs:42-49 | a run to such a vault, in which two single units mint eleven shares and one deposit of two mints two |
| Batch.WithdrawalsBracketShare | aura-vault/src/batch.rs:92-107 | after any number of items the total paid is bracketed by the burned fraction of the assets |
| Batch.SplitWithdrawalBounds | aura-vault/src/batch.rs:92-107 | redeeming t shares in n pieces pays at most floor(tA/S) and at least floor(tA/S) - (n - 1) |
| VaultContract.Vault.Deposit | aura-vault/src/lib.rs:625-777 | commits the specified deposit, or fails with the specified error and changes nothing |
| VaultContract.Vault.DepositForMany | aura-vault/src/lib.rs:945-1101 | one payer, many recipients: both passes commit the specified mints or nothing (whose they are: `EntryPoints.DepositForManyCredits`) |
| VaultContract.Vault.AddUp | aura-vault/src/lib.rs:970-980 | the validation loop computes the sum of all amounts or the first error |
| VaultContract.Vault.MintEach | aura-vault/src/lib.rs:1021-1090 | the minting loop credits each recipient at the running totals, as a fold of single mints (in exact integers, `Credits.MintManyExactly`) |
| VaultContract.Vault.BatchDeposit | aura-vault/src/batch.rs:18-78 | one caller, many amounts: commits the folded totals or nothing |
| VaultContract.Vault.ApplyRateLimit | aura-vault/src/lib.rs:1222-1248 | the rate-limit cells after an accepted redemption, or the limit error |
| VaultContract.Vault.Withdraw | aura-vault/src/lib.rs:1157-1362 | commits the specified payment or queue entry, or restores the cells and fails |
| VaultContract.Vault.EmergencyWithdraw | aura-vault/src/lib.rs:1413-1515 | commits the specified exit at the plain price, only while paused, or restores the cells |
| VaultContract.Vault.BatchWithdraw | aura-vault/src/batch.rs:80-134 | commits the folded redemptions, or fails; one that would have to queue is refused (`EntryPoints.BatchWithdrawExactly`) |
| VaultContract.Vault.Claim | aura-vault/src/lib.rs:1677-1763 | commits the specified claim of a queue entry, or restores the cells |
| VaultContract.Vault.Harvest | aura-vault/src/lib.rs:1797-1973 | commits the specified harvest: fee, credit, vesting schedule, clock, circuit breaker |
| VaultContract.Vault.Distribute | aura-vault/src/lib.rs:2210-2336 | commits the specified distribution through the accumulator |
| VaultContract.Vault.Collect | aura-vault/src/lib.rs:2549-2618 | commits the specified collection, or restores the cells when the payment fails |
| VaultContract.Vault.SettleHolder | aura-vault/src/lib.rs:3600-3615 | brings one holder's stored yield and checkpoint up to the accumulator |
| VaultContract.Vault.Transfer | aura-vault/src/lib.rs:3585-3631 | commits the settled transfer, or restores the cells |
| VaultContract.Vault.WithdrawFees | aura-vault/src/lib.rs:2986-3019 | pays out all collected fees and clears them |
| VaultContract.Vault.SetVestingPeriod | aura-vault/src/lib.rs:3222-3243 | restarts the vesting schedule on what is unvested |
| EntryPoints.CallsGoThroughExactlyWhen | aura-vault/src/lib.rs:625-3631 | every call goes through if and only if its conditions in exact integers hold, and one that does not changes nothing |
| EntryPoints.DepositExactly | aura-vault/src/lib.rs:646-751 | a deposit goes through if and only if admitted, at the minimum, under the cap, past the balance guard and worth a share; it mints floor(amount*S/(T-u)), one for one in an empty pool |
| EntryPoints.DepositForManyExactly | aura-vault/src/lib.rs:959-1019 | a deposit for many goes through if and only if there are 1 to 50 positive payments whose sum fits under the cap, the guard holds and each mints something at its turn |
| EntryPoints.DepositForManyCredits | aura-vault/src/lib.rs:1021-1101 | payment i mints floor(amount*S/T) at the totals the payments before it leave; the mints come back in that order, and every account gains exactly the mints of the payments made to it |
| Credits.MintManyExactly | aura-vault/src/lib.rs:1021-1090 | the minting loop goes through if and only if every payment fits at its turn, in the totals and in its recipient's balance |
| Credits.ExactMintAt | aura-vault/src/batch.rs:37-54 | item i of a batch is priced at the start plus what the items before it paid in and minted |
| Credits.DepositFoldExactly | aura-vault/src/batch.rs:33-54 | the deposit loop goes through if and only if every item fits at its turn, and then mints exactly those amounts |
| EntryPoints.BatchDepositExactly | aura-vault/src/batch.rs:18-78 | a batch of deposits goes through if and only if it has 1 to 20 fitting items, the whitelist, cap and managed guard allow it; the caller alone is credited |
| EntryPoints.WithdrawExactly | aura-vault/src/lib.rs:1157-1362 | a withdrawal goes through if and only if the shares, guard, limit and tokens allow it; below the threshold it pays floor(shares*(T-u)/S), from it on it queues exactly that |
| EntryPoints.EmergencyWithdrawExactly | aura-vault/src/lib.rs:1413-1515 | an emergency exit goes through if and only if paused and within shares, limit and tokens; it pays floor(shares*T/S) |
| Credits.ExactPaymentAt | aura-vault/src/batch.rs:92-106 | item i of a batch is paid from the start less what the items before it burned and took |
| Credits.WithdrawFoldExactly | aura-vault/src/batch.rs:87-107 | the withdrawal loop goes through if and only if every item fits at its turn, and then pays exactly those amounts |
| EntryPoints.BatchWithdrawExactly | aura-vault/src/batch.rs:80-134 | a batch whose items and guards pass is paid in full if and only if its total stays below the queue threshold, and is otherwise refused as queued |
| Scenarios.BatchRefusedAtQueue | aura-vault/src/batch.rs:112-115 | a run in which a batch at the threshold is refused and changes nothing, where the same withdrawal is queued |
| EntryPoints.ClaimExactly | aura-vault/src/lib.rs:1677-1763 | a claim goes through if and only if it is due, its owner's, worth something after the fee and held in tokens; the entry is then gone |
| EntryPoints.HarvestExactly | aura-vault/src/lib.rs:1797-1973 | a harvest goes through if and only if it meets minimum, cooldown, guard and breaker; fee, credit, schedule and clock are then exactly these |
| EntryPoints.DistributeExactly | aura-vault/src/lib.rs:2210-2336 | a distribution goes through if and only if its step is positive and accurate; the accumulator rises by floor(net*10^12/S) |
| EntryPoints.PreviewExactly | aura-vault/src/lib.rs:2495-2544 | the preview reports that step, what it credits and whether it is accurate; a step of zero is reported as inaccurate |
| EntryPoints.PendingYieldExactly | aura-vault/src/lib.rs:2623-2637 | the view shows what is earned, the stored yield alone when the accrual overflows, zero when the sum does |
| EntryPoints.CollectExactly | aura-vault/src/lib.rs:2549-2618 | a collection goes through if and only if what is earned can be computed and paid; it pays that and moves the checkpoint |
| EntryPoints.TransferExactly | aura-vault/src/lib.rs:3585-3631 | a transfer goes through if and only if the parties differ and the shares are there; both are settled first |
| EntryPoints.WithdrawFeesExactly | aura-vault/src/lib.rs:2986-3019 | all collected fees are paid out and the cell cleared, or there are none and nothing changes |
| EntryPoints.SetVestingPeriodExactly | aura-vault/src/lib.rs:3222-3243 | any period but zero is accepted and restarts the schedule on what is unvested |
| EntryPoints.ConfigureExactly | aura-vault/src/lib.rs:2922-2943 | fees up to 20% and 5% and a limit up to 100% are accepted, and only the settings change |
| Refusals.RefusalsHaveTheirReason | aura-vault/src/lib.rs:625-3631 | the error of every refused call is true of the state and arguments it was called with |
| Accounts.SharesAddUp | aura-vault/src/invariants.rs:15-16 | in every run balances add up to the supply, none is negative, and no checkpoint is ahead of the accumulator |
| Accounts.AccumulatorConservation | aura-vault/src/lib.rs:2210-2336 | in every run, the pending yield shown to all accounts plus all yield collected never exceeds the net yield distributed |
| Accounts.RunKeepsAccounts | aura-vault/src/lib.rs:2549-2637 | the same two invariants from any state that has them, on unfloored claims |
| Accounts.RaisingYps | aura-vault/src/lib.rs:2294-2298 | raising the accumulator raises all claims together by exactly the step per share |
| Accounts.DeltaAtMostNet | aura-vault/src/lib.rs:2261-2266 | the accumulator step times the supply is the scaled net yield, floored |
| Accounts.CollectKeeps | aura-vault/src/lib.rs:2549-2618 | what a collection pays leaves the unfloored claims of all accounts together |
| Accounts.TransferKeeps | aura-vault/src/lib.rs:3599-3621 | a transfer keeps the accounts sound and creates no claim |
| Accounts.PerfFeeBounds | aura-vault/src/fee.rs:14-23 | the performance fee is between nothing and the whole yield |
| AccountEffects.BystandersUntouched | aura-vault/src/lib.rs:1026-1086 | no call, this many-recipient loop included, moves the shares, stored yield or checkpoint of an account it does not name |
| AccountEffects.TransferKeepsYield | aura-vault/src/lib.rs:3583-3621 | both parties can collect after a transfer exactly what they could before, and exactly the shares move |
| AccountEffects.CollectPaysDue | aura-vault/src/lib.rs:2560-2605 | a collection pays exactly what is due, once, out of tracked deposits |
| AccountEffects.DepositForfeitsAccrual | aura-vault/src/lib.rs:739-744 | after a deposit only stored yield is due; nothing is lost if and only if less than one unit had accrued |
| AccountEffects.DepositForManyForfeitsAccrual | aura-vault/src/lib.rs:1052-1059 | the same for every recipient of a many-recipient deposit, whoever pays |
| AccountEffects.BatchDepositForfeitsAccrual | aura-vault/src/batch.rs:66-68 | the same for a batch of one caller's deposits |
| AccountEffects.WithdrawForfeitsAccrual | aura-vault/src/lib.rs:1268-1273 | the same for a withdrawal |
| AccountEffects.EmergencyWithdrawForfeitsAccrual | aura-vault/src/lib.rs:1490-1493 | the same for an emergency withdrawal, where the comment promises consistent yield |
| AccountEffects.BatchWithdrawForfeitsAccrual | aura-vault/src/batch.rs:119-123 | the same for a batch of withdrawals |
| Scenarios.OwnDepositDestroys | aura-vault/src/lib.rs:739-744 | a run in which a depositor's own second deposit destroys ten units of accrued yield |
| Scenarios.ThirdPartyDepositDestroys | aura-vault/src/lib.rs:1052-1059 | a run in which someone else's payment of two units destroys ten units of a holder's accrued yield |
| Scenarios.BatchDepositDestroys | aura-vault/src/batch.rs:66-68 | a run in which a batch deposit destroys ten units |
| Scenarios.OwnWithdrawalDestroys | aura-vault/src/lib.rs:1268-1273 | a run in which a withdrawal destroys ten units |
| Scenarios.EmergencyExitDestroys | aura-vault/src/lib.rs:1490-1493 | a run in which an emergency withdrawal destroys ten units |
| Scenarios.BatchWithdrawalDestroys | aura-vault/src/batch.rs:119-123 | a run in which a batch withdrawal destroys ten units |
| AccountEffects.HarvestSplitsYield | aura-vault/src/lib.rs:1860-1933 | all of a harvest arrives: the exact floored fee, the rest credited |
| AccountEffects.DistributeSplitsYield | aura-vault/src/lib.rs:2253-2313 | all of a distribution arrives: the exact floored fee, the rest credited |
| Reserves.ReserveIdentity | aura-vault/src/lib.rs:1249-1326 | after every run the token balance is tracked deposits plus uncollected fees plus queued redemptions |
| Reserves.GuardsPassExactlyWhen | aura-vault/src/lib.rs:1846-1858 | the strict balance guard passes if and only if no fee is uncollected and nothing is queued, the managed guard if and only if nothing is queued |
| Scenarios.FeeBlocksDeposit | aura-vault/src/lib.rs:678-693 | a run in which an uncollected fee of two makes the next deposit fail |
| Scenarios.QueueBlocksDeposit | aura-vault/src/lib.rs:678-693 | a run in which a queued withdrawal makes the next deposit fail |
| Reserves.QueueHonoursEntriesOnce | aura-vault/src/lib.rs:1692-1763 | queue ids are fresh, and a claim is of an entry queued in the run and not yet claimed, by its owner, not early, for the queued amount less the fee |
| Reserves.WithdrawShape | aura-vault/src/lib.rs:1292-1326 | a withdrawal is queued if and only if it reaches the threshold, and the entry records exactly owner, shares, amount and due time |
| Reserves.ClaimShape | aura-vault/src/lib.rs:1707-1746 | a claim splits the queued amount exactly into net payment and floored fee |
| Solvency.CollectStaysSolventExactlyWhen | aura-vault/src/lib.rs:2601-2605 | a collection leaves tracked deposits non-negative if and only if they cover what is due |
| Solvency.StaysSolventExactlyWhen | aura-vault/src/lib.rs:2601-2605 | through any call tracked deposits stay non-negative if and only if it is not an uncovered collection |
| Solvency.DepositsStayNonNegative | aura-vault/src/lib.rs:2601-2605 | over every run whose collections are covered, tracked deposits are never negative |
| Solvency.PayoutsAreFunded | aura-vault/src/lib.rs:1328-1336 | after every such run no withdrawal, exit, claim, fee payout or covered collection fails for want of tokens |
| Solvency.DueClaimsArePaid | aura-vault/src/lib.rs:1692-1763 | after every such run an unclaimed queued withdrawal can be claimed by its owner if and only if it is due, the vault is open and the fee leaves something; it pays the queued amount less the floored fee |
| Scenarios.DepositsCanGoNegative | aura-vault/src/invariants.rs:11-11 | a run of seven calls after which tracked deposits and total assets are -154 |
| TotalAssets.TotalAssetsKeptExactlyWhen | aura-vault/src/invariants.rs:98-108 | through any call total assets stay non-negative if and only if the call fails or pays no more than has vested: a collection, an emergency exit or a batch exit can |
| TotalAssets.TotalAssetsNeverNegativeExactlyWhen | aura-vault/src/invariants.rs:98-108 | at every point of every run total assets are non-negative if and only if every call is such |
| TotalAssets.NothingStrandedExactlyWhen | aura-vault/src/invariants.rs:119-128 | through any call, time included, no shares means no total assets if and only if it is none of the four that strand |
| TotalAssets.HealthyExactlyWhen | aura-vault/src/invariants.rs:93-128 | both invariants hold at every point of every run if and only if every call pays from what has vested and strands nothing |
| TotalAssets.SharesBackedExactlyWhen | aura-vault/src/lib.rs:3481-3488 | through any call tracked deposits stay non-negative, and positive while there are shares, if and only if it is not a collection of everything tracked or more |
| TotalAssets.SharesAlwaysBackedExactlyWhen | aura-vault/src/lib.rs:3467-3488 | the same at every point of every run |
| Scenarios.BatchExitTakesUnvested | aura-vault/src/invariants.rs:98-128 | a run whose batch exit leaves total assets at -10 and no shares |
| Scenarios.EmergencyExitTakesUnvested | aura-vault/src/invariants.rs:98-128 | a run whose emergency exit leaves total assets at -10 and no shares |
| Scenarios.SharesWithoutAssets | aura-vault/src/lib.rs:3481-3488 | a run that ends with nine shares and nothing tracked |
| RateLimits.LedgerLimitHolds | aura-vault/src/lib.rs:1222-1248 | with the limit fixed, redemptions through `withdraw` and `emergency_withdraw` in one ledger sum exactly to CurrentLedgerWithdrawals, and each finds positive deposits T and leaves that sum at most floor(T*b/10000) |
| RateLimits.WholeLedgerLimitExactlyWhen | aura-vault/src/lib.rs:4086-4088 | everything redeemed in a ledger, batches included, stays within floor(T*b/10000) if and only if the batches fit in what the contract's count leaves; without batches it always does |
| RateLimits.LimitHoldsWithoutBatches | aura-vault/src/lib.rs:4086-4088 | in every run without batches the promise holds at every redemption |
| Scenarios.BatchPassesLimit | aura-vault/src/batch.rs:80-134 | a run in which a batch takes everything, uncounted, under a limit that refuses the same withdrawal |
| RateLimits.StepKeepsTracked | aura-vault/src/lib.rs:1452-1478 | every call keeps the cells equal to what was redeemed in this ledger |
| Gates.PauseDividesCalls | aura-vault/src/lib.rs:1423-1427 | while paused no normal operation succeeds, while not paused no emergency exit does, and a refusal changes nothing |
| Gates.DepositsStayUnderCap | aura-vault/src/lib.rs:663-673 | no deposit path takes tracked deposits past the cap |
| Gates.DepositorsAreListed | aura-vault/src/lib.rs:646-655 | while a list is on, only its members deposit for themselves |
| Gates.BatchItemsMeetMinimum | aura-vault/src/batch.rs:37-41 | every amount of an accepted batch is positive and meets the minimum |
| Gates.HarvestsKeepTheirDistance | aura-vault/src/lib.rs:1826-1838 | over every run, a successful harvest comes at least the cooldown after the previous one |
| YieldAccuracy.AccuracyErrorUnreachable | aura-vault/src/lib.rs:150-155 | with at most 10^12 shares the accuracy error cannot occur |
| YieldAccuracy.AccuracyErrorReachable | aura-vault/src/lib.rs:2271-2285 | beyond that it can: a concrete net yield and supply |
| YieldAccuracy.PreviewPredictsDistribution | aura-vault/src/lib.rs:2495-2544 | a distribution succeeds if and only if the preview reports it accurate and the guards it does not look at hold; it then credits exactly what was previewed |
| YieldAccuracy.DistributionReachesHolders | aura-vault/src/lib.rs:2260-2298 | k distributions to m unmoving holders of at most 10^12 shares raise their pending yield by more than the net yield less k + m |
| YieldAccuracy.AccumulatorAfter | aura-vault/src/lib.rs:2264-2298 | over such a run the accumulator keeps up with the net yield to within one unit per distribution |
| YieldAccuracy.ViewShowsDue | aura-vault/src/lib.rs:2623-2637 | the view never shows more than is due, and shows exactly that when its arithmetic fits |
| Vesting.UnvestedIsLinear | aura-vault/src/storage.rs:371-381 | the split quotient-remainder formula is one floor of pending times remaining over period, between zero and pending |
| Vesting.SplitFormulaNeverOverflows | aura-vault/src/storage.rs:378-380 | no intermediate of the formula leaves i128, for any pending amount and u32 period |
| Vesting.DirectProductFitsExactlyWhen | aura-vault/src/storage.rs:378-380 | the direct product it avoids fits for every pending amount if and only if at most one ledger remains |
| Vesting.VestsAsLedgersClose | aura-vault/src/lib.rs:3216-3218 | total assets never fall as ledgers close |
| Vesting.FullyVestedAfterPeriod | aura-vault/src/storage.rs:375-377 | after one full period nothing is unvested |
| Vesting.HarvestKeepsPricedAssets | aura-vault/src/storage.rs:383-392 | at the instant of a harvest total assets do not move: everything credited is scheduled on top of what was unvested |
| Vesting.PeriodChangeKeepsPricedAssets | aura-vault/src/lib.rs:3236-3239 | changing the period moves no value |
| Vesting.CircuitBreakerCompounds | aura-vault/src/lib.rs:1893-1921 | k successful harvests in a row under limit L keep T_k * 10000^k <= T_0 * (10000 + L)^k |
| Prices.PlainPriceNeverFalls | aura-vault/src/lib.rs:3262-3290 | while shares remain, tracked deposits per share, the price of the preview and conversion views, never fall over any run whose collections have nothing to pay and whose deposits mint at no better than it |
| Prices.DepositKeepsPlainPriceExactlyWhen | aura-vault/src/lib.rs:700-711 | on the totals T, S and unvested u before the call, a deposit d keeps the plain price if and only if floor(dS/(T-u))*u <= dS mod (T-u), or T <= S when nothing has vested |
| Prices.CollectKeepsPriceExactlyWhen | aura-vault/src/lib.rs:2601-2605 | a collection keeps the plain price, and the vested price, if and only if it has nothing to pay |
| Prices.BackingKeptExactlyWhen | aura-vault/src/lib.rs:2601-2605 | a successful call keeps "no shares exactly when no tracked deposits" if and only if it is neither a collection of everything tracked or more nor a last withdrawal while yield is unvested |
| Prices.NoSharesExactlyWhenNoAssets | aura-vault/src/lib.rs:1274-1280 | over every run without those, the supply is zero exactly when the tracked deposits are |
| Prices.VestedPriceNeverFalls | aura-vault/src/lib.rs:3216-3218 | while shares remain, total assets per share never fall over any run whose collections have nothing to pay and whose plain-priced exits take no more than the vested price gives; the unvested yield stays inside the deposits |
| Prices.LastWithdrawalLeavesUnvested | aura-vault/src/lib.rs:1200-1206 | redeeming the last share leaves exactly the unvested yield tracked and total assets at zero |
| Prices.EmergencyKeepsVestedPriceExactlyWhen | aura-vault/src/lib.rs:1440-1446 | an emergency exit keeps the vested price if and only if its slice of the unvested yield is within its own rounding remainder |
| Prices.BatchExitKeepsVestedPriceExactlyWhen | aura-vault/src/batch.rs:92-107 | a batch of n redemptions keeps the vested price if and only if it pays at most floor(b*(T-u)/S) in all; it does when the slice b*u is within the rounding remainder, does not when b*u is at least n*S, and for one item the first is exact |
| Scenarios.LastWithdrawalStrandsYield | aura-vault/src/invariants.rs:119-128 | a run that ends, a vesting period after the last withdrawal, with no shares and total assets of ten |
| Scenarios.EmergencyExitCanLowerVestedPrice | aura-vault/src/lib.rs:1440-1446 | a run whose emergency exit lowers the vested price |
| Scenarios.BatchExitCanLowerVestedPrice | aura-vault/src/batch.rs:92-107 | a run whose batch exit lowers the vested price |
| Scenarios.DepositCanLowerPlainPrice | aura-vault/src/lib.rs:700-711 | a run whose deposit lowers the plain price |
| Prices.InitialPrices | aura-vault/src/lib.rs:529-574 | a fresh vault satisfies both price invariants |
| EpochContract.EpochVault.CheckpointTotal | aura-vault/src/lib.rs:261-275 | adds supply times elapsed time to the open epoch's count |
| EpochContract.EpochVault.CheckpointUser | aura-vault/src/lib.rs:277-317 | records the specified weights of all slept-through epochs and moves the cursor, or fails |
| EpochContract.EpochVault.RecordEpochs | aura-vault/src/lib.rs:287-313 | the checkpoint loop from the cursor's epoch to the open one, or its first error |
| EpochContract.EpochVault.UserHarvestYield | aura-vault/src/lib.rs:319-336 | the loop sums the floored rewards of all closed epochs |
| EpochContract.EpochVault.ReduceClosedWeights | aura-vault/src/lib.rs:338-355 | the loop scales every closed weight of the account once |
| EpochContract.EpochVault.RecordHarvestEpoch | aura-vault/src/lib.rs:357-385 | closes the open epoch and opens the next, as specified |
| EpochContract.EpochVault.Deposit | aura-vault/src/lib.rs:695-751 | commits the specified deposit with both checkpoints, or restores the cells |
| EpochContract.EpochVault.Withdraw | aura-vault/src/lib.rs:1190-1280 | commits the specified withdrawal of share value and harvested yield, or restores the cells |
| EpochContract.EpochVault.Harvest | aura-vault/src/lib.rs:1860-1935 | commits the specified harvest and epoch change, or restores the cells |
| EpochShares.LazyEqualsEager | aura-vault/src/lib.rs:277-317 | after any run, recorded plus unrecorded share-seconds of every account in every epoch are those of an eager bookkeeper, and a checkpoint records exactly the eager weights of closed epochs |
| EpochShares.RecordedWeights | aura-vault/src/lib.rs:288-313 | the checkpoint loop adds each epoch's weight once and touches no other account |
| EpochShares.ReducedWeights | aura-vault/src/lib.rs:345-353 | the reduction loop floors each closed weight once and touches no other account or epoch |
| EpochShares.CheckpointUserVirtual | aura-vault/src/lib.rs:277-317 | a checkpoint moves weight from unrecorded to recorded and changes no account's share-seconds |
| EpochShares.WithdrawVirtual | aura-vault/src/lib.rs:1197-1264 | a withdrawal scales the caller's closed epochs by the fraction kept and changes nothing else |
| EpochShares.RecordEpochVirtual | aura-vault/src/lib.rs:357-385 | closing an epoch keeps every weight, except that an epoch of no length credits the shares, and the new epoch starts from nothing |
| EpochRules.DepositsExactlyWhen | aura-vault/src/lib.rs:695-751 | in every reachable state a deposit goes through if and only if it mints something and the eager share-seconds fit; it mints floor(amount*S/(T-outstanding)) |
| EpochRules.WithdrawsExactlyWhen | aura-vault/src/lib.rs:1190-1280 | in every reachable state a withdrawal goes through if and only if the shares are there, something is paid and the eager numbers fit; it pays the share of the pool and the fraction of the claim on closed epochs, and takes both off the books |
| EpochRules.HarvestsExactlyWhen | aura-vault/src/lib.rs:357-385 | in every reachable state a harvest goes through if and only if there are shares and its numbers fit; it closes the epoch on the share-seconds up to now and the exact net yield |
| EpochRules.ClaimsExactlyWhen | aura-vault/src/lib.rs:319-336 | the claim loop goes through if and only if every reward and the claim fit |
| EpochClaims.ShareSecondsAddUp | aura-vault/src/lib.rs:261-317 | after every run the accounts' share-seconds in the open epoch add up exactly to the contract's count brought up to now, in a closed one to at most its total |
| EpochClaims.HarvestClaimsCovered | aura-vault/src/lib.rs:319-376 | after every run, what `user_harvest_yield` computes for all accounts from stored weights is within their claims with unrecorded weights, and those together within OutstandingHarvestYield |
| EpochClaims.WithdrawNeverOverdraws | aura-vault/src/lib.rs:1207-1263 | a withdrawal takes exactly the withdrawn fraction, floored, of the account's claim, and outstanding yield never goes negative |
| EpochClaims.EntitledDrop | aura-vault/src/lib.rs:338-355 | a withdrawal pays no more than the unfloored entitlement of all accounts drops |
| EpochGrowth.FlooredClaimGrowthBound | aura-vault/src/lib.rs:319-355 | after every run, a withdrawal's payment from the claim and the remaining claim exceed the old claim by at most one unit per closed epoch but one |
| EpochGrowth.FlooredClaimsStayExactlyWhen | aura-vault/src/lib.rs:319-355 | they never exceed it, in any run with n closed epochs, if and only if n is at most one |
| EpochGrowth.FlooredClaimsCanGrow | aura-vault/src/lib.rs:319-355 | for every n from two on, a run with n closed epochs in which a claim of 12 pays 1 and leaves 12 |
| EpochClaims.PoolPriceNeverFalls | aura-vault/src/lib.rs:695-711 | while shares remain, (total_deposited - outstanding) / total_shares never falls over any run |
| EpochScenario.MidEpochDepositScenario | aura-vault/src/test.rs:95-116 | the run of two deposits and a harvest reaches a state in which Bob redeems 1666 and Alice then 2333 |
| GovernanceContract.MultiSig.Initialize | aura-vault/src/governance.rs:539-561 | seeds signers, count and threshold once, or fails as already initialized |
| Governance.InitializeReachesInitial | aura-vault/src/governance.rs:539-561 | set-up of a fresh contract reaches the start of every run; a second set-up fails if and only if there are signers |
| GovernanceContract.MultiSig.Propose | aura-vault/src/governance.rs:190-253 | commits the specified proposal with the proposer's vote |
| GovernanceContract.MultiSig.Sign | aura-vault/src/governance.rs:260-316 | commits the specified signature and readiness, or the specified error |
| GovernanceContract.MultiSig.ExecuteOp | aura-vault/src/governance.rs:328-382 | marks a ready operation executed under the allowlist conditions, or the specified error (when, exactly: `GovernanceRules.ExecutesExactlyWhen`) |
| GovernanceContract.MultiSig.Execute | aura-vault/src/lib.rs:3789-3805 | execution with the allowlist switch, undone when the value is neither 0 nor 1 |
| GovernanceContract.MultiSig.Cancel | aura-vault/src/governance.rs:385-406 | only the proposer cancels, and only an open operation |
| GovernanceContract.MultiSig.Expire | aura-vault/src/governance.rs:422-435 | persists an expiry, reporting whether anything changed |
| GovernanceContract.MultiSig.ApplyAddSigner | aura-vault/src/governance.rs:491-500 | adds a signer once |
| GovernanceContract.MultiSig.ApplyRemoveSigner | aura-vault/src/governance.rs:504-521 | both loops remove exactly the target, unless too few would remain |
| GovernanceContract.MultiSig.ApplySetThreshold | aura-vault/src/governance.rs:524-531 | sets a threshold between one and the number of signers |
| GovernanceProofs.ThresholdStaysReachable | aura-vault/src/governance.rs:491-561 | through every run signers stay distinct and the threshold is at least one and at most their number |
| GovernanceProofs.VotersAreCounted | aura-vault/src/governance.rs:284-291 | an operation's signature count is the number of its distinct recorded voters |
| GovernanceProofs.OperationLifecycle | aura-vault/src/governance.rs:353-435 | ids are exactly 1..count; Executed and Expired are final, Cancelled only becomes Expired; none of the three can execute again |
| GovernanceProofs.RunTraced | aura-vault/src/governance.rs:190-297 | every operation and every vote goes back to a call of the run by someone who was a signer then |
| GovernanceProofs.AllowlistSafety | aura-vault/src/governance.rs:361-371 | the allowlist flag changes only by executing an operation voted for by at least max(threshold, 3) distinct then-signers and proposed at least 24 hours before |
| GovernanceRules.ExecutesExactlyWhen | aura-vault/src/governance.rs:328-382 | at any time a signer can execute an operation if and only if it is Ready and, for an allowlist change, has max(threshold, 3) signatures, is a day old and asks for 0 or 1; it is then Executed and nothing but the flag moves |
| GovernanceRules.ExecutesOnTime | aura-vault/src/governance.rs:343-374 | a run that executes an operation before its expiry, once |
| GovernanceRules.AllowlistTurnsOn | aura-vault/src/governance.rs:361-371 | a run in which three signatures turn the allowlist on after 86400 seconds and not after 86399 |
| GovernanceRules.ProposesExactlyWhen | aura-vault/src/governance.rs:190-253 | a signer's proposal is recorded for three days with the proposer's signature, Ready if and only if one suffices |
| GovernanceRules.SignsExactlyWhen | aura-vault/src/governance.rs:260-316 | a vote counts if and only if it is a signer's first on an open operation that is not pending past its expiry; a rejection changes nothing |
| GovernanceRules.CancelsExactlyWhen | aura-vault/src/governance.rs:385-406 | an open operation can be cancelled by its proposer alone, and is then Cancelled |
| GovernanceRules.ExpiresExactlyWhen | aura-vault/src/governance.rs:422-435 | an operation becomes Expired if and only if its time is over and it is neither Executed nor Expired |
| GovernanceRules.AddsExactly | aura-vault/src/governance.rs:491-500 | a newcomer is appended, a signer already there changes nothing |
| GovernanceRules.RemovesExactlyWhen | aura-vault/src/governance.rs:504-521 | a signer can be removed if and only if those left can meet the threshold, and they keep their order |
| GovernanceRules.RemovingAStranger | aura-vault/src/governance.rs:504-521 | removing someone who is not a signer changes nothing |
| GovernanceRules.SetsThresholdExactlyWhen | aura-vault/src/governance.rs:524-531 | exactly the thresholds from one to the number of signers are accepted |
| GovernanceProofs.LateExecutionExactlyWhenReady | aura-vault/src/governance.rs:343-371 | past its expiry an operation executes if and only if it is Ready and, for an allowlist change, has the signatures required now and a value of 0 or 1 |
| GovernanceProofs.LateExecutionHappens | aura-vault/src/governance.rs:318-346 | a concrete run that executes an operation after its expiry |
| GovernanceProofs.ReadyReachableExactlyWhen | aura-vault/src/governance.rs:260-316 | signatures can make a pending, unexpired operation Ready if and only if some signer has not signed and enough remain |
| GovernanceProofs.StrandedOperation | aura-vault/src/governance.rs:288-297 | a run after which an operation has all the signatures it needs and no signatures can make it Ready |
| GovernanceProofs.GovernanceProgress | aura-vault/src/governance.rs:260-316 | after any run, a pending, unexpired operation that still lacks signatures, and needs no more than there are signers, can be driven to Ready |
| KeeperContract.Registry.Register | aura-vault/src/keeper.rs:22-46 | commits the specified registration, idempotent and bounded |
| KeeperContract.Registry.RecordHarvest | aura-vault/src/keeper.rs:57-93 | commits the specified record update, or restores the cells on overflow (what records add up to: `KeeperHistory.RecordsAreHistory`) |
| KeeperContract.Registry.Top | aura-vault/src/keeper.rs:95-115 | the bounded insertion loop returns the first places of the full ranking |
| KeeperContract.Registry.InsertBounded | aura-vault/src/keeper.rs:100-112 | the inner loop finds the place, inserts within the limit and drops the overflow |
| Keepers.RankingIsStableSort | aura-vault/src/keeper.rs:98-113 | inserting every record gives the stable descending sort: sorted, a permutation, equal yields in registration order |
| Keepers.BoundedInsertIsPrefix | aura-vault/src/keeper.rs:107-112 | inserting into the cut-off list equals cutting off after inserting into the whole |
| Keepers.RegistryStaysSound | aura-vault/src/keeper.rs:22-93 | over every history the registry has no duplicates, at most 256 entries, and a record for each |
| Keepers.TopIsPrefixOfStableSort | aura-vault/src/keeper.rs:95-115 | over every history `top` lists the first min(limit, 20) places of the stable descending sort of all registered records |
| KeeperHistory.RecordsAreHistory | aura-vault/src/keeper.rs:22-93 | after every history each record holds the number and the sum of the keeper's recorded harvests, the ledger of the last and the time of the first record, all read off the calls; the list holds the first 256 keepers in order |
| KeeperHistory.TopRanksHarvests | aura-vault/src/keeper.rs:95-115 | after every history `top` lists the first min(limit, 20) places of the stable descending sort of the listed keepers by the sum of their recorded harvests |
| KeeperHistory.RegistersExactlyWhen | aura-vault/src/keeper.rs:22-46 | after every history a registration goes through if and only if the keeper is known or there is room, and returns the record kept |
| KeeperHistory.HarvestsAddUp | aura-vault/src/keeper.rs:78-85 | a run in which harvests of 100 and 5 rank above one of 104 |
| MigrationContract.Migrator.Initialize | aura-migration/src/lib.rs:135-155 | once only, with two different vaults |
| MigrationContract.Migrator.Migrate | aura-migration/src/lib.rs:201-285 | the window, both legs and both slippage checks, or both vaults keep the state they had (when, exactly: `Migration.MigratesExactlyWhen`) |
| Migration.MigratesExactlyWhen | aura-migration/src/lib.rs:201-285 | a migration goes through if and only if the window is open, the old vault can pay at once, the new one takes the proceeds and both minimums are met; both outputs and both vaults are then exactly these |
| Scenarios.LateMigrationRefused | aura-migration/src/lib.rs:216-223 | a run to two vaults between which a migration goes through at the deadline and is refused a second later |
| Migration.MigrationConserves | aura-migration/src/lib.rs:240-270 | the vaults' summed deposits and tokens are kept, reserves stay matched, and neither share price falls |
| Migration.MigrationRoundTrip | aura-migration/src/lib.rs:201-285 | out and straight back never yields more old-vault shares than were sold, while others hold old-vault shares |
| Migration.RoundTripSafeExactlyWhen | aura-vault/src/share_math.rs:16-54 | a new vault is safe for every such round trip if and only if it holds no assets without shares |
| Scenarios.MigrationThereAndBackGains | aura-migration/src/lib.rs:201-285 | two runs to vaults between which five shares migrated out and back return fifteen |

## Left out

- Host plumbing: authorisation and roles, events, storage lifetimes, the reentrancy flag, Wasm upgrade, initialization checks on a deployed contract.
- Nonces, referrals, deposit metadata and the distribution counter: undeclared in the source, or write-only cells.
- Strategies, swaps, oracles, `deposit_with_swap`: their results come from foreign contracts. Reserves are stated for a vault without an active strategy.
- `harvest_token` and `distribute_yield_token`: they credit deposits with no underlying token arriving.
- Several-asset vaults, the factory, role administration and admin handover, backend, frontend and infrastructure.
- Token wallets of users and outside transfers to the vault.
- Time-weighted epochs together with vesting, fees, queue, limits and caps in one machine: the epoch machine has deposits, withdrawals, harvests and time only, because no other call takes epoch checkpoints.
- Overflow of the id, signature and expiry counters (u64, u32), which takes more calls or seconds than can occur.
- VaultContract.Vault.Harvest: does not write the caller's keeper record, so an overflow of that record's counters does not stop the modelled harvest; the registry is a machine of its own.
- VaultContract.Vault.Deposit: does not model the referrer check, whose parameter the source does not declare, nor the nonce.
- GovernanceContract.MultiSig.Propose: leaves out the `ReadyAt` cell, which nothing reads, and the strategy timelock, whose operation type and constant the source does not declare.
- GovernanceContract.MultiSig.Sign: leaves out the `ReadyAt` cell, which nothing reads.
- GovernanceContract.MultiSig.ExecuteOp: leaves out the timelock of strategy operations, whose operation type the source does not declare.
- Refusals.RefusalsHaveTheirReason: of ZeroAmount, MathOverflow, TransferFailed and the batches' share and liquidity errors it says only which calls return them; when those calls fail is in `EntryPoints`.
- EpochGrowth.FlooredClaimsStayExactlyWhen: n ranges over what the u64 epoch counter can hold.
- Migration.MigrationRoundTrip: assumes the new vault holds no assets without shares, the exact condition of `Migration.RoundTripSafeExactlyWhen`.
