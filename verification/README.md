# FAsset ledger: checkpointed balances and vote power with fractional delegation

A Dafny model of the ledger at the heart of the FAsset token:

- every account has a **balance** history;
- it has a **delegation list**: at most `DELEGATION_LIMIT` (delegatee, basis points) entries. `10^PRECISION` basis points are 100%;
- it has two **vote-power** histories: *own* (what it keeps of its own balance) and *received* (what others delegate to it).

Every quantity is a list of checkpoints over a logical clock (the block number in the
original system). A historical read returns the value of the last checkpoint at or before
the index asked for, or 0 when there is none.

Vote power is push-maintained:

- A balance change of `delta` adds `delta · (scale − total granted)` to the account's own power. It adds `delta · bp` to the received power of each delegatee granted `bp`.
- A delegation change moves `balance · Δbp` from the delegator's own power to the delegatee's received power.
- Received power is never passed on: delegation is single-hop.

Vote power is kept scaled by `10^PRECISION` (balance × basis points). `toPercent` divides the
scaled value by `10^PRECISION`, truncating toward zero.

Modules, in dependency order:

| file | module | contents |
|---|---|---|
| errors.dfy | Errors | the error kinds and `Result` |
| sums.dfy | Sums | finite sums over `0..n-1` and their algebra |
| checkpoints.dfy | Checkpoints | checkpoint histories: `ValueAt` and the value `InForce` at an index, `Write`, binary-search `Lookup` |
| delegations.dfy | Delegations | delegation lists: `Total`, `SharesTo`, `Assign`, the registry rule `SetShare` |
| views.dfy | Views | a snapshot of every account at one index; the coherence invariant (pushed power equals the pull-computed reference); `Credit` and `Redelegate` on snapshots |
| ledger.dfy | Ledgers | the ledger (configuration, clock, one log per account), the ledger invariant `Valid`, its reads, single-checkpoint writes |
| cascades.dfy | Cascades | the push cascades `OnBalanceChanged` (`Shift`) and `OnDelegationChanged` (`Regrant`), and their effect on the snapshots |
| invariant.dfy | Invariant | the lemmas that preserve `Valid`, and what it gives the reads |
| fasset.dfy | FAsset | the operations `Create`, `CreditDebit`, `TransferFrom`, `Delegate` and their effect lemmas |
| scenario.dfy | Scenario | the test's deployment and scenario, stage by stage and as one run (`Play` of `Script` from `Create`): four accounts, `PRECISION` 4, `DELEGATION_LIMIT` 5, dev fee 1000 |

The central invariant is `Ledgers.Valid`. It says that at every index, each account's stored
own power is `balance · (scale − Total(list))`. It also says each account's received power is the sum of
`balance · SharesTo(list, account)` over all delegators. The operations preserve it (`Create`,
`CreditDebit`, `TransferFrom` and `Delegate` all ensure it), and the read-level properties
follow from it: non-negativity, conservation of vote power, and the reference formula.

The model reproduces the behaviour that test/FAsset.test.js pins down; the Solidity
contract is not modelled line by line. The test reads vote power only through
`toPercent`, which divides by `10^PRECISION` (lines 16-18). If a cascade step divided by the
scale as well, every scenario value would reach `toPercent` already unscaled: Bob's 20 tokens
would store 20 and read `20 / 10^4 = 0`, where the test expects 20. So the ledger stores the
exact scaled products, and truncation happens only in `ToPercent`.

## Model

| member | source | states |
|---|---|---|
| Ledgers.ToPercent | test/FAsset.test.js:16-18 | The result is the scaled vote power divided by 10^PRECISION, truncated toward zero: bracketed between consecutive multiples of the scale for both signs. |
| Invariant.ScaledPercent | test/FAsset.test.js:16-18 | Dropping the scale from `10^PRECISION · b` gives back `b` for every non-negative `b`. |
| Scenario.PercentIs | test/FAsset.test.js:16-18 | At PRECISION 4, a scaled value in `[p·10000, (p+1)·10000)` reads as `p` percent-units. |
| Checkpoints.ValueAtSpec | test/FAsset.test.js:66-83 | A point-in-time read returns the value in force at the index (`InForce`): that of the last checkpoint at or before the index, and the default 0 when every checkpoint is later or there is none. |
| Checkpoints.Lookup | test/FAsset.test.js:68-83 | Binary search over an ordered history returns exactly the point-in-time value `ValueAt`. |
| Checkpoints.WriteSpec | test/FAsset.test.js:47-63 | A write at index i leaves every read before i unchanged and makes every read from i on return the new value; written at or after the latest index it keeps the history ordered and bounded. |
| Checkpoints.LatestIsCurrent | test/FAsset.test.js:73-83 | Once the clock has passed every checkpoint, a read at or after the clock returns the latest value. |
| Checkpoints.ValueAtSteady | test/FAsset.test.js:73-83 | Reads at two indices agree when no checkpoint lies strictly after the first and at or before the second. |
| Delegations.SharesToPresent | test/FAsset.test.js:95-107 | In a list with distinct delegatees, the share of an entry's delegatee is exactly that entry's basis points. |
| Delegations.SharesSumToTotal | test/FAsset.test.js:95-113 | Summing the per-account shares over all known accounts gives the list's total percentage. |
| Delegations.AssignSpec | test/FAsset.test.js:95-113 | Assigning bp to x gives x exactly bp and every other delegatee its old share; delegatees stay distinct; the total moves by `bp − old share`; the length grows by one only for a new delegatee and shrinks by one when bp is 0 (the slot is freed). |
| Delegations.SetShare | test/FAsset.test.js:95-113 | Refused exactly when a new delegatee meets a full list (DelegationLimitExceeded) or the grants would exceed 100% (DelegationPercentageExceeded); otherwise x gets bp, other shares are unchanged, the total moves by the difference, no entry is invented, and the list stays well formed. |
| Views.Conservation | test/FAsset.test.js:118-141 | In a coherent snapshot, the vote power of all accounts adds up to the scale times the total supply. |
| Views.CreditCoherent | test/FAsset.test.js:118-141 | Crediting keeps a snapshot coherent as long as the new balance is non-negative. |
| Views.RedelegateCoherent | test/FAsset.test.js:95-113 | Replacing a list by a well-formed one that differs only in one delegatee's share keeps the snapshot coherent. |
| Ledgers.BalanceOfAt | test/FAsset.test.js:68-83 | `balanceOfAt(a, i)` is 0 for an account never seen, and otherwise the balance in force at i: 0 before a's first balance checkpoint, then the last checkpointed balance at or before i. |
| Ledgers.BalanceOf | test/FAsset.test.js:39-42 | `balanceOf` of an account never seen is 0. That it is the balance in force at the clock is Invariant.ReadsAfterClock. |
| Ledgers.VotePowerAt | test/FAsset.test.js:88-93 | `votePowerAt` of an account never seen is 0. For a known account it is own plus received power in force at i; on a valid ledger that equals the pull-computed reference (Invariant.VotePowerIsReference) and is 0 before genesis (Invariant.BeforeGenesis). |
| Cascades.PushReceived | test/FAsset.test.js:118-141 | Pushing a balance change through a delegation list keeps the ledger's configuration, clock and set of accounts. |
| Cascades.PushReceivedView | test/FAsset.test.js:118-141 | Pushing leaves every snapshot before the clock alone. At the clock it adds delta times each entry's basis points to that entry's delegatee's received power. |
| Cascades.OnBalanceChanged | test/FAsset.test.js:118-141 | onBalanceChanged keeps the ledger's configuration, clock and set of accounts. |
| Cascades.OnBalanceChangedEffect | test/FAsset.test.js:118-141 | onBalanceChanged keeps the ledger well formed and leaves every earlier snapshot alone. At the clock, a's own power gains `delta · (scale − Total(list))`, and each delegatee's received power gains delta times its share. |
| Cascades.OnDelegationChanged | test/FAsset.test.js:95-113 | onDelegationChanged keeps the ledger's configuration, clock and set of accounts. |
| Cascades.OnDelegationChangedEffect | test/FAsset.test.js:95-113 | onDelegationChanged leaves every earlier snapshot alone. At the clock it moves `balance · Δbp` from the delegator's own power to the delegatee's received power. |
| Cascades.ShiftNow | test/FAsset.test.js:118-141 | The balance cascade turns the current snapshot into its `Credit`. |
| Cascades.ShiftPast | test/FAsset.test.js:68-71 | The balance cascade leaves every snapshot before the clock unchanged. |
| Cascades.RegrantNow | test/FAsset.test.js:95-113 | The delegation cascade turns the current snapshot into its `Redelegate`. |
| Cascades.RegrantPast | test/FAsset.test.js:95-113 | The delegation cascade leaves every snapshot before the clock unchanged. |
| Invariant.EmptyValid | test/FAsset.test.js:24 | A ledger with no account yet satisfies the invariant. |
| Invariant.ShiftValid | test/FAsset.test.js:47-63 | A balance change that keeps the balance non-negative preserves the invariant at every index. |
| Invariant.RegrantValid | test/FAsset.test.js:95-113 | A delegation change to a well-formed list that differs only in one delegatee preserves the invariant at every index. |
| Invariant.ReadsNonneg | test/FAsset.test.js:66-93 | Historical balances and vote powers are never negative. |
| Invariant.DelegationsBounded | test/FAsset.test.js:95-113 | At every index, an account's delegations grant at most 100% in total and hold at most DELEGATION_LIMIT entries. |
| Invariant.BeforeGenesis | test/FAsset.test.js:68-71 | Before the ledger was created every balance and vote power reads 0 and every delegation list is empty. |
| Invariant.ReadsAfterClock | test/FAsset.test.js:73-83 | A historical read at or after the latest mutation equals the current balance, list and vote power. |
| Invariant.VotePowerIsReference | test/FAsset.test.js:86-113 | The push-maintained vote power equals the pull-computed one: own balance times kept percentage plus every delegator's balance times the percentage it grants. |
| Invariant.UndelegatedPower | test/FAsset.test.js:88-93 | An account that neither delegates nor is delegated to has vote power `scale · balance`, so `toPercent` of it is its balance. |
| Invariant.TotalPowerIsSupply | test/FAsset.test.js:118-141 | At every index the vote power of all accounts adds up to the scale times the total supply. |
| FAsset.Create | test/FAsset.test.js:24 | The constructed ledger satisfies the invariant, keeps the configuration, and starts its clock at the creation index. |
| FAsset.CreateSpec | test/FAsset.test.js:39-42 | After construction the deployer holds the dev fee, nobody else holds anything, nobody delegates, and all the deployer's balance is its own vote power. |
| FAsset.CreditDebit | test/FAsset.test.js:47-63 | Succeeds exactly when the index is not older than the clock and the balance stays non-negative; the error names the failed condition; success keeps the invariant and the configuration and moves the clock to the index. |
| FAsset.CreditDebitNow | test/FAsset.test.js:118-141 | A successful balance change moves a's balance by delta and every account x's current vote power by `delta · Weight(a, x)`; no list changes. |
| FAsset.CreditDebitPast | test/FAsset.test.js:68-71 | A successful balance change at idx leaves every read before idx unchanged. |
| FAsset.TransferFrom | test/FAsset.test.js:47-63 | Succeeds exactly when the index is not older than the clock and the sender holds the amount; refused as a whole otherwise, with the failed condition named; success keeps the invariant. |
| FAsset.TransferNow | test/FAsset.test.js:118-141 | A successful transfer moves the amount from sender to receiver, and each account's vote power by `amount · (Weight(to, x) − Weight(from, x))`; lists are unchanged. |
| FAsset.TransferPast | test/FAsset.test.js:68-71 | A successful transfer at idx leaves every read before idx unchanged. |
| FAsset.Delegate | test/FAsset.test.js:95-113 | Succeeds exactly when the index is not older than the clock, a new delegatee does not meet a full list, and the grants stay within 100%; the error names the failed condition; success keeps the invariant. |
| FAsset.DelegateNow | test/FAsset.test.js:145-161 | A successful delegation gives `to` exactly bp, leaves the delegator's other grants, every other list and every balance alone, and moves `balance · (bp − old grant)` from the delegator's vote power to `to`'s; nobody else's vote power changes. |
| FAsset.DelegatePast | test/FAsset.test.js:95-113 | A successful delegation at idx leaves every read before idx unchanged. |
| Scenario.TransferStep | test/FAsset.test.js:47-63 | On the four scenario accounts, a transfer the sender can afford succeeds and the summary advances by the transfer arithmetic. |
| Scenario.DelegateStep | test/FAsset.test.js:95-113 | On the four scenario accounts, a delegation within the limit and within 100% succeeds and the summary advances by the delegation arithmetic. |
| Scenario.Deployment | test/FAsset.test.js:24-42 | Deployment with dev fee 1000 at index 1: the deployer holds 1000, and its scaled vote power is 10000000. |
| Scenario.TransferToBob | test/FAsset.test.js:47-54 | Transferring 20 from the deployer to Bob succeeds and leaves Bob holding 20. |
| Scenario.TransferToLucy | test/FAsset.test.js:56-63 | Transferring 10 from the deployer to Lucy succeeds and leaves Lucy holding 10. |
| Scenario.BalancesAt | test/FAsset.test.js:68-83 | `balanceOfAt(bob, 0)` is 0; at the current index Bob reads 20 and Lucy 10. |
| Scenario.BobPowerIsBalance | test/FAsset.test.js:88-93 | Before any delegation Bob's vote power reads 20, his balance. |
| Scenario.BobDelegatesHalfToLucy | test/FAsset.test.js:95-100 | Bob's 50% delegation to Lucy succeeds and Lucy's vote power reads 20. |
| Scenario.BobDelegatesQuarterToEd | test/FAsset.test.js:102-113 | Bob's 25% delegation to Ed succeeds; Ed's vote power reads 5 and Bob's 5. |
| Scenario.TopUpBob | test/FAsset.test.js:118-141 | The deployer's transfer of 16 to Bob succeeds with no new delegation: Bob holds 36, and vote powers read Lucy 28, Bob 9, Ed 9. |
| Scenario.LucyDelegatesAllToEd | test/FAsset.test.js:145-161 | Lucy's 100% delegation to Ed succeeds; Lucy keeps the 18 Bob grants her, and Ed reads 19, gaining only Lucy's own 10. |
| Scenario.Play | test/FAsset.test.js:20-162 | A run that goes through yields one ledger per step plus the starting one. The first is the starting ledger, and every one is valid. |
| Scenario.PlayChains | test/FAsset.test.js:20-162 | In a run that goes through, each ledger is the one before it after one step. |
| Scenario.Replay | test/FAsset.test.js:20-162 | Run from the deployed ledger, all six mutations of the test go through in order. Every reading the test makes holds on the ledger it is made on: 1000, 20, 10, 0, 20, 10, 20, 20, 5, 5, 36, 28, 9, 9, 18 and 19. |

## Left out

- Token metadata `name` and `symbol` (test lines 29-37): constant getters with no ledger logic.
- `approve` and allowances (lines 49, 58, 119): access control in front of `transferFrom`, not ledger behaviour. `TransferFrom` moves the tokens whatever the caller.
- `DECIMALS` (line 8): display metadata with no effect on the arithmetic.
- web3, Truffle and chai plumbing, `getBlockNumber`, and deployment: I/O and RPC. The block number becomes the index parameter each operation is given. The ledger refuses an index older than its clock.
- One mutation per index: the scenario gives each mutation its own index, as each transaction gets its own block in the test. The model accepts several mutations at the same index, and the later write then replaces the earlier one's checkpoint.
- EVM integer widths and `BN` wrappers: the model's integers are unbounded. uint256 overflow cannot arise at the scenario's magnitudes and is not modelled.
- Ledgers.ToPercent: there is no per-step truncation. A division by the scale at each cascade step would leave every scenario value below one unit, and `toPercent` of it would read 0 (20 unscaled / 10^4). So the stored values are the exact scaled products that the test's `toPercent` divides (lines 16-18).
- Error behaviour: the test never makes a mutation that is refused. The refusals (InsufficientBalance, DelegationLimitExceeded, DelegationPercentageExceeded, NonMonotonicIndex) guard what the ledger keeps true: non-negative balances, at most DELEGATION_LIMIT delegatees, at most 100% granted, and a clock that never moves back. Their names and the order in which they are checked are not pinned down by the test.
- Checkpoints.Write: it has no explicit out-of-order error. Out-of-order writes cannot reach it, because `CreditDebit` and `Delegate` refuse a stale index before writing anything.
- Invariant.TotalPowerIsSupply: it is stated over the scaled values. The unscaled form (9 + 28 + 9 = 36 + 10 at lines 118-141) holds only up to `toPercent`'s truncation.
- Ledgers.BalanceOf and Ledgers.VotePowerAt: their own contracts state only the never-seen-account case. Their agreement with the historical reads and with the reference formula is stated by the lemmas Invariant.ReadsAfterClock and Invariant.VotePowerIsReference. Stating it on the functions would put a case split into every proof that reads a balance or a vote power.
- Cascades.PushReceived, Cascades.OnBalanceChanged, Cascades.OnDelegationChanged: their contracts state only that the ledger keeps its shape. Their effect on the snapshots is stated by Cascades.PushReceivedView, Cascades.OnBalanceChangedEffect and Cascades.OnDelegationChangedEffect, for the same reason.
