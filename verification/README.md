# DEX pools and router: verified model

A Dafny 4.11 model of the on-chain exchange: the pool contract of one asset pair
(`contracts/dex`) and the router that drives several pools (`contracts/dex-router-v2`).
`dafny verify dfyconfig.toml` checks everything.

## What is modelled

**StableSwap** (`Newton`, `Cubic`, `StableSwap`). The two integer Newton loops, their stop
rule and their cap of 255 steps, as methods with loops. `Invariant(x, y, amp, D)` is the
curve equation multiplied by `4xy`, so that its sign says on which side of the exact D a
number lies. The facts about one floored step are in `Newton` (quadratic, for y) and `Cubic`
(for D); both proofs stay in integers.

**One pool** (`Text`, `Bank`, `Pool`, `PoolStore`, `DexPool`, `Migration`). `Pool` says over
values what each entry point does to the pool's state and to the ledger. `DexPool` is the
contract itself: a class whose field is the key/value store, with numbers kept as big-endian
bytes without sign, curve parameters as decimal text, and one key per LP holder. Each entry
point is proved to do to the store what `Pool` says it does to the state the store stands for,
and to leave store and ledger untouched when it aborts. That correspondence is where the
storage round trip lives: it would fail for any number that reached the sign-dropping setter
negative, and for any LP key that met another key.

**What a call does to whom** (`Effects`, `RouterEffects`). Every entry point of a pool and every
instruction of the router in the request's own terms: assets by name, shares by holder, balances
by account. When it is accepted, who pays, who is paid, and what stays as it was.

**What a pool guarantees** (`SwapProperties`, `Liquidity`, `StableShares`, `PoolCalls`,
`Solvency`). Conservation, payout bounds, the stable floor, deposits and withdrawals and what
they do to a share's worth on either curve, exchange of sides and calls after a migration, and
the ledger's cover for reserves and fee buckets.

**The router** (`Registry`, `Routing`, `RouterContract`, `RouterProperties`). The registry is
a store of comma-joined lists and dash-joined keys that is proved to stand for a list of
names, a list of chains, a token table and a table of unordered pairs. `Routing` is one
`execute` over a shared ledger and a table of pools; `RouterContract` runs it on pool objects
and undoes everything if any contract aborts.

**Runs** (`Worlds`, `Systems`, `RouterSuccess`, `Delivery`). All pools, the router and the
ledger together, under any interleaving of router calls, direct calls, transfers, arrivals,
departures, deployments and registrations: what every reachable state keeps, what each pool's
account holds to the unit, exactly when an execute succeeds, and exactly which requests make
sure that enough arrives on another chain.

## Assumptions

* *The fee host.* `PendulumApplySwapFees` is not part of this repository. The theorems of
  `SwapProperties` up to "the honest host", `RouterNeutral`, `SwapServesPeople`, `SwapDelivers`,
  `Effects`, `RouterEffects` and `StepShares` hold for any answer. The others assume an honest host: `Accounted` says how the
  amounts of an answer relate to each other and to what leaves the pool's account, on either
  curve; `Honest` adds, for the constant product, that the gross output is the constant
  product's and is shared out in full, and that the node share is sold back at no more than
  the constant product's price. Nothing is assumed about how the host prices on the stable
  curve.
* *The platform.* A contract's account moves only by the contract's own code; an abort undoes
  the transaction; `transfer`, `transferFrom` and withdrawals move exactly the stated amounts;
  the EVM bridge takes the amount and its proof fee. A call whose target returns nothing still
  hands the caller a value: the pool's deposit and withdrawal return nil, and the router aborts
  when a call hands it nil. Numbers are unbounded, as
  `big.Int` is; every division has a non-negative numerator and a positive divisor, where
  `Quo`, `Div` and Dafny's `/` agree.
* *Mapping contracts.* They are not part of this repository. `Unmap` is what is taken of them:
  the fee of the native chain is an input, refused above `max_fee`, taken out of the amount
  where `deduct_fee` is set (and then refused if it leaves nothing), and paid from the bridge's
  reserve otherwise; any other refusal is the input `None`. A withdrawal the bridge queues
  counts as made.
* *Setup.* Each pool is registered under the names and mapping contracts it was opened with,
  and was opened with this router (`Agree`, `Allowed`).
* *Libraries.* JSON is a pair of functions that give back a token's chain, mapping contract and
  decimals as written; address kinds, block time and date parsing are inputs.

## Findings

* Both solvers' refusal of a non-positive denominator, and the underflow refusal of a
  withdrawal, can never be taken.
* The solver for D settles for all positive reserves whose sum is at most 2^147 normalized
  units, and the one for y for every D below 2^128, so neither cap is reached in practice.
  `StableSwap.FloorYConverges` states it for the check itself.
* Opening a pool is guarded by the version key alone. On a store of the first layout that key
  is empty, and opening zeroes the supply but keeps the LP entries. On a store whose shares
  added up they still do afterwards exactly when the stored supply was 0
  (`Systems.OpenedShares`; `Systems.StaleOpening` is a store where they do not). A holder left
  over from before can then withdraw out of the first deposit made after it
  (`Systems.StaleHolderIsPaid`).
* The pool has only the host's word for the fees of a swap. An answer whose shares do not read
  zero escapes the dust unit and may pay out the whole gross output
  (`SwapProperties.FeelessAnswer`); `SwapProperties.PaidAgainstGross` says for which answers
  less than the gross output is paid. With an honest host every payout above one unit leaves a
  fee (`SwapProperties.NoFreeSwap`).
* The constant-product floor is checked before the network credit is taken off the output
  reserve, so it bounds reserve and credit together. A credit equal to the whole new reserve is
  accepted and stores an output reserve of 0 (`SwapProperties.EmptyingCredit`); the stored
  reserve is positive exactly when the credit is smaller (`SwapProperties.StoredOutput`).
* A swap's minimum is checked before it is settled, while the EVM bridge's proof fee and, for
  every mapped asset but the bridge's tokens, the native chain's fee come off afterwards. Less
  than the minimum can arrive (`Delivery.ShortDelivery` is such an execute). A request makes
  sure that m units arrive exactly when its minimum covers m, the proof fee and the `max_fee`
  it gives; without a `max_fee` no minimum makes sure of more than one unit
  (`Delivery.GuaranteeExact`, `Delivery.UncappedDeliversAnything`).
* The comment on the withdrawal's permission check names "system" besides the owner of the
  shares and the router; the code admits only those two. The model follows the code.
* The comments on `PreDeposited` say that an empty router rejects the flag; initialization
  refuses an empty router, so only migrated pools can have one.

## Model

| member | source | states |
|---|---|---|
| StableSwap.StableGetD | contracts/dex/stableswap.go:59-96 | the loop returns the D of the reference recursion, refuses exactly the invalid inputs, and its result is within one unit of the exact D |
| StableSwap.GetDExact | contracts/dex/stableswap.go:59-96 | for all inputs: refused iff invalid; the denominator is always positive; a result d satisfies G(d-1) <= 0 < G(d+1), d <= x+y and (d+1)^2 > 4xy |
| StableSwap.DStep | contracts/dex/stableswap.go:73-95 | one iteration stays at or above the root less one unit and at or below x+y, falls strictly unless it is the last, rises by at most one, and keeps two thirds of the distance to the root |
| StableSwap.GetDConverges | contracts/dex/stableswap.go:30-33 | no cap for positive reserves with x+y <= 2^147, any amplification |
| StableSwap.InvariantIncreasing | contracts/dex/stableswap.go:16-20 | the cleared curve equation increases with D, so its sign locates D |
| StableSwap.StableGetY | contracts/dex/stableswap.go:106-137 | the loop returns the y of the reference recursion, refuses exactly the invalid inputs, and its result is the root of the floored quadratic to one unit |
| StableSwap.GetYExact | contracts/dex/stableswap.go:106-137 | for all inputs, also starts below the root: the denominator is always positive and a result y satisfies f(y) <= 1 <= f(y+1) for the code's floored b and c |
| StableSwap.YDescends | contracts/dex/stableswap.go:120-136 | from at or above the root each step at least halves the distance to it and rises by at most one |
| StableSwap.GetYConverges | contracts/dex/stableswap.go:30-33 | no cap for D below 2^128 |
| StableSwap.GetYIsBoundary | contracts/dex/stableswap.go:98-137 | against the exact curve, without the floors of b and c: a reserve strictly above the curve is never below the result, and the result plus one unit is strictly above the curve |
| StableSwap.StableFloorY | contracts/dex/stableswap.go:156-166 | the floor separates the reserves against the curve of the old D: strictly above the curve implies at or above the floor, which implies strictly above the curve with one more unit |
| StableSwap.FloorYIsExact | contracts/dex/stableswap.go:152-166 | reserves above the old curve always pass; passing ones are strictly above it with one more normalized unit, and the D solved for them is then at least the old D |
| StableSwap.FloorYConverges | contracts/dex/stableswap.go:156-166 | the floor is always computed while the normalized reserves add up to less than 2^128 |
| SwapProperties.OutputConserved | contracts/dex/main.go:342-384 | any host: stored output reserve, credit, referral and user payment together never exceed the old output reserve, and equal it iff user_output is the drop of the host's output reserve; the input reserve does not shrink |
| SwapProperties.ReferralExact | contracts/dex/main.go:411-434 | the referral is the basis-point share of what is paid out, rounded down |
| SwapProperties.DustExact | contracts/dex/main.go:346-384 | any host: the dust unit is taken exactly when no share and no credit is reported for an output above one unit; it moves from the user to the fee bucket, the stored reserve stays the host's less the credit and nothing is lost on the way |
| SwapProperties.PaidAgainstGross | contracts/dex/main.go:319-384 | any host, constant product: user plus referral are at most the exact output rounded up and strictly less than it when the dust unit is taken; they are below the gross output iff the user output is, or equals it and the dust unit is taken |
| SwapProperties.FeelessAnswer | contracts/dex/main.go:361-384 | an accepted answer that pays the whole gross output and leaves no fee |
| SwapProperties.NoFreeSwap | contracts/dex/main.go:346-384 | honest host: a user output above one unit always leaves user plus referral strictly below the gross output |
| SwapProperties.StoredOutput | contracts/dex/main.go:319-323 | any host, constant product: stored output reserve and credit together meet the constant-product floor, and the stored reserve is positive iff the credit is below the host's reserve |
| SwapProperties.EmptyingCredit | contracts/dex/main.go:462-473 | an accepted answer whose credit stores an output reserve of 0 |
| SwapProperties.PayoutBound | contracts/dex/main.go:230-242 | any host, constant product: user plus referral never exceed rOut less two thirds of it, rounded down |
| SwapProperties.StableSwapKeepsCurve | contracts/dex/main.go:474-486 | any host, stable pool: stored reserves with one more output unit are strictly above the exact curve of the old reserves, and their D is at least the old one |
| SwapProperties.StableFloorAdmits | contracts/dex/main.go:474-486 | the stable floor refuses no reserves strictly above the old curve |
| SwapProperties.HonestSwapAccepted | contracts/dex/main.go:304-344 | an honest answer with positive output passes every check, leaves a positive output reserve and never lowers the product of the reserves |
| SwapProperties.SoldBack | contracts/dex/main.go:452-470 | selling the node share back and removing the network credit keeps the input reserve from shrinking and the product from falling |
| Effects.PlanExact | contracts/dex/main.go:145-222 | a swap request is taken up iff it meets the source's conditions; each reserve and, on a stable pool, each asset's own decimals go with the asset that is named |
| Effects.SwapConditions | contracts/dex/main.go:222-447 | any host: an accepted swap is within the half-reserve cap, met its minimum after the referral, came with permission, and on a stable pool was priced on the stable curve |
| Effects.SwapState | contracts/dex/main.go:346-488 | any host: the reserve named as input becomes the host's, the one named as output the host's less the credit, the output's bucket grows by credit and dust unit, and nothing else changes |
| Effects.SwapBalances | contracts/dex/main.go:393-503 | any host: every balance after a swap; the beneficiary gets the rounded-down refBps share of what is paid out, the recipient the rest |
| Effects.StableSwapSafe | contracts/dex/utils.go:350-376 | any host, stable pool: with each reserve scaled by its own asset's decimals, what is stored lies with one more normalized output unit strictly above the curve of the old D |
| Effects.StableSwapAdmits | contracts/dex/main.go:474-486 | stable pool, workable size: an answer on the stable curve that passes the other checks and stores reserves above the old curve is accepted, and a solvent pool with an honest host serves it |
| Liquidity.AddKeeps | contracts/dex/main.go:664-717 | a deposit keeps shares adding up to the supply, no reserve per share falls, and the supply stays below the geometric mean |
| Liquidity.MintExact | contracts/dex/main.go:669-687 | the shares minted are the largest number either rule allows |
| Effects.DepositState | contracts/dex/main.go:548-722 | the recipient named and nobody else gets the shares minted, the largest number allowed and at least the minimum; both reserves grow by their amounts and nothing else changes |
| Effects.DepositBalances | contracts/dex/main.go:633-662 | every balance after a deposit: what the router has not brought moves from the caller to the pool |
| Effects.DepositAdmits | contracts/dex/main.go:548-717 | a deposit succeeds iff the request is in order, neither side rounds to nothing, the caller holds what is drawn and the minimum is met |
| Liquidity.RemoveKeeps | contracts/dex/main.go:736-766 | a withdrawal keeps the same three properties |
| Liquidity.AddThenRemove | contracts/dex/main.go:669-766 | depositing and withdrawing the shares minted never returns more of either asset than was put in |
| Effects.WithdrawalState | contracts/dex/main.go:724-770 | the shares of the recipient named and of nobody else are burned, and each reserve falls by its share, rounded down |
| Effects.WithdrawalBalances | contracts/dex/main.go:774-790 | every balance after a withdrawal: what each reserve loses goes from the pool's account to the recipient |
| Effects.WithdrawalAdmits | contracts/dex/main.go:724-790 | on a solvent pool a withdrawal succeeds iff the request meets the source's conditions |
| Effects.ClaimExact | contracts/dex/main.go:846-895 | a claim by the owner empties both buckets; a native fee leaves the chain, a mapped one goes to the owner, and no other balance changes |
| Effects.OpeningExact | contracts/dex/main.go:24-133 | a pool opens iff the request meets the source's conditions, and in whichever order the assets are named each keeps the mapping contract and the decimals given with it |
| Liquidity.FlowsGrowShares | contracts/dex/main.go:664-766 | along any run of deposits and withdrawals that never empties the pool, each reserve per share never falls |
| StableShares.SharesKeepCurve | contracts/dex/main.go:664-766 | on the stable curve, reserves that grow per share keep D per share: scaled by the two supplies, the new reserves reach the curve of the scaled old D |
| StableShares.FlowsKeepCurve | contracts/dex/main.go:664-766 | along any run of deposits and withdrawals that never empties a stable pool, D per share never falls |
| StableShares.SharesKeepSolvedD | contracts/dex/stableswap.go:59-96 | the same for the D the solver returns, to one unit |
| Liquidity.EverybodyLeaves | contracts/dex/main.go:736-766 | if all holders withdraw in any order, each gets at least the share held at the start, the payouts sum to the reserves, and the pool ends empty |
| PoolStore.LpKeysApart | contracts/types/constants.go:11-32 | a holder's key is no fixed key, and different holders have different keys |
| PoolStore.PutLp | contracts/dex/utils.go:111-133 | storing one holder's shares changes that entry of the share table and no other |
| Text.BytesRoundTrip | contracts/dex/utils.go:29-42 | stored bytes read back as the number exactly when it was not negative |
| Text.DecimalRoundTrip | contracts/dex/main.go:127-132 | stored curve parameters read back as written |
| Text.BytesBigEndian | contracts/dex/utils.go:29-42 | the stored bytes are big-endian |
| Text.LessExact | contracts/dex/main.go:60-65 | byte order is decided at the first difference, or by length |
| Text.LowerExact | contracts/dex/main.go:51-53 | no upper-case letter survives lower-casing and nothing else is altered |
| Text.SplitExact | contracts/dex-router-v2/utils.go:84-137 | the parts hold no separator and give back the text when joined |
| Text.TrimExact | contracts/dex-router-v2/utils.go:156-171 | trimming cuts off blanks at both ends and leaves none there |
| PoolStore.PutReserve0 | contracts/dex/utils.go:115-117 | storing a reserve changes that one number of the state and reads back as stored |
| PoolStore.PutCurve | contracts/dex/utils.go:353-376 | the four curve keys read back as the curve they were written for |
| DexPool.DexPool.PriceReply | contracts/dex/main.go:225-344 | the mutated amounts end as the reference settlement, refusing the same answers |
| DexPool.DexPool.Swap | contracts/dex/main.go:145-541 | the store and the ledger end as the reference swap says, the fee and claim-time keys untouched; an abort changes nothing |
| DexPool.DexPool.AddLiquidity | contracts/dex/main.go:548-722 | the same for a deposit |
| DexPool.DexPool.RemoveLiquidity | contracts/dex/main.go:594-795 | the same for a withdrawal |
| DexPool.DexPool.ClaimFees | contracts/dex/main.go:846-895 | the same for the fee claim, which also stores the block's time as the claim time and no other key outside the state |
| DexPool.DexPool.Init | contracts/dex/main.go:24-138 | the store ends as a pool with ordered names, no reserves, no supply and the curve asked for, with the fee asked for or the default one and the block's time as claim time; an abort changes nothing |
| DexPool.DexPool.SetBigInt | contracts/dex/utils.go:40-42 | any number may be stored; it reads back as itself iff it is not negative |
| DexPool.DexPool.Migrate | contracts/dex/main.go:902-1019 | from every layout the meaning of the store is kept up to ordering the sides, the version ends at 4, and a migrated store is not touched |
| DexPool.DexPool.MigrateV2 | contracts/dex/main.go:947-970 | the key a1n is read as asset0's name before it becomes asset1's |
| Migration.MigrationKeepsMeaning | contracts/dex/main.go:983-1012 | names end in byte order, every asset keeps its mapping contract, reserve and fees, every holder keeps their shares, and a second migration changes nothing |
| Migration.DescribedAssets | contracts/dex/main.go:912-981 | from version "" and 1, each asset ends with the mapping contract its own description gives, its own reserve and its own fees |
| PoolCalls.MirrorRun | contracts/dex/main.go:187-220 | a pool with its sides exchanged behaves as the original through any run of swaps, deposits, withdrawals and claims, with the same ledger |
| PoolCalls.MigratedRun | contracts/dex/main.go:983-1012 | for a pool of any layout and any run, migrating and then calling comes to the same pool and ledger as calling and then migrating |
| Bank.Bank.Transfer | contracts/asset/asset.go:93-96 | a transfer moves the amount or is refused for lack of balance |
| Bank.MovesCommute | contracts/asset/asset.go:132-146 | transfers of different assets can be made in either order |
| Solvency.StepKept | contracts/dex/main.go:457-503 | each call with an honest host moves the pool's balances exactly with reserves and fee buckets, and touches no account but the caller, the payees and the node runners |
| Solvency.HonestSwapOwed | contracts/dex/main.go:457-488 | what a pool owes on each side after an honest swap |
| Solvency.RemoveCovered | contracts/dex/main.go:736-790 | on a solvent pool a withdrawal succeeds iff the request itself is in order |
| Solvency.ClaimCovered | contracts/dex/main.go:846-895 | on a solvent pool a fee claim succeeds iff the owner makes it |
| Solvency.SwapCovered | contracts/dex/main.go:490-503 | on a solvent pool an accepted honest swap can always be paid |
| Systems.HonestSwapSucceeds | contracts/dex/main.go:222-503 | on a solvent constant-product pool an honest swap succeeds iff it meets the minimum asked for |
| Systems.StepShares | contracts/dex/main.go:713-766 | any host: after every call the shares add up and a pool without shares is empty |
| Systems.StepBacked | contracts/dex/main.go:457-488 | honest host: every call on a constant-product pool keeps supply^2 <= reserve0 * reserve1 |
| Systems.OpenedShares | contracts/dex/main.go:35-40 | after opening, shares add up exactly when the store held none; where they added up before, exactly when the stored supply was 0 |
| Systems.StaleState | contracts/dex/main.go:912-945 | a store in the first layout, as a first deposit of 2 and 13 units leaves it, and the state it stands for |
| Systems.StaleOpening | contracts/dex/main.go:35-40 | on that store, whose five shares add up, opening succeeds and leaves shares that do not add up |
| Systems.StaleHolderIsPaid | contracts/dex/main.go:736-766 | after such an opening an old holder can withdraw from the first deposit, up to all of it, and the depositor is then refused every withdrawal |
| Systems.OpenedGood | contracts/dex/main.go:108-133 | a freshly opened pool owes nothing, has issued nothing, and its assets differ and are in byte order |
| Systems.EveryReachableStateIsSound | contracts/dex/main.go:462-470 | after any run from nothing, for each pool and asset the ledger covers reserve plus fee bucket, shares add up, empty supply means empty reserves, and constant-product supply is backed |
| Systems.QuietRunExact | contracts/dex/main.go:375-381 | along any run that pays one pool's account nothing outside the calls, whatever other pools are paid or opened, that pool's balance less reserve less fees never changes by a unit in either asset |
| Systems.EveryPoolExact | contracts/dex/main.go:462-470 | from the beginning: every existing pool was opened at some point of the run, and if nothing was paid to its account since, its balance of each asset is reserve plus fee bucket plus what the account held at the opening |
| Worlds.ExecuteSlack | contracts/dex-router-v2/main.go:369-557 | one execute over one or two pools costs no pool any slack on either side, and leaves that of every pool it does not pay exactly as it was |
| Worlds.CallSlack | contracts/dex/main.go:393-408 | one call costs its own pool only what the router brought ahead, and no other pool anything |
| RouterProperties.RouterNeutral | contracts/dex-router-v2/main.go:223-320 | any host: every successful execute, direct, two-hop, settled elsewhere, deposit or withdrawal, leaves each of the router's balances unchanged unless the router is the referral's beneficiary |
| RouterProperties.SettleBalances | contracts/dex-router-v2/main.go:564-674 | settlement on any chain, with the EVM bridge's proof fee netted and whatever the native chain's fee, takes exactly the amount from the router |
| RouterProperties.PreFundBalances | contracts/dex-router-v2/main.go:680-711 | pre-funding moves the input from the caller to the pool and leaves nothing with the router |
| RouterProperties.SwapServesPeople | contracts/dex-router-v2/main.go:323-557 | any host: a swap takes from its caller exactly the input, pays a recipient on the home chain the amount reported, which meets the minimum, and touches no other person but a beneficiary |
| RouterEffects.SwapExact | contracts/dex-router-v2/main.go:323-557 | any host: a swap goes through the pool of its pair or else both pools with HBD, changes no other pool, meets the intermediate minimum, and leaves every person exactly with the input paid, the output received and the refBps share of the referral |
| RouterEffects.DepositServesPeople | contracts/dex-router-v2/main.go:283-300 | a deposit charges the caller each amount in the asset it was named with, adds it to that asset's reserve, gives the shares to the recipient, meets the minimum, and touches no other account or pool |
| RouterEffects.WithdrawalBurns | contracts/dex-router-v2/main.go:764-794 | a withdrawal burns the caller's own shares, each reserve falls by their part of it, and no other pool is touched |
| RouterEffects.WithdrawalServesPeople | contracts/dex-router-v2/main.go:764-794 | and pays the caller of each asset what the pool's reserve of it loses, touching no other account |
| RouterEffects.ExecuteConditions | contracts/dex-router-v2/main.go:223-320 | every successful execute came with authority, a known kind, a recipient that is not the router and on the home chain is an address |
| RouterEffects.HomeChainExact | contracts/dex-router-v2/main.go:262-273 | the home chain is MAGI or none, without regard to case |
| Delivery.SwapDelivers | contracts/dex-router-v2/main.go:564-674 | any host: the minimum holds of the output; the other chain is asked to send it, less the proof fee, to the recipient, with the caller as the bridge's refund address; what arrives is that less the withheld fee; every other fee within the cap that leaves something is accepted too, and then the same output arrives less that fee |
| Delivery.MinimumDelivered | contracts/types/types.go:225-231 | a minimum of m plus proof fee plus cap delivers at least m whenever the execute succeeds; without the cap where no fee is withheld |
| Delivery.UncappedDeliversAnything | contracts/dex-router-v2/main.go:602-607 | without a cap, any amount from one unit up to what is sent can be all that arrives |
| Delivery.GuaranteeExact | contracts/dex-router-v2/main.go:602-659 | where the fee is withheld, a request guarantees m units over all sound systems and honest answers iff m is at most 1, the cap is refused outright, or the minimum covers m, the proof fee and the cap |
| Delivery.ShortDelivery | contracts/dex-router-v2/main.go:602-607 | an execute whose output of 100 meets its minimum of 95 and of which 90 arrive |
| RouterSuccess.ExecuteSucceeds | contracts/dex-router-v2/main.go:223-320 | on a sound system with an honest host, an execute of any kind succeeds iff the request with its fee cap, the caller's funds, the pools' prices and the mapping contract's fee allow it; no payment, hand-over or settlement ever lacks cover |
| RouterSuccess.DirectSucceeds | contracts/dex-router-v2/main.go:369-434 | a direct swap succeeds iff the caller holds the input, the pool accepts request and answer, and the output can be settled where asked, with a fee within the cap that leaves something |
| RouterSuccess.TwoHopSucceeds | contracts/dex-router-v2/main.go:438-557 | the same over both pools as they are before the call: the second hop is asked for what the first pays and the router always holds it |
| Registry.PoolKeyInjective | contracts/dex-router-v2/utils.go:44-46 | a dash-joined key of names without dashes determines both names against any two strings |
| Registry.IsValidTokenName | contracts/dex-router-v2/utils.go:113-124 | the scan accepts exactly the non-empty strings of lower-case letters and digits |
| Registry.SplitChains | contracts/dex-router-v2/utils.go:156-171 | the loop returns distinct items, and an item iff it is not blank and some comma-separated part trims to it |
| Registry.DedupInOrder | contracts/dex-router-v2/utils.go:156-171 | what is kept of a list's first parts comes first: the items are in order of first appearance |
| Registry.AddToListMeans | contracts/dex-router-v2/utils.go:84-137 | adding to the comma-joined text adds the item once to the list it stands for |
| Registry.TokenRepresented | contracts/dex-router-v2/main.go:141-148 | the store after a token registration stands for the registry with the token added once, its chain listed once |
| Registry.PoolRepresented | contracts/dex-router-v2/main.go:206-211 | the store after a pool registration stands for the registry with that unordered pair |
| Registry.FindPoolExact | contracts/dex-router-v2/main.go:356-366 | a lookup with any two strings finds a pool iff that unordered pair was registered |
| Registry.PairExact | contracts/dex-router-v2/main.go:356-366 | a pair is both names without regard to case or order, the smaller first |
| Registry.TokenRules | contracts/dex-router-v2/main.go:49-136 | which tokens are accepted, in the source's own terms |
| Registry.PoolRules | contracts/dex-router-v2/main.go:155-205 | which pairs are accepted: different registered names that no pool is registered for in either order |
| Registry.DedupContents | contracts/dex-router-v2/utils.go:156-171 | what the list parser keeps: each trimmed part that is not blank, once |
| RouterContract.Router.RegisterToken | contracts/dex-router-v2/main.go:49-149 | succeeds exactly under the registration rules, keeps the store standing for the registry, writes this token's entry and no other's, and lists it with the decimals its mapping contract gives, or three |
| RouterContract.Router.RegisterPool | contracts/dex-router-v2/main.go:155-216 | the same for pools |
| RouterContract.Router.UpdateTokensList | contracts/dex-router-v2/utils.go:127-137 | the stored list ends as the text with the name added once |
| RouterContract.Router.GetSchema | contracts/dex-router-v2/main.go:848-890 | lists exactly the registered chains and names, once each, in order of registration, each name with its registered chain, mapping contract and decimals |
| RouterContract.Router.Find | contracts/dex-router-v2/main.go:356-366 | the registered pool of the unordered pair, or the empty string |
| RouterContract.Router.PreFundAsset | contracts/dex-router-v2/main.go:680-711 | the ledger ends as the reference pre-funding says |
| RouterContract.Router.Settle | contracts/dex-router-v2/main.go:564-618 | the ledger ends as the reference settlement says, with the amount, deduct_fee and max_fee of the unmap call; what arrives is reported |
| RouterContract.Router.SettleToEVMBridge | contracts/dex-router-v2/main.go:627-674 | the bridge is asked for the amount less its proof fee, which is charged on top; deduct_fee is set for ETH alone, and what arrives is reported |
| RouterContract.Router.ExecuteTwoHopSwap | contracts/dex-router-v2/main.go:438-557 | the two hops through HBD do to ledger and pools what the reference says |
| RouterContract.Router.Execute | contracts/dex-router-v2/main.go:223-320 | one execute over the pool objects is the reference execute, in amount, amount that arrives, states and ledger; an abort in any contract leaves all of them unchanged |

## Left out

- JSON and tinyjson encoding, logs, decimal parsing of request fields: a field that does not parse is `None` and aborts.
- Which message an abort carries: every abort is the same `None`.
- The mapping contracts' own code, queues and refunds: a withdrawal is one step with its fee as an input.
- Allowances, intents, gas and any refusal of a zero transfer by the host: they can only make a call abort.
- The node's fee formula and its stable pricing: not in this repository, only the two host models above.
- The pool's `fee_bps`: stored and reported, never used in pricing; the store keeps it and no property rests on it.
- Timestamps: the claim time is stored as given and read by nobody.
- Extraction of the router id from the migration payload: the id is an input.
- `get_pool`, `get_token` and the router's `init`: plain reads and one write.
- `return_address` refunds and swap-back after a failed second hop: documented, not implemented; a failed hop aborts everything.
- Lower-casing and trimming beyond ASCII.
- `schemas/`, `cli/`, `init-service/`, `runtime/`: command-line wiring, I/O and a copied allocator.
- StableSwap.GetYConverges: for D of 2^128 and more nothing is claimed about the cap.
- StableSwap.GetDConverges: for reserves adding up to more than 2^147 nothing is claimed about the cap.
- Systems.StepBacked: says nothing about stable pools, whose supply is not bounded by the geometric mean once swaps move along the stable curve.
- Systems.EveryReachableStateIsSound: pools migrated from older layouts are not among the run's actions; `DexPool.DexPool.Migrate` and `PoolCalls.MigratedRun` relate them to pools that are.
