# Verified models of Henar's settlement worker, router scripts and money code

Dafny models of the stateful and arithmetic parts of the repository, each with the properties it exists
for. `dafny verify dfyconfig.toml` checks the whole project.

**Settlement worker** (`SettlementMachine`, `SettlementSafety`, `SettlementJobs`, `SettlementWorker`). Worker, state
directory and chain form one transition system in which every await is a step of its own, so that a crash,
another process, a lagging status read or a chain event may fall between any two. A transaction is *able
to land* while it has been broadcast, is not confirmed, and its blockhash is still accepted. In every run
the journal on disk lists every such transaction under its job, and no job ever has two. The job loop,
`persist`, reconciliation and the dispatcher are methods of a class whose every action is a step of the
system; what the account fetches say is an input, and a due job whose entries are dead dispatches exactly
what they ask for. Status and blockhash are read at two moments, so "expired" means *cannot land any more*, not
*never landed*: exactly how far it can be trusted is a theorem, and a run that shows the difference is
given.

**Rate limiter** (`LimiterMachine`, `LimiterProperties`, `LimiterCode`). The promise chain, its interval
and its retries as a protocol: no overlap, order, spacing, server-ordered waits, a termination measure, no
deadlock. The documented minimum gap holds for exactly the options whose maximum is not below their
minimum (or that never retry); for the others there is a run that breaks it.

**Pool registry** (`PoolOrder`, `Registry`, `RegistryBuilder`, `RegistryLegs`, `RegistryRoutes`,
`RegistryUpserts`, `RegistryForensics`, `RegistryVerification`, `RegistryRuns`). One file, one loader and
seven writers; the comment at `scripts/router/build-pool-registry.ts:597` counts three. A rebuild over its
own output is the identity, down to row order. Any sequence of the seven keeps everything the loader demands
of the file but for two things, and for those the exact condition is given. *Order*: four writers restore it
whatever they find, two keep it, and the append of aggregator pools breaks it unless its rows continue it.
*Refusal*: a lifecycle refresh enables a row again that failed its verification, and then the loader refuses
the whole file; it does so exactly when the row is eligible and reads BONDING. A file that loads still does
after every other write, and any file does after a verification. No row the builder does not own is lost,
while a row an aggregator pool got survives a rebuild exactly when its provider is not public and the
builder does not build the pool itself. The builder never tests that an admitted Orca entry is an exact
pair, the Orca loop of the leg admission never adds to `known`, and neither leg loop tests that a leg's
stock is in its pair: each is stated with the exact condition on the dump.

**Split optimizer** (`SplitSearch`, `SplitConcave`, `SplitCurves`, `SplitPools`, `SplitAllocation`,
`SplitOptimizer`). For arbitrary curves: legs that sum to the amount, shares that sum to 10,000, a total
that refinement never lowers, and a split that beats every single venue. The comment at
`packages/router-core/src/split.ts:279-290` takes the sum of two curves for concave; outputs are whole
numbers, so not even two equal constant-product pools are. What holds is a theorem with slack: when what a
pair makes is within d of a concave function, the boundary found, with steps enough to close the interval,
is at most 2d short of any allocation that leaves the second leg something (at most 3 units for concave
curves rounded down; for constant-product pools with fees d is two units out and what a unit in is worth to
each). It holds up to the capacities of the curves, and when a pair is missed for want of capacity is stated
exactly. With two legs the result is within 2d of every allocation of the whole amount, both ends included;
with one leg it is said how much is lost.

**Calendar** (`Gregorian`, `Calendar`, `CalendarSteps`). Day, week and month stepping and the month grid,
from UTC day numbers (section 21.4.1 of ECMA-262) through the ten-character texts the code passes around.
A day survives its text exactly in the years 100 to 9999; the laws of the steps hold exactly when the day
they pass through lies there; and of all days there are, those strictly between the first and the last month
of these years are the ones whose month grid is right.

**Order book** (`OrderBook`, `DepthLadder`). The greedy fill is optimal among all spending plans within the
price ceiling, and the ladder's depth is the largest size that fills.

**Money** (`Installments`, `Lucky`, `LuckySimulation`). Instalments over a whole DCA schedule, position
values against vault assets, and the Lucky reserve under any interleaving of purchases and rolls.

**Resume and search loops** (`ManifestMachine`, `ManifestProgress`, `Bootstrap`, `RouteGate`). A chunked
upload resumed after crashes while earlier transactions may still land, which plans can be completed at all
and from where, and the select / gate / withdraw loop on top of the
router's own selection with its native preference.

**Codecs** (`Numerals`, `MintCheck`, `CsvExport`). The Base58 key check (the encoding of
draft-msporny-base58) and the CSV export against the grammar of RFC 4180.

## Assumptions

- Chain: a transaction enters a block only while its blockhash is accepted, an expired blockhash stays
  expired, a confirmed transaction stays confirmed, a processed one may be dropped by a fork or confirmed
  at any time. A node may lag behind the chain but reports nothing that did not happen.
- A signature is never produced twice. A transaction is handed to the network by the worker only.
- Rename is atomic and the journal reads back as it was written. The lock file is removed by its owner or,
  after a crash, by the operator, and never while its owner lives.
- The limiter's clock is in whole milliseconds and does not run backwards; a timer never fires early.
- A node answers that a blockhash is invalid only when it has expired (`services/solver/index.ts:35-51`);
  without this two transactions of one job can be in play, by a run that is given.
- Registry: JSON reads back as it was written, distinct representation ids are distinct in the locale
  order, an address belongs to one venue, and the set of qualified intermediates does not change during a
  run. The builder's dumps admit no address twice, the Orca dump of legs repeats none, and a leg's stock is
  one of the two mints of its pair (`scripts/router/admit-routing-legs.ts:240-248` does not test it). The Orca
  census names a pool's mints consistently, as `scripts/router/discover-orca-pools.ts:120-145` writes them,
  and every pool pairs two mints. A lifecycle reading names a successor pool exactly when the successor is
  confirmed, as `packages/venue-meteora-dbc/src/lifecycle.ts:92-126` writes it. A route plan names a pool once.
- The program accepts manifest chunks as `programs/stockroom/src/lib.rs:123-157` and `:316-344` say.

## Model

| member | source | states |
|---|---|---|
| SettlementMachine.StepKeepsInv | services/solver/index.ts:99-165 | every single step of worker, disk, chain, clock or operator, a crash included, keeps: the journal on disk and the one in memory list every transaction able to land, no job has two of those, one process at most, and each await point knows what it needs to know |
| SettlementMachine.RunKeepsInv | services/solver/index.ts:99-181 | the same over a run of any length |
| SettlementMachine.ChainKeepsInv | services/solver/index.ts:116-131 | what the chain does between two awaits (a block, a fork, an expiry, time) only takes abilities to land away |
| SettlementMachine.AllDeadIsQuiet | services/solver/index.ts:116-137 | when every pending entry is confirmed or expired, no transaction of the job is able to land, so the entries may be forgotten |
| SettlementMachine.BroadcastChain | services/solver/transactions.ts:31-36 | handing over a recorded transaction of a job with none able to land leaves that job with one |
| SettlementMachine.PausesAre | services/solver/index.ts:107-155 | a failed job pauses for ten seconds, for twice as long after every further failure, for five minutes at most; a job never seen is due at once |
| SettlementJobs.PackDispatches | services/solver/engine.ts:62-100 | case by case, how many transactions a pack is executed with: an expired one none, a waiting one with its number its resolution and, when that selects it, its swap, a selected one its swap |
| SettlementJobs.PositionDispatches | services/solver/engine.ts:101-190 | and a position: a batch of packs, a harvest, a purchase or an instalment, from the amounts and times on that the worker demands |
| SettlementSafety.EveryRunIsSafe | services/solver/index.ts:99-165 | in every run with crashes and restarts anywhere: each transaction able to land is on disk under its job, a job never has two of them, and two processes never work on one state directory |
| SettlementSafety.RecordedBeforeSent | services/solver/transactions.ts:31-36 | at the moment of sending, the signature is on disk under its job, new to the network, and every earlier transaction of the job is confirmed or expired |
| SettlementSafety.ForgottenOnlyWhenDead | services/solver/index.ts:116-137 | a transaction leaves the journal on disk only when it is confirmed or its blockhash has expired |
| SettlementSafety.RestartKnowsEverything | services/solver/index.ts:80-98 | kill the worker after any action, clear its lock, start another: that run exists, and the new process has loaded every transaction able to land |
| SettlementSafety.DeadStays | services/solver/index.ts:117-131 | what reconciliation concludes about an entry is never withdrawn |
| SettlementSafety.GoneForever | services/solver/index.ts:123-124 | no status and an expired blockhash at one moment: never confirmed later |
| SettlementSafety.ConfirmedForever | services/solver/index.ts:125-130 | confirmed stays confirmed through every action of the system |
| SettlementSafety.ExpiredConfirmsIffProcessed | services/solver/index.ts:118-124 | the exact worth of the expired verdict: the transaction can still take effect if and only if a block held it at that moment |
| SettlementSafety.ReplacementIsNotAlwaysAlone | services/solver/index.ts:118-124 | a run in which status and blockhash, read at two moments, let a replacement out while the first transaction sits in an unconfirmed block and is confirmed later |
| SettlementSafety.SafetyNeedsTrueExpiry | services/solver/index.ts:35-51 | what safety owes to the blockhash answer: if a node called an unexpired blockhash invalid once, a run would leave two transactions of one job able to land |
| SettlementWorker.OutcomeStays | services/solver/index.ts:114-155 | the description of a finished turn stays true through everything that happens until its record is on disk |
| SettlementWorker.Worker.constructor | services/solver/index.ts:80-89 | without a lock file the process takes the lock and is about to load |
| SettlementWorker.Worker.Load | services/solver/index.ts:90-98 | memory becomes what the journal on disk holds at that moment |
| SettlementWorker.Worker.Persist | services/solver/index.ts:99-103 | success puts memory on disk, a throw from either call leaves the disk alone |
| SettlementWorker.Worker.RecordPending | services/solver/index.ts:141-144 | the entry is appended in memory in any case, and is on disk when the call returns |
| SettlementWorker.Worker.Send | services/solver/transactions.ts:33-36 | after a return the transaction is with the network; after a throw it may be |
| SettlementWorker.Worker.AwaitConfirmation | src/lib/protocol/confirmation.ts:3-35 | returns only when the transaction is confirmed and throws otherwise; it asks at most forty times, and throws for lateness only when sixty seconds have passed |
| SettlementWorker.Worker.Signed | services/solver/transactions.ts:20-39 | appends at most one entry; a return means exactly that entry was appended and is confirmed |
| SettlementWorker.Worker.Instructions | services/solver/transactions.ts:40-82 | the same with the blockhash fetched first, which may have expired by the time of signing; it throws only when an outside call has failed |
| SettlementWorker.Worker.Dispatch | services/solver/transactions.ts:20-82 | one more dispatch after earlier ones leaves all of them confirmed |
| SettlementWorker.Worker.ResolvePack | services/solver/engine.ts:69-97 | a waiting pack is resolved exactly when its number is there |
| SettlementWorker.Worker.PackSwap | services/solver/pack-swap.ts:219-299 | a pack that is still selected when looked at again is swapped with one dispatch, any other with none |
| SettlementWorker.Worker.ExecutePack | services/solver/engine.ts:62-100 | a return means that exactly the dispatches the account fetches ask for were made and are confirmed; a throw, that an outside call failed and no more than these were made |
| SettlementWorker.Worker.PositionSwap | services/solver/position-swap.ts:60-232 | one dispatch exactly when the position looked at again is to be filled, has something to spend and its price is met |
| SettlementWorker.Worker.ExecutePosition | services/solver/engine.ts:101-190 | the same for a position: exactly what its fetches ask for, and confirmed |
| SettlementWorker.Worker.CheckEntry | services/solver/index.ts:117-131 | an entry is left unresolved exactly when its status is unconfirmed, or missing while its blockhash is valid; one that is not is confirmed or expired |
| SettlementWorker.Worker.Reconcile | services/solver/index.ts:116-131 | nothing unresolved means every pending entry is confirmed or expired; something unresolved means there was an entry |
| SettlementWorker.Worker.Defer | services/solver/index.ts:132-136 | only the next attempt moves, by twenty seconds, and that is on disk |
| SettlementWorker.Worker.Catch | services/solver/index.ts:150-155 | one more failed attempt, the backoff of that count, pending entries kept |
| SettlementWorker.Worker.Attempt | services/solver/index.ts:137-149 | the old entries are replaced by those of exactly the dispatches the job's accounts ask for; on success all of these are made and confirmed and the failure count is reset; it throws only when an outside call has failed |
| SettlementWorker.Worker.Execute | services/solver/index.ts:137-163 | a reconciled job ends executed, or failed when an outside call has, with the pause that goes with it |
| SettlementWorker.Worker.Turn | services/solver/index.ts:115-163 | one turn changes this job's record only: deferred, which needs an entry to wait for, executed with all its dispatches confirmed, or failed with an outside call; each with its pause |
| SettlementWorker.Worker.RunJob | services/solver/index.ts:105-166 | a job is skipped exactly when it is not due, and otherwise taken; the same from backoff to final persist, which puts the record on disk |
| SettlementWorker.Worker.NextTurn | services/solver/index.ts:105-166 | turns follow one another: each starts from what the ones before left, and what all have left is in the journal |
| SettlementWorker.Worker.Loop | services/solver/index.ts:104-181 | every job of every pass has its turn, in order, unless an outside call fails; what the turns leave is on disk; however it ends, the lock is gone and the run is one of the system |
| SettlementWorker.Serve | services/solver/index.ts:80-181 | a second worker is refused and changes nothing; the admitted one leaves a state in which the journal lists every transaction able to land, and, unless an outside call has failed, has taken a turn of every job and left their outcomes on disk |
| LimiterMachine.StepKeepsInv | scripts/router/rate-limit.ts:59-88 | every step keeps: calls settle in order, one is under way at most, and the log of attempts is correctly spaced and numbered |
| LimiterProperties.Serialised | scripts/router/rate-limit.ts:61-88 | works never overlap, attempts start in call order, and nothing starts during a retried backoff before the larger of interval and server wait has passed |
| LimiterProperties.OneInFlight | scripts/router/rate-limit.ts:82-87 | at most one work runs, and it started after every finished one ended |
| LimiterProperties.IntervalBoundsIff | scripts/router/rate-limit.ts:52-54 | the interval keeps between minimum and maximum in every run if and only if the minimum option does not exceed the maximum option |
| LimiterProperties.WidensByDoubling | scripts/router/rate-limit.ts:73 | rate limits in a row double the interval up to the maximum |
| LimiterProperties.NarrowsToMinimum | scripts/router/rate-limit.ts:68-69 | successes in a row bring it back to the minimum, in at most as many steps as it lies above, and never below |
| LimiterProperties.SpacingIff | scripts/router/rate-limit.ts:63-73 | attempts start the minimum interval apart in every run if and only if the options are consistent or nothing is retried |
| LimiterProperties.TooSoon | scripts/router/rate-limit.ts:73-78 | with a maximum below the minimum, a run whose retry starts too early |
| LimiterProperties.CountIsNumber | scripts/router/rate-limit.ts:62-72 | attempts of a call are numbered without a gap, at most retries + 1 of them |
| LimiterProperties.SettlesWithItsLastReply | scripts/router/rate-limit.ts:62-80 | a call settles with the reply of its last attempt, after which only later calls attempt anything; a rate limit is final only when retries are used up |
| LimiterProperties.OnlyRateLimitsRepeat | scripts/router/rate-limit.ts:62-80 | in every run: after a rate limit that may be retried the next attempt anywhere is the call's own, after the interval and after what the server asked for; after any other reply the call is settled with it and attempts nothing more |
| LimiterProperties.ReplyIs | scripts/router/rate-limit.ts:68-78 | what one reply changes, to the number: success narrows by a tenth and no further than the minimum, a retried rate limit doubles within the bounds and waits for the longer of interval and server wait, anything else leaves the interval |
| LimiterProperties.PauseIs | scripts/router/rate-limit.ts:63-65 | an attempt waits until the interval has passed since the last start, and no longer |
| LimiterProperties.MoveLowersMeasure | scripts/router/rate-limit.ts:59-88 | a termination measure for the whole queue: every move lowers it |
| LimiterProperties.MovesAreBounded | scripts/router/rate-limit.ts:59-88 | once no call joins, moves made plus measure left never exceed the measure at the start |
| LimiterProperties.NeverStuck | scripts/router/rate-limit.ts:82-87 | while a call is unsettled something can move after a finite wait, however earlier calls ended |
| LimiterProperties.QueuedBehindCaller | scripts/router/rate-limit.ts:37-44 | a call queued while its caller works can do nothing until the caller settles, which is why nested calls bypass the queue |
| LimiterCode.Limiter.constructor | scripts/router/rate-limit.ts:52-57 | defaults of sixteen minimum intervals and five retries |
| LimiterCode.Limiter.Try | scripts/router/rate-limit.ts:63-79 | one attempt, begun no earlier than last + interval, ends in a settled call or in the backoff its reply demands |
| LimiterCode.Limiter.Perform | scripts/router/rate-limit.ts:61-81 | settles its call with the reply of its last attempt; all earlier ones were rate limits, and a rate limit is the last only when the retries are used up |
| LimiterCode.Limiter.Limit | scripts/router/rate-limit.ts:59-88 | a nested call goes straight through and leaves queue, interval and clock of last start alone; any other joins the end of the chain |
| LimiterCode.Limiter.Drain | scripts/router/rate-limit.ts:82-87 | every call of the chain settles, each after its predecessor, whatever the replies |
| PoolOrder.SortedIff | scripts/router/build-pool-registry.ts:629-633 | in order means by representation, and within one by value, largest first, unknown values as none |
| PoolOrder.SortSorts | scripts/router/build-pool-registry.ts:629-633 | the output is in the canonical order |
| PoolOrder.SortIsStable | scripts/router/build-pool-registry.ts:629-633 | rows with equal keys keep their order |
| PoolOrder.SortedIsUnique | scripts/router/build-pool-registry.ts:629-633 | a sorted list is fixed by the order of rows within each key, so stable sorting has one result |
| PoolOrder.SortAfterSorting | scripts/router/build-pool-registry.ts:617-633 | sorting built rows followed by already sorted carried rows gives what sorting all rows unsorted gives |
| PoolOrder.FilterOfSort | scripts/router/build-pool-registry.ts:617-633 | filtering a sorted list is sorting the filtered list |
| PoolOrder.AppendSortedIff | apps/router/src/discover-from-jupiter.ts:199 | appending leaves the file in order if and only if both parts are and the first new row does not come before the last old one |
| Registry.ValidatePool | packages/router-core/src/pool-registry.ts:24-92 | the tests one by one find nothing exactly when the row loads |
| Registry.BuildPoolRegistry | packages/router-core/src/pool-registry.ts:94-111 | the loader throws exactly when a row is wrong or an address repeats, and otherwise finds every row, and nothing else, by its address |
| Registry.EligibleIsExactPair | packages/router-core/src/pool-registry.ts:29-38 | the loader's tests together force every ROUTER_ELIGIBLE row to be exactly its own mint and USDC |
| Registry.KeptLoadsIff | packages/router-core/src/pool-registry.ts:24-111 | what the writers keep is all the loader asks but that no row that failed its verification is enabled |
| Registry.IdsAreUnique | scripts/router/build-pool-registry.ts:597-633 | ids are as distinct as addresses |
| RegistryBuilder.ClassifiedIff | scripts/router/build-pool-registry.ts:498-507 | which pairs are classified, with which mint, and that USDC on one side decides the eligibility |
| RegistryBuilder.AdmittedRow | scripts/router/build-pool-registry.ts:243-595 | an admitted row names a verified mint with its representation and its own address, is marked as unverified, and is what the loader demands exactly when its entry is faithful: an Orca entry an exact pair, a curve or its successor a pair of two mints, a reading that names a successor exactly when confirmed |
| RegistryBuilder.AdmittedIff | scripts/router/build-pool-registry.ts:240-595 | from the entry alone: which entries of each venue become rows, what the rows say, and which are enabled (clmm and cpmm but not amm_v4, no census error, not blacklisted, a USDC curve still bonding, a USDC successor; sized venues from a thousand dollars on) |
| RegistryBuilder.EntryIsWritten | scripts/router/build-pool-registry.ts:240-633 | every admitted entry has its row in the written file, enabled exactly when the entry is usable |
| RegistryBuilder.EnabledIff | scripts/router/build-pool-registry.ts:240-634 | whatever the file said before, every row the builder owns or builds is that of an admitted entry, and is enabled exactly when that entry is usable |
| RegistryBuilder.Rebuild | scripts/router/build-pool-registry.ts:240-634 | the building loops, the carry-over filter and the sort compute the file the theorems speak of |
| RegistryBuilder.RebuildIsIdempotent | scripts/router/build-pool-registry.ts:613-633 | building again over its own output, from the same dumps and timestamp, returns the same list down to row order |
| RegistryBuilder.RebuildContents | scripts/router/build-pool-registry.ts:613-619 | the output holds exactly the built rows and, unchanged, every row that is neither the builder's nor built anew |
| RegistryBuilder.BuiltIsOkIff | scripts/router/build-pool-registry.ts:321-385 | the built rows are all what the loader demands if and only if the admitted entries are faithful, which the builder itself never tests |
| RegistryBuilder.BuiltDistinctIff | scripts/router/build-pool-registry.ts:217-595 | the built rows repeat no address if and only if no two admitted entries share one, whatever the rejected ones do |
| RegistryBuilder.RebuildKeeps | scripts/router/build-pool-registry.ts:613-633 | whatever the order of the file it reads, a rebuild leaves it in order, keeps what the loader demands, and enables no row that failed its verification |
| RegistryLegs.AdmitLegs | scripts/router/admit-routing-legs.ts:153-303 | the two admission loops over `known` and the merge compute the file the theorems speak of |
| RegistryLegs.OrcaLegsAre | scripts/router/admit-routing-legs.ts:157-221 | the Orca rows are exactly those of the new, usable, valued legs |
| RegistryLegs.OrcaLegsDistinctIff | scripts/router/admit-routing-legs.ts:157-221 | they repeat no address if and only if no two such legs of the dump share one: the loop never adds to `known` |
| RegistryLegs.RaydiumLegsAreNew | scripts/router/admit-routing-legs.ts:238-293 | whatever the dump repeats, the Raydium rows are those of new, usable, valued legs, right and distinct |
| RegistryLegs.NoLegIsDropped | scripts/router/admit-routing-legs.ts:238-293 | every usable, valued Raydium leg not yet known is represented, by the first of its address |
| RegistryLegs.RepeatedOrcaLegIsWrittenTwice | scripts/router/admit-routing-legs.ts:157-221 | a leg the Orca dump repeats is written twice, one the Raydium dump repeats once |
| RegistryLegs.LegsKeep | scripts/router/admit-routing-legs.ts:153-303 | admitting legs to a file in any order leaves it in order, keeps what the loader demands, and enables no failed row |
| RegistryLegs.LegRowIsOkIff | scripts/router/admit-routing-legs.ts:159-292 | an admitted leg's row is what the loader demands if and only if the leg is of a stock and its mint is one of the two different mints of its pair, which neither loop tests |
| RegistryLegs.RaydiumLegsAre | scripts/router/admit-routing-legs.ts:238-293 | the Raydium rows are exactly those of the first candidate of each address |
| RegistryLegs.LegsHeldIff | scripts/router/admit-routing-legs.ts:159-292 | the loader would take all rows of a dump if and only if the legs written from it are such, all candidates for Orca and the first of each address for Raydium |
| RegistryLegs.LegsContents | scripts/router/admit-routing-legs.ts:153-303 | the written file holds the old rows and those of the candidates, of Raydium the first of each address, and nothing else |
| RegistryLegs.AdmissibleLegIff | scripts/router/admit-routing-legs.ts:159-252 | a leg is admissible exactly when the mint opposite the stock is a qualified intermediate other than USDC and it can be valued |
| RegistryLegs.LegRowIs | scripts/router/admit-routing-legs.ts:192-292 | what its row says, and why it is disabled |
| RegistryRoutes.AssetRoutes | scripts/router/discover-intermediate-routes.ts:66-109 | at most three pools an intermediate |
| RegistryRoutes.FullIsFull | scripts/router/discover-intermediate-routes.ts:67 | the break after the third pool loses nothing the loop would have admitted |
| RegistryRoutes.AdmitAsset | scripts/router/discover-intermediate-routes.ts:65-109 | the inner loop with its cap and its growing `known` computes the specified rows |
| RegistryRoutes.AdmitRoutes | scripts/router/discover-intermediate-routes.ts:50-117 | the outer loop and the merge compute the file the theorems speak of |
| RegistryRoutes.NoRouteIsDropped | scripts/router/discover-intermediate-routes.ts:66-109 | an admissible pool is left out only when three have been taken |
| RegistryRoutes.AdmissibleIff | scripts/router/discover-intermediate-routes.ts:66-109 | exactly which listed pools are admissible: new concentrated pools of a qualified intermediate and USDC from ten thousand dollars on |
| RegistryRoutes.RouteRowIs | scripts/router/discover-intermediate-routes.ts:70-108 | what their rows say |
| RegistryRoutes.RoutesContents | scripts/router/discover-intermediate-routes.ts:110-117 | the written file holds the old rows and the admitted ones, and nothing else |
| RegistryRoutes.RoutesOfAsset | scripts/router/discover-intermediate-routes.ts:50-117 | what one intermediate contributes reaches the written file whatever the later ones do |
| RegistryRoutes.AllRoutesAreFresh | scripts/router/discover-intermediate-routes.ts:56-111 | whatever the API lists, and however often, the rows are new, distinct, right, exact pairs of their intermediate with USDC, above the record floor, and enabled exactly from the enabling floor on |
| RegistryRoutes.RoutesKeep | scripts/router/discover-intermediate-routes.ts:50-117 | the same for intermediate routes, whatever the API lists |
| RegistryUpserts.UpsertInPlace | scripts/router/discover-private-markets.ts:193 | a key keeps its place when its value changes, a new one goes last, every other row stays where it is |
| RegistryUpserts.FromDistinctRows | scripts/router/discover-private-markets.ts:114 | turning a file of distinct addresses into a map and back changes nothing |
| RegistryUpserts.PrivateRowIsOk | scripts/router/discover-private-markets.ts:128-193 | an upserted row is right, ROUTER_ELIGIBLE exactly for the pair of the product with USDC, enabled exactly from the floor on, and keeps the discovery time of the row it replaces |
| RegistryUpserts.RoutableIff | scripts/router/discover-private-markets.ts:128-193 | exactly which pools of a product reach the registry, and what their rows say |
| RegistryUpserts.LatestWins | scripts/router/discover-private-markets.ts:119-193 | the last report of a pool replaces its row, and keeps only when it was first discovered |
| RegistryUpserts.DiscoverPrivate | scripts/router/discover-private-markets.ts:113-202 | the scan loops, the upserts and the sort compute the file the theorems speak of |
| RegistryUpserts.NoPoolIsDropped | scripts/router/discover-private-markets.ts:119-202 | every routable pool any product's scan reports is in the written file under its own id, whatever later scans upsert |
| RegistryUpserts.PrivateKeeps | scripts/router/discover-private-markets.ts:113-202 | discovering private markets leaves the file in order, keeps what the loader demands, and enables no failed row |
| RegistryUpserts.UnscannedStaysInAll | scripts/router/discover-private-markets.ts:119-202 | a row whose address no scan reports stays as it is |
| RegistryUpserts.RefreshLifecycle | scripts/router/refresh-dbc-lifecycle.ts:24-53 | the in-place refresh of the array, row by row |
| RegistryUpserts.RefreshKeeps | scripts/router/refresh-dbc-lifecycle.ts:24-53 | the refresh keeps order, addresses, ids and what the loader demands, a curve that has left bonding disabled among it, except as the next two rows say |
| RegistryUpserts.RefreshRefusesIff | scripts/router/refresh-dbc-lifecycle.ts:24-53 | a refreshed row takes its curve block from the reading and is enabled exactly when it is ROUTER_ELIGIBLE and BONDING; it is one the loader refuses if and only if it also failed its verification |
| RegistryUpserts.RefreshLoadsIff | scripts/router/refresh-dbc-lifecycle.ts:46-52 | the loader takes the refreshed file if and only if it has no such row |
| RegistryUpserts.RefreshTwice | scripts/router/refresh-dbc-lifecycle.ts:33-44 | refreshing twice from the same readings is refreshing once, and the first confirmation time of a successor survives until it is found unconfirmed |
| RegistryForensics.CollectCandidates | apps/router/src/discover-from-jupiter.ts:109-124 | the candidates are the first hop of every pool neither in the file nor named before |
| RegistryForensics.DiscoverFromJupiter | apps/router/src/discover-from-jupiter.ts:106-200 | pushing rows unsized, sizing them in a second pass and appending them gives the file the theorems speak of |
| RegistryForensics.ForensicRowIsOk | apps/router/src/discover-from-jupiter.ts:139-198 | a row is appended only for an account of the venue's program that pairs exactly the stock with USDC, and is then what the loader demands, unverified and never enabled, whatever its size |
| RegistryForensics.CandidatesAreNew | apps/router/src/discover-from-jupiter.ts:107-118 | no candidate is known or named twice, however often the plans name it, and no unknown pool of a plan is left out |
| RegistryForensics.AddedAre | apps/router/src/discover-from-jupiter.ts:133-177 | the appended rows are exactly those of the confirmed candidates |
| RegistryForensics.ForensicRowIs | apps/router/src/discover-from-jupiter.ts:139-198 | exactly when an account confirms a candidate, and what its row says: twice the USDC side as its value, and the reason it stays disabled |
| RegistryForensics.ForensicsKeep | apps/router/src/discover-from-jupiter.ts:199-200 | the append keeps what the loader demands; the order survives if and only if the appended rows are in order and continue the file's |
| RegistryForensics.ForensicsBreakOrder | apps/router/src/discover-from-jupiter.ts:199 | one confirmed new pool of a representation before the last row's is enough to break it |
| RegistryForensics.ForensicRowSurvivesIff | scripts/router/build-pool-registry.ts:613-619 | an appended row outlives a rebuild if and only if its provider is not public and the builder builds no row of its id; its pool stays in the file if and only if one of the two rows does |
| RegistryVerification.VerifyPools | apps/router/src/verify-pools-cli.ts:36-51 | the dictionary of targets and the merge compute the file the theorems speak of |
| RegistryVerification.RowByRow | apps/router/src/verify-pools-cli.ts:36-51 | with distinct addresses each target row is verified by its own outcome and every other row stays |
| RegistryVerification.AppliedIsOk | packages/router-core/src/verify-pools.ts:84-100 | a verified row takes the outcome and its time, is disabled exactly when that is a failure, and is otherwise as it was; it keeps what the loader demands and its place in the order |
| RegistryVerification.VerifyingHeals | packages/router-core/src/verify-pools.ts:84-100 | whatever refused rows the file had and whatever the chain says, the loader takes it after the pass, in the order it was in |
| RegistryRuns.AnyOrderKeeps | scripts/router/build-pool-registry.ts:597-633 | any sequence of the seven writers keeps addresses and ids unique and all the loader demands of a row (every ROUTER_ELIGIBLE row its mint with USDC, `enabled` equivalent to an absent reason, a curve past bonding disabled), but that a failed row is disabled |
| RegistryRuns.WriteKeeps | scripts/router/build-pool-registry.ts:597-633 | one run of any of the seven keeps the same |
| RegistryRuns.WriteSortsIff | scripts/router/build-pool-registry.ts:629-633 | which writes leave the file in order: four always, the refresh and the verification when it was, the aggregator's append when it was and its rows continue it |
| RegistryRuns.OrderIsRestored | scripts/router/build-pool-registry.ts:629-633 | whatever disorder came before, any of the four restores the order, and it lasts through every writer until the next aggregator append |
| RegistryRuns.WriteLoadsIff | packages/router-core/src/pool-registry.ts:94-111 | after any write to a file that loads the loader takes it, if and only if the write was not a refresh that enabled a failed row |
| RegistryRuns.RunLoads | packages/router-core/src/pool-registry.ts:94-111 | so after every run without such a refresh |
| RegistryRuns.VerifiedRunLoads | apps/router/src/verify-pools-cli.ts:36-52 | and after every run whatever that ends with a verification |
| RegistryRuns.VerifyThenRefresh | scripts/router/refresh-dbc-lifecycle.ts:46-52 | the failing run: any enabled eligible curve that fails its verification and is still found bonding makes the loader refuse the whole file |
| RegistryRuns.NoForeignRowIsLost | scripts/router/build-pool-registry.ts:613-619 | no row that is neither the builder's own nor a curve is lost or changed by any sequence of writers none of which records it anew |
| RegistryRuns.NoForeignPoolIsLost | scripts/router/build-pool-registry.ts:613-619 | and no pool whose row is not the builder's leaves the file in any sequence of writers, curves and rows recorded anew included, as long as no rebuild builds it |
| RegistryRuns.StaleInfrastructureStays | scripts/router/build-pool-registry.ts:613-617 | the builder's own paired-infrastructure rows are carried through every later rebuild whose dumps no longer hold the pool |
| Gregorian.WeekDays | src/components/markets-calendar.tsx:69-73 | the week day of every day, from its successor and two known dates: a day is a Sunday exactly when it lies a whole number of weeks from 2 January 2000 |
| Gregorian.MonthsAre | src/components/markets-calendar.tsx:62-67 | the lengths of the months of every year |
| Gregorian.YearIs | src/components/markets-calendar.tsx:47-54 | the year of a day is the only one whose days include it |
| Gregorian.MakeOfParts | src/components/markets-calendar.tsx:49-54 | taking a UTC day apart and putting it together again returns it |
| Gregorian.PartsOfMake | src/components/markets-calendar.tsx:49-54 | putting a valid date together and taking it apart again returns its parts |
| Calendar.RoundTripIff | src/components/markets-calendar.tsx:47-54 | `parseDay` undoes `isoDay` if and only if the year lies in 100 to 9999 |
| Calendar.IsoDayReads | src/components/markets-calendar.tsx:52-54 | the text has four digits for the year, two for the month counted from one and two for the day |
| Calendar.YearsAreRead | src/components/markets-calendar.tsx:47-50 | years are read as written, but for those below a hundred, which are of the 1900s |
| Calendar.NegativeText | src/components/markets-calendar.tsx:47-54 | the text of a day of a negative year is read as a later day, in 1900 or after |
| CalendarSteps.Date.SetUTCDate | src/components/markets-calendar.tsx:56-60 | setting the day of the month moves the date by the difference, over any number of months |
| CalendarSteps.Date.SetUTCMonth | src/components/markets-calendar.tsx:62-67 | setting the month keeps the day of the month, over any number of years |
| CalendarSteps.AddDays | src/components/markets-calendar.tsx:56-60 | the mutations of `addDays` are that many days later |
| CalendarSteps.AddMonths | src/components/markets-calendar.tsx:62-67 | the mutations of `addMonths` are the first of that many months later |
| CalendarSteps.StartOfWeek | src/components/markets-calendar.tsx:69-73 | the mutation of `startOfWeek` is the Sunday not after the day |
| CalendarSteps.AddDaysComposes | src/components/markets-calendar.tsx:56-60 | adding a and then b is adding a + b |
| CalendarSteps.AddDaysUndone | src/components/markets-calendar.tsx:56-60 | adding a and then -a returns the text |
| CalendarSteps.AddMonthsLandsOnFirst | src/components/markets-calendar.tsx:62-67 | the result is the first of the month that many months away, across years |
| CalendarSteps.AddMonthsComposes | src/components/markets-calendar.tsx:62-67 | month steps add up |
| CalendarSteps.AddDaysComposesIff | src/components/markets-calendar.tsx:56-60 | for every text and step: adding a and then b is adding a + b for all b if and only if the day between lies in the years 100 to 9999 |
| CalendarSteps.AddDaysUndoneIff | src/components/markets-calendar.tsx:56-60 | going a days and back returns if and only if the day there lies in those years |
| CalendarSteps.AddMonthsLandsIff | src/components/markets-calendar.tsx:62-67 | the result is read as the first of the month aimed at if and only if that month lies in those years |
| CalendarSteps.AddMonthsComposesIff | src/components/markets-calendar.tsx:62-67 | month steps add up if and only if the month between lies in those years |
| CalendarSteps.StartOfWeekIdempotentIff | src/components/markets-calendar.tsx:69-73 | the start of a week is its own start if and only if it lies in those years |
| CalendarSteps.StartOfWeekIdempotent | src/components/markets-calendar.tsx:69-73 | the start of the week of a week's start is itself |
| CalendarSteps.WeeksPartition | src/components/markets-calendar.tsx:69-73 | starts are Sundays, a whole number of weeks from 2 January 2000, and two days share one exactly when one lies within seven days of the other's start |
| CalendarSteps.MonthGrid | src/components/markets-calendar.tsx:76-92 | push, advance and splice compute the grid the theorems speak of, for any text |
| CalendarSteps.MonthDays | src/components/markets-calendar.tsx:76-92 | the days of a month are those from its first up to the next first |
| CalendarSteps.GridLengthIs | src/components/markets-calendar.tsx:84-90 | the sixth row is kept exactly when the month reaches its first day |
| CalendarSteps.GridIsRight | src/components/markets-calendar.tsx:76-92 | 35 or 42 consecutive days from a Sunday, every text meaning its day, the whole month among them, a sixth row exactly when a day of the month lies in it |
| CalendarSteps.January100 | src/components/markets-calendar.tsx:76-92 | the grid of January of the year 100 is wrong: its Sunday is read as a day of 1999 |
| CalendarSteps.December9999 | src/components/markets-calendar.tsx:76-92 | the grid of December 9999 is wrong: its last row leaves the four-digit years |
| CalendarSteps.GridRightIff | src/components/markets-calendar.tsx:76-92 | for every day there is the grid exists and is right if and only if its month lies strictly between January 100 and December 9999 |
| OrderBook.FillFromAsks | scripts/router/discover-manifest-markets.ts:78-96 | the walk computes the fill the theorems speak of, for any levels, amount and ceiling |
| OrderBook.QuoteIs | scripts/router/discover-manifest-markets.ts:91-92 | a fill states the price at which what it obtains costs the amount |
| OrderBook.LevelIs | scripts/router/discover-manifest-markets.ts:84-91 | which levels are crossed, and what they sell at their price |
| OrderBook.GreedySpendsAll | scripts/router/discover-manifest-markets.ts:78-96 | a completed fill is a spending plan within level sizes and ceiling that spends the amount exactly |
| OrderBook.Exchange | scripts/router/discover-manifest-markets.ts:84-94 | the walk beats any other plan by at least what the difference in spending buys at the last price touched |
| OrderBook.GreedyIsOptimal | scripts/router/discover-manifest-markets.ts:78-96 | on an ascending book no other plan of the same spending or less, within the ceiling, obtains more base |
| OrderBook.FillsIff | scripts/router/discover-manifest-markets.ts:84-95 | an amount fills if and only if the levels within the ceiling can absorb it |
| OrderBook.SmallerFillsCheaper | scripts/router/discover-manifest-markets.ts:78-96 | if a larger amount fills a smaller one does, at an average price no higher |
| OrderBook.AverageWithinCeiling | scripts/router/discover-manifest-markets.ts:84-91 | the average price never exceeds the ceiling |
| DepthLadder.Market.Measure | scripts/router/discover-manifest-markets.ts:183-193 | one quote a size, and the depth is the last size that filled |
| DepthLadder.LadderIs | scripts/router/discover-manifest-markets.ts:32-193 | the sizes of the ladder and what its rows record |
| DepthLadder.DepthIsLargestFill | scripts/router/discover-manifest-markets.ts:32-193 | on an ascending book the depth is the largest size that fills, every size up to it is recorded as filled and none above it, and average prices rise |
| Installments.StepIsCovered | services/solver/position-swap.ts:44-58 | budget, trade fee and remaining principal together never exceed position value plus claimable |
| Installments.StepIsNonNegative | services/solver/position-swap.ts:44-58 | with share and carry below their denominators none of them is negative |
| Installments.StepIsEqualShare | services/solver/position-swap.ts:44-58 | what is spent is one equal share of the principal plus one of the yield net of its fee, the rest of the principal remains, and the trade fee is taken of the sum, each rounded down |
| Installments.NothingAfterTheLastStep | services/solver/position-swap.ts:53-54 | when no step remains nothing is spent |
| Installments.NextShare | services/solver/position-swap.ts:50-57 | taking the floor of an equal share away leaves equal shares that are as large or one larger |
| Installments.ScheduleSpendsPrincipal | services/solver/position-swap.ts:44-58 | over a whole flat schedule the instalments sum to the principal exactly, never decrease, and each is the floor or the ceiling of an equal share |
| Installments.SwapInput | services/solver/position-swap.ts:92-106 | an input is positive and within both caps, equal to the capped yield or to the instalment less its margin; exactly the unaffordable ones are refused, and exactly the affordable instalments whose margin leaves nothing are passed over |
| Installments.NavsWithinAssets | services/solver/engine.ts:153-157 | positions whose shares are among the issued ones never sum above the vault's assets |
| Installments.NavIs | services/solver/engine.ts:153-157 | a position's value is its share of the vault's assets, rounded down, and nothing while no shares are issued |
| Lucky.LuckyPayout | src/lib/lucky.ts:10-29 | the threshold loop pays what the table says, and throws exactly on invalid stakes, buckets and overflow |
| Lucky.PayoutTable | src/lib/lucky.ts:2-29 | the payout table in numbers |
| Lucky.EscrowCoversReward | src/lib/lucky.ts:30-38 | a stake that was reserved is always paid without overflow, at most twice the stake, and one bucket pays exactly that |
| Lucky.ReturnIs95PercentIff | src/lib/lucky.ts:2-8 | over all buckets a stake returns 95 percent if and only if it is a multiple of four base units, and never more |
| Lucky.StepKeepsSolvent | scripts/simulate-lucky.ts:24-53 | every purchase and every settlement conserves the total and keeps the reserve from going negative |
| Lucky.AlwaysSolvent | scripts/simulate-lucky.ts:15-59 | in any interleaving of purchases, first and second rolls: reserve, payouts, fees and twice the open stakes add up, the reserve is never negative, and every open roll can be settled within its escrow whatever its bucket |
| Lucky.AtMostTwoRolls | scripts/simulate-lucky.ts:34-53 | settlements made and still possible never exceed two a pack |
| LuckySimulation.Generator.Bucket | scripts/simulate-lucky.ts:3-9 | the generator's bucket is always below one hundred |
| LuckySimulation.BucketIs | scripts/simulate-lucky.ts:3-9 | the bucket is the hundredth part of the seed's range, rounded down, and the first draw of the known seed |
| LuckySimulation.Simulation.Purchases | scripts/simulate-lucky.ts:23-33 | each attempt is accepted while the reserve holds a stake, and blocked only once it does not |
| LuckySimulation.Simulation.FirstRoll | scripts/simulate-lucky.ts:35-48 | a first roll pays what the next bucket says, and becomes a second roll exactly when the policy asks for one and the reserve covers it |
| LuckySimulation.Simulation.SecondRoll | scripts/simulate-lucky.ts:49-53 | a second roll pays what the next bucket says |
| LuckySimulation.Simulation.Batch | scripts/simulate-lucky.ts:22-59 | a batch leaves nothing open, has made every first roll and every second one its policy grants, conserves the total, and does not trip the solvency check |
| LuckySimulation.Simulation.Stress | scripts/simulate-lucky.ts:15-59 | fifty batches never trip it, and every attempt was accepted or blocked |
| SplitSearch.RefineBoundary | packages/router-core/src/split.ts:291-323 | the loop with its two exits computes the search the theorems speak of, for any curves, total and number of steps |
| SplitSearch.FoundIff | packages/router-core/src/split.ts:305-322 | whatever the curves, what is found can be given to the pair as it stands; something is found if and only if the pair can be filled at an end or at one of the first two thirds |
| SplitConcave.StepCovers | packages/router-core/src/split.ts:305-319 | when what the pair makes is within d of a concave function over the allocations it can fill, nothing in the third a step gives up is more than 2d better than what has been seen, and the next step can be filled at a third again |
| SplitConcave.NearlyBest | packages/router-core/src/split.ts:279-323 | so, with steps enough to close the interval, no allocation that leaves the second leg anything is more than 2d better than the one found, for a pair that can be filled over more than a third of the interval or over a third at one end |
| SplitConcave.MissedIff | packages/router-core/src/split.ts:313-316 | a pair that can be filled exactly between two amounts is missed if and only if these lie strictly between two neighbours of nothing, a third, two thirds and everything |
| SplitConcave.BestOfAllIff | packages/router-core/src/split.ts:279-323 | without slack (d = 0) the boundary found is the best short of the end, and the best of all if and only if the last unit given to the first leg gains nothing |
| SplitCurves.PairIsNear | packages/router-core/src/split.ts:279-290 | two curves with capacities, each within a slack of a concave function, are together within both slacks of a concave function, over exactly the allocations their capacities leave |
| SplitCurves.RoundedPairIsNearlyBest | packages/router-core/src/split.ts:279-323 | on two concave curves rounded down, with capacities, the boundary found is at most three units short |
| SplitCurves.EndIsNoBetter | packages/router-core/src/split.ts:176-193 | once the second leg has won a chunk against the first, giving the first everything they have is no better than leaving the second its last unit, but for the slack (exactly so without slack): the one allocation the search never looks at |
| SplitPools.PoolIs | packages/router-core/src/split.ts:379-396 | the pool answers exactly when what the fee leaves is no more than its input reserve; then the product of the reserves does not fall, and would for one unit more |
| SplitPools.PoolWithin | packages/router-core/src/split.ts:379-396 | a constant-product pool, its fee and its output both rounded, fills exactly up to its capacity and stays within one unit out, and what a unit in is worth at most, of a concave function |
| SplitPools.PoolsAreNearlyBest | packages/router-core/src/split.ts:279-396 | so on two such pools, whatever their reserves and fees, the boundary found is at most twice both slacks short |
| SplitPools.RoundingIsNotConcave | packages/router-core/src/split.ts:279-290 | some slack is needed: no concave function agrees with what two equal pools of a thousand make of four units |
| SplitAllocation.UsableAre | packages/router-core/src/split.ts:155-157 | the available curves and no others take part |
| SplitAllocation.Chunks | packages/router-core/src/split.ts:141-152 | as many equal chunks as the granularity says, the last with a remainder of less than one unit a chunk; an amount smaller than the granularity stays whole |
| SplitAllocation.BestGain | packages/router-core/src/split.ts:176-185 | the first curve whose output gains most by the chunk among those that may take it and can fill it, and nothing exactly when there is none |
| SplitAllocation.PlaceChunk | packages/router-core/src/split.ts:176-193 | a chunk goes to the first curve that gains most by it, no leg is opened beyond the limit, and it is not placed exactly when no curve that may take it can fill it |
| SplitAllocation.Allocate | packages/router-core/src/split.ts:168-196 | chunk after chunk goes where it gains most, until one cannot be placed or the whole amount is given to at most the permitted number of curves; curves that can fill everything leave none unplaced |
| SplitAllocation.RefinePair | packages/router-core/src/split.ts:217-232 | two curves share what they had together, and settle at no less than what the search finds for them; the total rises when anything changes and never falls, and no other leg is touched |
| SplitAllocation.Refine | packages/router-core/src/split.ts:203-248 | over all sweeps no amount is lost, no total lowered, no new leg opened; a sweep that finds nothing leaves every pair settled, two legs always end settled, and sweeping stops earlier only after four that each gained |
| SplitOptimizer.OrderedDescends | packages/router-core/src/split.ts:358-360 | published legs come in descending amounts, equal ones by venue |
| SplitOptimizer.Finish | packages/router-core/src/split.ts:341-377 | every published leg is a different curve filled with its amount; amounts, outputs and shares sum to the whole; each share but the last is rounded down, the last never less than its own, and none negative |
| SplitOptimizer.BestSingle | packages/router-core/src/split.ts:161-166 | the best positive output of a venue that can take the whole amount, found whenever there is one |
| SplitOptimizer.Choose | packages/router-core/src/split.ts:250-276 | the single venue or the split, whichever makes more: the result is worth at least what the legs make and every single venue |
| SplitOptimizer.SweptIsNearlyBest | packages/router-core/src/split.ts:210-236 | when a sweep finds nothing, no pair of any number of nearly concave legs could share what it has more than 2d better, short of giving the second nothing |
| SplitOptimizer.TwoLegsAreNearlyBest | packages/router-core/src/split.ts:154-277 | with two legs of a nearly concave pair the result is at most 2d short of every allocation of the whole amount, the missed end included, as that end is a single venue |
| SplitOptimizer.OneLegIsShort | packages/router-core/src/split.ts:176-193 | with one leg, an allocation that gives another venue a chunk or more is better by at most d a chunk, and one that gives it less by at most what that venue makes of it |
| SplitOptimizer.OptimizeSplit | packages/router-core/src/split.ts:154-277 | for arbitrary curves the result is that of the two phases: legs sum to the amount and shares to 10,000, a split has two to the permitted number of legs and beats every single venue, a single result equals the best of them, and without a result no venue alone could fill the amount; for nearly concave pairs the two rows before, the one-leg bound at a chunk of no more than the amount over the granularity, plus the granularity |
| ManifestMachine.AcceptedChunkContinues | programs/stockroom/src/lib.rs:316-344 | the program accepts a chunk of the plan only where the uploaded list ends: a late earlier chunk repeats a mint |
| ManifestMachine.StepKeepsInv | scripts/bootstrap-mainnet.ts:157-215 | every step of any number of runs and of the chain keeps: the list is a prefix of the plan, and complete once a run has checked its length |
| ManifestMachine.ActivatedIsThePlan | scripts/bootstrap-mainnet.ts:157-215 | whatever prefix crashed runs left and whichever of their appends land late, an activated manifest holds the plan exactly and a finished run leaves it sealed |
| ManifestMachine.OnlyExtendsAPrefix | scripts/bootstrap-mainnet.ts:157-206 | every step leaves the list or extends a prefix of the plan to a longer one; a foreign list is never touched |
| ManifestProgress.AcceptsIff | programs/stockroom/src/lib.rs:124-156 | the program takes new stocks exactly when the list they make holds 64 at most and no mint twice, never into a sealed manifest, and seals any list but an empty one |
| ManifestProgress.NextChunkIsTaken | scripts/bootstrap-mainnet.ts:174-205 | from any point of a plan that fits, the next chunk is taken and brings the account four stocks further or to the end |
| ManifestProgress.CompletesIff | scripts/bootstrap-mainnet.ts:157-215 | from any account the program can hold, some run completes exactly when the plan is not empty and fits and the account is missing or holds a non-empty first part of it, not sealed too early |
| Bootstrap.Bootstrapper.IsPrefix | scripts/bootstrap-mainnet.ts:158-176 | the comparison loop passes exactly the prefixes of the plan |
| Bootstrap.Bootstrapper.SendChunk | scripts/bootstrap-mainnet.ts:182-205 | a return means the chunk landed and the loop may advance by four |
| Bootstrap.Bootstrapper.Upload | scripts/bootstrap-mainnet.ts:157-215 | a run that returns leaves the plan, and nothing else, in a sealed manifest; one that throws has had a call fail, or found something else uploaded, or had nothing to upload |
| RouteGate.SelectionIsBest | apps/router/src/api.ts:197-234 | nothing is selected exactly when nothing is executable; the selection is at least as good as every native route, and as the best route unless it is native and within the preference of it |
| RouteGate.NativeIsSelectedIff | apps/router/src/api.ts:219-234 | a native route is selected if and only if some native route falls short of the best by less than the preference plus one basis point, and then it is the best native one; otherwise the best is selected |
| RouteGate.SelectThroughGate | scripts/router/benchmark-matrix.ts:343-355 | the loop ends, with nothing, a route that is not native, or a native one that passed; what was withdrawn is what the gate refused, and nothing else |
| RouteGate.GatedSelection | scripts/router/benchmark-matrix.ts:343-355 | every native route that outranks the outcome was refused, and nothing is left exactly when every executable route was refused |
| RouteGate.GapIsNotNegative | scripts/router/benchmark-matrix.ts:334-362 | the best approved price is at least the outcome's, so the reported gap is never negative |
| RouteGate.ReportedGapIs | scripts/router/benchmark-matrix.ts:334-362 | the reported gap in hundredths of a basis point of what was seen, rounded down |
| RouteGate.ObservedIsBest | scripts/router/benchmark-matrix.ts:334-362 | what was seen is the best approved price |
| MintCheck.CheckMint | scripts/import-stock-catalog.py:31-38 | accumulation, bit length and stripped ones decide the specified acceptance, and a foreign character refuses |
| MintCheck.Alphabet | scripts/import-stock-catalog.py:31-33 | the alphabet is the digits and letters but for 0, O, I and l, in ascending order |
| MintCheck.SizeIsKeyLength | scripts/import-stock-catalog.py:35 | the computed size is the number of bytes of the decoded key |
| MintCheck.AcceptedIff | scripts/import-stock-catalog.py:31-38 | a text passes if and only if it is the Base58 encoding of some 32-byte key |
| MintCheck.EncodingIsInjective | scripts/import-stock-catalog.py:31-38 | and that key is unique: distinct keys of any lengths have distinct encodings |
| MintCheck.LeadingOnesStandForZeroBytes | scripts/import-stock-catalog.py:35 | an encoding has as many leading '1's as its key has leading zero bytes |
| Numerals.RebaseBack | scripts/import-stock-catalog.py:33-35 | changing the base of a numeral, leading zeros kept, and changing it back returns it |
| CsvExport.ContentIff | src/components/admin-dashboard.tsx:160-161 | a text is read by the rule for escaped content as a value if and only if it is that value with its quotes doubled |
| CsvExport.EscapedIff | src/components/admin-dashboard.tsx:160-161 | and as an escaped field if and only if it is what the exporter prints for the value |
| CsvExport.ContentEnds | src/components/admin-dashboard.tsx:160-161 | the closing quote of a field cannot be mistaken for a doubled one |
| CsvExport.RecordIsUnique | src/components/admin-dashboard.tsx:160-161 | where a printed record starts the grammar reads no other record |
| CsvExport.ExportDerives | src/components/admin-dashboard.tsx:160-162 | the text is derivable by section 2 of RFC 4180 as the rows printed |
| CsvExport.ParsesBackOnlyToItself | src/components/admin-dashboard.tsx:140-162 | a table is read from the text by that grammar if and only if it is the one printed, for all field contents |

## Left out

- SettlementMachine.StepKeepsInv: does not model a transaction that fails on chain apart from the throw it causes; its signature counts as confirmed, as the reconciliation at `services/solver/index.ts:125-130` counts it.
- SettlementWorker.Worker.ExecutePack: which accounts a dispatch touches and how a route is searched are not modelled; policy, budget and quote checks are outside calls that may throw.
- SettlementWorker.Worker.Loop: the stop signal, `updatedAt`, `health.json` and the pause between passes are not modelled; a pass may end early and the list of passes is arbitrary.
- LimiterCode.Limiter.Limit: the re-entrancy store is the flag `inside`; how AsyncLocalStorage sets it is not modelled, nor are labels and the backoff callback.
- LimiterCode.Limiter.Try: the narrowing factor 0.9 is nine tenths of a whole number rounded down, not a product of doubles; which errors are rate limits is an input.
- Calendar.RoundTripIff: asks for years of at most six digits, more than any Date has. A step beyond the range of Dates (100 million days around 1970) throws in the code and does not here; the laws of CalendarSteps ask for days or years within it. `Number`'s other numeral forms (signs, exponents, hexadecimal) are not modelled; texts of steps never contain them, but a caller's text could.
- OrderBook.FillFromAsks: prices and quantities are reals; rounding of doubles is not modelled.
- RegistryBuilder.Rebuild: fees, symbols and the texts of sources and reasons of rows are not modelled, and neither is the artifact of pairs that are indexed but not routed.
- RegistryLegs.AdmitLegs: valuations, mint facts and qualification are inputs of the legs.
- Registry.BuildPoolRegistry: the tests that addresses are base58 texts (for routes an input of the row), that `verifiedAt` is present and that a failed row carries a detail are not modelled, nor is the lookup by representation.
- RegistryUpserts.DiscoverPrivate: the mint and product artifacts it also writes are not modelled.
- RegistryRuns.AnyOrderKeeps: the admin route that shows the file writes nothing and is not a writer.
- RegistryForensics.DiscoverFromJupiter: the quotes asked for and the decoding of accounts are inputs.
- RegistryVerification.VerifyPools: what makes an outcome failed (`packages/router-core/src/verify-pools.ts:36-81`, a long conjunction) is an input.
- RouteGate.SelectThroughGate: the stage, detail and compute units recorded with a gate verdict are left out; only passing or not is modelled.
- ManifestProgress.CompletesIff: checks of a single stock, as in the next line, are not modelled; it is about the demands on the list.
- ManifestMachine.ActivatedIsThePlan: checks of a single stock that do not depend on the list (feed, ratios, decimals, token program) are not modelled; a chunk they refuse never lands.
- Installments.SwapInput: the guards before the amounts (schedule times, pause, authority) and the swap that spends the input are left out.
- Lucky.AlwaysSolvent: the simulation's statistics over its two hundred runs are left out.
- MintCheck.CheckMint: names, categories and the other filters of the import are left out.
- CsvExport.ParsesBackOnlyToItself: TEXTDATA is taken to be any character but quote, comma, carriage return and line feed, which only lets the grammar read more.
- RPC, HTTP, files, keys, signing and simulation results: foreign calls, here inputs or nondeterministic steps.
- React rendering, effects and scroll handling: nothing to prove beside the calendar functions and the CSV text.
- Account-by-account quote checks, lookup tables, preflight, snapshots and reporting: long conjunctions and counting, easy members.
- SplitPools.PoolWithin: pools with an empty side, or with a fee of everything, are left out; they fill or make nothing.
- SplitOptimizer.OptimizeSplit: how far three or more legs are from the best allocation among all of them is said pair by pair only. Reasons, the list of excluded venues, pool addresses and the improvement and cost figures of a result are not modelled; venue names are ranks in the locale order.
- The execution guard and the rest of the on-chain program: not part of this model.
