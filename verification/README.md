# Big Market: what the lottery back end keeps

A Dafny model of the core of the big-market lottery back end, and proofs about it. A user draws: a Redis
script takes a unit of quota or reuses a pending order, a transaction writes the order with its outbox task,
a rule chain and a rule tree pick an award against a shared stock, a second transaction records it, and
background jobs settle the order, send the award and mirror the rows into a search index. The interesting
promises span these pieces: no quota is lost or invented between two stores, no award is handed out more
often than there is stock, whatever was committed keeps an open task until it is done and that task is picked
within a number of scans given by the tasks ahead of it and the failures meanwhile, and the index shows the
tables.

Run `dafny verify dfyconfig.toml`.

## How it is organised

| file | part of the system |
|---|---|
| `QuotaStore.dfy` | Redis and one shard as values; each Lua script and each transaction as a function |
| `Ledger.dfy` | the shard alone, under any mix of committed, failed and repeated transactions |
| `PartakeProtocol.dfy`, `PartakeSafety.dfy` | both stores and any number of interleaved requests, settlements, recharges, account queries, expiries and crashes over any number of days; the invariants and what they mean |
| `PartakeDraws.dfy` | what a user gets out of it: draws one after another, draws that overlap, schedules outside the assumptions |
| `AwardBound.dfy` | awards against credited units, and exactly which loads keep them within |
| `FirstDay.dfy`, `AccountQueries.dfy` | a small account; an account query that comes between a draw and its settlement |
| `LateOrders.dfy` | requests that read their clock before midnight and mint after it |
| `Repository.dfy` | the stores as objects updated in place, with rollback; a whole draw as a run of the protocol |
| `AwardStock.dfy` | the counter, the locks and the award row |
| `DrawPool.dfy`, `PoolStore.dfy` | compiling rates into a pool; storing it over older pools and drawing from it |
| `Collections.dfy`, `Text.dfy`, `WeightRule.dfy` | sequences and strings; the weight rule, its two parsers and its pools |
| `RuleChain.dfy` | the linked chain of cloned rules |
| `RuleTree.dfy`, `GuardedDraw.dfy`, `Raffle.dfy` | the decision tree and its interpreter; draws through a tree against the stock; a raffle end to end |
| `TaskQueue.dfy`, `Dispatcher.dfy` | the retry scan and its fairness; overlapping dispatchers |
| `ShardRouter.dfy`, `CdcMirror.dfy` | database and table of a key; the index as a fold over the row log |

A method that changes state is proved against a function on values, and the theorems are about runs built
from those functions. Where the code does not keep a promise, the code is modelled as it is, a lemma shows an
input on which it fails, and another says exactly when it holds.

## Assumptions

They are preconditions, `Enabled` clauses, or steps that the machines do not have; never axioms.

- A transaction that returns an error was rolled back; one script and one transaction are one step each.
- Order ids are fresh. A message id may repeat: its transaction then reports a duplicate and writes nothing.
  `order_id` is unique in award records (`internal/data/po/award.go:23`) and `out_business_no` in recharge
  orders (`internal/data/po/activity.go:69`).
- A request and the script it calls read the same day from their clocks (`LateOrders` says what happens
  otherwise), and the clock never goes back.
- Counter keys do not expire during a run. A snapshot is loaded when nothing is in its transaction, awaiting a
  refund or unsettled (`LoadKeepsBooksIff` says that no other load keeps the books). Reading the account and
  creating its rows is one step, and so are reading it and writing the counters. Account queries come at any time.
- Stock locks do not expire, and nobody sets the stock counter above the N it was filled with.
- Rates are exact decimals and not negative; random values, checksums and row digests are arbitrary.
- The armory and the chain read the same weight rule text.

## Model

| member | source | states |
|---|---|---|
| `QuotaStore.RefundUndoesMint` | internal/data/activity_partake.go:515-540 | compensating a minted order restores all three counters exactly if and only if the order carries the date the script minted under |
| `QuotaStore.MintIsReused` | internal/data/activity_partake.go:134-150 | a minted order is handed out again, with its own id and strategy and at no cost, to every request until it is dropped |
| `QuotaStore.RefundIsOnce` | internal/data/activity_partake.go:515-540 | only the pending order is refunded, and never twice |
| `QuotaStore.SettleIsIdempotent` | internal/data/activity_partake.go:330-481 | after a settlement that reported no error, settling again reports none, charges nothing and changes nothing |
| `QuotaStore.RetriedLoadIsTheSame` | internal/data/activity_quota.go:324-436 | a load that failed half-way, retried, leaves both stores as one undisturbed load does |
| `Repository.RedisCache.GetOrCreateOrder` | internal/data/activity_partake.go:127-217 | a pending order is reused; otherwise a unit is taken from each counter exactly if all are there and positive; otherwise nothing is taken and the first lack is named |
| `Repository.RedisCache.CompensateOrder` | internal/data/activity_partake.go:515-540 | exactly the pending order is compensated: each counter of its own date goes up by one and the hash is dropped; anything else changes nothing |
| `Repository.RedisCache.CacheAccountSnapshot` | internal/data/activity_quota.go:666-711 | total, month and day counters are overwritten in this order until a write fails; all three make the snapshot |
| `Repository.Shard.CreateOrderAndTask` | internal/data/activity_partake.go:251-261 | order row and task are written exactly if neither exists and the store commits, else nothing is, through every rollback point |
| `Repository.Shard.CreateAwardRecord` | internal/data/award.go:50-75 | record, task and "used" state, all exactly if the order has no record and the message no task, else nothing; a second record is swallowed |
| `Repository.Shard.SettleOrder` | internal/data/activity_partake.go:330-481 | an order not settled is charged exactly if the account and the existing rows of its day and month have units: one off the account and off each row, a missing row starting from the account; every error undoes everything |
| `Repository.Shard.RechargeAccount` | internal/data/activity_quota.go:217-305 | once per business number: account, day and month row go up by the credited amounts, a missing row from nothing, no other row changes |
| `Repository.Shard.QueryAccountEntity` | internal/data/activity_quota.go:324-428 | reading the account creates exactly the missing rows, from the account's own figures, month first, up to the creation that fails |
| `Repository.Service.SaveLiteUserRaffleOrder` | internal/data/activity_partake.go:219-276 | the transaction, and after any failure the compensation or its failure, are the protocol's steps Commit and Refund or LoseFailing; Redis changes by that compensation alone |
| `Repository.Service.DoFilterAccount` | internal/biz/activity/pertake.go:72-137 | let through exactly if the cached total is positive and neither existing row is used up; otherwise the total is named first, then the day, then the month |
| `Repository.Service.PlaceOrder` | internal/biz/activity/pertake.go:44-65 | the script, then for a minted order its transaction and what follows a failure, as one sequential run |
| `PartakeSafety.MintPassesFilter` | internal/biz/activity/pertake.go:72-137 | with the current account cached, a request that the script would grant a unit is never refused by these checks |
| `Repository.Service.CreateOrder` | internal/biz/activity/pertake.go:20-66 | a refused request takes no step; otherwise getting an order is a sequential run of the protocol that leaves the caller holding it, or nothing in flight |
| `Repository.Service.SaveUserAwardRecord` | internal/data/award.go:32-92 | the award transaction and, exactly if it reported no error, the pending delete, whose own failure is ignored |
| `Repository.Service.Draw` | internal/service/activity.go:61-103 | whatever fails on the way, a draw is a sequential run of the protocol and leaves nothing in flight; the award told is the recorded one if and only if the order had no record before or one of that same award |
| `Repository.Service.QueryUserActivityAccount` | internal/service/activity.go:131-148 | an account query, at any moment, is the protocol's step Query, also when creating a row fails |
| `Repository.Service.AssembleActivityAccountByUserId` | internal/data/activity_quota.go:430-436 | a load that gets through, at any moment, is the protocol's load and returns the account read; one that fails before its first counter is the step Query, and one that fails later leaves those rows and the counters written so far |
| `Ledger.RunKeepsInv` | internal/data/activity_partake.go:251-261 | any mix of transactions keeps: count minus surplus equals settled orders in account, day and month rows, nothing overdrawn, each recharge credited once, orders and save tasks in bijection, records and send tasks in bijection, "used" only with a record |
| `Ledger.SettleKeepsInv` | internal/data/activity_partake.go:330-481 | the settlement step of that invariant, rows created on the way included |
| `Ledger.RechargeKeepsInv` | internal/data/activity_quota.go:217-258 | its recharge step: the counts stay the sum of the credited amounts |
| `Ledger.CommitKeepsInv` | internal/data/activity_partake.go:251-261 | its order step, duplicates included |
| `Ledger.AwardKeepsInv` | internal/data/award.go:50-75 | its award step |
| `Ledger.LoadKeepsInv` | internal/data/activity_quota.go:324-428 | its row-creation step, half-way failures included |
| `Ledger.PartakeCountIsSettledOrders` | internal/data/activity_partake.go:484-497 | after any run the reported partake count is the number of settled orders |
| `Ledger.DayPartakeCountExact` | internal/data/activity_partake.go:499-513 | the day count is that day's settled orders if and only if nothing had been spent when the day row was created |
| `Ledger.DayPartakeCountCarriesOver` | internal/data/activity_partake.go:499-513 | a run after which a new day reports a draw nobody made |
| `Ledger.RedeliveryChangesNothing` | internal/data/activity_partake.go:344-346 | a second delivery of a settlement or recharge leaves the whole state alone |
| `PartakeSafety.RunKeepsInv` | internal/biz/activity/pertake.go:44-65 | every valid run of the full protocol, account queries included, keeps the ledger and order invariants and the total quota |
| `PartakeSafety.StepKeepsOrders` | internal/data/activity_partake.go:127-217 | every step keeps where each order may be: minted, in one place, dated for its counters, refunded at most once and never with a row |
| `PartakeSafety.StepKeepsUnits` | internal/data/activity_partake.go:251-275 | every step keeps the total books of both stores balanced |
| `PartakeSafety.StepKeepsPeriods` | internal/data/activity_partake.go:395-450 | every step but a load of rows above the account keeps the books of the loaded day and month |
| `PartakeSafety.StepKeepsQuota` | internal/data/activity_quota.go:342-407 | every step but an unsafe query also keeps the rows of periods not loaded yet within the account, so that every later load fits |
| `PartakeSafety.QueryKeepsBooksIff` | internal/data/activity_quota.go:342-407 | an account query keeps the books if and only if it creates no row, or no order is inside its transaction or unsettled |
| `PartakeSafety.SettleKeepsQuota` | internal/data/activity_partake.go:365-437 | settling moves one unit from outstanding to spent in all three rows |
| `PartakeSafety.RechargeKeepsQuota` | internal/data/activity_quota.go:217-258 | a recharge after the load stays on the side of the account |
| `PartakeSafety.LoadKeepsQuota` | internal/data/activity_quota.go:666-711 | a quiet load keeps the total, and day and month if today's rows show no more than the account |
| `PartakeSafety.LoadKeepsBooksIff` | internal/data/activity_quota.go:666-711 | a load leaves balanced books if and only if no order is in its transaction, awaiting a refund or unsettled, and today's rows show no more than the account; any other load offers units twice, or units of the day or month that the account lacks |
| `PartakeSafety.QuotaIsConserved` | internal/data/activity_partake.go:134-166 | in every reachable state Redis total, orders in their transaction, failed, unsettled and lost ones and later recharges add up to the account's total surplus and no counter is negative; if every load found rows within the account, day and month likewise stay within account and rows |
| `PartakeSafety.SafeQueriesSuffice` | internal/service/activity.go:131-148 | every load does find such rows when every account query of the run created no row, or came with no order inside its transaction or unsettled |
| `AccountQueries.QueryBreaksBooks` | internal/data/activity_quota.go:384-399 | otherwise not: a run, draw by draw and with quiet loads, in which the account is queried on a new day before yesterday's order is settled; Redis then offers a unit of the day the account does not have, and the committed order is refused |
| `PartakeSafety.EveryUnitIsInOnePlace` | internal/data/activity_quota.go:217-258 | every unit ever credited is in Redis, in an order, with a request, lost to a crash, or not yet loaded; so orders never exceed credits |
| `PartakeSafety.SettleIsNeverRefused` | internal/data/activity_partake.go:365-373 | if every load found rows within the account, settling a committed order never meets a quota error: it charges exactly if not charged before |
| `PartakeSafety.CountersMoveInLockstep` | internal/data/activity_partake.go:521-536 | between loads each counter plus mints minus refunds is the loaded value; no order is refunded twice |
| `PartakeSafety.AwardsAreMinted` | internal/data/award.go:50-75 | however draws overlap, awarded orders were minted and refunded orders have no row |
| `PartakeDraws.SequentialDrawsStayWithinQuota` | internal/service/activity.go:65-96 | draws that do not overlap: no awarded order was refunded, "used" exactly with a record, awards for orders minted since the last load plus each counter within what was loaded |
| `PartakeDraws.CleanStep` | internal/data/activity_partake.go:262-275 | the only step that can refund an order someone is or gets awarded for is a refund while another request holds it |
| `PartakeDraws.OverlapAwardsRefundedOrder` | internal/data/activity_partake.go:134-150 | overlapping draws: a schedule in which a refunded order is awarded, open from every state that offers a unit |
| `PartakeDraws.CrashLeavesPending` | internal/biz/activity/pertake.go:44-65 | a crash between script and transaction leaves the pending hash and nothing else |
| `PartakeDraws.ReuseIsFree` | internal/data/activity_partake.go:134-150 | an award for a reused order costs no quota and does not need a row |
| `PartakeDraws.ReloadAfterCrashGivesAwayADraw` | internal/data/activity_quota.go:430-436 | a load after such a crash returns the unit although the order is still reusable, so one draw costs nothing |
| `PartakeDraws.LostDeleteTellsAnother` | internal/data/award.go:84-88 | when the pending delete fails the next draw reuses the order and tells its user an award that is never recorded |
| `AwardBound.AwardsNeverExceedCredits` | internal/service/activity.go:65-96 | draws that do not overlap, loads only after nothing was lost: awards plus what Redis offers never exceed the credited units, over any number of loads and days |
| `AwardBound.StepKeepsFunded` | internal/biz/activity/pertake.go:44-65 | each step of such a run leaves every recorded, pending or held order a row or a lost unit of its own |
| `AwardBound.LoadIsSafeIff` | internal/data/activity_quota.go:430-436 | a load keeps that bound, however the user goes on, if and only if the orders recorded, pending or held are no more than the order rows |
| `AwardBound.RowsBack` | internal/data/activity_quota.go:430-436 | in particular when none of those orders lacks a row |
| `AwardBound.LoadAfterCrashBreaks` | internal/data/activity_quota.go:430-436 | a run, draw by draw from an empty account, whose awards and offers exceed the credited unit |
| `LateOrders.LateOrderSettlesIff` | internal/data/activity_partake.go:395-450 | an order minted under another date than the script's settles at first attempt if and only if neither its own day's row nor its own month's is used up |
| `LateOrders.LateOrderIsRefusedForEver` | internal/data/activity_partake.go:395-450 | if not, it is refused for ever, whatever orders, awards, settlements, loads and recharges dated from then on follow |
| `LateOrders.LateOrderHappens` | internal/data/activity_partake.go:134-166 | a run of the protocol after which such a request is granted an order that is never settled |
| `LateOrders.LoadAfterLateOrderIff` | internal/data/activity_quota.go:666-711 | when it does settle at once, the next load of that day keeps the books if and only if the account had more units for the day than today's row, and more for the month than this month's row unless the order is of this month |
| `LateOrders.LateOrderBreaksOthers` | internal/data/activity_partake.go:395-450 | a run in which a late order is settled and the punctual order after the next load is refused |
| `AwardStock.RunKeepsInv` | internal/data/strategy.go:659-684 | separate decrement and lock steps, crashes, lost answers and manual restores keep every granted value locked, distinct and below N |
| `AwardStock.NeverOversold` | internal/data/strategy.go:659-684 | over any such run at most N calls return true, each for its own value in [0, N) |
| `AwardStock.LostIsNeverGranted` | internal/data/strategy.go:668-683 | a value whose call never heard the answer is granted to no other call, whatever follows |
| `AwardStock.NeverUndersold` | internal/data/strategy.go:662-683 | without restores the calls that return true and those that die or never hear the answer are together exactly as many as were made, up to N |
| `AwardStock.ConsumeFindsStockIff` | internal/data/strategy.go:347-361 | the award row's shortfall is the messages consumed and the updates that were never acknowledged; a queued message finds a unit if and only if these are fewer than the row started with, and always if it started with N and one more for each such update |
| `AwardStock.UnacknowledgedRunsDry` | internal/data/strategy.go:347-361 | one update that is never acknowledged can leave a queued message without a unit |
| `AwardStock.Stock.Subtract` | internal/data/strategy.go:659-684 | one call is a decrement and then a lock step, and returns true exactly when that step granted |
| `AwardStock.Stock.UpdateStrategyAwardStock` | internal/data/strategy.go:347-361 | one unit off the row, or an error and no change |
| `DrawPool.CountIsRounded` | internal/biz/strategy/raffle_support.go:191-198 | the number computed for an award is the whole number nearest to its share, the greater of two |
| `DrawPool.PoolHoldsSlots` | internal/biz/strategy/raffle_support.go:191-198 | each id has in the pool the sum of the numbers of the awards with that id |
| `DrawPool.PoolSharesOut` | internal/biz/strategy/raffle_support.go:191-198 | so an award whose id is its own has in the pool its exact share, rounded |
| `DrawPool.PoolLengthNearRange` | internal/biz/strategy/raffle_support.go:183-198 | twice the gap between pool length and 10^d is at most the number of awards |
| `DrawPool.NormalizedIsExact` | internal/biz/strategy/raffle_support.go:167-198 | rates that sum to one give a pool of exactly 10^d slots, of which each award with its own id has exactly rate times 10^d |
| `DrawPool.DecimalsAreFewest` | internal/biz/strategy/raffle_support.go:168-181 | the digits counted for a rate are the fewest that make it a whole number of slots |
| `DrawPool.EmptyIffAllRoundToNothing` | internal/biz/strategy/raffle_support.go:194-197 | the pool is empty exactly when every share is below one half |
| `DrawPool.WholeRatesCanCompileToNothing` | internal/biz/strategy/raffle_support.go:170-198 | three or more awards of rate 1, and no others, compile to an empty pool |
| `DrawPool.LongestDecimals` | internal/biz/strategy/raffle_support.go:168-181 | the greatest number of digits over the awards, which some award has |
| `DrawPool.FillPool` | internal/biz/strategy/raffle_support.go:191-198 | the nested append loops give each id the slots of its awards |
| `DrawPool.Shuffle` | internal/biz/strategy/raffle_support.go:201-204 | swapping in place keeps the multiset |
| `DrawPool.Compile` | internal/biz/strategy/raffle_support.go:159-211 | the shuffled pool still gives each award its rounded share, and the index map has domain exactly [0, length) and the pool's slots |
| `DrawPool.OnlyListedAwards` | internal/biz/strategy/raffle_support.go:191-198 | nothing but the given awards is in the pool |
| `PoolStore.StoreArms` | internal/data/strategy.go:621-640 | storing a pool over any older one arms it: every index below its length draws its slot |
| `PoolStore.LatestPoolIsDrawn` | internal/data/strategy.go:621-657 | after any sequence of re-armings with pools of any length, the latest pool of a name is the one drawn and stale fields are unreachable |
| `PoolStore.DrawnWasStored` | internal/data/strategy.go:633-656 | even after failed writes a draw only gives an award some pool of that name listed |
| `PoolStore.EmptyPoolRefusesDraws` | internal/data/strategy.go:622-637 | arming with an empty pool reports an error and makes every later draw fail |
| `PoolStore.HalfStoredPool` | internal/data/strategy.go:622-639 | a length written without its hash arms the new pool if and only if the old hash happens to hold its slots; draws give what that hash has, or fail |
| `PoolStore.HalfStoredOverPool` | internal/data/strategy.go:622-639 | over an armed pool the old slots keep being drawn, and a pool no longer than the old one is armed if and only if the old one starts with it |
| `PoolStore.Repository.StoreStrategyAwardPool` | internal/data/strategy.go:621-640 | the store with its field loop is `PoolStore.Store`, or nothing when the first write fails |
| `PoolStore.Repository.GetRandomAwardID` | internal/biz/strategy/raffle_support.go:220-241 | the draw with its three errors |
| `Text.SplitOfJoin` | internal/biz/strategy/model.go:113-124 | splitting undoes joining when no piece contains the separator |
| `Text.JoinOfSplit` | internal/biz/strategy/model.go:113-124 | joining undoes splitting, always |
| `Text.AtoiOfItoa` | internal/biz/strategy/rule_chain.go:229-230 | printing and parsing is the identity on 64-bit integers |
| `Text.ItoaOfAtoi` | internal/biz/strategy/rule_chain.go:258-264 | parsing and printing is the identity exactly on canonical spellings |
| `Text.AtoiOfSigned` | internal/biz/strategy/rule_chain.go:258-264 | digits after a plus, a minus or nothing are parsed, leading zeros and all, exactly if the number fits 64 bits |
| `WeightRule.GetRuleWeightValues` | internal/biz/strategy/model.go:108-138 | the armory's parser loop, with its error and its index panic |
| `WeightRule.GetAnalyticalValue` | internal/biz/strategy/rule_chain.go:245-268 | the chain's parser loop, with its errors |
| `WeightRule.WrittenRuleIsRead` | internal/biz/strategy/model.go:108-138 | a rule written out as tiers with their awards is read by armory and chain as exactly those, the last group of a tier counting |
| `WeightRule.ChainRefusesIff` | internal/biz/strategy/rule_chain.go:245-268 | the chain refuses a rule exactly if some group has no colon or no number in front of it |
| `WeightRule.ArmoryFailsIff` | internal/biz/strategy/model.go:108-138 | the armory fails on one exactly if some group has no colon or a listed id that is no number |
| `WeightRule.ArmoryPanicsIff` | internal/biz/strategy/model.go:108-138 | and panics exactly if the first such group has no colon |
| `WeightRule.FilterSelects` | internal/biz/strategy/raffle_support.go:131-150 | a tier's pool is compiled from exactly the strategy's awards with a listed id |
| `WeightRule.PoolNamesDiffer` | internal/biz/strategy/raffle_support.go:139-150 | no two pools share a name, of whatever strategies and tiers |
| `WeightRule.TierIsArmedIff` | internal/biz/strategy/raffle_support.go:132-150 | the pool the chain asks for is armed if and only if some group spells the tier the way it is printed |
| `WeightRule.ParsersAgree` | internal/biz/strategy/model.go:113-135 | with canonical tiers both parsers name the same tiers and list the same awards |
| `WeightRule.OddSpellingIsNotFound` | internal/biz/strategy/rule_chain.go:229-230 | a tier like "04000" is armed under a name the chain never asks for, exactly when it is not canonical |
| `WeightRule.AssembleLotteryStrategy` | internal/biz/strategy/raffle_support.go:94-156 | exactly when it succeeds, is refused or panics: success arms the default pool and one pool per tier, each with its own awards; a rule named without a row, or without a colon, panics after the default pool is armed |
| `WeightRule.AssembleWithAwards` | internal/biz/strategy/raffle_support.go:159-217 | compiling and storing arms the named pool and no other |
| `WeightRule.ChooseTier` | internal/biz/strategy/rule_chain.go:204-242 | the loop over the sorted tiers takes over with the greatest tier the score reaches, and passes on exactly when it reaches none |
| `WeightRule.WeightDrawIsListed` | internal/biz/strategy/rule_chain.go:228-235 | a user taken over draws successfully an award the rule lists for that tier |
| `WeightRule.DrawFromArmed` | internal/biz/strategy/raffle_support.go:220-241 | drawing within the length of an armed pool succeeds with an award it was compiled from |
| `RuleChain.Factory.OpenLogicChain` | internal/biz/strategy/rule_chain.go:58-94 | a chain of new nodes, acyclic, for the known rules in order and then the default; no prototype and no earlier chain changes |
| `RuleChain.ChainNode.Logic` | internal/biz/strategy/rule_chain.go:174 | running a linked chain terminates, calls no missing next node, and is the chain's meaning |
| `RuleChain.ChainNode.AppendNext` | internal/biz/strategy/rule_chain.go:25-28 | appending links one node |
| `RuleChain.ChainNode.Clone` | internal/biz/strategy/rule_chain.go:181-184 | a clone shares nothing but the pointer of its prototype |
| `RuleChain.Factory.RaffleLogicChain` | internal/biz/strategy/raffle_support.go:27-34 | opening and running never dereferences a missing node |
| `RuleChain.ConsultedIff` | internal/biz/strategy/rule_chain.go:72-89 | a rule is in the chain if and only if it stands between commas in the model text and the first name there is known; one unknown name in front switches all rules off |
| `RuleChain.KnownOfJoin` | internal/biz/strategy/rule_chain.go:72-89 | the known rules are consulted in the order of the text |
| `RuleChain.SettlingRuleDecides` | internal/biz/strategy/rule_chain.go:210-242 | the first rule that does not pass decides, with its error or its award |
| `RuleChain.OpenedChainSettles` | internal/biz/strategy/rule_chain.go:90-93 | every opened chain has such a rule |
| `RuleChain.BlacklistLogic` | internal/biz/strategy/rule_chain.go:141-175 | the blacklist loop with its two configuration errors |
| `RuleChain.BlacklistNamesUsers` | internal/biz/strategy/rule_chain.go:154-174 | a written-out blacklist takes over exactly the users it names |
| `RuleChain.BlacklistFailsIff` | internal/biz/strategy/rule_chain.go:148-160 | a blacklist fails exactly without a colon or without a number before it, for every user |
| `RuleTree.AssembleTree` | internal/data/strategy.go:316-333 | the two grouping loops give every node exactly its own lines in table order and the value of its last row |
| `RuleTree.LastRowCounts` | internal/data/strategy.go:316-333 | the same of the assembled map |
| `RuleTree.OnlyRowsAreNodes` | internal/data/strategy.go:316-333 | and no node is in it without a row |
| `RuleTree.FindNext` | internal/biz/strategy/rule_tree.go:92-118 | where the first line leads that asks for equality with the check; nowhere without lines; the panic exactly when lines are there and none asks for it |
| `RuleTree.LogicPanicsIff` | internal/biz/strategy/rule_tree.go:73-252 | a node panics exactly without a row, without logic, or with a value that cannot be read; only a failing stock fails |
| `RuleTree.Process` | internal/biz/strategy/rule_tree.go:73-90 | the loop computes the tree's recursive meaning whenever it ends |
| `RuleTree.LockStockLuckAwards` | internal/biz/strategy/rule_tree.go:73-252 | lock, stock, fallback: who has raffled often enough and is granted a unit keeps the drawn award, who has not or is refused gets the fallback, and only the former ask the stock |
| `RuleTree.AcyclicTerminates` | internal/biz/strategy/rule_tree.go:73-90 | acyclic lines make every draw end |
| `RuleTree.NonTerminationIsForEver` | internal/biz/strategy/rule_tree.go:73-90 | the termination condition is exact: a draw without a meaning is still running after any number of rounds |
| `RuleTree.DrawThroughTree` | internal/biz/strategy/rule_tree.go:73-118 | a well-formed acyclic tree: the draw ends, visits no node twice, never panics, returns the last visited node's award |
| `RuleTree.KeptOnlyIfGranted` | internal/biz/strategy/rule_tree.go:209-252 | in a guarding tree the drawn award is kept only if the stock was last and granted it |
| `RuleTree.KeptWithoutGrantIff` | internal/biz/strategy/rule_tree.go:128-252 | wherever in a well-formed tree it ends, a draw without a grant keeps its award if and only if it ends at the lock, at a refusing stock, or at a fallback that names the award |
| `GuardedDraw.HandedOutAtMostNIff` | internal/biz/strategy/raffle_support.go:36-58 | over every run of default draws of any awards, for every N, an award is handed out at most N times if and only if no single draw tells it but one that drew it and was granted it |
| `GuardedDraw.GuardedIsOnlyByGrant` | internal/biz/strategy/rule_tree.go:128-252 | a listed award whose own tree guards it and that no other tree falls back to is only told after a grant |
| `GuardedDraw.HandedOutAtMostN` | internal/biz/strategy/rule_tree.go:209-252 | so a guarded award is handed out at most N times |
| `GuardedDraw.OtherDrawsHandOutFreely` | internal/biz/strategy/rule_tree.go:168-199 | one draw of another award that ends with this one hands it out any number of times |
| `GuardedDraw.ForeignFallbackGivesItOut` | internal/biz/strategy/rule_tree.go:168-199 | a strategy with such a draw |
| `Raffle.UnlistedFallbackNamesAwardZero` | internal/data/strategy.go:375-411 | a missing award row reads as award 0 without an error: a strategy in which every draw tells award 0 |
| `Raffle.DefaultDrawAwards` | internal/biz/strategy/raffle_support.go:36-58 | a default draw ends with the drawn award when it has no rule model, else with exactly what its tree ends with |
| `Raffle.DefaultDrawFails` | internal/biz/strategy/strategy_usecase.go:52-62 | exactly when a default draw ends in an error, and exactly when in a panic |
| `Raffle.DrawnAwardNeedsGrant` | internal/biz/strategy/strategy_usecase.go:52-62 | behind a guarding tree a draw ends with the drawn award only after a grant |
| `Raffle.WellFormedRaffleAnswers` | internal/biz/strategy/strategy_usecase.go:31-63 | with well-formed acyclic trees a raffle neither hangs nor panics |
| `Raffle.BlacklistInFront` | internal/biz/strategy/strategy_usecase.go:31-50 | a listed user's raffle always ends with the consolation award; for anyone else it is the raffle without the blacklist |
| `Raffle.WeightLogic` | internal/biz/strategy/rule_chain.go:197-243 | the weight rule over the stored pools: an error, the draw from the greatest tier reached, or the next rule |
| `Raffle.WeightRaffleEndsListed` | internal/biz/strategy/rule_chain.go:228-235 | a raffle over armed pools that the weight rule settles, with a random value below the length of the pool it draws from, always ends with an award listed for that tier, and tells it if the strategy has its row |
| `Raffle.DefaultRaffleEndsListed` | internal/biz/strategy/rule_chain.go:108-120 | one that the default draw settles draws an award the strategy has, and tells it if it has a row and no model |
| `TaskQueue.ScanIff` | internal/data/task.go:23-61 | exactly which tasks a scan picks: failed ones with fewer than ten failed ones ahead, timed-out ones only in slots the failed ones leave free |
| `TaskQueue.ScanIsBounded` | internal/data/task.go:24-52 | a scan returns at most ten tasks and none twice |
| `TaskQueue.ScanFillsUp` | internal/data/task.go:41-52 | a scan with a free slot left out nothing that was due |
| `TaskQueue.DispatchedInTime` | internal/job/send_award_message.go:31-73 | a failed task with k failed tasks ahead is picked within floor((k + l) / 10) + 1 scans, l being lost row updates, whatever arrives meanwhile |
| `TaskQueue.DueDispatchedInTime` | internal/data/task.go:41-52 | a timed-out new task with k failed and m older new tasks in the table is picked within floor((k + m + f) / 10) + 1 scans, f being lost updates and tasks marked failed meanwhile |
| `TaskQueue.CrowdedOut` | internal/data/task.go:26-41 | while ten tasks are failed no scan picks a task that never failed |
| `TaskQueue.FailuresStarveCreated` | internal/data/task.go:23-61 | so ten tasks that keep failing starve a new one over any number of scans although the clock moves on |
| `TaskQueue.StalledClockStarves` | internal/data/task.go:72-79 | while the clock stands still any number of scans can pass a task over |
| `TaskQueue.TaskTable.QueryNoSendMessageTaskList` | internal/data/task.go:23-61 | the tasks whose turn it is, each once and in order: failed ones with fewer than ten before them, then those overdue by more than 360 seconds in the slots left |
| `TaskQueue.TaskTable.UpdateTaskSendMessageCompleted` | internal/data/task.go:63-70 | one row set to completed and stamped |
| `TaskQueue.TaskTable.UpdateTaskSendMessageFail` | internal/data/task.go:72-79 | one row set to failed and stamped |
| `TaskQueue.DispatchSingleTask` | internal/job/send_award_message.go:55-73 | the row ends completed exactly if the effect and that update succeeded, else failed and stamped if that update was written, else untouched; no other row changes |
| `TaskQueue.ProcessTask` | internal/job/send_award_message.go:31-52 | in each shard up to the first that cannot be queried every picked task ends as its reply says and no other row changes; the other shards are untouched |
| `TaskQueue.AnyOrderIsTheSame` | internal/job/send_award_message.go:40-49 | in whatever order the workers of a round end, they leave the same table |
| `Dispatcher.CompletedMeansDone` | internal/job/send_award_message.go:55-88 | with overlapping dispatchers a completed task has had its effect: published, or its order settled; an unroutable one is never completed |
| `Dispatcher.UndoneIsStillQueued` | internal/data/activity_partake.go:251-261 | an order not charged, or an award not sent, still has its own task open for another try |
| `Dispatcher.WorkedOffMeansAllCharged` | internal/data/activity_partake.go:471-478 | once every task is completed the account is charged for every order exactly once |
| `Dispatcher.StepKeepsInv` | internal/data/task.go:63-79 | no interleaving of takes, effects, reports, deaths and other transactions breaks that |
| `Dispatcher.RouteDoes` | internal/job/send_award_message.go:75-88 | routing succeeds exactly if the message was published without error, or its order is settled; orders publish nothing and messages settle nothing |
| `Dispatcher.ReportsMark` | internal/job/send_award_message.go:55-73 | a written report completes its own task, a written failure fails it, nothing else changes a state |
| `Dispatcher.SendAwardMessage.RouteTaskByTopic` | internal/job/send_award_message.go:75-88 | publish, settle or refuse, by topic |
| `Dispatcher.SendAwardMessage.DispatchSingleTask` | internal/job/send_award_message.go:55-73 | one dispatch is a run of the machine that leaves no worker behind |
| `ShardRouter.PaddedIsInjective` | internal/data/data.go:125-138 | zero-padded keys and suffixes never coincide |
| `ShardRouter.DBRouter.constructor` | internal/data/data.go:110-142 | one database under each key from 1 to the count, and no others |
| `ShardRouter.DBRouter.DBStrategy` | internal/data/data.go:146-171 | with positive counts every key has a database; a zero count divides by zero |
| `ShardRouter.DBRouter.GetDB` | internal/data/data.go:174-177 | a database exactly for indices from 1 to the count |
| `ShardRouter.SameTableIff` | internal/data/data.go:155-170 | two keys share a table exactly if their checksums agree modulo the number of tables; a suffix belongs to one database |
| `ShardRouter.EveryTableIsUsed` | internal/data/data.go:155-160 | database i owns exactly its tbCount tables and each is reachable |
| `CdcMirror.TrimUndoesSuffixIff` | internal/cdc/handler.go:138-140 | a routed table name trims back to its base exactly up to index 999 |
| `CdcMirror.SameIndexIff` | internal/cdc/config.go:77-84 | tables share an index exactly if their trimmed names agree |
| `CdcMirror.ShardTableIndex` | internal/cdc/config.go:77-84 | the index of a shard table is named after the prefix and the base name |
| `CdcMirror.CaseDoesNotMatter` | internal/cdc/config.go:77-84 | names that differ only in case feed the same index, and no index name has a capital |
| `CdcMirror.RowToDocument` | internal/cdc/handler.go:95-110 | the document says where the row comes from and holds exactly the columns it has a value for, short rows included |
| `CdcMirror.DocDeterminesRow` | internal/cdc/handler.go:95-110 | a document determines its row |
| `CdcMirror.KeysCollideIff` | internal/cdc/handler.go:112-125 | rows share a document exactly if trimmed table names and key values agree, for key values without colons |
| `CdcMirror.DocumentIdIs` | internal/cdc/handler.go:112-125 | one key column gives its value, two are joined by a colon, no key or a row of the wrong length gives the digest |
| `CdcMirror.ShardTablesCollide` | internal/cdc/handler.go:112-140 | equal keys in two shard tables of one base name always share a document |
| `CdcMirror.ColonsCollide` | internal/cdc/handler.go:115-119 | composite keys with a colon inside are ambiguous |
| `CdcMirror.IndexMirrorsTablesIff` | internal/cdc/handler.go:36-79 | all along a row log the index holds exactly the live rows if and only if all along no two live rows share a document key |
| `CdcMirror.EventMirrors` | internal/cdc/handler.go:46-79 | an event leaves an index that mirrors the tables after its inserts, deletes or pairwise replacements |
| `CdcMirror.CrashesDoNotShow` | internal/cdc/handler.go:46-76 | any series of crashes and restarts from earlier positions ends in the index of one uninterrupted pass |
| `CdcMirror.CrashedLogMirrors` | internal/cdc/handler.go:46-76 | so the index mirrors the tables after crashes too |
| `CdcMirror.CrashedEventsMirror` | internal/cdc/handler.go:46-79 | after any crashes and restarts an index that reached the end of an event log holds exactly the rows the log leaves |
| `CdcMirror.SkippingAheadLosesAWrite` | internal/cdc/handler.go:46-76 | a restart beyond the point last reached can leave an old document for good |
| `CdcMirror.ESWriter.Do` | internal/cdc/es_writer.go:83-100 | deleting a document that is not there is no error |
| `CdcMirror.OnRow` | internal/cdc/handler.go:36-79 | the handler performs the event's writes in order until the first error; an index that mirrored the tables before an event it takes whole mirrors them after it |
| `CdcMirror.Replay` | internal/cdc/handler.go:36-79 | a log of events handed to the handler one after the other leaves an index that mirrors the tables |

## Left out

- Store and broker clients, JSON, logging and metrics: only the state change of each call is kept; Redis command errors of the get-or-create script are requests that stop there.
- Identifiers of users, orders and messages are numbers, and one user in one activity is followed; different users share no quota state.
- `Repository.Service.AssembleActivityAccountByUserId`: a load that fails between its counter writes is no step of the protocol; what it leaves is in the contract and in `QuotaStore.RetriedLoadIsTheSame`, and the quota invariants are not claimed between it and its retry.
- `PartakeSafety.QuotaIsConserved`: loading with orders unsettled, expiry of the hourly counter keys and clocks that disagree about the day are excluded. `PartakeSafety.LoadKeepsBooksIff` says exactly which loads break the books. Of a request whose clock is a day behind, `LateOrders` says exactly when its own order settles and when the next load after that breaks the books; schedules with several such requests at once are not followed. Expiry is not followed.
- `PartakeProtocol.Step`: an account query is one step, so a settlement between its reading the account and its inserting a row is not followed.
- `AssembleActivityAccountByActivityId` (`internal/data/activity_quota.go:596-664`): the loader for all users of an activity is many loads.
- `RuleTree.Process`: the stock answers the same if a draw asked it twice, which only a cyclic tree can do; the raffle count, fixed to 10 in the code, is a parameter.
- `DrawPool.Compile`: IEEE rounding is not modelled; a total rate of zero, which gives no number in the code, yields an empty pool.
- `WeightRule.AssembleLotteryStrategy`: the queries of the strategy and of its awards, which fail before any pool is stored.
- `TaskQueue.ProcessTask`: the workers of a round end one after another, in any order (`TaskQueue.AnyOrderIsTheSame`), and those already started are not shown outliving a failed query of a later shard; finer interleavings are in the runs of `TaskQueue` and `Dispatcher`.
- `TaskQueue.DispatchedInTime`: the scans of one shard do not overlap, and times are whole seconds as in the column.
- `CdcMirror.TrimUndoesSuffixIff`: lower-casing is modelled for ASCII.
- `CdcMirror.IndexMirrorsTablesIff`: documents are compared without `_synced_at`, column values by their printed form, and no column is named like one of the added fields; table definitions do not change.
- `GuardedDraw.GuardedIsOnlyByGrant`: for an award whose id is 0, the id a missing row reads as, only the iff of `GuardedDraw.HandedOutAtMostNIff` is claimed.
- Filling the stock counter: nothing in the repository writes it, so N is given. Expiry of the 24-hour locks is excluded.
- Activity SKU stock, rebate orders, configuration center, degrade and rate-limit middleware, authentication: single-branch code or not wired in.
