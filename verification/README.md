# Verified model of the commitment library

This project models, in Dafny, the parts of the cloud commitment library that decide about money, and
proves what those parts keep over whole runs and under faults.

- **Commitment ladder** (`Ladder*.dfy`): from a usage baseline to per-layer purchases, over the split, the
  reshape hold, conversion to commitment, the spend cap, the minimum and the action limit; from purchases to
  ramp tranches; and any sequence of plan runs, firings, cancellations and expiries.
- **EC2 duplicate guard** (`Ec2*.dfy`): heap entries shared by an exact-type index and a family index, spent
  greedily over a list of recommendations; `Ec2Rules.dfy` states who pays for whom in the terms of the
  reservations.
- **Duplicate budgets** (`Budgets.dfy`, `Duplicates.dfy`, `DuplicateBatches.dfy`): the 5:4 engine exchange
  with two-sided rounding, and the database size units shared by Single-AZ and Multi-AZ; `DuplicateRules.dfy`
  states who pays for whom and for how many nodes; `DuplicateLists.dfy` runs mixed lists against these budgets
  and the EC2 guard.
- **Reservation exchange** (`Exchange*.dfy`): the run that quotes, reserves, re-quotes, accepts and settles,
  against a store and a cloud that may answer anything; and any number of runs interleaving on one ledger.
- **Accounts cache** (`AccountsProvider.dfy`, `AccountsCache.dfy`, `AccountsSharing.dfy`): the locked sections
  as a class, and every interleaving of callers, setters and invalidations as atomic steps.
- **Audit log** (`AuditLog.dfy`): appends under arbitrary short writes and failures.
- **Smaller parts**: Advisor coverage and collapse, the usage baseline, the best-fit reshape, strict-target
  sizing, count and money scaling, and reservation names.

`RealMath.dfy`, `IntMath.dfy`, `Text.dfy`, `SizeNames.dfy` and `Wrappers.dfy` hold shared helpers. Run
`dafny verify dfyconfig.toml` to check everything.

Loops of the program are methods with loops; each is proved against a function or relation, and the
properties are lemmas about those. Amounts are exact reals, or integers counting micro-dollars where the
program stores six decimals.

## Assumptions about partners

- **Store.** A reservation is atomic: its ceiling is non-negative, given in six decimals, within the
  per-exchange cap, and fits into what is left of the daily cap. A lost reply may hide an applied write.
- **Cloud.** An accepted exchange moves the re-quoted payment. An API error with a 4xx status or a throttle
  code means that nothing moved. After any other error it may or may not have moved.
- **Audit log.** The lock gives exclusive appends. Writes may stop at any byte and any call may fail.
- **Ladder store.** The layer's existing commitment reflects the purchase of a fired tranche; when that fails
  later, existing commitment may shrink, never grow. A tranche canceled or failed while scheduled was never
  bought.

## Where the code and its comments differ

- `pkg/ladder/allocate.go:652-657` calls the branch for `len(reshapes) >= maxActions` unreachable. It is
  reached exactly when the limit is one action, there is one reshape and at least one sized purchase
  (`LadderLimit.ReshapesFillTheLimit`); `LadderLimit.LimitBranchIsReachable` gives such a run.
- `providers/aws/ladder/baseline.go:20-26` allows three missing days. The freshness check refuses a series
  with three trailing days missing, so at most two can be missing (`Baseline.ThirdMissingDayIsStale`).
- `pkg/common/reservation_name.go:86-90` says that service, region, SKU, count and term are never dropped. The
  last-resort cut of lines 142-153 drops some of them exactly when the others do not fit beside one character
  of the SKU (`ReservationNames.BuildReservationName`); `ReservationNames.LongRegionLosesSegments` gives such
  an input.

## Model

| member | source | states |
|---|---|---|
| `LadderTypes.ValidateRamp` | pkg/ladder/types.go:317-348 | the one-pass validator accepts exactly the ramps with strictly increasing days, fractions in (0, 1] and a sum within the tolerance of 1 |
| `LadderTypes.FlexStandsAlone` | pkg/ladder/allocate.go:299-380 | valid layer lists always have a flex layer, and it is never the base or the buffer layer |
| `LadderTypes.RankIsNameOrder` | pkg/ladder/allocate.go:718-724 | the rank that breaks ties between layers is the string order of their names |
| `LadderValidation.ValidateConfig` | pkg/ladder/types.go:375-443 | the checks in order accept exactly the configurations whose figures are within their bounds and whose ramp is valid |
| `LadderValidation.ValidateLayers` | pkg/ladder/allocate.go:299-384 | one pass with three counters accepts exactly known, pairwise different layers with one flex layer that stands alone, and at most one base and one buffer layer |
| `LadderValidation.ValidateLayerStates` | pkg/ladder/allocate.go:386-437 | accepts exactly complete states of all layers and of no other |
| `LadderUnits.ParseCommitmentRates` | pkg/ladder/allocate_units.go:34-58 | accepts exactly rates above zero and at most one |
| `LadderUnits.ConversionRoundTrip` | pkg/ladder/allocate_units.go:9-19 | a stored commitment, netted at the rate it was sized with, gives back exactly the OD it was sized from, and conversely |
| `LadderUnits.ComputeNetExisting` | pkg/ladder/allocate.go:455-477 | succeeds exactly on consistent snapshots; the per-layer figures and the total are existing minus expiring |
| `LadderUnits.InFlightToOd` | pkg/ladder/allocate_units.go:64-93 | succeeds exactly on known layers with non-negative commitment and valid rates; totals the OD per layer and overall |
| `LadderUnits.LayersPartitionInFlight` | pkg/ladder/allocate_units.go:64-93 | the per-layer in-flight figures add up to the total, so nothing in flight is left un-netted or counted twice |
| `LadderPipeline.SplitIsExact` | pkg/ladder/allocate.go:758-790 | the OD shares of the split are positive, on distinct known layers, and sum exactly to the gap |
| `LadderPipeline.AssembleIsExact` | pkg/ladder/allocate.go:843-868 | base, buffer and flex shares lose nothing, also when one layer carries both base and buffer |
| `LadderPipeline.BaseShareWithinStable` | pkg/ladder/allocate.go:811-839 | what the split gives a base-only layer fits under the known stable level |
| `LadderPipeline.RolesGetTheirParts` | pkg/ladder/allocate.go:758-868 | the buffer gets its fraction of the gap, the base the smaller of the rest and the room below stable, the flex layer what remains; a layer with two roles gets both parts |
| `LadderPipeline.HoldReshapedBufferAllocations` | pkg/ladder/allocate.go:572-600 | the loop keeps or holds each share exactly by whether its buffer-only layer is reshaped in this run |
| `LadderPipeline.WithholdSums` | pkg/ladder/allocate.go:572-600 | every share ends as one kept share or one hold on its own layer |
| `LadderPipeline.ConvertAllocations` | pkg/ladder/allocate_units.go:98-119 | shares with a rate become purchases, those without become holds, in order |
| `LadderPipeline.ConvertFacts` | pkg/ladder/allocate_units.go:98-119 | each purchase is its own share at its own layer's rate, never one for one and never rerouted |
| `LadderPipeline.ConvertSums` | pkg/ladder/allocate_units.go:98-119 | every share becomes exactly one purchase or one hold |
| `LadderPipeline.ApplyCapGuardrail` | pkg/ladder/allocate.go:915-946 | the two loops compute the total and the proportional scaling |
| `LadderPipeline.CapItems` | pkg/ladder/allocate.go:915-946 | one common factor in (0, 1] is applied to commitment and OD alike, keeping each rate |
| `LadderPipeline.CapFits` | pkg/ladder/allocate.go:915-946 | after the guardrail the total is within the cap, and exactly at it when it had to scale |
| `LadderPipeline.DropSubMinimumAllocations` | pkg/ladder/allocate.go:606-624 | the loop splits purchases by the minimum, those at the threshold kept |
| `LadderPipeline.DropFacts` | pkg/ladder/allocate.go:606-624 | survivors reach the minimum; each skipped amount is below it and appears in a hold of its layer |
| `LadderActions.TruncatePurchases` | pkg/ladder/allocate.go:707-738 | keeps the highest-ranked purchases and turns every other one into a hold |
| `LadderActions.TruncationSplit` | pkg/ladder/allocate.go:707-738 | truncation is a permutation split in which every kept purchase is larger than every deferred one, or as large and not after it by layer name |
| `LadderActions.TruncateToMaxActions` | pkg/ladder/allocate.go:638-667 | the three-way limit, reshapes first |
| `LadderActions.TruncateCounts` | pkg/ladder/allocate.go:638-667 | each purchase is kept or deferred exactly once and the actions fit the limit |
| `LadderActions.TruncateKeepsLargest` | pkg/ladder/allocate.go:638-667 | every deferred purchase comes after all kept ones by size and layer name, whichever branch was taken |
| `LadderActions.UrgentReshapesKept` | pkg/ladder/allocate.go:672-703 | of the reshapes the least utilized layers are kept, one that is not measured counting as fully used, equal ones by layer name; nothing is lost |
| `LadderActions.DetectReshapes` | pkg/ladder/allocate.go:955-987 | the loop over buffer layers: reshaped below the threshold, held when not measured, skipped when empty |
| `LadderActions.AtMostOneReshape` | pkg/ladder/allocate.go:369-380 | reshapes and their holds together are at most the number of buffer layers |
| `LadderAllocate.Allocate` | pkg/ladder/allocate.go:160-222 | the imperative planner computes the plan on every path, errors included |
| `LadderAllocate.CommittedOnBase` | pkg/ladder/allocate.go:811-839 | the per-layer maps give the OD counted against the stable level; a residual basis nets no existing commitment |
| `LadderAllocate.BuildResult` | pkg/ladder/allocate.go:539-563 | the stages run in order and every stage's holds are reported |
| `LadderAllocate.PlanFailsExactlyWhen` | pkg/ladder/allocate.go:160-222 | planning fails exactly on bad input, an inconsistent snapshot, a bad rate or in-flight tranche, a negative low water, or a gap worth buying that cannot be split |
| `LadderAllocate.EarlyExitExplains` | pkg/ladder/allocate.go:498-534 | a run that buys nothing says why on a layer of the flex role: no baseline, a target met to within a cent, or a partial target that a residual basis cannot size |
| `LadderAllocate.BuysUpToTarget` | pkg/ladder/allocate.go:482-496 | a run purchases exactly when netted and in-flight commitment falls short of the configured percentage of the low water by more than a cent and can be sized; then its shares fill it up to exactly that percentage and its purchases never pass it |
| `LadderStages.StagesConserve` | pkg/ladder/allocate.go:539-563 | for any positive shares, each ends as one purchase or one purchase hold on its layer; purchases cover no more OD than the shares and fit the spend cap and the action limit |
| `LadderStages.StagesTrace` | pkg/ladder/allocate.go:539-563 | for any positive shares, every amount traces back to its share under one cap factor, and no deferred purchase is larger than a kept one |
| `LadderAllocate.GapIsConserved` | pkg/ladder/allocate.go:539-563 | the shares sum to the gap, and each layer with a share ends as exactly one purchase or one purchase hold, every other layer as neither |
| `LadderAllocate.AmountsTraceToShares` | pkg/ladder/allocate.go:539-563 | every purchase and every hold carries the amount its own share was sized to, under one common cap factor |
| `LadderAllocate.RunLimitsHold` | pkg/ladder/allocate.go:638-667 | on every exit path the spend is within the per-run cap and the actions within the limit |
| `LadderAllocate.PurchasesAreSized` | pkg/ladder/allocate.go:606-624 | every purchase reaches one cent and still equals its OD times its rate, above zero and at most one, after the cap |
| `LadderAllocate.DeferredAreSmallest` | pkg/ladder/allocate.go:707-738 | over a whole plan, no deferred purchase exceeds a kept one |
| `LadderAllocate.PurchasesFitTheGap` | pkg/ladder/allocate.go:183-222 | a run buys no more OD than its gap, and nothing when there is no gap |
| `LadderAllocate.BaseNeverPastStable` | pkg/ladder/allocate.go:811-839 | a base-only layer with known stable usage is not pushed past stable, existing and in-flight counted |
| `LadderAllocate.ResidualRefinesTotal` | pkg/ladder/allocate_residual.go:10-39 | for every covered usage, a residual run buys at most what total-demand sizing would, and sizes the same gap at a full target or with nothing covered |
| `LadderLimit.ReshapesFillTheLimit` | pkg/ladder/allocate.go:652-662 | the reshapes alone use up the limit while purchases remain exactly in a one-action run with one reshape and at least one sized purchase |
| `LadderLimit.LimitBranchIsReachable` | pkg/ladder/allocate.go:652-662 | a concrete valid run takes the branch and defers its only purchase |
| `LadderTranches.StepsAreExact` | pkg/ladder/ladder.go:234-247 | the step amounts sum exactly to the gap, whether the fractions sum to just below or above 1 |
| `LadderTranches.StepErrorBound` | pkg/ladder/ladder.go:234-247 | every step, skipped ones counted as zero, is within gap times the tolerance of its exact share |
| `LadderTranches.ValidateTrancheIds` | pkg/ladder/ladder.go:153-168 | accepts exactly batches of non-empty, pairwise different identifiers |
| `LadderTranches.ValidateTrancheInput` | pkg/ladder/ladder.go:77-127 | accepts exactly a valid configuration, a run with an identifier and a time, and allocations on known layers with a positive amount and a rate above zero and at most one |
| `LadderTranches.ProcessAllocation` | pkg/ladder/ladder.go:177-204 | the ramp loop appends the rows of one allocation, or fails on an empty identifier it really handed out |
| `LadderTranches.BuildTranches` | pkg/ladder/ladder.go:68-144 | succeeds exactly on valid input whose rows all got fresh identifiers, and returns all rows in order |
| `LadderTranches.RampIsExact` | pkg/ladder/ladder.go:177-272 | the rows of one allocation are positive, sum to its gap, carry successive identifiers and fire at strictly increasing times; each fires as many times 86400 seconds after planning as its step says days, for its step's share of the gap up to a billionth of it |
| `LadderTranches.BatchCoversOd` | pkg/ladder/ladder.go:177-204 | a persisted batch, read back as in-flight commitment, covers exactly the OD it was planned for, overall and per layer |
| `LadderRun.FireKeepsCommitted` | pkg/ladder/allocate.go:46-49 | firing a tranche moves its OD from in flight to existing and leaves the total and every layer unchanged |
| `LadderRun.FailingLateIsFailingEarly` | pkg/ladder/store.go:98-107 | a fired tranche that fails and leaves nothing bought is, in effect, a tranche that failed before it fired |
| `LadderRun.PlanStep` | pkg/ladder/allocate.go:183-222 | a plan run raises the committed total by exactly the OD it bought and not past its ceiling |
| `LadderRun.NeverOvercommits` | pkg/ladder/allocate.go:203-213 | over any sequence of plan runs, firings, failures before or after firing, cancellations and expiries, net existing plus in-flight OD is at most the larger of its start value and a bound that no run's target percentage of the low water exceeds |
| `LadderRun.PurchasesAddUp` | pkg/ladder/allocate.go:46-54 | without withdrawals every purchasing run commits at least 1/100 more |
| `LadderRun.PlanningConverges` | pkg/ladder/allocate.go:46-54 | from gap g at most floor(100 g) plan runs can purchase |
| `LadderRun.BaseStaysStable` | pkg/ladder/allocate.go:811-839 | over any such sequence a base-only layer is not committed past the stable level unless it already was |
| `LadderRun.PlanningAgain` | pkg/ladder/allocate.go:52-54 | planning again on the same baseline finds the gap smaller by exactly what was scheduled, however many tranches fired in between, and buys nothing once the whole gap was bought |
| `Recommendations.ResizeKeepsCostPerUnit` | pkg/common/resize.go:14-27 | a resize succeeds exactly within [1, count], changes count and money only, and leaves every cost per instance unchanged |
| `Ec2Entries.FlexUnitsAreTheWeight` | pkg/recfilter/dedupe_ec2_flex.go:21-31 | an entry's units per node depend on its type alone, so exact and family spending weigh a node the same |
| `Ec2Entries.NodesOfMeasure` | pkg/recfilter/dedupe_ec2.go:118-123 | flexible and exact entries hold the same number of whole nodes as their units do; a partly spent node counts for none |
| `Ec2Entries.Entry.constructor` | pkg/recfilter/dedupe_ec2.go:100-107 | an entry represents its commitment: it starts with its count, or with a budget of count times units when it is size-flexible (Ec2Rules.BudgetRule says when) |
| `Ec2Entries.Entry.Spend` | pkg/recfilter/dedupe_ec2.go:125-132 | spending nodes takes their weight from the one field that holds the budget |
| `Ec2Passes.ByWildcardsIsStableSort` | pkg/recfilter/dedupe_ec2.go:110-112 | the order is a permutation, fewest wildcards first, input order among equals |
| `Ec2Budget.TakeAllConserves` | pkg/recfilter/dedupe_ec2.go:204-212 | nodes credited in an exact pass weigh exactly what the budgets lost |
| `Ec2Budget.TakeAllIsGreedy` | pkg/recfilter/dedupe_ec2.go:204-212 | only covering entries are credited, each only after every earlier covering one is exhausted, and nodes stay wanted only when all are |
| `Ec2Budget.FamilyCoverage` | pkg/recfilter/dedupe_ec2_flex.go:47-48 | either every wanted node is covered by the family budget or less than one node of it is left |
| `Ec2Budget.DrainMeetsNeed` | pkg/recfilter/dedupe_ec2_flex.go:49-56 | a need within the budget is met exactly, in order, overdrawing no entry |
| `Ec2Budget.PartMovesWhole` | pkg/recfilter/dedupe_ec2_flex.go:42-46 | what a pass takes from one list it takes from the whole, although entries are shared by two indexes |
| `Ec2Passes.ExactPass` | pkg/recfilter/dedupe_ec2.go:203-212 | the loop over heap entries does exactly the exact pass |
| `Ec2Passes.FamilyPass` | pkg/recfilter/dedupe_ec2_flex.go:37-58 | the two loops over heap entries do exactly the family pass, and nothing when nothing is wanted |
| `Ec2Dedupe.Guard.constructor` | pkg/recfilter/dedupe_ec2.go:93-114 | one fresh entry per EC2 commitment in input order, listed under its type and, when size-flexible, its family |
| `Ec2Dedupe.StartsWithBoughtUnits` | pkg/recfilter/dedupe_ec2.go:101-107 | an entry starts with the units of what was bought, so non-negative counts give non-negative budgets |
| `Ec2Dedupe.Guard.IndexFacts` | pkg/recfilter/dedupe_ec2.go:77-83 | both indexes list exactly the entries of their key without repetition |
| `Ec2Dedupe.Guard.Adjust` | pkg/recfilter/dedupe_ec2.go:200-219 | suppressed nodes weigh exactly the units removed; every changed entry may pay for the recommendation and is not overdrawn; nodes kept leave no whole node to spend; entries are spent in order; resizing never fails (Ec2Rules.PaysRule says which entry may pay) |
| `Ec2Dedupe.Guard.BatchConserves` | pkg/recfilter/dedupe.go:252-276 | over any list the suppressed nodes weigh exactly the units that left the entries |
| `Ec2Dedupe.Guard.NeverOversuppresses` | pkg/recfilter/dedupe.go:252-276 | with non-negative counts no list has more suppressed than was bought |
| `Ec2Dedupe.Guard.BatchShrinks` | pkg/recfilter/dedupe_ec2.go:59-66 | over any list every budget stays between zero and its start value |
| `Ec2Dedupe.Guard.CreditIsCovered` | pkg/recfilter/dedupe_ec2.go:68-72 | an entry loses units only to recommendations that had nodes suppressed and that it may pay for |
| `Ec2Dedupe.Guard.KeptMeansSpent` | pkg/recfilter/dedupe_ec2_flex.go:33-36 | a recommendation that keeps nodes leaves no covering entry of its type with a whole node and less than one node in its family budget, to the end of the list |
| `Ec2Rules.ScopeRule` | pkg/recfilter/dedupe_ec2.go:28-57 | scopes are compatible exactly when the reservation is regional, or both are zonal and one zone is blank or they agree but for case and white space, or one side is unknown |
| `Ec2Rules.TypeRule` | pkg/recfilter/dedupe_ec2_flex.go:21-31 | a type is size-flexible exactly when it is a family, a dot and a known size, the family not one of those that AWS excludes, in any case |
| `Ec2Rules.BudgetRule` | pkg/recfilter/dedupe_ec2.go:100-107 | an entry has a family budget exactly when its reservation is regional, for Linux/Unix on default tenancy, and of a size-flexible type; it holds that type's units |
| `Ec2Rules.WeightRule` | pkg/recfilter/dedupe_ec2.go:118-123 | a node weighs the units of its size when its type is size-flexible, else one |
| `Ec2Rules.WildcardRule` | pkg/recfilter/dedupe_ec2.go:110-112 | entries are ordered by the number of dimensions that their reservation leaves open |
| `Ec2Rules.ComputeOnly` | pkg/recfilter/dedupe_ec2.go:93-99 | the guard looks at exactly the AWS reservations of EC2 and compute, in order |
| `Ec2Rules.PaysRule` | pkg/recfilter/dedupe_ec2.go:38-72 | an entry may pay for a recommendation exactly when the rules, stated on the reservation and the recommendation, let it |
| `Ec2Rules.LossGoesByTheRules` | pkg/recfilter/dedupe_ec2.go:38-109 | over any list a reservation loses units only to recommendations with suppressed nodes that the rules let it pay for, and one that is not regional only to its own type, in a zone it pays for |
| `Ec2Rules.KeptGoesByTheRules` | pkg/recfilter/dedupe_ec2_flex.go:33-58 | over any list a recommendation that kept nodes leaves no whole node with any reservation that may pay for its type, nor with those together that may pay by family |
| `Budgets.ConsumeRounds` | pkg/recfilter/dedupe.go:204-212 | covered is worth at most spent, spent is the least that pays for it and is available, and one more node would not fit |
| `Budgets.WholeNodesAreExact` | pkg/recfilter/dedupe_rds.go:32-40 | size-flexible spending loses nothing to rounding |
| `Budgets.ChargeConserves` | pkg/recfilter/dedupe.go:298-306 | covered nodes and spent units match the credits, per budget, and no non-negative budget goes negative |
| `Budgets.CreditsAreFair` | pkg/recfilter/dedupe.go:298-306 | every credit draws on its own offer at a fair rounding |
| `Budgets.KeptMeansUsedUp` | pkg/recfilter/dedupe.go:298-306 | nodes stay wanted only when no offer could cover one more |
| `Duplicates.OffersAreValid` | pkg/recfilter/dedupe.go:189-202 | the budgets a recommendation may draw on are well formed and pairwise different |
| `Duplicates.ExistingBudgets.constructor` | pkg/recfilter/dedupe.go:226-248 | each budget holds the units of exactly the commitments that share its key |
| `Duplicates.ExistingBudgets.Draw` | pkg/recfilter/dedupe.go:298-306 | the loop draws on the offers in order |
| `Duplicates.ExistingBudgets.Adjust` | pkg/recfilter/dedupe.go:280-321 | a recommendation without nodes is dropped untouched; otherwise it is resized once to what is left, which never fails |
| `DuplicateBatches.ListConserves` | pkg/recfilter/dedupe.go:252-276 | over any list a budget loses exactly what its credits spent and never goes negative |
| `DuplicateBatches.KeptNodesUsedUp` | pkg/recfilter/dedupe.go:252-276 | a recommendation that keeps nodes leaves every budget that may pay for it below one node, to the end of the list |
| `DuplicateBatches.BudgetPaysItsWorth` | pkg/recfilter/dedupe.go:178-202 | over any list, nodes paid by a budget are worth at most the units it lost: at most five Valkey nodes per four Redis nodes, and exactly the units for databases, Multi-AZ counted twice |
| `DuplicateRules.ClassRule` | pkg/common/rds_size.go:6-48 | a database class has a known size exactly when it is a family with a dot, a dot and one of the listed sizes |
| `DuplicateRules.FlexRule` | pkg/recfilter/dedupe_rds.go:10-24 | a reservation pays for its family exactly when it is an AWS database of a size-flexible engine, in any case and white space, and of a known class |
| `DuplicateRules.DatabasePays` | pkg/recfilter/dedupe_rds.go:42-50 | a size-flexible reservation may pay for a node exactly when family, region and engine agree and the deployments agree or are Single-AZ and Multi-AZ |
| `DuplicateRules.DatabaseUnitsPay` | pkg/recfilter/dedupe_rds.go:32-40 | it pays for exactly as many nodes as its units buy, a Multi-AZ node of either side counting twice the units of its size |
| `DuplicateRules.MultiAzIsTwoSingle` | pkg/recfilter/dedupe_rds.go:32-50 | of every size-flexible class one Multi-AZ reservation pays for exactly two Single-AZ nodes, and two Single-AZ reservations for exactly one Multi-AZ node |
| `DuplicateRules.CachePays` | pkg/recfilter/dedupe.go:189-202 | a cache reservation may pay for a node exactly when type, region and deployment agree and the engines agree, the reserved one is unknown, or Redis pays for Valkey |
| `DuplicateRules.CacheNodesPay` | pkg/recfilter/dedupe.go:204-212 | it pays for one node each, except that Redis pays for five Valkey nodes with four of its own, rounded down |
| `DuplicateRules.OthersPay` | pkg/recfilter/dedupe.go:280-321 | any other reservation may pay exactly for its own type, region, engine and deployment, one for one |
| `DuplicateLists.AdjustAll` | pkg/recfilter/dedupe.go:252-276 | over a mixed list each recommendation is charged in turn to the budgets of its kind, after all earlier ones of that kind, and passed resized or filtered unchanged |
| `DuplicateLists.ListsConserve` | pkg/recfilter/dedupe.go:252-276 | over any mixed list the EC2 nodes suppressed weigh what the entries lost, and every other budget lost what its credits spent |
| `DuplicateLists.KeptMeansNothingLeft` | pkg/recfilter/dedupe.go:252-276 | wherever in a mixed list a recommendation kept nodes, at the end of the list no budget that may pay for it covers one more |
| `ExchangeMoney.FloorIsGreatest` | pkg/exchange/auto.go:535-540 | the six-decimal cap is the largest millionth not above its source |
| `ExchangeMoney.RoundingError` | pkg/exchange/auto.go:542-551 | rounding moves an amount by at most half a millionth, and at exactly half away from zero |
| `ExchangeMoney.RoundedWithinCeiling` | pkg/exchange/auto.go:542-551 | a payment within a six-decimal ceiling is still within it after rounding to six decimals |
| `ExchangeProtocol.OutcomeOf` | pkg/exchange/outcome.go:14-35 | an accept is rejected exactly on an unmarked API error with a throttle code or a 4xx status, executed exactly with an exchange ID, and unknown otherwise |
| `ExchangeProtocol.AfterPayment` | pkg/exchange/auto.go:508-525 | after a payment only settlement attempts for exactly the rounded amount are possible, at most three |
| `ExchangeProtocol.ExecutedSettlesOrHalts` | pkg/exchange/auto.go:637-656 | an executed exchange belongs to the record reserved for it, with only rejected accepts in between; that record is settled for exactly the rounded payment within three attempts, or three failed attempts are all that follows |
| `ExchangeProtocol.UnknownIsLast` | pkg/exchange/auto.go:628-633 | an exchange whose outcome is unknown is the last thing a run does |
| `ExchangeProtocol.HaltIsFinal` | pkg/exchange/auto.go:277-285 | nothing is reserved, executed or written after a halt |
| `ExchangeProtocol.FailedOnlyWhenNothingAccepted` | pkg/exchange/auto.go:625-635 | a record is failed only after its own reservation and nothing but definitely rejected accepts since |
| `ExchangeRun.Execute` | pkg/exchange/exchange.go:419-471 | accepts exactly when a limit is set, the account is the expected one and both quotes are valid, in the currency "USD", with a payment within the limit; it accepts at the second quote's payment, and only a definite rejection counts as refused |
| `ExchangeRun.GetValidatedQuote` | pkg/exchange/auto.go:376-419 | succeeds exactly on a target with metadata, an offering and a valid quote in "USD" with a payment within the per-exchange cap, and returns that payment; every other outcome has its own skip reason |
| `ExchangeRun.CompleteLedgerRecord` | pkg/exchange/auto.go:512-525 | the retry loop leaves a settled record or a halted run |
| `ExchangeRun.ExecuteReserved` | pkg/exchange/auto.go:616-656 | success is reported exactly for a settled payment; an unknown outcome keeps the record and halts |
| `ExchangeRun.ProcessAutoExchange` | pkg/exchange/auto.go:554-656 | a dry run changes nothing; a malformed payment text saves one failed record and nothing else; otherwise the exchange starts with a reservation at the floored caps and follows the protocol |
| `ExchangeRun.ProcessManualExchange` | pkg/exchange/auto.go:421-506 | manual mode saves one record and never reserves or executes; a dry run saves none |
| `ExchangeRun.ProcessRecommendation` | pkg/exchange/auto.go:294-338 | a recommendation is skipped exactly when it cannot be exchanged, and otherwise filed in the list of its mode and outcome: failed ones apart, and in manual mode as pending exactly when its pending record was saved |
| `ExchangeRun.RunAutoExchange` | pkg/exchange/auto.go:243-288 | every processed recommendation is in exactly one list; the completed ones carry, in order, the record and the amount of the payments settled; processing stops early only on a halt; manual and dry runs move no money |
| `ExchangeLedger.NextKeeps` | pkg/exchange/auto.go:67-70 | every event of every run keeps the ledger truthful about money and within the daily cap, also when replies are lost |
| `ExchangeLedger.SpendStaysWithinCap` | pkg/exchange/auto.go:67-70 | over any interleaving of runs, settled payments plus open ceilings stay within the daily cap |
| `ExchangeLedger.MoneyStaysWithinCap` | pkg/exchange/auto.go:535-540 | the money really moved stays within the dollar cap, up to half a micro-dollar of rounding per record |
| `ExchangeLedger.FailedMeansUnmoved` | pkg/exchange/auto.go:625-635 | a failed record never moved money, and money that moved is never missing from the ledger |
| `ExchangeDay.RunsFollowProtocol` | pkg/exchange/auto.go:243-288 | in every day each run's own calls are a sequence the protocol allows, however the others interleave |
| `ExchangeDay.DayHasMoves` | pkg/exchange/auto.go:67-70 | every day comes about by calls of its runs |
| `ExchangeDay.InterleavingIsADay` | pkg/exchange/auto.go:243-288 | runs whose own calls the protocol allows make a day of the ledger under any interleaving |
| `ExchangeDay.RunsStayWithinLimit` | pkg/exchange/auto.go:535-540 | however many exchange runs interleave, each with a daily cap within the limit, the money really moved stays within it, up to half a micro-dollar per record |
| `AccountsProvider.ResolveDefaultSubscription` | providers/azure/accounts_cache.go:276-309 | the in-place loop marks the explicit target, else the environment's, else a single account |
| `AccountsProvider.OneDefault` | providers/azure/accounts_cache.go:269-309 | at most one account becomes the default, and a visible target is it |
| `AccountsProvider.CloneAccounts` | providers/azure/accounts_cache.go:163-167 | the copy is a fresh array with the same accounts |
| `AccountsProvider.Provider.SetCredential` | providers/azure/provider.go:236-241 | the swap and the invalidation happen in one section, leaving no cache and the next generation |
| `AccountsProvider.Provider.SetSubscriptionsClient` | providers/azure/provider.go:184-189 | likewise for the client |
| `AccountsProvider.Provider.InvalidateAccountsCache` | providers/azure/accounts_cache.go:179-196 | drops the cache and moves to the next generation |
| `AccountsProvider.Provider.ReadCachedAccounts` | providers/azure/accounts_cache.go:80-87 | returns null exactly when nothing is cached, else an array of the caller's own |
| `AccountsProvider.Provider.Publish` | providers/azure/accounts_cache.go:129-144 | a fetched list is published exactly when its generation is still current |
| `AccountsProvider.OwnCopies` | providers/azure/accounts_cache.go:38-39 | writing to a returned list does not change what the next caller reads |
| `AccountsCache.StepKeeps` | providers/azure/accounts_cache.go:45-196 | every atomic step of every caller and setter keeps the cache invariant: a list of the generation in force that anyone was given is the one in the cache; publishing and leaving the flight are separate steps |
| `AccountsCache.CacheIsCurrent` | providers/azure/accounts_cache.go:129-144 | a cached list was fetched with the current credential and client at the current generation |
| `AccountsCache.ReturnsAreFresh` | providers/azure/accounts_cache.go:169-178 | no caller receives a list from a generation older than the one in force when it started, or from a mixed credential and client; a live caller gives up on a context error only after two attempts |
| `AccountsCache.OneFetchPerGeneration` | providers/azure/accounts_cache.go:89-98 | at most one fetch per generation is in flight |
| `AccountsCache.NobodyIsStranded` | providers/azure/accounts_cache.go:29-39 | every unfinished caller can step, or waits for a leader that can |
| `AccountsCache.EveryStepProgresses` | providers/azure/accounts_cache.go:55-70 | every step of a caller brings it closer to returning, so each makes at most two attempts and ends |
| `AccountsSharing.OneListPerGeneration` | providers/azure/accounts_cache.go:129-144 | over every interleaving all callers given a list of one generation were given the same list, and one of the generation in force is in the cache |
| `AccountsSharing.LaterCallersAreServed` | providers/azure/accounts_cache.go:45-49 | once a caller has a list of the generation in force and until the next swap, every caller that reads the cache returns that list without fetching, and no leader fetches again |
| `AccountsSharing.RepliesHaveSources` | providers/azure/accounts_cache.go:106-144 | every list that a caller has was delivered by some fetch of the run, a context error by a fetch that failed by its context, and any other error by another failure or a publication |
| `AuditLog.PartialLine` | pkg/common/audit.go:175-190 | writing part of a line after a complete one adds that part as one record, or nothing |
| `AuditLog.TerminationKeepsRecords` | pkg/common/audit.go:234-249 | terminating an unterminated rest changes no record |
| `AuditLog.RecordsAreLines` | pkg/common/audit.go:175-198 | the records are the lines of the file: none holds a newline, and written out each with one they are the file again, but for the newline of an unterminated rest |
| `AuditLog.LogFile.RepairAbandonedRecord` | pkg/common/audit.go:201-210 | after a successful repair the file ends in a newline; no record changes either way |
| `AuditLog.LogFile.AppendLocked` | pkg/common/audit.go:170-199 | an append is acknowledged exactly when nothing failed, then adds its whole payload; otherwise at most one record with a prefix of it, terminated unless that failed too |
| `AuditLog.LogFile.AppendFile` | pkg/common/audit.go:160-164 | the same through locking, syncing, unlocking and closing |
| `AuditLog.AcknowledgedAreLines` | pkg/common/audit.go:152-225 | over any attempts and failures the acknowledged payloads are whole lines in acknowledgement order, after the unchanged old records |
| `AuditLog.AcknowledgedAt` | pkg/common/audit.go:152-225 | each acknowledged payload stands right after the records seen when it began |
| `Sizing.SizedWithinTarget` | pkg/recfilter/sizing.go:262-362 | a sized reservation stays within the target, one more would pass it, it is fully used, and its cost per instance is unchanged |
| `Sizing.PathsAgree` | pkg/recfilter/sizing.go:377-409 | sizing in exact fractions and sizing from the percentage agree on every coverage that is not negative, and count the whole instances in the gap |
| `Sizing.PathsAreClose` | pkg/recfilter/sizing.go:377-409 | where the exact coverage and the percentage differ by less than one instance's worth, the counts differ by at most one |
| `Sizing.ZeroMeansOneTooMany` | pkg/recfilter/sizing.go:317-326 | a reservation sized to zero would pass the target with one instance |
| `Sizing.ReservationOutcomes` | pkg/recfilter/sizing.go:262-362 | the exact condition, in plain arithmetic, of keeping a reservation and of each way of not keeping it |
| `Sizing.ProjectedCoverage` | pkg/recfilter/sizing.go:340-362 | the projected coverage is what was covered plus what the instances bought add, at most 100; nothing else changes but count, money and utilization |
| `Sizing.SavingsPlanShare` | pkg/recfilter/sizing.go:414-469 | a savings plan is kept exactly with details, a utilization and a commitment; every amount is then target hundredths of the proposal's and the projected utilization is the recommended use spread over the smaller plan |
| `Sizing.ApplyTargetCoverage` | pkg/recfilter/sizing.go:172-202 | the loop keeps and counts by the decision; a target outside (0, 100] changes nothing |
| `Sizing.KeptOrCounted` | pkg/recfilter/sizing.go:172-202 | every input is kept or counted under exactly one drop reason |
| `Advisor.Coverage.Covers` | providers/azure/recommendations.go:371-373 | three set lookups decide exactly the pairwise rule: same coarse need, families equal or either unknown |
| `Advisor.Coverage.Add` | providers/azure/recommendations.go:362-369 | adding a need extends the covered needs by it |
| `Advisor.DropCoveredReservations` | providers/azure/recommendations.go:337-355 | the loop keeps a row unless it is a reservation that a consumption reservation covers |
| `Advisor.SurvivorsAreUncovered` | providers/azure/recommendations.go:332-336 | the rows kept are exactly those that are no reservation or share no need with a consumption reservation, each once and in order |
| `Advisor.KeepCheapest` | providers/azure/recommendations_advisor_pricing.go:131-157 | in any order of groups a row keeps its legs exactly when no row of its group beats it |
| `Advisor.Collapse` | providers/azure/recommendations_advisor_pricing.go:64-116 | over all coarse needs a priced row is cleared exactly when a competing row is cheaper, or as cheap and earlier |
| `Advisor.OneSurvivor` | providers/azure/recommendations_advisor_pricing.go:124-130 | each purchase keeps exactly one row, and it has the least cost |
| `Baseline.ValidateInWindowCoverage` | providers/aws/ladder/baseline.go:146-174 | accepts exactly consecutive days from the window start with at most three missing |
| `Baseline.ValidateFreshness` | providers/aws/ladder/baseline.go:192-205 | accepts exactly increasing series whose last day is recent |
| `Baseline.ThirdMissingDayIsStale` | providers/aws/ladder/baseline.go:18-36 | a series the coverage check accepts with a third day missing, and only such a one, is refused as stale |
| `Baseline.TwentySevenDaysAreStale` | providers/aws/ladder/baseline.go:192-205 | the first 27 days of a 30-day window pass the coverage check and are refused as stale |
| `Baseline.GetUsageBaseline` | providers/aws/ladder/baseline.go:74-134 | accepts exactly the consecutive days from the window start, all but at most two of them, at least a week, none negative |
| `Baseline.NearestRankPercentile` | providers/aws/ladder/baseline.go:285-302 | the result is an element; at least p percent of the data is at most it and less than p percent below it |
| `ReshapeFit.FindBestFit` | pkg/exchange/reshape.go:809-833 | returns the first size of the ladder that fits, else one of the smallest size when usage is below it, else nothing |
| `ReshapeFit.FactorRule` | pkg/common/ec2_size.go:11-40 | an xlarge counts eight normalized units, its multiples as many times eight, each smaller size half the next, and an unknown size none |
| `ReshapeFit.BestFitIsLargest` | pkg/exchange/reshape.go:802-808 | a target covers the usage within what was purchased, and no larger size not above the usage would |
| `ReshapeFit.AnalyzeReservation` | pkg/exchange/reshape.go:524-622 | an exchange is suggested exactly when the best fit of an underused convertible reservation frees units |
| `ReshapeFit.IndexOfferedSizes` | pkg/exchange/reshape.go:431-457 | every offered family gets the strictly descending ladder of its known sizes |
| `ReshapeFit.LadderIsUnique` | pkg/exchange/reshape.go:444-453 | the ladder does not depend on the order the sizes are visited in |
| `ReshapeFit.LegacyDescends` | pkg/exchange/reshape.go:397-405 | the built-in ladder is strictly descending too |
| `ReservationNames.SanitizeReservationId` | pkg/common/identifiers.go:19-37 | the builder loop and the repeat-until-stable loop terminate in the squeezed, trimmed form |
| `ReservationNames.ReplaceKeepsSqueezed` | pkg/common/identifiers.go:29-31 | replacing pairs of hyphens moves towards the form with every run collapsed |
| `ReservationNames.SanitizedIsClean` | pkg/common/identifiers.go:15-37 | the result has only allowed characters and no leading, trailing or doubled hyphen; sanitizing twice is sanitizing once |
| `ReservationRules.OtherCharacters` | pkg/common/identifiers.go:9-37 | between clean texts a dot becomes a hyphen and any other character that is no ASCII letter, digit or hyphen goes |
| `ReservationRules.CountReadsBack` | pkg/common/reservation_name.go:97 | the count reads back from the digits of its segment |
| `ReservationRules.TermRule` | pkg/common/reservation_name.go:175-187 | the known ways to write one and three years, in any case and white space, become 1yr and 3yr, and nothing else does by this rule |
| `ReservationRules.PaymentRule` | pkg/common/reservation_name.go:189-209 | the known payments get their short forms, no payment none, and any other at most six characters of its sanitized text |
| `Text.DigitsReadBack` | pkg/common/reservation_name.go:97 | reading the decimal digits back gives the number |
| `ReservationNames.SuffixSurvives` | pkg/common/reservation_name.go:156-165 | sanitizing keeps a hyphen and an alphanumeric suffix at the end |
| `ReservationNames.AssembledIsGood` | pkg/common/reservation_name.go:160-165 | an assembled name is clean and ends with a hyphen and the whole suffix |
| `ReservationNames.AssembledKeeps` | pkg/common/reservation_name.go:160-165 | whatever optional segments follow, an assembled name starts with service, region, a non-empty start of the SKU, count without sign, and term |
| `ReservationNames.KeptSegmentsFit` | pkg/common/reservation_name.go:142-153 | a name within 60 characters that starts with the five segments leaves them room: all but one character of the SKU fit |
| `ReservationNames.LongRegionLosesSegments` | pkg/common/reservation_name.go:142-153 | an input of which no clean name within 60 characters keeps the five segments, whatever the suffix |
| `ReservationNames.BuildReservationName` | pkg/common/reservation_name.go:93-154 | every name has at most 60 characters, is clean, and ends with a hyphen and the whole suffix; it keeps service, region, a non-empty start of the SKU, count (without a sign) and term exactly when the others fit beside one SKU character, and as much of the SKU as fits; what is dropped first is the time stamp, then the payment |

## Left out

- Not-a-number, infinities and floating-point rounding: amounts are exact reals, and the checks that only reject non-finite values have no counterpart.
- Machine integer width: counts and units are unbounded, except that sizing rejects a count that does not fit 64 bits.
- Rationales, notes, logging, data sources and drop-summary text: a hold carries a tag and the amount it withheld.
- Run scope, mode, cadence, term and payment option of the ladder configuration: they do not influence a plan.
- Composite map keys joined with a bar character are tuples, so two keys whose parts contain bars do not collide.
- Text is ASCII: lower-casing and trimming of other scripts are not modelled; names of platforms, tenancies, engines and deployments arrive normalized.
- Lookback filtering of existing commitments and their lifecycle states in the duplicate checker.
- Paging, the page cap and the conversion of subscriptions into accounts; a fetch delivers any list or fails.
- The lazy first publication of an ambient credential, which does not invalidate the accounts cache and runs before any credential is set.
- Wrap-around of the cache generation counter.
- Pending records awaiting approval, their expiry and their later execution by a person.
- ExchangeLedger.SpendStaysWithinCap: one day and one daily cap; how the store assigns records to days is its own concern.
- Durability of the audit log: a failed sync makes an append unacknowledged but loses no byte in the model.
- Binding of the audit log's parent directories and the file-lock implementation.
- Counts of cleared and dropped Advisor rows, which are only logged.
- Pricing of Advisor rows and the skip reasons of unpriced ones; a row arrives with its priced legs or without.
- ReservationNames.BuildReservationName: takes the random suffix as non-empty letters and digits, because the program renders random bytes in hexadecimal; when randomness fails the suffix is dropped and no such promise is made.
- Alternative exchange targets across families, their scores and pricing pre-checks: shown to people, not acted on.
- Percentage coverage sizing, the idempotency token identifiers, filters and provider clients: they would add easy members only.
