# A verified model of Abrechnung's bookkeeping core

Abrechnung keeps the books of a group: who paid, who owes, how event ("clearing") accounts hand
their balance on, and how the group settles up. This project models the parts of it that compute or
guard something, and proves what they promise.

- **Balance engine** (`TransactionEffects`, `ClearingGraph`, `BalanceEngine`, `BalanceLaws`,
  `BalanceHistory`). The loops of `computeTransactionBalanceEffect`, `computeAccountBalances` and
  `computeAccountBalanceHistory`. Numbers are exact reals. A JavaScript object is a map whose keys
  are enumerated by taking any remaining one, so every result holds for every enumeration order.
  The final balance sheet is proved equal to `FinalSheet`, which is stated through the recursive
  function `Inflow` over the share graph and mentions no order of anything. `Inflow` needs no fuel:
  it descends along the sets of ancestors, which shrink because only accounts that neither lie on a
  cycle nor are reachable from one pass anything on.
- **Settlement planner** (`Sorting`, `Settlement`, `SettlementExecution`). The two-pointer matching,
  the greedy loop and the cent filter, and the theorem that closes the circle: entering the plan as
  transfers and running the balance engine again makes every balance zero exactly when the balances
  added up to zero.
- **Revision store** (`RevisionTables`, `RevisionStore`, `RevisionEffects`, `RevisionServices`,
  `StoredGroups`). The
  tables of accounts, transactions and positions with their revisions, the views of the current
  state, the constraints of the database on shares, positions and cycles, and the service methods
  that write the tables, each rolled back when it raises. In every reachable state all references of
  live rows go to live accounts of the same group, the share graph is acyclic and live transactions
  have positive share totals, which are the hypotheses the balance engine needs (`StoredGroups`).
- **Schema migrations** (`Migrations`) and the **account slice** of the web client (`AccountSlice`,
  `AccountReducers`).

`Sums` holds finite sums over sequences and sets, `Wrappers` the usual Option and Result.

Hypotheses are written where they are needed and nowhere else. `NonZeroTotals` (the weights of a
redistributed clearing account do not add up to zero) is needed because the source divides by that
total; neither the services nor the database enforce it. `WellFormed` (positive creditor, debitor and
position totals) is only needed for sums to vanish; `NetAddsUp`, `ZeroSumIffNothingStranded` and
`BalancesAddUpToStranded` say what happens without it, and `ReachableGroupsBalance` does not assume it.
Account ids need not be unique for any result about balances; the history needs it of its list
of clearing accounts. Acyclicity is a hypothesis only of `InflowSolves`, `InflowIsTheOnlySolution` and
`AcyclicBalances`; everything else holds on cyclic share graphs too.

Where code and expectation differ:

- `wipAccountUpdated` on an account that is not being edited writes its id twice
  (`UpdateWithoutEditDuplicates`); `DuplicatesExactlyWhen` tells exactly when duplicates appear.
- A live position whose usages and common shares add up to nothing is billed to nobody while its price
  still leaves the remainder, so the transaction no longer sums to zero (`UnassignedPositionStrands`);
  `ZeroSumIffNothingStranded` is the exact condition. The database checks this when a revision is
  committed, but `update_transaction_positions` (abrechnung/application/transactions.py:564-589) never
  commits its revision, so four accepted service calls lead to a group whose balances do not add up to
  zero (`StrandedMoneyIsReachable`). `StrandedIffUnassigned` tells that the store admits no other way.
- In a settlement plan `creditorId` is the account with the negative balance, which pays.

## Model

| member | source | states |
|---|---|---|
| TransactionEffects.SumValues | frontend/libs/core/src/lib/transactions.ts:43-45 | the reduction over an object's values is the total weight, in any enumeration order |
| TransactionEffects.BillUsages | frontend/libs/core/src/lib/transactions.ts:47-60 | a live position adds its bill to exactly the accounts that use it, in proportion to their usages, and leaves all other columns alone |
| TransactionEffects.BillPosition | frontend/libs/core/src/lib/transactions.ts:37-65 | the price of a live position with positive usage is divided over its users and the common part in proportion to usages and common shares; any other position bills nobody, and a deleted one changes nothing |
| TransactionEffects.BillPositions | frontend/libs/core/src/lib/transactions.ts:36-65 | the position loop yields the remainder and, per account, the sum of its bills |
| TransactionEffects.ShareDebit | frontend/libs/core/src/lib/transactions.ts:67-85 | the debitors divide the remainder, whole and in proportion to their weights, and nothing when the total weight is not positive |
| TransactionEffects.ShareCredit | frontend/libs/core/src/lib/transactions.ts:68-98 | the creditors divide the value, whole and in proportion to their weights, and nothing when the total weight is not positive |
| TransactionEffects.FillTotals | frontend/libs/core/src/lib/transactions.ts:100-103 | every entry's total becomes credit minus positions minus debit |
| TransactionEffects.SharesDivide | frontend/libs/core/src/lib/transactions.ts:67-98 | remainder and value are divided whole and in proportion to the weights |
| TransactionEffects.BillsDivide | frontend/libs/core/src/lib/transactions.ts:43-64 | a position is divided whole and in proportion to usages and common shares |
| TransactionEffects.DivisionIsUnique | frontend/libs/core/src/lib/transactions.ts:76-92 | there is only one way to divide an amount whole and in proportion |
| TransactionEffects.ComputeTransactionBalanceEffect | frontend/libs/core/src/lib/transactions.ts:34-106 | the accumulating loops yield, for exactly the accounts involved, the closed form: debitors and creditors divide remainder and value by their weights, and totals are credit minus positions minus debit |
| TransactionEffects.InvolvedAs | frontend/libs/core/src/lib/transactions.ts:36-98 | an account is involved exactly as a creditor, a debitor or a user of a live position |
| TransactionEffects.NotInvolved | frontend/libs/core/src/lib/transactions.ts:48-98 | an account in no usage, debitor or creditor object is not affected |
| TransactionEffects.ColumnsAddUp | frontend/libs/core/src/lib/transactions.ts:43-98 | over all accounts the positions add up to value minus remainder minus what is stranded, the debitors to the remainder, the creditors to the value |
| TransactionEffects.NetAddsUp | frontend/libs/core/src/lib/transactions.ts:34-106 | what any transaction, well-formed or not, adds to the sum of all balances |
| TransactionEffects.ZeroSumIffNothingStranded | frontend/libs/core/src/lib/transactions.ts:43-64 | with positive share totals a transaction sums to zero exactly when no price is stranded on positions without positive usage |
| TransactionEffects.UnassignedPositionStrands | frontend/libs/core/src/lib/transactions.ts:37-64 | a purchase of 10 with one unassigned position of 4 adds 4 to the sum of all balances |
| ClearingGraph.CountInDegrees | frontend/libs/core/src/lib/accounts.ts:89-107 | the in-degree of a listed account is the number of clearing accounts sharing to it |
| ClearingGraph.ReleaseTargets | frontend/libs/core/src/lib/accounts.ts:118-132 | emitting a node keeps the worklist invariant: degrees count unemitted sharers, ready accounts are on the stack once, sharers come first |
| ClearingGraph.ReleaseLoop | frontend/libs/core/src/lib/accounts.ts:121-131 | the inner loop takes the node's edges out of the degrees and pushes exactly the accounts that become ready |
| ClearingGraph.LinearizeClearing | frontend/libs/core/src/lib/accounts.ts:108-133 | terminates on every graph and emits, once and after all its sharers, every account that is not on or behind a cycle, and no other |
| ClearingGraph.EmittedIffSettled | frontend/libs/core/src/lib/accounts.ts:113-133 | whatever the stack order, an account is emitted if and only if it is neither on a cycle nor reachable from one |
| ClearingGraph.OrdersAgree | frontend/libs/core/src/lib/accounts.ts:108-133 | any two orders hold the same accounts, and all sharing accounts exactly when the graph is acyclic |
| BalanceEngine.InitialSheet | frontend/libs/core/src/lib/accounts.ts:55-64 | one untouched entry for every listed account |
| BalanceEngine.ApplyEffect | frontend/libs/core/src/lib/accounts.ts:69-78 | an effect is booked on every listed account it names and on no other: total on the balance, common credits as paid, common debits and positions as consumed |
| BalanceEngine.ApplyTransactions | frontend/libs/core/src/lib/accounts.ts:66-79 | each entry holds the sums of net, paid and consumed over all transactions |
| BalanceEngine.BuildShareMap | frontend/libs/core/src/lib/accounts.ts:82-87 | the share map holds exactly the clearing accounts with non-empty shares, the last of several with one id winning |
| BalanceEngine.SplitDivides | frontend/libs/core/src/lib/accounts.ts:150-151 | a clearing balance is divided whole and in proportion to the weights |
| BalanceEngine.HandOut | frontend/libs/core/src/lib/accounts.ts:151-172 | one share is recorded in the resolution and given to its target, as paid when positive and as consumed otherwise |
| BalanceEngine.ClearAccount | frontend/libs/core/src/lib/accounts.ts:141-173 | one clearing account is emptied, its balance is divided by the weights into its resolution, and every listed account gets what was resolved to it, as paid when positive and as consumed otherwise |
| BalanceEngine.Redistribute | frontend/libs/core/src/lib/accounts.ts:135-174 | the clearing accounts are emptied one after the other in the given order |
| BalanceEngine.InflowEquation | frontend/libs/core/src/lib/accounts.ts:146-166 | what flows into an account is its own total plus the share of the inflow of every settled account sharing to it |
| BalanceEngine.ClearingStep | frontend/libs/core/src/lib/accounts.ts:141-173 | clearing the next account takes the sheet of the recursive definition for the accounts done to the one with that account added |
| BalanceEngine.ClearedInAnyOrder | frontend/libs/core/src/lib/accounts.ts:135-174 | along any order with sharers first every intermediate sheet follows the recursive definition |
| BalanceEngine.ComputeAccountBalances | frontend/libs/core/src/lib/accounts.ts:53-178 | the whole computation yields the order-free sheet, and the sheet obeys the rules: every account starts with what is booked and takes what others resolved to it, settled accounts divide what they have by their weights, all others keep it |
| BalanceEngine.FinalSheetObeys | frontend/libs/core/src/lib/accounts.ts:66-174 | the order-free sheet obeys these rules |
| BalanceLaws.RulesDetermineTheSheet | frontend/libs/core/src/lib/accounts.ts:66-174 | on every share graph, cyclic or not, exactly one sheet obeys the rules |
| BalanceLaws.InflowSolves | frontend/libs/core/src/lib/accounts.ts:135-174 | on an acyclic graph the inflow satisfies the recursive equations over all clearing accounts |
| BalanceLaws.InflowIsTheOnlySolution | frontend/libs/core/src/lib/accounts.ts:135-174 | the equations have no other solution |
| BalanceLaws.AcyclicBalances | frontend/libs/core/src/lib/accounts.ts:81-174 | for acyclic share graphs any solution of the equations gives the final balances of ordinary accounts, and clearing accounts with shares end at zero |
| BalanceLaws.InflowAdd | frontend/libs/core/src/lib/accounts.ts:146-166 | the redistribution is additive in what is booked |
| BalanceLaws.BalancesAreLinear | frontend/libs/core/src/lib/accounts.ts:66-174 | balances of concatenated transaction lists are the sums of the balances |
| BalanceLaws.BalancesIgnoreTransactionOrder | frontend/libs/core/src/lib/accounts.ts:66-174 | any permutation of the transactions gives the same balances |
| BalanceLaws.RedistributionBalance | frontend/libs/core/src/lib/accounts.ts:135-174 | the redistribution changes the sum of all balances by exactly what goes to unlisted accounts |
| BalanceLaws.RedistributionConservesMoney | frontend/libs/core/src/lib/accounts.ts:135-174 | with all share targets listed the sum of all balances is the same before and after clearing |
| BalanceLaws.TransactionsMoveMoney | frontend/libs/core/src/lib/accounts.ts:66-79 | transactions over listed accounts with positive share totals add up to exactly what is stranded on their positions |
| BalanceLaws.BalancesAddUpToStranded | frontend/libs/core/src/lib/accounts.ts:53-178 | then the final balances of the group add up to exactly what is stranded |
| BalanceLaws.BalancesAddUpToZero | frontend/libs/core/src/lib/accounts.ts:53-178 | with well-formed transactions the final balances of the group add up to zero |
| BalanceLaws.BookingKeepsLedger | frontend/libs/core/src/lib/accounts.ts:73-76 | booking an effect keeps balance = paid - consumed - resolved |
| BalanceLaws.ClearingKeepsLedger | frontend/libs/core/src/lib/accounts.ts:146-173 | a completed clearing step of any account keeps the identity for every account |
| BalanceLaws.FinalLedger | frontend/libs/core/src/lib/accounts.ts:68-174 | at the end the identity holds, paid minus consumed is the inflow, and a redistributed account has resolved exactly that amount |
| BalanceHistory.CollectTransactionChanges | frontend/libs/core/src/lib/accounts.ts:204-217 | each change is collected as often as there are transactions with its date, total and origin |
| BalanceHistory.CollectClearingChanges | frontend/libs/core/src/lib/accounts.ts:219-230 | each change is collected as often as there are clearing accounts with its date, resolved amount and origin |
| BalanceHistory.TransactionChangesInOrder | frontend/libs/core/src/lib/accounts.ts:204-217 | changes are collected in the order of the transactions |
| BalanceHistory.ClearingChangesInOrder | frontend/libs/core/src/lib/accounts.ts:219-230 | and in the order of the clearing accounts |
| Sorting.SortByIsStable | frontend/libs/core/src/lib/accounts.ts:231 | sorting keeps the order of changes of the same date |
| BalanceHistory.Accumulate | frontend/libs/core/src/lib/accounts.ts:233-241 | the entries carry the given changes, each balance being the previous one plus the change |
| BalanceHistory.ComputeAccountBalanceHistory | frontend/libs/core/src/lib/accounts.ts:192-244 | the history is date-sorted and accumulates; it has each change as often as transactions and clearing accounts give it, with their dates, amounts and origins, and in collected order within a date; it is empty without transactions |
| BalanceHistory.ChangesTotal | frontend/libs/core/src/lib/accounts.ts:203-230 | the changes of an account add up to what flows into it |
| BalanceHistory.HistoryAgrees | frontend/libs/core/src/lib/accounts.ts:192-244 | the last balance of a non-empty history is paid minus consumed, and the account's balance unless it was redistributed |
| Settlement.AdvanceCreditor | frontend/libs/core/src/lib/accounts.ts:271-276 | skipping a creditor loses no match, also at the last debitor |
| Settlement.AdvanceDebitor | frontend/libs/core/src/lib/accounts.ts:273-279 | skipping a debitor loses no match, also at the last creditor |
| Settlement.ExtractOneToOneSettlements | frontend/libs/core/src/lib/accounts.ts:255-281 | on sorted lists it keeps both sorted, leaves no equal magnitudes, and makes for every magnitude as many matches as both lists can supply |
| Settlement.MatchesAreComplete | frontend/libs/core/src/lib/accounts.ts:266-270 | any matching that leaves nothing equal removes the common multiset of magnitudes |
| Settlement.MatchesKeep | frontend/libs/core/src/lib/accounts.ts:266-270 | matches keep the planner's invariant, its tally and its money |
| Settlement.Pay | frontend/libs/core/src/lib/accounts.ts:300-318 | a payment between an open creditor and an open debitor keeps the planner's invariant: every balance is what is open plus what is planned, no pair occurs twice |
| Settlement.PaySettles | frontend/libs/core/src/lib/accounts.ts:300-318 | an item settles both its accounts exactly when both open amounts become zero |
| Settlement.SettledShrinks | frontend/libs/core/src/lib/accounts.ts:295-318 | the popped pair has different magnitudes, so exactly one side is pushed back |
| Settlement.SettlesOneSide | frontend/libs/core/src/lib/accounts.ts:295-318 | with nothing equal left the settlement never settles both accounts |
| Settlement.SettleLast | frontend/libs/core/src/lib/accounts.ts:295-318 | the last creditor and the last debitor settle the smaller of their amounts, and what is left of either is pushed back |
| Settlement.BothOrNeither | frontend/libs/core/src/lib/accounts.ts:297-299 | with zero-sum balances one list is empty exactly when the other is, so the early break leaves nothing open |
| Settlement.InitialState | frontend/libs/core/src/lib/accounts.ts:284-290 | the positive and the negative balances start the planner with everything accounted for |
| Settlement.FilterCounts | frontend/libs/core/src/lib/accounts.ts:287-288 | the filters keep every positive and every negative balance as often as it occurs, and no other |
| Settlement.FilterConcat | frontend/libs/core/src/lib/accounts.ts:287-288 | and in their order |
| Settlement.MatchRound | frontend/libs/core/src/lib/accounts.ts:292-294 | sorting both lists and matching: the lists stay the same up to order and matches, and nothing equal is left |
| Settlement.PlanRound | frontend/libs/core/src/lib/accounts.ts:291-319 | one round is a sort, matches until nothing equal is left, and a settlement unless a list is empty by then |
| Settlement.RoundKeeps | frontend/libs/core/src/lib/accounts.ts:291-319 | a round keeps the planner's invariant, tally and money, leaves fewer open accounts, and settles both accounts of an item exactly as often as it matches |
| Settlement.SettlesTheLargest | frontend/libs/core/src/lib/accounts.ts:292-318 | what a round settles is the largest credit against the largest debt, by the smaller of the two |
| Settlement.MatchesAreDoubleSettlements | frontend/libs/core/src/lib/accounts.ts:291-319 | over any number of rounds the double settlements are exactly the one-to-one matches |
| Settlement.PlanPayments | frontend/libs/core/src/lib/accounts.ts:283-319 | the result comes from rounds of the loop with the returned number of matches in all; it and what is left open account for every balance, one side is exhausted, pairs are unique, and a zero-sum group with anything open gets at least one double settlement |
| SettlementExecution.PlanIsExact | frontend/libs/core/src/lib/accounts.ts:291-319 | items pay positive amounts from debt to credit, no pair twice, every account pays or receives exactly its absolute balance, all payments add up to the positive balances |
| SettlementExecution.PlanLength | frontend/libs/core/src/lib/accounts.ts:290-319 | n non-zero balances and m one-to-one matches over all rounds give n - m items, with m at least one |
| SettlementExecution.DroppedIsSmall | frontend/libs/core/src/lib/accounts.ts:321 | an item is dropped exactly when it pays less than half a cent, up to Number.EPSILON |
| SettlementExecution.KeptCount | frontend/libs/core/src/lib/accounts.ts:321 | the filter keeps every item of at least a cent as often as it occurs, and no other |
| SettlementExecution.FilterResidue | frontend/libs/core/src/lib/accounts.ts:321 | the filter changes what an account pays or receives by at most half a cent per dropped item touching it |
| SettlementExecution.ComputeGroupSettlement | frontend/libs/core/src/lib/accounts.ts:283-322 | returns, in order, exactly the items of a full plan that pay at least half a cent, up to Number.EPSILON |
| SettlementExecution.EntriesOf | frontend/libs/core/src/lib/accounts.ts:284-286 | the entries list every account once with its balance |
| SettlementExecution.TransfersNet | frontend/libs/core/src/lib/transactions.ts:67-103 | a plan entered as transfers books on each account what it pays minus what it receives |
| SettlementExecution.ExecutedBalance | frontend/libs/core/src/lib/accounts.ts:53-178 | entering transfers between open accounts changes final balances by exactly what they move, through the redistribution |
| SettlementExecution.PlanSettlesTheGroup | frontend/libs/core/src/lib/accounts.ts:283-321 | entering the unfiltered plan makes every balance exactly zero if and only if the balances added up to zero, cyclic clearing accounts included |
| SettlementExecution.FilteredPlanResidue | frontend/libs/core/src/lib/accounts.ts:321 | entering the returned plan leaves at most half a cent per dropped item touching the account, and zero if there is none |
| SettlementExecution.SettleGroup | frontend/libs/redux/src/lib/selectors.ts:136-140 | the whole run of balances, plan, transfers and balances again ends with every account at zero |
| SettlementExecution.SettleGroupToTheCent | frontend/libs/core/src/lib/accounts.ts:283-322 | the same run with the returned plan ends with every account at most half a cent away from zero per dropped item touching it |
| RevisionTables.ReportedIffCyclic | abrechnung/database/code/0003_constraints.sql:338-354 | the recursive query over the rows of the group reports something exactly when the new shares of an account close a cycle |
| RevisionTables.AssignedIffPositive | abrechnung/database/code/0003_constraints.sql:161-175 | the sum over joined rows that the constraint tests is positive exactly when the item has a usage or a common share |
| RevisionTables.CurrentSharesAreRows | abrechnung/database/code/0001_views.sql:71-115 | the shares an account currently has are among the share rows of all revisions |
| RevisionTables.AccountStateAfter | abrechnung/database/code/0004_functions.sql:287-330 | the latest revision with a history row is the current state of its account |
| RevisionTables.TransactionStateAfter | abrechnung/database/code/0004_functions.sql:458-511 | the same for transactions; a revision without a history row does not show |
| RevisionTables.ItemStateAfter | abrechnung/database/code/0004_functions.sql:415-454 | the same for positions, of which only revisions of their own transaction show |
| RevisionStore.AccountCommitKeeps | abrechnung/application/accounts.py:195-433 | creating, updating or deleting an account keeps all references live and the share rows acyclic and within their group |
| RevisionStore.TransactionCommitKeeps | abrechnung/application/transactions.py:177-691 | a transaction revision with checked shares and usages keeps all references live and all rows within the constraints, also when it brings a deleted transaction back |
| RevisionStore.CommandKeepsConsistency | abrechnung/application/transactions.py:177-691 | every accepted service call leads from a consistent state to a consistent state |
| RevisionStore.DeletionIsAccepted | abrechnung/application/transactions.py:591-691 | in a consistent state a transaction can be deleted exactly when it has a current state that is not deleted: no constraint on the copied rows refuses it |
| RevisionStore.EveryReachableStateIsConsistent | abrechnung/application/accounts.py:195-433 | in every reachable state live transactions, clearing accounts and positions, also positions of deleted transactions, refer only to live accounts of their group, the share rows are acyclic and within groups, and the rows of transactions obey the constraints |
| RevisionEffects.CreatedAccount | abrechnung/application/accounts.py:195-250 | a created account is live in its group, of its type, with exactly its non-zero shares; nothing else changes |
| RevisionEffects.UpdatedAccount | abrechnung/application/accounts.py:268-334 | an updated account is live with exactly the non-zero new shares; nothing else changes |
| RevisionEffects.DeletedAccount | abrechnung/application/accounts.py:412-433 | a deleted account is not live and shares nothing; nothing else changes |
| RevisionEffects.SharesAcceptedIff | abrechnung/application/accounts.py:227-240 | shares are accepted exactly for clearing accounts, to other live accounts of the group, when they close no cycle |
| RevisionEffects.EverySharerIsClearing | abrechnung/application/accounts.py:196-199 | in no reachable state has an account that is not a clearing account ever had a share row |
| RevisionEffects.CreatedTransaction | abrechnung/application/transactions.py:177-250 | a created transaction is live, of its kind, with its shares and positions; nothing else changes |
| RevisionEffects.UpdatedTransaction | abrechnung/application/transactions.py:450-546 | an updated transaction is live with the new shares and the positions written; nothing else changes |
| RevisionEffects.CommittedItemsAreAssigned | abrechnung/database/code/0003_constraints.sql:161-175 | after a committed update of a purchase no own position it wrote is live and unassigned |
| RevisionEffects.UpdatedPositions | abrechnung/application/transactions.py:564-589 | an update of positions writes them and changes nothing else |
| RevisionEffects.DeletedTransaction | abrechnung/application/transactions.py:591-691 | a deleted transaction is deleted with the shares it had; all positions and everything else are as before |
| RevisionEffects.DeletedOnce | abrechnung/application/transactions.py:608-609 | and it cannot be deleted again |
| RevisionServices.FindsCycle | abrechnung/database/code/0003_constraints.sql:338-354 | from the shares of the new revision, reports exactly when a cycle can be reached along the rows |
| RevisionServices.Search | abrechnung/database/code/0003_constraints.sql:339-349 | the search comes to exactly the accounts that can be reached from its start |
| RevisionServices.InsertShares | abrechnung/database/code/0003_constraints.sql:46-97 | inserting the share rows one by one succeeds exactly when all are positive and a kind with a single share has no second one |
| RevisionServices.Store.CheckAccountExists | abrechnung/application/accounts.py:115-125 | holds exactly for accounts of the group whose latest state is not deleted |
| RevisionServices.Store.PutClearingShares | abrechnung/application/accounts.py:227-240 | inserts the non-zero shares when all their targets are live and fails otherwise |
| RevisionServices.Store.CreateAccount | abrechnung/application/accounts.py:195-250 | succeeds exactly when accepted, and then the account is live with exactly its non-zero shares; is rolled back otherwise |
| RevisionServices.Store.UpdateAccount | abrechnung/application/accounts.py:268-334 | the same for an update, which brings a deleted account back; an unknown account is not found |
| RevisionServices.Store.DeleteAccount | abrechnung/application/accounts.py:352-433 | the same for a deletion, after which the account is not live, and which is refused while anything live refers to it |
| RevisionServices.Store.AllExist | abrechnung/application/transactions.py:263-287 | comparing counts tells exactly whether all share accounts are live in the group |
| RevisionServices.Store.PutShares | abrechnung/application/transactions.py:263-312 | writes the shares exactly when their accounts are live in the group and the row constraints hold |
| RevisionServices.Store.PutItems | abrechnung/application/transactions.py:364-390 | writes changed positions when they exist, do not repeat a usage, use live accounts only, and obey the constraints on usages and common shares |
| RevisionServices.Store.CreateTransaction | abrechnung/application/transactions.py:177-250 | succeeds exactly when accepted, and then the transaction is live with its shares and positions; is rolled back otherwise |
| RevisionServices.Store.UpdateTransaction | abrechnung/application/transactions.py:450-546 | the same for an update, which brings a deleted transaction back and is refused for another kind |
| RevisionServices.Store.UpdateTransactionPositions | abrechnung/application/transactions.py:564-589 | the same for an update of the positions of a purchase, which leaves the state of the transaction alone and is not checked as a whole because it is never committed |
| RevisionServices.Store.DeleteTransaction | abrechnung/application/transactions.py:591-691 | the same for a deletion, after which the transaction is deleted with the shares it had and all positions are as before |
| StoredGroups.ServedGraph | abrechnung/database/code/0003_constraints.sql:308-361 | the live accounts of a group have an acyclic share graph whose targets are all listed |
| StoredGroups.ServedTransactionIsListed | abrechnung/application/transactions.py:263-361 | every account a live transaction involves is listed |
| StoredGroups.ServedTotalsArePositive | abrechnung/database/code/0003_constraints.sql:142-185 | a live transaction has positive creditor and debitor totals |
| StoredGroups.ServedShareCounts | abrechnung/database/code/0003_constraints.sql:142-185 | a live purchase or transfer has exactly one creditor, and a transfer exactly one debitor |
| StoredGroups.StrandedIffUnassigned | abrechnung/database/code/0003_constraints.sql:161-195 | in a consistent state only a live position without usages and common share is stranded |
| StoredGroups.ReachableGroupsBalance | frontend/libs/core/src/lib/accounts.ts:53-178 | for the data any reachable store state serves, the balances add up to what is stranded on unassigned positions, so to zero without any, and every clearing account with shares ends at zero |
| StoredGroups.StrandedMoneyIsReachable | abrechnung/application/transactions.py:564-589 | two accounts, a purchase and an update of its position lead to a group whose balances add up to 4 |
| Migrations.RevisionsFromDir | abrechnung/framework/database.py:255-272 | with distinct versions it succeeds exactly when the revisions form one chain from a root, and then returns that chain |
| Migrations.FullChainIsPermutation | abrechnung/framework/database.py:263-272 | a chain as long as the list cannot repeat a revision, so it is a permutation of the list |
| Migrations.ForcedStep | abrechnung/framework/database.py:266-267 | in a list that forms a chain the successor found is the right one |
| Migrations.LinkedIsChain | abrechnung/framework/database.py:255-272 | the order found for revisions of distinct versions is a chain, as applying requires |
| Migrations.Database.Apply | abrechnung/framework/database.py:186-217 | succeeds exactly when the version table holds what is required and the code is not broken, and then moves the version row |
| Migrations.CallReaches | abrechnung/framework/database.py:282-313 | a successful call stops behind the revision it names, at the end if it names none, and never goes back |
| Migrations.Database.ApplyRevisions | abrechnung/framework/database.py:282-313 | on the chain a call gets to its target or changes nothing, the version checks never fail, and an unknown version is an error |
| Migrations.RunStaysOnChain | abrechnung/framework/database.py:282-313 | over any sequence of calls nothing is undone, repeated or applied out of order |
| Migrations.RunAppliesEverything | abrechnung/framework/database.py:282-313 | after a final successful call without a stop revision the whole chain has been applied exactly once, in order, and the version row is the last one |
| AccountSlice.ReduceKeepsConsistency | frontend/libs/redux/src/lib/accounts/accountSlice.ts:336-471 | every action keeps the keys of byId equal to the ids of both tables |
| AccountSlice.DuplicatesExactlyWhen | frontend/libs/redux/src/lib/accounts/accountSlice.ts:382-402 | duplicate ids appear exactly when a committed account is updated without being edited, or a fetched list repeats an id |
| AccountSlice.ViewShowsWhatIdsResolveTo | frontend/libs/redux/src/lib/accounts/accountSlice.ts:47-53 | the list view is exactly the non-deleted accounts that looking up an id resolves to, each once without duplicate ids |
| AccountSlice.ViewShowsOverlayFirst | frontend/libs/redux/src/lib/accounts/accountSlice.ts:47-53 | the view shows the overlay first, and both tables in the order of their ids |
| AccountSlice.EveryInterleaving | frontend/libs/redux/src/lib/accounts/accountSlice.ts:340-470 | over every interleaving the tables stay consistent and no local id is handed out twice |
| AccountSlice.NoDuplicatesWhenEditsStartFirst | frontend/libs/redux/src/lib/accounts/accountSlice.ts:374-402 | runs in which editing starts before updates never have duplicate ids |
| AccountSlice.UpdateWithoutEditDuplicates | frontend/libs/redux/src/lib/accounts/accountSlice.ts:390-393 | fetching an account and updating it without starting to edit lists its id twice |
| AccountReducers.AddTo | frontend/libs/redux/src/lib/utils.ts:21-26 | pushes the id only of a new entity and stores the entity |
| AccountReducers.RemoveFrom | frontend/libs/redux/src/lib/utils.ts:28-34 | deletes the entity and every occurrence of its id, and keeps all other ids as often as before and in order |
| AccountReducers.MoveToWip | frontend/libs/redux/src/lib/accounts/accountSlice.ts:298-334 | copies a committed account into the overlay unless it is there already, and fails for an unknown one |
| AccountReducers.FetchedTable | frontend/libs/redux/src/lib/accounts/accountSlice.ts:430-435 | builds the committed table from a fetched list |
| AccountReducers.Slice.CopyAccount | frontend/libs/redux/src/lib/accounts/accountSlice.ts:340-359 | adds a copy under the next local id to the overlay; an unknown account changes nothing, an unloaded group throws and changes nothing |
| AccountReducers.Slice.StartCreateAccount | frontend/libs/redux/src/lib/accounts/accountSlice.ts:242-273 | takes the next local id and counts down |
| AccountReducers.Slice.AccountAdded | frontend/libs/redux/src/lib/accounts/accountSlice.ts:363-370 | adds a committed account unless its id is known; throws, changing nothing, when the group is not loaded |
| AccountReducers.Slice.AccountEditStarted | frontend/libs/redux/src/lib/accounts/accountSlice.ts:374-381 | moves a committed account that is not being edited to the overlay, once |
| AccountReducers.Slice.WipAccountUpdated | frontend/libs/redux/src/lib/accounts/accountSlice.ts:382-402 | merges the update into the overlay, writing a new id twice; throws, changing nothing, for an unknown account |
| AccountReducers.Slice.DiscardAccountChange | frontend/libs/redux/src/lib/accounts/accountSlice.ts:403-407 | takes the account and all occurrences of its id out of the overlay |
| AccountReducers.Slice.FetchAccountsFulfilled | frontend/libs/redux/src/lib/accounts/accountSlice.ts:421-437 | replaces the committed table, creating the group if needed, and keeps the overlay |
| AccountReducers.Slice.SaveAccountFulfilled | frontend/libs/redux/src/lib/accounts/accountSlice.ts:444-449 | stores the saved account as committed and takes the edited one out of the overlay, also when the server gave it another id |
| AccountReducers.Slice.DeleteAccountFulfilled | frontend/libs/redux/src/lib/accounts/accountSlice.ts:456-465 | stores the server's version of a known account and clears the overlay of it |

## Left out

- IEEE 754 rounding: numbers are exact reals; only the explicit cent filter with Number.EPSILON is kept.
- A clearing account whose weights add up to zero, where the source divides by zero and spreads NaN.
- Currency conversion, tags, files, names and log entries, which influence none of the modelled results.
- Sorting is the stable sort by a numeric key that the comparators describe; dates are ordinals instead of ISO strings.
- The unused dependency map that the linearisation also builds, and console output.
- Group membership and permission tests, owning users, and users; every caller is a member who may write.
- The constraints on non-empty names, and names, prices, values and dates in the tables of the store: no check of the services looks at them, and the store's invariants hold with them as well.
- Unused service helpers for pending account changes, which no public call reaches.
- Concurrency of service calls: each call is one atomic step that rolls back when it raises.
- Parsing of the revision file headers and the contents of the SQL code; whether a revision's code raises is a parameter of a call.
- Dropping and recreating the database's views, functions and triggers around a migration.
- Account fields no reducer looks at, timestamps, memoisation, and the network part of the thunks.
- React components, translations, the transaction slice, websockets, mail, and the command line.
