# Six jars budget: a Dafny model

This project models the core of a "six jars" personal budgeting app. The user
keeps one record per month. Each record holds the month's incomes, its expenses
and its jar list. The six jars are necessities (NEC), financial freedom (FFA),
long-term savings (LTS), education (EDU), play (PLAY) and giving (GIVE).

Each jar takes a percentage of the month's total income. Each expense is
charged to one jar. The app derives, for every month and every jar, three
figures:

- what the jar receives that month;
- what was spent from it that month;
- its running balance, carried over from month to month.

The model covers:

- the records and the jar catalog (`types.dfy`, `catalog.dfy`, `months.dfy`);
- the balance engine (`engine.dfy`). It is an imperative method with nested
  loops, proved equal to a fold over the chronologically sorted history
  (`sorting.dfy`). That fold is then proved equal to a running sum;
- the handlers that edit the selected month, add a month, restore a backup and
  pick the record on screen. They are written as the `Store.RecordStore` class
  (`store.dfy`), with its list updates in `edits.dfy`;
- hydration of saved records against the catalog (`hydration.dfy`);
- the text layer of the compact share format, `Name|55|10|10|10|10|5`
  (`codec.dfy`);
- a worked example of the engine (`scenarios.dfy`).

Amounts are exact `real`s. Percentages are integers. A month is a
`(year, month)` pair; its "YYYY-MM" text and the fact that text order is
chronological order are proved in `months.dfy`. Generated ids, the current
month, the user's confirmation and the contents of storage and of the share
link are parameters.

Where the code does something other than what it appears meant to do, the
model follows the code:

- Adding a month is not idempotent. The handler computes the month after the
  *array-last* record. After a successful add, a second call therefore adds the
  month after that one (`Store.AddMonthTwice`). The duplicate-month guard
  (App.tsx:249) suggests a repeated call was meant to do nothing, but it only stops the call
  when the array-last record is not the latest month and its successor already
  exists.
- A new month gets the last record's jar list. In the app that list is shared by
  reference with the previous record. Dafny values make it a copy, which the
  app's copy-on-write handlers cannot tell apart.
- With an empty history, adding a month crashes the app. The model returns
  `NoRecords` instead. When the last month is not a valid month, the date
  conversion throws; the model returns `InvalidMonth`.

## Model

| member | source | states |
|---|---|---|
| Months.NextMonth | App.tsx:245-248 | the month after a valid month is later, with no valid month in between; December rolls over to January of the next year |
| Months.PaddedValue | App.tsx:77-79 | a number that fits the width reads back from its zero-padded digits |
| Months.Format | App.tsx:77-79 | a valid month is written as seven characters: four digits reading as the year, a dash, two digits reading as the month |
| Months.FormatOrder | types.ts:36 | for valid months, text order of the "YYYY-MM" strings is chronological order, and equal texts are equal months |
| Types.ParseJarId | types.ts:8 | a stored code names a jar exactly when it is one of the six codes, and then names the jar with that code |
| Types.ParseCode | types.ts:8 | every jar's code reads back as that jar |
| Catalog.CatalogOrder | constants.tsx:11-60 | the catalog has six entries, in the order NEC, FFA, LTS, EDU, PLAY, GIVE |
| Catalog.CatalogLookupUnique | constants.tsx:13-53 | catalog ids are pairwise distinct, so each id has exactly one entry |
| Catalog.DefaultPercentages | constants.tsx:15-55 | every default percentage is between 1 and 100 and together they sum to 100 |
| Catalog.CatalogJar | App.tsx:51 | the id-to-jar map gives the unique catalog entry with that id |
| Catalog.LookupCode | App.tsx:62-63 | a stored code finds a catalog entry exactly when it is a jar code, and finds the entry with that code |
| Catalog.SumPercentagesAppend | App.tsx:184 | the total percentage of a concatenation of jar lists is the sum of their totals |
| Catalog.SumPercentagesBound | App.tsx:184 | jars whose percentages lie in 0..100 total between 0 and 100 per jar |
| Catalog.CatalogHasMetadata | constants.tsx:11-60 | every catalog entry carries its own name and description |
| Sorting.Insert | App.tsx:154 | inserting after every record with a month not later than its own keeps the records (as a multiset) and keeps them sorted |
| Sorting.SortByMonth | App.tsx:154 | the sorted copy is a permutation of the history and is in chronological order |
| Sorting.SortedUniqueDetermined | App.tsx:154 | two sorted permutations of a history with unique months are equal |
| Sorting.SortIndependentOfOrder | App.tsx:154 | with unique months the sorted copy does not depend on the order of the records |
| Engine.CalculateJarBalances | App.tsx:151-181 | the loop's result is the fold of the per-month step over the sorted copy, and it has an entry for exactly the months of the history |
| Engine.AllocateJarsRunning | App.tsx:160-169 | after a month, each jar id's running balance has moved by that month's net change for the id, and ids the month does not list keep their balance |
| Engine.NetChangeOfListedJar | App.tsx:161-168 | when a month lists each jar once, a listed jar changes by its income share minus its own spending |
| Engine.OrphanExpenseIgnored | App.tsx:162-164 | an expense charged to a jar the month does not list changes no allocated jar of that month |
| Engine.RunRunning | App.tsx:153-169 | the running balance after a run is the sum of every month's contribution; an id not seen yet is 0 |
| Engine.MonthsCovered | App.tsx:178 | every month of the history gets an entry and no other month does |
| Engine.MonthEntryShape | App.tsx:160-178 | a month's entry lists as many allocated jars as the month lists, in order, each with the jar unchanged, its share total income × percentage / 100 and its spending the sum of that month's expenses charged to it |
| Engine.BalanceIsRunningSum | App.tsx:156-169 | the running balance of a listed jar in month M is the sum over all records with a month not later than M of income share minus spending; nothing is clamped |
| Engine.BalancesIndependentOfOrder | App.tsx:154 | with unique months the engine's output does not depend on the order of the records |
| Hydration.HydrateJar | App.tsx:61-67 | a saved jar is dropped exactly when its id is not a catalog code; a kept jar has the catalog metadata and the saved percentage, or the default when none was saved |
| Hydration.HydrateJars | App.tsx:61-68 | a hydrated list is no longer than the saved one and every jar carries catalog metadata |
| Hydration.HydrateRecords | App.tsx:50-75 | same length and months as the input; missing incomes and expenses become empty; a missing jar list becomes the catalog; a saved jar list becomes its reconciliation against the catalog (unknown ids dropped, saved percentages laid over the catalog jars); every jar carries catalog metadata |
| Hydration.HydrateJarsAppend | App.tsx:61-68 | each saved jar is hydrated on its own, so concatenation is preserved |
| Hydration.UnknownJarDropped | App.tsx:63-68 | a saved jar with an unknown id leaves no trace |
| Hydration.KnownJarsKept | App.tsx:61-68 | when all ids are known every jar is kept, in saved order |
| Hydration.SavedJarsRestore | App.tsx:61-68 | catalog jars saved with their percentages hydrate back to themselves |
| Hydration.BackupRoundTrip | App.tsx:254-256 | restoring a backup of a history whose jars carry catalog metadata gives that history back |
| Hydration.HydrationStable | App.tsx:50-75 | hydrating a backup of hydrated records changes nothing |
| Codec.Split | App.tsx:35 | splitting gives one more field than there are separators, none containing a separator |
| Codec.SplitJoin | App.tsx:26 | joining separator-free fields and splitting again gives the fields back |
| Codec.SplitAppend | App.tsx:35 | text after a further separator only adds fields at the end |
| Codec.ParseInt | App.tsx:41 | parsing gives a number exactly when a digit follows the leading white space and optional sign |
| Codec.ParseIntToText | App.tsx:26 | every integer written as text parses back to itself |
| Codec.Encode | App.tsx:25-27 | the share text's fields are the name's fields followed by the month's percentages, in the month's jar order; a month with no jars adds one empty field |
| Codec.FieldPercentage | App.tsx:41 | a field that parses to a non-zero number gives that number; one that parses to zero or to no number gives the default; with a non-zero default the result is never zero |
| Codec.DecodeJars | App.tsx:39-42 | six catalog jars with catalog metadata; jar i takes field i's parsed value when that is a non-zero number, and its default when the field is zero or no number |
| Codec.Decode | App.tsx:32-44 | fails exactly when there are fewer than seven fields; otherwise the name is field 0 and there are six catalog jars with catalog metadata; jar i takes field i + 1's parsed value when that is a non-zero number, and the catalog default when it is zero or no number |
| Codec.NonNumericStart | App.tsx:41 | text whose first character is not white space, a sign or a digit parses to no number |
| Codec.NonNumericPercentageReverts | App.tsx:41 | a percentage field whose first character is not white space, a sign or a digit holds no number, and the jar keeps the catalog default |
| Codec.ExtraFieldsIgnored | App.tsx:35-42 | fields after the seventh do not change what is decoded |
| Codec.ZeroPercentageReverts | App.tsx:41 | a shared 0 comes back as the catalog default |
| Codec.ShareRoundTrip | App.tsx:25-44 | a name without separators and six non-zero percentages decode to that name ("User" for an empty name) and those percentages, assigned to the catalog jars by position |
| Codec.ShareNeedsSixJars | App.tsx:26-36 | a share of a month with fewer than six jars cannot be decoded, and one with six or more can |
| Edits.EditIncomes | App.tsx:192 | editing keeps the length, order and ids and changes the amount and description of exactly the incomes with the id |
| Edits.RemoveIncomes | App.tsx:206 | deleting keeps exactly the incomes whose id differs |
| Edits.RemoveIncomeSingle | App.tsx:206 | a single income is kept exactly when its id is not the deleted one |
| Edits.RemoveIncomesAppend | App.tsx:206 | deletion filters each income on its own, so the kept incomes stay in order with every copy kept |
| Edits.EditAbsentIncome | App.tsx:192 | editing an id that is not present changes nothing |
| Edits.EditIncomesIdempotent | App.tsx:192 | saving the same edit twice equals saving it once |
| Edits.RemoveAbsentIncome | App.tsx:206 | deleting an id that is not present changes nothing |
| Edits.DeleteUndoesAddIncome | App.tsx:194-195 | deleting an income just added under a fresh id restores the list |
| Edits.AddIncomeTotal | App.tsx:195 | adding an income raises the month's total income by its amount |
| Edits.EditIncomeTotal | App.tsx:192 | with distinct ids, an edit replaces the income's amount in the month's total |
| Edits.RemoveIncomeTotal | App.tsx:206 | with distinct ids, deleting an income lowers the month's total by its amount |
| Edits.EditExpenses | App.tsx:225 | editing keeps the length and order and replaces exactly the expenses with the id by the submitted jar, amount and description under the same id |
| Edits.RemoveExpenses | App.tsx:239 | deleting keeps exactly the expenses whose id differs |
| Edits.RemoveExpenseSingle | App.tsx:239 | a single expense is kept exactly when its id is not the deleted one |
| Edits.RemoveExpensesAppend | App.tsx:239 | deletion filters each expense on its own, so the kept expenses stay in order with every copy kept |
| Edits.RemoveAbsentExpense | App.tsx:239 | deleting an id that is not present changes nothing |
| Edits.EditAbsentExpense | App.tsx:225 | editing an id that is not present changes nothing |
| Edits.DeleteUndoesAddExpense | App.tsx:227-228 | deleting an expense just added under a fresh id restores the list |
| Edits.AddExpenseSpent | App.tsx:228 | adding an expense raises the spending of its own jar by its amount and of no other jar |
| Edits.SpentOnReplace | App.tsx:162-164 | replacing one expense changes a jar's spending by the new charge minus the old one |
| Edits.EditExpenseSpent | App.tsx:225 | with distinct ids, an edit moves the expense's charge from its old jar and amount to its new jar and amount |
| Edits.RemoveExpenseSpent | App.tsx:239 | with distinct ids, deleting an expense gives its amount back to its own jar only |
| Edits.SetPercentage | App.tsx:214 | exactly the jars with the id take the new percentage; nothing else changes |
| Edits.SetPercentageAbsent | App.tsx:214 | changing the percentage of a jar the month does not list changes nothing |
| Edits.SetPercentageTotal | App.tsx:184 | with distinct ids, the month's total percentage changes by new minus old; nothing is normalised |
| Edits.SetPercentageKeepsIds | App.tsx:214 | changing a percentage keeps every jar's id, so a list with distinct ids keeps them distinct |
| Store.ApplyToRecord | App.tsx:186-242 | a handler never changes the month, and changes only the list it is about |
| Store.ApplyToMonth | App.tsx:187-188 | only records of the selected month change; the length and every record's month stay the same |
| Store.ApplyKeepsShape | App.tsx:187-188 | a handler keeps months unique and keeps a chronological history chronological |
| Store.ApplyToAbsentMonth | App.tsx:188 | when no record has the selected month, a handler changes nothing |
| Store.EarlierMonthsUnaffected | App.tsx:151-181 | after any edit of month M, every allocated jar of every month before M is exactly as before |
| Store.AddedIncomeRecord | App.tsx:194-197 | adding an income raises the month's total income by its amount and keeps its jars |
| Store.AddedIncomeRaisesShares | App.tsx:194-195 | adding an income raises each jar's share of that month to its percentage of the new total |
| Store.FindMonth | App.tsx:148 | finds the first record with the month, or reports that there is none |
| Store.CurrentMonthRecord | App.tsx:147-149 | the record shown is the first record of the selected month, or the last record when none has it, or none for an empty history |
| Store.AddMonthOutcomeOf | App.tsx:244-249 | adding a month fails without records or with an invalid last month, is stopped when the successor of the last record exists, and otherwise adds that successor |
| Store.NewMonthRecord | App.tsx:250 | the added record has the new month, the last record's jars and empty income and expense lists, so no income and no spending on any jar |
| Store.AfterAddMonth | App.tsx:249-250 | the history is unchanged unless the add succeeds, and then it is the old records followed by the new month's record; unique months stay unique |
| Store.AddMonthKeepsOrder | App.tsx:244-252 | on a chronological history of unique valid months the add always succeeds and the history stays chronological with unique valid months |
| Store.AddMonthTwice | App.tsx:244-252 | two adds in a row add two consecutive months |
| Store.IdleMonth | App.tsx:161-168 | a month with no income and no expense changes no balance |
| Store.NewMonthCarriesBalances | App.tsx:250 | the added month starts each jar at its running balance, with nothing added or spent |
| Store.Start | App.tsx:81-122 | the start history is never empty unless saved data holds an empty history; with no decodable share and no saved data it is one empty month of the current month on the catalog jars, with an empty name |
| Store.ShareSeedKeepsJars | App.tsx:85-100 | a decodable share wins over whatever storage holds, and starts one empty month holding exactly the shared jars and the shared name |
| Store.RecordStore.constructor | App.tsx:127-129 | the app opens on its start history and name and selects the last record's month |
| Store.RecordStore.SelectedMonthJars | App.tsx:183 | the jars shown are the engine's entry for the selected month, or none; with unique months as many as that month lists |
| Store.RecordStore.SaveIncomeForm | App.tsx:186-200 | the selected month's incomes are edited (non-empty form id) or extended by one income with the fresh id; nothing else changes |
| Store.RecordStore.DeleteIncomeById | App.tsx:202-209 | once confirmed, the incomes with the id leave the selected month; nothing else changes |
| Store.RecordStore.SetJarPercentage | App.tsx:211-217 | the jar's percentage changes in the selected month only |
| Store.RecordStore.SaveExpenseForm | App.tsx:219-233 | the selected month's expenses are edited or extended by one expense with the fresh id; nothing else changes |
| Store.RecordStore.DeleteExpenseById | App.tsx:235-242 | once confirmed, the expenses with the id leave the selected month; nothing else changes |
| Store.RecordStore.AddNewMonth | App.tsx:244-252 | the outcome and the new history are as above, and an added month is selected |
| Store.RecordStore.RestoreData | App.tsx:254-261 | the history becomes the hydrated backup and the name the backup's; the last restored month is selected when there is one |
| Scenarios.CatalogContribution | App.tsx:160-168 | on the catalog jar list each jar's contribution is its own share minus its own spending |
| Scenarios.JanuaryContributions | App.tsx:157-168 | an income of 1000 gives necessities 550, play 100 and giving 50 |
| Scenarios.FebruaryContributions | App.tsx:157-168 | spending 200 and 300 without income takes exactly that from necessities and play |
| Scenarios.MarchContributions | App.tsx:162-164 | a month that does not list the giving jar contributes nothing to it |
| Scenarios.TwoMonthSums | App.tsx:151-181 | running sums for the two-month history: 550, then 350; play ends at -200 |
| Scenarios.JanuaryEntry | App.tsx:151-181 | with the records stored out of order, January's necessities jar receives 550 and holds 550 |
| Scenarios.FebruaryEntry | App.tsx:151-181 | February's necessities jar spends 200 and holds 350, and the play jar holds -200 |
| Scenarios.ThreeMonthSum | App.tsx:162-169 | the giving jar's running sum through March stays 50 |
| Scenarios.OrphanExpenseLost | App.tsx:160-178 | a month listing only necessities shows only that jar, and its expense charged to giving is charged nowhere |

## Left out

- Display colour and icon of the jars, the React rendering, modal state and the month list shown in the navigator: presentation only.
- Browser storage, JSON parsing, the query string and `history.replaceState`: the saved data and the share text reach `Store.Start` as parameters. An unreadable store is the same as no saved data.
- The base64 and URI wrapping of the share text: foreign encoding calls. The model starts from the decoded `|`-delimited text; a link that fails to unwrap is the same as no link.
- The share link and QR code URLs: external endpoints and presentation.
- The financial-advice request and its loading and error state: an external service whose code is not part of this model.
- `Date.now()`, `Math.random()`, `new Date()` and `window.confirm`: fresh ids, the current month and the user's answer are parameters. The app does not check that a generated id is fresh. Only the lemmas about undoing an add assume it.
- Date and time-zone behaviour of the month step: noon UTC on the first of the month stays in the same month in every time zone, so `Months.NextMonth` is pure month arithmetic.
- Months.NextMonth: the month after December 9999 has a year the "YYYY-MM" text cannot hold (the app would write "+010000"). The model reports `InvalidMonth` for it.
- Floating-point rounding of amounts and of `income × percentage / 100`: amounts are exact reals.
- Percentages are integers. A non-integer or missing percentage inside a typed record, and expense jar ids outside the six codes, are not modelled. The app's type for a percentage is any number, fractions included; the model restricts percentages to integers. The app's types do exclude other expense jar ids, and only saved jars are checked against the catalog.
- Month keys are `(year, month)` pairs. A saved or restored record whose month is not "YYYY-MM" text cannot be represented, although the app copies the stored month text verbatim (App.tsx:54).
- A saved jar with `percentage: null` keeps that null in the app (the check is `!== undefined`, App.tsx:66). A saved percentage here is an `Option<int>`, which has no separate null.
- Codec.ParseInt: the digit run is read exactly. The platform loses precision past 2^53, which is not modelled.
- Codec.IntToText: integers are written in plain decimal. Exponent notation for very large numbers is not modelled.
- The saved-data check accepts an empty history. The app then fails while selecting the last month. The model's `RecordStore.constructor` requires a non-empty start history, and `Store.Start` states when that holds.
- Restoring an empty backup leaves the selected month unchanged, as in the app. The app then finds no record to show and fails when it totals that missing record's percentages (App.tsx:148 and App.tsx:184). The model does not fail: `CurrentMonthRecord` returns none.
- Between a handler call and the state update, React may batch updates or read a stale closure. Each handler is modelled as one atomic step on the current state.
