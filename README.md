# Expense Tracker ledger: a Dafny model

This project models the ledger logic of a browser expense tracker
(`script.js`). The ledger is a list of income and expense records. The model
has two parts:

- **Ledger Store** (`ledger_store.dfy`, module `LedgerStore`). The page's
  `transactions` array and `currentFilter` are fields of the class `Ledger`.
  Its methods are `addTransaction` (validate, build a signed record, append,
  persist), `deleteTransaction` (keep every record whose id differs),
  `clearAllTransactions` (nothing to clear on an empty ledger, otherwise
  empty it), and the saving and loading of the list under the
  `transactions` key of local storage.
- **View Projector** (`view_projector.dfy`, module `ViewProjector`). Pure
  functions over the record sequence: `calculateTotals`, the figures
  `updateSummary` writes (counts, expense ratio, balance colour), the
  filter and sort of `renderTransactions`, and `getCategoryIcon`.

The JavaScript built-ins that the code relies on are modelled on Dafny
sequences:

- `js_array.dfy` (`JsArray`) has `map`, `filter` and the summing `reduce`.
- `js_string.dfy` (`JsString`) has `trim`, `toLowerCase` and `includes`.

`transactions.dfy` (`Transactions`) holds the record type.

Amounts are whole cents (`int`), not JavaScript numbers. The record's `type`
field is named `kind`, because `type` is a reserved word in Dafny. It stays
a string, since the code compares it against arbitrary strings. Inputs the
code gets from the outside are parameters:

- `Date.now()` becomes the `id` parameter.
- `toLocaleString()` becomes the `date` parameter.
- `confirm()` becomes the `confirmed` parameter.
- `parseFloat` becomes an already-parsed `ParsedAmount`.
- The search box text becomes the `searchBoxValue` parameter.
- Each `alert()` becomes a returned status value.

Some behaviours of the code are worth stating outright:

- Any type other than `"income"` is stored negated (script.js:99). Types are
  not restricted to two values.
- A delete persists only when confirmed (script.js:120-122).
- Ids are not assumed to be unique (two `Date.now()` calls can collide). So
  the sort is modelled as the stable sort that `Array.prototype.sort` is.
- The validation lets `Infinity` through: `!Infinity` is false and so is
  `Infinity <= 0` (script.js:85-90). The model's integer amounts have no
  such value.
- `JSON.parse` throws on malformed stored text (script.js:67). The model
  has no malformed case.

## Model

| member | source | states |
|---|---|---|
| `JsArray.Map` | script.js:145 | `map` keeps the length and applies the callback at every index |
| `JsArray.Filter` | script.js:149-151 | `filter` never lengthens the list and everything it keeps passes the predicate |
| `JsArray.FilterMembership` | script.js:121 | an element is in the filtered list exactly when it was in the list and passes |
| `JsArray.FilterCount` | script.js:190-202 | filtering keeps each passing element as many times as it occurred and drops every other element: no duplicates, nothing invented |
| `JsArray.FilterAppend` | script.js:121 | filtering distributes over concatenation, which is the same as keeping the relative order of survivors |
| `JsArray.FilterAllPass` | script.js:190-202 | a filter that every element passes returns the list unchanged |
| `JsArray.FilterNonePass` | script.js:149-151 | a filter that no element passes returns the empty list |
| `JsArray.FilterIdempotent` | script.js:190-202 | filtering twice with one predicate is the same as filtering once |
| `JsArray.FilterPartition` | script.js:169-170 | if each element passes exactly one of two predicates, the two filtered lengths add up to the length |
| `JsArray.MapAppend` | script.js:145 | `map` distributes over concatenation |
| `JsArray.Sum` | script.js:147-155 | the summing `reduce` of only positive amounts is at least their count, and of only negative amounts at most minus their count |
| `JsArray.SumAppend` | script.js:147 | the summing `reduce` of a concatenation is the sum of the two parts' sums |
| `JsArray.SumOfPositives` | script.js:149-151 | a sum of positive amounts is at least 0, and above 0 when there is any amount |
| `JsArray.SumOfNegatives` | script.js:153-155 | a sum of negative amounts is at most 0, and below 0 when there is any amount |
| `JsString.LeadingWhitespace` | script.js:79 | counts the whitespace prefix: every character in it is whitespace and the next one is not |
| `JsString.TrailingWhitespaceStart` | script.js:79 | finds where the whitespace suffix starts: every character after it is whitespace and the one before it is not |
| `JsString.Trim` | script.js:79 | `trim` never lengthens the text, and what it returns neither starts nor ends with whitespace |
| `JsString.TrimIsInnerSlice` | script.js:79 | `trim` returns a slice with only whitespace outside it, and it neither starts nor ends with whitespace |
| `JsString.TrimOfTrimmed` | script.js:79 | a string with no whitespace at either end trims to itself |
| `JsString.TrimEmptyIff` | script.js:79 | the trimmed description is empty exactly when the raw text is all whitespace |
| `JsString.LowerChar` | script.js:188 | lowering maps A-Z to a-z and leaves every other character alone |
| `JsString.Includes` | script.js:197 | the empty term is included in every text, and a term longer than the text never is |
| `JsString.ToLowerCase` | script.js:188-197 | `toLowerCase` keeps the length and lowers every character on its own |
| `JsString.IncludesIff` | script.js:197 | `includes` holds exactly when the term occurs at some position of the text |
| `Transactions.SignConsistent` | script.js:99 | a record that obeys the sign convention (positive for "income", negative for every other type) never has a zero amount |
| `ViewProjector.SumSplits` | script.js:147-155 | the sum of all amounts is the positive sum plus the negative sum |
| `ViewProjector.CalculateTotals` | script.js:144-158 | total = income + expense, income >= 0 and expense <= 0 |
| `ViewProjector.TotalsOfEmpty` | script.js:144-157 | an empty ledger has all three totals equal to 0 |
| `ViewProjector.TotalsAppend` | script.js:144-157 | appending a record moves the total by its amount, and moves the income or the expense total by it according to its sign |
| `ViewProjector.IncomeZeroIff` | script.js:149-151 | the income total is 0 exactly when no record is positive |
| `ViewProjector.CountOfKind` | script.js:169-170 | a per-type count is at most the number of records |
| `ViewProjector.CountsPartition` | script.js:169-170 | when every type is income or expense, the two counts add up to the number of records |
| `ViewProjector.ExpensePercentage` | script.js:171 | with income > 0 the ratio is the `Math.round` of 100·\|expense\|/income (within one half, halves rounded up); otherwise it is 0 |
| `ViewProjector.BalanceColor` | script.js:179-183 | the colour is green exactly when the total is >= 0, and red otherwise |
| `ViewProjector.UpdateSummary` | script.js:161-176 | balance = income − \|expense\|; the count is the number of records; when every type is known the two per-type counts sum to it; the ratio is `ExpensePercentage` of the shown income and expense, and 0 when there is no income; green exactly when the balance is >= 0 |
| `ViewProjector.SummaryOfEmpty` | script.js:161-176 | an empty ledger shows all zeros with a green balance |
| `ViewProjector.SalaryAndGroceries` | script.js:161-176 | income 1000.00 and expense 200.00 give balance 800.00, counts 2, 1 and 1, and ratio 20 |
| `ViewProjector.InsertById` | script.js:205 | one insertion step adds exactly the new record, and its head is either the new record or the old head |
| `ViewProjector.InsertKeepsSorted` | script.js:205 | inserting into a list ordered by id (highest first) keeps it ordered |
| `ViewProjector.SortByIdDesc` | script.js:205 | the sort returns a permutation of its input, ordered by id highest first |
| `ViewProjector.InsertKeepsOrderOfEqualIds` | script.js:205 | an insertion step keeps the order among records that share an id |
| `ViewProjector.SortKeepsOrderOfEqualIds` | script.js:205 | the sort is stable: records with equal ids keep their relative order |
| `ViewProjector.SortOfSorted` | script.js:205 | sorting a list already ordered by id leaves it unchanged |
| `ViewProjector.RenderListSpec` | script.js:188-205 | the displayed list holds exactly the records that pass the type filter and the lowered search, as many times as they occur in the ledger, ordered by id highest first |
| `ViewProjector.RenderListStable` | script.js:204-205 | in the displayed list, records with equal ids keep their order from the ledger |
| `ViewProjector.RenderListIdempotent` | script.js:188-205 | filtering and sorting the displayed list again returns it unchanged |
| `ViewProjector.TwoMatchesNewestFirst` | script.js:188-205 | two matching records are listed with the higher id first |
| `ViewProjector.CoffeeSearch` | script.js:188-205 | searching "coffee" among "Coffee" and "Coffee machine" lists both, with the newer one first |
| `ViewProjector.Passes` | script.js:190-202 | a record passes only when the filter is "all" or its type equals the filter, and only when its description is at least as long as a non-empty term; with filter "all" and no term every record passes |
| `ViewProjector.RenderList` | script.js:188-205 | the displayed list is ordered by id highest first, is no longer than the ledger, and every record on it passes the type filter and the lowered search |
| `ViewProjector.PermutationKeepsFilter` | script.js:204-205 | reordering the filtered list keeps its length, and every record on it still passes |
| `ViewProjector.GetCategoryIcon` | script.js:256-278 | a listed category gets its table icon; every other string gets `fa-circle`, which no listed category has |
| `ViewProjector.CategoryIconsListed` | script.js:257-276 | the table holds exactly the fifteen categories |
| `ViewProjector.GetCategoryIconAsWritten` | script.js:277 | the lookup as written agrees with `GetCategoryIcon` except on names inherited from Object.prototype |
| `ViewProjector.InheritedMemberDefeatsDefault` | script.js:277 | the category "toString" is not listed, yet the lookup as written returns the inherited function instead of `fa-circle` |
| `LedgerStore.NewTransaction` | script.js:79-103 | a record that gets built has a non-empty description and category, and its sign matches its type |
| `LedgerStore.NewTransactionRejects` | script.js:79-93 | add is refused exactly when the description is all whitespace, the amount is NaN or <= 0, or the category is empty; "must be greater than 0" is reported exactly when only the sign is wrong |
| `LedgerStore.NewTransactionBuilds` | script.js:95-103 | a valid add builds its record from the inputs, with the trimmed description and a magnitude equal to the amount |
| `LedgerStore.WithoutId` | script.js:121 | after a delete no record has the deleted id, and the list is no longer than before |
| `LedgerStore.WithoutIdKeeps` | script.js:121 | a delete keeps every record whose id differs, as many times as it occurred, and nothing else |
| `LedgerStore.WithoutIdKeepsSigns` | script.js:121 | when every record obeys the sign convention, so does every record left after a delete |
| `LedgerStore.WithoutIdAppend` | script.js:121 | a delete keeps the survivors in their original relative order |
| `LedgerStore.WithoutAbsentId` | script.js:121 | deleting an id that no record has changes nothing |
| `LedgerStore.SummaryAfterDelete` | script.js:121 | after a delete, the count is the records that do not have the deleted id |
| `LedgerStore.SummaryAfterAdd` | script.js:105-108 | after a valid add, the count grows by 1, the balance moves by the signed amount, and either income or expense grows by the amount, according to the type |
| `LedgerStore.Ledger.constructor` | script.js:2-3 | the page starts with an empty ledger and the filter set to "all" |
| `LedgerStore.Ledger.LoadTransactions` | script.js:65-68 | loading takes the stored list, or the empty list when the key is absent |
| `LedgerStore.Ledger.SaveTransactions` | script.js:71-73 | saving makes the stored copy equal the ledger and changes nothing else |
| `LedgerStore.Ledger.AddTransaction` | script.js:76-108 | a valid add appends exactly one sign-consistent record and persists; an invalid add changes nothing; a ledger whose records all obey the sign convention still does afterwards |
| `LedgerStore.Ledger.DeleteTransaction` | script.js:119-126 | once confirmed, the ledger becomes the records with a different id and is persisted; without confirmation nothing changes; the sign convention over all records is kept |
| `LedgerStore.Ledger.ClearAllTransactions` | script.js:129-141 | an empty ledger reports nothing to clear; a confirmed clear leaves the ledger empty and persisted; otherwise nothing changes; the sign convention over all records is kept |
| `LedgerStore.Ledger.SetFilter` | script.js:48-54 | a filter button sets the type filter and leaves the records alone |
| `LedgerStore.Ledger.RenderTransactions` | script.js:187-205 | the shown list is the filtered ledger ordered by id, and holds exactly the passing records |
| `LedgerStore.Ledger.Summarize` | script.js:161-176 | the summary is computed over the whole ledger, not the displayed subset |
| `LedgerStore.SaveThenLoad` | script.js:65-73 | saving and then loading gives back the same list, in the same order |
| `LedgerStore.SalaryThenGroceries` | script.js:76-108 | two adds through the store (salary, then groceries) produce the summary 800.00 / 1000.00 / 200.00 / 2 / 1 / 1 / 20% |

## Left out

- DOM work is not modelled: element lookup, event wiring, `innerHTML` markup, form reset and focus, and the empty-state message (script.js:6-62, 207-252). It is presentation.
- `renderTransactions` calls `updateSummary` only when the list is non-empty. That changes when the page is redrawn, not what is computed, so it is not modelled.
- JSON encoding is not modelled. The stored value is the decoded list, or `None` when the key is absent. Without an encoding that could fail, the case of malformed stored text, which the code does not handle, cannot arise.
- `parseFloat` and floating-point arithmetic are not modelled. Amounts are integer cents. Text such as "12abc" parses to its leading number. Amounts with fractions of a cent, `Infinity` and float rounding are outside the model.
- `ViewProjector.ExpensePercentage`: computes exactly. It does not capture floating-point error in `Math.abs(expense) / income * 100` near a half.
- `JsString.LowerChar`: lowers ASCII letters only. The full Unicode case mapping of `toLowerCase` is not modelled.
- The clock calls `Date.now()` and `toLocaleString()` are parameters. Ids are not assumed unique, so no lemma depends on uniqueness.
- `formatCurrency` (`Intl.NumberFormat`) is a locale library call. It is not modelled.
- `escapeHtml` relies on the DOM's `textContent`. It is not modelled.
- `alert` and `confirm` are user interaction. They are modelled as returned outcomes and a `confirmed` parameter.

## Findings

| source | as written | input that shows it | evidently intended | confidence | as-written member | corrected member |
|---|---|---|---|---|---|---|
| script.js:277 | `icons[category] \|\| 'fa-circle'` reads through the object literal's prototype chain, so a name inherited from Object.prototype yields a truthy function and not the default | category `"toString"` (or `"constructor"`, `"valueOf"`, `"__proto__"`, …), reachable through edited stored records | every unlisted category gets `fa-circle` (an own-property lookup) | high for the language semantics, low impact because the form offers only listed categories; not executed | `ViewProjector.GetCategoryIconAsWritten`, `ViewProjector.InheritedMemberDefeatsDefault` | `ViewProjector.GetCategoryIcon` |
