# Budget tracker — a verified Dafny model

This project models the core of a two-person budget tracker. The tracker has
two parts.

- A FastAPI backend. The full backend keeps users, categories and expenses,
  computes a monthly summary, seeds default data, and imports and exports
  expenses as CSV. A simplified backend works on a ledger of income and
  expense transactions.
- A React client. The model covers the Add, Edit, List and Detail pages for
  expenses, the Users, Reports and Import/Export pages, and the transaction
  list of the simplified client.

How it is modelled:

- The database is an in-memory `Store` class (module `Crud`) with one sequence
  per table and one id counter per table. The simplified backend's database is
  the `Ledger` class (module `SimpleBackend`). Operations that change a table
  are methods with `modifies` clauses. Queries and summaries are functions.
  Each method is proved against those functions.
- CSV import is a preview stage (`CsvImport`) and a confirmation stage
  (`CsvConfirm`). Export is `CsvExport`. Lemmas tie the stages together: every
  row the preview accepts is imported by the confirmation, and every exported
  row is read back by the preview as valid exactly when its amount is positive
  and its category is known.
- Each client page is a class whose fields are the page's React state, or a
  state datatype for the Detail page. Event handlers are methods. Server
  responses, the clock ("today") and the answer of a confirmation dialog are
  parameters. A response is `Some`/`Ok` for a request that succeeded and
  `None`/`Err` for one that failed.
- Amounts are `real`. Dates are `Date(year, month, day)` with a 1-based month.
  JavaScript numbers from `parseInt`/`parseFloat` are `JsNumber`, which is
  either a finite value or NaN. JavaScript's `setMonth` day overflow, date-fns
  `subMonths` clamping, `Math.round`, Python's `float()` and `str.strip()`, and
  `strptime('%Y-%m-%d')` on ASCII digits are each written out (modules `Dates`,
  `Numbers`, `Text`, `Display`).
- The database's refusals are a `DbError`: a second category with the same
  name, and a null written to a NOT NULL column. Either one leaves the store
  as it was.

Behaviour the model makes explicit:

- Exporting "last three months" on 30 April starts on 1 March, not
  1 February. `setMonth` turns 30 February into a day in early March
  (`ImportExportPage.Last3MonthsFromApril30`).
- On the Detail page, an expense that is alone in its category and month
  shows a category total of 0, not its own amount
  (`ExpenseDetailPage.CategoryTotalOfLoneExpense`).
- Deleting a user or a category that still has expenses fails and deletes
  nothing (`Crud.Store.DeleteUser`, `Crud.Store.DeleteCategory`), although the
  confirmation on the Users page says the user's expenses are kept. See
  "## Findings".
- The create and update endpoints store whatever user and category ids they
  are given. An expense whose id matches no stored user or category still
  counts in the month's total but in no group row of the summary
  (`Crud.OrphanInNoGroup`). Exporting such an expense makes the whole export
  fail (`CsvExport.ExportFailsExactly`). While every expense's user and
  category exist, which the deletes keep, the export succeeds
  (`CsvExport.ExportSucceedsWhenReferencesResolve`).
- The "duplicate" link of the Detail page puts the expense's fields into
  query parameters (`ExpenseDetailPage.Duplicate`). The Add page never reads
  query parameters (`frontend/src/pages/AddExpense.tsx`), so the duplicate
  opens an ordinary empty form.

## Model

| member | source | states |
|---|---|---|
| Crud.PatchUserLaws | backend/crud.py:21-29 | An update fails with a NOT NULL violation exactly when it sends a null name. Otherwise it sets the fields present and keeps the others; an empty update changes nothing, applying an update twice equals applying it once, and the id never changes. |
| Crud.PatchExpenseLaws | backend/crud.py:99-107 | An update fails with a NOT NULL violation exactly when it sends a null amount, date, user id or category id. Otherwise fields present are set, a null description clears it, absent fields keep their values; an empty update changes nothing and applying one twice equals applying it once. |
| Crud.CategoryByName | backend/crud.py:52-53 | Finds a category with exactly that name, and finds none exactly when no category has it. |
| Crud.Matching | backend/crud.py:85-92 | Keeps exactly the expenses passing every truthy filter, with inclusive date bounds. |
| Crud.GetExpenses | backend/crud.py:80-94 | The result holds only matching stored expenses, newest first. It is exactly the window of the ordered matches that starts at `skip` (0 when negative) and holds `limit` rows (all the rest when negative) or as many as remain. |
| Crud.GetExpensesComplete | backend/crud.py:94 | With no positive offset and a limit that is negative or not reached, the result is a permutation of all matching expenses. |
| Crud.ZeroIdIsNoFilter | backend/crud.py:85-88 | A user or category id of 0 filters exactly like an absent id. |
| Crud.InMonth | backend/crud.py:119-129 | Keeps exactly the expenses dated in the given year and month. |
| Crud.Keys | backend/crud.py:132-170 | One group key per category (or user), carrying its id, name and colour, in table order. |
| Crud.WithKey | backend/crud.py:132-142 | Keeps exactly the expenses whose category (or user) is the given id. |
| Crud.WithoutKey | backend/crud.py:132-142 | Keeps exactly the expenses whose category (or user) is not the given id. |
| Crud.GroupRows | backend/crud.py:132-146 | At most one row per key, and every row counts at least one expense: the inner join drops empty groups. |
| Crud.SplitByKey | backend/crud.py:132-146 | Splitting by one key partitions the expenses: totals and counts add up. |
| Crud.WithKeyOfWithout | backend/crud.py:132-146 | Removing one key's expenses does not change another key's expenses. |
| Crud.GroupRowsOfWithout | backend/crud.py:132-146 | Expenses of an id that no key has do not change the group rows. |
| Crud.AllKeyedWithout | backend/crud.py:132-146 | Dropping one key and its expenses keeps the other keys distinct and every remaining expense keyed. |
| Crud.GroupRowsPartition | backend/crud.py:132-177 | When the keys are distinct and every expense has one, the group totals add up to the total and the counts to the count. |
| Crud.OrphanInNoGroup | backend/crud.py:119-146 | An expense whose category (or user) id matches no stored record counts in the month total but in no group row. |
| Crud.PercentageTotalOfRows | backend/crud.py:144-153 | The groups' percentages add up to the percentage of the groups' total. |
| Crud.GroupSharesAddUp | backend/crud.py:119-177 | With every expense keyed, the group rows cover the whole month, and the percentages add up to 100 whenever the total is positive. |
| Crud.SeedCategoriesCovers | backend/crud.py:189-208 | Seeding only appends and afterwards every default name is present. |
| Crud.SeedCategoriesPresent | backend/crud.py:204-206 | When every default name is present, seeding changes nothing. |
| Crud.SeedCategoriesIdempotent | backend/crud.py:189-208 | Seeding twice equals seeding once. |
| Crud.Store.constructor | backend/models.py:6-41 | An empty, valid store: the three tables with no rows. |
| Crud.Store.GetUsers | backend/crud.py:15-16 | The users from position `skip` on, in table order, `limit` of them or as many as remain. With the default 100, the 101st user onwards is left out (see `CsvImport.ImportSeesFirstHundredUsers`). |
| Crud.Store.GetCategories | backend/crud.py:46-47 | The same window over the categories. |
| Crud.Store.CreateUser | backend/crud.py:8-13 | Appends the user with the next id and changes no other table. Ids stay unique. |
| Crud.Store.UpdateUser | backend/crud.py:21-29 | An unknown id gives `Ok(None)` and changes nothing. A null name fails the commit and changes nothing. Otherwise the user is patched in place and returned. |
| Crud.Store.DeleteUser | backend/crud.py:31-36 | An unknown id gives `Ok(None)`. While any expense refers to the user, the commit fails with a NOT NULL violation and nothing changes. Otherwise the user is removed and the others keep their order. Expenses never change, and if every expense had its user before, it still does. |
| Crud.Store.DeleteUserKeepingExpenses | frontend/src/pages/Users.tsx:86 | The delete the confirmation describes: the user is removed, the others keep their order, and every expense stays. |
| Crud.Store.CreateCategory | backend/crud.py:39-44 | A taken name violates the unique constraint and stores nothing. Otherwise the category is appended with the next id. |
| Crud.Store.UpdateCategory | backend/crud.py:55-63 | Every field is overwritten. An unknown id gives `None`, and a name held by another category is a constraint violation that changes nothing. |
| Crud.Store.DeleteCategory | backend/crud.py:65-70 | An unknown id gives `Ok(None)`. While any expense is in the category, the commit fails and nothing changes. Otherwise the category is removed, names stay unique, and if every expense had its category before, it still does. |
| Crud.Store.CreateExpense | backend/crud.py:73-78 | Appends the expense with the next id; user and category ids are stored as given. |
| Crud.SetExpenseFields | backend/crud.py:102-104 | The `setattr` loop writes each field present in the request; a null in a NOT NULL column makes the commit fail, otherwise the result is the patched expense. |
| Crud.Store.UpdateExpense | backend/crud.py:99-107 | An unknown id gives `Ok(None)`. A null amount, date or id fails the commit and changes nothing. Otherwise only the fields present change. |
| Crud.Store.DeleteExpense | backend/crud.py:109-114 | An unknown id returns `None`. Otherwise exactly that expense is removed. |
| Crud.ExpenseBlocksDelete | backend/crud.py:31-36 | Any one expense of a user (or category) makes it referenced, so deleting it is refused. |
| Crud.RemoveUnreferenced | backend/crud.py:31-36 | Removing a record no expense refers to leaves every expense's record in place. |
| Crud.SummarizeRows | backend/crud.py:144-177 | The append loop gives one summary per grouped row, in row order, each with its percentage of the month's total. |
| Crud.Store.GetMonthlySummary | backend/crud.py:117-187 | Total and count of the month's expenses; a daily average of total/30 regardless of month length, 0 when empty; one row per category and per user with expenses, each with its percentage. |
| Crud.Store.SeedFrom | backend/crud.py:204-206 | The insert loop creates, in order, each default whose name is absent. |
| Crud.Store.CreateDefaultCategories | backend/crud.py:189-208 | Equals the seeding function on the ten default categories. |
| Crud.Store.CreateDefaultUser | backend/crud.py:210-215 | Creates "You" only when there are no users. |
| CsvImport.ImportSeesFirstHundredUsers | backend/main.py:177 | A name is known to the import exactly when one of the first 100 users has it, so the 101st user onwards is never found. |
| CsvImport.ImportSeesFirstHundredCategories | backend/main.py:178 | A category name is known to the import exactly when one of the first 100 categories has it. |
| CsvImport.UserIndexSpec | backend/main.py:177 | The user index holds every user under its lower-cased name, and the last user with that key wins. |
| CsvImport.CategoryIndexSpec | backend/main.py:178 | The same for the category index. |
| CsvImport.ClassifyRow | backend/main.py:181-244 | A valid row has a positive amount, a real ISO date and a known category. A new user is recorded only if unknown. |
| CsvImport.CheckAmount | backend/main.py:203-237 | After the date check, a valid row has a positive amount and the ISO text of the parsed date. |
| CsvImport.CheckNames | backend/main.py:215-237 | After the amount check, a valid row keeps that date and amount and has a known category. |
| CsvImport.NamesStage | backend/main.py:215-237 | The name stage accepts exactly when the user and category cells are present, the category is known and the description is present. |
| CsvImport.AmountStage | backend/main.py:203-213 | The amount stage and the stages after it accept exactly when the amount parses above zero and the names pass. |
| CsvImport.ValidExactly | backend/main.py:183-237 | A row is valid if and only if it has the required columns, a valid date, an amount above zero (so 0 is rejected) and a known category. |
| CsvImport.ValidRowRecordsNewUser | backend/main.py:215-218 | A valid row whose user is unknown adds that user's stripped name to the new users. |
| CsvImport.NamesUser | backend/main.py:215-218 | The same at the name stage. |
| CsvImport.DateCheckedAfterColumns | backend/main.py:183-200 | A date error implies that the columns were all present. |
| CsvImport.AmountCheckedAfterDate | backend/main.py:192-213 | An amount error implies present columns and a good date. |
| CsvImport.CategoryCheckedLast | backend/main.py:220-228 | An unknown-category error implies that every earlier check passed, and it names the stripped category. |
| CsvImport.NewUserDespiteUnknownCategory | backend/main.py:215-228 | A row rejected for its category still records its unknown user. |
| CsvImport.Outcomes | backend/main.py:180 | One outcome per data row. |
| CsvImport.OutcomeAt | backend/main.py:180-244 | Outcome `i` is the classification of row `i`. |
| CsvImport.ValidRows | backend/main.py:230-237 | Each valid row is numbered `i+1` for a row that passed, with strictly increasing numbers. |
| CsvImport.ErrorRows | backend/main.py:184-243 | Each error row is numbered `i+1`, carries that row's data and its error, with strictly increasing numbers. |
| CsvImport.NewUsersExactly | backend/main.py:174-218 | The new-user set holds exactly the names some row recorded, deduplicated by exact text. |
| CsvImport.EveryRowOnce | backend/main.py:180-244 | Every row is valid or rejected, never both: the list lengths add up to the row count, and the row numbers are disjoint. |
| CsvImport.OutcomesStep | backend/main.py:180 | The outcomes of one more row extend the earlier outcomes. |
| CsvImport.FoldStep | backend/main.py:180-244 | One more row appends to exactly one list and may add one user. |
| CsvImport.PreviewSummary | backend/main.py:246-256 | total_rows = valid_count + error_count = number of data rows, and new_user_count = the size of new_users. |
| CsvImport.NoValidCountExactly | backend/main.py:180-256 | valid_count is 0 exactly when every data row is rejected (or there are none). |
| CsvImport.PreviewStep | backend/main.py:180-244 | The loop step on prefixes of the rows. |
| CsvImport.ClassifyRows | backend/main.py:180-244 | The row loop yields exactly the valid rows, error rows and new users of the specification. |
| CsvImport.PreviewImport | backend/main.py:163-256 | A non-CSV file name is a 400 before any row is read. Otherwise it returns the preview against the first 100 users and categories. |
| CsvConfirm.CreateUsers | backend/main.py:268-271 | New users get consecutive ids and the default colour, at most one per name. |
| CsvConfirm.CreateUsersResolves | backend/main.py:268-271 | Afterwards every existing entry is kept and every sent name resolves case-insensitively. |
| CsvConfirm.CreateUsersDistinct | backend/main.py:268-271 | Only names absent case-insensitively are created, never two for one key, each indexed under its key. |
| CsvConfirm.CreateUsersIdempotent | backend/main.py:268-271 | Sending the same names again creates nobody. |
| CsvConfirm.AllKnownCreatesNone | backend/main.py:269 | When all names are known, no user is created. |
| CsvConfirm.RowInput | backend/main.py:275-284 | A row resolves exactly when its user, its category and its date are found; the expense then carries their ids, the parsed date, the amount and the description. |
| CsvConfirm.InputsUntilFailure | backend/main.py:274-287 | For any row resolution, at most one input per row, and one for every row when nothing fails. |
| CsvConfirm.ExpenseInputs | backend/main.py:274-287 | With the confirmation's own resolution (RowInput against its indexes), at most one input per row, and one for every row when nothing fails. |
| CsvConfirm.ExpenseInputsSpec | backend/main.py:274-287 | The inputs are the resolutions of the leading rows that resolve, in order, and a failure is the resolution of the first row that does not. |
| CsvConfirm.AllResolveImportsAll | backend/main.py:274-292 | When every row resolves, every row is imported. |
| CsvConfirm.Stamp | backend/crud.py:73-78 | One stored expense per input. |
| CsvConfirm.StampAppend | backend/main.py:286-287 | Creating one more expense, with the next id, extends the stamped list by exactly that expense. |
| CsvConfirm.ExpenseInputsStep | backend/main.py:274-287 | The loop step: a resolving row is imported and the rest follow; a failing row stops the loop. |
| CsvConfirm.CreateNewUsers | backend/main.py:268-271 | The user loop against the store appends exactly the users of the specification. |
| CsvConfirm.CreateUsersStep | backend/main.py:268-271 | The user loop's step: a known name creates nobody, and a new one is created with the next id ahead of the rest. |
| CsvConfirm.ImportRow | backend/main.py:275-287 | One row creates its expense exactly when it resolves, with the next id, and changes nothing else. |
| CsvConfirm.ImportNext | backend/main.py:274-287 | One turn of the expense loop: a failing row is the loop's failure and creates nothing; a resolving row is the loop's next input and is stored with the next id. |
| CsvConfirm.CreateExpenses | backend/main.py:274-287 | For any resolution whose dates Python can hold, the expense loop stores the expenses of the resolving leading rows and reports their number and any failure. |
| CsvConfirm.ConfirmImport | backend/main.py:258-295 | Users, then expenses. The response counts the created expenses, or is a 400 "Import failed". Expenses created before a failure stay stored. |
| CsvConfirm.ValidRowFacts | backend/main.py:215-237 | A previewed valid row has a known category and a real date, and its unknown user is among the new users. |
| CsvConfirm.ValidRowResolves | backend/main.py:258-287 | Each previewed valid row resolves once the preview's new users are created. |
| CsvConfirm.PreviewThenConfirm | backend/main.py:163-295 | Confirming a preview unchanged imports every valid row and fails on none. |
| CsvExport.ExportEntry | backend/main.py:323-330 | An expense exports exactly when its user and category exist, with its date, its amount and their names. |
| CsvExport.Cells | backend/main.py:324-330 | Five cells per record, one per header column. |
| CsvExport.ExportRowsSpec | backend/main.py:323-330 | One record per expense, in order, or a failure exactly when some expense cannot be written. |
| CsvExport.ExportShape | backend/main.py:305-337 | The header is `date,amount,category,description,user`, with one record per selected expense (at most 10000) in query order and a `.csv` file name. |
| CsvExport.ExportFailsExactly | backend/main.py:305-330 | The export fails exactly when a selected expense has a user or category id that matches no stored record. |
| CsvExport.ExportSucceedsWhenReferencesResolve | backend/main.py:305-330 | While every expense's user and category exist, the export succeeds. |
| CsvExport.WriteRows | backend/main.py:322-330 | The `writerow` loop yields one record per expense in order, or fails when an expense's user or category is missing. |
| CsvExport.ExportCsv | backend/main.py:297-338 | The endpoint returns the specified file, or a 500 when a record cannot be written. |
| CsvExport.ExportedRowReimports | backend/main.py:320-330 | An exported whole-cent row read back by the preview is valid exactly when its amount is positive and its category is known. |
| SimpleBackend.CategoriesResponse | backend/main_simple.py:166-185 | The stored categories, or the seven fallback categories when the table is empty or unreadable. |
| SimpleBackend.SeedRows | backend/main_simple.py:77-81 | One expense-type row per name with consecutive ids. |
| SimpleBackend.SeedMatchesFallback | backend/main_simple.py:66-81 | Seeding a fresh table gives exactly the fallback list. |
| SimpleBackend.InWindow | backend/main_simple.py:214-217 | Keeps exactly the transactions inside the given inclusive bounds. |
| SimpleBackend.OfCategory | backend/main_simple.py:218-219 | Keeps exactly the transactions of the category; 0 or absent is no filter. |
| SimpleBackend.TransactionsQuery | backend/main_simple.py:205-222 | A newest-first permutation of the filtered transactions. |
| SimpleBackend.ExpensesQuery | backend/main_simple.py:293-316 | Newest first. It is exactly the window of the filtered and ordered transactions that starts at `skip` (0 when negative) and holds `limit` rows (all the rest when negative) or as many as remain. A negative limit with no positive offset returns every filtered row. |
| SimpleBackend.ExpensesIgnoreUser | backend/main_simple.py:293-316 | The user id never changes the answer. |
| SimpleBackend.SumOfKindAppend | backend/main_simple.py:269-270 | Per-type sums split over a concatenation. |
| SimpleBackend.CategoryOf | backend/main_simple.py:274-275 | A transaction's category if one has its id, otherwise none. |
| SimpleBackend.SpendingSpec | backend/main_simple.py:272-277 | The spending map has a key exactly for the names some categorised expense is charged to, each mapped to their sum; income never contributes. |
| SimpleBackend.BalanceOfOtherKind | backend/main_simple.py:269-282 | The balance is income minus expenses, and a transaction of any other type changes nothing. |
| SimpleBackend.InWindowAll | backend/main_simple.py:260-267 | Without bounds, every transaction is in the window. |
| SimpleBackend.CurrentMonthOf | backend/main_simple.py:335-353 | From day 1 of the month with no end bound. The count, average and group lists are the constants 0 and empty. |
| SimpleBackend.Ledger.constructor | backend/main_simple.py:36-50 | An empty ledger: no categories, no transactions. |
| SimpleBackend.Ledger.Seed | backend/main_simple.py:62-84 | Inserts the seven defaults only when the table is empty. |
| SimpleBackend.Ledger.InsertSeeds | backend/main_simple.py:77-81 | The insert loop appends the seed rows. |
| SimpleBackend.Ledger.UpdateTransaction | backend/main_simple.py:231-242 | A missing id is a 404. Otherwise every field is overwritten in place. |
| SimpleBackend.Ledger.SpendingLoop | backend/main_simple.py:272-277 | The in-place loop builds the specified spending map. |
| SimpleBackend.Ledger.Summary | backend/main_simple.py:254-284 | Income, expenses, balance and spending of the windowed transactions. |
| SimpleBackend.Ledger.CurrentMonth | backend/main_simple.py:335-353 | The current-month answer for the given day. |
| Queries.Insert | backend/crud.py:94 | Insertion keeps the list newest first and adds exactly one element. |
| Queries.SortNewestFirst | backend/crud.py:94 | `ORDER BY date DESC` gives a newest-first permutation. |
| Queries.Page | backend/crud.py:94 | `OFFSET`/`LIMIT` take the elements from `skip` on, at most `limit` of them. |
| Queries.SqlPage | backend/crud.py:94 | The `OFFSET`/`LIMIT` page (`SqlWindow`): it starts at `skip` and holds `limit` rows or as many as remain, each element taken from its position in the input. A negative offset is no offset and a negative limit is no limit. |
| Queries.PageNewestFirst | backend/crud.py:94 | A page of a newest-first list is newest first. |
| Queries.IndexOfId | backend/crud.py:18-19 | Finds a record with that id, and finds none exactly when no record has it. |
| Queries.RemoveAt | backend/crud.py:34-35 | Deleting keeps the other records in order. |
| Queries.RemoveUniqueId | backend/crud.py:31-36 | After a delete no record has the id and ids stay unique. |
| Records.TotalAppend | backend/crud.py:127 | Totals add over concatenation. |
| Records.TotalOfPositive | backend/crud.py:127 | Positive amounts have a positive total unless there are none. |
| Records.WithoutId | frontend/src/pages/ExpenseList.tsx:61 | Keeps exactly the expenses with another id. |
| Records.WithoutIdAppend | frontend/src/pages/ExpenseList.tsx:61 | Filtering distributes over concatenation, so order is kept. |
| Records.WithoutAbsentId | frontend/src/pages/ExpenseList.tsx:61 | Filtering out an id that is absent changes nothing. |
| Dates.MonthBounds | frontend/src/pages/ExpenseList.tsx:25-30 | The inclusive first-to-last-day window holds exactly the days of that month. |
| Dates.JsDate | frontend/src/pages/ExpenseDetail.tsx:29-31 | `new Date(y, m, d)` with month and day overflow gives a real calendar day. |
| Dates.AddMonthsJsMonth | frontend/src/pages/ExpenseList.tsx:68-74 | `setMonth` moves by exactly `delta` months, or one more when the day does not exist in the target month, keeping the overflow days. |
| Dates.NextMonthFromJanuary31 | frontend/src/pages/ExpenseList.tsx:71 | One month on from 31 January lands in March. |
| Dates.SubMonthsClamped | frontend/src/pages/Reports.tsx:34 | `subMonths` goes back exactly `n` months and clamps the day to the month's end. |
| Dates.ParseIsoDate | backend/main.py:193 | Whatever `strptime('%Y-%m-%d')` accepts is a day Python's `date` can hold. |
| Dates.SpacePaddedDay | backend/main.py:193 | `%d` reads a day written as a space and a digit exactly like the zero-padded day. |
| Dates.IsoRoundTrip | backend/main.py:193 | Parsing `isoformat()` of a date gives the date back. |
| Numbers.ParsePyFloat | backend/main.py:204 | Python's `float()` accepts only text that is not blank after stripping. |
| Numbers.IntToStringRoundTrip | frontend/src/pages/EditExpense.tsx:40 | `parseInt(id.toString())` is the id. |
| Numbers.AmountTextRoundTrip | frontend/src/pages/EditExpense.tsx:39 | `parseFloat(amount.toString())` is the amount, for whole-cent amounts. |
| Numbers.LeadingDecimalOfExponent | frontend/src/pages/AddExpense.tsx:87 | `parseFloat` reads an exponent: `<whole>e<exp>` is `whole × 10^exp`. |
| Numbers.ParseIntJsOfHex | frontend/src/pages/EditExpense.tsx:32 | After a `0x` prefix `parseInt` reads the hexadecimal digits that follow. |
| Numbers.PyAmountTextRoundTrip | backend/main.py:326 | Python's `float()` of the exported amount text is the amount, for whole-cent amounts. |
| Text.TrimLeftSpec | backend/main.py:216 | `lstrip()` keeps the suffix from the first non-space on; everything before it is whitespace. |
| Text.TrimRightSpec | backend/main.py:216 | `rstrip()` keeps the prefix up to the last non-space; everything after it is whitespace. |
| Text.StripSpec | backend/main.py:216 | `strip()` keeps a slice with no whitespace at either end, everything outside it is whitespace, and it is empty exactly for blank text. |
| Text.LowerLaws | backend/main.py:177 | `lower()` is idempotent, works piece by piece over a concatenation, and leaves a text unchanged exactly when it has no upper-case ASCII letter. |
| Text.PaddedValue | frontend/src/pages/AddExpense.tsx:16-17 | Zero padding keeps a number's value. |
| Display.JsRound | frontend/src/pages/Reports.tsx:70 | `Math.round` gives the integer within half of `x`, rounding halves up. |
| Display.ProgressBar | frontend/src/pages/Reports.tsx:69-73 | When the filled count fits, the bar has `width` characters: the filled blocks, then the shaded ones. Otherwise `repeat` throws (`None`). |
| Display.BarOfShare | frontend/src/pages/Users.tsx:132-136 | Every share from 0 to 100 percent draws a bar of exactly `width` characters. |
| Display.FilledMonotone | frontend/src/pages/Reports.tsx:70 | A larger share never fills fewer blocks. |
| Display.BarEnds | frontend/src/pages/Reports.tsx:69-73 | 0 percent is all shaded and 100 percent all filled. |
| ImportExportPage.ErrorText | frontend/src/pages/ImportExport.tsx:89 | The server's non-empty `detail`, else the fallback message. |
| ImportExportPage.BuildExportParams | frontend/src/pages/ImportExport.tsx:126-149 | "custom" with both dates passes them verbatim; "current" gives today's month; "last3months" starts at the month `setMonth(-2)` lands on; anything else sends no bounds. Ids are sent only when selected. |
| ImportExportPage.CurrentRangeIsTodaysMonth | frontend/src/pages/ImportExport.tsx:131-134 | The "current" bounds hold exactly the days of today's month. |
| ImportExportPage.Last3MonthsStart | frontend/src/pages/ImportExport.tsx:135-140 | The start lies two months back, or one month back when the day overflows. |
| ImportExportPage.Last3MonthsFromApril30 | frontend/src/pages/ImportExport.tsx:135-140 | On 30 April the range starts on 1 March. |
| ImportExportPage.Page.constructor | frontend/src/pages/ImportExport.tsx:18-31 | Nothing loaded or selected, and the range is "current". |
| ImportExportPage.Page.FetchFormData | frontend/src/pages/ImportExport.tsx:37-60 | Stores the lists and presets the custom bounds to today's month, or shows the load error. |
| ImportExportPage.Page.HandleFileSelect | frontend/src/pages/ImportExport.tsx:62-74 | A non-CSV name sets an error and keeps the selection. A CSV file is selected and clears the preview, error and success. |
| ImportExportPage.Page.HandleFilePreview | frontend/src/pages/ImportExport.tsx:76-93 | Without a file, an error. Otherwise the preview is stored or the server's error is shown. A stored preview enables Import exactly when its valid_count is not 0. |
| ImportExportPage.Page.ConfirmEnabled | frontend/src/pages/ImportExport.tsx:268-274 | The Import button is disabled while loading and whenever the preview's valid_count is 0. |
| ImportExportPage.ConfirmEnabledExactly | frontend/src/pages/ImportExport.tsx:270 | For a server-built preview, Import is enabled exactly when nothing is loading and some row of the file is valid, so a file whose every row is rejected cannot be imported. |
| ImportExportPage.Page.HandleConfirmImport | frontend/src/pages/ImportExport.tsx:95-114 | Without a preview nothing happens. Success clears the preview and the file; failure keeps them and shows the error. |
| ImportExportPage.Page.CancelPreview | frontend/src/pages/ImportExport.tsx:275 | Cancel drops only the preview. |
| ImportExportPage.Page.HandleExportFilterChange | frontend/src/pages/ImportExport.tsx:116-119 | Only the named field changes. |
| ImportExportPage.Page.ShowExportResult | frontend/src/pages/ImportExport.tsx:151-170 | Reports the download's success, or the server's error. |
| ImportExportPage.Page.HandleExport | frontend/src/pages/ImportExport.tsx:121-171 | Sends the parameters built from the filters and reports the outcome. |
| ReportsPage.TrendEntry | frontend/src/pages/Reports.tsx:34-49 | The point `offset` months back is labelled with that month, and a failed fetch counts as 0. |
| ReportsPage.TrendsSpec | frontend/src/pages/Reports.tsx:33-50 | The trend has one point per offset, oldest first. |
| ReportsPage.TrendEndsNow | frontend/src/pages/Reports.tsx:33-50 | The last point is the current month. |
| ReportsPage.SubMonthsZero | frontend/src/pages/Reports.tsx:34 | Zero months back is today. |
| ReportsPage.TrendsStep | frontend/src/pages/Reports.tsx:33-50 | One loop step appends the oldest remaining point. |
| ReportsPage.FetchTrendPoint | frontend/src/pages/Reports.tsx:38-49 | One month's fetch, with a failure caught as 0. |
| ReportsPage.CollectTrends | frontend/src/pages/Reports.tsx:30-50 | The loop yields exactly the specified trend. |
| ReportsPage.UserComparison | frontend/src/pages/Reports.tsx:137-152 | None for fewer than two users. Otherwise the difference is the absolute gap, and a tie goes to the second user. |
| ReportsPage.Page.constructor | frontend/src/pages/Reports.tsx:12-15 | Nothing loaded, loading. |
| ReportsPage.Page.FetchReportData | frontend/src/pages/Reports.tsx:21-60 | A failed current-month fetch aborts with the error. Otherwise it stores the summary and a six-point trend. |
| ExpenseForm.LocalDateIsIso | frontend/src/pages/AddExpense.tsx:13-19 | Today's local date string is its ISO form and parses back to today. |
| ExpenseForm.NextForm | frontend/src/pages/AddExpense.tsx:127-133 | "Save and add another" clears amount, category and description, dates today, and keeps the user. |
| ExpenseForm.SetField | frontend/src/pages/AddExpense.tsx:64-67 | Only the named field changes. |
| ExpenseForm.SubmitError | frontend/src/pages/AddExpense.tsx:72-80 | The required-field error if and only if a field is empty; the amount error if and only if the amount parses to at most 0; none otherwise. |
| ExpenseForm.PassingAmount | frontend/src/pages/AddExpense.tsx:77 | A form that passes has a positive amount, or one that is not a number (NaN slips through). |
| ExpenseForm.Payload | frontend/src/pages/AddExpense.tsx:86-92 | An empty description is left out; the date is sent as typed. |
| ExpenseForm.FindByIdText | frontend/src/pages/AddExpense.tsx:149-150 | The first record whose id text equals the field, or none. |
| ExpenseForm.IdTextsDiffer | frontend/src/pages/AddExpense.tsx:149-150 | Distinct ids have distinct texts. |
| ExpenseForm.PreviewShape | frontend/src/pages/AddExpense.tsx:146-155 | Empty exactly when a required field is empty or the category or user is not found. Otherwise it starts with `$amount` and ends with the description or "No description". |
| ExpenseForm.FoodCategory | frontend/src/pages/AddExpense.tsx:33-39 | The first category whose lower-cased name is "food", or none. |
| ExpenseForm.FormOf | frontend/src/pages/EditExpense.tsx:38-44 | A loaded expense fills every required field. |
| ExpenseForm.EditUnchangedRoundTrip | frontend/src/pages/EditExpense.tsx:38-85 | Saving a loaded form unchanged sends back the expense's amount, ids and date, and an empty description is dropped. A positive amount passes the checks. |
| ExpenseForm.AddPage.constructor | frontend/src/pages/AddExpense.tsx:6-27 | An empty form dated today. |
| ExpenseForm.AddPage.FetchFormData | frontend/src/pages/AddExpense.tsx:41-62 | Stores the lists, preselects the only user and the "food" category, or shows the load error. |
| ExpenseForm.AddPage.HandleInputChange | frontend/src/pages/AddExpense.tsx:64-67 | The form takes the field's value. |
| ExpenseForm.AddPage.HandleSubmit | frontend/src/pages/AddExpense.tsx:69-102 | A failed check sends nothing and shows the error. Otherwise it sends the payload and goes to the dashboard, or shows the failure. |
| ExpenseForm.AddPage.ShowCreateResult | frontend/src/pages/AddExpense.tsx:94-101 | Navigates home, or shows the failure. |
| ExpenseForm.AddPage.HandleSaveAndAddAnother | frontend/src/pages/AddExpense.tsx:104-140 | Checks only the required fields. On success the next form keeps the user; on failure the form is kept. |
| ExpenseForm.AddPage.ShowSaveAnotherResult | frontend/src/pages/AddExpense.tsx:124-139 | Gives a fresh form for the same user, or shows the failure. |
| ExpenseForm.EditSubmitError | frontend/src/pages/EditExpense.tsx:65-73 | A missing route id is a required-field error; otherwise the same checks as the Add page. |
| ExpenseForm.EditPage.constructor | frontend/src/pages/EditExpense.tsx:5-18 | An empty form for the route id. |
| ExpenseForm.EditPage.FetchExpenseData | frontend/src/pages/EditExpense.tsx:26-55 | Without an id nothing happens. Otherwise the form is filled from the expense, or the load error is shown. |
| ExpenseForm.EditPage.LoadForm | frontend/src/pages/EditExpense.tsx:38-44 | The form becomes the expense's fields. |
| ExpenseForm.EditPage.ShowExpenseData | frontend/src/pages/EditExpense.tsx:37-54 | Fills the form and lists, or shows the failure. |
| ExpenseForm.EditPage.HandleInputChange | frontend/src/pages/EditExpense.tsx:57-60 | The form takes the field's value. |
| ExpenseForm.EditPage.HandleSubmit | frontend/src/pages/EditExpense.tsx:62-95 | A failed check sends nothing. Otherwise it sends the parsed id and payload, then goes to the list or shows the failure. |
| ExpenseForm.EditPage.ShowUpdateResult | frontend/src/pages/EditExpense.tsx:87-94 | Navigates to the list, or shows the failure. |
| ExpenseListPage.ListParamsOf | frontend/src/pages/ExpenseList.tsx:25-34 | First to last day of the month, limit 100; each id is sent parsed only when its filter is non-empty. |
| ExpenseListPage.ListWindowIsMonth | frontend/src/pages/ExpenseList.tsx:25-37 | The server's filter on those bounds keeps exactly the month's expenses. |
| ExpenseListPage.TotalAmount | frontend/src/pages/ExpenseList.tsx:103-105 | The page's left-to-right sum equals the backend's total. |
| ExpenseListPage.AverageAmount | frontend/src/pages/ExpenseList.tsx:107-109 | Average times count is the total; 0 for no expenses. |
| ExpenseListPage.TotalBounds | frontend/src/pages/ExpenseList.tsx:103-105 | The total lies between count times the smallest and count times the largest amount. |
| ExpenseListPage.AverageBounds | frontend/src/pages/ExpenseList.tsx:107-109 | The average lies between the smallest and largest amount. |
| ExpenseListPage.NavigateEarlyInMonth | frontend/src/pages/ExpenseList.tsx:68-101 | Up to day 28, navigating moves exactly by the direction and back again, and the labels are one month either side. |
| ExpenseListPage.Page.constructor | frontend/src/pages/ExpenseList.tsx:6-16 | Empty lists, loading, today, no filters. |
| ExpenseListPage.Page.FetchData | frontend/src/pages/ExpenseList.tsx:22-52 | Sends the month's query and stores the lists, or shows the error. |
| ExpenseListPage.Page.ShowListData | frontend/src/pages/ExpenseList.tsx:42-50 | Replaces the three lists and clears the error, or keeps them and shows the error. |
| ExpenseListPage.Page.HandleDeleteExpense | frontend/src/pages/ExpenseList.tsx:54-66 | Only when confirmed. Success removes exactly that id's expenses in order; failure shows the error. |
| ExpenseListPage.Page.NavigateMonth | frontend/src/pages/ExpenseList.tsx:68-74 | `setMonth` on a copy of the current date. |
| ExpenseListPage.Page.SetUserFilter | frontend/src/pages/ExpenseList.tsx:13-16 | Only the user filter changes. |
| ExpenseListPage.Page.SetCategoryFilter | frontend/src/pages/ExpenseList.tsx:13-16 | Only the category filter changes. |
| ExpenseDetailPage.RelatedWindow | frontend/src/pages/ExpenseDetail.tsx:29-31 | Day 1 of the month and day 0 of the next month are the first and last day of the expense's month. |
| ExpenseDetailPage.RelatedQuery | frontend/src/pages/ExpenseDetail.tsx:29-38 | Same category, limit 10, and bounds that parse back to the month's first and last day. |
| ExpenseDetailPage.RelatedQueryMatches | frontend/src/pages/ExpenseDetail.tsx:33-38 | The backend answers with exactly the expenses of the same category and month. |
| ExpenseDetailPage.Related | frontend/src/pages/ExpenseDetail.tsx:41-43 | A prefix of the response without the current id, of length min(5, others), in server order. |
| ExpenseDetailPage.RelatedOfOthers | frontend/src/pages/ExpenseDetail.tsx:41-43 | A short response without the current expense is shown whole. |
| ExpenseDetailPage.FetchExpenseDetail | frontend/src/pages/ExpenseDetail.tsx:20-53 | Without an id nothing happens. A failed request shows the error, and a failed related request keeps the expense already fetched. |
| ExpenseDetailPage.HandleDelete | frontend/src/pages/ExpenseDetail.tsx:55-69 | The page leaves only after a confirmed, successful delete; a failed one shows the error. |
| ExpenseDetailPage.Duplicate | frontend/src/pages/ExpenseDetail.tsx:71-83 | No link without an expense; a missing description is sent empty. |
| ExpenseDetailPage.DuplicateMatchesForm | frontend/src/pages/ExpenseDetail.tsx:75-80 | The link's fields equal the edit form's and parse back to the expense's numbers. |
| ExpenseDetailPage.CategoryTotal | frontend/src/pages/ExpenseDetail.tsx:100-105 | 0 without related expenses; otherwise the related sum plus the expense's amount. |
| ExpenseDetailPage.CategoryTotalOfLoneExpense | frontend/src/pages/ExpenseDetail.tsx:100-105 | An expense alone in its category shows 0, not its amount. |
| ExpenseDetailPage.TotalWithoutUniqueId | frontend/src/pages/ExpenseDetail.tsx:41-42 | Removing the one expense with an id takes exactly its amount off the total. |
| ExpenseDetailPage.TotalRemoveAt | frontend/src/pages/ExpenseDetail.tsx:41-42 | Removing one element takes its amount off the total. |
| ExpenseDetailPage.WithoutUniqueId | frontend/src/pages/ExpenseDetail.tsx:41-42 | Filtering out a unique id leaves the elements before and after it in order. |
| ExpenseDetailPage.CategoryTotalIsResponseTotal | frontend/src/pages/ExpenseDetail.tsx:41-105 | With the expense once in a response of 2 to 6 rows, the category total is the response's total. |
| ExpenseDetailPage.WithoutIdShorter | frontend/src/pages/ExpenseDetail.tsx:42 | Filtering out a present id shortens the list. |
| ExpenseDetailPage.WithoutIdNoLonger | frontend/src/pages/ExpenseDetail.tsx:42 | Filtering never lengthens the list. |
| UsersPage.UserExpenseCount | frontend/src/pages/Users.tsx:113-116 | The count of the first summary with exactly that name, else 0. |
| UsersPage.UserTotalSpent | frontend/src/pages/Users.tsx:118-121 | The total of the first summary with exactly that name, else 0. |
| UsersPage.AverageSpending | frontend/src/pages/Users.tsx:127-130 | The total spread over all users, not summaries; 0 without users. |
| UsersPage.TotalSpendingOfRows | frontend/src/pages/Users.tsx:123-125 | Summaries from group rows add up to the rows' total. |
| UsersPage.TotalSpendingIsMonthTotal | frontend/src/pages/Users.tsx:123-125 | When every expense has a listed user, the page's total spending is the month's total. |
| UsersPage.Page.constructor | frontend/src/pages/Users.tsx:6-15 | Empty, loading, with the blank form. |
| UsersPage.Page.FetchData | frontend/src/pages/Users.tsx:26-43 | Replaces users and per-user rows, or shows the load error. |
| UsersPage.Page.HandleInputChange | frontend/src/pages/Users.tsx:45-48 | Only the named field changes. |
| UsersPage.Page.HandleColorSelect | frontend/src/pages/Users.tsx:50-52 | Sets the colour and keeps the name. |
| UsersPage.Page.HandleSubmit | frontend/src/pages/Users.tsx:54-77 | A name blank after trimming is refused. Otherwise it sends an update when editing and a create otherwise. Success resets and closes the form and reloads; failure keeps it and shows the error. |
| UsersPage.Page.HandleEditUser | frontend/src/pages/Users.tsx:79-83 | Opens the form on the user's name and colour. |
| UsersPage.Page.HandleDeleteUser | frontend/src/pages/Users.tsx:85-97 | Only when confirmed. Sends the id, then reloads or shows the error. |
| UsersPage.Page.CancelForm | frontend/src/pages/Users.tsx:99-104 | Resets the form to no name and the default colour, ends editing and clears the error. |
| TransactionList.FilterParams | frontend/src/components/TransactionList.tsx:21-25 | Each date is sent exactly when non-empty, and the category exactly when above zero. |
| TransactionList.ChangeFilter | frontend/src/components/TransactionList.tsx:71-74 | The category is parsed as an integer, a date is kept verbatim, and the other fields stay. |
| TransactionList.SelectCategory | frontend/src/components/TransactionList.tsx:71-74 | Choosing category `id` sends exactly `id` when positive, and nothing for "All Categories". |
| TransactionList.CategoryFilterReachesServer | frontend/src/components/TransactionList.tsx:21-25 | The backend then keeps exactly that category's transactions, or all of them. |
| TransactionList.CategoryName | frontend/src/components/TransactionList.tsx:80-83 | The name of the first category with that id, else "Unknown". |
| TransactionList.CategoryNameOfListed | frontend/src/components/TransactionList.tsx:80-83 | With unique ids, each listed category shows its own name. |
| TransactionList.ListView.constructor | frontend/src/components/TransactionList.tsx:7-16 | Empty, loading, form closed, no filter. |
| TransactionList.ListView.FetchTransactions | frontend/src/components/TransactionList.tsx:18-33 | Sends the filter's parameters; a failure keeps the old list. |
| TransactionList.ListView.FetchCategories | frontend/src/components/TransactionList.tsx:35-42 | Stores the categories; a failure keeps the old ones. |
| TransactionList.ListView.HandleDelete | frontend/src/components/TransactionList.tsx:49-58 | Only when confirmed. A successful delete refetches. |
| TransactionList.ListView.OpenForm | frontend/src/components/TransactionList.tsx:91-92 | Opens the form. |
| TransactionList.ListView.HandleEdit | frontend/src/components/TransactionList.tsx:60-63 | Opens the form on that transaction. |
| TransactionList.ListView.HandleFormClose | frontend/src/components/TransactionList.tsx:65-69 | Hides the form, clears the edited transaction and refetches. |
| TransactionList.ListView.HandleFilterChange | frontend/src/components/TransactionList.tsx:71-74 | The filter changes as `ChangeFilter` says. |

## Left out

- Persistence plumbing: SQLAlchemy sessions and commits, FastAPI routing, CORS and the HTTP clients. The database is in-memory sequences. A commit is the method returning.
- SQLite id reuse after deletes: ids come from counters that only grow.
- The order of equal dates under `ORDER BY date DESC` is unspecified by SQL. The model keeps table order among equal dates. The order of `GROUP BY` rows is modelled as the table order of the categories or users.
- Floating point: amounts are exact reals. `Number.prototype.toString` and Python's `repr` of an amount are modelled only for whole-cent amounts, and Python's `float()` only for plain decimals (no exponent, `inf`, `nan` or underscores).
- Unicode: whitespace is the six ASCII characters that Python's `strip()` and JavaScript's `trim()` both remove (space, tab, line feed, vertical tab, form feed, carriage return). Python also strips `\x1c` to `\x1f`, both strip non-ASCII spaces, and `lower()` here maps only ASCII letters.
- Dates.ParseIsoDate: Python's `\d` also matches non-ASCII decimal digits (Arabic-Indic digits, for one), which `strptime` accepts; the model reads only ASCII digits and rejects the others.
- Crud.PatchUserLaws: a colour sent as null clears the stored colour in the source. Here a user's colour is always text, so a patch cannot carry a null colour. The same holds for a null colour on user or category create and on category update. The pages always send a colour.
- Crud.Store.UpdateUser: as for `Crud.PatchUserLaws`, a null colour is not modelled.
- Crud.GetExpenses: a negative offset or limit is read the way SQLite reads it (no offset, no limit). The engine is chosen by backend/database.py, which is not part of this model, and PostgreSQL refuses a negative offset or limit with an error. The same holds for `Crud.Store.GetUsers`, `Crud.Store.GetCategories` and `SimpleBackend.ExpensesQuery`.
- Crud.Store.CreateExpense: user and category ids are stored without a check, as SQLite does by default. PostgreSQL enforces the foreign keys and would refuse an id that no record has; that refusal is not modelled.
- Numbers.ParseFloatJs: the text `Infinity` is read as an infinite number by JavaScript and as NaN here, because `JsNumber` has no infinities. The amount field is a number input, which never holds that text.
- Numbers.ParseIntJs: values are exact; JavaScript loses precision above 2^53.
- ExpenseForm.Payload: a NaN amount or id is kept as NaN. `JSON.stringify` sends it as null, which the backend refuses: request validation rejects a null on create, and an update fails with a NOT NULL violation (`Crud.PatchExpenseLaws`). The JSON step between the page and the backend is not modelled.
- CsvConfirm.ConfirmImport: the error text is modelled for the two failures a well-formed request can cause. A missing key is shown in single quotes, and a date `strptime` rejects gets "does not match format". Python's `repr` switches to double quotes and escapes for a key holding a quote, a backslash or an unprintable character, and `strptime` reports trailing text after a valid date as "unconverted data remains"; neither text is modelled. A request whose rows are not well-formed (a missing field, an amount that is not a number) cannot be expressed, so its error is not modelled.
- CSV text: quoting, the reading of the file by `csv.DictReader`, and UTF-8 decoding. Rows arrive already split into a map from header to cell. A short row's missing cell is a present key with no value.
- `Unexpected` errors: the message of the generic `except Exception` path of the preview (backend/main.py:239-244) is not modelled, only that the row is rejected.
- CsvImport.PreviewImport: `new_users` is a set; the order of its listing in the response is not modelled.
- Clock and time zones: "now" and "today" are parameters. The Detail page parses a date-only string as UTC and then reads local fields; that shift is not modelled. The export file name's `strftime` reading of the clock is reduced to the timestamp given.
- Browser APIs: `window.confirm` is a boolean parameter, and Blob downloads, DOM input resets and `navigate` are reduced to the state they leave.
- Concurrency: `Promise.all` and the ordering of stale responses. Each page handler takes the responses as already resolved, in the order the code awaits them.
- Presentation: `Intl` currency formatting, date display formatting, the ASCII chart of the Reports page, and the render-time gating of errors and loading.
- ReportsPage.UserComparison: `percentMore` (`toFixed`, and `Infinity` when the smaller total is 0) is not modelled.
- Display.JsRound: `Math.round` ties toward +∞ are modelled on reals; floating-point rounding of `percentage / 100 * width` is not.
- ExpenseDetailPage.Duplicate: the URL encoding of the query string is not modelled. The Add page never reads query parameters, so nothing consumes the link's parameters.
- The simplified backend's plain endpoints are not part of this model: create and delete of a category, create, get and delete of a transaction, the constant user list and the expense aliases (backend/main_simple.py:158-164, 187-203, 224-229, 244-251, 287-290, 318-332). Each is a single insert, lookup or delete with no logic beyond `Ledger.UpdateTransaction`'s lookup.
- Schema files backend/models.py and backend/schemas.py give only the shapes of the datatypes.
- UI-only files are not part of this model: frontend/src/App.tsx, the layout, the shared components, both dashboards, TransactionForm.tsx and CategoryManager.tsx.

## Findings

| source | as written | input that shows it | evidently intended | confidence | as-written member | corrected member |
|---|---|---|---|---|---|---|
| backend/crud.py:31-36 | Deleting a user makes the ORM write null into the NOT NULL `user_id` of each of the user's expenses (the relationship has no delete cascade, backend/models.py:15 and 40), so the commit fails and nothing is deleted. | A user with one expense; `DELETE /api/users/{id}` answers 500 and the user stays. | The user is removed and the expenses stay, as the confirmation on the Users page says (frontend/src/pages/Users.tsx:86). | high; not executed | Crud.Store.DeleteUser, Crud.ExpenseBlocksDelete | Crud.Store.DeleteUserKeepingExpenses |
