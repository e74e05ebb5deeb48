# Gestor esportivo: the record-keeping core, in Dafny

This project models the record-keeping layer of a sports club's management
desktop application. The club is run by three boards (*corpos*: diretivo,
esportivo, financeiro). Through the main window (`src/GUI.py`) they keep
the club's MySQL database: the ledger (`lancamento`), the squad and staff
payroll batches (`folha_elenco`/`item_folha_e`,
`folha_funcionarios`/`item_folha_f`), the assets (`bens` and their category
tables `imoveis`, `automoveis`, `moveis`), the squad (`elenco`) and the
employees (`funcionarios`, `contratado`, `terceirizado`). Every screen
reaches the database through `DatabaseManager` (`src/banco.py`), a pooled
connection gateway.

The model has these modules:

- `Store` (store.dfy): the database as a map from table to rows keyed by
  their AUTO_INCREMENT id. It defines the statements the screens send and
  their effect, including the foreign keys. It also defines the invariant
  `Consistent`, and proves that every plain statement preserves it.
- `Gateway` (gateway.dfy): the MySQL server, pooled connections with
  uncommitted work, and `DatabaseManager`, with `get_connection`,
  `execute_query`, `get_items` and `get_item_sql`.
- `BrDate` (br_date.dfy): Python's `strip`, `split` and `int` on text, and
  `_parse_date_br`.
- `Sheets` (sheet.dfy): the in-memory payroll dict `itens`, with Python's
  dict-comprehension and insertion-order semantics.
- `AthletePayroll` and `StaffPayroll`: the two payroll screens. Each one
  opens the sheet, edits an entry in the pop-up, and generates a batch in
  one transaction that ends with the approval procedure.
- `Ledger`: the manual ledger entry, and the approval of pending entries.
- `Assets`: asset registration, and writing an asset off.
- `Deletes`: ending an athlete's contract and dismissing an employee. Both
  are cascades of deletes, children first.
- `Navigation`: the session fields of the main window and the results
  screen's back button.

Driver failures, the clock read by `NOW()`, the stored procedures
`sp_aprovar_*` and the evaluation of SELECT text are not decided by the
model. They are parameters, collected in `Store.Env`.

A few facts about the code that a reader might expect otherwise:

- Ending a contract and dismissing an employee report nothing about the
  dependent tables they touched.
- Writing an asset off is a single `UPDATE` through `execute_query`, not a
  transaction.
- The ledger approval `UPDATE` sets no account and does not check the
  entry's current status.
- No amount is checked for being positive.

## Model

| member | source | states |
|---|---|---|
| Gateway.DatabaseManager.GetConnection | src/banco.py:37-41 | a pooled connection is handed out on the committed data and counted as lent |
| Gateway.DatabaseManager.Release | src/banco.py:42-43 | leaving the `with` block closes the connection on every path; uncommitted work is dropped; the lent count goes back down |
| Gateway.Connection.Execute | src/banco.py:49 | `cursor.execute`: on success the session's data becomes the statement's result; an error leaves the transaction unchanged and is returned |
| Gateway.Connection.Commit | src/banco.py:57 | the session's work becomes the server's committed data |
| Gateway.Connection.Rollback | src/GUI.py:892-893 | the session's work is reset to the committed data |
| Gateway.Connection.InsertEach | src/GUI.py:881-885 | one INSERT per row in order, stopping at the first error; the session ends exactly as running all the inserts would leave it |
| Gateway.QueryOutcome | src/banco.py:45-62 | a statement with a result description returns exactly the statement's columns and rows and commits nothing; any other statement is committed and returns `(None, None)`; an error is swallowed, returns `(None, None)` and commits nothing |
| Gateway.DatabaseManager.ExecuteQuery | src/banco.py:45-62 | the answer and the new committed data are exactly `QueryOutcome`; the connection is always returned |
| Gateway.SelectCommitsNothing | src/banco.py:51-55 | a read never changes the committed data; it returns columns exactly when the query evaluates and the driver does not fail |
| Gateway.ListingSql | src/banco.py:64-69 | only `queries_sistema` and `views_sistema` have a listing query; any other name raises the unsupported-table error carrying that name |
| Gateway.DatabaseManager.GetItems | src/banco.py:64-69 | a catalogue name runs its listing query; any other name raises before a connection is taken; the data is never changed |
| Gateway.LookupSql | src/banco.py:71-78 | only the two catalogue tables have a lookup query; any other name raises |
| Gateway.FirstCell | src/banco.py:74 | `data[0][0] if data else None`: `None` exactly when there are no rows or the first cell is SQL NULL (which the driver hands back as `None`); IndexError exactly when the first row is empty; otherwise the first cell of the first row, never NULL |
| Gateway.DatabaseManager.GetItemSql | src/banco.py:71-78 | the first cell of the lookup query's answer for the id; an unsupported name raises before a connection is taken; the data is never changed |
| Store.Approved | src/GUI.py:626 | an approved ledger row keeps approver and timestamp in step with its status, and keeps its foreign keys |
| Store.Retired | src/GUI.py:1416 | a written-off asset row is in status `baixado`, in the same table, with the same foreign keys |
| Store.InsertReportsKey | src/GUI.py:880 | on well-keyed data, the key a successful INSERT reports as `lastrowid` was free before, and the new row is now stored under it |
| Store.Step | src/banco.py:49 | `cursor.execute` of one statement (definition): an insert fails on a missing parent and otherwise takes the table's next key; a delete fails while a child row still references the owner; the two UPDATEs change only an existing row of their table; a driver fault fails any statement |
| Store.RunAll | src/GUI.py:873-887 | the statements of a `try` block run one after the other on the session's data, and the first error ends the block (definition; `RunAllAppend` and `FailurePropagates` state its laws) |
| Store.RunAllAppend | src/GUI.py:873-887 | running a transaction's statements `a + b` is running `a`, then `b` on its result; the first error ends it |
| Store.FailurePropagates | src/GUI.py:892-895 | once a prefix of the transaction fails, the whole transaction fails |
| Store.StepKeepsConsistent | src/banco.py:49 | every statement other than a procedure call, on consistent data, leaves the data consistent (keys below the counter, foreign keys resolved, ledger approval fields in step) |
| Store.RunAllKeepsConsistent | src/GUI.py:876-885 | a sequence of such statements keeps the data consistent |
| BrDate.StripLeft | src/GUI.py:144 | the text without its leading whitespace: a suffix of it, not starting with whitespace, everything dropped being whitespace |
| BrDate.ParseDateBr | src/GUI.py:141-152 | `_parse_date_br` (definition): stripped text split on `/` into exactly three parts read by `int`, accepted when 1 <= month <= 12, 1 <= day <= 31 and year > 0, written as ISO text; `ParseDateBrCanonical` and `ParseDateBrSound` state what it accepts and returns |
| BrDate.ParseDmy | src/GUI.py:144-147 | day, month and year of the stripped text split on `/`, or `None` when there are not three parts or a part does not convert (definition; `ParseDmyBrText` states it on `DD/MM/AAAA` text) |
| BrDate.PyInt | src/GUI.py:147 | Python's `int` on text: surrounding whitespace, an optional sign, digits with single underscores between them (definition; `PyIntShow` and `PyIntPad2` state that it reads back what the f-strings write) |
| BrDate.IsoDate | src/GUI.py:149 | `f"{ano}-{mes:02d}-{dia:02d}"` (definition; `IsoDateReadsBack` states that it reads back as the same date) |
| BrDate.StripRight | src/GUI.py:144 | the text without its trailing whitespace: a prefix of it, not ending with whitespace, everything dropped being whitespace |
| BrDate.Strip | src/GUI.py:144 | `str.strip`: the result neither starts nor ends with whitespace |
| BrDate.StripKeeps | src/GUI.py:144 | a text without blank ends is left as it is |
| BrDate.StripPadding | src/GUI.py:534 | stripping removes exactly the surrounding whitespace of a text whose ends are not blank |
| BrDate.Split | src/GUI.py:144 | `str.split(sep)`: at least one part, and no part contains the separator |
| BrDate.SplitJoin | src/GUI.py:144 | joining the parts with the separator gives the text back |
| BrDate.SplitAt | src/GUI.py:144 | a separator-free prefix followed by the separator is split off as the first part |
| BrDate.SplitThree | src/GUI.py:144-146 | three separator-free parts joined by the separator split back into exactly those three parts |
| BrDate.PyIntShow | src/GUI.py:147 | `int` reads back the decimal text of any natural number |
| BrDate.PyIntPad2 | src/GUI.py:149 | `int` reads back the two-digit zero-padded text of any number below 100 |
| BrDate.IsoDateReadsBack | src/GUI.py:149 | the `AAAA-MM-DD` text the reader writes reads back as the same year, month and day |
| BrDate.ParseDmyBrText | src/GUI.py:144-147 | a `DD/MM/AAAA` text is read as its day, month and year |
| BrDate.ParseDateBrCanonical | src/GUI.py:141-152 | on `DD/MM/AAAA` text the reader accepts exactly the in-range dates (month 1 to 12, day 1 to 31, year above 0) and returns their ISO text |
| BrDate.ParseDateBrSound | src/GUI.py:141-152 | every accepted text yields an in-range date whose ISO text reads back, and the same answer as that date written `DD/MM/AAAA` |
| BrDate.FebruaryThirtyFirstAccepted | src/GUI.py:148 | `31/02/2024` is accepted as `2024-02-31`: there is no per-month day check |
| BrDate.OutOfRangeRefused | src/GUI.py:148 | month 13 and day 0 are refused |
| Sheets.Ids | src/GUI.py:759 | the keys of the fetched pairs, one per pair, in order |
| Sheets.Collect | src/GUI.py:759 | the dict comprehension has each key once, and exactly the listed keys |
| Sheets.CollectContents | src/GUI.py:759 | the dict holds exactly the listed keys, each with the value of its last occurrence |
| Sheets.CollectOfDistinct | src/GUI.py:759 | with no repeated key the dict iterates in the order the rows were fetched |
| Sheets.CollectAt | src/GUI.py:759 | a key's value is the one listed with its last occurrence |
| Sheets.DistinctIdsAreLast | src/GUI.py:759 | with no repeated key every pair is the last one with its key |
| Sheets.Sheet.constructor | src/GUI.py:759 | the sheet is the dict the comprehension builds from the fetched pairs |
| Sheets.Sheet.Put | src/GUI.py:850 | assigning to an existing key changes its value only and keeps the iteration order |
| AthletePayroll.Initial | src/GUI.py:759 | every fetched athlete starts on the fetched base salary with bonus, image rights, gloves instalment and discounts at zero |
| AthletePayroll.OpenSheet | src/GUI.py:749-759 | no sheet exactly when the roster query returned no rows or `(None, None)`; otherwise the dict built from the rows |
| AthletePayroll.NetTotalSplits | src/GUI.py:889 | the estimated net total is base + bonus + image rights + gloves instalment - discounts, each summed over the sheet |
| AthletePayroll.FieldOf | src/GUI.py:871 | one money field of a squad entry, or its net pay base + bonus + image rights + gloves instalment - discounts (definition) |
| AthletePayroll.Total | src/GUI.py:889 | the sum of one field over the sheet in iteration order, as the generator sums do (definition; `NetTotalSplits`, `TotalAppend` and `BaseTotalOfRoster` state its laws) |
| AthletePayroll.HeaderRow | src/GUI.py:876-879 | the pending `folha_elenco` header carrying the sheet's image-rights total (definition; `HeaderAggregateMatchesItems` states that the total equals the sum over the batch's items) |
| AthletePayroll.UnadjustedNetIsBase | src/GUI.py:889 | with every adjustment zero the net total is the sum of base salaries |
| AthletePayroll.BaseTotalOfRoster | src/GUI.py:759 | the base total of a freshly opened sheet is the roster's base total |
| AthletePayroll.TotalAppend | src/GUI.py:871 | the sum of a field over two lists is the sum of the two sums |
| AthletePayroll.OpenedEntry | src/GUI.py:759 | each fetched athlete's entry is on base salary only |
| AthletePayroll.OpenedSheetPaysBase | src/GUI.py:759-770 | a freshly opened sheet lists the athletes in query order, each on base salary only, and its net total is the roster's base total |
| AthletePayroll.ZeroAdjustmentsOfOpened | src/GUI.py:759 | on an opened sheet the net total equals the base total |
| AthletePayroll.ApplyAsWritten | src/GUI.py:848-858 | the pop-up's five assignments in order, stopping at the first field that is not a number; the flag is set exactly when all five convert |
| AthletePayroll.PartialEditKeepsBase | src/GUI.py:850-851 | a rejected pop-up (valid base, invalid bonus) has nonetheless changed the stored base salary |
| AthletePayroll.Apply | src/GUI.py:848-858 | corrected OK: a new entry exactly when all five fields convert, equal to what the five assignments produce |
| AthletePayroll.PrefilledIsIdentity | src/GUI.py:831-847 | confirming the pre-filled pop-up unchanged keeps the entry |
| AthletePayroll.EditAsWritten | src/GUI.py:848-858 | `ok()` as written: the entry becomes the partially assigned one even when the pop-up reports an error; the order is kept |
| AthletePayroll.Edit | src/GUI.py:848-858 | corrected `ok()`: the entry changes, to all five new values, exactly when every field converts; otherwise the sheet is unchanged |
| AthletePayroll.ItemRows | src/GUI.py:881-885 | one `item_folha_e` row per sheet entry, in iteration order, carrying its five amounts, the batch id and the athlete id |
| AthletePayroll.GenerateOutcome | src/GUI.py:865-870 | `gerar` stops with the invalid-dates error exactly when either date fails `_parse_date_br` |
| AthletePayroll.Transaction | src/GUI.py:872-897 | the transaction commits as a whole, reporting the athlete count and the net total, or fails and leaves the committed data as it was, AUTO_INCREMENT counters included (see Left out) |
| AthletePayroll.ScriptRuns | src/GUI.py:876-886 | the transaction is the header insert, then the item inserts, then the procedure call |
| AthletePayroll.Generate | src/GUI.py:865-897 | `gerar` has exactly the effect `GenerateOutcome` describes; a connection is taken only once both dates are valid, and always returned |
| AthletePayroll.RunTransaction | src/GUI.py:873-897 | commit after a successful batch, rollback at the first error; the connection is always returned |
| AthletePayroll.RunBatch | src/GUI.py:876-886 | the statements run on the connection are header, items under the header's `lastrowid`, then `sp_aprovar_folha_elenco(id, 1, 8)`, stopping at the first error |
| AthletePayroll.HeaderAggregateMatchesItems | src/GUI.py:871-885 | the header's image-rights aggregate is the sum of its items' image rights |
| AthletePayroll.PreparedLayout | src/GUI.py:876-885 | the header and the items are appended to their tables under fresh consecutive ids |
| AthletePayroll.PreparedConsistent | src/GUI.py:876-885 | before the procedure runs the data is still consistent |
| AthletePayroll.PreparedBatch | src/GUI.py:876-886 | before the procedure runs there is one pending header carrying the image-rights total and one item per entry, and nothing else changed; the procedure runs on exactly that data |
| AthletePayroll.LaidOutByAppends | src/GUI.py:876-885 | appending the header, then the items, lays the batch out |
| AthletePayroll.PreparedBatchMembers | src/GUI.py:880-885 | the `item_folha_e` rows referencing the new header are exactly the new ones |
| AthletePayroll.OldItemPredatesBatch | src/GUI.py:880 | no earlier item can reference the new header's id |
| AthletePayroll.OneItemPerAthlete | src/GUI.py:881-885 | each athlete has exactly one item in the new batch |
| AthletePayroll.DepartedAthleteAbortsBatch | src/GUI.py:876-895 | an athlete on the sheet who has left `elenco` since the screen opened makes the whole generation fail, so nothing is committed |
| AthletePayroll.DepartedAthleteBreaksBatch | src/GUI.py:882-885 | such an item would break a foreign key |
| AthletePayroll.ItemNeedsAthlete | src/GUI.py:883-885 | on consistent data every item's athlete exists |
| StaffPayroll.Initial | src/GUI.py:1053 | every fetched employee starts on the registered salary with bonus, discounts and additions at zero |
| StaffPayroll.OpenSheet | src/GUI.py:1045-1053 | no sheet exactly when the employee query returned no rows or `(None, None)`; otherwise the dict built from the rows |
| StaffPayroll.NetTotalSplits | src/GUI.py:1172 | the estimated net total is base + bonus + additions - discounts, each summed over the sheet |
| StaffPayroll.FieldOf | src/GUI.py:1172 | one money field of a staff entry, or its net pay base + bonus + additions - discounts (definition) |
| StaffPayroll.Total | src/GUI.py:1172 | the sum of one field over the sheet in iteration order (definition; `NetTotalSplits` states its split) |
| StaffPayroll.HeaderRow | src/GUI.py:1159-1162 | the pending `folha_funcionarios` header, with no aggregate (definition) |
| StaffPayroll.UnadjustedNetIsBase | src/GUI.py:1172 | with every adjustment zero the net total is the sum of base salaries |
| StaffPayroll.OpenedEntry | src/GUI.py:1053 | each fetched employee's entry is on salary only |
| StaffPayroll.OpenedSheetPaysSalaries | src/GUI.py:1053 | a freshly opened sheet lists the employees in query order, each on salary only, and its net total is its base total |
| StaffPayroll.ZeroAdjustmentsOfOpened | src/GUI.py:1053 | on an opened sheet the net total equals the base total |
| StaffPayroll.ApplyAsWritten | src/GUI.py:1134-1142 | the pop-up's three assignments in order, stopping at the first field that is not a number; the flag is set exactly when all three convert |
| StaffPayroll.PartialEditKeepsBonus | src/GUI.py:1136-1137 | a rejected pop-up (valid bonus, invalid discounts) has nonetheless changed the stored bonus |
| StaffPayroll.Apply | src/GUI.py:1134-1142 | corrected OK: a new entry exactly when all three fields convert, equal to what the assignments produce; the base salary is never touched |
| StaffPayroll.PrefilledIsIdentity | src/GUI.py:1106-1133 | confirming the pre-filled pop-up unchanged keeps the entry |
| StaffPayroll.EditAsWritten | src/GUI.py:1134-1142 | `ok()` as written: the entry becomes the partially assigned one even when the pop-up reports an error |
| StaffPayroll.Edit | src/GUI.py:1134-1142 | corrected `ok()`: the entry changes exactly when every field converts; otherwise the sheet is unchanged |
| StaffPayroll.ItemRows | src/GUI.py:1164-1168 | one `item_folha_f` row per sheet entry, in iteration order, carrying its four amounts, the batch id and the employee id |
| StaffPayroll.GenerateOutcome | src/GUI.py:1149-1154 | `gerar` stops with the invalid-dates error exactly when either date fails `_parse_date_br` |
| StaffPayroll.Transaction | src/GUI.py:1155-1180 | the transaction commits as a whole, reporting the employee count and the net total, or fails and leaves the committed data as it was, AUTO_INCREMENT counters included (see Left out) |
| StaffPayroll.ScriptRuns | src/GUI.py:1159-1169 | the transaction is the header insert, then the item inserts, then the procedure call |
| StaffPayroll.Generate | src/GUI.py:1149-1180 | `gerar` has exactly the effect `GenerateOutcome` describes; a connection is taken only once both dates are valid, and always returned |
| StaffPayroll.RunTransaction | src/GUI.py:1156-1180 | commit after a successful batch, rollback at the first error; the connection is always returned |
| StaffPayroll.RunBatch | src/GUI.py:1159-1169 | header, items under the header's `lastrowid`, then `sp_aprovar_folha_funcionarios(id, 1, 9)`, stopping at the first error |
| StaffPayroll.PreparedLayout | src/GUI.py:1159-1168 | the header and the items are appended to their tables under fresh consecutive ids |
| StaffPayroll.PreparedConsistent | src/GUI.py:1159-1168 | before the procedure runs the data is still consistent |
| StaffPayroll.PreparedBatch | src/GUI.py:1159-1169 | before the procedure runs there is one pending header and one item per entry, and nothing else changed; the procedure runs on exactly that data |
| StaffPayroll.LaidOutByAppends | src/GUI.py:1159-1168 | appending the header, then the items, lays the batch out |
| StaffPayroll.PreparedBatchMembers | src/GUI.py:1163-1168 | the `item_folha_f` rows referencing the new header are exactly the new ones |
| StaffPayroll.OldItemPredatesBatch | src/GUI.py:1163 | no earlier item can reference the new header's id |
| StaffPayroll.OneItemPerEmployee | src/GUI.py:1164-1168 | each employee has exactly one item in the new batch |
| StaffPayroll.DismissedEmployeeAbortsBatch | src/GUI.py:1159-1178 | an employee on the sheet who has been dismissed since the screen opened makes the whole generation fail, so nothing is committed |
| StaffPayroll.DismissedEmployeeBreaksBatch | src/GUI.py:1165-1168 | such an item would break a foreign key |
| StaffPayroll.ItemNeedsEmployee | src/GUI.py:1166-1168 | on consistent data every item's employee exists |
| Ledger.EntryEffect | src/GUI.py:529-549 | the error box, with nothing touched, exactly when the value or the account does not convert; otherwise the INSERT's effect through `execute_query` |
| Ledger.SaveEntry | src/GUI.py:529-549 | `salvar` has exactly the effect `EntryEffect` gives for the account read by `int`; a connection is used only when both convert |
| Ledger.ManualEntryRecorded | src/GUI.py:536-543 | a manual entry lands under the next ledger key exactly as typed, already approved by approver 1 at `NOW()` with origin `manual`; the data stays consistent |
| Ledger.ManualRow | src/GUI.py:536-543 | the row the manual INSERT writes: approved on the spot by approver 1 at `NOW()`, origin `manual` (definition; `ManualEntryRecorded` states where it lands) |
| Ledger.ManualEntryLost | src/GUI.py:542-545 | a failing INSERT leaves the ledger as it was, and the dialog still closes |
| Ledger.AccountDigitsRead | src/GUI.py:533 | an account typed as digits with blanks around it is read as its number |
| Ledger.ListPending | src/GUI.py:559-576 | the approval dialog opens exactly when the pending query returned rows, and shows those rows; nothing is changed |
| Ledger.ApproveSelected | src/GUI.py:617-629 | without a selection only a warning and no connection; otherwise the UPDATE by the session's board member, through `execute_query` |
| Ledger.ApprovePending | src/GUI.py:626-627 | approving a pending entry stamps it approved, by the approver, at `NOW()`, keeps every other field, takes it off the pending list and touches no other row or table |
| Ledger.ReapprovalRestamps | src/GUI.py:626 | the UPDATE has no status condition: an already approved entry is stamped again |
| Ledger.ApprovalKeepsConsistent | src/GUI.py:626-627 | an approval keeps approver and timestamp in step with status on every ledger row |
| Ledger.RowChangesOnlyByUpdate | src/GUI.py:626 | outside the procedures, an existing row changes only by the approval of that ledger entry (to `aprovado`) or the write-off of that asset (to `baixado`) |
| Assets.AccountOf | src/GUI.py:1313-1318 | the account is 2 exactly for `imovel`, 3 exactly for `automovel`, 4 exactly for anything else |
| Assets.AcquisitionDate | src/GUI.py:1309-1311 | a date exactly when the text splits into three parts on `/` |
| Assets.AcquisitionDateReorders | src/GUI.py:1310-1311 | three parts are swapped into year-month-day order, whatever they hold |
| Assets.AcquisitionDateUnchecked | src/GUI.py:1310-1311 | text that is no date (`aa/bb/cc`) goes to the database reordered as it is |
| Assets.SpecRowShape | src/GUI.py:1330-1344 | the specialisation row goes to its category's table and references the new asset and nothing else |
| Assets.SpecRow | src/GUI.py:1330-1344 | the specialisation row of the chosen category for the asset id, or `None` when one of its numbers does not convert (definition; `SpecRowShape` states its table and foreign key) |
| Assets.BemRowOf | src/GUI.py:1324-1328 | the pending `bens` row with the reordered date, name, value, location and board (definition) |
| Assets.RegisterOutcome | src/GUI.py:1307-1357 | invalid data when the date does not split or the value does not convert; a registered asset gets the next `bens` id; anything but success leaves the data as it was, AUTO_INCREMENT counters included (see Left out) |
| Assets.Registration | src/GUI.py:1321-1353 | the transaction commits as a whole, under the new asset id, or leaves the data as it was |
| Assets.Completion | src/GUI.py:1330-1345 | what follows the header: the specialisation row under the header's id, then the approval; anything but success leaves the header-only data |
| Assets.RegisterAsset | src/GUI.py:1307-1357 | `salvar` has exactly the effect `RegisterOutcome` describes; a connection is taken once the date splits, and always returned |
| Assets.Register | src/GUI.py:1324-1345 | the statements on the connection: header, then specialisation and approval on the header's `lastrowid` |
| Assets.Complete | src/GUI.py:1330-1345 | specialisation insert and `sp_aprovar_bem(id, 1, account)` on the given id, stopping at the first error |
| Assets.OneSpecialisation | src/GUI.py:1324-1344 | before the procedure runs the new pending asset is stored under its id, and exactly one specialisation row, the new one, references it |
| Assets.OnlyNewRowRefers | src/GUI.py:1329-1344 | no earlier specialisation row can reference the new asset id |
| Assets.OldRowPredatesAsset | src/GUI.py:1329 | no stored row references an asset id not yet assigned |
| Assets.RegisteredSteps | src/GUI.py:1324-1346 | a registered asset went through exactly the header, the specialisation row and `sp_aprovar_bem` with the category's account |
| Assets.WriteOff | src/GUI.py:1414-1417 | the write-off is one UPDATE through `execute_query` |
| Assets.WriteOffEffect | src/GUI.py:1416 | a write-off changes at most the one asset's status and nothing else; a failing statement changes nothing |
| Assets.WriteOffListed | src/GUI.py:1401-1416 | writing off a listed asset moves it from `aprovado` to `baixado`, keeping every other field, and it leaves the listing |
| Assets.WriteOffUnguarded | src/GUI.py:1416 | the UPDATE has no status condition: a pending asset id that reaches it is written off too |
| Deletes.RemovalEffect | src/GUI.py:917-935 | nothing unless confirmed; otherwise the deletes are committed when all succeed, or the data is left as it was and the first error is reported |
| Deletes.EndContract | src/GUI.py:917-935 | `on_confirm` for an athlete has exactly the effect `RemovalEffect` gives for the two deletes; the connection is always returned |
| Deletes.DeleteAthleteRows | src/GUI.py:924-925 | the two deletes, items first, stopping at the first error |
| Deletes.AthleteCascade | src/GUI.py:924-925 | the athlete's deletes, payroll items first, then the athlete (definition; `AthleteCascadeRuns` and `AthleteGone` state their effect) |
| Deletes.Dismiss | src/GUI.py:1375-1395 | `on_confirm` for an employee has exactly the effect `RemovalEffect` gives for the four deletes; the connection is always returned |
| Deletes.DeleteStaffRows | src/GUI.py:1382-1385 | the four deletes, children first, stopping at the first error |
| Deletes.StaffCascade | src/GUI.py:1382-1385 | the employee's deletes: payroll items, contract, outsourcing record, then the employee (definition; `StaffCascadeRuns` and `EmployeeGone` state their effect) |
| Deletes.LeafDeleteUnblocked | src/GUI.py:924 | deleting from a table no row references is never refused |
| Deletes.AthleteChildren | src/GUI.py:924-925 | an athlete's only dependent rows are payroll items filed under the athlete |
| Deletes.EmployeeChildren | src/GUI.py:1382-1385 | an employee's only dependent rows are payroll items, the contract and the outsourcing record |
| Deletes.PurgeNarrows | src/GUI.py:1382-1384 | deleting the owner's rows of one child table leaves dependants in the other tables only |
| Deletes.OwnerDeleteUnblocked | src/GUI.py:925 | with no dependants left, the owner's delete is not refused |
| Deletes.OwnerRemoved | src/GUI.py:925 | the owner's delete removes exactly the owner's row |
| Deletes.ChildPurged | src/GUI.py:924 | a child table's delete removes exactly the owner's rows and keeps all others |
| Deletes.AthleteCascadeRuns | src/GUI.py:923-926 | ending a contract on consistent data without driver failures succeeds and keeps the data consistent |
| Deletes.AthleteGone | src/GUI.py:917-928 | after ending a contract the athlete is gone, no row refers to them, and other athletes, their items and every other table are untouched |
| Deletes.StaffCascadeRuns | src/GUI.py:1381-1386 | a dismissal on consistent data without driver failures succeeds and keeps the data consistent |
| Deletes.LeafSteps | src/GUI.py:1382-1384 | the three dependent-table deletes succeed and keep the data consistent |
| Deletes.EmployeeGone | src/GUI.py:1375-1388 | after a dismissal the employee is gone, no row refers to them, and other employees and every untouched table are as before |
| Deletes.LeafPurgesKeepOthers | src/GUI.py:1382-1384 | the dependent-table deletes leave every other table as it was |
| Deletes.OwnerFirstRefused | src/GUI.py:924-925 | the order matters: deleting the owner while a dependent row refers to it is refused by the foreign key |
| Navigation.BackToLogin | src/GUI.py:1581-1591 | back leads to login exactly for profile data, or when neither an origin nor a board is set |
| Navigation.BackToList | src/GUI.py:1586-1587 | back leads to a listing exactly when the origin is a non-empty name other than the two markers |
| Navigation.BackToDashboard | src/GUI.py:1584-1589 | back leads to the board's dashboard exactly for its own views, or with no origin inside a board |
| Navigation.BackTarget | src/GUI.py:1581-1591 | `go_back`'s decision, branch by branch (definition; `BackToLogin`, `BackToList` and `BackToDashboard` characterise each target) |
| Navigation.Session.constructor | src/GUI.py:96 | a new window starts with no board, no origin, on the login screen |
| Navigation.Session.ShowLogin | src/GUI.py:228-235 | logging out clears board, board id and origin |
| Navigation.Session.EnterCorpo | src/GUI.py:380-384 | an accepted board sets its name and its board id and shows its dashboard |
| Navigation.Session.ShowCorpoDashboard | src/GUI.py:399-421 | only the screen changes |
| Navigation.Session.ShowItemsList | src/GUI.py:1430-1477 | the catalogue table becomes the origin; the listing is shown when `get_items` brought rows back, and otherwise the window falls back to the queries dashboard (`show_dashboard`) |
| Navigation.Session.Visualizar | src/GUI.py:194-201 | the origin becomes the board's dashboard; the results are shown exactly when the query returned rows |
| Navigation.Session.ShowProfileData | src/GUI.py:465-475 | when the view returned rows, the origin becomes the profile marker and the results are shown with the board unchanged; otherwise `show_login` runs, which clears board, board id and origin |
| Navigation.Session.ShowResults | src/GUI.py:1524 | showing results changes no session field |
| Navigation.Session.GoBack | src/GUI.py:1581-1591 | back goes to the screen `BackTarget` names, with that screen's own effect: login clears the session, the dashboard changes nothing, and a listing sets itself as the origin again but, fetched anew with no rows, ends on the queries dashboard |

## Left out

- The Tk user interface is not modelled: windows, widgets, tree views, message boxes and the confirmation question. A confirmation answer is a parameter (`confirmed`) and a selection is an optional id.
- Login and passwords are not modelled (`show_login`'s form, `_validate_login`, `show_corpo_selection`, the password check in `_validate_corpo`). Only the session assignments of an accepted board are modelled, as `Navigation.Session.EnterCorpo`.
- Conversions of form fields by `float(...)` and `int(...)` are given to the model as optional numbers, `None` where the text does not convert. The exception is the manual ledger entry's account, which is read with a model of Python's `int` on text. Non-ASCII digits accepted by Python's `int`, and its refusal of texts over 4300 digits, are not modelled.
- The connection pool is not modelled: its size, its exhaustion and its session reset. The reset is assumed to discard uncommitted work, which is how a `ValueError` raised inside the asset `with` block leaves nothing behind.
- A `commit()` that fails, and a failing `cursor.close()`, are not modelled.
- SELECT statements are evaluated by a parameter (`Env.query`). This covers the listing filters (`fim_contrato >= CURDATE()`, the latest base salary with `COALESCE`, `id_direcao`), `DATE_FORMAT` and `FORMAT`. The sheets take the fetched rows as input.
- The stored procedures `sp_aprovar_folha_elenco`, `sp_aprovar_folha_funcionarios` and `sp_aprovar_bem` are opaque parameters (`Env.proc`); only their call and arguments are modelled. `NOW()` is `Env.now`, and a driver failure on any statement is `Env.fault`.
- The database schema is not part of this model. The foreign keys (`item_folha_*` to their header and person, specialisation rows to `bens`, `contratado`/`terceirizado` to `funcionarios`, all ON DELETE RESTRICT) and AUTO_INCREMENT keys from 1 are assumptions of the store.
- Gateway.Connection.Rollback and Gateway.DatabaseManager.Release restore the AUTO_INCREMENT counters (`Store.Table.next`) along with the rows, because the counter is part of the rolled-back `Db`. InnoDB does not give ids back: a rolled-back payroll batch or asset registration, or work the pool's session reset discards, leaves a gap. So after such a failure `AthletePayroll.BatchId`, `StaffPayroll.BatchId` and `Assets.BemId` predict an id the server will not hand out. What the model does promise is that a failure leaves the rows, the foreign keys and the reported outcome unchanged, and that each new row lands under a key that was free (`Store.InsertReportsKey`).
- Assets.AcquisitionDate: the reordered date parts are not validated; whether MySQL accepts the text is left to `Env.fault`.
- Assets.Tipo: the category combo box is read-only with the three categories, so the `else` branches (account 4 and the `movel` insert) are only reached by `movel`. A fourth category is not representable.
- The ledger's movement type comes from a read-only combo box and is passed through as text.
- Money is `real`: no decimal rounding, no `:,.2f` formatting of the reported total.
- `adicionar_jogador`, `contratar_funcionario`, `execute_item`, the widgets of `show_dashboard` and the rendering of `show_items_list`/`show_results` are not modelled; `show_dashboard` is only the `QueriesDashboard` screen it leaves on show. `src/contas.py` and `src/sistema.py` are not part of this model.
- `get_items`/`get_item_sql` raising `ValueError` is modelled as the `UnsupportedTable` error value.

## Findings

| source | as written | input that shows it | evidently intended | confidence | as-written member | corrected member |
|---|---|---|---|---|---|---|
| src/GUI.py:848-858 | the squad pop-up's `ok()` assigns the five fields one by one inside `try`, so a `ValueError` on a later field leaves the earlier ones already changed, while the error box says the numbers were invalid | base salary `5000`, bonus `abc`: the error is shown, yet the athlete's base salary is now 5000 | the entry changes only when all five fields convert | not executed | AthletePayroll.EditAsWritten, AthletePayroll.PartialEditKeepsBase | AthletePayroll.Edit, AthletePayroll.Apply |
| src/GUI.py:1134-1142 | the staff pop-up's `ok()` assigns bonus, discounts and additions one by one, so an invalid discount leaves the new bonus stored | bonus `300`, discounts `x`: the error is shown, yet the bonus is now 300 | the entry changes only when all three fields convert | not executed | StaffPayroll.EditAsWritten, StaffPayroll.PartialEditKeepsBonus | StaffPayroll.Edit, StaffPayroll.Apply |
