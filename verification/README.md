# Nigel, modelled and proved in Dafny

Nigel is a local bookkeeping application: statements are imported into a SQLite
ledger, rules categorize them, a person reviews what is left, and reports and
invoices come out as PDF. This project models the parts of it that keep state or
transform text and proves what they promise.

Four areas are covered.

- **The ledger.** `Tables.dfy` holds the tables as values, `LedgerSpec.dfy` what
  each data-layer function does to them, and `Ledger.dfy` the data layer itself: a
  class whose fields are the tables, whose methods follow the source statement by
  statement, and which is given, for every statement and commit, whether it fails. Each
  method is proved to do exactly what is specified if none of its own fails, and to do
  nothing (or, outside a transaction, exactly the writes before the failing one) if one
  does. `CategorizeLoop.dfy` is about those writes. `LedgerColumns.dfy` says of every
  operation when it is accepted and what it writes, column by column. `ImportLaws.dfy`,
  `CategorizeLaws.dfy`, `ReconcileLaws.dfy` and `ReviewLaws.dfy` prove what the
  specification means;
  `Invariants.dfy`, `LedgerRuns.dfy`, `RuleLaws.dfy` and `DateLaws.dfy` prove what
  holds after every run of every operation, and `LedgerSession.dfy` that any use of the
  data layer, with any failures, is such a run.
- **Text.** `Money.dfy` (printer and parser of amounts), `Dates.dfy` (dates compared
  as strings, in the format of section 5.6 of RFC 3339), `CardParser.dfy` (the Bank
  of America card statements), over `Decimal.dfy` and `TextOps.dfy`.
- **Layout.** `Wrap.dfy` (greedy word wrap and its optimality), `Pages.dfy` (the
  invoice's item table and its page breaks), `WindowFrame.dfy` (restoring a window
  onto monitors that may have changed).
- **Faults and threads.** `GeometrySaver.dfy` (the two-thread debounced saver) with
  `GeometryText.dfy` (a text form that meets what it assumes of JSON),
  `Migrations.dfy` (the savepoint runner), `Signers.dfy` (the repair of migration
  16), `Restore.dfy` (copying the documents tree out and swapping it back in).

Amounts are integer cents in the ledger and exact decimals in the parser; lengths
are exact reals. The text engine behind rule matching is an opaque function, and so
is the JSON form of a window's geometry. Of the geometries it can write, which every
observed frame is assumed to be, it is assumed to read back what it wrote, to read an empty
file as nothing, and to read a text with something behind it as before or not at all.
What SQLite answers to a query without a full `ORDER BY` is taken as any answer the
query allows. A failure of the machine is an input: a function from statements or calls to
whether they fail, or a flag for each call, so a contract holds for every pattern of
failures and a fault is always owed to one of them.

## Where the code falls short of its words

The code is modelled as it is. Where it does less than its comments or its users
might expect, the exact condition is proved.

- Undoing a review writes the flag reason `Uncategorized`, whatever the reason was
  before, which every imported transaction shows (`ReviewLaws.UndoInvertsReview`,
  `ReviewLaws.UndoLosesReason`).
- A Back in the terminal takes the decision off its stack before it is undone, so a failing
  undo ends the session with a decision in the ledger that the stack no longer has
  (`ReviewLaws.TerminalBackExactly`); the web session keeps it (`ReviewLaws.SessionTracks`).
- A year above 9999 is accepted from a statement and stored with a leading `+`, which
  sorts before every four-digit year (`Dates.TextOrderExact`,
  `Dates.YearTenThousandSortsFirst`).
- Comma realignment assumes rows at least as wide as the header; a shorter row with a
  comma in its first field loses its transaction (`CardParser.BankRealignmentExactly`,
  `CardParser.ShortRowsMisalign`).
- The preview counts a new row once for each time it occurs in the file; the import
  writes it once (`ImportLaws.PreviewBoundsImport`, `ImportLaws.PreviewCountsTwice`).
- The shaded band of a row that opens a page starts 3.5 mm above the top margin
  (`Pages.TableInMarginsExactly`, `Pages.OpeningBandRisesIntoMargin`).
- With a monitor smaller than the window's floor, clamping twice can move the window to
  another monitor (`WindowFrame.SecondClampExactly`,
  `WindowFrame.SmallHostNotIdempotent`).
- The comment on the saver says quitting cannot outrun the settle window. A background
  write under way, or due, as the flush begins can still have the last word, and a
  program that ends between its opening the file and its writing leaves the file empty
  (`GeometrySaver.FlushIsLastExactly`, `GeometrySaver.QuitLosesFile`).
- A restore whose only failure is removing the replaced folder reports an error although
  the live folder is wholly the new one, and one whose roll-back rename failed says the
  folder was left as it was although it is gone, whole, to `.replaced`
  (`Restore.Disk.RestoreDocumentsIn`). The next restore begins by removing `.replaced`, so
  if its copy fails the old documents are nowhere, and it too says that they were left as
  they were (`Restore.Disk.RestoreTwice`).
- Adding a rule refuses a blank pattern, editing one does not, and an empty `contains`
  pattern is contained in everything (`RuleLaws.StepKeepsPatterns`, `RuleLaws.EditBlanksPattern`).
- `nigel categorize` runs the categorizer outside a transaction. A failure leaves the ledger
  as it was if and only if it comes before the first write, and hits that match the filings
  if and only if it is not a hit update's (`LedgerMachine.Ledger.CategorizeTransactions`,
  `CategorizeLoop.UnchangedExactly`, `CategorizeLoop.HitsMatchExactly`,
  `LedgerSession.FilingWithoutHit`); the ledger stays sound all the same
  (`LedgerRuns.CutShortKeepsSound`).
- A review called without checking its category can put a retired category in use
  (`ReviewLaws.UncheckedReviewNeedsLiveCategory`); the callers check.

## Model

| member | source | states |
|---|---|---|
| LedgerMachine.Ledger.ImportFile | crates/nigel-core/src/importer.rs:431-600 | The tables and the result are exactly the specified ones when none of its own statements fails; a dry run or a file already imported changes nothing; an error that is neither a fault nor an unknown account comes only for a file not imported before; `imported + skipped` is the number of parsed rows; a fault only ever leaves rows added |
| LedgerMachine.Ledger.WriteImport | crates/nigel-core/src/importer.rs:527-579 | The import row, the rejects and the rows that are new: all of them when no statement fails, and otherwise an error with nothing old touched |
| LedgerMachine.Ledger.InsertParsed | crates/nigel-core/src/importer.rs:564-574 | The loop that tests each row against the table it is filling succeeds if and only if none of its statements fails, ends in the specified table with both counters accounting for every row, and only ever adds rows, however early it fails |
| LedgerMachine.Ledger.Preview | crates/nigel-core/src/importer.rs:581-589 | The dry run tests every row against the table as it stands and counts all rows; it fails only with one of its own queries |
| LedgerColumns.CountNewCounts | crates/nigel-core/src/importer.rs:581-589 | The dry run counts exactly the rows of the file that the table as it stands lacks |
| LedgerMachine.Ledger.RecordRejects | crates/nigel-core/src/importer.rs:546-562 | Every refused row is stored, in order, under the new import, unless one of the statements that store them fails |
| LedgerColumns.RejectColumns | crates/nigel-core/src/importer.rs:546-562 | Each refused row is stored once, in its order from the first free id on, with its number, its text and the reason, under the new import |
| LedgerColumns.ImportAccepted | crates/nigel-core/src/importer.rs:527-600 | An accepted file adds one import row with its name, account, record count, checksum and number of rejects; `imported` is how many transactions the table gained, `skipped` the rest, and accounts, categories, rules and reconciliations are untouched |
| LedgerColumns.ImportRefused | crates/nigel-core/src/importer.rs:439-545 | What becomes of every other file, in the order asked: unknown account, checksum known, unreadable, dry run, nothing to import; none changes anything |
| LedgerColumns.DuplicateColumns | crates/nigel-core/src/importer.rs:61-72 | A row is a duplicate if and only if the account has a transaction of its date, amount and description |
| ImportLaws.InsertRowsIsUnion | crates/nigel-core/src/importer.rs:61-72 | The keys afterwards are exactly the old keys and the file's keys, although the loop reads the table it writes |
| ImportLaws.ImportedCountsNewKeys | crates/nigel-core/src/importer.rs:564-574 | `imported` is exactly the number of keys gained |
| ImportLaws.InsertRowsExtends | crates/nigel-core/src/importer.rs:569-573 | Old rows are untouched, and every new row has the account, date, description and amount of a row of the file, no category and no vendor, the flag and its reason `No matching rule`, and this import |
| ImportLaws.ImportOrderIrrelevant | crates/nigel-core/src/importer.rs:449-462 | Two different files, imported in either order, both succeed and leave the same key set, the union of all three |
| ImportLaws.PreviewBoundsImport | crates/nigel-core/src/importer.rs:564-589 | The dry run never counts fewer rows than the import writes, and counts the same number if and only if no new row repeats inside the file |
| ImportLaws.PreviewCountsTwice | crates/nigel-core/src/importer.rs:564-589 | A file that lists one new row twice: the dry run counts two, the import writes one |
| ImportLaws.UndoInvertsImport | crates/nigel-core/src/imports.rs:87-93 | Deleting the import that `import_file` reported restores every table exactly, whatever row ids were reused, and frees the checksum |
| ImportLaws.UndoAfterCategorize | crates/nigel-core/src/importer.rs:634-665 | Import-and-categorize followed by undo leaves what categorizing the old ledger would have left, up to hit counts; surviving rows keep their keys and amounts |
| ImportLaws.DeleteCommutesWithCategorize | crates/nigel-core/src/imports.rs:87-93 | Dropping an import's rows before or after categorizing gives the same transactions |
| LedgerMachine.Ledger.DeleteImport | crates/nigel-core/src/imports.rs:85-93 | All or nothing: when no statement fails the import, its transactions and (by the cascade) its rejects go, and the number of transactions deleted is returned; when one does, the commit included, the database is as it was |
| LedgerColumns.DeleteImportColumns | crates/nigel-core/src/imports.rs:85-93 | Exactly the import's transactions and rejects are gone, and every other row of every table is as it was |
| LedgerColumns.DeleteImportCounts | crates/nigel-core/src/imports.rs:85-93 | The number reported is how many transactions the table lost |
| LedgerMachine.Ledger.ImportAndCategorize | crates/nigel-core/src/importer.rs:624-665 | The specified state and counts when no statement fails; any failure, at any statement or at the commit, leaves every table as it was and the checksum unspent, so a retry is not a duplicate |
| LedgerColumns.ImportAndCategorizeCounts | crates/nigel-core/src/importer.rs:634-665 | A refused file changes nothing and one imported before categorizes nothing; otherwise `still_flagged` is how many transactions are uncategorized afterwards, and with `categorized` makes up those that were after the import |
| LedgerMachine.Ledger.ActiveRules | crates/nigel-core/src/categorizer.rs:28-42 | An order by descending priority of exactly the active rules always exists and is what the loop uses; ties may fall either way |
| LedgerMachine.Ledger.CategorizeTransactions | crates/nigel-core/src/categorizer.rs:27-79 | When no statement fails the nested loop over the live tables computes the simultaneous specification and its counters are the sizes of the two outcomes. When one does, the run stops at it and leaves exactly the writes before it. Either way the ledger is untouched if and only if no rule takes any pending transaction or one of the first three statements fails, and a sound ledger stays sound |
| LedgerMachine.Ledger.CategorizeEach | crates/nigel-core/src/categorizer.rs:50-73 | Outer loop: it succeeds if and only if no statement fails, having made both writes of every pending transaction some rule takes; else it stops at the first failing one and leaves exactly the writes made before it |
| LedgerMachine.Ledger.CategorizeOne | crates/nigel-core/src/categorizer.rs:54-72 | Inner loop: the first matching rule files the transaction and takes the only hit; if the filing fails nothing is written, and if the hit fails the filing is left without it |
| CategorizeLoop.AllWritten | crates/nigel-core/src/categorizer.rs:50-78 | With both writes made for every pending transaction a rule takes, in whatever order they were met, the ledger and the counts are the specified ones |
| CategorizeLoop.UnchangedExactly | crates/nigel-core/src/categorizer.rs:53-73 | Part of a run leaves the ledger as it was if and only if the part is empty: no write was made before the failing statement |
| CategorizeLoop.CutShortUnchangedExactly | crates/nigel-core/src/categorizer.rs:53-73 | Whatever sets of transactions have been filed and counted, the ledger is as it was if and only if no rule takes any of them |
| CategorizeLoop.HitsMatchExactly | crates/nigel-core/src/categorizer.rs:53-64 | Each rule has gained one hit for every transaction it has filed if and only if the failing statement is not a hit update |
| LedgerSession.FilingWithoutHit | crates/nigel-core/src/categorizer.rs:53-64 | The failing run: one rule, one transaction it takes and the fourth statement failing leave the transaction filed and the rule without a hit |
| CategorizeLaws.FirstMatchIsBest | crates/nigel-core/src/categorizer.rs:28-31 | For any order SQLite picks among equal priorities the winner is a matching active rule no other matching one outranks, and there is a winner if and only if some active rule matches |
| CategorizeLaws.CategorizeRefinesBestMatch | crates/nigel-core/src/categorizer.rs:53-73 | Each transaction gets the category and the vendor of a best match and loses its flag and reason, all other columns kept, or is exactly as it was; categorized ones never change |
| CategorizeLaws.SecondRunChangesNothing | crates/nigel-core/src/categorizer.rs:44-45 | An immediate second run is the identity on the whole database, whatever order it sees |
| CategorizeLaws.HitsCountWinners | crates/nigel-core/src/categorizer.rs:61-64 | The hits gained by the rules of the top ranks are the transactions those ranks won, none counted twice |
| CategorizeLaws.HitsConserved | crates/nigel-core/src/categorizer.rs:50-78 | All hits gained plus the still uncategorized are the initially uncategorized |
| LedgerRuns.RunKeepsSound | crates/nigel-core/src/importer.rs:431-600 | Every reachable ledger, over all eighteen operations in any order, a categorizer run cut short among them: references are live, checksums, transaction keys, account names and active category names are unique, `malformed_count` is the number of rejects, nothing in use points at a retired category |
| LedgerRuns.StepKeepsSound | crates/nigel-core/src/categories.rs:88-102 | One operation of any kind, with category ids checked first, keeps all of that |
| LedgerRuns.CutShortKeepsSound | crates/nigel-core/src/categorizer.rs:53-73 | Whatever part of its filings and hits a failing categorizer run has committed, the ledger is sound |
| LedgerRuns.EmptyIsSound | crates/nigel-core/src/importer.rs:431-600 | A fresh ledger starts sound |
| LedgerSession.Perform | crates/nigel-core/src/server/routes/review.rs:67-135 | Any call through its caller's checks: with no failing statement it is exactly the specified operation with the caller's arguments, and with one it leaves the ledger as it was or, if it is the categorizer run by itself, a part of that run |
| LedgerSession.Play | crates/nigel-core/src/importer.rs:624-633 | Any calls in any order with any statements failing make a run of operations of the specification, each one of the calls that were made, and if none fails exactly the calls made, all of them; so a sound ledger stays sound and, without a manual unflag, every uncategorized transaction stays flagged |
| LedgerRuns.DeleteCategoryKeepsSound | crates/nigel-core/src/categories.rs:203-245 | The usage check makes retiring a category safe: no transaction and no active rule is left pointing at it |
| LedgerRuns.DeleteAccountKeepsSound | crates/nigel-core/src/accounts.rs:174-205 | Deleting an account leaves no reference to it, and the unlinked imports keep their checksums |
| LedgerRuns.RecordKeepsSound | crates/nigel-core/src/importer.rs:527-579 | Recording an import keeps references, uniqueness and reject counts |
| LedgerRuns.StepKeepsFlagged | crates/nigel-core/src/reviewer.rs:172-183 | An operation keeps every uncategorized transaction flagged if and only if it is not a manual unflag of one |
| LedgerRuns.RunKeepsFlagged | crates/nigel-core/src/importer.rs:569-573 | Over whole runs without such an unflag, every uncategorized transaction is flagged |
| ReviewLaws.UncheckedReviewNeedsLiveCategory | crates/nigel-core/src/reviewer.rs:84-112 | Without the caller's check, a review keeps retired categories out of use if and only if its category is live or it writes nothing |
| LedgerMachine.Ledger.ApplyReview | crates/nigel-core/src/reviewer.rs:84-112 | The filing and the rule it may create, exactly as specified when no statement fails, and neither when one does; with a live category a sound ledger stays sound |
| LedgerColumns.ReviewColumns | crates/nigel-core/src/reviewer.rs:84-112 | Refused if and only if it would write a category that names no row; else the transaction gets the category and the vendor and loses its flag and reason, nothing else of it or of any other changes, and at most one rule, `contains` with that pattern, vendor and category and no hits, is added under a fresh id |
| LedgerMachine.Ledger.UndoReview | crates/nigel-core/src/reviewer.rs:114-125 | The reopening and the rule's deletion when no statement fails, and neither when one does |
| LedgerColumns.UndoColumns | crates/nigel-core/src/reviewer.rs:114-125 | Category and vendor emptied, flag and reason set, all other columns kept; exactly the named rule gone |
| LedgerColumns.CheckedReviewRefuses | crates/nigel-core/src/server/routes/review.rs:67-135 | Before a review, a blank pattern for a rule, a missing transaction and a category not in use are refused, in that order, and change nothing |
| LedgerMachine.Ledger.UpdateTransactionCategory | crates/nigel-core/src/reviewer.rs:127-137 | Succeeds if and only if the statement does and the category is there; a register edit moves the category alone, keeps the flag, and with a live category keeps the ledger sound |
| ReviewLaws.UndoInvertsReview | crates/nigel-core/src/reviewer.rs:84-125 | Undo after apply is the old ledger up to the flag reason if and only if the transaction was flagged, uncategorized and vendor-less; exactly the old ledger if and only if its reason was already the one undo writes |
| ReviewLaws.UndoLosesReason | crates/nigel-core/src/reviewer.rs:114-125 | The failing family: a transaction as an import leaves it comes back with another flag reason and nothing else changed |
| ReviewLaws.SessionTracks | web/README.md:455-464 | Over any run of decisions, skips and backs, any of whose requests may fail, the ledger is the initial one with exactly the stacked decisions applied in order: a decision whose undo fails is still on the stack |
| ReviewLaws.TerminalBackExactly | crates/nigel/src/cli/review.rs:415-423 | The terminal's Back takes the decision off before it asks: its stack still stands for what the ledger holds if and only if the undo did not fail or the entry was a skip |
| ReviewLaws.BackingOutRestores | web/README.md:455-464 | With the stack empty again, rules and every other table are exactly as at the start and transactions are so up to the flag reason |
| LedgerMachine.Ledger.Recategorize | crates/nigel-core/src/reviewer.rs:348-368 | All the listed transactions move when no statement fails and none when one does; an id listed twice is counted twice; vendors stay |
| LedgerColumns.RecategorizeColumns | crates/nigel-core/src/reviewer.rs:348-368 | Refused if and only if the category names no row and something is listed; else the listed transactions get the category and lose flag and reason, vendors stay, and the count is of the places in the list that name a transaction |
| LedgerMachine.Ledger.SetFlag | crates/nigel-core/src/reviewer.rs:166-183 | Afterwards the flag is as asked, unless the statement fails, and the ledger as sound as before; only an uncategorized transaction unflagged by hand ends the flag invariant |
| LedgerColumns.SetFlagColumns | crates/nigel-core/src/reviewer.rs:166-183 | Of one transaction the flag alone changes; a missing one is refused |
| LedgerMachine.Ledger.AddRule | crates/nigel-core/src/rules.rs:171-188 | A fresh id, no other rule touched, stored only under a live category; a sound ledger stays sound; it fails with a fault if and only if one of its statements does, and then changes nothing |
| LedgerColumns.AddRuleColumns | crates/nigel-core/src/rules.rs:171-188 | Refused for a blank pattern or one its match type cannot run, then for a category not in use; else stored as given, active and without hits |
| LedgerColumns.MatchTypes | crates/nigel-core/src/rules.rs:104-117 | A pattern can be run as `contains`, as `starts_with`, or as a `regex` that compiles, and no other way |
| LedgerMachine.Ledger.UpdateRule | crates/nigel-core/src/rules.rs:191-250 | Given fields are set and the others kept, on active rules only; the pattern is validated again only when it or the match type moves; it fails with a fault if and only if one of its statements does, and then changes nothing |
| LedgerColumns.UpdateRuleAccepted | crates/nigel-core/src/rules.rs:191-250 | Accepted if and only if the rule is there, active and of a category that is there, some field is given, a given pattern or match type can be run with the other as it then is, and a given category is in use |
| LedgerColumns.UpdateRuleColumns | crates/nigel-core/src/rules.rs:191-250 | Each of the five fields is the given one, or the old one if none is given; hits stay |
| LedgerMachine.Ledger.DeactivateRule | crates/nigel-core/src/rules.rs:254-263 | Afterwards no order the categorizer could be given contains the rule, and no other rule has changed or gone; it fails with a fault if and only if one of its statements does, and then changes nothing |
| LedgerColumns.DeactivateRuleColumns | crates/nigel-core/src/rules.rs:254-263 | Of one active rule the flag `active` alone changes; a missing or inactive one is refused |
| LedgerMachine.Ledger.AddCategory | crates/nigel-core/src/categories.rs:105-143 | A fresh id, no other category touched, and the only active category of its name; it fails with a fault if and only if one of its statements does, and then changes nothing |
| LedgerColumns.AddCategoryColumns | crates/nigel-core/src/categories.rs:105-143 | Refused for a blank name or an unknown kind, then for the name of a category in use; else stored as given |
| LedgerMachine.Ledger.UpdateCategory | crates/nigel-core/src/categories.rs:170-199 | A live category changed in place, no other touched, and the only active one of its new name; it fails with a fault if and only if one of its statements does, and then changes nothing |
| LedgerColumns.UpdateCategoryColumns | crates/nigel-core/src/categories.rs:170-199 | The same for a change of name or kind, which the category's own name does not stop |
| LedgerMachine.Ledger.DeleteCategory | crates/nigel-core/src/categories.rs:203-245 | Retired with no other category touched, and no transaction and no active rule points at it; it fails with a fault if and only if one of its statements does, and then changes nothing |
| LedgerColumns.DeleteCategoryColumns | crates/nigel-core/src/categories.rs:203-245 | Refused for transactions first, then for active rules, with their exact number; else the flag `active` alone changes |
| LedgerMachine.Ledger.AddAccount | crates/nigel-core/src/accounts.rs:80-114 | A fresh id, no other account touched, and from then on the name finds exactly this account; it fails with a fault if and only if one of its statements does, and then changes nothing |
| LedgerColumns.AddAccountColumns | crates/nigel-core/src/accounts.rs:80-114 | Refused for a blank name or an unknown kind, then for a name that is taken; else stored as given |
| LedgerMachine.Ledger.DeleteAccount | crates/nigel-core/src/accounts.rs:182-205 | The check and the three writes together when no statement fails, and none of them when one does; a sound ledger stays sound |
| LedgerColumns.DeleteAccountColumns | crates/nigel-core/src/accounts.rs:174-205 | Refused for transactions, with their exact number, then for not being there; else exactly its own reconciliations go, its imports lose the account and nothing else, and all others are as they were |
| RuleLaws.StepKeepsRunnable | crates/nigel-core/src/rules.rs:190-215 | Validating only what an edit moves is enough: no operation of any kind stores a rule with an unknown match type or a regex that does not compile |
| RuleLaws.RunKeepsRunnable | crates/nigel-core/src/rules.rs:101-115 | The same over whole runs |
| RuleLaws.StepKeepsPatterns | crates/nigel-core/src/rules.rs:171-215 | An operation leaves every rule a non-blank pattern if and only if it is not an edit of an active rule to a blank pattern that its match type can run and a live category; adding refuses what editing accepts |
| RuleLaws.EditBlanksPattern | crates/nigel-core/src/rules.rs:205-215 | The edit that does it: a `contains` rule whose pattern is set to nothing is accepted |
| LedgerMachine.Ledger.Reconcile | crates/nigel-core/src/reconciler.rs:67-115 | The month's emptiness test, the cumulative sum and the stored verdict when no statement fails; else nothing, with a failing account lookup reported as an unknown account |
| LedgerColumns.ReconcileColumns | crates/nigel-core/src/reconciler.rs:94-115 | Reported and stored: the statement, the balance, how far they are apart, and agreement if and only if they are equal to the cent |
| LedgerColumns.SumOfAdds | crates/nigel-core/src/reconciler.rs:94-98 | The balance is additive over disjoint sets and of one transaction is its amount |
| ReconcileLaws.WindowIsMonth | crates/nigel-core/src/reconciler.rs:81-98 | The text comparisons select exactly the account's transactions of the month, and of all months up to it |
| ReconcileLaws.BalanceCarriesForward | crates/nigel-core/src/reconciler.rs:94-98 | The balance at a month is the balance at the month before plus the month's transactions |
| ReconcileLaws.ReconcileMeans | crates/nigel-core/src/reconciler.rs:81-115 | Refused if and only if the month is empty; agrees if and only if the statement is the running sum; only the reconciliations table grows |
| DateLaws.StepKeepsDates | crates/nigel-core/src/importer.rs:569-573 | An operation that imports only sortable dates leaves only sortable dates |
| DateLaws.RunKeepsDates | crates/nigel-core/src/reconciler.rs:81-98 | Over whole runs that import only sortable dates, every stored date is one, as the balance theorems ask |
| Dates.AtOrBeforeMonthEnd | crates/nigel-core/src/reconciler.rs:94-98 | For ISO dates with four-digit years, `date <= month-31` as text holds if and only if the date's month is at or before that month |
| Dates.AtOrAfterMonthStart | crates/nigel-core/src/reconciler.rs:81-85 | The same for the lower edge, `date >= month-01` |
| Dates.ParseDateMdyReads | crates/nigel-core/src/importer.rs:25-35 | A written month, day and year is stored as that date, and refused if and only if the calendar has no such day |
| Dates.FourDigitYearsStoreIso | crates/nigel-core/src/importer.rs:25-35 | A four-digit year is stored in the sortable form |
| Dates.YearLength | crates/nigel-core/src/importer.rs:34 | Over every year the month lengths add up to 365 and the leap day that counting multiples of 4, 100 and 400 gives |
| Dates.MonthLengths | crates/nigel-core/src/importer.rs:34 | Months alternate between 31 and 30 days, July and August apart; February has 28 or 29 |
| Dates.TextOrderIsCalendarOrder | crates/nigel-core/src/importer.rs:34 | Text order of stored dates is calendar order for four-digit years |
| Dates.TextOrderExact | crates/nigel-core/src/importer.rs:34 | Beside four-digit years text order is calendar order if and only if the other year has at most four digits |
| Dates.YearTenThousandSortsFirst | crates/nigel-core/src/importer.rs:25-35 | `1/1/10000` is accepted, stored as `+10000-01-01`, and sorts before 2025 |
| Money.GroupThousands | crates/nigel-core/src/fmt.rs:10-17 | The loop over the reversed digits groups them by threes from the right |
| Money.Money | crates/nigel-core/src/fmt.rs:2-24 | The printed form of an integer number of cents |
| Money.MoneyLooks | crates/nigel-core/src/fmt.rs:2-24 | A negative amount is a minus sign before the printed positive one; that is a dollar, the grouped whole and two digits |
| Money.Number | crates/nigel-core/src/fmt.rs:27-43 | The printed form of an integer |
| Money.GroupsAreThrees | crates/nigel-core/src/fmt.rs:10-17 | Counted from the right, a character is a comma if and only if its place is a multiple of four |
| Money.StrippingUngroups | crates/nigel-core/src/importer.rs:17 | Stripping the commas recovers the digits |
| Money.ParserUndoesPrinter | crates/nigel-core/src/importer.rs:16-23 | Every amount in cents, of either sign, reads back as itself from its printed form, and as its negation from that form in parentheses |
| Money.NumberReads | crates/nigel-core/src/fmt.rs:27-43 | Every printed integer, of either sign and with its commas, reads back as itself |
| Money.ExponentReads | crates/nigel-core/src/importer.rs:16-23 | With an exponent, of either letter and any sign or none, a number reads as its digits scaled by that power of ten |
| Money.MalformedRefused | crates/nigel-core/src/importer.rs:16-23 | A second point, no digits, and an exponent without digits are refused |
| Money.StrippedAnywhere | crates/nigel-core/src/importer.rs:16-17 | Commas, quotes and dollar signs change nothing wherever they stand |
| Money.BlanksAround | crates/nigel-core/src/importer.rs:16-23 | Nor do blanks around an amount or just inside its parentheses |
| CardParser.ReadHeader | crates/nigel-core/src/importer.rs:799-820 | The header loop finds the last column of each name, with the defaults otherwise |
| CardParser.ColumnIsLast | crates/nigel-core/src/importer.rs:799-820 | A column is the last cell of its name, trimmed, and the default if and only if there is none |
| CardParser.ParseCardFormat | crates/nigel-core/src/importer.rs:782-902 | The loop with its flag and indices yields, in order, the rows and rejects the header's own layout gives each later record |
| CardParser.EveryRecordOnce | crates/nigel-core/src/importer.rs:790-902 | A record becomes a row or a reject if and only if it is unreadable or follows the header; it lands at its place in file order; a reject has its record's line and text; nothing else is produced |
| CardParser.AcceptedExactly | crates/nigel-core/src/importer.rs:837-900 | A row is accepted if and only if it reaches its last column, its date reads, it has a description, and its amount looks like a number and is one |
| CardParser.AcceptedRowReads | crates/nigel-core/src/importer.rs:853-900 | An accepted row has the date its cell reads as, its trimmed description, and the amount its cell reads as, with the sign of its type |
| CardParser.RefusedFor | crates/nigel-core/src/importer.rs:837-885 | A refused row is refused for the first thing wrong with it, and the reason quotes that cell |
| CardParser.BankRowsAreIso | crates/nigel-core/src/importer.rs:853-900 | With the bank's dates, a four-digit year is stored in the sortable form and is that year, month and day |
| CardParser.LooksNumericMeans | crates/nigel-core/src/importer.rs:872-880 | A cell looks like a number if and only if it is not empty and holds digits, minus signs, points, commas, dollars and blanks only |
| CardParser.SignLaws | crates/nigel-core/src/importer.rs:885-894 | An accepted row keeps the magnitude; `D` makes it non-positive and any other type non-negative; without a type column the sign flips |
| CardParser.RealignmentUndoesSplit | crates/nigel-core/src/importer.rs:822-835 | A full row whose first field is broken into any number of pieces gives the same transaction or the same rejection |
| CardParser.RealignmentExactly | crates/nigel-core/src/importer.rs:819-835 | Rows of a given width keep their verdict, reasons included, whenever commas break their first field if and only if that width is at least the header's |
| CardParser.AcceptedRealignmentExactly | crates/nigel-core/src/importer.rs:819-835 | Accepted rows of a given width keep their transaction whenever commas break their first field if and only if that width is at least the header's, or too small for any row to be accepted |
| CardParser.BankRealignmentExactly | crates/nigel-core/src/importer.rs:819-870 | Both for the dates and amounts the bank writes, under any header that names its columns after the first |
| CardParser.CommasDoNotMatter | crates/nigel-core/src/importer.rs:822-835 | Over a whole file, commas in the first field change neither rows nor rejects nor the text a reject keeps |
| CardParser.ShortRowsMisalign | crates/nigel-core/src/importer.rs:825-847 | A transaction lost: a row one column short of the header is accepted as it stands and refused once its first field holds a comma |
| Wrap.WrapText | crates/nigel-core/src/pdf.rs:71-99 | The loop prints the greedy lines, and the words of those lines, one after the other, are the words of the text |
| Wrap.WordsAtSpace | crates/nigel-core/src/pdf.rs:75 | Any white-space character separates the words before it from the words after it |
| Wrap.WordsOfWord | crates/nigel-core/src/pdf.rs:75 | A text without one is one word, the whole of it |
| Wrap.WrapKeepsWords | crates/nigel-core/src/pdf.rs:71-99 | At any width the lines hold exactly the words of the text, in order |
| Wrap.GreedyIsSplit | crates/nigel-core/src/pdf.rs:71-99 | The lines hold the words in order, and every line fits or is a single word |
| Wrap.GreedyIsOptimal | crates/nigel-core/src/pdf.rs:71-99 | No order-preserving split into such lines uses fewer lines |
| Wrap.WrapIsOptimal | crates/nigel-core/src/pdf.rs:95-98 | So many lines are printed for the text, one for a blank text |
| Wrap.WrapHard | crates/nigel-core/src/pdf.rs:1580-1594 | The lines of the soft wrap, the overlong ones cut: every piece fits or is one character, and the pieces spell the wrapped text, for any type size above zero |
| Wrap.CutsAreFull | crates/nigel-core/src/pdf.rs:1580-1594 | A cut line is cut as late as it can be: no piece but its last has room for another character |
| Wrap.TruncateToWidth | crates/nigel-core/src/pdf.rs:1177-1194 | A text that fits is untouched; otherwise the longest prefix that fits with the dots, none if not even one character does |
| Pages.PdfWriter.ItemRow | crates/nigel-core/src/pdf.rs:319-345 | Band, cells and rule of one row and the cursor after it, on the page chosen first |
| Pages.PdfWriter.DrawItemCells | crates/nigel-core/src/pdf.rs:380-408 | Every non-empty line of every cell, one row step apart |
| Pages.RowPrints | crates/nigel-core/src/pdf.rs:319-408 | A row prints every line of every cell that has anything on it, each five millimetres below the last, and no other text |
| Pages.CellKeepsText | crates/nigel-core/src/pdf.rs:348-378 | A figure is printed whole, a description word by word, and an empty cell as one blank line |
| Pages.PdfWriter.ItemRows | crates/nigel-core/src/pdf.rs:1499-1502 | A whole table: its marks and where the cursor ends |
| Pages.RowOnOnePage | crates/nigel-core/src/pdf.rs:312-345 | All marks of a row are on one page, between its band's edges, the text clear of both |
| Pages.RowFitsExactly | crates/nigel-core/src/pdf.rs:173-177 | The cursor's way down a row, wherever it was, is inside the margins if and only if the row is no taller than the page body |
| Pages.RowMarksInMarginsExactly | crates/nigel-core/src/pdf.rs:319-345 | Everything a row draws is inside the margins if and only if, where there is room for it, a shaded row has 3.5 above it, and where it opens a page, it is not shaded and at most 3.5 taller than the page body |
| Pages.TableMarksInMarginsExactly | crates/nigel-core/src/pdf.rs:1499-1502 | Everything a table draws is inside the margins if and only if that holds of each row at the cursor it is asked for |
| Pages.TableInMarginsExactly | crates/nigel-core/src/pdf.rs:1499-1502 | With rows no taller than a page and 3.5 above the first, everything is inside the margins if and only if no shaded row opens a page |
| Pages.OpeningBandRisesIntoMargin | crates/nigel-core/src/pdf.rs:327-336 | On a page a row opens, its band starts 3.5 above the top margin |
| Pages.BandsTile | crates/nigel-core/src/pdf.rs:327-343 | Consecutive rows share an edge unless the second opens the next page because it did not fit |
| Pages.BandsNeverOverlap | crates/nigel-core/src/pdf.rs:327-343 | No two rows on a page overlap, however far apart |
| Pages.ItemColumns | crates/nigel-core/src/pdf.rs:1363-1397 | The four widths sum to the printable width, Description keeps at least 40 percent, figure columns get what they ask for or are all scaled by one factor |
| Pages.ScaleToFit | crates/nigel-core/src/pdf.rs:1377-1383 | In place: one factor for all three, and never more than the ceiling together |
| Pages.WidestCovers | crates/nigel-core/src/pdf.rs:1363-1375 | A figure column is at least as wide as its heading and every figure in it |
| Pages.WidestIsOne | crates/nigel-core/src/pdf.rs:1363-1375 | And no wider than one of them |
| WindowFrame.BestIsBest | crates/nigel-desktop/src/window_state.rs:246-260 | The monitor chosen is one of them and none overlaps more |
| WindowFrame.BestIsLast | crates/nigel-desktop/src/window_state.rs:247-265 | Of monitors with equal overlap the last is chosen |
| WindowFrame.NoOverlapGoesFirst | crates/nigel-desktop/src/window_state.rs:247-265 | Over none of them a frame goes to the first monitor |
| WindowFrame.OverlapIsLargest | crates/nigel-desktop/src/window_state.rs:247-255 | The overlap is the area of the largest rectangle inside both, and nothing if there is none |
| WindowFrame.ClampedInsideExactly | crates/nigel-desktop/src/window_state.rs:212-244 | The clamped frame is never below the floor, and lies wholly inside its host if and only if the host is at least the floor |
| WindowFrame.ClampMovesLeast | crates/nigel-desktop/src/window_state.rs:212-245 | A size between the floor and the host is kept, and no place of that size inside the host is nearer to the saved one |
| WindowFrame.FixedExactly | crates/nigel-desktop/src/window_state.rs:212-245 | A frame at or above the floor is left alone if and only if on both axes it is no longer than its host or already the floor, and lies inside or pinned to the host's near edge |
| WindowFrame.SecondClampExactly | crates/nigel-desktop/src/window_state.rs:212-266 | A second clamp changes nothing if and only if that holds of the once-clamped frame and the monitor it now overlaps most, or there is no monitor |
| WindowFrame.ClampIdempotent | crates/nigel-desktop/src/window_state.rs:212-266 | With a host at least the floor a second clamp changes nothing, even when overlapping monitors make it choose another host |
| WindowFrame.SmallHostNotIdempotent | crates/nigel-desktop/src/window_state.rs:205-245 | Where the condition fails: with a host below the floor a second clamp moves the window to another monitor |
| WindowFrame.FullOverlapMeansInside | crates/nigel-desktop/src/window_state.rs:247-255 | The overlap is at most the frame's area, and equals it if and only if the monitor contains the frame |
| WindowFrame.ClampScales | crates/nigel-desktop/src/window_state.rs:212-266 | Scaling frame, floor and monitors scales the clamped frame |
| WindowFrame.PlanCommutesWithScale | crates/nigel-desktop/src/window_state.rs:134-155 | Scaling monitors and space scale together gives the same inner size and flag and scales the origin |
| WindowFrame.SavedComesBackExactly | crates/nigel-desktop/src/window_state.rs:134-155 | A window saved at or above the floor comes back with the size, place and flag it had, decorations taken off again, if and only if its decorated frame suits its monitor |
| WindowFrame.SavedComesBack | crates/nigel-desktop/src/window_state.rs:134-203 | So does any launch with the saved window inside its monitor |
| WindowFrame.LaunchIsSafe | crates/nigel-desktop/src/window_state.rs:169-203 | A launch is never below the floor, is placed if and only if there are a saved state and a monitor, and is maximized if and only if it was saved so |
| WindowFrame.UnplacedLaunch | crates/nigel-desktop/src/window_state.rs:169-203 | A first launch is 1200 by 820 and not placed; with no monitor the saved size is kept, floored at 900 by 700 |
| GeometrySaver.QuietFileIsCurrent | crates/nigel-desktop/src/window_state.rs:276-332 | In every interleaving, when no nudge waits, the writer is parked, the event thread is between calls and no save has failed since the file was last opened, the file reads back as the last observation; literally so if and only if its scale is usable |
| GeometrySaver.StepKeepsInv | crates/nigel-desktop/src/window_state.rs:276-332 | Each atomic step of either thread keeps the invariant behind that, overlapping writes included |
| GeometryText.PlainIsLikeJson | crates/nigel-desktop/src/window_state.rs:85-111 | What is assumed of the JSON form can be met: a plain text form of all geometries in multiples of 1/1024 reads back what it wrote, reads nothing in an empty file, and reads a text with something behind it as before or not at all |
| GeometrySaver.CaughtUp | crates/nigel-desktop/src/window_state.rs:325-332 | From any state in which the event thread rests, the writer's own steps end in a quiet state and change no observation |
| GeometrySaver.WriterCatchesUp | crates/nigel-desktop/src/window_state.rs:325-332 | And the file then holds the last observation, whatever failed before the writer's last save |
| GeometrySaver.FrameIsLatestNormal | crates/nigel-desktop/src/window_state.rs:300-308 | Whatever the run, the stored frame is the latest normal reading, or the loaded one; only the flag may differ |
| GeometrySaver.LastIsLatest | crates/nigel-desktop/src/window_state.rs:294-308 | Whatever the run, the observation it ends with is the latest normal reading, or the loaded one, maximized if and only if that one was or the window was seen maximized since |
| GeometrySaver.FlushRepairs | crates/nigel-desktop/src/window_state.rs:310-316 | A flush with the writer outside a save makes any file current, whatever happened before |
| GeometrySaver.FlushIsLastExactly | crates/nigel-desktop/src/window_state.rs:271-275 | In every reachable world, however the writer's steps fall before, between and after the flush's and wherever the program ends, the file reads back as the last observation if and only if, as the flush begins, no nudge waits and the writer is at rest, has nothing to write, or holds the file open for what reads the same |
| GeometrySaver.BlendExactly | crates/nigel-desktop/src/window_state.rs:85-111 | Of two geometries with usable scales, either written over the other reads the same if and only if they are equal |
| GeometrySaver.OverlayCovers | crates/nigel-desktop/src/window_state.rs:85-111 | A text written over a longer file leaves what the file was longer by |
| GeometrySaver.QuitLosesFile | crates/nigel-desktop/src/window_state.rs:310-332 | The failing run, from any file: one observation, nudged, taken by the writer and flushed, ends with the file empty |
| GeometrySaver.StaleSnapshotReachable | crates/nigel-desktop/src/window_state.rs:294-332 | The writer can hold an older observation than the last when the event thread rests |
| GeometrySaver.LateWriteWins | crates/nigel-desktop/src/window_state.rs:310-332 | A writer that had its snapshot before the flush and writes after it leaves the file current if and only if the snapshot still was |
| GeometrySaver.Saver.Spawn | crates/nigel-desktop/src/window_state.rs:283-292 | A saver starts quiet, with the invariant, knowing as last observation exactly what the file reads as |
| GeometrySaver.Saver.Observe | crates/nigel-desktop/src/window_state.rs:294-298 | The observation is set, then nudged: the call is those steps of the model |
| GeometrySaver.Saver.SeenMaximized | crates/nigel-desktop/src/window_state.rs:300-308 | A known frame is kept and marked maximized, an unknown one stays unknown, and the nudge is sent regardless |
| GeometrySaver.Saver.SaveNow | crates/nigel-desktop/src/window_state.rs:310-316 | Whatever fails, a flush is exactly the flush steps of the model: snapshot, open, write; when neither fails the file reads back as the last observation |
| GeometrySaver.Saver.WriteAfterSettle | crates/nigel-desktop/src/window_state.rs:325-332 | The nested loops take every nudge and make one save of the last observation, whose outcome is fixed by whether opening and writing fail; without a nudge they do nothing |
| Migrations.Connection.ApplyMigrations | crates/nigel-core/src/migrations.rs:760-784 | The loop with savepoint, step, stamp, release and rollback leaves stored the specified state, and returns the specified result, for every pattern of faults, a failing release or rollback included; a savepoint is left open only by those two |
| Migrations.Connection.Step | crates/nigel-core/src/migrations.rs:770-774 | A step and its stamp succeed together; what a failing one wrote is still there to be rolled back |
| Migrations.RunIsFold | crates/nigel-core/src/migrations.rs:760-784 | Every run leaves the fold, stamp included, of the migrations before the first failing one, and nothing of that one |
| Migrations.NewerStepsRun | crates/nigel-core/src/migrations.rs:760-784 | With steps that work, exactly the ones above the stamp are done, in order, and the last is stamped; no stamp means above 0 |
| Migrations.ResumeFrom | crates/nigel-core/src/migrations.rs:760-784 | After a cut-short run an undisturbed one ends in the state and result of a single undisturbed run; after a complete one nothing is above the stamp |
| Migrations.InterruptionsDoNotMatter | crates/nigel-core/src/migrations.rs:760-784 | The same after any number of cut-short runs |
| Migrations.FurtherRunDoesNothing | crates/nigel-core/src/migrations.rs:763 | After a successful run any further run is a successful no-op, even one in which every step would fail |
| Migrations.OrderMatters | crates/nigel-core/src/migrations.rs:762-763 | Without increasing versions a second run repeats a step: a counterexample |
| Signers.Documents.DemoteExtraSigners | crates/nigel-core/src/migrations.rs:550-561 | Row by row, in any order, each row tested against the table as it then is: the result is the simultaneous update, the count is the number of extra signers, and there is a notice if and only if there were any |
| Signers.Documents.FirstSigner | crates/nigel-core/src/migrations.rs:554-557 | The subquery finds the least signer of the version by position and id, none if and only if it has no signer |
| Signers.FirstIsLowest | crates/nigel-core/src/migrations.rs:554-557 | The first signer has the lowest position of its version and, among equals, the lowest id |
| Signers.KeptBefore | crates/nigel-core/src/migrations.rs:554-557 | Before every demoted signer stands one that is kept, so the first is never demoted |
| Signers.StillExtra | crates/nigel-core/src/migrations.rs:552-557 | Demoting some rows changes the test of no other row |
| Signers.FirstSignerRemains | crates/nigel-core/src/migrations.rs:547-549 | A version with signers keeps exactly its first; one without gets none |
| Signers.OnlyRolesChange | crates/nigel-core/src/migrations.rs:552-553 | Nothing but the role changes, and a row changes if and only if it was an extra signer |
| Signers.IndexBuildsExactly | crates/nigel-core/src/migrations.rs:499-500 | The one-signer index can be built if and only if there is nothing to demote |
| Signers.DemotedOnceForAll | crates/nigel-core/src/migrations.rs:492-503 | Afterwards the index can be built and a second run demotes nobody |
| Signers.DemotedCount | crates/nigel-core/src/migrations.rs:550-561 | The count is all signers less one for each version that has any |
| Restore.Disk.CopyTree | crates/nigel-core/src/backup.rs:165-181 | A copy succeeds if and only if none of the calls it makes fails, and is then the tree itself with its files counted |
| Restore.CountsFiles | crates/nigel-core/src/backup.rs:165-181 | What is counted is the files of the tree, each path once |
| Restore.Disk.CopyDocumentsOut | crates/nigel-core/src/backup.rs:77-100 | The result is fixed by which calls fail, the first of them deciding; success, which is certain if none does, replaces the backup folder by the live tree and returns its file count; each failure leaves the old backup, or the complete copy beside it |
| Restore.Disk.RestoreDocumentsIn | crates/nigel-core/src/backup.rs:102-163 | The result is fixed by which calls fail, the first of them deciding. A link is followed and survives, and a dangling one touches nothing. With no failing call and no dangling link the live tree is the backup's and all staging is gone. An error that says the folder was left as it was is true if and only if it is not the case that both the new folder would not go in and the old one would not go back; unless one of those renames or the last removal fails, every error leaves the live folder as it was |
| Restore.Disk.RestoreTwice | crates/nigel-core/src/backup.rs:137-163 | The old documents lost: after a restore whose second rename and its undoing both failed, one whose copy fails leaves them neither live nor under `.replaced`, and says they were left as they were; behind a link it touches nothing |
| Restore.Disk.BackUpThenRestore | crates/nigel-core/src/backup.rs:77-163 | Copied out, changed at will and restored, the tree is what it was, and both calls counted the same files; both succeed when no call fails and a link does not dangle |

## Left out

- Rounding, infinities and not-a-number of floating point; the text forms `inf` and `nan`, which `parse_amount` accepts, are not numbers here.
- Characters outside ASCII: byte against character width, Unicode white space and case.
- SQLite, the CSV, regex, calendar and PDF libraries themselves; encryption and SHA-256, for which a file simply has a checksum.
- Reading a format out of the account type or the file, saved CSV profiles, the generic and the checking parser: `ImportFile` takes the outcome of parsing as an input, which may be an error.
- Payroll import with its post-import step, which looks categories up by name without asking whether they are active.
- Columns that nothing proved here depends on: date range, sample and format of an import, creation times, classes and tax lines, institutions, reconciliation times.
- Renaming an account, editing a vendor, notes, the list and report queries, `test_pattern`, `slugify`, `format_bytes`: they would add only easy members.
- LedgerMachine.Ledger.ImportFile: when a statement fails, says that no old row has changed and not how many were added, because the caller's transaction takes them back; preparing a query and running it are one statement, so a failing account lookup may read as either error.
- Wrap.WrapHard: a type size of zero, by which it would divide.
- Horizontal placement of text, headers, rules between columns, the other report tables, logos: only the cursor, the pages and the widths are modelled.
- CardParser.ParseCardFormat: starts from the records the CSV reader yields; quoting is that reader's.
- GeometrySaver.QuietFileIsCurrent: what a write torn midway leaves is modelled as the emptied file; an observed frame is taken to be one the JSON form can write, as any of finite numbers is.
- Migrations.Connection.ApplyMigrations: a step does not write the version stamp itself, and a connection whose savepoint stayed open is not used again.
- Restore.Disk.RestoreDocumentsIn: file permissions, and a metadata call that fails for a path that exists, are not modelled; what a failing removal leaves is any part; entries keep the order in which they are listed.
- Restore.Disk.CopyDocumentsOut: whether the destination overlaps the live folder is an input.
- The other migrations' statements, and the documents tables beyond the recipients.
- Invoicing, schedules, the server, the web and terminal interfaces, the updater.
