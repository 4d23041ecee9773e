/**
 What each operation accepts and what it writes, column by column and with every
 value spelled out.
 */
module LedgerColumns {
  import opened Outcomes
  import opened Tables
  import opened LedgerSpec
  import opened TextOps
  import opened ImportLaws
  import opened LedgerRuns
  import CategorizeLaws
  import CategorizeLoop
  import ReconcileLaws

  // ----- row ids -----

  /** Rows stored one by one stand in order from the first free id on. */
  lemma {:induction false} InsertAllAt<V>(table: map<Id, V>, rows: seq<V>, i: nat)
    requires i < |rows|
    ensures var id := NextRowId(table.Keys) + i;
            id !in table && id in InsertAll(table, rows) && InsertAll(table, rows)[id] == rows[i]
  {
    var n := |rows| - 1;
    var before := InsertAll(table, rows[..n]);
    LastIdAfter(table, rows[..n]);
    if i < n {
      InsertAllAt(table, rows[..n], i);
    }
  }

  lemma {:induction false} LastIdAfter<V>(table: map<Id, V>, rows: seq<V>)
    ensures NextRowId(InsertAll(table, rows).Keys) == NextRowId(table.Keys) + |rows|
  {
    if rows != [] {
      var front := rows[..|rows| - 1];
      LastIdAfter(table, front);
      NextAfterInsert(InsertAll(table, front), rows[|rows| - 1]);
    }
  }

  lemma NextAfterInsert<V>(table: map<Id, V>, row: V)
    ensures NextRowId(Insert(table, row).Keys) == NextRowId(table.Keys) + 1
  {
    var grown, id := Insert(table, row), NextRowId(table.Keys);
    assert grown.Keys == table.Keys + {id};
    var next := NextRowId(grown.Keys);
    assert id in grown.Keys && next - 1 in grown.Keys;
  }

  // ----- import -----

  /** A row is a duplicate if the account has one of its date, amount and description. */
  lemma DuplicateColumns(txns: map<Id, Txn>, account: Id, row: ParsedRow)
    ensures IsDuplicateRow(txns, account, row)
       <==> exists id :: id in txns && txns[id].account == account && txns[id].date == row.date
              && txns[id].amount == row.amount && txns[id].description == row.description
  {
  }

  /** The dry run's count is the number of rows the table as it stands lacks. */
  lemma {:induction false} CountNewCounts(txns: map<Id, Txn>, account: Id, rows: seq<ParsedRow>)
    ensures CountNew(txns, account, rows) == |set i | 0 <= i < |rows| && !IsDuplicateRow(txns, account, rows[i])|
  {
    hide IsDuplicateRow;
    var unseen := set i | 0 <= i < |rows| && !IsDuplicateRow(txns, account, rows[i]);
    if rows != [] {
      var n := |rows| - 1;
      var front := rows[..n];
      CountNewCounts(txns, account, front);
      var before := set i | 0 <= i < |front| && !IsDuplicateRow(txns, account, front[i]);
      assert unseen == before + if IsDuplicateRow(txns, account, rows[n]) then {} else {n};
    } else {
      assert unseen == {};
    }
  }

  /** `imported` is the number of transactions the table gains. */
  lemma {:induction false} CountInsertedCounts(txns: map<Id, Txn>, account: Id, importId: Id, rows: seq<ParsedRow>)
    ensures |InsertRows(txns, account, importId, rows)| == |txns| + CountInserted(txns, account, importId, rows)
  {
    if rows != [] {
      var front, last := rows[..|rows| - 1], rows[|rows| - 1];
      CountInsertedCounts(txns, account, importId, front);
      var before := InsertRows(txns, account, importId, front);
      var grown := Insert(before, ImportedTxn(account, importId, last));
      assert grown.Keys == before.Keys + {NextRowId(before.Keys)};
    }
  }

  lemma ImportAccepted(db: Db, account: Id, accountName: string, file: Statement)
    requires AccountNamed(db.accounts, accountName) == Some(account)
    requires !ChecksumTaken(db.imports, file.checksum) && file.parse.Ok? && file.parse.value.rows != []
    ensures var (after, result) := ImportFile(db, accountName, file, false);
            var (parsed, id) := (file.parse.value, NextRowId(db.imports.Keys));
            && result.Ok?
            && result.value.importId == Some(id) && !result.value.duplicateFile
            && result.value.imported == |after.transactions| - |db.transactions|
            && result.value.imported + result.value.skipped == |parsed.rows|
            && result.value.malformed == |parsed.rejects|
            && after == db.(imports := db.imports[id := Import(file.filename, Some(account), |parsed.rows|,
                                                                file.checksum, |parsed.rejects|)],
                            rejects := after.rejects, transactions := after.transactions)
  {
    hide InsertRows, InsertAll, CountInserted;
    CountInsertedCounts(db.transactions, account, NextRowId(db.imports.Keys), file.parse.value.rows);
  }

  /** Each refused row is stored, in its order, with its number, its text and the reason. */
  lemma RejectColumns(db: Db, account: Id, filename: string, checksum: string, parsed: ParseOutcome, i: nat)
    requires i < |parsed.rejects|
    ensures var after := RecordImport(db, account, filename, checksum, parsed).0;
            var (id, refused) := (NextRowId(db.rejects.Keys) + i, parsed.rejects[i]);
            && id !in db.rejects && id in after.rejects
            && after.rejects[id]
                 == Reject(NextRowId(db.imports.Keys), refused.rowNumber, refused.content, refused.reason)
            && |after.rejects| == |db.rejects| + |parsed.rejects|
  {
    hide InsertRows, CountInserted, InsertAll;
    var rows := RejectRows(NextRowId(db.imports.Keys), parsed.rejects);
    InsertAllAt(db.rejects, rows, i);
    InsertAllExtends(db.rejects, rows);
  }

  /** What becomes of any other file, and in which order it is asked. */
  lemma ImportRefused(db: Db, accountName: string, file: Statement, dryRun: bool)
    ensures var (after, result) := ImportFile(db, accountName, file, dryRun);
            if forall id | id in db.accounts :: db.accounts[id].name != accountName
            then after == db && result == Err(UnknownAccount)
            else if exists id :: id in db.imports && db.imports[id].checksum == file.checksum
            then after == db && result == Ok(ImportResult(0, 0, 0, true, None))
            else if file.parse.Err? then after == db && result == Err(file.parse.error)
            else var parsed := file.parse.value;
                 if dryRun
                 then && after == db && result.Ok? && !result.value.duplicateFile && result.value.importId.None?
                      && result.value.imported + result.value.skipped == |parsed.rows|
                      && result.value.malformed == |parsed.rejects|
                 else if parsed.rows == [] then after == db && result == Err(EmptyImport(|parsed.rejects|))
                 else result.Ok? && !result.value.duplicateFile
  {
    hide InsertRows, InsertAll, CountInserted, CountNew;
    if forall id | id in db.accounts :: db.accounts[id].name != accountName {
      assert AccountNamed(db.accounts, accountName).None?;
    }
  }

  /** Undo keeps every other import's rows as they are and counts the ones it drops. */
  lemma DeleteImportColumns(db: Db, importId: Id)
    ensures var after := DeleteImport(db, importId);
            && after == db.(transactions := after.transactions, imports := after.imports, rejects := after.rejects)
            && (forall t :: t in after.transactions
                  <==> t in db.transactions && db.transactions[t].importId != Some(importId))
            && (forall t | t in after.transactions :: after.transactions[t] == db.transactions[t])
            && (forall r :: r in after.rejects <==> r in db.rejects && db.rejects[r].importId != importId)
            && (forall r | r in after.rejects :: after.rejects[r] == db.rejects[r])
            && after.imports == db.imports - {importId}
  {
  }

  lemma DeleteImportCounts(db: Db, importId: Id)
    ensures |TxnsFrom(db, importId)| == |db.transactions| - |DeleteImport(db, importId).transactions|
  {
    var kept := DeleteImport(db, importId).transactions;
    assert db.transactions.Keys == kept.Keys + TxnsFrom(db, importId);
    assert kept.Keys !! TxnsFrom(db, importId);
    assert |db.transactions.Keys| == |kept.Keys| + |TxnsFrom(db, importId)|;
  }

  /** Importing and categorizing: a refused file changes nothing and one imported before
      categorizes nothing; otherwise what was pending is counted as categorized or, if it
      still is, as flagged. */
  lemma ImportAndCategorizeCounts(e: Engine, db: Db, accountName: string, file: Statement, order: seq<Id>)
    ensures var (imported, first) := ImportFile(db, accountName, file, false);
            var (after, result) := LedgerSpec.ImportAndCategorize(e, db, accountName, file, order);
            && (first.Err? ==> after == db && result == Err(first.error))
            && (first.Ok? && first.value.duplicateFile ==>
                  after == db && result == Ok(ImportOutcome(first.value, 0, 0)))
            && (first.Ok? && !first.value.duplicateFile ==>
                  && after == Categorize(e, imported, order)
                  && result.Ok? && result.value.result == first.value
                  && result.value.stillFlagged == |Uncategorized(after.transactions)|
                  && result.value.categorized + result.value.stillFlagged == |Uncategorized(imported.transactions)|)
  {
    hide ImportFile, Winner, Categorize;
    var (imported, first) := ImportFile(db, accountName, file, false);
    CategorizeLaws.LeftoverIsUncategorized(e, imported, order);
    CategorizeLoop.SizeOfRest(Uncategorized(imported.transactions), StillUncategorized(e, imported, order));
    if first.Ok? && first.value.duplicateFile {
      DuplicateChangesNothing(db, accountName, file);
    }
  }

  lemma DuplicateChangesNothing(db: Db, accountName: string, file: Statement)
    ensures var (after, result) := ImportFile(db, accountName, file, false);
            result.Ok? && result.value.duplicateFile ==> after == db
  {
  }

  // ----- review and edits -----

  /** A review is refused exactly when it would write a category that names no row;
      accepted, it sets four columns of one transaction and stores at most one rule. */
  lemma ReviewColumns(db: Db, txn: Id, category: Id, vendor: Option<string>, createRule: bool,
                      pattern: Option<string>)
    ensures var (after, result) := ApplyReview(db, txn, category, vendor, createRule, pattern);
            var makesRule := createRule && pattern.Some?;
            && (result.Ok? <==> category in db.categories || (txn !in db.transactions && !makesRule))
            && (result.Err? ==> result == Err(Database) && after == db)
            && (result.Ok? ==>
                  && after == db.(transactions := after.transactions, rules := after.rules)
                  && after.transactions.Keys == db.transactions.Keys
                  && (forall t | t in db.transactions && t != txn :: after.transactions[t] == db.transactions[t])
                  && (txn in db.transactions ==>
                        after.transactions[txn]
                          == db.transactions[txn].(category := Some(category), vendor := vendor, flagged := false,
                                                   flagReason := None))
                  && (!makesRule ==> result == Ok(None) && after.rules == db.rules)
                  && (makesRule ==>
                        && result.value.Some? && result.value.value !in db.rules
                        && after.rules == db.rules[result.value.value :=
                             Rule(pattern.value, "contains", vendor, category, 0, 0, true)]))
  {
  }

  /** An undo empties the columns a review sets, flags the row and takes its rule away. */
  lemma UndoColumns(db: Db, txn: Id, rule: Option<Id>)
    ensures var after := UndoReview(db, txn, rule);
            && after == db.(transactions := after.transactions, rules := after.rules)
            && after.transactions.Keys == db.transactions.Keys
            && (forall t | t in db.transactions && t != txn :: after.transactions[t] == db.transactions[t])
            && (txn in db.transactions ==>
                  after.transactions[txn]
                    == db.transactions[txn].(category := None, vendor := None, flagged := true,
                                             flagReason := Some("Uncategorized")))
            && after.rules == if rule.Some? then db.rules - {rule.value} else db.rules
  {
  }

  /** The bulk move: category, flag and reason of the listed rows; vendors stay. */
  lemma RecategorizeColumns(db: Db, ids: seq<Id>, category: Id)
    ensures var (after, result) := Recategorize(db, ids, category);
            && (result.Ok? <==>
                  category in db.categories || forall i | 0 <= i < |ids| :: ids[i] !in db.transactions)
            && (result.Err? ==> result == Err(Database) && after == db)
            && (result.Ok? ==>
                  && after == db.(transactions := after.transactions)
                  && after.transactions.Keys == db.transactions.Keys
                  && (forall t | t in db.transactions ::
                        after.transactions[t]
                          == if t in ids
                             then db.transactions[t].(category := Some(category), flagged := false, flagReason := None)
                             else db.transactions[t])
                  && result.value == |set i | 0 <= i < |ids| && ids[i] in db.transactions|)
  {
    CountPresentCounts(db.transactions.Keys, ids);
    var listed := set i | 0 <= i < |ids| && ids[i] in db.transactions;
    assert listed == set i | 0 <= i < |ids| && ids[i] in db.transactions.Keys;
  }

  lemma {:induction false} CountPresentCounts(present: set<Id>, ids: seq<Id>)
    ensures CountPresent(present, ids) == |set i | 0 <= i < |ids| && ids[i] in present|
  {
    var listed := set i | 0 <= i < |ids| && ids[i] in present;
    if ids != [] {
      var n := |ids| - 1;
      CountPresentCounts(present, ids[..n]);
      var before := set i | 0 <= i < n && ids[..n][i] in present;
      assert listed == before + if ids[n] in present then {n} else {};
    } else {
      assert listed == {};
    }
  }

  /** What the callers check first: a rule's pattern, the transaction, and a category in use. */
  lemma CheckedReviewRefuses(db: Db, txn: Id, category: Id, vendor: Option<string>, createRule: bool,
                             pattern: Option<string>)
    ensures var (after, result) := CheckedReview(db, txn, category, vendor, createRule, pattern);
            if createRule && (pattern.None? || Trim(pattern.value) == "") then result == Err(Invalid) && after == db
            else if txn !in db.transactions || category !in db.categories || !db.categories[category].active
            then result == Err(NotFound) && after == db
            else result.Ok? && (after, result) == ApplyReview(db, txn, category, vendor, createRule, pattern)
  {
    TrimKeeps("");
  }

  lemma CheckedEdits(db: Db, txn: Id, rule: Option<Id>, ids: seq<Id>, category: Id)
    ensures var live := category in db.categories && db.categories[category].active;
            && CheckedRecategorize(db, ids, category)
                 == (if live then Recategorize(db, ids, category) else (db, Err(NotFound)))
            && CheckedEdit(db, txn, category)
                 == (if txn in db.transactions && live
                     then (db.(transactions :=
                             db.transactions[txn := db.transactions[txn].(category := Some(category))]), Ok(()))
                     else (db, Err(NotFound)))
            && CheckedUndo(db, txn, rule)
                 == if txn in db.transactions then (UndoReview(db, txn, rule), Ok(())) else (db, Err(NotFound))
  {
  }

  lemma SetFlagColumns(db: Db, txn: Id, flagged: bool)
    ensures var (after, result) := SetFlag(db, txn, flagged);
            if txn in db.transactions
            then && result == Ok(())
                 && after == db.(transactions := db.transactions[txn := db.transactions[txn].(flagged := flagged)])
            else result == Err(NotFound) && after == db
  {
  }

  // ----- rules -----

  /** The three ways of matching, and when a pattern can be matched that way. */
  lemma MatchTypes(e: Engine, matchType: string, pattern: string)
    ensures ValidMatchType(e, matchType, pattern)
       <==> matchType == "contains" || matchType == "starts_with" || (matchType == "regex" && e.compiles(pattern))
  {
  }

  lemma AddRuleColumns(e: Engine, db: Db, pattern: string, matchType: string, vendor: Option<string>,
                       category: Id, priority: int)
    ensures var (after, result) := AddRule(e, db, pattern, matchType, vendor, category, priority);
            if Trim(pattern) == "" || !ValidMatchType(e, matchType, pattern) then result == Err(Invalid) && after == db
            else if category !in db.categories || !db.categories[category].active
            then result == Err(NotFound) && after == db
            else && result.Ok? && result.value !in db.rules
                 && after == db.(rules :=
                      db.rules[result.value := Rule(pattern, matchType, vendor, category, priority, 0, true)])
  {
  }

  /** An edit is accepted exactly when the rule is there and active, something is
      given, what is given can be matched, and the category given is in use. */
  lemma UpdateRuleAccepted(e: Engine, db: Db, id: Id, update: RuleUpdate)
    ensures UpdateRule(e, db, id, update).1.Ok?
       <==> && id in db.rules && db.rules[id].active && db.rules[id].category in db.categories
            && (update.pattern.Some? || update.matchType.Some? || update.vendor.Some? || update.category.Some?
                || update.priority.Some?)
            && (update.pattern.Some? || update.matchType.Some? ==>
                  ValidMatchType(e, if update.matchType.Some? then update.matchType.value else db.rules[id].matchType,
                                 if update.pattern.Some? then update.pattern.value else db.rules[id].pattern))
            && (update.category.Some? ==>
                  update.category.value in db.categories && db.categories[update.category.value].active)
  {
  }

  lemma UpdateRuleColumns(e: Engine, db: Db, id: Id, update: RuleUpdate)
    requires UpdateRule(e, db, id, update).1.Ok?
    ensures var after := UpdateRule(e, db, id, update).0;
            && id in after.rules && after == db.(rules := db.rules[id := after.rules[id]])
            && var (now, was) := (after.rules[id], db.rules[id]);
               && now.pattern == (if update.pattern.Some? then update.pattern.value else was.pattern)
               && now.matchType == (if update.matchType.Some? then update.matchType.value else was.matchType)
               && now.vendor == (if update.vendor.Some? then update.vendor.value else was.vendor)
               && now.category == (if update.category.Some? then update.category.value else was.category)
               && now.priority == (if update.priority.Some? then update.priority.value else was.priority)
               && now.hits == was.hits && now.active
  {
  }

  lemma UpdateRuleRefused(e: Engine, db: Db, id: Id, update: RuleUpdate)
    requires UpdateRule(e, db, id, update).1.Err?
    ensures UpdateRule(e, db, id, update).0 == db
    ensures UpdateRule(e, db, id, update).1 == Err(AlreadyInactive)
       <==> id in db.rules && db.rules[id].category in db.categories && !db.rules[id].active
    ensures id !in db.rules ==> UpdateRule(e, db, id, update).1 == Err(NotFound)
  {
  }

  lemma DeactivateRuleColumns(db: Db, id: Id)
    ensures var (after, result) := DeactivateRule(db, id);
            if id !in db.rules then result == Err(NotFound) && after == db
            else if !db.rules[id].active then result == Err(AlreadyInactive) && after == db
            else result == Ok(()) && after == db.(rules := db.rules[id := db.rules[id].(active := false)])
  {
  }

  // ----- categories and accounts -----

  predicate InUse(db: Db, name: string, besides: Option<Id>) {
    exists c :: c in db.categories && db.categories[c].active && db.categories[c].name == name && besides != Some(c)
  }

  lemma AddCategoryColumns(db: Db, name: string, kind: string)
    ensures var (after, result) := AddCategory(db, name, kind);
            if Trim(name) == "" || kind !in ["income", "expense"] then result == Err(Invalid) && after == db
            else if InUse(db, name, None) then result == Err(DuplicateName) && after == db
            else && result.Ok? && result.value !in db.categories
                 && after == db.(categories := db.categories[result.value := Category(name, kind, true)])
  {
  }

  lemma UpdateCategoryColumns(db: Db, id: Id, name: string, kind: string)
    ensures var (after, result) := UpdateCategory(db, id, name, kind);
            if Trim(name) == "" || kind !in ["income", "expense"] then result == Err(Invalid) && after == db
            else if InUse(db, name, Some(id)) then result == Err(DuplicateName) && after == db
            else if id !in db.categories || !db.categories[id].active then result == Err(NotFound) && after == db
            else && result == Ok(())
                 && after == db.(categories := db.categories[id := Category(name, kind, true)])
  {
  }

  /** Transactions block before rules, retired rules do not, and each blocker says how many. */
  lemma DeleteCategoryColumns(db: Db, id: Id)
    ensures var (after, result) := DeleteCategory(db, id);
            var txns := |set t | t in db.transactions && db.transactions[t].category == Some(id)|;
            var rules := |set r | r in db.rules && db.rules[r].category == id && db.rules[r].active|;
            if txns > 0 then result == Err(Blocked(ByTransactions, txns)) && after == db
            else if rules > 0 then result == Err(Blocked(ByActiveRules, rules)) && after == db
            else if id !in db.categories || !db.categories[id].active then result == Err(NotFound) && after == db
            else && result == Ok(())
                 && after == db.(categories := db.categories[id := db.categories[id].(active := false)])
  {
  }

  lemma AddAccountColumns(db: Db, name: string, kind: string)
    ensures var (after, result) := AddAccount(db, name, kind);
            if Trim(name) == "" || kind !in ["checking", "credit_card", "line_of_credit", "payroll"]
            then result == Err(Invalid) && after == db
            else if exists a :: a in db.accounts && db.accounts[a].name == name
            then result == Err(DuplicateName) && after == db
            else && result.Ok? && result.value !in db.accounts
                 && after == db.(accounts := db.accounts[result.value := Account(name, kind)])
  {
  }

  /** The account and its reconciliations go, its imports stay and point nowhere, and
      nothing of any other account is touched. */
  lemma DeleteAccountColumns(db: Db, id: Id)
    ensures var (after, result) := DeleteAccount(db, id);
            var txns := |set t | t in db.transactions && db.transactions[t].account == id|;
            if txns > 0 then result == Err(Blocked(ByTransactions, txns)) && after == db
            else if id !in db.accounts then result == Err(NotFound) && after == db
            else && result == Ok(())
                 && after == db.(accounts := db.accounts - {id}, imports := after.imports,
                                 reconciliations := after.reconciliations)
                 && (forall r :: r in after.reconciliations
                       <==> r in db.reconciliations && db.reconciliations[r].account != id)
                 && (forall r | r in after.reconciliations :: after.reconciliations[r] == db.reconciliations[r])
                 && after.imports.Keys == db.imports.Keys
                 && (forall i | i in db.imports ::
                       after.imports[i]
                         == if db.imports[i].account == Some(id) then db.imports[i].(account := None)
                            else db.imports[i])
  {
  }

  // ----- reconciliation -----

  /** What is stored and reported: the balance, its distance from the statement, and
      whether that is less than a cent. */
  lemma ReconcileColumns(db: Db, accountName: string, month: string, statement: int)
    requires Reconcile(db, accountName, month, statement).1.Ok?
    ensures AccountNamed(db.accounts, accountName).Some?
    ensures var account := AccountNamed(db.accounts, accountName).value;
            var (after, result) := Reconcile(db, accountName, month, statement);
            var balance := SumOf(db.transactions, UpToMonth(db, account, month));
            var apart := if statement < balance then balance - statement else statement - balance;
            && result.value == ReconcileResult(balance == statement, statement, balance, apart)
            && after == db.(reconciliations := after.reconciliations)
            && var id := NextRowId(db.reconciliations.Keys);
               && id !in db.reconciliations
               && after.reconciliations
                    == db.reconciliations[id := Reconciliation(account, month, statement, balance,
                                                               balance == statement)]
  {
    hide SumOf, UpToMonth, InMonth;
  }

  lemma SumOfOne(txns: map<Id, Txn>, id: Id)
    requires id in txns
    ensures SumOf(txns, {id}) == txns[id].amount && SumOf(txns, {}) == 0
  {
    ReconcileLaws.SumOfRemove(txns, {id}, id);
    assert {id} - {id} == {};
  }

  /** The balance adds the amounts up: it is additive, and of one transaction it is its amount. */
  lemma SumOfAdds(txns: map<Id, Txn>, a: set<Id>, b: set<Id>, id: Id)
    requires a <= txns.Keys && b <= txns.Keys && a !! b && id in txns
    ensures SumOf(txns, a + b) == SumOf(txns, a) + SumOf(txns, b)
    ensures SumOf(txns, {id}) == txns[id].amount && SumOf(txns, {}) == 0
  {
    ReconcileLaws.SumOfUnion(txns, a, b);
    SumOfOne(txns, id);
  }
}
