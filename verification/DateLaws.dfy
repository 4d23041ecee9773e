/** Stored dates over whole runs: what the balance theorems ask of a ledger. */
module DateLaws {
  import opened Outcomes
  import opened Tables
  import opened LedgerSpec
  import opened LedgerRuns
  import opened ImportLaws
  import opened ReconcileLaws
  import opened Dates
  import opened TextOps

  predicate RowsIso(rows: seq<ParsedRow>) {
    forall i | 0 <= i < |rows| :: IsIso(rows[i].date)
  }

  /** What an import brings in is dated in the sortable form. */
  predicate BringsIso(op: Op) {
    op.OpImport? && op.file.parse.Ok? ==> RowsIso(op.file.parse.value.rows)
  }

  /** The rows left are old ones, refiled perhaps but not redated. */
  predicate SameDates(before: map<Id, Txn>, after: map<Id, Txn>) {
    forall id | id in after :: id in before && after[id].date == before[id].date
  }

  lemma InsertKeepsDates(txns: map<Id, Txn>, account: Id, importId: Id, rows: seq<ParsedRow>)
    requires DatesIso(txns) && RowsIso(rows)
    ensures DatesIso(InsertRows(txns, account, importId, rows))
  {
    hide InsertRows, IsIso;
    InsertRowsExtends(txns, account, importId, rows);
    var grown := InsertRows(txns, account, importId, rows);
    forall id | id in grown
      ensures IsIso(grown[id].date)
    {
      if id !in txns {
        var i :| 0 <= i < |rows| && grown[id] == ImportedTxn(account, importId, rows[i]);
      }
    }
  }

  lemma CategorizeKeepsDates(e: Engine, db: Db, order: seq<Id>, filed: set<Id>, hit: set<Id>)
    ensures SameDates(db.transactions, Categorize(e, db, order).transactions)
    ensures SameDates(db.transactions, CutShort(e, db, order, filed, hit).transactions)
  {
    hide Winner, PartlyHit, WonBy;
  }

  lemma ImportKeepsDates(e: Engine, db: Db, accountName: string, file: Statement, order: seq<Id>)
    requires DatesIso(db.transactions) && (file.parse.Ok? ==> RowsIso(file.parse.value.rows))
    ensures DatesIso(ImportAndCategorize(e, db, accountName, file, order).0.transactions)
  {
    hide InsertRows, InsertAll, CountInserted, CountNew, Categorize, CutShort, StillUncategorized, IsIso, RowsIso;
    var (mid, result) := ImportFile(db, accountName, file, false);
    if result.Ok? && !result.value.duplicateFile {
      InsertKeepsDates(db.transactions, AccountNamed(db.accounts, accountName).value, NextRowId(db.imports.Keys),
                       file.parse.value.rows);
      CategorizeKeepsDates(e, mid, order, {}, {});
    }
  }

  lemma Unmoved(txns: map<Id, Txn>)
    ensures SameDates(txns, txns)
  {
  }

  lemma OneRefiled(txns: map<Id, Txn>, txn: Id, t: Txn)
    requires txn in txns && t.date == txns[txn].date
    ensures SameDates(txns, txns[txn := t])
  {
  }

  lemma DeleteKeepsDates(db: Db, id: Id)
    ensures SameDates(db.transactions, DeleteImport(db, id).transactions)
  {
  }

  lemma ReviewKeepsDates(db: Db, txn: Id, category: Id, vendor: Option<string>, createRule: bool,
                         pattern: Option<string>)
    ensures SameDates(db.transactions, CheckedReview(db, txn, category, vendor, createRule, pattern).0.transactions)
  {
    hide Trim, Live, Insert, SameDates;
    Unmoved(db.transactions);
    if txn in db.transactions {
      OneRefiled(db.transactions, txn, Filed(db.transactions[txn], category, vendor));
    }
  }

  lemma UndoKeepsDates(db: Db, txn: Id, rule: Option<Id>)
    ensures SameDates(db.transactions, CheckedUndo(db, txn, rule).0.transactions)
  {
    hide SameDates;
    Unmoved(db.transactions);
    if txn in db.transactions {
      OneRefiled(db.transactions, txn, Reopened(db.transactions[txn]));
    }
  }

  lemma EditKeepsDates(db: Db, txn: Id, category: Id, flagged: bool)
    ensures SameDates(db.transactions, CheckedEdit(db, txn, category).0.transactions)
    ensures SameDates(db.transactions, SetFlag(db, txn, flagged).0.transactions)
  {
    hide SameDates, Live;
    Unmoved(db.transactions);
    if txn in db.transactions {
      OneRefiled(db.transactions, txn, db.transactions[txn].(category := Some(category)));
      OneRefiled(db.transactions, txn, db.transactions[txn].(flagged := flagged));
    }
  }

  lemma MovedKeepsDates(txns: map<Id, Txn>, ids: seq<Id>, category: Id)
    ensures SameDates(txns, Moved(txns, ids, category))
  {
  }

  lemma MoveKeepsDates(db: Db, ids: seq<Id>, category: Id)
    ensures SameDates(db.transactions, CheckedRecategorize(db, ids, category).0.transactions)
  {
    hide SameDates, Live, CountPresent, Moved;
    Unmoved(db.transactions);
    MovedKeepsDates(db.transactions, ids, category);
  }

  lemma OthersKeepDates(e: Engine, db: Db, op: Op)
    requires !op.OpImport? && !EditsTables(op)
    ensures SameDates(db.transactions, Apply(e, db, op).transactions)
  {
    hide Categorize, CutShort, IsRuleOrder, DeleteImport, SameDates;
    hide CheckedReview, CheckedUndo, CheckedRecategorize, CheckedEdit, SetFlag;
    Unmoved(db.transactions);
    match op
    case OpCategorize(order) => CategorizeKeepsDates(e, db, order, {}, {});
    case OpCategorizeFails(order, filed, hit) => CategorizeKeepsDates(e, db, order, filed, hit);
    case OpDeleteImport(id) => DeleteKeepsDates(db, id);
    case OpReview(txn, category, vendor, createRule, pattern) =>
      ReviewKeepsDates(db, txn, category, vendor, createRule, pattern);
    case OpUndoReview(txn, rule) => UndoKeepsDates(db, txn, rule);
    case OpRecategorize(ids, category) => MoveKeepsDates(db, ids, category);
    case OpEdit(txn, category) => EditKeepsDates(db, txn, category, true);
    case OpSetFlag(txn, flagged) => EditKeepsDates(db, txn, 0, flagged);
  }

  lemma StepKeepsDates(e: Engine, db: Db, op: Op)
    requires DatesIso(db.transactions) && BringsIso(op)
    ensures DatesIso(Apply(e, db, op).transactions)
  {
    hide IsIso, ImportAndCategorize, IsRuleOrder;
    if op.OpImport? {
      ImportKeepsDates(e, db, op.accountName, op.file, op.order);
    } else if EditsTables(op) {
      TablesOpsKeepTxns(e, db, op);
    } else {
      OthersKeepDates(e, db, op);
    }
  }

  /** Whatever is done to a ledger, if every imported row is dated in the sortable
      form then every transaction is, and the balance theorems apply. */
  lemma {:induction false} RunKeepsDates(e: Engine, db: Db, ops: seq<Op>)
    requires DatesIso(db.transactions) && forall i | 0 <= i < |ops| :: BringsIso(ops[i])
    ensures DatesIso(Run(e, db, ops).transactions)
  {
    hide DatesIso, BringsIso, Apply;
    if ops != [] {
      var front := ops[..|ops| - 1];
      assert forall i | 0 <= i < |front| :: front[i] == ops[i];
      RunKeepsDates(e, db, front);
      StepKeepsDates(e, Run(e, db, front), ops[|ops| - 1]);
    }
  }
}
