/**
 Whole runs of the ledger: the operations a caller can issue, in any order and
 number, and what survives all of them. A caller's category ids pass through
 `ensure_category_exists` (or come from a list of the active categories), which
 is what the `Checked` operations do.
 */
module LedgerRuns {
  import opened Outcomes
  import opened Tables
  import opened LedgerSpec
  import opened Invariants
  import opened ImportLaws
  import opened TextOps

  // ----- callers' operations over the data layer -----

  function CheckedReview(db: Db, txn: Id, category: Id, vendor: Option<string>, createRule: bool,
                         pattern: Option<string>): (Db, Result<Option<Id>, LedgerError>)
  {
    if createRule && Trim(OrElse(pattern, "")) == "" then (db, Err(Invalid))
    else if txn !in db.transactions || !Live(db.categories, category) then (db, Err(NotFound))
    else ApplyReview(db, txn, category, vendor, createRule, pattern)
  }

  function CheckedUndo(db: Db, txn: Id, rule: Option<Id>): (Db, Result<(), LedgerError>) {
    if txn !in db.transactions then (db, Err(NotFound)) else (UndoReview(db, txn, rule), Ok(()))
  }

  function CheckedRecategorize(db: Db, ids: seq<Id>, category: Id): (Db, Result<nat, LedgerError>) {
    if !Live(db.categories, category) then (db, Err(NotFound)) else Recategorize(db, ids, category)
  }

  /** A register edit moves a transaction's category and leaves its flag alone. */
  function CheckedEdit(db: Db, txn: Id, category: Id): (Db, Result<(), LedgerError>) {
    if txn !in db.transactions || !Live(db.categories, category) then (db, Err(NotFound))
    else (db.(transactions := db.transactions[txn := db.transactions[txn].(category := Some(category))]), Ok(()))
  }

  // ----- operations and runs -----

  datatype Op =
    | OpAddAccount(name: string, kind: string)
    | OpDeleteAccount(id: Id)
    | OpAddCategory(name: string, kind: string)
    | OpUpdateCategory(id: Id, name: string, kind: string)
    | OpDeleteCategory(id: Id)
    | OpAddRule(pattern: string, matchType: string, vendor: Option<string>, category: Id, priority: int)
    | OpUpdateRule(id: Id, update: RuleUpdate)
    | OpDeactivateRule(id: Id)
    | OpImport(accountName: string, file: Statement, order: seq<Id>)
    | OpDeleteImport(id: Id)
    | OpCategorize(order: seq<Id>)
    | OpCategorizeFails(order: seq<Id>, filed: set<Id>, hit: set<Id>)
    | OpReview(txn: Id, category: Id, vendor: Option<string>, createRule: bool, rulePattern: Option<string>)
    | OpUndoReview(txn: Id, rule: Option<Id>)
    | OpRecategorize(ids: seq<Id>, category: Id)
    | OpEdit(txn: Id, category: Id)
    | OpSetFlag(txn: Id, flagged: bool)
    | OpReconcile(accountName: string, month: string, statement: int)

  /** `order` stands for what SQLite answers to the rules query; one it could not
      answer leaves the ledger alone. So does an operation that fails, since each is
      one transaction or one statement; only the categorizer run by itself is not,
      and can leave any part of its work. */
  function Apply(e: Engine, db: Db, op: Op): Db {
    match op
    case OpAddAccount(name, kind) => AddAccount(db, name, kind).0
    case OpDeleteAccount(id) => DeleteAccount(db, id).0
    case OpAddCategory(name, kind) => AddCategory(db, name, kind).0
    case OpUpdateCategory(id, name, kind) => UpdateCategory(db, id, name, kind).0
    case OpDeleteCategory(id) => DeleteCategory(db, id).0
    case OpAddRule(pattern, matchType, vendor, category, priority) =>
      AddRule(e, db, pattern, matchType, vendor, category, priority).0
    case OpUpdateRule(id, update) => UpdateRule(e, db, id, update).0
    case OpDeactivateRule(id) => DeactivateRule(db, id).0
    case OpImport(accountName, file, order) =>
      if IsRuleOrder(db.rules, order) then ImportAndCategorize(e, db, accountName, file, order).0 else db
    case OpDeleteImport(id) => DeleteImport(db, id)
    case OpCategorize(order) => if IsRuleOrder(db.rules, order) then Categorize(e, db, order) else db
    case OpCategorizeFails(order, filed, hit) =>
      if IsRuleOrder(db.rules, order) then CutShort(e, db, order, filed, hit) else db
    case OpReview(txn, category, vendor, createRule, pattern) =>
      CheckedReview(db, txn, category, vendor, createRule, pattern).0
    case OpUndoReview(txn, rule) => CheckedUndo(db, txn, rule).0
    case OpRecategorize(ids, category) => CheckedRecategorize(db, ids, category).0
    case OpEdit(txn, category) => CheckedEdit(db, txn, category).0
    case OpSetFlag(txn, flagged) => SetFlag(db, txn, flagged).0
    case OpReconcile(accountName, month, statement) => Reconcile(db, accountName, month, statement).0
  }

  function Run(e: Engine, db: Db, ops: seq<Op>): Db {
    if ops == [] then db else Apply(e, Run(e, db, ops[..|ops| - 1]), ops[|ops| - 1])
  }

  // ----- steps that only refile transactions or edit rules -----

  /** The same rows under the same keys; no category gained is retired. */
  predicate TxnsRefiled(db: Db, txns: map<Id, Txn>) {
    && txns.Keys == db.transactions.Keys
    && forall id | id in db.transactions ::
         && KeyOf(txns[id]) == KeyOf(db.transactions[id])
         && txns[id].importId == db.transactions[id].importId
         && (txns[id].category.Some? ==>
               txns[id].category == db.transactions[id].category || Live(db.categories, txns[id].category.value))
  }

  /** No rule comes to life, or moves, onto a retired category. */
  predicate RulesKept(db: Db, rules: map<Id, Rule>) {
    forall r | r in rules ::
      || Live(db.categories, rules[r].category)
      || (r in db.rules && rules[r].category == db.rules[r].category && (rules[r].active ==> db.rules[r].active))
  }

  lemma RefilingKeepsSound(db: Db, after: Db)
    requires Sound(db)
    requires after == db.(transactions := after.transactions, rules := after.rules)
    requires TxnsRefiled(db, after.transactions) && RulesKept(db, after.rules)
    ensures Sound(after)
  {
    assert TxnRefsLive(after);
    assert RuleRefsLive(after);
    assert KeysUnique(after.transactions);
  }

  lemma UpdateOneRefiles(db: Db, txn: Id, t: Txn)
    requires txn in db.transactions && KeyOf(t) == KeyOf(db.transactions[txn])
    requires t.importId == db.transactions[txn].importId
    requires t.category == None || t.category == db.transactions[txn].category || Live(db.categories, t.category.value)
    ensures TxnsRefiled(db, db.transactions[txn := t])
  {
  }

  lemma CategorizeKeepsSound(e: Engine, db: Db, order: seq<Id>)
    requires Sound(db) && IsRuleOrder(db.rules, order)
    ensures Sound(Categorize(e, db, order))
  {
    var after := Categorize(e, db, order);
    forall id | id in db.transactions
      ensures KeyOf(after.transactions[id]) == KeyOf(db.transactions[id])
      ensures after.transactions[id].importId == db.transactions[id].importId
      ensures after.transactions[id].category.Some? ==>
                || after.transactions[id].category == db.transactions[id].category
                || Live(db.categories, after.transactions[id].category.value)
    {
      var winner := Winner(e, db.rules, order, db.transactions[id]);
      if winner.Some? {
        var i :| 0 <= i < |order| && order[i] == winner.value;
        assert db.rules[order[i]].active;
      }
    }
    RefilingKeepsSound(db, after);
  }

  lemma CutShortKeepsSound(e: Engine, db: Db, order: seq<Id>, filed: set<Id>, hit: set<Id>)
    requires Sound(db) && IsRuleOrder(db.rules, order)
    ensures Sound(CutShort(e, db, order, filed, hit))
  {
    hide WonAmong;
    var after := CutShort(e, db, order, filed, hit);
    forall id | id in db.transactions
      ensures KeyOf(after.transactions[id]) == KeyOf(db.transactions[id])
      ensures after.transactions[id].importId == db.transactions[id].importId
      ensures after.transactions[id].category.Some? ==>
                || after.transactions[id].category == db.transactions[id].category
                || Live(db.categories, after.transactions[id].category.value)
    {
      var winner := Winner(e, db.rules, order, db.transactions[id]);
      if winner.Some? {
        var i :| 0 <= i < |order| && order[i] == winner.value;
        assert db.rules[order[i]].active;
      }
    }
    RefilingKeepsSound(db, after);
  }

  lemma ReviewRefiles(db: Db, txn: Id, category: Id, vendor: Option<string>, createRule: bool, pattern: Option<string>)
    requires txn in db.transactions && Live(db.categories, category)
    ensures var after := ApplyReview(db, txn, category, vendor, createRule, pattern).0;
            && after == db.(transactions := after.transactions, rules := after.rules)
            && TxnsRefiled(db, after.transactions) && RulesKept(db, after.rules)
  {
    UpdateOneRefiles(db, txn, Filed(db.transactions[txn], category, vendor));
  }

  lemma ReviewKeepsSound(db: Db, txn: Id, category: Id, vendor: Option<string>, createRule: bool,
                         pattern: Option<string>)
    requires Sound(db)
    ensures Sound(CheckedReview(db, txn, category, vendor, createRule, pattern).0)
  {
    hide Sound, ApplyReview, TxnsRefiled, RulesKept;
    if txn in db.transactions && Live(db.categories, category) {
      ReviewRefiles(db, txn, category, vendor, createRule, pattern);
      RefilingKeepsSound(db, ApplyReview(db, txn, category, vendor, createRule, pattern).0);
    }
  }

  /** Unchecked, but with a live category, a review keeps everything all the same. */
  lemma LiveReviewKeepsSound(db: Db, txn: Id, category: Id, vendor: Option<string>, createRule: bool,
                             pattern: Option<string>)
    requires Sound(db) && Live(db.categories, category)
    ensures Sound(ApplyReview(db, txn, category, vendor, createRule, pattern).0)
  {
    hide Sound, RefsLive, KeysUnique;
    if txn in db.transactions {
      ReviewRefiles(db, txn, category, vendor, createRule, pattern);
      RefilingKeepsSound(db, ApplyReview(db, txn, category, vendor, createRule, pattern).0);
    } else {
      RuleEditKeepsSound(db, ApplyReview(db, txn, category, vendor, createRule, pattern).0.rules);
    }
  }

  lemma AnyUndoKeepsSound(db: Db, txn: Id, rule: Option<Id>)
    requires Sound(db)
    ensures Sound(UndoReview(db, txn, rule))
  {
    hide Sound, RefsLive, KeysUnique;
    if txn in db.transactions {
      UndoKeepsSound(db, txn, rule);
    } else {
      RuleEditKeepsSound(db, UndoReview(db, txn, rule).rules);
    }
  }

  lemma UndoKeepsSound(db: Db, txn: Id, rule: Option<Id>)
    requires Sound(db)
    ensures Sound(CheckedUndo(db, txn, rule).0)
  {
    if txn in db.transactions {
      UpdateOneRefiles(db, txn, Reopened(db.transactions[txn]));
      RefilingKeepsSound(db, UndoReview(db, txn, rule));
    }
  }

  lemma RecategorizeKeepsSound(db: Db, ids: seq<Id>, category: Id)
    requires Sound(db)
    ensures Sound(CheckedRecategorize(db, ids, category).0)
  {
    RefilingKeepsSound(db, CheckedRecategorize(db, ids, category).0);
  }

  lemma EditKeepsSound(db: Db, txn: Id, category: Id, flagged: bool)
    requires Sound(db)
    ensures Sound(CheckedEdit(db, txn, category).0)
    ensures Sound(SetFlag(db, txn, flagged).0)
  {
    if txn in db.transactions {
      UpdateOneRefiles(db, txn, db.transactions[txn].(flagged := flagged));
      RefilingKeepsSound(db, SetFlag(db, txn, flagged).0);
      if Live(db.categories, category) {
        UpdateOneRefiles(db, txn, db.transactions[txn].(category := Some(category)));
        RefilingKeepsSound(db, CheckedEdit(db, txn, category).0);
      }
    }
  }

  lemma RuleEditKeepsSound(db: Db, rules: map<Id, Rule>)
    requires Sound(db) && RulesKept(db, rules)
    ensures Sound(db.(rules := rules))
  {
    assert TxnsRefiled(db, db.transactions);
    RefilingKeepsSound(db, db.(rules := rules));
  }

  lemma AddRuleKeepsSound(e: Engine, db: Db, pattern: string, matchType: string, vendor: Option<string>,
                          category: Id, priority: int)
    requires Sound(db)
    ensures Sound(AddRule(e, db, pattern, matchType, vendor, category, priority).0)
  {
    var (after, result) := AddRule(e, db, pattern, matchType, vendor, category, priority);
    if result.Ok? {
      RuleEditKeepsSound(db, Insert(db.rules, Rule(pattern, matchType, vendor, category, priority, 0, true)));
    }
  }

  lemma UpdateOneRuleKeepsSound(db: Db, id: Id, rule: Rule)
    requires Sound(db) && id in db.rules
    requires Live(db.categories, rule.category)
          || (rule.category == db.rules[id].category && (rule.active ==> db.rules[id].active))
    ensures Sound(db.(rules := db.rules[id := rule]))
  {
    RuleEditKeepsSound(db, db.rules[id := rule]);
  }

  lemma UpdateRuleKeepsSound(e: Engine, db: Db, id: Id, update: RuleUpdate)
    requires Sound(db)
    ensures Sound(UpdateRule(e, db, id, update).0)
  {
    hide Sound, ValidMatchType;
    var (after, result) := UpdateRule(e, db, id, update);
    if result.Ok? {
      UpdateOneRuleKeepsSound(db, id, after.rules[id]);
    }
  }

  lemma DeactivateRuleKeepsSound(db: Db, id: Id)
    requires Sound(db)
    ensures Sound(DeactivateRule(db, id).0)
  {
    hide Sound;
    if id in db.rules {
      UpdateOneRuleKeepsSound(db, id, db.rules[id].(active := false));
    }
  }

  lemma RuleOpsKeepSound(e: Engine, db: Db, op: Op)
    requires Sound(db)
    requires op.OpAddRule? || op.OpUpdateRule? || op.OpDeactivateRule?
    ensures Sound(Apply(e, db, op))
  {
    hide Sound, AddRule, UpdateRule, DeactivateRule;
    match op
    case OpAddRule(pattern, matchType, vendor, category, priority) =>
      AddRuleKeepsSound(e, db, pattern, matchType, vendor, category, priority);
    case OpUpdateRule(id, update) => UpdateRuleKeepsSound(e, db, id, update);
    case OpDeactivateRule(id) => DeactivateRuleKeepsSound(db, id);
  }

  // ----- imports -----

  lemma NewRejectsCounted(rejects: map<Id, Reject>, id: Id, rows: seq<Reject>)
    requires forall r | r in rejects :: rejects[r].importId != id
    requires forall row | row in rows :: row.importId == id
    ensures |RejectsOf(InsertAll(rejects, rows), id)| == |rows|
    ensures forall i | i != id :: RejectsOf(InsertAll(rejects, rows), i) == RejectsOf(rejects, i)
  {
    var grown := InsertAll(rejects, rows);
    InsertAllExtends(rejects, rows);
    forall r | r in grown ensures r in RejectsOf(grown, id) <==> r !in rejects {
    }
    assert RejectsOf(grown, id) == grown.Keys - rejects.Keys;
    assert forall r | r in rejects :: r in grown;
    SubsetDifference(grown.Keys, rejects.Keys);
    forall i | i != id ensures RejectsOf(grown, i) == RejectsOf(rejects, i) {
      forall r | r in grown ensures r in RejectsOf(grown, i) <==> r in RejectsOf(rejects, i) {
      }
    }
  }

  lemma RejectCountsAfterRecord(db: Db, id: Id, rejects: seq<RejectedRow>)
    requires RejectRefsLive(db) && id !in db.imports
    ensures var grown := InsertAll(db.rejects, RejectRows(id, rejects));
            && |RejectsOf(grown, id)| == |rejects|
            && forall i | i in db.imports :: RejectsOf(grown, i) == RejectsOf(db.rejects, i)
  {
    NewRejectsCounted(db.rejects, id, RejectRows(id, rejects));
  }

  lemma SubsetDifference<T>(all: set<T>, part: set<T>)
    requires part <= all
    ensures |all - part| == |all| - |part|
  {
    assert all == (all - part) + part;
  }

  lemma RecordKeepsRefs(db: Db, account: Id, filename: string, checksum: string, parsed: ParseOutcome)
    requires RefsLive(db) && NothingRetiredInUse(db) && account in db.accounts
    ensures var after := RecordImport(db, account, filename, checksum, parsed).0;
            RefsLive(after) && NothingRetiredInUse(after)
  {
    hide InsertRows, InsertAll, CountInserted;
    var id := NextRowId(db.imports.Keys);
    var after := RecordImport(db, account, filename, checksum, parsed).0;
    assert TxnRefsLive(after) && NothingRetiredInUse(after) by {
      InsertRowsExtends(db.transactions, account, id, parsed.rows);
    }
    assert RejectRefsLive(after) by {
      InsertAllExtends(db.rejects, RejectRows(id, parsed.rejects));
    }
  }

  lemma RecordKeepsSound(db: Db, account: Id, filename: string, checksum: string, parsed: ParseOutcome)
    requires Sound(db) && account in db.accounts && !ChecksumTaken(db.imports, checksum)
    ensures Sound(RecordImport(db, account, filename, checksum, parsed).0)
  {
    hide InsertRows, InsertAll, CountInserted, ActiveNamesUnique, AccountNamesUnique, NothingRetiredInUse, KeysUnique;
    var id := NextRowId(db.imports.Keys);
    var after := RecordImport(db, account, filename, checksum, parsed).0;
    RecordKeepsRefs(db, account, filename, checksum, parsed);
    InsertRowsKeepsKeysUnique(db.transactions, account, id, parsed.rows);
    RejectCountsAfterRecord(db, id, parsed.rejects);
    assert ChecksumsUnique(after.imports);
  }

  lemma DeleteImportKeepsSound(db: Db, id: Id)
    requires Sound(db)
    ensures Sound(DeleteImport(db, id))
  {
    var after := DeleteImport(db, id);
    forall i | i in after.imports ensures RejectsOf(after.rejects, i) == RejectsOf(db.rejects, i) {
    }
    assert RejectCountsAgree(after.imports, after.rejects);
    assert TxnRefsLive(after);
    assert RejectRefsLive(after);
  }

  // ----- categories and accounts -----

  lemma NoneCounted<T>(s: set<T>)
    requires |s| == 0
    ensures s == {}
  {
  }

  /** Categories may be added, or renamed in place, under any references. */
  lemma GrowingCategoriesKeepsSound(db: Db, categories: map<Id, Category>)
    requires Sound(db)
    requires forall c | c in db.categories :: c in categories
    requires forall c | Live(db.categories, c) :: Live(categories, c)
    requires ActiveNamesUnique(categories)
    ensures Sound(db.(categories := categories))
  {
    var after := db.(categories := categories);
    assert TxnRefsLive(after);
    assert RuleRefsLive(after);
    assert NothingRetiredInUse(after);
  }

  lemma AddCategoryKeepsSound(db: Db, name: string, kind: string)
    requires Sound(db)
    ensures Sound(AddCategory(db, name, kind).0)
  {
    if ValidCategoryFields(name, kind) && !NameTaken(db.categories, name, None) {
      GrowingCategoriesKeepsSound(db, Insert(db.categories, Category(name, kind, true)));
    }
  }

  lemma UpdateCategoryKeepsSound(db: Db, id: Id, name: string, kind: string)
    requires Sound(db)
    ensures Sound(UpdateCategory(db, id, name, kind).0)
  {
    if ValidCategoryFields(name, kind) && !NameTaken(db.categories, name, Some(id)) && Live(db.categories, id) {
      GrowingCategoriesKeepsSound(db, db.categories[id := Category(name, kind, true)]);
    }
  }

  lemma DeleteCategoryKeepsSound(db: Db, id: Id)
    requires Sound(db)
    ensures Sound(DeleteCategory(db, id).0)
  {
    var after := DeleteCategory(db, id).0;
    if after != db {
      NoneCounted(TxnsIn(db, id));
      NoneCounted(ActiveRulesIn(db, id));
      forall t | t in db.transactions ensures db.transactions[t].category != Some(id) {
        assert t !in TxnsIn(db, id);
      }
      forall r | r in db.rules && db.rules[r].active ensures db.rules[r].category != id {
        assert r !in ActiveRulesIn(db, id);
      }
    }
    assert NothingRetiredInUse(after);
    assert TxnRefsLive(after) && RuleRefsLive(after);
  }

  lemma AddAccountKeepsSound(db: Db, name: string, kind: string)
    requires Sound(db)
    ensures Sound(AddAccount(db, name, kind).0)
  {
    if AddAccount(db, name, kind).1.Ok? {
      var accounts := Insert(db.accounts, Account(name, kind));
      var after := db.(accounts := accounts);
      assert forall a | a in db.accounts :: a in accounts;
      assert TxnRefsLive(after) && AccountRefsLive(after);
      assert AccountNamesUnique(accounts);
    }
  }

  lemma DeleteAccountKeepsSound(db: Db, id: Id)
    requires Sound(db)
    ensures Sound(DeleteAccount(db, id).0)
  {
    var after := DeleteAccount(db, id).0;
    if after != db {
      NoneCounted(TxnsOf(db, id));
      forall t | t in db.transactions ensures db.transactions[t].account != id {
        assert t !in TxnsOf(db, id);
      }
      assert TxnRefsLive(after);
      assert AccountRefsLive(after);
      assert ChecksumsUnique(after.imports);
    }
  }

  lemma ReconcileKeepsSound(db: Db, accountName: string, month: string, statement: int)
    requires Sound(db)
    ensures Sound(Reconcile(db, accountName, month, statement).0)
  {
    var after := Reconcile(db, accountName, month, statement).0;
    assert after == db.(reconciliations := after.reconciliations);
    assert AccountRefsLive(after);
  }

  // ----- the theorem -----

  lemma ImportKeepsSound(e: Engine, db: Db, accountName: string, file: Statement, order: seq<Id>)
    requires Sound(db) && IsRuleOrder(db.rules, order)
    ensures Sound(ImportFile(db, accountName, file, false).0)
    ensures Sound(ImportAndCategorize(e, db, accountName, file, order).0)
  {
    var (after, result) := ImportFile(db, accountName, file, false);
    if result.Ok? && !result.value.duplicateFile {
      RecordKeepsSound(db, AccountNamed(db.accounts, accountName).value, file.filename, file.checksum,
                       file.parse.value);
      CategorizeKeepsSound(e, after, order);
    }
  }

  predicate EditsTables(op: Op) {
    || op.OpAddAccount? || op.OpDeleteAccount? || op.OpReconcile?
    || op.OpAddCategory? || op.OpUpdateCategory? || op.OpDeleteCategory?
    || op.OpAddRule? || op.OpUpdateRule? || op.OpDeactivateRule?
  }

  lemma TableStepKeepsSound(e: Engine, db: Db, op: Op)
    requires Sound(db) && EditsTables(op)
    ensures Sound(Apply(e, db, op))
  {
    hide Sound, AddAccount, DeleteAccount, Reconcile, AddCategory, UpdateCategory, DeleteCategory;
    match op
    case OpAddAccount(name, kind) => AddAccountKeepsSound(db, name, kind);
    case OpDeleteAccount(id) => DeleteAccountKeepsSound(db, id);
    case OpReconcile(accountName, month, statement) => ReconcileKeepsSound(db, accountName, month, statement);
    case OpAddCategory(name, kind) => AddCategoryKeepsSound(db, name, kind);
    case OpUpdateCategory(id, name, kind) => UpdateCategoryKeepsSound(db, id, name, kind);
    case OpDeleteCategory(id) => DeleteCategoryKeepsSound(db, id);
    case _ => RuleOpsKeepSound(e, db, op);
  }

  lemma StepKeepsSound(e: Engine, db: Db, op: Op)
    requires Sound(db)
    ensures Sound(Apply(e, db, op))
  {
    hide Sound, IsRuleOrder, ImportAndCategorize, Categorize, CutShort, DeleteImport, CheckedReview, CheckedUndo;
    hide CheckedRecategorize, CheckedEdit, SetFlag, Reconcile;
    match op
    case OpDeleteImport(id) => DeleteImportKeepsSound(db, id);
    case OpCategorize(order) => if IsRuleOrder(db.rules, order) { CategorizeKeepsSound(e, db, order); }
    case OpCategorizeFails(order, filed, hit) =>
      if IsRuleOrder(db.rules, order) { CutShortKeepsSound(e, db, order, filed, hit); }
    case OpImport(accountName, file, order) =>
      if IsRuleOrder(db.rules, order) { ImportKeepsSound(e, db, accountName, file, order); }
    case OpReview(txn, category, vendor, createRule, pattern) =>
      ReviewKeepsSound(db, txn, category, vendor, createRule, pattern);
    case OpUndoReview(txn, rule) => UndoKeepsSound(db, txn, rule);
    case OpRecategorize(ids, category) => RecategorizeKeepsSound(db, ids, category);
    case OpEdit(txn, category) => EditKeepsSound(db, txn, category, true);
    case OpSetFlag(txn, flagged) => EditKeepsSound(db, txn, 0, flagged);
    case _ => TableStepKeepsSound(e, db, op);
  }

  /** Every reachable ledger is sound: references are live, checksums and
      transaction keys are unique, every import's count is the number of its
      rejects, and nothing in use points at a retired category. */
  lemma {:induction false} RunKeepsSound(e: Engine, db: Db, ops: seq<Op>)
    requires Sound(db)
    ensures Sound(Run(e, db, ops))
  {
    if ops != [] {
      RunKeepsSound(e, db, ops[..|ops| - 1]);
      StepKeepsSound(e, Run(e, db, ops[..|ops| - 1]), ops[|ops| - 1]);
    }
  }

  lemma EmptyIsSound()
    ensures Sound(EMPTY_DB) && UncategorizedFlagged(EMPTY_DB.transactions)
  {
  }

  // ----- the flag -----

  /** Clearing by hand the flag of a transaction that has no category. */
  predicate UnflagsPending(db: Db, op: Op) {
    op.OpSetFlag? && !op.flagged && op.txn in db.transactions && db.transactions[op.txn].category == None
  }

  lemma InsertKeepsFlagged(txns: map<Id, Txn>, account: Id, importId: Id, rows: seq<ParsedRow>)
    requires UncategorizedFlagged(txns)
    ensures UncategorizedFlagged(InsertRows(txns, account, importId, rows))
  {
    hide InsertRows;
    InsertRowsExtends(txns, account, importId, rows);
  }

  lemma CategorizeKeepsFlagged(e: Engine, db: Db, order: seq<Id>)
    requires UncategorizedFlagged(db.transactions)
    ensures UncategorizedFlagged(Categorize(e, db, order).transactions)
  {
    hide Winner, WonBy;
  }

  lemma CutShortKeepsFlagged(e: Engine, db: Db, order: seq<Id>, filed: set<Id>, hit: set<Id>)
    requires UncategorizedFlagged(db.transactions)
    ensures UncategorizedFlagged(CutShort(e, db, order, filed, hit).transactions)
  {
    hide Winner, PartlyHit;
  }

  lemma ImportKeepsFlagged(e: Engine, db: Db, accountName: string, file: Statement, order: seq<Id>)
    requires UncategorizedFlagged(db.transactions)
    ensures UncategorizedFlagged(ImportAndCategorize(e, db, accountName, file, order).0.transactions)
  {
    hide InsertRows, InsertAll, CountInserted, Categorize, StillUncategorized, UncategorizedFlagged;
    var (mid, result) := ImportFile(db, accountName, file, false);
    if result.Ok? && !result.value.duplicateFile {
      InsertKeepsFlagged(db.transactions, AccountNamed(db.accounts, accountName).value,
                         NextRowId(db.imports.Keys), file.parse.value.rows);
      CategorizeKeepsFlagged(e, mid, order);
    }
  }

  lemma TablesOpsKeepTxns(e: Engine, db: Db, op: Op)
    requires EditsTables(op)
    ensures Apply(e, db, op).transactions == db.transactions
  {
    hide AccountNamed, SumOf, InMonth, UpToMonth, Insert, ValidMatchType, Unlinked, DropReconciliationsOf;
  }

  lemma FilingKeepsFlagged(e: Engine, db: Db, op: Op)
    requires UncategorizedFlagged(db.transactions)
    requires op.OpDeleteImport? || op.OpCategorize? || op.OpReview? || op.OpUndoReview? || op.OpRecategorize?
          || op.OpEdit?
    ensures UncategorizedFlagged(Apply(e, db, op).transactions)
  {
  }

  /** A step keeps every uncategorized transaction flagged exactly when it is
      not a manual unflag of one. */
  lemma StepKeepsFlagged(e: Engine, db: Db, op: Op)
    requires UncategorizedFlagged(db.transactions)
    ensures UncategorizedFlagged(Apply(e, db, op).transactions) <==> !UnflagsPending(db, op)
  {
    match op
    case OpImport(accountName, file, order) => ImportKeepsFlagged(e, db, accountName, file, order);
    case OpSetFlag(txn, flagged) =>
      if txn in db.transactions {
        assert SetFlag(db, txn, flagged).0.transactions[txn].flagged == flagged;
      }
    case OpDeleteImport(_) => FilingKeepsFlagged(e, db, op);
    case OpCategorize(_) => FilingKeepsFlagged(e, db, op);
    case OpCategorizeFails(order, filed, hit) => CutShortKeepsFlagged(e, db, order, filed, hit);
    case OpReview(_, _, _, _, _) => FilingKeepsFlagged(e, db, op);
    case OpUndoReview(_, _) => FilingKeepsFlagged(e, db, op);
    case OpRecategorize(_, _) => FilingKeepsFlagged(e, db, op);
    case OpEdit(_, _) => FilingKeepsFlagged(e, db, op);
    case _ => TablesOpsKeepTxns(e, db, op);
  }

  lemma {:induction false} RunKeepsFlagged(e: Engine, db: Db, ops: seq<Op>)
    requires UncategorizedFlagged(db.transactions)
    requires forall i | 0 <= i < |ops| :: !UnflagsPending(Run(e, db, ops[..i]), ops[i])
    ensures UncategorizedFlagged(Run(e, db, ops).transactions)
  {
    if ops != [] {
      var front := ops[..|ops| - 1];
      assert forall i | 0 <= i < |front| :: front[..i] == ops[..i];
      RunKeepsFlagged(e, db, front);
      StepKeepsFlagged(e, Run(e, db, front), ops[|ops| - 1]);
    }
  }
}
