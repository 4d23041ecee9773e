/**
 What each data-layer operation does to the tables, as functions on `Db`. The
 methods of class `Ledger` are proved against these; the laws in the files that
 follow are about them.
 */
module LedgerSpec {
  import opened Outcomes
  import opened Tables
  import opened Decimal
  import opened TextOps

  /** The foreign text engine: what `matches` answers, and whether a regex compiles. */
  datatype Engine = Engine(matches: (string, string, string) -> bool, compiles: string -> bool)

  datatype LedgerError =
    | UnknownAccount
    | UnknownFormat
    | NoImporter
    | Unreadable
    | EmptyImport(malformed: nat)
    | Invalid
    | NotFound
    | DuplicateName
    | AlreadyInactive
    | Blocked(kind: BlockKind, count: nat)
    | NoTransactions
    | Database  // a statement SQLite refused: a foreign key, or a fault

  datatype BlockKind = ByTransactions | ByActiveRules

  // ----- import -----

  datatype ParsedRow = ParsedRow(date: string, description: string, amount: int)

  datatype RejectedRow = RejectedRow(rowNumber: nat, content: string, reason: string)

  datatype ParseOutcome = ParseOutcome(rows: seq<ParsedRow>, rejects: seq<RejectedRow>)

  /** A file on disk: its checksum, and what resolving a format and parsing it yields. */
  datatype Statement = Statement(filename: string, checksum: string,
                                 parse: Result<ParseOutcome, LedgerError>)

  datatype ImportResult = ImportResult(imported: nat, skipped: nat, malformed: nat,
                                       duplicateFile: bool, importId: Option<Id>)

  function RowKey(account: Id, row: ParsedRow): TxnKey {
    TxnKey(account, row.date, row.amount, row.description)
  }

  predicate IsDuplicateRow(txns: map<Id, Txn>, account: Id, row: ParsedRow) {
    exists id :: id in txns && KeyOf(txns[id]) == RowKey(account, row)
  }

  function ImportedTxn(account: Id, importId: Id, row: ParsedRow): Txn {
    Txn(account, row.date, row.description, row.amount, None, None, true, Some("No matching rule"), Some(importId))
  }

  function InsertRow(txns: map<Id, Txn>, account: Id, importId: Id, row: ParsedRow): map<Id, Txn> {
    if IsDuplicateRow(txns, account, row) then txns
    else Insert(txns, ImportedTxn(account, importId, row))
  }

  function InsertRows(txns: map<Id, Txn>, account: Id, importId: Id, rows: seq<ParsedRow>): map<Id, Txn> {
    if rows == [] then txns
    else InsertRow(InsertRows(txns, account, importId, rows[..|rows| - 1]), account, importId, rows[|rows| - 1])
  }

  /** How many of the rows the growing table did not already hold. */
  function CountInserted(txns: map<Id, Txn>, account: Id, importId: Id, rows: seq<ParsedRow>): (n: nat)
    ensures n <= |rows|
  {
    if rows == [] then 0
    else
      var front := rows[..|rows| - 1];
      CountInserted(txns, account, importId, front) +
      if IsDuplicateRow(InsertRows(txns, account, importId, front), account, rows[|rows| - 1]) then 0 else 1
  }

  /** The preview's count: every row against the table as it stands. */
  function CountNew(txns: map<Id, Txn>, account: Id, rows: seq<ParsedRow>): (n: nat)
    ensures n <= |rows|
  {
    if rows == [] then 0
    else
      CountNew(txns, account, rows[..|rows| - 1]) +
      if IsDuplicateRow(txns, account, rows[|rows| - 1]) then 0 else 1
  }

  function RejectRows(importId: Id, rejects: seq<RejectedRow>): (rows: seq<Reject>)
    ensures |rows| == |rejects|
  {
    seq(|rejects|, i requires 0 <= i < |rejects| =>
      Reject(importId, rejects[i].rowNumber, rejects[i].content, rejects[i].reason))
  }

  predicate ChecksumTaken(imports: map<Id, Import>, checksum: string) {
    exists id :: id in imports && imports[id].checksum == checksum
  }

  lemma MinExists(s: set<int>)
    requires s != {}
    ensures exists m :: m in s && forall k | k in s :: m <= k
  {
    var negated := set k | k in s :: -k;
    var x := Pick(s);
    assert -x in negated;
    MaxExists(negated);
    var m :| m in negated && forall k | k in negated :: k <= m;
    forall k | k in s ensures -m <= k {
      assert -k in negated;
    }
  }

  /** `SELECT id FROM accounts WHERE name = ?1`, first row of a scan by rowid. */
  function AccountNamed(accounts: map<Id, Account>, name: string): (found: Option<Id>)
    ensures found.Some? ==> found.value in accounts && accounts[found.value].name == name
    ensures found.None? ==> forall id | id in accounts :: accounts[id].name != name
  {
    var ids := set id | id in accounts && accounts[id].name == name;
    if ids == {} then
      assert forall id | id in accounts :: accounts[id].name == name ==> id in ids;
      None
    else
      MinExists(ids);
      var m :| m in ids && forall k | k in ids :: m <= k;
      Some(m)
  }

  function ImportFile(db: Db, accountName: string, file: Statement, dryRun: bool)
    : (Db, Result<ImportResult, LedgerError>)
  {
    match AccountNamed(db.accounts, accountName)
    case None => (db, Err(UnknownAccount))
    case Some(account) =>
      if ChecksumTaken(db.imports, file.checksum) then (db, Ok(ImportResult(0, 0, 0, true, None)))
      else
        match file.parse
        case Err(e) => (db, Err(e))
        case Ok(parsed) =>
          if dryRun then
            var unseen := CountNew(db.transactions, account, parsed.rows);
            (db, Ok(ImportResult(unseen, |parsed.rows| - unseen, |parsed.rejects|, false, None)))
          else if parsed.rows == [] then (db, Err(EmptyImport(|parsed.rejects|)))
          else RecordImport(db, account, file.filename, file.checksum, parsed)
  }

  function RecordImport(db: Db, account: Id, filename: string, checksum: string, parsed: ParseOutcome)
    : (Db, Result<ImportResult, LedgerError>)
  {
    var id := NextRowId(db.imports.Keys);
    var inserted := CountInserted(db.transactions, account, id, parsed.rows);
    (db.(imports := db.imports[id := Import(filename, Some(account), |parsed.rows|, checksum, |parsed.rejects|)],
         rejects := InsertAll(db.rejects, RejectRows(id, parsed.rejects)),
         transactions := InsertRows(db.transactions, account, id, parsed.rows)),
     Ok(ImportResult(inserted, |parsed.rows| - inserted, |parsed.rejects|, false, Some(id))))
  }

  function TxnsFrom(db: Db, importId: Id): set<Id> {
    set id | id in db.transactions && db.transactions[id].importId == Some(importId)
  }

  /** `DELETE FROM transactions WHERE import_id = ?1` */
  function DropTxnsFrom(txns: map<Id, Txn>, importId: Id): map<Id, Txn> {
    map id | id in txns && txns[id].importId != Some(importId) :: txns[id]
  }

  /** The cascade of `DELETE FROM imports WHERE id = ?1` */
  function DropRejectsOf(rejects: map<Id, Reject>, importId: Id): map<Id, Reject> {
    map id | id in rejects && rejects[id].importId != importId :: rejects[id]
  }

  /** The import's transactions, the import, and (by the cascade) its rejects. */
  function DeleteImport(db: Db, importId: Id): Db {
    db.(transactions := DropTxnsFrom(db.transactions, importId),
        imports := db.imports - {importId},
        rejects := DropRejectsOf(db.rejects, importId))
  }

  // ----- categorization -----

  predicate RuleMatches(e: Engine, rule: Rule, description: string) {
    e.matches(description, rule.pattern, rule.matchType)
  }

  /** An answer to `SELECT ... FROM rules WHERE is_active = 1 ORDER BY priority DESC`. */
  predicate IsRuleOrder(rules: map<Id, Rule>, order: seq<Id>) {
    && (forall i | 0 <= i < |order| :: order[i] in rules && rules[order[i]].active)
    && (forall id | id in rules && rules[id].active :: id in order)
    && (forall i, j | 0 <= i < j < |order| ::
          order[i] != order[j] && rules[order[i]].priority >= rules[order[j]].priority)
  }

  function FirstMatch(e: Engine, rules: map<Id, Rule>, order: seq<Id>, description: string): (winner: Option<Id>)
    ensures winner.Some? ==> winner.value in order && winner.value in rules
    ensures winner.Some? ==> RuleMatches(e, rules[winner.value], description)
    ensures winner.None? ==> forall i | 0 <= i < |order| && order[i] in rules ::
              !RuleMatches(e, rules[order[i]], description)
  {
    if order == [] then None
    else if order[0] in rules && RuleMatches(e, rules[order[0]], description) then Some(order[0])
    else FirstMatch(e, rules, order[1..], description)
  }

  function Uncategorized(txns: map<Id, Txn>): set<Id> {
    set id | id in txns && txns[id].category == None
  }

  /** Which rule takes a transaction: none for one that is already categorized. */
  function Winner(e: Engine, rules: map<Id, Rule>, order: seq<Id>, t: Txn): (winner: Option<Id>)
    ensures winner.Some? ==> winner.value in order && winner.value in rules
  {
    if t.category == None then FirstMatch(e, rules, order, t.description) else None
  }

  function WonBy(e: Engine, rules: map<Id, Rule>, order: seq<Id>, txns: map<Id, Txn>, rule: Id): set<Id>
  {
    set id | id in txns && Winner(e, rules, order, txns[id]) == Some(rule)
  }

  function Filed(t: Txn, category: Id, vendor: Option<string>): Txn {
    t.(category := Some(category), vendor := vendor, flagged := false, flagReason := None)
  }

  function CategorizeTxn(e: Engine, rules: map<Id, Rule>, order: seq<Id>, t: Txn): Txn
  {
    match Winner(e, rules, order, t)
    case None => t
    case Some(r) => Filed(t, rules[r].category, rules[r].vendor)
  }

  function Categorize(e: Engine, db: Db, order: seq<Id>): Db
  {
    db.(transactions := map id | id in db.transactions :: CategorizeTxn(e, db.rules, order, db.transactions[id]),
        rules := map r | r in db.rules ::
                   db.rules[r].(hits := db.rules[r].hits + |WonBy(e, db.rules, order, db.transactions, r)|))
  }

  function StillUncategorized(e: Engine, db: Db, order: seq<Id>): set<Id>
  {
    set id | id in Uncategorized(db.transactions) && Winner(e, db.rules, order, db.transactions[id]) == None
  }

  // ----- a categorizer run that a failing statement cuts short -----

  function WonAmong(e: Engine, rules: map<Id, Rule>, order: seq<Id>, txns: map<Id, Txn>, done: set<Id>, rule: Id)
    : set<Id>
  {
    set id | id in done && id in txns && Winner(e, rules, order, txns[id]) == Some(rule)
  }

  function PartlyFiled(e: Engine, db: Db, order: seq<Id>, done: set<Id>): map<Id, Txn> {
    map id | id in db.transactions ::
      if id in done then CategorizeTxn(e, db.rules, order, db.transactions[id]) else db.transactions[id]
  }

  function PartlyHit(e: Engine, db: Db, order: seq<Id>, done: set<Id>): map<Id, Rule> {
    map r | r in db.rules ::
      db.rules[r].(hits := db.rules[r].hits + |WonAmong(e, db.rules, order, db.transactions, done, r)|)
  }

  /** Rows filed for `filed`, hits taken for `hit`, and nothing else done. */
  function CutShort(e: Engine, db: Db, order: seq<Id>, filed: set<Id>, hit: set<Id>): Db {
    db.(transactions := PartlyFiled(e, db, order, filed), rules := PartlyHit(e, db, order, hit))
  }

  datatype Counts = Counts(categorized: nat, stillFlagged: nat)

  function CountsOf(e: Engine, db: Db, order: seq<Id>): Counts {
    var pending, left := Uncategorized(db.transactions), StillUncategorized(e, db, order);
    Counts(|pending - left|, |left|)
  }

  function SetOf(ids: seq<Id>): set<Id> {
    set id | id in ids
  }

  predicate Distinct(ids: seq<Id>) {
    forall i, j | 0 <= i < j < |ids| :: ids[i] != ids[j]
  }

  /** An answer to `SELECT id FROM transactions WHERE category_id IS NULL`. */
  predicate IsPending(txns: map<Id, Txn>, pending: seq<Id>) {
    Distinct(pending) && SetOf(pending) == Uncategorized(txns)
  }

  /** The pending transactions some rule takes, in the order they are met. */
  function WinnersIn(e: Engine, db: Db, order: seq<Id>, pending: seq<Id>): seq<Id> {
    if pending == [] then []
    else
      var last := pending[|pending| - 1];
      WinnersIn(e, db, order, pending[..|pending| - 1])
      + if last in db.transactions && Winner(e, db.rules, order, db.transactions[last]).Some? then [last] else []
  }

  /** The ledger after so many of the run's writes, which come in pairs: a filing,
      then its hit. */
  function AfterWrites(e: Engine, db: Db, order: seq<Id>, pending: seq<Id>, writes: nat): Db
    requires writes <= 2 * |WinnersIn(e, db, order, pending)|
  {
    var winners := WinnersIn(e, db, order, pending);
    CutShort(e, db, order, SetOf(winners[..(writes + 1) / 2]), SetOf(winners[..writes / 2]))
  }

  // ----- import and categorize, as one transaction -----

  datatype ImportOutcome = ImportOutcome(result: ImportResult, categorized: nat, stillFlagged: nat)

  function ImportAndCategorize(e: Engine, db: Db, accountName: string, file: Statement, order: seq<Id>)
    : (out: (Db, Result<ImportOutcome, LedgerError>))
  {
    var (after, result) := ImportFile(db, accountName, file, false);
    match result
    case Err(error) => (db, Err(error))
    case Ok(r) =>
      if r.duplicateFile then (db, Ok(ImportOutcome(r, 0, 0)))
      else
        var counts := CountsOf(e, after, order);
        (Categorize(e, after, order), Ok(ImportOutcome(r, counts.categorized, counts.stillFlagged)))
  }

  // ----- review -----

  predicate Live(categories: map<Id, Category>, id: Id) {
    id in categories && categories[id].active
  }

  function NewContainsRule(pattern: string, vendor: Option<string>, category: Id): Rule {
    Rule(pattern, "contains", vendor, category, 0, 0, true)
  }

  /** An UPDATE by id: no row, no change. */
  function FileTxn(txns: map<Id, Txn>, txn: Id, category: Id, vendor: Option<string>): map<Id, Txn> {
    if txn in txns then txns[txn := Filed(txns[txn], category, vendor)] else txns
  }

  /** Both writes, or neither; SQLite refuses a category id that names no row. */
  function ApplyReview(db: Db, txn: Id, category: Id, vendor: Option<string>, createRule: bool,
                       pattern: Option<string>): (Db, Result<Option<Id>, LedgerError>)
  {
    var makesRule := createRule && pattern.Some?;
    if category !in db.categories && (txn in db.transactions || makesRule) then (db, Err(Database))
    else
      (db.(transactions := FileTxn(db.transactions, txn, category, vendor),
           rules := if makesRule then Insert(db.rules, NewContainsRule(pattern.value, vendor, category)) else db.rules),
       Ok(if makesRule then Some(NextRowId(db.rules.Keys)) else None))
  }

  function Reopened(t: Txn): Txn {
    t.(category := None, vendor := None, flagged := true, flagReason := Some("Uncategorized"))
  }

  function UndoReview(db: Db, txn: Id, rule: Option<Id>): Db {
    db.(transactions := if txn in db.transactions
                        then db.transactions[txn := Reopened(db.transactions[txn])]
                        else db.transactions,
        rules := match rule
                 case None => db.rules
                 case Some(r) => db.rules - {r})
  }

  /** The listed transactions moved and unflagged; their vendors stay. */
  function Moved(txns: map<Id, Txn>, ids: seq<Id>, category: Id): map<Id, Txn> {
    map id | id in txns ::
      if id in ids then txns[id].(category := Some(category), flagged := false, flagReason := None) else txns[id]
  }

  /** All the ids move, or (when the category id names no row) none do. */
  function Recategorize(db: Db, ids: seq<Id>, category: Id): (Db, Result<nat, LedgerError>) {
    if category !in db.categories && exists i :: 0 <= i < |ids| && ids[i] in db.transactions
    then (db, Err(Database))
    else
      (db.(transactions := Moved(db.transactions, ids, category)),
       Ok(CountPresent(db.transactions.Keys, ids)))
  }

  /** Rows updated over the whole list: an id listed twice is updated twice. */
  function CountPresent(present: set<Id>, ids: seq<Id>): nat {
    if ids == [] then 0
    else CountPresent(present, ids[..|ids| - 1]) + if ids[|ids| - 1] in present then 1 else 0
  }

  function SetFlag(db: Db, txn: Id, flagged: bool): (Db, Result<(), LedgerError>) {
    if txn !in db.transactions then (db, Err(NotFound))
    else (db.(transactions := db.transactions[txn := db.transactions[txn].(flagged := flagged)]), Ok(()))
  }

  // ----- rules -----

  predicate ValidMatchType(e: Engine, matchType: string, pattern: string) {
    && matchType in {"contains", "starts_with", "regex"}
    && (matchType == "regex" ==> e.compiles(pattern))
  }

  function AddRule(e: Engine, db: Db, pattern: string, matchType: string, vendor: Option<string>,
                   category: Id, priority: int): (Db, Result<Id, LedgerError>)
  {
    if Trim(pattern) == "" || !ValidMatchType(e, matchType, pattern) then (db, Err(Invalid))
    else if !Live(db.categories, category) then (db, Err(NotFound))
    else
      (db.(rules := Insert(db.rules, Rule(pattern, matchType, vendor, category, priority, 0, true))),
       Ok(NextRowId(db.rules.Keys)))
  }

  datatype RuleUpdate = RuleUpdate(pattern: Option<string>, matchType: Option<string>,
                                   vendor: Option<Option<string>>, category: Option<Id>, priority: Option<int>)

  function OrElse<T>(change: Option<T>, current: T): T {
    match change
    case Some(v) => v
    case None => current
  }

  function Updated(current: Rule, update: RuleUpdate): Rule {
    current.(pattern := OrElse(update.pattern, current.pattern),
             matchType := OrElse(update.matchType, current.matchType),
             vendor := OrElse(update.vendor, current.vendor),
             category := OrElse(update.category, current.category),
             priority := OrElse(update.priority, current.priority))
  }

  /** Why an edit of a rule is refused, if it is. */
  function UpdateRefusal(e: Engine, categories: map<Id, Category>, current: Rule, update: RuleUpdate)
    : Option<LedgerError>
  {
    var pattern := OrElse(update.pattern, current.pattern);
    var matchType := OrElse(update.matchType, current.matchType);
    if !current.active then Some(AlreadyInactive)
    else if update == RuleUpdate(None, None, None, None, None) then Some(Invalid)
    else if (update.pattern.Some? || update.matchType.Some?) && !ValidMatchType(e, matchType, pattern)
    then Some(Invalid)
    else if update.category.Some? && !Live(categories, update.category.value) then Some(NotFound)
    else None
  }

  function UpdateRule(e: Engine, db: Db, id: Id, update: RuleUpdate): (Db, Result<(), LedgerError>) {
    if id !in db.rules || db.rules[id].category !in db.categories then (db, Err(NotFound))
    else
      match UpdateRefusal(e, db.categories, db.rules[id], update)
      case Some(error) => (db, Err(error))
      case None => (db.(rules := db.rules[id := Updated(db.rules[id], update)]), Ok(()))
  }

  function DeactivateRule(db: Db, id: Id): (Db, Result<(), LedgerError>) {
    if id !in db.rules then (db, Err(NotFound))
    else if !db.rules[id].active then (db, Err(AlreadyInactive))
    else (db.(rules := db.rules[id := db.rules[id].(active := false)]), Ok(()))
  }

  // ----- categories and accounts -----

  predicate NameTaken(categories: map<Id, Category>, name: string, except: Option<Id>) {
    exists id :: id in categories && categories[id].active && categories[id].name == name && Some(id) != except
  }

  predicate ValidCategoryFields(name: string, kind: string) {
    Trim(name) != "" && (kind == "income" || kind == "expense")
  }

  function AddCategory(db: Db, name: string, kind: string): (Db, Result<Id, LedgerError>) {
    if !ValidCategoryFields(name, kind) then (db, Err(Invalid))
    else if NameTaken(db.categories, name, None) then (db, Err(DuplicateName))
    else (db.(categories := Insert(db.categories, Category(name, kind, true))), Ok(NextRowId(db.categories.Keys)))
  }

  function UpdateCategory(db: Db, id: Id, name: string, kind: string): (Db, Result<(), LedgerError>) {
    if !ValidCategoryFields(name, kind) then (db, Err(Invalid))
    else if NameTaken(db.categories, name, Some(id)) then (db, Err(DuplicateName))
    else if !Live(db.categories, id) then (db, Err(NotFound))
    else (db.(categories := db.categories[id := Category(name, kind, true)]), Ok(()))
  }

  function TxnsIn(db: Db, category: Id): set<Id> {
    set id | id in db.transactions && db.transactions[id].category == Some(category)
  }

  function ActiveRulesIn(db: Db, category: Id): set<Id> {
    set id | id in db.rules && db.rules[id].category == category && db.rules[id].active
  }

  function DeleteCategory(db: Db, id: Id): (Db, Result<(), LedgerError>) {
    var txns, rules := |TxnsIn(db, id)|, |ActiveRulesIn(db, id)|;
    if txns > 0 then (db, Err(Blocked(ByTransactions, txns)))
    else if rules > 0 then (db, Err(Blocked(ByActiveRules, rules)))
    else if !Live(db.categories, id) then (db, Err(NotFound))
    else (db.(categories := db.categories[id := db.categories[id].(active := false)]), Ok(()))
  }

  const ACCOUNT_TYPES := {"checking", "credit_card", "line_of_credit", "payroll"}

  function AddAccount(db: Db, name: string, kind: string): (Db, Result<Id, LedgerError>) {
    if Trim(name) == "" || kind !in ACCOUNT_TYPES then (db, Err(Invalid))
    else if AccountNamed(db.accounts, name).Some? then (db, Err(DuplicateName))
    else (db.(accounts := Insert(db.accounts, Account(name, kind))), Ok(NextRowId(db.accounts.Keys)))
  }

  function TxnsOf(db: Db, account: Id): set<Id> {
    set id | id in db.transactions && db.transactions[id].account == account
  }

  /** `DELETE FROM reconciliations WHERE account_id = ?1` */
  function DropReconciliationsOf(table: map<Id, Reconciliation>, account: Id): map<Id, Reconciliation> {
    map r | r in table && table[r].account != account :: table[r]
  }

  /** `UPDATE imports SET account_id = NULL WHERE account_id = ?1` */
  function Unlinked(imports: map<Id, Import>, account: Id): map<Id, Import> {
    map i | i in imports :: if imports[i].account == Some(account) then imports[i].(account := None) else imports[i]
  }

  /** Reconciliations go, imports are unlinked (their checksums stay), then the account goes. */
  function DeleteAccount(db: Db, id: Id): (Db, Result<(), LedgerError>) {
    var txns := |TxnsOf(db, id)|;
    if txns > 0 then (db, Err(Blocked(ByTransactions, txns)))
    else if id !in db.accounts then (db, Err(NotFound))
    else
      (db.(reconciliations := DropReconciliationsOf(db.reconciliations, id),
           imports := Unlinked(db.imports, id),
           accounts := db.accounts - {id}),
       Ok(()))
  }

  // ----- reconciliation -----

  /** `SUM(amount)` over a set of transactions, 0 when there are none. */
  function SumOf(txns: map<Id, Txn>, ids: set<Id>): int
    requires ids <= txns.Keys
  {
    if ids == {} then 0
    else
      MinExists(ids);
      var m :| m in ids && forall k | k in ids :: m <= k;
      txns[m].amount + SumOf(txns, ids - {m})
  }

  function InMonth(db: Db, account: Id, month: string): set<Id> {
    set id | id in db.transactions && db.transactions[id].account == account
             && StrLe(month + "-01", db.transactions[id].date) && StrLe(db.transactions[id].date, month + "-31")
  }

  function UpToMonth(db: Db, account: Id, month: string): set<Id> {
    set id | id in db.transactions && db.transactions[id].account == account
             && StrLe(db.transactions[id].date, month + "-31")
  }

  datatype ReconcileResult = ReconcileResult(reconciled: bool, statement: int, calculated: int, discrepancy: int)

  function Abs(x: int): nat {
    if x < 0 then -x else x
  }

  /** In cents, so a discrepancy below 0.01 is one of less than a cent. */
  function Reconcile(db: Db, accountName: string, month: string, statement: int)
    : (Db, Result<ReconcileResult, LedgerError>)
  {
    match AccountNamed(db.accounts, accountName)
    case None => (db, Err(UnknownAccount))
    case Some(account) =>
      if InMonth(db, account, month) == {} then (db, Err(NoTransactions))
      else
        var calculated := SumOf(db.transactions, UpToMonth(db, account, month));
        var discrepancy := Abs(calculated - statement);
        (db.(reconciliations := Insert(db.reconciliations,
               Reconciliation(account, month, statement, calculated, discrepancy < 1))),
         Ok(ReconcileResult(discrepancy < 1, statement, calculated, discrepancy)))
  }
}
