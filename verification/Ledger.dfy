/**
 The data layer over one open database: every table is a field its methods
 reassign. Which of the statements it gives SQLite fail is an input, one answer per
 statement; a method does exactly what is specified when none of its own does.
 */
module LedgerMachine {
  import opened Outcomes
  import opened Tables
  import opened LedgerSpec
  import opened TextOps
  import opened CategorizeLoop
  import opened ReconcileLaws
  import opened Invariants
  import opened LedgerRuns
  import opened ImportLaws

  lemma RuleOrderKnown(rules: map<Id, Rule>, order: seq<Id>)
    requires IsRuleOrder(rules, order)
    ensures forall k | 0 <= k < |order| :: order[k] in rules
  {
  }

  lemma PartMayKeepSound(e: Engine, db: Db, order: seq<Id>, pending: seq<Id>, writes: nat)
    requires IsRuleOrder(db.rules, order) && writes <= 2 * |WinnersIn(e, db, order, pending)|
    ensures Sound(db) ==> Sound(AfterWrites(e, db, order, pending, writes))
  {
    hide Sound, IsRuleOrder, CutShort;
    if Sound(db) {
      var winners := WinnersIn(e, db, order, pending);
      CutShortKeepsSound(e, db, order, SetOf(winners[..(writes + 1) / 2]), SetOf(winners[..writes / 2]));
    }
  }

  lemma CategorizeMayKeepSound(e: Engine, db: Db, order: seq<Id>)
    requires IsRuleOrder(db.rules, order)
    ensures Sound(db) ==> Sound(Categorize(e, db, order))
  {
    hide Sound, IsRuleOrder, Categorize;
    if Sound(db) {
      CategorizeKeepsSound(e, db, order);
    }
  }

  lemma ImportMayKeepSound(e: Engine, db: Db, accountName: string, file: Statement, order: seq<Id>)
    requires IsRuleOrder(db.rules, order)
    ensures Sound(db) ==> Sound(LedgerSpec.ImportAndCategorize(e, db, accountName, file, order).0)
  {
    hide Sound, IsRuleOrder, LedgerSpec.ImportAndCategorize;
    if Sound(db) {
      ImportKeepsSound(e, db, accountName, file, order);
    }
  }

  lemma ReviewMayKeepSound(db: Db, txn: Id, category: Id, vendor: Option<string>, createRule: bool,
                           pattern: Option<string>)
    requires Live(db.categories, category)
    ensures Sound(db) ==> Sound(LedgerSpec.ApplyReview(db, txn, category, vendor, createRule, pattern).0)
  {
    hide Sound, Live, LedgerSpec.ApplyReview;
    if Sound(db) {
      LiveReviewKeepsSound(db, txn, category, vendor, createRule, pattern);
    }
  }

  lemma UpdateRuleMayKeepSound(e: Engine, db: Db, id: Id, update: RuleUpdate)
    ensures Sound(db) ==> Sound(LedgerSpec.UpdateRule(e, db, id, update).0)
  {
    hide Sound, LedgerSpec.UpdateRule;
    if Sound(db) {
      UpdateRuleKeepsSound(e, db, id, update);
    }
  }

  lemma RecategorizeMayKeepSound(db: Db, ids: seq<Id>, category: Id)
    requires Live(db.categories, category)
    ensures Sound(db) ==> Sound(LedgerSpec.Recategorize(db, ids, category).0)
  {
    hide Sound, LedgerSpec.Recategorize;
    if Sound(db) {
      RecategorizeKeepsSound(db, ids, category);
    }
  }

  lemma DeleteAccountMayKeepSound(db: Db, id: Id)
    ensures Sound(db) ==> Sound(LedgerSpec.DeleteAccount(db, id).0)
  {
    hide Sound, LedgerSpec.DeleteAccount;
    if Sound(db) {
      DeleteAccountKeepsSound(db, id);
    }
  }

  lemma UndoMayKeepSound(db: Db, txn: Id, rule: Option<Id>)
    ensures Sound(db) ==> Sound(LedgerSpec.UndoReview(db, txn, rule))
  {
    hide Sound, LedgerSpec.UndoReview;
    if Sound(db) {
      AnyUndoKeepsSound(db, txn, rule);
    }
  }

  lemma NoRowsInserted(txns: map<Id, Txn>, account: Id, importId: Id)
    ensures InsertRows(txns, account, importId, []) == txns && CountInserted(txns, account, importId, []) == 0
  {
  }

  lemma NextRowInserted(txns: map<Id, Txn>, account: Id, importId: Id, rows: seq<ParsedRow>, i: nat)
    requires i < |rows|
    ensures var before := InsertRows(txns, account, importId, rows[..i]);
            var duplicate := IsDuplicateRow(before, account, rows[i]);
            && InsertRows(txns, account, importId, rows[..i + 1])
                 == (if duplicate then before else Insert(before, ImportedTxn(account, importId, rows[i])))
            && CountInserted(txns, account, importId, rows[..i + 1])
                 == CountInserted(txns, account, importId, rows[..i]) + if duplicate then 0 else 1
  {
    assert rows[..i + 1][..i] == rows[..i];
  }

  lemma NoneInserted<V>(table: map<Id, V>, rows: seq<V>)
    ensures InsertAll(table, rows[..0]) == table
  {
  }

  lemma NextInserted<V>(table: map<Id, V>, rows: seq<V>, i: nat)
    requires i < |rows|
    ensures InsertAll(table, rows[..i + 1]) == Insert(InsertAll(table, rows[..i]), rows[i])
  {
    assert rows[..i + 1][..i] == rows[..i];
  }

  // ----- ORDER BY priority DESC -----

  /** `order` is sorted and distinct, and every active rule is in it or, ranking
      no higher than any of it, among the ones left. */
  ghost predicate OrderedSoFar(rules: map<Id, Rule>, order: seq<Id>, left: set<Id>) {
    && (forall r | r in left :: r in rules && rules[r].active && r !in order)
    && (forall i | 0 <= i < |order| :: order[i] in rules && rules[order[i]].active)
    && (forall r | r in rules && rules[r].active :: r in left || r in order)
    && (forall i, j | 0 <= i < j < |order| ::
          order[i] != order[j] && rules[order[i]].priority >= rules[order[j]].priority)
    && (forall i, r | 0 <= i < |order| && r in left :: rules[order[i]].priority >= rules[r].priority)
  }

  lemma OrderedOneMore(rules: map<Id, Rule>, order: seq<Id>, left: set<Id>, top: Id)
    requires OrderedSoFar(rules, order, left)
    requires top in left && forall r | r in left :: rules[r].priority <= rules[top].priority
    ensures OrderedSoFar(rules, order + [top], left - {top})
  {
  }

  lemma OrderedAll(rules: map<Id, Rule>, order: seq<Id>)
    requires OrderedSoFar(rules, order, {})
    ensures IsRuleOrder(rules, order)
  {
  }

  // ----- the machine -----

  /** Some statement from the one count up to the other fails. */
  ghost predicate Failing(fails: nat -> bool, since: nat, until: nat) {
    exists n :: since <= n < until && fails(n)
  }

  lemma NoneFailing(fails: nat -> bool, now: nat)
    ensures !Failing(fails, now, now)
  {
  }

  lemma FailingSplits(fails: nat -> bool, a: nat, b: nat, c: nat)
    requires a <= b <= c
    ensures Failing(fails, a, c) <==> Failing(fails, a, b) || Failing(fails, b, c)
  {
    if Failing(fails, a, c) {
      var n :| a <= n < c && fails(n);
    }
  }

  lemma UnchangedWhen(e: Engine, db: Db, order: seq<Id>, pending: seq<Id>, fails: nat -> bool,
                      start: nat, now: nat, writes: nat)
    requires IsPending(db.transactions, pending)
    requires var winners := |WinnersIn(e, db, order, pending)|;
             || (writes == 2 * winners && now == start + 2 + writes && !Failing(fails, start, now))
             || (writes < 2 * winners && now == start + 3 + writes && fails(now - 1) && !Failing(fails, start, now - 1))
    ensures AfterWrites(e, db, order, pending, writes) == db
       <==> WinnersIn(e, db, order, pending) == [] || Failing(fails, start, start + 3)
  {
    hide WinnersIn, AfterWrites, IsPending;
    UnchangedExactly(e, db, order, pending, writes);
  }

  class Ledger {
    const engine: Engine
    const fails: nat -> bool   // whether SQLite fails the nth statement it is given
    var clock: nat             // how many it has been given
    var accounts: map<Id, Account>
    var categories: map<Id, Category>
    var imports: map<Id, Import>
    var rejects: map<Id, Reject>
    var transactions: map<Id, Txn>
    var rules: map<Id, Rule>
    var reconciliations: map<Id, Reconciliation>

    constructor (engine: Engine, fails: nat -> bool)
      ensures Contents() == EMPTY_DB && this.engine == engine && this.fails == fails && clock == 0
    {
      this.engine, this.fails, clock := engine, fails, 0;
      accounts, categories, imports, rejects := map[], map[], map[], map[];
      transactions, rules, reconciliations := map[], map[], map[];
    }

    function Contents(): Db
      reads this
    {
      Db(accounts, categories, imports, rejects, transactions, rules, reconciliations)
    }

    /** A statement given since then has failed. */
    ghost predicate Faulted(since: nat)
      reads this
    {
      Failing(fails, since, clock)
    }

    /** ROLLBACK: every table back as it was when the transaction began. */
    method Rollback(to: Db)
      modifies this
      ensures Contents() == to && clock == old(clock)
    {
      accounts, categories, imports, rejects := to.accounts, to.categories, to.imports, to.rejects;
      transactions, rules, reconciliations := to.transactions, to.rules, to.reconciliations;
    }

    /** Whether SQLite managed to run the next statement. */
    method RunStatement() returns (ok: bool)
      modifies this`clock
      ensures Contents() == old(Contents())
      ensures clock == old(clock) + 1 && ok == !fails(old(clock)) && !Failing(fails, old(clock), old(clock))
      ensures forall since: nat | since <= old(clock) ::
                Failing(fails, since, clock) <==> Failing(fails, since, old(clock)) || !ok
    {
      ok := !fails(clock);
      clock := clock + 1;
      NoneFailing(fails, old(clock));
      forall since: nat | since <= old(clock)
        ensures Failing(fails, since, clock) <==> Failing(fails, since, old(clock)) || !ok
      {
        FailingSplits(fails, since, old(clock), clock);
      }
    }

    /** The end of a transaction: COMMIT if every statement ran; if not, or if the
        COMMIT fails, what the transaction began with. */
    method Finish(ran: bool, before: Db) returns (ok: bool)
      modifies this
      ensures clock == old(clock) + (if ran then 1 else 0) && ok == (ran && !fails(old(clock)))
      ensures Contents() == if ok then old(Contents()) else before
      ensures forall since: nat | since <= old(clock) ::
                Failing(fails, since, clock) <==> Failing(fails, since, old(clock)) || (ran && !ok)
    {
      hide Failing;
      ok := ran;
      if ok { ok := RunStatement(); }
      if !ok { Rollback(before); }
    }

    // ----- queries -----

    method ActiveRules() returns (order: seq<Id>)
      ensures IsRuleOrder(rules, order)
    {
      order := [];
      var left := set r | r in rules && rules[r].active;
      while left != {}
        invariant OrderedSoFar(rules, order, left)
        decreases |left|
      {
        TopPriorityExists(rules, left);
        var top :| top in left && forall r | r in left :: rules[r].priority <= rules[top].priority;
        OrderedOneMore(rules, order, left, top);
        order := order + [top];
        left := left - {top};
      }
      OrderedAll(rules, order);
    }

    method PendingTransactions() returns (ids: seq<Id>)
      ensures IsPending(transactions, ids)
    {
      ids := [];
      var left := Uncategorized(transactions);
      while left != {}
        invariant Distinct(ids)
        invariant left !! SetOf(ids) && SetOf(ids) + left == Uncategorized(transactions)
        decreases |left|
      {
        ghost var some := Pick(left);
        var id :| id in left;
        ids := ids + [id];
        left := left - {id};
      }
    }

    // ----- import -----

    /** A fault leaves whatever was written so far, which only ever adds rows, to the
        three tables an import writes; the caller's transaction takes them back. A
        failing account lookup reads as an unknown account. */
    method ImportFile(accountName: string, file: Statement, dryRun: bool)
        returns (result: Result<ImportResult, LedgerError>)
      modifies this`imports, this`rejects, this`transactions, this`clock
      ensures clock >= old(clock)
      ensures !Faulted(old(clock)) ==>
                (Contents(), result) == LedgerSpec.ImportFile(old(Contents()), accountName, file, dryRun)
      ensures Faulted(old(clock)) ==> result in {Err(Database), Err(UnknownAccount)}
      ensures dryRun || (result.Ok? && result.value.duplicateFile) ==> Contents() == old(Contents())
      ensures result.Err? && result.error !in {Database, UnknownAccount} ==> !ChecksumTaken(old(imports), file.checksum)
      ensures result.Ok? && !result.value.duplicateFile ==>
                result.value.imported + result.value.skipped == |file.parse.value.rows|
      ensures Extends(old(imports), imports) && Extends(old(rejects), rejects)
      ensures Extends(old(transactions), transactions)
    {
      hide Failing, InsertRows, InsertAll, CountInserted, CountNew, RejectRows;
      var ok := RunStatement();
      var found := AccountNamed(accounts, accountName);
      if !ok || found.None? {
        return Err(UnknownAccount);
      }
      var account := found.value;
      ok := RunStatement();
      if !ok { return Err(Database); }
      if ChecksumTaken(imports, file.checksum) {
        return Ok(ImportResult(0, 0, 0, true, None));
      }
      if file.parse.Err? {
        return Err(file.parse.error);
      }
      var parsed := file.parse.value;
      if !dryRun && parsed.rows == [] {
        return Err(EmptyImport(|parsed.rejects|));
      }
      if dryRun {
        ghost var since := clock;
        var imported, skipped;
        ok, imported, skipped := Preview(account, parsed.rows);
        FailingSplits(fails, old(clock), since, clock);
        if !ok { return Err(Database); }
        return Ok(ImportResult(imported, skipped, |parsed.rejects|, false, None));
      }
      ghost var since := clock;
      result := WriteImport(account, file.filename, file.checksum, parsed);
      FailingSplits(fails, old(clock), since, clock);
    }

    /** The writes of an import: its row, its rejects, its transactions. */
    method WriteImport(account: Id, filename: string, checksum: string, parsed: ParseOutcome)
        returns (result: Result<ImportResult, LedgerError>)
      modifies this`imports, this`rejects, this`transactions, this`clock
      ensures clock >= old(clock)
      ensures !Faulted(old(clock)) ==>
                (Contents(), result) == RecordImport(old(Contents()), account, filename, checksum, parsed)
      ensures Faulted(old(clock)) ==> result == Err(Database)
      ensures Extends(old(imports), imports) && Extends(old(rejects), rejects)
      ensures Extends(old(transactions), transactions)
    {
      hide Failing, InsertRows, InsertAll, CountInserted, CountNew, RejectRows;
      var ok := RunStatement();
      if !ok { return Err(Database); }
      var id := NextRowId(imports.Keys);
      imports := imports[id := Import(filename, Some(account), |parsed.rows|, checksum, |parsed.rejects|)];
      ghost var since := clock;
      ok := RecordRejects(id, parsed.rejects);
      FailingSplits(fails, old(clock), since, clock);
      if !ok { return Err(Database); }
      since := clock;
      var imported, skipped;
      ok, imported, skipped := InsertParsed(account, id, parsed.rows);
      FailingSplits(fails, old(clock), since, clock);
      if !ok { return Err(Database); }
      result := Ok(ImportResult(imported, skipped, |parsed.rejects|, false, Some(id)));
    }

    /** The dry run's loop: each row against the table as it stands. */
    method Preview(account: Id, rows: seq<ParsedRow>) returns (ok: bool, imported: nat, skipped: nat)
      modifies this`clock
      ensures clock >= old(clock) && ok == !Faulted(old(clock))
      ensures ok ==> imported == CountNew(transactions, account, rows) && imported + skipped == |rows|
    {
      hide Failing;
      NoneFailing(fails, clock);
      imported, skipped := 0, 0;
      for i := 0 to |rows|
        invariant clock >= old(clock) && !Faulted(old(clock))
        invariant imported + skipped == i
        invariant imported == CountNew(transactions, account, rows[..i])
      {
        assert rows[..i + 1][..i] == rows[..i];
        ok := RunStatement();
        if !ok { return; }
        if IsDuplicateRow(transactions, account, rows[i]) {
          skipped := skipped + 1;
        } else {
          imported := imported + 1;
        }
      }
      assert rows[..|rows|] == rows;
      ok := true;
    }

    /** The import's loop: each row against the table it is itself filling. */
    method InsertParsed(account: Id, importId: Id, rows: seq<ParsedRow>)
        returns (ok: bool, imported: nat, skipped: nat)
      modifies this`transactions, this`clock
      ensures clock >= old(clock) && ok == !Faulted(old(clock))
      ensures ok ==>
                && transactions == InsertRows(old(transactions), account, importId, rows)
                && imported == CountInserted(old(transactions), account, importId, rows)
                && imported + skipped == |rows|
      ensures Extends(old(transactions), transactions)
    {
      hide Failing, InsertRows, CountInserted;
      NoneFailing(fails, clock);
      imported, skipped := 0, 0;
      NoRowsInserted(old(transactions), account, importId);
      for i := 0 to |rows|
        invariant clock >= old(clock) && !Faulted(old(clock))
        invariant imported + skipped == i
        invariant imported == CountInserted(old(transactions), account, importId, rows[..i])
        invariant transactions == InsertRows(old(transactions), account, importId, rows[..i])
      {
        NextRowInserted(old(transactions), account, importId, rows, i);
        InsertRowsExtends(old(transactions), account, importId, rows[..i]);
        ok := RunStatement();
        if !ok { return; }
        if IsDuplicateRow(transactions, account, rows[i]) {
          skipped := skipped + 1;
          continue;
        }
        ok := RunStatement();
        if !ok { return; }
        transactions := Insert(transactions, ImportedTxn(account, importId, rows[i]));
        imported := imported + 1;
      }
      assert rows[..|rows|] == rows;
      InsertRowsExtends(old(transactions), account, importId, rows);
      ok := true;
    }

    method RecordRejects(importId: Id, refused: seq<RejectedRow>) returns (ok: bool)
      modifies this`rejects, this`clock
      ensures clock >= old(clock) && ok == !Faulted(old(clock))
      ensures ok ==> rejects == InsertAll(old(rejects), RejectRows(importId, refused))
      ensures Extends(old(rejects), rejects)
    {
      hide Failing, InsertAll, Insert, Extends;
      NoneFailing(fails, clock);
      ghost var rows := RejectRows(importId, refused);
      NoneInserted(rejects, rows);
      for i := 0 to |refused|
        invariant clock >= old(clock) && !Faulted(old(clock))
        invariant rejects == InsertAll(old(rejects), rows[..i])
      {
        InsertAllExtends(old(rejects), rows[..i]);
        ok := RunStatement();
        if !ok { return; }
        NextInserted(old(rejects), rows, i);
        rejects := Insert(rejects, Reject(importId, refused[i].rowNumber, refused[i].content, refused[i].reason));
      }
      assert rows[..|refused|] == rows;
      InsertAllExtends(old(rejects), rows);
      ok := true;
    }

    /** Undo: the import's transactions and the import, its rejects by the cascade. */
    method DeleteImport(importId: Id) returns (result: Result<nat, LedgerError>)
      modifies this
      ensures clock >= old(clock)
      ensures if Faulted(old(clock)) then result == Err(Database) && Contents() == old(Contents())
              else && Contents() == LedgerSpec.DeleteImport(old(Contents()), importId)
                   && result == Ok(|TxnsFrom(old(Contents()), importId)|)
      ensures Sound(old(Contents())) ==> Sound(Contents())
    {
      hide Failing, Sound;
      if Sound(Contents()) {
        DeleteImportKeepsSound(Contents(), importId);
      }
      var before := Contents();
      var doomed := TxnsFrom(before, importId);
      var ok := RunStatement();
      if ok {
        transactions := DropTxnsFrom(transactions, importId);
        ok := RunStatement();
      }
      if ok {
        imports := imports - {importId};
        rejects := DropRejectsOf(rejects, importId);
      }
      ok := Finish(ok, before);
      result := if ok then Ok(|doomed|) else Err(Database);
    }

    // ----- categorization -----

    /** By itself not a transaction: a fault leaves exactly the writes that came before
        it, which is to say all but the two reads and the failed statement itself. */
    method CategorizeTransactions()
        returns (result: Result<Counts, LedgerError>, ghost order: seq<Id>, ghost pending: seq<Id>)
      modifies this`transactions, this`rules, this`clock
      ensures IsRuleOrder(old(rules), order) && IsPending(old(transactions), pending)
      ensures clock >= old(clock)
      ensures !Faulted(old(clock)) ==>
                && clock == old(clock) + 2 + 2 * |WinnersIn(engine, old(Contents()), order, pending)|
                && Contents() == Categorize(engine, old(Contents()), order)
                && result == Ok(CountsOf(engine, old(Contents()), order))
      ensures Faulted(old(clock)) ==>
                && result == Err(Database)
                && clock > old(clock) && fails(clock - 1) && !Failing(fails, old(clock), clock - 1)
                && var writes := clock - old(clock) - 3;
                   && writes < 2 * |WinnersIn(engine, old(Contents()), order, pending)|
                   && Contents() == if writes < 0 then old(Contents())
                                    else AfterWrites(engine, old(Contents()), order, pending, writes)
      ensures Contents() == old(Contents())
         <==> WinnersIn(engine, old(Contents()), order, pending) == [] || Failing(fails, old(clock), old(clock) + 3)
      ensures Sound(old(Contents())) ==> Sound(Contents())
    {
      hide Failing, Sound, IsRuleOrder, Categorize, IsPending, CountsOf, AfterWrites, WinnersIn;
      var known := rules;
      var sorted := ActiveRules();
      var ids := PendingTransactions();
      order, pending := sorted, ids;
      ghost var before := Contents();
      var ok := RunStatement();
      if ok { ok := RunStatement(); }
      if !ok {
        FailingSplits(fails, old(clock), clock, old(clock) + 3);
        return Err(Database), sorted, ids;
      }
      RuleOrderKnown(known, sorted);
      var categorized, stillFlagged;
      ghost var since := clock;
      ok, categorized, stillFlagged := CategorizeEach(sorted, known, ids);
      FailingSplits(fails, old(clock), since, clock);
      if !ok {
        FailingSplits(fails, old(clock), since, clock - 1);
        UnchangedWhen(engine, before, sorted, ids, fails, old(clock), clock, clock - old(clock) - 3);
        PartMayKeepSound(engine, before, sorted, ids, clock - old(clock) - 3);
        return Err(Database), sorted, ids;
      }
      CategorizeMayKeepSound(engine, before, sorted);
      AllWritten(engine, before, sorted, ids);
      UnchangedWhen(engine, before, sorted, ids, fails, old(clock), clock, clock - old(clock) - 2);
      result := Ok(Counts(categorized, stillFlagged));
    }

    /** The outer loop, over the transactions that were uncategorized at the start. */
    method CategorizeEach(sorted: seq<Id>, known: map<Id, Rule>, pending: seq<Id>)
        returns (ok: bool, categorized: nat, stillFlagged: nat)
      requires known == rules && forall k | 0 <= k < |sorted| :: sorted[k] in known
      requires IsPending(transactions, pending)
      modifies this`transactions, this`rules, this`clock
      ensures clock >= old(clock) && ok == !Faulted(old(clock))
      ensures !ok ==> clock > old(clock) && fails(clock - 1) && !Failing(fails, old(clock), clock - 1)
      ensures var winners := WinnersIn(engine, old(Contents()), sorted, pending);
              var writes := clock - old(clock) - if ok then 0 else 1;
              && (if ok then writes == 2 * |winners| else 0 <= writes < 2 * |winners|)
              && Contents() == AfterWrites(engine, old(Contents()), sorted, pending, writes)
              && (ok ==> categorized == |winners| && categorized + stillFlagged == |pending|)
    {
      hide CutShort, Winner, WinnersIn, IsPending, AfterWrites;
      ghost var before := Contents();
      ok, categorized, stillFlagged := true, 0, 0;
      NothingMet(engine, before, sorted, pending);
      for i := 0 to |pending|
        invariant clock == old(clock) + 2 * categorized && !Faulted(old(clock))
        invariant categorized == |WinnersIn(engine, before, sorted, pending[..i])|
        invariant Contents() == Written(engine, before, sorted, pending[..i])
        invariant categorized + stillFlagged == i
      {
        NextMet(engine, before, sorted, pending, i);
        ghost var since := clock;
        var matched;
        ghost var done := SetOf(WinnersIn(engine, before, sorted, pending[..i]));
        ok, matched := CategorizeOne(pending[i], sorted, known, before, done);
        if !ok {
          FailingSplits(fails, old(clock), since, clock - 1);
          FailedAt(engine, before, sorted, pending, i, clock - old(clock) - 1);
          return;
        }
        if matched {
          categorized := categorized + 1;
        } else {
          stillFlagged := stillFlagged + 1;
        }
      }
      assert pending[..|pending|] == pending;
      WholeIsWritten(engine, before, sorted, pending);
    }

    /** The inner loop: the first rule that matches files the transaction and takes a
        hit, two writes of which the second can fail after the first; no later rule is
        asked, and where none matches nothing is written. */
    method CategorizeOne(txn: Id, sorted: seq<Id>, known: map<Id, Rule>, ghost before: Db, ghost done: set<Id>)
        returns (ok: bool, matched: bool)
      requires known == before.rules && forall k | 0 <= k < |sorted| :: sorted[k] in known
      requires txn in Uncategorized(before.transactions) && txn !in done
      requires Contents() == PartlyCategorized(engine, before, sorted, done)
      modifies this`transactions, this`rules, this`clock
      ensures txn in before.transactions
      ensures matched ==> Winner(engine, known, sorted, before.transactions[txn]).Some?
      ensures ok && !matched ==> Winner(engine, known, sorted, before.transactions[txn]).None?
      ensures ok && !matched ==> clock == old(clock) && Contents() == old(Contents())
      ensures ok && matched ==>
                && clock == old(clock) + 2 && !fails(old(clock)) && !fails(old(clock) + 1)
                && Contents() == PartlyCategorized(engine, before, sorted, done + {txn})
      ensures !ok ==>
                && matched && old(clock) < clock <= old(clock) + 2
                && fails(clock - 1) && !Failing(fails, old(clock), clock - 1)
                && Contents() == if clock == old(clock) + 1 then old(Contents())
                                 else CutShort(engine, before, sorted, done + {txn}, done)
    {
      hide PartlyCategorized, CutShort, Winner, FirstMatch, Filed, Uncategorized;
      ok, matched := true, false;
      PendingWinner(engine, before, sorted, txn);
      PendingUntouched(engine, before, sorted, done, txn);
      var description := transactions[txn].description;
      for j := 0 to |sorted|
        invariant Contents() == old(Contents()) && clock == old(clock)
        invariant forall k | 0 <= k < j :: !RuleMatches(engine, known[sorted[k]], description)
      {
        var rule := known[sorted[j]];
        if engine.matches(description, rule.pattern, rule.matchType) {
          FirstMatchFound(engine, known, sorted, description, j);
          OneWins(engine, before, sorted, done, txn, sorted[j]);
          ok := RunStatement();
          if !ok { return false, true; }
          transactions := transactions[txn := Filed(transactions[txn], rule.category, rule.vendor)];
          ok := RunStatement();
          if !ok { return false, true; }
          rules := rules[sorted[j] := rules[sorted[j]].(hits := rules[sorted[j]].hits + 1)];
          return true, true;
        }
      }
      FirstMatchFound(engine, known, sorted, description, |sorted|);
    }

    /** One transaction: with no fault it does and reports what is specified, for some
        order the rules query allows; with one, or a refusal, the database is exactly as
        it was, so a failed import has not spent the file's checksum. */
    method ImportAndCategorize(accountName: string, file: Statement)
        returns (result: Result<ImportOutcome, LedgerError>, ghost order: seq<Id>)
      modifies this
      ensures IsRuleOrder(old(rules), order)
      ensures clock >= old(clock)
      ensures !Faulted(old(clock)) ==>
                (Contents(), result)
                  == LedgerSpec.ImportAndCategorize(engine, old(Contents()), accountName, file, order)
      ensures Faulted(old(clock)) ==> result in {Err(Database), Err(UnknownAccount)}
      ensures result.Err? ==> Contents() == old(Contents())
      ensures result.Err? && !ChecksumTaken(old(imports), file.checksum) ==> !ChecksumTaken(imports, file.checksum)
      ensures Sound(old(Contents())) ==> Sound(Contents())
    {
      hide Failing, Sound, IsRuleOrder, Categorize, AfterWrites, WinnersIn, CountsOf, IsPending, ChecksumTaken;
      hide LedgerSpec.ImportFile;
      var before := Contents();
      order := ActiveRules();
      var begun := RunStatement();
      if !begun { return Err(Database), order; }
      ghost var since := clock;
      var imported := ImportFile(accountName, file, false);
      FailingSplits(fails, old(clock), since, clock);
      if imported.Err? {
        Rollback(before);
        return Err(imported.error), order;
      }
      var counts := Ok(Counts(0, 0));
      if !imported.value.duplicateFile {
        since := clock;
        ghost var pending;
        counts, order, pending := CategorizeTransactions();
        FailingSplits(fails, old(clock), since, clock);
      }
      ImportMayKeepSound(engine, before, accountName, file, order);
      var committed := Finish(counts.Ok?, before);
      if !committed { return Err(Database), order; }
      result := Ok(ImportOutcome(imported.value, counts.value.categorized, counts.value.stillFlagged));
    }

    // ----- review -----

    /** One transaction: the filing and the rule it may create, or neither. */
    method ApplyReview(txn: Id, category: Id, vendor: Option<string>, createRule: bool, pattern: Option<string>)
        returns (result: Result<Option<Id>, LedgerError>)
      modifies this
      ensures clock >= old(clock)
      ensures if Faulted(old(clock)) then result == Err(Database) && Contents() == old(Contents())
              else (Contents(), result)
                     == LedgerSpec.ApplyReview(old(Contents()), txn, category, vendor, createRule, pattern)
      ensures Sound(old(Contents())) && Live(old(categories), category) ==> Sound(Contents())
    {
      hide Failing, Sound;
      if Live(categories, category) {
        ReviewMayKeepSound(Contents(), txn, category, vendor, createRule, pattern);
      }
      var before := Contents();
      var rule: Option<Id> := None;
      var ok := RunStatement();
      if ok { ok := RunStatement(); }
      if ok && txn in transactions && category !in categories { return Err(Database); }
      if ok && createRule && pattern.Some? {
        ok := RunStatement();
        if ok && category !in categories { return Err(Database); }
        rule := Some(NextRowId(rules.Keys));
        rules := Insert(rules, NewContainsRule(pattern.value, vendor, category));
      }
      transactions := FileTxn(transactions, txn, category, vendor);
      ok := Finish(ok, before);
      result := if ok then Ok(rule) else Err(Database);
    }

    method UndoReview(txn: Id, rule: Option<Id>) returns (result: Result<(), LedgerError>)
      modifies this
      ensures clock >= old(clock)
      ensures if Faulted(old(clock)) then result == Err(Database) && Contents() == old(Contents())
              else result == Ok(()) && Contents() == LedgerSpec.UndoReview(old(Contents()), txn, rule)
      ensures Sound(old(Contents())) ==> Sound(Contents())
    {
      hide Failing, Reopened, Sound;
      UndoMayKeepSound(Contents(), txn, rule);
      var before := Contents();
      var ok := RunStatement();
      if ok { ok := RunStatement(); }
      if ok && txn in transactions {
        transactions := transactions[txn := Reopened(transactions[txn])];
      }
      if ok && rule.Some? {
        ok := RunStatement();
        if ok { rules := rules - {rule.value}; }
      }
      ok := Finish(ok, before);
      result := if ok then Ok(()) else Err(Database);
    }

    /** A register edit: the category moves and the flag stays. A category that names no
        row is refused, as no transaction may point at it. */
    method UpdateTransactionCategory(txn: Id, category: Id) returns (result: Result<(), LedgerError>)
      modifies this`transactions, this`clock
      ensures clock >= old(clock)
      ensures result.Ok? <==> !Faulted(old(clock)) && (txn in old(transactions) ==> category in categories)
      ensures result.Err? ==> result == Err(Database) && Contents() == old(Contents())
      ensures result.Ok? ==>
                transactions == if txn in old(transactions)
                                then old(transactions)[txn := old(transactions)[txn].(category := Some(category))]
                                else old(transactions)
      ensures Sound(old(Contents())) && Live(categories, category) ==> Sound(Contents())
    {
      hide Failing, Sound;
      if Sound(Contents()) {
        EditKeepsSound(Contents(), txn, category, true);
      }
      var ok := RunStatement();
      if !ok || (txn in transactions && category !in categories) { return Err(Database); }
      if txn in transactions {
        transactions := transactions[txn := transactions[txn].(category := Some(category))];
      }
      result := Ok(());
    }

    method SetFlag(txn: Id, flagged: bool) returns (result: Result<(), LedgerError>)
      modifies this`transactions, this`clock
      ensures clock >= old(clock)
      ensures if Faulted(old(clock)) then result == Err(Database) && Contents() == old(Contents())
              else (Contents(), result) == LedgerSpec.SetFlag(old(Contents()), txn, flagged)
      ensures Sound(old(Contents())) ==> Sound(Contents())
      ensures result.Ok? ==> txn in transactions && transactions[txn].flagged == flagged
      ensures UncategorizedFlagged(old(transactions)) && (flagged || txn !in Uncategorized(old(transactions))) ==>
                UncategorizedFlagged(transactions)
    {
      hide Failing, Sound;
      if Sound(Contents()) {
        EditKeepsSound(Contents(), txn, 0, flagged);
      }
      var ok := RunStatement();
      if !ok { return Err(Database); }
      if txn !in transactions { return Err(NotFound); }
      transactions := transactions[txn := transactions[txn].(flagged := flagged)];
      result := Ok(());
    }

    /** One statement per id, all in one transaction. */
    method Recategorize(ids: seq<Id>, category: Id) returns (result: Result<nat, LedgerError>)
      modifies this
      ensures clock >= old(clock)
      ensures if Faulted(old(clock)) then result == Err(Database) && Contents() == old(Contents())
              else (Contents(), result) == LedgerSpec.Recategorize(old(Contents()), ids, category)
      ensures Sound(old(Contents())) && Live(old(categories), category) ==> Sound(Contents())
    {
      hide Failing, Sound, Live, Moved;
      if Live(categories, category) {
        RecategorizeMayKeepSound(Contents(), ids, category);
      }
      var before := Contents();
      var ok := RunStatement();
      if !ok { return Err(Database); }
      var updated := 0;
      MovedNone(before.transactions, category);
      for i := 0 to |ids|
        invariant clock > old(clock) && !Faulted(old(clock))
        invariant Contents() == before.(transactions := Moved(before.transactions, ids[..i], category))
        invariant updated == CountPresent(before.transactions.Keys, ids[..i])
        invariant category !in categories ==> forall k | 0 <= k < i :: ids[k] !in before.transactions
      {
        assert ids[..i + 1][..i] == ids[..i];
        MovedOneMore(before.transactions, ids, i, category);
        ok := RunStatement();
        if !ok || (ids[i] in transactions && category !in categories) {
          Rollback(before);
          return Err(Database);
        }
        if ids[i] in transactions {
          transactions := transactions[ids[i] := transactions[ids[i]].(category := Some(category), flagged := false,
                                                                       flagReason := None)];
          updated := updated + 1;
        }
      }
      assert ids[..|ids|] == ids;
      ok := Finish(true, before);
      result := if ok then Ok(updated) else Err(Database);
    }

    // ----- rules, categories, accounts -----

    method AddRule(pattern: string, matchType: string, vendor: Option<string>, category: Id, priority: int)
        returns (result: Result<Id, LedgerError>)
      modifies this`rules, this`clock
      ensures clock >= old(clock)
      ensures if Faulted(old(clock)) then result == Err(Database) && Contents() == old(Contents())
              else (Contents(), result)
                     == LedgerSpec.AddRule(engine, old(Contents()), pattern, matchType, vendor, category, priority)
      ensures Sound(old(Contents())) ==> Sound(Contents())
      ensures result.Ok? ==>
                && result.value !in old(rules) && Live(categories, category)
                && rules == old(rules)[result.value := Rule(pattern, matchType, vendor, category, priority, 0, true)]
    {
      hide Failing, Sound;
      NoneFailing(fails, clock);
      if Sound(Contents()) {
        AddRuleKeepsSound(engine, Contents(), pattern, matchType, vendor, category, priority);
      }
      if Trim(pattern) == "" || !ValidMatchType(engine, matchType, pattern) { return Err(Invalid); }
      var ok := RunStatement();
      if !ok { return Err(Database); }
      if !Live(categories, category) { return Err(NotFound); }
      ok := RunStatement();
      if !ok { return Err(Database); }
      var id := NextRowId(rules.Keys);
      rules := Insert(rules, Rule(pattern, matchType, vendor, category, priority, 0, true));
      result := Ok(id);
    }

    /** Each field that is given is set; the others are left alone. */
    method UpdateRule(id: Id, update: RuleUpdate) returns (result: Result<(), LedgerError>)
      modifies this`rules, this`clock
      ensures clock >= old(clock)
      ensures if Faulted(old(clock)) then result == Err(Database) && Contents() == old(Contents())
              else (Contents(), result) == LedgerSpec.UpdateRule(engine, old(Contents()), id, update)
      ensures Sound(old(Contents())) ==> Sound(Contents())
    {
      hide Failing, Sound, Updated, UpdateRefusal;
      UpdateRuleMayKeepSound(engine, Contents(), id, update);
      var ok := RunStatement();
      if !ok { return Err(Database); }
      if id !in rules || rules[id].category !in categories { return Err(NotFound); }
      ghost var since := clock;
      var refusal;
      ok, refusal := CheckUpdate(rules[id], update);
      FailingSplits(fails, old(clock), since, clock);
      if !ok { return Err(Database); }
      if refusal.Some? { return Err(refusal.value); }
      ok := RunStatement();
      if !ok { return Err(Database); }
      var rule := SetFields(rules[id], update);
      rules := rules[id := rule];
      result := Ok(());
    }

    /** The pattern is looked at again only if it or the match type is given. */
    method CheckUpdate(current: Rule, update: RuleUpdate) returns (ok: bool, refusal: Option<LedgerError>)
      modifies this`clock
      ensures Contents() == old(Contents())
      ensures clock >= old(clock) && ok == !Faulted(old(clock))
      ensures ok ==> refusal == UpdateRefusal(engine, categories, current, update)
    {
      hide Failing, Live, ValidMatchType;
      refusal := None;
      ok := RunStatement();
      if !ok { return; }
      if !current.active { return true, Some(AlreadyInactive); }
      if update == RuleUpdate(None, None, None, None, None) { return true, Some(Invalid); }
      if update.pattern.Some? || update.matchType.Some? {
        if !ValidMatchType(engine, OrElse(update.matchType, current.matchType),
                           OrElse(update.pattern, current.pattern)) { return true, Some(Invalid); }
      }
      if update.category.Some? {
        ok := RunStatement();
        if ok && !Live(categories, update.category.value) { refusal := Some(NotFound); }
      }
    }

    static method SetFields(current: Rule, update: RuleUpdate) returns (rule: Rule)
      ensures rule == Updated(current, update)
    {
      rule := current;
      if update.pattern.Some? { rule := rule.(pattern := update.pattern.value); }
      if update.matchType.Some? { rule := rule.(matchType := update.matchType.value); }
      if update.vendor.Some? { rule := rule.(vendor := update.vendor.value); }
      if update.category.Some? { rule := rule.(category := update.category.value); }
      if update.priority.Some? { rule := rule.(priority := update.priority.value); }
    }

    method DeactivateRule(id: Id) returns (result: Result<(), LedgerError>)
      modifies this`rules, this`clock
      ensures clock >= old(clock)
      ensures if Faulted(old(clock)) then result == Err(Database) && Contents() == old(Contents())
              else (Contents(), result) == LedgerSpec.DeactivateRule(old(Contents()), id)
      ensures Sound(old(Contents())) ==> Sound(Contents())
      ensures result.Ok? ==> forall order | IsRuleOrder(rules, order) :: id !in order
      ensures rules - {id} == old(rules) - {id} && rules.Keys == old(rules).Keys
    {
      hide Failing, Sound;
      if Sound(Contents()) {
        DeactivateRuleKeepsSound(Contents(), id);
      }
      var ok := RunStatement();
      if !ok { return Err(Database); }
      if id !in rules { return Err(NotFound); }
      if !rules[id].active { return Err(AlreadyInactive); }
      ok := RunStatement();
      if !ok { return Err(Database); }
      rules := rules[id := rules[id].(active := false)];
      result := Ok(());
    }

    method AddCategory(name: string, kind: string) returns (result: Result<Id, LedgerError>)
      modifies this`categories, this`clock
      ensures clock >= old(clock)
      ensures if Faulted(old(clock)) then result == Err(Database) && Contents() == old(Contents())
              else (Contents(), result) == LedgerSpec.AddCategory(old(Contents()), name, kind)
      ensures Sound(old(Contents())) ==> Sound(Contents())
      ensures result.Ok? ==>
                && result.value !in old(categories)
                && categories == old(categories)[result.value := Category(name, kind, true)]
                && forall c | Live(categories, c) && categories[c].name == name :: c == result.value
    {
      hide Failing, Sound;
      NoneFailing(fails, clock);
      if Sound(Contents()) {
        AddCategoryKeepsSound(Contents(), name, kind);
      }
      if !ValidCategoryFields(name, kind) { return Err(Invalid); }
      var ok := RunStatement();
      if !ok { return Err(Database); }
      if NameTaken(categories, name, None) { return Err(DuplicateName); }
      ok := RunStatement();
      if !ok { return Err(Database); }
      var id := NextRowId(categories.Keys);
      categories := Insert(categories, Category(name, kind, true));
      result := Ok(id);
    }

    method UpdateCategory(id: Id, name: string, kind: string) returns (result: Result<(), LedgerError>)
      modifies this`categories, this`clock
      ensures clock >= old(clock)
      ensures if Faulted(old(clock)) then result == Err(Database) && Contents() == old(Contents())
              else (Contents(), result) == LedgerSpec.UpdateCategory(old(Contents()), id, name, kind)
      ensures Sound(old(Contents())) ==> Sound(Contents())
      ensures result.Ok? ==>
                && Live(old(categories), id) && categories == old(categories)[id := Category(name, kind, true)]
                && forall c | Live(categories, c) && categories[c].name == name :: c == id
    {
      hide Failing, Sound;
      NoneFailing(fails, clock);
      if Sound(Contents()) {
        UpdateCategoryKeepsSound(Contents(), id, name, kind);
      }
      if !ValidCategoryFields(name, kind) { return Err(Invalid); }
      var ok := RunStatement();
      if !ok { return Err(Database); }
      if NameTaken(categories, name, Some(id)) { return Err(DuplicateName); }
      ok := RunStatement();
      if !ok { return Err(Database); }
      if !Live(categories, id) { return Err(NotFound); }
      categories := categories[id := Category(name, kind, true)];
      result := Ok(());
    }

    /** A soft delete, refused while anything in use points at the category. */
    method DeleteCategory(id: Id) returns (result: Result<(), LedgerError>)
      modifies this`categories, this`clock
      ensures clock >= old(clock)
      ensures if Faulted(old(clock)) then result == Err(Database) && Contents() == old(Contents())
              else (Contents(), result) == LedgerSpec.DeleteCategory(old(Contents()), id)
      ensures Sound(old(Contents())) ==> Sound(Contents())
      ensures result.Ok? ==>
                && Live(old(categories), id) && !Live(categories, id)
                && categories - {id} == old(categories) - {id}
                && (forall t | t in transactions :: transactions[t].category != Some(id))
                && forall r | r in rules && rules[r].active :: rules[r].category != id
    {
      hide Failing, Sound;
      if Sound(Contents()) {
        DeleteCategoryKeepsSound(Contents(), id);
      }
      var txns, active := |TxnsIn(Contents(), id)|, |ActiveRulesIn(Contents(), id)|;
      var ok := RunStatement();
      if ok { ok := RunStatement(); }
      if !ok { return Err(Database); }
      if txns > 0 { return Err(Blocked(ByTransactions, txns)); }
      if active > 0 { return Err(Blocked(ByActiveRules, active)); }
      UnusedCategory(Contents(), id);
      ok := RunStatement();
      if !ok { return Err(Database); }
      if !Live(categories, id) { return Err(NotFound); }
      categories := categories[id := categories[id].(active := false)];
      result := Ok(());
    }

    method AddAccount(name: string, kind: string) returns (result: Result<Id, LedgerError>)
      modifies this`accounts, this`clock
      ensures clock >= old(clock)
      ensures if Faulted(old(clock)) then result == Err(Database) && Contents() == old(Contents())
              else (Contents(), result) == LedgerSpec.AddAccount(old(Contents()), name, kind)
      ensures Sound(old(Contents())) ==> Sound(Contents())
      ensures result.Ok? ==>
                && result.value !in old(accounts) && accounts == old(accounts)[result.value := Account(name, kind)]
                && AccountNamed(accounts, name) == Some(result.value)
    {
      hide Failing, Sound;
      NoneFailing(fails, clock);
      if Sound(Contents()) {
        AddAccountKeepsSound(Contents(), name, kind);
      }
      if Trim(name) == "" || kind !in ACCOUNT_TYPES { return Err(Invalid); }
      var ok := RunStatement();
      if !ok { return Err(Database); }
      if AccountNamed(accounts, name).Some? { return Err(DuplicateName); }
      ok := RunStatement();
      if !ok { return Err(Database); }
      var id := NextRowId(accounts.Keys);
      OneOfTheName(accounts, name, id, Account(name, kind));
      accounts := Insert(accounts, Account(name, kind));
      result := Ok(id);
    }

    /** The blocker check and three writes in one transaction. */
    method DeleteAccount(id: Id) returns (result: Result<(), LedgerError>)
      modifies this
      ensures clock >= old(clock)
      ensures if Faulted(old(clock)) then result == Err(Database) && Contents() == old(Contents())
              else (Contents(), result) == LedgerSpec.DeleteAccount(old(Contents()), id)
      ensures Sound(old(Contents())) ==> Sound(Contents())
    {
      hide Failing, Sound, TxnsOf, DropReconciliationsOf, Unlinked;
      DeleteAccountMayKeepSound(Contents(), id);
      var before := Contents();
      var txns := |TxnsOf(before, id)|;
      var ok := RunStatement();
      if ok { ok := RunStatement(); }
      if ok && txns > 0 { return Err(Blocked(ByTransactions, txns)); }
      if ok { ok := RunStatement(); }
      if ok {
        reconciliations := DropReconciliationsOf(reconciliations, id);
        ok := RunStatement();
      }
      if ok {
        imports := Unlinked(imports, id);
        ok := RunStatement();
      }
      if ok && id !in accounts {
        Rollback(before);
        return Err(NotFound);
      }
      if ok { accounts := accounts - {id}; }
      ok := Finish(ok, before);
      result := if ok then Ok(()) else Err(Database);
    }

    // ----- reconciliation -----

    method Sum(ids: set<Id>) returns (total: int)
      requires ids <= transactions.Keys
      ensures total == SumOf(transactions, ids)
    {
      total := 0;
      var left := ids;
      while left != {}
        invariant left <= ids
        invariant total + SumOf(transactions, left) == SumOf(transactions, ids)
        decreases |left|
      {
        ghost var some := Pick(left);
        var id :| id in left;
        SumOfRemove(transactions, left, id);
        total := total + transactions[id].amount;
        left := left - {id};
      }
    }

    method Reconcile(accountName: string, month: string, statement: int)
        returns (result: Result<ReconcileResult, LedgerError>)
      modifies this`reconciliations, this`clock
      ensures clock >= old(clock)
      ensures if Faulted(old(clock))
              then && result == Err(if fails(old(clock)) then UnknownAccount else Database)
                   && Contents() == old(Contents())
              else (Contents(), result) == LedgerSpec.Reconcile(old(Contents()), accountName, month, statement)
      ensures Sound(old(Contents())) ==> Sound(Contents())
    {
      hide Failing, Sound;
      if Sound(Contents()) {
        ReconcileKeepsSound(Contents(), accountName, month, statement);
      }
      var account := AccountNamed(accounts, accountName);
      var ok := RunStatement();
      if !ok || account.None? { return Err(UnknownAccount); }
      ok := RunStatement();
      if !ok { return Err(Database); }
      if InMonth(Contents(), account.value, month) == {} { return Err(NoTransactions); }
      ok := RunStatement();
      if !ok { return Err(Database); }
      var calculated := Sum(UpToMonth(Contents(), account.value, month));
      var discrepancy := Abs(calculated - statement);
      ok := RunStatement();
      if !ok { return Err(Database); }
      reconciliations := Insert(reconciliations,
        Reconciliation(account.value, month, statement, calculated, discrepancy < 1));
      result := Ok(ReconcileResult(discrepancy < 1, statement, calculated, discrepancy));
    }
  }

  lemma OneOfTheName(accounts: map<Id, Account>, name: string, id: Id, account: Account)
    requires AccountNamed(accounts, name).None? && account.name == name
    ensures AccountNamed(accounts[id := account], name) == Some(id)
  {
    hide AccountNamed;
    var grown := accounts[id := account];
    var found := AccountNamed(grown, name);
    assert grown[id].name == name;
    assert forall other | other in grown && other != id :: other in accounts && grown[other] == accounts[other];
  }

  lemma UnusedCategory(db: Db, id: Id)
    requires |TxnsIn(db, id)| == 0 && |ActiveRulesIn(db, id)| == 0
    ensures forall t | t in db.transactions :: db.transactions[t].category != Some(id)
    ensures forall r | r in db.rules && db.rules[r].active :: db.rules[r].category != id
  {
    NoneCounted(TxnsIn(db, id));
    NoneCounted(ActiveRulesIn(db, id));
    forall t | t in db.transactions ensures db.transactions[t].category != Some(id) {
      assert t !in TxnsIn(db, id);
    }
    forall r | r in db.rules && db.rules[r].active ensures db.rules[r].category != id {
      assert r !in ActiveRulesIn(db, id);
    }
  }

  lemma MovedNone(txns: map<Id, Txn>, category: Id)
    ensures Moved(txns, [], category) == txns
  {
  }

  lemma MovedOneMore(txns: map<Id, Txn>, ids: seq<Id>, i: nat, category: Id)
    requires i < |ids|
    ensures var before := Moved(txns, ids[..i], category);
            Moved(txns, ids[..i + 1], category)
              == if ids[i] in txns
                 then before[ids[i] := before[ids[i]].(category := Some(category), flagged := false,
                                                       flagReason := None)]
                 else before
    ensures Moved(txns, ids[..i], category).Keys == txns.Keys
  {
    assert ids[..i + 1] == ids[..i] + [ids[i]];
  }

  lemma {:induction false} TopPriorityExists(rules: map<Id, Rule>, ids: set<Id>)
    requires ids != {} && forall r | r in ids :: r in rules
    ensures exists top :: top in ids && forall r | r in ids :: rules[r].priority <= rules[top].priority
  {
    var x := Pick(ids);
    var rest := ids - {x};
    if rest != {} {
      TopPriorityExists(rules, rest);
      var y :| y in rest && forall r | r in rest :: rules[r].priority <= rules[y].priority;
      var top := if rules[y].priority < rules[x].priority then x else y;
      forall r | r in ids ensures rules[r].priority <= rules[top].priority {
        assert r == x || r in rest;
      }
    } else {
      forall r | r in ids ensures r == x {
        assert r != x ==> r in rest;
      }
    }
  }
}
