/**
 The data layer in use: what the application's callers check before they call, and
 whole runs of it in which anything may fail at any statement.
 */
module LedgerSession {
  import opened Outcomes
  import opened Tables
  import opened LedgerSpec
  import opened Invariants
  import opened LedgerRuns
  import opened CategorizeLoop
  import opened LedgerMachine
  import opened TextOps

  /** The same call with the same arguments; what SQLite answered and how far a failing
      categorizer came are not the caller's. */
  predicate SameCall(op: Op, taken: Op) {
    if op.OpCategorize? || op.OpCategorizeFails? then taken.OpCategorize? || taken.OpCategorizeFails?
    else if op.OpImport? then taken.OpImport? && taken.accountName == op.accountName && taken.file == op.file
    else taken == op
  }

  predicate Asked(op: Op, taken: Option<Op>) {
    taken.Some? ==> SameCall(op, taken.value)
  }

  function Applied(e: Engine, db: Db, taken: Option<Op>): Db {
    match taken
    case None => db
    case Some(op) => Apply(e, db, op)
  }

  /** What one call has done. With no fault it was the specified operation; with one
      it was nothing, or, if it was the categorizer run by itself, a part of that. */
  ghost predicate Performed(e: Engine, before: Db, op: Op, taken: Option<Op>, faulted: bool, after: Db) {
    && after == Applied(e, before, taken) && Asked(op, taken)
    && if faulted then taken.Some? ==> taken.value.OpCategorizeFails?
       else taken.Some? && !taken.value.OpCategorizeFails?
  }

  /** Accounts, categories and reconciliations. */
  method PerformOnTables(ledger: Ledger, op: Op) returns (ghost taken: Option<Op>)
    requires op.OpAddAccount? || op.OpDeleteAccount? || op.OpReconcile?
          || op.OpAddCategory? || op.OpUpdateCategory? || op.OpDeleteCategory?
    modifies ledger
    ensures ledger.clock >= old(ledger.clock)
    ensures Performed(ledger.engine, old(ledger.Contents()), op, taken, ledger.Faulted(old(ledger.clock)),
                      ledger.Contents())
  {
    hide AddAccount, DeleteAccount, Reconcile, AddCategory, UpdateCategory, DeleteCategory, Sound, Live, AccountNamed;
    hide Failing;
    match op {
      case OpAddAccount(name, kind) =>
        var r := ledger.AddAccount(name, kind);
      case OpDeleteAccount(id) =>
        var r := ledger.DeleteAccount(id);
      case OpReconcile(accountName, month, statement) =>
        var r := ledger.Reconcile(accountName, month, statement);
      case OpAddCategory(name, kind) =>
        var r := ledger.AddCategory(name, kind);
      case OpUpdateCategory(id, name, kind) =>
        var r := ledger.UpdateCategory(id, name, kind);
      case OpDeleteCategory(id) =>
        var r := ledger.DeleteCategory(id);
    }
    taken := if ledger.Faulted(old(ledger.clock)) then None else Some(op);
  }

  method PerformOnRules(ledger: Ledger, op: Op) returns (ghost taken: Option<Op>)
    requires op.OpAddRule? || op.OpUpdateRule? || op.OpDeactivateRule?
    modifies ledger
    ensures ledger.clock >= old(ledger.clock)
    ensures Performed(ledger.engine, old(ledger.Contents()), op, taken, ledger.Faulted(old(ledger.clock)),
                      ledger.Contents())
  {
    hide AddRule, UpdateRule, DeactivateRule, Sound, Live, IsRuleOrder, Failing;
    match op {
      case OpAddRule(pattern, matchType, vendor, category, priority) =>
        var r := ledger.AddRule(pattern, matchType, vendor, category, priority);
      case OpUpdateRule(id, update) =>
        var r := ledger.UpdateRule(id, update);
      case OpDeactivateRule(id) =>
        var r := ledger.DeactivateRule(id);
    }
    taken := if ledger.Faulted(old(ledger.clock)) then None else Some(op);
  }

  method PerformOnImports(ledger: Ledger, op: Op) returns (ghost taken: Option<Op>)
    requires op.OpImport? || op.OpDeleteImport?
    modifies ledger
    ensures ledger.clock >= old(ledger.clock)
    ensures Performed(ledger.engine, old(ledger.Contents()), op, taken, ledger.Faulted(old(ledger.clock)),
                      ledger.Contents())
  {
    hide ImportAndCategorize, DeleteImport, Sound, IsRuleOrder, Failing;
    ghost var done := op;
    match op {
      case OpImport(accountName, file, _) =>
        var r, order := ledger.ImportAndCategorize(accountName, file);
        done := OpImport(accountName, file, order);
      case OpDeleteImport(id) =>
        var r := ledger.DeleteImport(id);
    }
    taken := if ledger.Faulted(old(ledger.clock)) then None else Some(done);
  }

  /** The categorizer run by itself, outside any transaction. */
  method PerformCategorize(ledger: Ledger, op: Op) returns (ghost taken: Option<Op>)
    requires op.OpCategorize? || op.OpCategorizeFails?
    modifies ledger
    ensures ledger.clock >= old(ledger.clock)
    ensures Performed(ledger.engine, old(ledger.Contents()), op, taken, ledger.Faulted(old(ledger.clock)),
                      ledger.Contents())
  {
    hide Categorize, CutShort, Sound, IsRuleOrder, IsPending, WinnersIn, Failing;
    var start := ledger.clock;
    ghost var before := ledger.Contents();
    var r, order, pending := ledger.CategorizeTransactions();
    if !ledger.Faulted(start) {
      taken := Some(OpCategorize(order));
    } else if ledger.clock < start + 3 {
      taken := None;
    } else {
      ghost var winners := WinnersIn(ledger.engine, before, order, pending);
      ghost var writes := ledger.clock - start - 3;
      taken := Some(OpCategorizeFails(order, SetOf(winners[..(writes + 1) / 2]), SetOf(winners[..writes / 2])));
    }
  }

  /** The review screen and its undo: both look the transaction up first, and a
      review its category. */
  method PerformReview(ledger: Ledger, op: Op) returns (ghost taken: Option<Op>)
    requires op.OpReview? || op.OpUndoReview?
    modifies ledger
    ensures ledger.clock >= old(ledger.clock)
    ensures Performed(ledger.engine, old(ledger.Contents()), op, taken, ledger.Faulted(old(ledger.clock)),
                      ledger.Contents())
  {
    hide ApplyReview, UndoReview, Sound, Live, Trim;
    taken := None;
    match op {
      case OpReview(txn, category, vendor, createRule, pattern) =>
        if createRule && Trim(OrElse(pattern, "")) == "" { return Some(op); }
        var ok := ledger.RunStatement();
        if !ok { return; }
        if txn !in ledger.transactions { return Some(op); }
        ok := ledger.RunStatement();
        if !ok { return; }
        if !Live(ledger.categories, category) { return Some(op); }
        var r := ledger.ApplyReview(txn, category, vendor, createRule, pattern);
      case OpUndoReview(txn, rule) =>
        var ok := ledger.RunStatement();
        if !ok { return; }
        if txn !in ledger.transactions { return Some(op); }
        var r := ledger.UndoReview(txn, rule);
    }
    taken := if ledger.Faulted(old(ledger.clock)) then None else Some(op);
  }

  /** The bulk move, which looks the category up first. */
  method PerformRecategorize(ledger: Ledger, op: Op) returns (ghost taken: Option<Op>)
    requires op.OpRecategorize?
    modifies ledger
    ensures ledger.clock >= old(ledger.clock)
    ensures Performed(ledger.engine, old(ledger.Contents()), op, taken, ledger.Faulted(old(ledger.clock)),
                      ledger.Contents())
  {
    hide Recategorize, Sound, Live;
    var ok := ledger.RunStatement();
    if !ok { return None; }
    if !Live(ledger.categories, op.category) { return Some(op); }
    var r := ledger.Recategorize(op.ids, op.category);
    taken := if ledger.Faulted(old(ledger.clock)) then None else Some(op);
  }

  /** The register, where an edit looks both its transaction and its category up first. */
  method PerformEdit(ledger: Ledger, op: Op) returns (ghost taken: Option<Op>)
    requires op.OpEdit? || op.OpSetFlag?
    modifies ledger
    ensures ledger.clock >= old(ledger.clock)
    ensures Performed(ledger.engine, old(ledger.Contents()), op, taken, ledger.Faulted(old(ledger.clock)),
                      ledger.Contents())
  {
    hide SetFlag, Sound, Live;
    taken := None;
    match op {
      case OpEdit(txn, category) =>
        var ok := ledger.RunStatement();
        if !ok { return; }
        if txn !in ledger.transactions { return Some(op); }
        ok := ledger.RunStatement();
        if !ok { return; }
        if !Live(ledger.categories, category) { return Some(op); }
        LiveIsThere(ledger.categories, category);
        var r := ledger.UpdateTransactionCategory(txn, category);
      case OpSetFlag(txn, flagged) =>
        var r := ledger.SetFlag(txn, flagged);
    }
    taken := if ledger.Faulted(old(ledger.clock)) then None else Some(op);
  }

  lemma LiveIsThere(categories: map<Id, Category>, id: Id)
    requires Live(categories, id)
    ensures id in categories
  {
  }

  method Perform(ledger: Ledger, op: Op) returns (ghost taken: Option<Op>)
    modifies ledger
    ensures ledger.clock >= old(ledger.clock)
    ensures Performed(ledger.engine, old(ledger.Contents()), op, taken, ledger.Faulted(old(ledger.clock)),
                      ledger.Contents())
  {
    hide Performed, Failing;
    match op {
      case OpAddRule(_, _, _, _, _) => taken := PerformOnRules(ledger, op);
      case OpUpdateRule(_, _) => taken := PerformOnRules(ledger, op);
      case OpDeactivateRule(_) => taken := PerformOnRules(ledger, op);
      case OpImport(_, _, _) => taken := PerformOnImports(ledger, op);
      case OpDeleteImport(_) => taken := PerformOnImports(ledger, op);
      case OpCategorize(_) => taken := PerformCategorize(ledger, op);
      case OpCategorizeFails(_, _, _) => taken := PerformCategorize(ledger, op);
      case OpReview(_, _, _, _, _) => taken := PerformReview(ledger, op);
      case OpUndoReview(_, _) => taken := PerformReview(ledger, op);
      case OpRecategorize(_, _) => taken := PerformRecategorize(ledger, op);
      case OpEdit(_, _) => taken := PerformEdit(ledger, op);
      case OpSetFlag(_, _) => taken := PerformEdit(ledger, op);
      case _ => taken := PerformOnTables(ledger, op);
    }
  }

  predicate Unflags(op: Op) {
    op.OpSetFlag? && !op.flagged
  }

  predicate NoneUnflags(ops: seq<Op>) {
    forall i | 0 <= i < |ops| :: !Unflags(ops[i])
  }

  /** Every call done, as asked and whole. */
  ghost predicate AllTaken(ops: seq<Op>, trace: seq<Op>) {
    && |trace| == |ops|
    && forall i | 0 <= i < |ops| :: SameCall(ops[i], trace[i]) && !trace[i].OpCategorizeFails?
  }

  /** Any calls in any order, anything failing at any statement: what the ledger goes
      through is a run of operations, so everything proved of runs holds of it; and if
      nothing fails, it is the run that was asked for. */
  method Play(ledger: Ledger, ops: seq<Op>) returns (ghost trace: seq<Op>)
    modifies ledger
    ensures ledger.Contents() == Run(ledger.engine, old(ledger.Contents()), trace)
    ensures ledger.clock >= old(ledger.clock)
    ensures !ledger.Faulted(old(ledger.clock)) ==> AllTaken(ops, trace)
    ensures Sound(old(ledger.Contents())) ==> Sound(ledger.Contents())
    ensures NoneUnflags(ops) && UncategorizedFlagged(old(ledger.transactions)) ==>
              UncategorizedFlagged(ledger.transactions)
  {
    hide Apply, Sound, UncategorizedFlagged, SameCall, NoneUnflags, Run, Applied, Failing, AllTaken;
    var first := ledger.clock;
    ghost var start := ledger.Contents();
    trace := [];
    NothingRun(ledger.engine, start);
    for i := 0 to |ops|
      invariant ledger.Contents() == Run(ledger.engine, start, trace)
      invariant NoneUnflags(ops[..i]) ==> NoneUnflags(trace)
      invariant ledger.clock >= first
      invariant !Failing(ledger.fails, first, ledger.clock) ==> AllTaken(ops[..i], trace)
    {
      var since := ledger.clock;
      ghost var taken := Perform(ledger, ops[i]);
      FailingSplits(ledger.fails, first, since, ledger.clock);
      if !Failing(ledger.fails, first, ledger.clock) {
        OneMoreTaken(ops, i, trace, taken);
      }
      OneMoreCall(ledger.engine, start, trace, ops, i, taken);
      if taken.Some? {
        trace := trace + [taken.value];
      }
    }
    assert ops[..|ops|] == ops;
    RunMayKeep(ledger.engine, start, trace);
  }

  lemma OneMoreTaken(ops: seq<Op>, i: nat, trace: seq<Op>, taken: Option<Op>)
    requires i < |ops|
    requires AllTaken(ops[..i], trace)
    requires taken.Some? && SameCall(ops[i], taken.value) && !taken.value.OpCategorizeFails?
    ensures AllTaken(ops[..i + 1], trace + [taken.value])
  {
    hide SameCall;
  }

  lemma NothingRun(e: Engine, db: Db)
    ensures Run(e, db, []) == db && NoneUnflags([]) && AllTaken([], [])
  {
  }

  lemma OneMoreCall(e: Engine, start: Db, trace: seq<Op>, ops: seq<Op>, i: nat, taken: Option<Op>)
    requires i < |ops| && Asked(ops[i], taken)
    ensures NoneUnflags(ops[..i + 1]) ==> NoneUnflags(ops[..i]) && !Unflags(ops[i])
    ensures taken.None? ==> Applied(e, Run(e, start, trace), taken) == Run(e, start, trace)
    ensures taken.Some? ==> Applied(e, Run(e, start, trace), taken) == Run(e, start, trace + [taken.value])
    ensures taken.Some? && NoneUnflags(trace) && !Unflags(ops[i]) ==> NoneUnflags(trace + [taken.value])
  {
    hide Apply;
    assert ops[..i + 1] == ops[..i] + [ops[i]];
    if taken.Some? {
      assert (trace + [taken.value])[..|trace|] == trace;
    }
  }

  lemma RunMayKeep(e: Engine, db: Db, ops: seq<Op>)
    ensures Sound(db) ==> Sound(Run(e, db, ops))
    ensures NoneUnflags(ops) && UncategorizedFlagged(db.transactions) ==>
              UncategorizedFlagged(Run(e, db, ops).transactions)
  {
    hide Sound, UncategorizedFlagged, Run;
    if Sound(db) {
      RunKeepsSound(e, db, ops);
    }
    if NoneUnflags(ops) && UncategorizedFlagged(db.transactions) {
      RunKeepsFlagged(e, db, ops);
    }
  }

  // ----- a filing without its hit -----

  const COFFEE := Rule("COFFEE", "contains", None, 1, 0, 0, true)
  const CUP := Txn(1, "2025-01-02", "COFFEE SHOP", -450, None, None, true, Some("No matching rule"), None)

  /** A run that loses a hit: one rule, one transaction it takes, and the fourth
      statement failing, after the two reads and the filing. */
  method FilingWithoutHit(ledger: Ledger)
    requires ledger.rules == map[7 := COFFEE] && ledger.transactions == map[3 := CUP]
    requires ledger.engine.matches(CUP.description, COFFEE.pattern, COFFEE.matchType)
    requires ledger.fails(ledger.clock + 3) && !Failing(ledger.fails, ledger.clock, ledger.clock + 3)
    modifies ledger
    ensures 3 in ledger.transactions && ledger.transactions[3].category == Some(COFFEE.category)
    ensures 7 in ledger.rules && ledger.rules[7].hits == COFFEE.hits
  {
    hide AfterWrites, WinnersIn, CountsOf, Categorize, IsPending, IsRuleOrder, Sound;
    ghost var before := ledger.Contents();
    var r, order, pending := ledger.CategorizeTransactions();
    OneWinner(ledger.engine, before, order, pending);
  }

  lemma OneId(ids: seq<Id>, only: Id)
    requires Distinct(ids) && SetOf(ids) == {only}
    ensures ids == [only]
  {
    DistinctCount(ids);
    assert ids[0] in SetOf(ids);
  }

  lemma OnlyAnswers(rules: map<Id, Rule>, txns: map<Id, Txn>, order: seq<Id>, pending: seq<Id>)
    requires rules == map[7 := COFFEE] && txns == map[3 := CUP]
    requires IsRuleOrder(rules, order) && IsPending(txns, pending)
    ensures order == [7] && pending == [3]
  {
    assert 7 in rules && SetOf(order) == {7};
    OneId(order, 7);
    assert Uncategorized(txns) == {3};
    OneId(pending, 3);
  }

  lemma OneWinner(e: Engine, db: Db, order: seq<Id>, pending: seq<Id>)
    requires e.matches(CUP.description, COFFEE.pattern, COFFEE.matchType)
    requires db.rules == map[7 := COFFEE] && db.transactions == map[3 := CUP]
    requires IsRuleOrder(db.rules, order) && IsPending(db.transactions, pending)
    ensures WinnersIn(e, db, order, pending) == [3]
    ensures var part := AfterWrites(e, db, order, pending, 1);
            && 3 in part.transactions && part.transactions[3].category == Some(COFFEE.category)
            && 7 in part.rules && part.rules[7].hits == COFFEE.hits
  {
    hide IsRuleOrder, IsPending;
    OnlyAnswers(db.rules, db.transactions, order, pending);
    assert Winner(e, db.rules, [7], CUP) == Some(7);
    assert pending[..0] == [] && [3][..1] == [3] && [3][..0] == [];
    assert WonAmong(e, db.rules, order, db.transactions, SetOf([]), 7) == {};
  }
}
