/** What the rules of a reachable ledger can match. */
module RuleLaws {
  import opened Outcomes
  import opened Tables
  import opened LedgerSpec
  import opened LedgerRuns
  import opened TextOps

  /** A match type the categorizer knows and, for a regex, a pattern that compiles. */
  predicate Runnable(e: Engine, rules: map<Id, Rule>) {
    forall r | r in rules :: ValidMatchType(e, rules[r].matchType, rules[r].pattern)
  }

  predicate PatternsGiven(rules: map<Id, Rule>) {
    forall r | r in rules :: Trim(rules[r].pattern) != ""
  }

  /** Rules may go, but the ones that stay keep their patterns. */
  predicate SamePatterns(before: map<Id, Rule>, after: map<Id, Rule>) {
    forall r | r in after ::
      r in before && after[r].pattern == before[r].pattern && after[r].matchType == before[r].matchType
  }

  predicate WritesPattern(op: Op) {
    op.OpAddRule? || op.OpUpdateRule? || op.OpReview?
  }

  lemma CategorizeKeepsPatterns(e: Engine, db: Db, order: seq<Id>)
    ensures SamePatterns(db.rules, Categorize(e, db, order).rules)
  {
    hide WonBy, CategorizeTxn;
  }

  lemma CutShortKeepsPatterns(e: Engine, db: Db, order: seq<Id>, filed: set<Id>, hit: set<Id>)
    ensures SamePatterns(db.rules, CutShort(e, db, order, filed, hit).rules)
  {
    hide WonAmong, PartlyFiled;
  }

  lemma ImportsKeepPatterns(e: Engine, db: Db, accountName: string, file: Statement, order: seq<Id>)
    ensures SamePatterns(db.rules, ImportAndCategorize(e, db, accountName, file, order).0.rules)
  {
    hide InsertRows, InsertAll, CountInserted, Categorize, StillUncategorized;
    CategorizeKeepsPatterns(e, ImportFile(db, accountName, file, false).0, order);
  }

  lemma TableEditsKeepPatterns(e: Engine, db: Db, op: Op)
    requires EditsTables(op) && !WritesPattern(op)
    ensures SamePatterns(db.rules, Apply(e, db, op).rules)
  {
    hide AccountNamed, SumOf, InMonth, UpToMonth, Insert, Unlinked, DropReconciliationsOf, NameTaken;
    if op.OpDeactivateRule? {
      assert SamePatterns(db.rules, DeactivateRule(db, op.id).0.rules);
    } else {
      assert Apply(e, db, op).rules == db.rules;
    }
  }

  lemma FilingKeepsPatterns(e: Engine, db: Db, op: Op)
    requires !EditsTables(op) && !WritesPattern(op) && !op.OpImport?
    ensures SamePatterns(db.rules, Apply(e, db, op).rules)
  {
    hide DropTxnsFrom, DropRejectsOf, Moved, CountPresent, Reopened, Categorize, CutShort, IsRuleOrder;
    if op.OpCategorize? {
      CategorizeKeepsPatterns(e, db, op.order);
    } else if op.OpCategorizeFails? {
      CutShortKeepsPatterns(e, db, op.order, op.filed, op.hit);
    } else if !op.OpUndoReview? {
      assert Apply(e, db, op).rules == db.rules;
    }
  }

  lemma OthersKeepPatterns(e: Engine, db: Db, op: Op)
    requires !WritesPattern(op)
    ensures SamePatterns(db.rules, Apply(e, db, op).rules)
  {
    hide SamePatterns, ImportAndCategorize, IsRuleOrder;
    if EditsTables(op) {
      TableEditsKeepPatterns(e, db, op);
    } else if op.OpImport? {
      ImportsKeepPatterns(e, db, op.accountName, op.file, op.order);
      RulesUntouched(db.rules);
    } else {
      FilingKeepsPatterns(e, db, op);
    }
  }

  lemma RulesUntouched(rules: map<Id, Rule>)
    ensures SamePatterns(rules, rules)
  {
  }

  /** Checking only what moves is enough: no operation stores a rule the
      categorizer could not run. */
  lemma StepKeepsRunnable(e: Engine, db: Db, op: Op)
    requires Runnable(e, db.rules)
    ensures Runnable(e, Apply(e, db, op).rules)
  {
    if !WritesPattern(op) {
      OthersKeepPatterns(e, db, op);
    }
  }

  lemma {:induction false} RunKeepsRunnable(e: Engine, db: Db, ops: seq<Op>)
    requires Runnable(e, db.rules)
    ensures Runnable(e, Run(e, db, ops).rules)
  {
    hide Runnable, Apply;
    if ops != [] {
      RunKeepsRunnable(e, db, ops[..|ops| - 1]);
      StepKeepsRunnable(e, Run(e, db, ops[..|ops| - 1]), ops[|ops| - 1]);
    }
  }

  /** An edit that gives an active rule a blank pattern its match type can run:
      the guards of the edit are all there is to stop it. */
  predicate BlanksPattern(e: Engine, db: Db, op: Op) {
    && op.OpUpdateRule? && op.update.pattern.Some? && Trim(op.update.pattern.value) == ""
    && op.id in db.rules && db.rules[op.id].active && db.rules[op.id].category in db.categories
    && ValidMatchType(e, OrElse(op.update.matchType, db.rules[op.id].matchType), op.update.pattern.value)
    && (op.update.category.Some? ==> Live(db.categories, op.update.category.value))
  }

  /** A new rule must say something, but an edit need not: every rule keeps a
      pattern exactly until an edit blanks one. */
  lemma StepKeepsPatterns(e: Engine, db: Db, op: Op)
    requires PatternsGiven(db.rules)
    ensures PatternsGiven(Apply(e, db, op).rules) <==> !BlanksPattern(e, db, op)
  {
    hide Trim, ValidMatchType;
    if !WritesPattern(op) {
      OthersKeepPatterns(e, db, op);
    } else if BlanksPattern(e, db, op) {
      assert Apply(e, db, op).rules[op.id].pattern == op.update.pattern.value;
    }
  }

  /** The edit that does it: a `contains` rule's pattern set to nothing. */
  lemma EditBlanksPattern(e: Engine)
    ensures var db := EMPTY_DB.(categories := map[1 := Category("Meals", "expense", true)],
                                rules := map[7 := Rule("COFFEE", "contains", None, 1, 0, 0, true)]);
            var op := OpUpdateRule(7, RuleUpdate(Some(""), None, None, None, None));
            && PatternsGiven(db.rules) && BlanksPattern(e, db, op)
            && UpdateRule(e, db, 7, op.update).1.Ok?
            && Apply(e, db, op).rules == map[7 := Rule("", "contains", None, 1, 0, 0, true)]
  {
    TrimKeeps("COFFEE");
    TrimKeeps("");
  }
}
