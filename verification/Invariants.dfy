/** What every reachable ledger satisfies, one predicate per promise. */
module Invariants {
  import opened Outcomes
  import opened Tables
  import opened LedgerSpec

  predicate TxnRefsLive(db: Db) {
    forall id | id in db.transactions ::
      && db.transactions[id].account in db.accounts
      && (db.transactions[id].category.Some? ==> db.transactions[id].category.value in db.categories)
      && (db.transactions[id].importId.Some? ==> db.transactions[id].importId.value in db.imports)
  }

  predicate RuleRefsLive(db: Db) {
    forall id | id in db.rules :: db.rules[id].category in db.categories
  }

  predicate RejectRefsLive(db: Db) {
    forall id | id in db.rejects :: db.rejects[id].importId in db.imports
  }

  predicate AccountRefsLive(db: Db) {
    && (forall id | id in db.imports && db.imports[id].account.Some? :: db.imports[id].account.value in db.accounts)
    && (forall id | id in db.reconciliations :: db.reconciliations[id].account in db.accounts)
  }

  /** Every reference names a live row: what SQLite's foreign keys enforce. */
  predicate RefsLive(db: Db) {
    TxnRefsLive(db) && RuleRefsLive(db) && RejectRefsLive(db) && AccountRefsLive(db)
  }

  predicate ChecksumsUnique(imports: map<Id, Import>) {
    forall i, j | i in imports && j in imports && imports[i].checksum == imports[j].checksum :: i == j
  }

  /** No account holds two transactions with the same date, amount and description. */
  predicate KeysUnique(txns: map<Id, Txn>) {
    forall i, j | i in txns && j in txns && KeyOf(txns[i]) == KeyOf(txns[j]) :: i == j
  }

  predicate AccountNamesUnique(accounts: map<Id, Account>) {
    forall i, j | i in accounts && j in accounts && accounts[i].name == accounts[j].name :: i == j
  }

  /** No two categories in use share a name; a retired one's name is free again. */
  predicate ActiveNamesUnique(categories: map<Id, Category>) {
    forall i, j | i in categories && j in categories && categories[i].active && categories[j].active
      && categories[i].name == categories[j].name :: i == j
  }

  function RejectsOf(rejects: map<Id, Reject>, importId: Id): set<Id> {
    set id | id in rejects && rejects[id].importId == importId
  }

  predicate RejectCountsAgree(imports: map<Id, Import>, rejects: map<Id, Reject>) {
    forall i | i in imports :: imports[i].malformed == |RejectsOf(rejects, i)|
  }

  predicate UncategorizedFlagged(txns: map<Id, Txn>) {
    forall id | id in txns && txns[id].category == None :: txns[id].flagged
  }

  /** Nothing in use points at a retired category. */
  predicate NothingRetiredInUse(db: Db) {
    && (forall id | id in db.rules && db.rules[id].active :: Live(db.categories, db.rules[id].category))
    && (forall id | id in db.transactions && db.transactions[id].category.Some? ::
          Live(db.categories, db.transactions[id].category.value))
  }

  predicate Sound(db: Db) {
    && RefsLive(db)
    && ChecksumsUnique(db.imports)
    && KeysUnique(db.transactions)
    && AccountNamesUnique(db.accounts)
    && ActiveNamesUnique(db.categories)
    && RejectCountsAgree(db.imports, db.rejects)
    && NothingRetiredInUse(db)
  }
}
