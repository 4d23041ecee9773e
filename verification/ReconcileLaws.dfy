/** The balance a reconciliation calculates, month on month. */
module ReconcileLaws {
  import opened Outcomes
  import opened Tables
  import opened LedgerSpec
  import opened Decimal
  import opened Dates

  predicate DatesIso(txns: map<Id, Txn>) {
    forall id | id in txns :: IsIso(txns[id].date)
  }

  lemma {:induction false} SumOfRemove(txns: map<Id, Txn>, ids: set<Id>, id: Id)
    requires ids <= txns.Keys && id in ids
    ensures SumOf(txns, ids) == txns[id].amount + SumOf(txns, ids - {id})
  {
    MinExists(ids);
    var m :| m in ids && (forall k | k in ids :: m <= k)
             && SumOf(txns, ids) == txns[m].amount + SumOf(txns, ids - {m});
    if m != id {
      SumOfRemove(txns, ids - {m}, id);
      SumOfRemove(txns, ids - {id}, m);
      assert ids - {m} - {id} == ids - {id} - {m};
    }
  }

  lemma {:induction false} SumOfUnion(txns: map<Id, Txn>, a: set<Id>, b: set<Id>)
    requires a <= txns.Keys && b <= txns.Keys && a !! b
    ensures SumOf(txns, a + b) == SumOf(txns, a) + SumOf(txns, b)
  {
    if a == {} {
      assert a + b == b;
    } else {
      var id := Pick(a);
      SumOfRemove(txns, a, id);
      SumOfRemove(txns, a + b, id);
      assert a + b - {id} == (a - {id}) + b;
      SumOfUnion(txns, a - {id}, b);
    }
  }

  /** The text window holds exactly the month's transactions. */
  lemma WindowIsMonth(db: Db, account: Id, month: string, id: Id)
    requires DatesIso(db.transactions) && IsIsoMonth(month) && id in db.transactions
    ensures id in InMonth(db, account, month)
       <==> db.transactions[id].account == account && MonthIndex(db.transactions[id].date) == MonthIndex(month)
    ensures id in UpToMonth(db, account, month)
       <==> db.transactions[id].account == account && MonthIndex(db.transactions[id].date) <= MonthIndex(month)
  {
    AtOrBeforeMonthEnd(db.transactions[id].date, month);
    AtOrAfterMonthStart(db.transactions[id].date, month);
  }

  /** The balance at a month is the balance at the month before plus the month. */
  lemma BalanceCarriesForward(db: Db, account: Id, previous: string, month: string)
    requires DatesIso(db.transactions) && IsIsoMonth(previous) && IsIsoMonth(month)
    requires MonthIndex(month) == MonthIndex(previous) + 1
    ensures SumOf(db.transactions, UpToMonth(db, account, month))
         == SumOf(db.transactions, UpToMonth(db, account, previous))
          + SumOf(db.transactions, InMonth(db, account, month))
  {
    var before, during := UpToMonth(db, account, previous), InMonth(db, account, month);
    forall id | id in db.transactions
      ensures id in UpToMonth(db, account, month) <==> id in before + during
      ensures !(id in before && id in during)
    {
      WindowIsMonth(db, account, previous, id);
      WindowIsMonth(db, account, month, id);
    }
    assert UpToMonth(db, account, month) == before + during;
    SumOfUnion(db.transactions, before, during);
  }

  /** A reconciliation of a well-formed month is refused exactly when the account
      has no transaction in it, and agrees exactly when the statement is the sum
      of everything up to the month's end. */
  lemma ReconcileMeans(db: Db, accountName: string, month: string, statement: int)
    requires DatesIso(db.transactions) && IsIsoMonth(month)
    requires AccountNamed(db.accounts, accountName).Some?
    ensures var account := AccountNamed(db.accounts, accountName).value;
            var (after, result) := Reconcile(db, accountName, month, statement);
            && (result == Err(NoTransactions) <==>
                  forall id | id in db.transactions && db.transactions[id].account == account ::
                    MonthIndex(db.transactions[id].date) != MonthIndex(month))
            && (result.Err? ==> after == db)
            && (result.Ok? ==>
                  && result.value.reconciled == (statement == SumOf(db.transactions, UpToMonth(db, account, month)))
                  && after.(reconciliations := db.reconciliations) == db
                  && Extends(db.reconciliations, after.reconciliations))
  {
    var account := AccountNamed(db.accounts, accountName).value;
    forall id | id in db.transactions
      ensures id in InMonth(db, account, month)
         <==> db.transactions[id].account == account && MonthIndex(db.transactions[id].date) == MonthIndex(month)
    {
      WindowIsMonth(db, account, month, id);
    }
    if InMonth(db, account, month) != {} {
      var id := Pick(InMonth(db, account, month));
      assert id in db.transactions;
    }
  }
}
