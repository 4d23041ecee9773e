/** Shared result types, in place of Rust's `Option` and `Result`. */
module Outcomes {
  datatype Option<+T> = None | Some(value: T)

  datatype Result<+T, +E> = Ok(value: T) | Err(error: E)
}

/**
 The ledger's tables as values: one record type per table, one map per table
 from row id to record, and the row-id rule SQLite uses for an
 `INTEGER PRIMARY KEY` without `AUTOINCREMENT` (one more than the largest id in
 use, so the ids of deleted rows come back).
 */
module Tables {
  import opened Outcomes

  type Id = int

  datatype Account = Account(name: string, kind: string)

  datatype Category = Category(name: string, kind: string, active: bool)

  datatype Import = Import(filename: string, account: Option<Id>, recordCount: nat,
                           checksum: string, malformed: nat)

  datatype Reject = Reject(importId: Id, rowNumber: nat, content: string, reason: string)

  /** `amount` is in cents. */
  datatype Txn = Txn(account: Id, date: string, description: string, amount: int,
                     category: Option<Id>, vendor: Option<string>,
                     flagged: bool, flagReason: Option<string>, importId: Option<Id>)

  datatype Rule = Rule(pattern: string, matchType: string, vendor: Option<string>,
                       category: Id, priority: int, hits: nat, active: bool)

  datatype Reconciliation = Reconciliation(account: Id, month: string, statement: int,
                                           calculated: int, reconciled: bool)

  datatype Db = Db(accounts: map<Id, Account>,
                   categories: map<Id, Category>,
                   imports: map<Id, Import>,
                   rejects: map<Id, Reject>,
                   transactions: map<Id, Txn>,
                   rules: map<Id, Rule>,
                   reconciliations: map<Id, Reconciliation>)

  const EMPTY_DB := Db(map[], map[], map[], map[], map[], map[], map[])

  /** What the duplicate check compares. */
  datatype TxnKey = TxnKey(account: Id, date: string, amount: int, description: string)

  function KeyOf(t: Txn): TxnKey {
    TxnKey(t.account, t.date, t.amount, t.description)
  }

  function KeysOf(txns: map<Id, Txn>): set<TxnKey> {
    set id | id in txns :: KeyOf(txns[id])
  }

  // ----- row ids -----

  lemma Pick<T>(s: set<T>) returns (x: T)
    requires s != {}
    ensures x in s
  {
    x :| x in s;
  }

  /** Two sets that differ differ on some element. */
  lemma Difference<T>(a: set<T>, b: set<T>) returns (x: T)
    requires a != b
    ensures x in a <==> x !in b
  {
    x :| x in a <==> x !in b;
  }

  lemma {:induction false} Maximum(s: set<int>) returns (top: int)
    requires s != {}
    ensures top in s && forall k | k in s :: k <= top
  {
    var x := Pick(s);
    var rest := s - {x};
    top := x;
    if rest != {} {
      var m := Maximum(rest);
      top := if m < x then x else m;
    }
    forall k | k in s ensures k <= top {
      assert k != x ==> k in rest;
    }
  }

  lemma MaxExists(s: set<int>)
    requires s != {}
    ensures exists m :: m in s && forall k | k in s :: k <= m
  {
    var m := Maximum(s);
  }

  function NextRowId(keys: set<int>): (next: int)
    ensures next !in keys
    ensures forall k | k in keys :: k < next
    ensures if keys == {} then next == 1 else next - 1 in keys
  {
    if keys == {} then 1
    else
      MaxExists(keys);
      var m :| m in keys && forall k | k in keys :: k <= m;
      m + 1
  }

  function Insert<V>(table: map<Id, V>, row: V): (next: map<Id, V>) {
    table[NextRowId(table.Keys) := row]
  }

  /** Appends rows one at a time, each under the id SQLite would give it. */
  function InsertAll<V>(table: map<Id, V>, rows: seq<V>): map<Id, V> {
    if rows == [] then table
    else Insert(InsertAll(table, rows[..|rows| - 1]), rows[|rows| - 1])
  }

  /** Every row of `before` is in `grown` unchanged. */
  ghost predicate Extends<V>(before: map<Id, V>, grown: map<Id, V>) {
    forall id :: id in before ==> id in grown && grown[id] == before[id]
  }

  lemma {:induction false} InsertAllExtends<V>(table: map<Id, V>, rows: seq<V>)
    ensures Extends(table, InsertAll(table, rows))
    ensures forall id | id in InsertAll(table, rows) && id !in table :: InsertAll(table, rows)[id] in rows
    ensures |InsertAll(table, rows)| == |table| + |rows|
  {
    if rows != [] {
      var front := rows[..|rows| - 1];
      InsertAllExtends(table, front);
      assert forall r | r in front :: r in rows;
      var before := InsertAll(table, front);
      assert Insert(before, rows[|rows| - 1]).Keys == before.Keys + {NextRowId(before.Keys)};
    }
  }
}
