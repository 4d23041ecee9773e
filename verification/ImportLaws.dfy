/** What the import loop, its preview and its undo mean for the tables. */
module ImportLaws {
  import opened Outcomes
  import opened Tables
  import opened LedgerSpec
  import opened Invariants

  function RowKeys(account: Id, rows: seq<ParsedRow>): set<TxnKey> {
    set i | 0 <= i < |rows| :: RowKey(account, rows[i])
  }

  lemma RowKeysSnoc(account: Id, rows: seq<ParsedRow>)
    requires rows != []
    ensures RowKeys(account, rows) == RowKeys(account, rows[..|rows| - 1]) + {RowKey(account, rows[|rows| - 1])}
  {
    var front, last := rows[..|rows| - 1], rows[|rows| - 1];
    forall k | k in RowKeys(account, rows)
      ensures k in RowKeys(account, front) + {RowKey(account, last)}
    {
      var i :| 0 <= i < |rows| && k == RowKey(account, rows[i]);
      if i < |front| {
        assert front[i] == rows[i];
      }
    }
    forall k | k in RowKeys(account, front) ensures k in RowKeys(account, rows) {
      var i :| 0 <= i < |front| && k == RowKey(account, front[i]);
      assert front[i] == rows[i];
    }
  }

  lemma DuplicateMeansKeyPresent(txns: map<Id, Txn>, account: Id, row: ParsedRow)
    ensures IsDuplicateRow(txns, account, row) <==> RowKey(account, row) in KeysOf(txns)
  {
  }

  lemma InsertAddsKey(txns: map<Id, Txn>, t: Txn)
    ensures KeysOf(Insert(txns, t)) == KeysOf(txns) + {KeyOf(t)}
  {
    var id, next := NextRowId(txns.Keys), Insert(txns, t);
    forall k | k in KeysOf(txns) + {KeyOf(t)} ensures k in KeysOf(next) {
      if k in KeysOf(txns) {
        var j :| j in txns && k == KeyOf(txns[j]);
        assert j in next && next[j] == txns[j];
      } else {
        assert id in next && next[id] == t;
      }
    }
  }

  /** The loop that reads the table it is writing leaves the union behind. */
  lemma {:induction false} InsertRowsIsUnion(txns: map<Id, Txn>, account: Id, importId: Id, rows: seq<ParsedRow>)
    ensures KeysOf(InsertRows(txns, account, importId, rows)) == KeysOf(txns) + RowKeys(account, rows)
  {
    if rows != [] {
      var front, last := rows[..|rows| - 1], rows[|rows| - 1];
      InsertRowsIsUnion(txns, account, importId, front);
      var before := InsertRows(txns, account, importId, front);
      DuplicateMeansKeyPresent(before, account, last);
      InsertAddsKey(before, ImportedTxn(account, importId, last));
      RowKeysSnoc(account, rows);
    }
  }

  lemma {:induction false} InsertRowsKeepsKeysUnique(txns: map<Id, Txn>, account: Id, importId: Id,
                                                     rows: seq<ParsedRow>)
    requires KeysUnique(txns)
    ensures KeysUnique(InsertRows(txns, account, importId, rows))
  {
    if rows != [] {
      InsertRowsKeepsKeysUnique(txns, account, importId, rows[..|rows| - 1]);
    }
  }

  /** A row of a file, column by column: flagged, uncategorized, and of this import. */
  predicate StoredAs(t: Txn, account: Id, importId: Id, row: ParsedRow) {
    && t.account == account && t.date == row.date && t.description == row.description && t.amount == row.amount
    && t.category == None && t.vendor == None && t.flagged && t.flagReason == Some("No matching rule")
    && t.importId == Some(importId)
  }

  /** Old rows are untouched; every new row is a flagged, uncategorized row of this import. */
  lemma {:induction false} InsertRowsExtends(txns: map<Id, Txn>, account: Id, importId: Id, rows: seq<ParsedRow>)
    ensures Extends(txns, InsertRows(txns, account, importId, rows))
    ensures forall id | id in InsertRows(txns, account, importId, rows) && id !in txns ::
              exists i :: 0 <= i < |rows| &&
                StoredAs(InsertRows(txns, account, importId, rows)[id], account, importId, rows[i])
  {
    if rows != [] {
      var front := rows[..|rows| - 1];
      var before := InsertRows(txns, account, importId, front);
      var after := InsertRows(txns, account, importId, rows);
      InsertRowsExtends(txns, account, importId, front);
      forall id | id in after && id !in txns
        ensures exists i :: 0 <= i < |rows| && StoredAs(after[id], account, importId, rows[i])
      {
        if id in before {
          var i :| 0 <= i < |front| && StoredAs(before[id], account, importId, front[i]);
          assert StoredAs(after[id], account, importId, rows[i]);
        } else {
          assert StoredAs(after[id], account, importId, rows[|rows| - 1]);
        }
      }
    }
  }

  /** `imported` is the number of keys the account gained. */
  lemma {:induction false} ImportedCountsNewKeys(txns: map<Id, Txn>, account: Id, importId: Id, rows: seq<ParsedRow>)
    ensures |KeysOf(InsertRows(txns, account, importId, rows))|
         == |KeysOf(txns)| + CountInserted(txns, account, importId, rows)
  {
    if rows != [] {
      var front, last := rows[..|rows| - 1], rows[|rows| - 1];
      ImportedCountsNewKeys(txns, account, importId, front);
      var before := InsertRows(txns, account, importId, front);
      DuplicateMeansKeyPresent(before, account, last);
      InsertAddsKey(before, ImportedTxn(account, importId, last));
    }
  }

  /** Importing two files in either order leaves the same set of keys. */
  lemma ImportOrderIrrelevant(db: Db, nameA: string, a: Statement, nameB: string, b: Statement)
    requires AccountNamed(db.accounts, nameA).Some? && AccountNamed(db.accounts, nameB).Some?
    requires a.checksum != b.checksum
    requires !ChecksumTaken(db.imports, a.checksum) && !ChecksumTaken(db.imports, b.checksum)
    requires a.parse.Ok? && a.parse.value.rows != []
    requires b.parse.Ok? && b.parse.value.rows != []
    ensures var aThenB := ImportFile(ImportFile(db, nameA, a, false).0, nameB, b, false);
            var bThenA := ImportFile(ImportFile(db, nameB, b, false).0, nameA, a, false);
            && aThenB.1.Ok? && !aThenB.1.value.duplicateFile
            && bThenA.1.Ok? && !bThenA.1.value.duplicateFile
            && KeysOf(aThenB.0.transactions) == KeysOf(bThenA.0.transactions)
            && KeysOf(aThenB.0.transactions) == KeysOf(db.transactions)
                 + RowKeys(AccountNamed(db.accounts, nameA).value, a.parse.value.rows)
                 + RowKeys(AccountNamed(db.accounts, nameB).value, b.parse.value.rows)
  {
    ImportTwice(db, nameA, a, nameB, b);
    ImportTwice(db, nameB, b, nameA, a);
  }

  lemma ImportTwice(db: Db, nameA: string, a: Statement, nameB: string, b: Statement)
    requires AccountNamed(db.accounts, nameA).Some? && AccountNamed(db.accounts, nameB).Some?
    requires a.checksum != b.checksum
    requires !ChecksumTaken(db.imports, a.checksum) && !ChecksumTaken(db.imports, b.checksum)
    requires a.parse.Ok? && a.parse.value.rows != []
    requires b.parse.Ok? && b.parse.value.rows != []
    ensures var (after, result) := ImportFile(ImportFile(db, nameA, a, false).0, nameB, b, false);
            && result.Ok? && !result.value.duplicateFile
            && KeysOf(after.transactions) == KeysOf(db.transactions)
                 + RowKeys(AccountNamed(db.accounts, nameA).value, a.parse.value.rows)
                 + RowKeys(AccountNamed(db.accounts, nameB).value, b.parse.value.rows)
  {
    var mid := ImportFile(db, nameA, a, false).0;
    assert !ChecksumTaken(mid.imports, b.checksum);
    InsertRowsIsUnion(db.transactions, AccountNamed(db.accounts, nameA).value,
                      NextRowId(db.imports.Keys), a.parse.value.rows);
    InsertRowsIsUnion(mid.transactions, AccountNamed(db.accounts, nameB).value,
                      NextRowId(mid.imports.Keys), b.parse.value.rows);
  }

  // ----- the preview -----

  /** Some row the table lacks appears twice in the file. */
  predicate NewRowRepeats(txns: map<Id, Txn>, account: Id, rows: seq<ParsedRow>) {
    exists i, j :: 0 <= i < j < |rows| && rows[i] == rows[j] && !IsDuplicateRow(txns, account, rows[i])
  }

  lemma NewRowRepeatsSnoc(txns: map<Id, Txn>, account: Id, front: seq<ParsedRow>, last: ParsedRow)
    ensures NewRowRepeats(txns, account, front + [last])
         <==> NewRowRepeats(txns, account, front) || (last in front && !IsDuplicateRow(txns, account, last))
  {
    var rows := front + [last];
    if i, j :| 0 <= i < j < |front| && front[i] == front[j] && !IsDuplicateRow(txns, account, front[i]) {
      assert rows[i] == rows[j];
    }
    if last in front {
      var i :| 0 <= i < |front| && front[i] == last;
      assert rows[i] == rows[|front|];
    }
    if i, j :| 0 <= i < j < |rows| && rows[i] == rows[j] && !IsDuplicateRow(txns, account, rows[i]) {
      assert front[i] == rows[i];
      assert j < |front| ==> front[j] == rows[j];
    }
  }

  lemma InRowKeys(account: Id, rows: seq<ParsedRow>, row: ParsedRow)
    ensures RowKey(account, row) in RowKeys(account, rows) <==> row in rows
  {
    if i :| 0 <= i < |rows| && rows[i] == row {
      assert RowKey(account, rows[i]) in RowKeys(account, rows);
    }
  }

  /** The preview never promises fewer rows than the import writes, and promises
      exactly that many when and only when no new row repeats inside the file. */
  lemma {:induction false} PreviewBoundsImport(txns: map<Id, Txn>, account: Id, importId: Id, rows: seq<ParsedRow>)
    ensures CountInserted(txns, account, importId, rows) <= CountNew(txns, account, rows)
    ensures CountInserted(txns, account, importId, rows) == CountNew(txns, account, rows)
         <==> !NewRowRepeats(txns, account, rows)
  {
    if rows != [] {
      var front, last := rows[..|rows| - 1], rows[|rows| - 1];
      PreviewBoundsImport(txns, account, importId, front);
      assert front + [last] == rows;
      NewRowRepeatsSnoc(txns, account, front, last);
      InsertRowsIsUnion(txns, account, importId, front);
      InRowKeys(account, front, last);
      DuplicateMeansKeyPresent(InsertRows(txns, account, importId, front), account, last);
      DuplicateMeansKeyPresent(txns, account, last);
    }
  }

  /** A file that lists one unseen row twice: the dry run promises two, the import writes one. */
  lemma PreviewCountsTwice(account: Id, importId: Id)
    ensures var rows := seq(2, _ => ParsedRow("2025-01-02", "COFFEE SHOP", -450));
            && CountNew(map[], account, rows) == 2
            && CountInserted(map[], account, importId, rows) == 1
  {
    var row := ParsedRow("2025-01-02", "COFFEE SHOP", -450);
    var rows := seq(2, _ => row);
    var nothing: map<Id, Txn> := map[];
    assert rows[..1] == [row] && [row][..0] == [];
    assert !IsDuplicateRow(nothing, account, row);
    var once := InsertRows(nothing, account, importId, [row]);
    assert InsertRows(nothing, account, importId, [row][..|[row]| - 1]) == nothing;
    assert once == Insert(nothing, ImportedTxn(account, importId, row));
    assert once[NextRowId(nothing.Keys)] == ImportedTxn(account, importId, row);
    assert IsDuplicateRow(once, account, row);
  }

  // ----- undo -----

  lemma UndoRestoresTxns(db: Db, account: Id, importId: Id, rows: seq<ParsedRow>)
    requires forall t | t in db.transactions :: db.transactions[t].importId != Some(importId)
    ensures var grown := db.(transactions := InsertRows(db.transactions, account, importId, rows));
            DeleteImport(grown, importId).transactions == db.transactions
  {
    var grown := db.(transactions := InsertRows(db.transactions, account, importId, rows));
    InsertRowsExtends(db.transactions, account, importId, rows);
    assert forall t | t in grown.transactions && t !in db.transactions ::
        grown.transactions[t].importId == Some(importId);
    var undone := DeleteImport(grown, importId).transactions;
    assert forall t | t in db.transactions :: t in undone && undone[t] == db.transactions[t];
    assert forall t | t in undone :: t in db.transactions;
  }

  lemma UndoRestoresRejects(db: Db, importId: Id, rejects: seq<RejectedRow>)
    requires forall r | r in db.rejects :: db.rejects[r].importId != importId
    ensures var grown := db.(rejects := InsertAll(db.rejects, RejectRows(importId, rejects)));
            DeleteImport(grown, importId).rejects == db.rejects
  {
    InsertAllExtends(db.rejects, RejectRows(importId, rejects));
  }

  lemma UndoInvertsRecord(db: Db, account: Id, filename: string, checksum: string, parsed: ParseOutcome)
    requires TxnRefsLive(db) && RejectRefsLive(db)
    ensures DeleteImport(RecordImport(db, account, filename, checksum, parsed).0, NextRowId(db.imports.Keys)) == db
  {
    var id := NextRowId(db.imports.Keys);
    var after := RecordImport(db, account, filename, checksum, parsed).0;
    UndoRestoresTxns(db, account, id, parsed.rows);
    UndoRestoresRejects(db, id, parsed.rejects);
    assert DeleteImport(after, id).imports == db.imports;
  }

  /** Deleting the import that `ImportFile` reports puts every table back,
      whatever row ids it reused, and so frees the file's checksum. */
  lemma UndoInvertsImport(db: Db, accountName: string, file: Statement)
    requires RefsLive(db)
    requires ImportFile(db, accountName, file, false).1.Ok?
    requires !ImportFile(db, accountName, file, false).1.value.duplicateFile
    ensures var (after, result) := ImportFile(db, accountName, file, false);
            && result.value.importId.Some?
            && ChecksumTaken(after.imports, file.checksum)
            && DeleteImport(after, result.value.importId.value) == db
            && !ChecksumTaken(DeleteImport(after, result.value.importId.value).imports, file.checksum)
  {
    var after := ImportFile(db, accountName, file, false).0;
    var account := AccountNamed(db.accounts, accountName).value;
    assert after.imports[NextRowId(db.imports.Keys)].checksum == file.checksum;
    UndoInvertsRecord(db, account, file.filename, file.checksum, file.parse.value);
  }

  /** With categorization in front, undoing the import leaves what categorizing
      the old ledger would have left: the same rows under the same ids, with the
      same keys and amounts, filed as the rules say; imports and rejects come
      back exactly. Only the rules' hit counts remember the import. */
  lemma UndoAfterCategorize(e: Engine, db: Db, accountName: string, file: Statement, order: seq<Id>)
    requires RefsLive(db)
    requires ImportFile(db, accountName, file, false).1.Ok?
    requires !ImportFile(db, accountName, file, false).1.value.duplicateFile
    ensures var (after, out) := ImportAndCategorize(e, db, accountName, file, order);
            && out.Ok? && out.value.result.importId.Some?
            && var undone := DeleteImport(after, out.value.result.importId.value);
               undone.(rules := db.rules) == Categorize(e, db, order).(rules := db.rules)
    ensures forall id | id in db.transactions ::
              KeyOf(Categorize(e, db, order).transactions[id]) == KeyOf(db.transactions[id])
  {
    var (mid, result) := ImportFile(db, accountName, file, false);
    var id := result.value.importId.value;
    UndoInvertsImport(db, accountName, file);
    DeleteCommutesWithCategorize(e, mid, order, id);
  }

  /** Filing is row by row, so it does not matter whether the rows of an import
      are dropped before or after it. */
  lemma DeleteCommutesWithCategorize(e: Engine, db: Db, order: seq<Id>, importId: Id)
    ensures DeleteImport(Categorize(e, db, order), importId).transactions
         == Categorize(e, DeleteImport(db, importId), order).transactions
  {
    var filed := Categorize(e, db, order);
    assert forall t | t in db.transactions :: filed.transactions[t].importId == db.transactions[t].importId;
    assert DeleteImport(filed, importId).transactions.Keys == DeleteImport(db, importId).transactions.Keys;
  }
}
