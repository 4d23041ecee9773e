/**
 The categorizer's loop, write by write: what any number of its writes leaves, and
 so what a statement that fails leaves when no transaction takes them back.
 */
module CategorizeLoop {
  import opened Outcomes
  import opened Tables
  import opened LedgerSpec

  // ----- one pending transaction at a time -----

  /** The ledger with only the transactions in `done` categorized. */
  function PartlyCategorized(e: Engine, db: Db, order: seq<Id>, done: set<Id>): Db {
    CutShort(e, db, order, done, done)
  }

  lemma NoneDone(e: Engine, db: Db, order: seq<Id>)
    ensures PartlyCategorized(e, db, order, {}) == db
  {
    assert PartlyFiled(e, db, order, {}) == db.transactions;
    forall r | r in db.rules ensures WonAmong(e, db.rules, order, db.transactions, {}, r) == {} {
    }
    assert PartlyHit(e, db, order, {}) == db.rules;
  }

  lemma AllFiled(e: Engine, db: Db, order: seq<Id>)
    ensures PartlyFiled(e, db, order, Uncategorized(db.transactions)) == Categorize(e, db, order).transactions
  {
    var partly, whole := PartlyFiled(e, db, order, Uncategorized(db.transactions)), Categorize(e, db, order);
    forall id | id in db.transactions ensures partly[id] == whole.transactions[id] {
      assert id !in Uncategorized(db.transactions) ==> db.transactions[id].category != None;
    }
  }

  lemma AllHit(e: Engine, db: Db, order: seq<Id>)
    ensures PartlyHit(e, db, order, Uncategorized(db.transactions)) == Categorize(e, db, order).rules
  {
    forall r | r in db.rules
      ensures WonAmong(e, db.rules, order, db.transactions, Uncategorized(db.transactions), r)
           == WonBy(e, db.rules, order, db.transactions, r)
    {
      SameWinners(e, db, order, r);
    }
  }

  lemma AllDone(e: Engine, db: Db, order: seq<Id>)
    ensures PartlyCategorized(e, db, order, Uncategorized(db.transactions)) == Categorize(e, db, order)
  {
    AllFiled(e, db, order);
    AllHit(e, db, order);
  }

  lemma SameWinners(e: Engine, db: Db, order: seq<Id>, r: Id)
    ensures WonAmong(e, db.rules, order, db.transactions, Uncategorized(db.transactions), r)
         == WonBy(e, db.rules, order, db.transactions, r)
  {
    var a := WonAmong(e, db.rules, order, db.transactions, Uncategorized(db.transactions), r);
    var b := WonBy(e, db.rules, order, db.transactions, r);
    forall id | id in db.transactions ensures id in a <==> id in b {
    }
    assert a == b;
  }

  lemma OneMoreFiled(e: Engine, db: Db, order: seq<Id>, done: set<Id>, next: Id)
    requires next in db.transactions && next !in done
    ensures next in PartlyFiled(e, db, order, done)
    ensures PartlyFiled(e, db, order, done)[next] == db.transactions[next]
    ensures PartlyFiled(e, db, order, done + {next})
         == PartlyFiled(e, db, order, done)[next := CategorizeTxn(e, db.rules, order, db.transactions[next])]
  {
  }

  lemma WonAmongGrows(e: Engine, db: Db, order: seq<Id>, done: set<Id>, next: Id, r: Id)
    requires next in db.transactions && next !in done
    ensures |WonAmong(e, db.rules, order, db.transactions, done + {next}, r)|
         == |WonAmong(e, db.rules, order, db.transactions, done, r)|
            + if Winner(e, db.rules, order, db.transactions[next]) == Some(r) then 1 else 0
  {
    var before := WonAmong(e, db.rules, order, db.transactions, done, r);
    var after := WonAmong(e, db.rules, order, db.transactions, done + {next}, r);
    var gained := if Winner(e, db.rules, order, db.transactions[next]) == Some(r) then {next} else {};
    assert after == before + gained;
  }

  lemma OneMoreHit(e: Engine, db: Db, order: seq<Id>, done: set<Id>, next: Id)
    requires next in db.transactions && next !in done
    ensures var before := PartlyHit(e, db, order, done);
            PartlyHit(e, db, order, done + {next})
              == match Winner(e, db.rules, order, db.transactions[next])
                 case None => before
                 case Some(r) => before[r := before[r].(hits := before[r].hits + 1)]
  {
    hide WonAmong, Winner;
    forall r | r in db.rules
      ensures PartlyHit(e, db, order, done + {next})[r].hits == PartlyHit(e, db, order, done)[r].hits
                + if Winner(e, db.rules, order, db.transactions[next]) == Some(r) then 1 else 0
    {
      WonAmongGrows(e, db, order, done, next, r);
    }
  }

  lemma PendingUntouched(e: Engine, db: Db, order: seq<Id>, done: set<Id>, next: Id)
    requires next in db.transactions && next !in done
    ensures next in PartlyCategorized(e, db, order, done).transactions
    ensures PartlyCategorized(e, db, order, done).transactions[next] == db.transactions[next]
  {
    hide PartlyHit;
  }

  /** The winner's two writes, one after the other. */
  lemma OneWins(e: Engine, db: Db, order: seq<Id>, done: set<Id>, next: Id, r: Id)
    requires next in db.transactions && next !in done
    requires Winner(e, db.rules, order, db.transactions[next]) == Some(r)
    ensures r in db.rules
    ensures var now := PartlyCategorized(e, db, order, done);
            var filed := now.(transactions :=
              now.transactions[next := Filed(db.transactions[next], db.rules[r].category, db.rules[r].vendor)]);
            && r in now.rules && CutShort(e, db, order, done + {next}, done) == filed
            && PartlyCategorized(e, db, order, done + {next})
                 == filed.(rules := now.rules[r := now.rules[r].(hits := now.rules[r].hits + 1)])
  {
    hide PartlyFiled, PartlyHit, Winner, Filed;
    OneMoreFiled(e, db, order, done, next);
    OneMoreHit(e, db, order, done, next);
    assert r in PartlyHit(e, db, order, done) by { PartlyHitKeys(e, db, order, done); }
  }

  lemma PartlyHitKeys(e: Engine, db: Db, order: seq<Id>, hit: set<Id>)
    ensures PartlyHit(e, db, order, hit).Keys == db.rules.Keys
  {
  }

  lemma PendingWinner(e: Engine, db: Db, order: seq<Id>, txn: Id)
    requires txn in Uncategorized(db.transactions)
    ensures txn in db.transactions
    ensures Winner(e, db.rules, order, db.transactions[txn])
         == FirstMatch(e, db.rules, order, db.transactions[txn].description)
  {
  }

  lemma {:induction false} FirstMatchFound(e: Engine, rules: map<Id, Rule>, order: seq<Id>, description: string, j: nat)
    requires j <= |order| && forall k | 0 <= k < |order| :: order[k] in rules
    requires forall k | 0 <= k < j :: !RuleMatches(e, rules[order[k]], description)
    requires j < |order| ==> RuleMatches(e, rules[order[j]], description)
    ensures FirstMatch(e, rules, order, description) == if j < |order| then Some(order[j]) else None
  {
    if j > 0 {
      assert forall k | 0 <= k < |order| - 1 :: order[1..][k] == order[k + 1];
      FirstMatchFound(e, rules, order[1..], description, j - 1);
    }
  }

  // ----- the winners among the transactions met -----

  lemma NextPending(ids: seq<Id>, i: nat)
    requires Distinct(ids) && i < |ids|
    ensures ids[i] !in SetOf(ids[..i])
    ensures SetOf(ids[..i + 1]) == SetOf(ids[..i]) + {ids[i]}
  {
    assert ids[..i + 1] == ids[..i] + [ids[i]];
  }

  lemma {:induction false} DistinctCount(ids: seq<Id>)
    requires Distinct(ids)
    ensures |SetOf(ids)| == |ids|
  {
    if ids != [] {
      var n := |ids| - 1;
      DistinctCount(ids[..n]);
      NextPending(ids, n);
      assert ids[..n + 1] == ids;
    }
  }

  lemma WinnersGrow(e: Engine, db: Db, order: seq<Id>, pending: seq<Id>, i: nat)
    requires i < |pending| && pending[i] in db.transactions
    ensures WinnersIn(e, db, order, pending[..i + 1]) == WinnersIn(e, db, order, pending[..i])
              + if Winner(e, db.rules, order, db.transactions[pending[i]]).Some? then [pending[i]] else []
  {
    hide Winner;
    assert pending[..i + 1][..i] == pending[..i];
  }

  lemma {:induction false} WinnersPrefix(e: Engine, db: Db, order: seq<Id>, pending: seq<Id>, i: nat)
    requires i <= |pending|
    ensures WinnersIn(e, db, order, pending[..i]) <= WinnersIn(e, db, order, pending)
  {
    hide Winner;
    var n := |pending| - 1;
    if i <= n {
      WinnersPrefix(e, db, order, pending[..n], i);
      assert pending[..n][..i] == pending[..i];
    } else {
      assert pending[..i] == pending;
    }
  }

  /** They are the pending transactions some rule takes, each once. */
  lemma {:induction false} WinnersAre(e: Engine, db: Db, order: seq<Id>, pending: seq<Id>)
    requires Distinct(pending)
    ensures Distinct(WinnersIn(e, db, order, pending))
    ensures forall id :: id in WinnersIn(e, db, order, pending) <==>
              id in pending && id in db.transactions && Winner(e, db.rules, order, db.transactions[id]).Some?
  {
    hide Winner;
    if pending != [] {
      var n := |pending| - 1;
      WinnersAre(e, db, order, pending[..n]);
      assert pending[n] !in pending[..n];
      assert forall id :: id in pending <==> id in pending[..n] || id == pending[n];
    }
  }

  /** The ledger once these have been met: their winners filed and their hits taken. */
  function Written(e: Engine, db: Db, order: seq<Id>, met: seq<Id>): Db {
    PartlyCategorized(e, db, order, SetOf(WinnersIn(e, db, order, met)))
  }

  lemma NothingMet(e: Engine, db: Db, order: seq<Id>, pending: seq<Id>)
    ensures WinnersIn(e, db, order, pending[..0]) == [] && Written(e, db, order, pending[..0]) == db
  {
    hide CutShort;
    NoneDone(e, db, order);
    assert SetOf([]) == {};
  }

  lemma SetOfPush(ids: seq<Id>, id: Id)
    ensures SetOf(ids + [id]) == SetOf(ids) + {id}
  {
  }

  lemma IsPendingAt(txns: map<Id, Txn>, pending: seq<Id>, i: nat)
    requires IsPending(txns, pending) && i < |pending|
    ensures pending[i] in Uncategorized(txns) && pending[i] in txns && Distinct(pending[..i])
    ensures pending[i] !in pending[..i]
  {
    assert pending[i] in SetOf(pending);
  }

  lemma NextMet(e: Engine, db: Db, order: seq<Id>, pending: seq<Id>, i: nat)
    requires IsPending(db.transactions, pending) && i < |pending|
    ensures pending[i] in Uncategorized(db.transactions) && pending[i] in db.transactions
    ensures var met := WinnersIn(e, db, order, pending[..i]);
            && pending[i] !in SetOf(met)
            && if Winner(e, db.rules, order, db.transactions[pending[i]]).Some?
               then && WinnersIn(e, db, order, pending[..i + 1]) == met + [pending[i]]
                    && SetOf(met + [pending[i]]) == SetOf(met) + {pending[i]}
               else WinnersIn(e, db, order, pending[..i + 1]) == met
  {
    hide Winner, WinnersIn, IsPending;
    IsPendingAt(db.transactions, pending, i);
    WinnersGrow(e, db, order, pending, i);
    WinnersAre(e, db, order, pending[..i]);
    SetOfPush(WinnersIn(e, db, order, pending[..i]), pending[i]);
  }

  /** The write that failed was one of the two for transaction `i`. */
  lemma FailedAt(e: Engine, db: Db, order: seq<Id>, pending: seq<Id>, i: nat, writes: nat)
    requires IsPending(db.transactions, pending) && i < |pending|
    requires pending[i] in db.transactions && Winner(e, db.rules, order, db.transactions[pending[i]]).Some?
    requires var met := |WinnersIn(e, db, order, pending[..i])|; writes == 2 * met || writes == 2 * met + 1
    ensures writes < 2 * |WinnersIn(e, db, order, pending)|
    ensures var met := SetOf(WinnersIn(e, db, order, pending[..i]));
            AfterWrites(e, db, order, pending, writes)
              == if writes % 2 == 0 then Written(e, db, order, pending[..i])
                 else CutShort(e, db, order, met + {pending[i]}, met)
  {
    hide Winner, WinnersIn, IsPending, CutShort;
    NextMet(e, db, order, pending, i);
    WinnersPrefix(e, db, order, pending, i);
    WinnersPrefix(e, db, order, pending, i + 1);
    var winners, met := WinnersIn(e, db, order, pending), WinnersIn(e, db, order, pending[..i]);
    assert winners[..|met|] == met && winners[..|met| + 1] == met + [pending[i]];
  }

  lemma WholeIsWritten(e: Engine, db: Db, order: seq<Id>, pending: seq<Id>)
    ensures AfterWrites(e, db, order, pending, 2 * |WinnersIn(e, db, order, pending)|) == Written(e, db, order, pending)
  {
    hide WinnersIn, CutShort;
    var winners := WinnersIn(e, db, order, pending);
    assert winners[..|winners|] == winners;
  }

  /** Only the transactions some rule takes are changed by being met. */
  lemma OnlyWinnersMatter(e: Engine, db: Db, order: seq<Id>, a: set<Id>, b: set<Id>)
    requires forall id | id in db.transactions && Winner(e, db.rules, order, db.transactions[id]).Some? ::
               id in a <==> id in b
    ensures PartlyCategorized(e, db, order, a) == PartlyCategorized(e, db, order, b)
  {
    hide Winner, WonAmong;
    forall id | id in db.transactions
      ensures PartlyFiled(e, db, order, a)[id] == PartlyFiled(e, db, order, b)[id]
    {
    }
    forall r | r in db.rules
      ensures WonAmong(e, db.rules, order, db.transactions, a, r) == WonAmong(e, db.rules, order, db.transactions, b, r)
    {
      SameWonAmong(e, db, order, a, b, r);
    }
    SameHits(e, db, order, a, b);
  }

  lemma SameWonAmong(e: Engine, db: Db, order: seq<Id>, a: set<Id>, b: set<Id>, r: Id)
    requires forall id | id in db.transactions && Winner(e, db.rules, order, db.transactions[id]) == Some(r) ::
               id in a <==> id in b
    ensures WonAmong(e, db.rules, order, db.transactions, a, r) == WonAmong(e, db.rules, order, db.transactions, b, r)
  {
    hide Winner;
    var one := WonAmong(e, db.rules, order, db.transactions, a, r);
    var other := WonAmong(e, db.rules, order, db.transactions, b, r);
    forall id ensures id in one <==> id in other {
    }
    assert one == other;
  }

  lemma SameHits(e: Engine, db: Db, order: seq<Id>, a: set<Id>, b: set<Id>)
    requires forall r | r in db.rules ::
               WonAmong(e, db.rules, order, db.transactions, a, r)
                 == WonAmong(e, db.rules, order, db.transactions, b, r)
    ensures PartlyHit(e, db, order, a) == PartlyHit(e, db, order, b)
  {
    hide WonAmong;
    forall r | r in db.rules ensures PartlyHit(e, db, order, a)[r] == PartlyHit(e, db, order, b)[r] {
    }
  }

  lemma WinnersArePending(e: Engine, db: Db, order: seq<Id>, pending: seq<Id>)
    requires IsPending(db.transactions, pending)
    ensures SetOf(WinnersIn(e, db, order, pending)) == Uncategorized(db.transactions) - StillUncategorized(e, db, order)
  {
    hide WinnersIn;
    WinnersAre(e, db, order, pending);
    var won := SetOf(WinnersIn(e, db, order, pending));
    var rest := Uncategorized(db.transactions) - StillUncategorized(e, db, order);
    forall id
      ensures id in won <==> id in rest
    {
      assert id in pending <==> id in SetOf(pending);
    }
    if won != rest {
      var x := Difference(won, rest);
      assert false;
    }
  }

  /** With every write made, the run has done all that is specified. */
  lemma AllWritten(e: Engine, db: Db, order: seq<Id>, pending: seq<Id>)
    requires IsPending(db.transactions, pending)
    ensures var winners := WinnersIn(e, db, order, pending);
            && AfterWrites(e, db, order, pending, 2 * |winners|) == Categorize(e, db, order)
            && |winners| <= |pending| && CountsOf(e, db, order) == Counts(|winners|, |pending| - |winners|)
  {
    hide WinnersIn, CutShort, Categorize, Winner;
    WholeIsWritten(e, db, order, pending);
    WinnersArePending(e, db, order, pending);
    WinnersAre(e, db, order, pending);
    PendingIsWinnersToo(e, db, order, pending);
    OnlyWinnersMatter(e, db, order, SetOf(WinnersIn(e, db, order, pending)), Uncategorized(db.transactions));
    AllDone(e, db, order);
    DistinctCount(pending);
    DistinctCount(WinnersIn(e, db, order, pending));
    var left, all := StillUncategorized(e, db, order), Uncategorized(db.transactions);
    assert left <= all;
    SizeOfRest(all, left);
  }

  lemma PendingIsWinnersToo(e: Engine, db: Db, order: seq<Id>, pending: seq<Id>)
    requires IsPending(db.transactions, pending)
    ensures forall id | id in db.transactions && Winner(e, db.rules, order, db.transactions[id]).Some? ::
              id in SetOf(WinnersIn(e, db, order, pending)) <==> id in Uncategorized(db.transactions)
  {
    hide WinnersIn;
    WinnersAre(e, db, order, pending);
    forall id | id in db.transactions && Winner(e, db.rules, order, db.transactions[id]).Some?
      ensures id in SetOf(WinnersIn(e, db, order, pending)) <==> id in Uncategorized(db.transactions)
    {
      assert id in pending <==> id in SetOf(pending);
    }
  }

  lemma SizeOfRest(all: set<Id>, part: set<Id>)
    requires part <= all
    ensures |all - part| == |all| - |part|
  {
    assert all == (all - part) + part;
  }

  // ----- what a failing statement leaves -----

  /** Part of a run leaves the ledger as it was exactly when no rule takes any of the
      transactions it has filed or counted. */
  lemma CutShortUnchangedExactly(e: Engine, db: Db, order: seq<Id>, filed: set<Id>, hit: set<Id>)
    ensures CutShort(e, db, order, filed, hit) == db
       <==> forall id | id in filed + hit && id in db.transactions ::
              Winner(e, db.rules, order, db.transactions[id]).None?
  {
    var after := CutShort(e, db, order, filed, hit);
    if forall id | id in filed + hit && id in db.transactions :: Winner(e, db.rules, order, db.transactions[id]).None? {
      OnlyWinnersMatter(e, db, order, filed, {});
      OnlyWinnersMatter(e, db, order, hit, {});
      NoneDone(e, db, order);
    } else {
      var id :| id in filed + hit && id in db.transactions && Winner(e, db.rules, order, db.transactions[id]).Some?;
      if id in filed {
        assert after.transactions[id].category.Some?;
      } else {
        var r := Winner(e, db.rules, order, db.transactions[id]).value;
        assert id in WonAmong(e, db.rules, order, db.transactions, hit, r);
        assert after.rules[r].hits > db.rules[r].hits;
      }
    }
  }

  /** All or nothing fails exactly when a write has come before the failing one and
      one is still due: the ledger is untouched only by a failure before any write. */
  lemma UnchangedExactly(e: Engine, db: Db, order: seq<Id>, pending: seq<Id>, writes: nat)
    requires IsPending(db.transactions, pending) && writes <= 2 * |WinnersIn(e, db, order, pending)|
    ensures AfterWrites(e, db, order, pending, writes) == db <==> writes == 0
  {
    hide Winner, WinnersIn, CutShort;
    var winners := WinnersIn(e, db, order, pending);
    WinnersAre(e, db, order, pending);
    var filed, hit := SetOf(winners[..(writes + 1) / 2]), SetOf(winners[..writes / 2]);
    CutShortUnchangedExactly(e, db, order, filed, hit);
    if writes == 0 {
      assert filed == {} && hit == {};
    } else {
      var first := winners[0];
      assert first in winners && winners[..(writes + 1) / 2][0] == first;
      assert first in filed + hit && Winner(e, db.rules, order, db.transactions[first]).Some?;
    }
  }

  /** The transactions a rule has filed: its own among those that changed. */
  function FiledBy(e: Engine, db: Db, order: seq<Id>, after: Db, rule: Id): set<Id> {
    set id | id in db.transactions && id in after.transactions && after.transactions[id] != db.transactions[id]
             && Winner(e, db.rules, order, db.transactions[id]) == Some(rule)
  }

  /** Every rule has gained a hit for each transaction it has filed. */
  predicate HitsMatch(e: Engine, db: Db, order: seq<Id>, after: Db) {
    forall r | r in db.rules ::
      r in after.rules && after.rules[r].hits == db.rules[r].hits + |FiledBy(e, db, order, after, r)|
  }

  lemma FiledByIs(e: Engine, db: Db, order: seq<Id>, filed: set<Id>, hit: set<Id>, r: Id)
    ensures FiledBy(e, db, order, CutShort(e, db, order, filed, hit), r)
         == WonAmong(e, db.rules, order, db.transactions, filed, r)
  {
    var after := CutShort(e, db, order, filed, hit);
    forall id | id in db.transactions && id in filed && Winner(e, db.rules, order, db.transactions[id]).Some?
      ensures after.transactions[id] != db.transactions[id]
    {
      assert after.transactions[id].category.Some? && db.transactions[id].category.None?;
    }
  }

  lemma HitsMatchMeans(e: Engine, db: Db, order: seq<Id>, filed: set<Id>, hit: set<Id>)
    ensures HitsMatch(e, db, order, CutShort(e, db, order, filed, hit))
       <==> forall r | r in db.rules ::
              |WonAmong(e, db.rules, order, db.transactions, filed, r)|
                == |WonAmong(e, db.rules, order, db.transactions, hit, r)|
  {
    hide WonAmong, FiledBy, PartlyFiled;
    forall r | r in db.rules
      ensures FiledBy(e, db, order, CutShort(e, db, order, filed, hit), r)
           == WonAmong(e, db.rules, order, db.transactions, filed, r)
    {
      FiledByIs(e, db, order, filed, hit, r);
    }
  }

  /** Hits and filings agree exactly when the failing statement is not a hit update. */
  lemma HitsMatchExactly(e: Engine, db: Db, order: seq<Id>, pending: seq<Id>, writes: nat)
    requires IsPending(db.transactions, pending) && writes <= 2 * |WinnersIn(e, db, order, pending)|
    ensures HitsMatch(e, db, order, AfterWrites(e, db, order, pending, writes)) <==> writes % 2 == 0
  {
    hide Winner, WinnersIn, CutShort, HitsMatch, WonAmong;
    var winners, half := WinnersIn(e, db, order, pending), writes / 2;
    HitsMatchMeans(e, db, order, SetOf(winners[..(writes + 1) / 2]), SetOf(winners[..half]));
    if writes % 2 == 1 {
      WinnersAre(e, db, order, pending);
      var last := winners[half];
      var r := Winner(e, db.rules, order, db.transactions[last]).value;
      WinnerIsRule(e, db, order, last);
      assert winners[..half + 1] == winners[..half] + [last];
      SetOfPush(winners[..half], last);
      NextPending(winners, half);
      WonAmongGrows(e, db, order, SetOf(winners[..half]), last, r);
    }
  }

  lemma WinnerIsRule(e: Engine, db: Db, order: seq<Id>, id: Id)
    requires id in db.transactions && Winner(e, db.rules, order, db.transactions[id]).Some?
    ensures Winner(e, db.rules, order, db.transactions[id]).value in db.rules
  {
  }
}
