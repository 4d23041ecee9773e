/** The categorizer's nested loop against its first-match meaning. */
module CategorizeLaws {
  import opened Outcomes
  import opened Tables
  import opened LedgerSpec
  import opened Invariants

  /** Some active rule matches the description. */
  predicate SomeRuleMatches(e: Engine, rules: map<Id, Rule>, description: string) {
    exists r :: r in rules && rules[r].active && RuleMatches(e, rules[r], description)
  }

  /** The winner is an active, matching rule no other matching rule outranks. */
  predicate IsBestMatch(e: Engine, rules: map<Id, Rule>, description: string, winner: Id) {
    && winner in rules && rules[winner].active && RuleMatches(e, rules[winner], description)
    && forall r | r in rules && rules[r].active && RuleMatches(e, rules[r], description) ::
         rules[r].priority <= rules[winner].priority
  }

  lemma {:induction false} FirstMatchIsFirst(e: Engine, rules: map<Id, Rule>, order: seq<Id>, description: string)
    requires forall i | 0 <= i < |order| :: order[i] in rules
    requires FirstMatch(e, rules, order, description).Some?
    ensures exists k :: 0 <= k < |order| && order[k] == FirstMatch(e, rules, order, description).value
              && forall i | 0 <= i < k :: !RuleMatches(e, rules[order[i]], description)
  {
    if RuleMatches(e, rules[order[0]], description) {
      assert order[0] == FirstMatch(e, rules, order, description).value;
    } else {
      FirstMatchIsFirst(e, rules, order[1..], description);
      var k :| 0 <= k < |order| - 1 && order[1..][k] == FirstMatch(e, rules, order[1..], description).value
               && forall i | 0 <= i < k :: !RuleMatches(e, rules[order[1..][i]], description);
      assert order[k + 1] == FirstMatch(e, rules, order, description).value;
      forall i | 0 <= i < k + 1 ensures !RuleMatches(e, rules[order[i]], description) {
        if i > 0 {
          assert order[i] == order[1..][i - 1];
        }
      }
    }
  }

  lemma {:induction false} NoFirstMatch(e: Engine, rules: map<Id, Rule>, order: seq<Id>, description: string)
    requires forall i | 0 <= i < |order| :: order[i] in rules
    requires FirstMatch(e, rules, order, description).None?
    ensures forall i | 0 <= i < |order| :: !RuleMatches(e, rules[order[i]], description)
  {
    if order != [] {
      NoFirstMatch(e, rules, order[1..], description);
      forall i | 0 < i < |order|
        ensures !RuleMatches(e, rules[order[i]], description)
      {
        assert order[i] == order[1..][i - 1];
      }
    }
  }

  /** Whatever order SQLite picks among equal priorities, the winner is a best
      match, and there is a winner exactly when some active rule matches. */
  lemma {:induction false} FirstMatchIsBest(e: Engine, rules: map<Id, Rule>, order: seq<Id>, description: string)
    requires IsRuleOrder(rules, order)
    ensures FirstMatch(e, rules, order, description).Some? <==> SomeRuleMatches(e, rules, description)
    ensures FirstMatch(e, rules, order, description).Some? ==>
              IsBestMatch(e, rules, description, FirstMatch(e, rules, order, description).value)
  {
    hide FirstMatch, RuleMatches;
    var winner := FirstMatch(e, rules, order, description);
    if winner.None? {
      NoFirstMatch(e, rules, order, description);
      forall r | r in rules && rules[r].active
        ensures !RuleMatches(e, rules[r], description)
      {
        var j :| 0 <= j < |order| && order[j] == r;
      }
    } else {
      FirstMatchIsFirst(e, rules, order, description);
      var k :| 0 <= k < |order| && order[k] == winner.value
               && forall i | 0 <= i < k :: !RuleMatches(e, rules[order[i]], description);
      forall r | r in rules && rules[r].active && RuleMatches(e, rules[r], description)
        ensures rules[r].priority <= rules[winner.value].priority
      {
        var j :| 0 <= j < |order| && order[j] == r;
      }
    }
  }

  /** Every transaction's fate: given the category and the vendor of a best match, and
      no longer flagged, if it was uncategorized and some active rule matches;
      otherwise exactly as it was. */
  lemma CategorizeRefinesBestMatch(e: Engine, db: Db, order: seq<Id>, id: Id)
    requires IsRuleOrder(db.rules, order) && id in db.transactions
    ensures var before := db.transactions[id];
            var after := Categorize(e, db, order).transactions[id];
            if before.category == None && SomeRuleMatches(e, db.rules, before.description)
            then exists r :: IsBestMatch(e, db.rules, before.description, r)
                          && after.category == Some(db.rules[r].category) && after.vendor == db.rules[r].vendor
                          && !after.flagged && after.flagReason == None
                          && after.account == before.account && after.date == before.date
                          && after.amount == before.amount && after.description == before.description
                          && after.importId == before.importId
            else after == before
  {
    FirstMatchIsBest(e, db.rules, order, db.transactions[id].description);
  }

  /** Where no rule wins anything, categorizing is the identity. */
  lemma NoWinnersNoChange(e: Engine, db: Db, order: seq<Id>)
    requires forall id | id in db.transactions :: Winner(e, db.rules, order, db.transactions[id]) == None
    ensures Categorize(e, db, order) == db
  {
    var after := Categorize(e, db, order);
    forall id | id in db.transactions ensures after.transactions[id] == db.transactions[id] {
      assert Winner(e, db.rules, order, db.transactions[id]) == None;
    }
    assert after.transactions == db.transactions;
    forall r | r in db.rules ensures after.rules[r] == db.rules[r] {
      var won := WonBy(e, db.rules, order, db.transactions, r);
      if won != {} {
        var id := Pick(won);
      }
    }
    assert after.rules == db.rules;
  }

  /** An immediate second run changes nothing, whatever order it sees. */
  lemma SecondRunChangesNothing(e: Engine, db: Db, order: seq<Id>, again: seq<Id>)
    requires IsRuleOrder(db.rules, order)
    requires IsRuleOrder(Categorize(e, db, order).rules, again)
    ensures Categorize(e, Categorize(e, db, order), again) == Categorize(e, db, order)
  {
    var once := Categorize(e, db, order);
    forall id | id in once.transactions
      ensures Winner(e, once.rules, again, once.transactions[id]) == None
    {
      if once.transactions[id].category == None {
        var description := db.transactions[id].description;
        FirstMatchIsBest(e, db.rules, order, description);
        FirstMatchIsBest(e, once.rules, again, description);
        assert forall r | r in db.rules && RuleMatches(e, once.rules[r], description) ::
            RuleMatches(e, db.rules[r], description);
      }
    }
    NoWinnersNoChange(e, once, again);
  }

  // ----- conservation of hits -----

  function HitsGained(e: Engine, db: Db, order: seq<Id>, ranks: nat): nat
    requires ranks <= |order|
  {
    if ranks == 0 then 0
    else HitsGained(e, db, order, ranks - 1) + |WonBy(e, db.rules, order, db.transactions, order[ranks - 1])|
  }

  function WonByTop(e: Engine, db: Db, order: seq<Id>, ranks: nat): set<Id>
    requires ranks <= |order|
  {
    set id | id in db.transactions && Winner(e, db.rules, order, db.transactions[id]).Some?
             && Winner(e, db.rules, order, db.transactions[id]).value in order[..ranks]
  }

  lemma TopGrows(e: Engine, db: Db, order: seq<Id>, ranks: nat)
    requires 0 < ranks <= |order| && order[ranks - 1] !in order[..ranks - 1]
    ensures var earlier := WonByTop(e, db, order, ranks - 1);
            var won := WonBy(e, db.rules, order, db.transactions, order[ranks - 1]);
            earlier !! won && WonByTop(e, db, order, ranks) == earlier + won
  {
    hide Winner;
    var earlier := WonByTop(e, db, order, ranks - 1);
    var won := WonBy(e, db.rules, order, db.transactions, order[ranks - 1]);
    assert order[..ranks] == order[..ranks - 1] + [order[ranks - 1]];
    forall id | id in db.transactions
      ensures id in WonByTop(e, db, order, ranks) <==> id in earlier || id in won
    {
    }
    assert WonByTop(e, db, order, ranks) == earlier + won;
  }

  lemma {:induction false} HitsCountWinners(e: Engine, db: Db, order: seq<Id>, ranks: nat)
    requires ranks <= |order| && forall i, j | 0 <= i < j < |order| :: order[i] != order[j]
    ensures HitsGained(e, db, order, ranks) == |WonByTop(e, db, order, ranks)|
  {
    hide WonBy;
    if ranks == 0 {
      assert WonByTop(e, db, order, 0) == {};
    } else {
      HitsCountWinners(e, db, order, ranks - 1);
      TopGrows(e, db, order, ranks);
    }
  }

  lemma LeftoverIsUncategorized(e: Engine, db: Db, order: seq<Id>)
    ensures StillUncategorized(e, db, order) == Uncategorized(Categorize(e, db, order).transactions)
  {
    var after := Categorize(e, db, order).transactions;
    forall id | id in db.transactions
      ensures id in StillUncategorized(e, db, order) <==> id in Uncategorized(after)
    {
      assert after[id] == CategorizeTxn(e, db.rules, order, db.transactions[id]);
    }
    if StillUncategorized(e, db, order) != Uncategorized(after) {
      var id := Difference(StillUncategorized(e, db, order), Uncategorized(after));
    }
  }

  lemma PendingSplits(e: Engine, db: Db, order: seq<Id>)
    ensures WonByTop(e, db, order, |order|) !! StillUncategorized(e, db, order)
    ensures Uncategorized(db.transactions) == WonByTop(e, db, order, |order|) + StillUncategorized(e, db, order)
  {
    var pending, left := Uncategorized(db.transactions), StillUncategorized(e, db, order);
    var won := WonByTop(e, db, order, |order|);
    assert order[..|order|] == order;
    forall id | id in db.transactions ensures id in pending <==> id in won + left {
      assert Winner(e, db.rules, order, db.transactions[id]).Some? ==> db.transactions[id].category == None;
    }
    assert pending == won + left;
  }

  /** The hits the rules gain add up to the transactions categorized, and those
      plus the ones still flagged are the ones that were uncategorized. */
  lemma HitsConserved(e: Engine, db: Db, order: seq<Id>)
    requires IsRuleOrder(db.rules, order)
    ensures var pending := Uncategorized(db.transactions);
            var left := Uncategorized(Categorize(e, db, order).transactions);
            && left <= pending
            && HitsGained(e, db, order, |order|) + |left| == |pending|
  {
    LeftoverIsUncategorized(e, db, order);
    HitsCountWinners(e, db, order, |order|);
    PendingSplits(e, db, order);
  }
}
