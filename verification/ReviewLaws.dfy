/**
 The review flow: a queue of flagged transactions, a stack of decisions, and
 Back, which pops one decision and undoes it on the ledger.
 */
module ReviewLaws {
  import opened Outcomes
  import opened Tables
  import opened LedgerSpec
  import opened Invariants
  import opened LedgerRuns

  /** What a transaction in the queue looks like before it is decided. */
  predicate Pending(t: Txn) {
    t.category == None && t.vendor == None && t.flagged
  }

  /** The same ledger, with the flag reason an undo writes on some transactions. */
  function Reworded(db: Db, undone: set<Id>): Db {
    db.(transactions := map id | id in db.transactions ::
          if id in undone then db.transactions[id].(flagReason := Some("Uncategorized")) else db.transactions[id])
  }

  // ----- one decision and its undo -----

  lemma UndoneTxn(db: Db, txn: Id, category: Id, vendor: Option<string>, createRule: bool, pattern: Option<string>)
    requires txn in db.transactions
    requires ApplyReview(db, txn, category, vendor, createRule, pattern).1.Ok?
    ensures var (after, rule) := ApplyReview(db, txn, category, vendor, createRule, pattern);
            UndoReview(after, txn, rule.value)
              == db.(transactions := db.transactions[txn := Reopened(db.transactions[txn])])
  {
    var (after, rule) := ApplyReview(db, txn, category, vendor, createRule, pattern);
    var undone := UndoReview(after, txn, rule.value);
    assert undone.rules == db.rules;
    assert undone.transactions == db.transactions[txn := Reopened(db.transactions[txn])];
  }

  /** Undoing a decision takes the rule it created and the filing back together.
      What returns is the ledger as it was, up to the flag reason, exactly when
      the transaction was pending; to the letter, exactly when its reason already
      was the one an undo writes. */
  lemma UndoInvertsReview(db: Db, txn: Id, category: Id, vendor: Option<string>, createRule: bool,
                          pattern: Option<string>)
    requires txn in db.transactions
    requires ApplyReview(db, txn, category, vendor, createRule, pattern).1.Ok?
    ensures var (after, rule) := ApplyReview(db, txn, category, vendor, createRule, pattern);
            var (undone, t) := (UndoReview(after, txn, rule.value), db.transactions[txn]);
            && (undone == Reworded(db, {txn}) <==> Pending(t))
            && (undone == db <==> Pending(t) && t.flagReason == Some("Uncategorized"))
  {
    var (after, rule) := ApplyReview(db, txn, category, vendor, createRule, pattern);
    var t := db.transactions[txn];
    UndoneTxn(db, txn, category, vendor, createRule, pattern);
    var undone := UndoReview(after, txn, rule.value);
    assert undone.transactions[txn] == Reopened(t);
    if Pending(t) {
      assert undone.transactions == Reworded(db, {txn}).transactions;
      if t.flagReason == Some("Uncategorized") {
        assert undone.transactions == db.transactions;
      }
    }
  }

  /** So an undo never quite restores a transaction as an import left it. */
  lemma UndoLosesReason(db: Db, txn: Id, account: Id, importId: Id, row: ParsedRow, category: Id,
                        vendor: Option<string>, createRule: bool, pattern: Option<string>)
    requires txn in db.transactions && db.transactions[txn] == ImportedTxn(account, importId, row)
    requires ApplyReview(db, txn, category, vendor, createRule, pattern).1.Ok?
    ensures var (after, rule) := ApplyReview(db, txn, category, vendor, createRule, pattern);
            var undone := UndoReview(after, txn, rule.value);
            && undone != db && undone == Reworded(db, {txn})
            && undone.transactions[txn].flagReason == Some("Uncategorized")
            && db.transactions[txn].flagReason == Some("No matching rule")
  {
    UndoInvertsReview(db, txn, category, vendor, createRule, pattern);
    assert "Uncategorized"[0] != "No matching rule"[0];
  }

  /** Unchecked, a review keeps retired categories out of use exactly when the
      category is live or the review writes nothing. */
  lemma UncheckedReviewNeedsLiveCategory(db: Db, txn: Id, category: Id, vendor: Option<string>, createRule: bool,
                                         pattern: Option<string>)
    requires Sound(db) && category in db.categories
    ensures NothingRetiredInUse(ApplyReview(db, txn, category, vendor, createRule, pattern).0)
       <==> Live(db.categories, category) || (txn !in db.transactions && !(createRule && pattern.Some?))
  {
    var after := ApplyReview(db, txn, category, vendor, createRule, pattern).0;
    if txn in db.transactions {
      assert after.transactions[txn].category == Some(category);
    }
    if createRule && pattern.Some? {
      assert after.rules[NextRowId(db.rules.Keys)] == NewContainsRule(pattern.value, vendor, category);
    }
  }

  // ----- the session -----

  datatype Choice = Choice(category: Id, vendor: Option<string>, createRule: bool, pattern: Option<string>)

  /** What the screen stacks: enough to undo with. */
  datatype Applied = Applied(txn: Id, rule: Option<Id>)

  datatype Session = Session(db: Db, queue: seq<Id>, stack: seq<Option<Applied>>)

  /** `fails` says that the request, if one is made, comes to nothing. */
  datatype Event = Decide(choice: Choice, fails: bool) | Skip | Back(fails: bool)

  function Decided(db: Db, txn: Id, c: Choice): (Db, Result<Option<Id>, LedgerError>) {
    CheckedReview(db, txn, c.category, c.vendor, c.createRule, c.pattern)
  }

  /** A decision that is refused or fails is not stacked, one whose undo fails stays on
      the stack, and Back over a skip makes no request. */
  function Step(s: Session, event: Event): Session {
    match event
    case Decide(c, fails) =>
      if fails || |s.stack| >= |s.queue| then s
      else
        var (after, rule) := Decided(s.db, s.queue[|s.stack|], c);
        if rule.Err? then s
        else s.(db := after, stack := s.stack + [Some(Applied(s.queue[|s.stack|], rule.value))])
    case Skip => if |s.stack| >= |s.queue| then s else s.(stack := s.stack + [None])
    case Back(fails) =>
      if s.stack == [] || (fails && s.stack[|s.stack| - 1].Some?) then s
      else
        var top := s.stack[|s.stack| - 1];
        s.(stack := s.stack[..|s.stack| - 1],
           db := match top
                 case None => s.db
                 case Some(applied) => UndoReview(s.db, applied.txn, applied.rule))
  }

  function Play(s: Session, events: seq<Event>): Session {
    if events == [] then s else Step(Play(s, events[..|events| - 1]), events[|events| - 1])
  }

  // ----- what the stack stands for -----

  predicate QueueOf(db: Db, queue: seq<Id>) {
    Distinct(queue) && forall i | 0 <= i < |queue| :: queue[i] in db.transactions && Pending(db.transactions[queue[i]])
  }

  /** The first decisions of the queue, applied to a ledger in order. */
  function Replay(db: Db, queue: seq<Id>, choices: seq<Option<Choice>>): Db
    requires |choices| <= |queue|
  {
    if choices == [] then db
    else
      var n := |choices| - 1;
      var before := Replay(db, queue, choices[..n]);
      match choices[n]
      case None => before
      case Some(c) => Decided(before, queue[n], c).0
  }

  /** Stack and choices agree: the same decisions, with the rule ids they made. */
  predicate StackFor(db: Db, queue: seq<Id>, stack: seq<Option<Applied>>, choices: seq<Option<Choice>>) {
    && |stack| == |choices| <= |queue|
    && forall i | 0 <= i < |stack| ::
         match choices[i]
         case None => stack[i] == None
         case Some(c) =>
           var rule := Decided(Replay(db, queue, choices[..i]), queue[i], c).1;
           rule.Ok? && stack[i] == Some(Applied(queue[i], rule.value))
  }

  /** The ledger is the initial one with exactly the stacked decisions applied,
      but for the flag reasons of transactions some undo has touched. */
  ghost predicate Tracks(start: Db, s: Session, choices: seq<Option<Choice>>, undone: set<Id>) {
    && StackFor(Reworded(start, undone), s.queue, s.stack, choices)
    && s.db == Replay(Reworded(start, undone), s.queue, choices)
    && undone <= set id | id in s.queue
  }

  lemma {:induction false} ReplayLeavesLaterAlone(db: Db, queue: seq<Id>, choices: seq<Option<Choice>>, txn: Id)
    requires |choices| <= |queue| && txn in db.transactions
    requires forall i | 0 <= i < |choices| :: queue[i] != txn
    ensures txn in Replay(db, queue, choices).transactions
         && Replay(db, queue, choices).transactions[txn] == db.transactions[txn]
  {
    if choices != [] {
      ReplayLeavesLaterAlone(db, queue, choices[..|choices| - 1], txn);
    }
  }

  lemma RewordingCommutesWithDeciding(db: Db, txn: Id, c: Choice, other: Id)
    requires other != txn
    ensures Decided(Reworded(db, {other}), txn, c).1 == Decided(db, txn, c).1
    ensures Decided(Reworded(db, {other}), txn, c).0 == Reworded(Decided(db, txn, c).0, {other})
  {
    var reworded := Reworded(db, {other});
    assert reworded.transactions.Keys == db.transactions.Keys;
    assert Decided(reworded, txn, c).0.transactions == Reworded(Decided(db, txn, c).0, {other}).transactions;
  }

  lemma {:induction false} RewordingCommutesWithReplay(db: Db, queue: seq<Id>, choices: seq<Option<Choice>>, other: Id)
    requires |choices| <= |queue|
    requires forall i | 0 <= i < |choices| :: queue[i] != other
    ensures Replay(Reworded(db, {other}), queue, choices) == Reworded(Replay(db, queue, choices), {other})
  {
    if choices != [] {
      var n := |choices| - 1;
      RewordingCommutesWithReplay(db, queue, choices[..n], other);
      if choices[n].Some? {
        RewordingCommutesWithDeciding(Replay(db, queue, choices[..n]), queue[n], choices[n].value, other);
      }
    }
  }

  lemma RewordingKeepsStack(db: Db, queue: seq<Id>, stack: seq<Option<Applied>>, choices: seq<Option<Choice>>,
                            other: Id)
    requires StackFor(db, queue, stack, choices)
    requires forall i | 0 <= i < |choices| :: queue[i] != other
    ensures StackFor(Reworded(db, {other}), queue, stack, choices)
  {
    forall i | 0 <= i < |stack| && choices[i].Some?
      ensures Decided(Replay(Reworded(db, {other}), queue, choices[..i]), queue[i], choices[i].value).1
           == Decided(Replay(db, queue, choices[..i]), queue[i], choices[i].value).1
    {
      RewordingCommutesWithReplay(db, queue, choices[..i], other);
      RewordingCommutesWithDeciding(Replay(db, queue, choices[..i]), queue[i], choices[i].value, other);
    }
  }

  lemma RewordedTwice(db: Db, undone: set<Id>, other: Id)
    ensures Reworded(Reworded(db, undone), {other}) == Reworded(db, undone + {other})
  {
    assert Reworded(Reworded(db, undone), {other}).transactions == Reworded(db, undone + {other}).transactions;
  }

  lemma PopUndoes(start: Db, s: Session, choices: seq<Option<Choice>>, undone: set<Id>)
    requires QueueOf(start, s.queue) && Tracks(start, s, choices, undone) && choices != []
    ensures var n := |choices| - 1;
            var base := Reworded(start, undone);
            Step(s, Back(false)).db == if choices[n].None? then Replay(base, s.queue, choices[..n])
                                else Replay(Reworded(base, {s.queue[n]}), s.queue, choices[..n])
  {
    var n := |choices| - 1;
    var base := Reworded(start, undone);
    if choices[n].Some? {
      var before, c, txn := Replay(base, s.queue, choices[..n]), choices[n].value, s.queue[n];
      ReplayLeavesLaterAlone(base, s.queue, choices[..n], txn);
      assert Pending(before.transactions[txn]);
      UndoInvertsReview(before, txn, c.category, c.vendor, c.createRule, c.pattern);
      RewordingCommutesWithReplay(base, s.queue, choices[..n], txn);
    }
  }

  lemma BackTracks(start: Db, s: Session, choices: seq<Option<Choice>>, undone: set<Id>)
    requires QueueOf(start, s.queue) && Tracks(start, s, choices, undone) && choices != []
    ensures var n := |choices| - 1;
            Tracks(start, Step(s, Back(false)), choices[..n],
                   if choices[n].None? then undone else undone + {s.queue[n]})
  {
    var n := |choices| - 1;
    var front := choices[..n];
    var base := Reworded(start, undone);
    PopUndoes(start, s, choices, undone);
    assert forall i | 0 <= i < n :: front[..i] == choices[..i];
    assert StackFor(base, s.queue, s.stack[..n], front);
    if choices[n].Some? {
      RewordingKeepsStack(base, s.queue, s.stack[..n], front, s.queue[n]);
      RewordedTwice(start, undone, s.queue[n]);
    }
  }

  lemma StackFits(start: Db, s: Session, choices: seq<Option<Choice>>, undone: set<Id>)
    requires Tracks(start, s, choices, undone)
    ensures |choices| == |s.stack| <= |s.queue|
  {
  }

  lemma PushTracks(start: Db, s: Session, choices: seq<Option<Choice>>, undone: set<Id>, event: Event)
    requires Tracks(start, s, choices, undone) && !event.Back?
    ensures var accepted := |choices| < |s.queue|
                  && (event.Skip? || (!event.fails && Decided(s.db, s.queue[|choices|], event.choice).1.Ok?));
            if accepted
            then Tracks(start, Step(s, event), choices + [if event.Skip? then None else Some(event.choice)], undone)
            else Step(s, event) == s
  {
    hide Decided, Reworded, StackFor, Replay;
    var base := Reworded(start, undone);
    StackFits(start, s, choices, undone);
    if |choices| < |s.queue| {
      if event.Skip? {
        StackGrows(base, s.queue, s.stack, choices, None, None);
      } else {
        var rule := Decided(s.db, s.queue[|choices|], event.choice).1;
        if !event.fails && rule.Ok? {
          StackGrows(base, s.queue, s.stack, choices, Some(Applied(s.queue[|choices|], rule.value)),
                     Some(event.choice));
        }
      }
    }
  }

  /** One more decision on the stack, with the rule it made, and one more replayed. */
  lemma StackGrows(base: Db, queue: seq<Id>, stack: seq<Option<Applied>>, choices: seq<Option<Choice>>,
                   applied: Option<Applied>, choice: Option<Choice>)
    requires StackFor(base, queue, stack, choices) && |choices| < |queue|
    requires applied.None? <==> choice.None?
    requires choice.Some? ==>
               var rule := Decided(Replay(base, queue, choices), queue[|choices|], choice.value).1;
               rule.Ok? && applied == Some(Applied(queue[|choices|], rule.value))
    ensures StackFor(base, queue, stack + [applied], choices + [choice])
    ensures Replay(base, queue, choices + [choice])
         == match choice
            case None => Replay(base, queue, choices)
            case Some(c) => Decided(Replay(base, queue, choices), queue[|choices|], c).0
  {
    hide Decided;
    var grown := choices + [choice];
    assert grown[..|choices|] == choices;
    assert forall i | 0 <= i < |choices| :: grown[..i] == choices[..i];
  }

  /** The decisions a run of events leaves stacked: a choice the ledger accepted
      goes on, a skip goes on as none, Back takes the last one off unless its undo fails. */
  function StackedChoices(s: Session, events: seq<Event>): seq<Option<Choice>> {
    if events == [] then []
    else
      var front, last := events[..|events| - 1], events[|events| - 1];
      var before, choices := Play(s, front), StackedChoices(s, front);
      match last
      case Back(fails) =>
        if choices == [] || (fails && choices[|choices| - 1].Some?) then choices else choices[..|choices| - 1]
      case Skip => if |choices| < |s.queue| then choices + [None] else choices
      case Decide(c, fails) =>
        if !fails && |choices| < |s.queue| && Decided(before.db, s.queue[|choices|], c).1.Ok?
        then choices + [Some(c)] else choices
  }

  lemma StartTracks(start: Db, queue: seq<Id>)
    ensures Tracks(start, Session(start, queue, []), [], {})
  {
    assert Reworded(start, {}) == start by {
      assert Reworded(start, {}).transactions == start.transactions;
    }
  }

  lemma NothingToPop(start: Db, s: Session, undone: set<Id>, fails: bool)
    requires Tracks(start, s, [], undone)
    ensures Step(s, Back(fails)) == s
  {
  }

  /** A failing Back is no Back over a decision, and a Back like any other over a skip. */
  lemma FailingBack(start: Db, s: Session, choices: seq<Option<Choice>>, undone: set<Id>)
    requires Tracks(start, s, choices, undone) && choices != []
    ensures Step(s, Back(true)) == if choices[|choices| - 1].Some? then s else Step(s, Back(false))
  {
  }

  // ----- the terminal's Back -----

  /** It takes the decision off before it asks, and a failure ends its session. */
  function TerminalBack(s: Session, fails: bool): Session {
    if s.stack == [] then s
    else if fails && s.stack[|s.stack| - 1].Some? then s.(stack := s.stack[..|s.stack| - 1])
    else Step(s, Back(false))
  }

  /** The terminal's stack still stands for what the ledger holds exactly when the undo
      did not fail or there was none to make. */
  lemma TerminalBackExactly(start: Db, s: Session, choices: seq<Option<Choice>>, undone: set<Id>, fails: bool)
    requires QueueOf(start, s.queue) && Tracks(start, s, choices, undone) && choices != []
    ensures var n := |choices| - 1;
            !fails || choices[n].None? <==>
              exists u :: Tracks(start, TerminalBack(s, fails), choices[..n], u)
  {
    var n := |choices| - 1;
    var after := TerminalBack(s, fails);
    if !fails || choices[n].None? {
      BackTracks(start, s, choices, undone);
      assert after == Step(s, Back(false));
    } else {
      forall u ensures !Tracks(start, after, choices[..n], u) {
        StillFiled(start, s, choices, undone, u);
      }
    }
  }

  /** The decision on top has filed its transaction, which none below it has. */
  lemma StillFiled(start: Db, s: Session, choices: seq<Option<Choice>>, undone: set<Id>, u: set<Id>)
    requires QueueOf(start, s.queue) && Tracks(start, s, choices, undone)
    requires choices != [] && choices[|choices| - 1].Some?
    ensures s.db != Replay(Reworded(start, u), s.queue, choices[..|choices| - 1])
  {
    var n := |choices| - 1;
    var txn := s.queue[n];
    ReplayLeavesLaterAlone(Reworded(start, u), s.queue, choices[..n], txn);
    ReplayLeavesLaterAlone(Reworded(start, undone), s.queue, choices[..n], txn);
    assert s.db.transactions[txn].category.Some?;
    assert Replay(Reworded(start, u), s.queue, choices[..n]).transactions[txn].category.None?;
  }

  /** Over any run of decisions, skips and backs, whichever of them fail, the ledger is
      the initial one with exactly the stacked decisions applied, in order. */
  lemma {:induction false} SessionTracks(start: Db, queue: seq<Id>, events: seq<Event>) returns (undone: set<Id>)
    requires QueueOf(start, queue)
    ensures var s := Session(start, queue, []);
            Tracks(start, Play(s, events), StackedChoices(s, events), undone)
  {
    var opening := Session(start, queue, []);
    hide Tracks, QueueOf, Decided, Step;
    if events == [] {
      undone := {};
      StartTracks(start, queue);
    } else {
      var front, last := events[..|events| - 1], events[|events| - 1];
      undone := SessionTracks(start, queue, front);
      var s, choices := Play(opening, front), StackedChoices(opening, front);
      PlayKeepsQueue(opening, front);
      StackFits(start, s, choices, undone);
      if !last.Back? {
        PushTracks(start, s, choices, undone, last);
      } else if choices != [] {
        FailingBack(start, s, choices, undone);
        BackTracks(start, s, choices, undone);
        undone := if last.fails || choices[|choices| - 1].None? then undone else undone + {s.queue[|choices| - 1]};
      } else {
        NothingToPop(start, s, undone, last.fails);
      }
    }
  }

  lemma {:induction false} PlayKeepsQueue(s: Session, events: seq<Event>)
    ensures Play(s, events).queue == s.queue
  {
    if events != [] {
      PlayKeepsQueue(s, events[..|events| - 1]);
    }
  }

  /** Backing out of everything restores the rules table exactly, and every
      transaction up to its flag reason. */
  lemma BackingOutRestores(start: Db, queue: seq<Id>, events: seq<Event>)
    requires QueueOf(start, queue)
    requires Play(Session(start, queue, []), events).stack == []
    ensures var db := Play(Session(start, queue, []), events).db;
            && db == start.(transactions := db.transactions)
            && db.transactions.Keys == start.transactions.Keys
            && forall id | id in start.transactions ::
                 db.transactions[id].(flagReason := start.transactions[id].flagReason) == start.transactions[id]
  {
    var undone := SessionTracks(start, queue, events);
  }
}
