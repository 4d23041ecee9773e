/**
 The migration runner: each step above the stored version runs under its own
 savepoint, is stamped in the same savepoint, and is rolled back if it or the
 stamp fails. Steps may write before they fail, and a run may be cut short at
 any step.
 */
module Migrations {
  import opened Outcomes

  datatype Stamp = Unset | At(version: nat) | Garbled

  datatype Database<D> = Database(data: D, stamp: Stamp)

  /** A step's outcome: the data it left, or what it had written when it failed. */
  datatype Attempt<D> = Done(data: D) | Broke(written: D)

  datatype Migration<!D> = Migration(version: nat, up: D -> Attempt<D>)

  /** What goes wrong around one step of one run. */
  datatype Fault<D> =
    | Works
    | NoSavepoint
    | UpBreaks(written: D)
    | StampBreaks
    | RollbackBreaks(written: D)  // the step broke, and so did taking it back
    | ReleaseBreaks               // everything worked but closing the savepoint

  datatype MigrationError = InvalidStamp | StepFailed(version: nat)

  /** `get_schema_version`: no stamp means version 0. */
  function SchemaVersion(stamp: Stamp): Option<nat> {
    match stamp
    case Unset => Some(0)
    case At(version) => Some(version)
    case Garbled => None
  }

  function Tried<D>(m: Migration<D>, data: D, fault: Fault<D>): Attempt<D> {
    match fault
    case Works => m.up(data)
    case NoSavepoint => Broke(data)
    case UpBreaks(written) => Broke(written)
    case RollbackBreaks(written) => Broke(written)
    case _ =>
      match m.up(data)
      case Done(written) => Broke(written)
      case Broke(written) => Broke(written)
  }

  /** The loop, `current` being the version read before it; also the failed step's version. */
  function ApplyFrom<D>(db: Database<D>, ms: seq<Migration<D>>, faults: seq<Fault<D>>, current: nat)
    : (Database<D>, Option<nat>)
    requires |faults| == |ms|
    decreases |ms|
  {
    if ms == [] then (db, None)
    else if ms[0].version <= current then ApplyFrom(db, ms[1..], faults[1..], current)
    else
      match Tried(ms[0], db.data, faults[0])
      case Broke(_) => (db, Some(ms[0].version))
      case Done(data) => ApplyFrom(Database(data, At(ms[0].version)), ms[1..], faults[1..], current)
  }

  function Apply<D>(db: Database<D>, ms: seq<Migration<D>>, faults: seq<Fault<D>>)
    : (Database<D>, Result<(), MigrationError>)
    requires |faults| == |ms|
  {
    match SchemaVersion(db.stamp)
    case None => (db, Err(InvalidStamp))
    case Some(current) =>
      var (after, broke) := ApplyFrom(db, ms, faults, current);
      (after, if broke.Some? then Err(StepFailed(broke.value)) else Ok(()))
  }

  function AllWork<D>(n: nat): (faults: seq<Fault<D>>)
    ensures |faults| == n
  {
    seq(n, _ => Works)
  }

  predicate Increasing<D>(ms: seq<Migration<D>>) {
    forall i, j | 0 <= i < j < |ms| :: ms[i].version < ms[j].version
  }

  // ----- the runner -----

  class Connection<D> {
    var data: D
    var stamp: Stamp
    var savepoint: Option<Database<D>>

    ghost function Contents(): Database<D>
      reads this
    {
      Database(data, stamp)
    }

    /** What is left when the connection closes: an open savepoint's writes are not. */
    ghost function Stored(): Database<D>
      reads this
    {
      if savepoint.Some? then savepoint.value else Contents()
    }

    constructor (db: Database<D>)
      ensures Contents() == db && savepoint.None?
    {
      data, stamp, savepoint := db.data, db.stamp, None;
    }

    method Savepoint()
      modifies this`savepoint
      ensures savepoint == Some(Contents())
    {
      savepoint := Some(Database(data, stamp));
    }

    method Release()
      modifies this`savepoint
      ensures savepoint.None?
    {
      savepoint := None;
    }

    method RollbackTo()
      requires savepoint.Some?
      modifies this
      ensures Contents() == old(savepoint.value) && savepoint == old(savepoint)
    {
      data, stamp := savepoint.value.data, savepoint.value.stamp;
    }

    /** A step and its stamp; on failure whatever they wrote is still there. */
    method Step(m: Migration<D>, fault: Fault<D>) returns (ok: bool)
      requires !fault.NoSavepoint?
      modifies this
      ensures savepoint == old(savepoint)
      ensures ok <==> (fault.Works? || fault.ReleaseBreaks?) && m.up(old(data)).Done?
      ensures ok ==> Contents() == Database(m.up(old(data)).data, At(m.version))
    {
      if fault.UpBreaks? || fault.RollbackBreaks? {
        data := fault.written;
        return false;
      }
      match m.up(data) {
        case Broke(written) =>
          data := written;
          return false;
        case Done(written) =>
          data := written;
      }
      if fault.StampBreaks? {
        return false;
      }
      stamp := At(m.version);
      return true;
    }

    method ApplyMigrations(ms: seq<Migration<D>>, faults: seq<Fault<D>>) returns (r: Result<(), MigrationError>)
      requires |faults| == |ms| && savepoint.None?
      modifies this
      ensures (Stored(), r) == Apply(old(Contents()), ms, faults)
      ensures savepoint.Some? ==>
                r.Err? && exists i :: 0 <= i < |ms| && (faults[i].RollbackBreaks? || faults[i].ReleaseBreaks?)
    {
      var version := SchemaVersion(stamp);
      if version.None? {
        return Err(InvalidStamp);
      }
      var current := version.value;
      for i := 0 to |ms|
        invariant savepoint.None?
        invariant ApplyFrom(Contents(), ms[i..], faults[i..], current)
               == ApplyFrom(old(Contents()), ms, faults, current)
      {
        if ms[i].version > current {
          if faults[i].NoSavepoint? {
            return Err(StepFailed(ms[i].version));
          }
          Savepoint();
          var ok := Step(ms[i], faults[i]);
          if !ok {
            if !faults[i].RollbackBreaks? {
              RollbackTo();
              Release();
            }
            return Err(StepFailed(ms[i].version));
          }
          if faults[i].ReleaseBreaks? {
            return Err(StepFailed(ms[i].version));
          }
          Release();
        }
      }
      return Ok(());
    }
  }

  // ----- the result is a fold -----

  /** The steps above `current`, one after the other; `None` once one fails by itself. */
  function Upgraded<D>(db: Database<D>, ms: seq<Migration<D>>, current: nat): Option<Database<D>> {
    if ms == [] then Some(db)
    else
      var n := |ms| - 1;
      match Upgraded(db, ms[..n], current)
      case None => None
      case Some(before) =>
        if ms[n].version <= current then Some(before)
        else
          match ms[n].up(before.data)
          case Broke(_) => None
          case Done(data) => Some(Database(data, At(ms[n].version)))
  }

  /** The steps one after the other, with no thought of versions or stamps. */
  function UpAll<D>(data: D, ms: seq<Migration<D>>): Option<D>
    decreases |ms|
  {
    if ms == [] then Some(data)
    else
      match ms[0].up(data)
      case Broke(_) => None
      case Done(next) => UpAll(next, ms[1..])
  }

  lemma {:induction false} RunsAllAbove<D>(db: Database<D>, ms: seq<Migration<D>>, faults: seq<Fault<D>>, current: nat)
    requires |faults| == |ms| && UpAll(db.data, ms).Some?
    requires forall i | 0 <= i < |ms| :: ms[i].version > current && faults[i].Works?
    ensures ApplyFrom(db, ms, faults, current)
         == (Database(UpAll(db.data, ms).value, if ms == [] then db.stamp else At(ms[|ms| - 1].version)), None)
    decreases |ms|
  {
    if ms != [] {
      RunsAllAbove(Database(ms[0].up(db.data).data, At(ms[0].version)), ms[1..], faults[1..], current);
    }
  }

  lemma {:induction false} SkipsAllBelow<D>(db: Database<D>, ms: seq<Migration<D>>, faults: seq<Fault<D>>, current: nat,
                                            n: nat)
    requires |faults| == |ms| && n <= |ms| && forall i | 0 <= i < n :: ms[i].version <= current
    ensures ApplyFrom(db, ms, faults, current) == ApplyFrom(db, ms[n..], faults[n..], current)
    decreases |ms|
  {
    if n > 0 {
      SkipsAllBelow(db, ms[1..], faults[1..], current, n - 1);
      assert ms[1..][n - 1..] == ms[n..] && faults[1..][n - 1..] == faults[n..];
    } else {
      assert ms[0..] == ms && faults[0..] == faults;
    }
  }

  /** An undisturbed run of steps that all work: the ones the database has seen are left
      out, the others done in order, and the last one's version is stamped. A database
      without a stamp has seen none above 0. */
  lemma NewerStepsRun<D>(db: Database<D>, ms: seq<Migration<D>>, n: nat)
    requires n <= |ms| && UpAll(db.data, ms[n..]).Some?
    requires db.stamp.Unset? || db.stamp.At?
    requires var seen := if db.stamp.Unset? then 0 else db.stamp.version;
             && (forall i | 0 <= i < n :: ms[i].version <= seen)
             && (forall i | n <= i < |ms| :: ms[i].version > seen)
    ensures var stamp := if n == |ms| then db.stamp else At(ms[|ms| - 1].version);
            Apply(db, ms, AllWork(|ms|)) == (Database(UpAll(db.data, ms[n..]).value, stamp), Ok(()))
  {
    var seen := if db.stamp.Unset? then 0 else db.stamp.version;
    var faults: seq<Fault<D>> := AllWork(|ms|);
    SkipsAllBelow(db, ms, faults, seen, n);
    RunsAllAbove(db, ms[n..], faults[n..], seen);
  }

  lemma GarbledStampRefused<D>(db: Database<D>, ms: seq<Migration<D>>, faults: seq<Fault<D>>)
    requires |faults| == |ms|
    ensures db.stamp.Garbled? <==> Apply(db, ms, faults) == (db, Err(InvalidStamp))
  {
  }

  /** The run got through exactly the first `j` migrations: their fold is what is
      stored, stamp included, and the next one is where it broke. */
  ghost predicate StoppedAfter<D>(db: Database<D>, ms: seq<Migration<D>>, faults: seq<Fault<D>>, current: nat, j: nat)
    requires |faults| == |ms|
  {
    && j <= |ms|
    && (forall i | 0 <= i < j && ms[i].version > current :: faults[i].Works?)
    && Upgraded(db, ms[..j], current).Some?
    && var (after, broke) := ApplyFrom(db, ms, faults, current);
       && Upgraded(db, ms[..j], current) == Some(after)
       && if j == |ms| then broke.None?
          else broke == Some(ms[j].version) && ms[j].version > current && Tried(ms[j], after.data, faults[j]).Broke?
  }

  lemma {:induction false} UpgradedFromFront<D>(db: Database<D>, ms: seq<Migration<D>>, current: nat)
    requires ms != []
    ensures Upgraded(db, ms, current)
         == if ms[0].version <= current then Upgraded(db, ms[1..], current)
            else match ms[0].up(db.data)
                 case Broke(_) => None
                 case Done(data) => Upgraded(Database(data, At(ms[0].version)), ms[1..], current)
  {
    var n := |ms| - 1;
    assert ms[..n] + [ms[n]] == ms;
    if n > 0 {
      UpgradedFromFront(db, ms[..n], current);
      assert ms[..n][1..] == ms[1..][..n - 1];
    }
  }

  lemma DoneMeansWorked<D>(m: Migration<D>, data: D, fault: Fault<D>)
    requires Tried(m, data, fault).Done?
    ensures fault.Works? && m.up(data) == Tried(m, data, fault)
  {
  }

  /** A run, whatever fails in it, leaves the fold of a prefix of the migrations:
      all of it when nothing failed, up to the failed step otherwise, with
      nothing the failed step wrote. */
  lemma {:induction false} RunIsFold<D>(db: Database<D>, ms: seq<Migration<D>>, faults: seq<Fault<D>>, current: nat)
    requires |faults| == |ms|
    ensures exists j: nat :: StoppedAfter(db, ms, faults, current, j)
    decreases |ms|
  {
    hide Tried;
    if ms == [] || (ms[0].version > current && Tried(ms[0], db.data, faults[0]).Broke?) {
      assert StoppedAfter(db, ms, faults, current, 0);
    } else {
      var next := if ms[0].version <= current then db
                  else Database(Tried(ms[0], db.data, faults[0]).data, At(ms[0].version));
      RunIsFold(next, ms[1..], faults[1..], current);
      if ms[0].version > current {
        DoneMeansWorked(ms[0], db.data, faults[0]);
      }
      var j: nat :| StoppedAfter(next, ms[1..], faults[1..], current, j);
      assert ms[..j + 1][1..] == ms[1..][..j];
      UpgradedFromFront(db, ms[..j + 1], current);
      assert forall i | 0 < i < j + 1 && ms[i].version > current ::
          faults[i] == faults[1..][i - 1] && ms[i] == ms[1..][i - 1];
      assert StoppedAfter(db, ms, faults, current, j + 1);
    }
  }

  // ----- interrupted runs -----

  lemma {:induction false} SameAbove<D>(db: Database<D>, ms: seq<Migration<D>>, faults: seq<Fault<D>>, c: nat, c': nat)
    requires |faults| == |ms|
    requires forall i | 0 <= i < |ms| :: ms[i].version > c <==> ms[i].version > c'
    ensures ApplyFrom(db, ms, faults, c) == ApplyFrom(db, ms, faults, c')
    decreases |ms|
  {
    if ms != [] {
      var next := match Tried(ms[0], db.data, faults[0])
        case Broke(_) => db
        case Done(data) => Database(data, At(ms[0].version));
      SameAbove(db, ms[1..], faults[1..], c, c');
      SameAbove(next, ms[1..], faults[1..], c, c');
    }
  }

  /** A cut-short run followed by an undisturbed one is one undisturbed run; after
      a complete one, nothing is left to do, whatever would fail. */
  lemma {:induction false} ResumeFrom<D>(db: Database<D>, ms: seq<Migration<D>>, faults: seq<Fault<D>>, current: nat)
    requires |faults| == |ms| && Increasing(ms)
    requires SchemaVersion(db.stamp) == Some(current)
    ensures var (cut, broke) := ApplyFrom(db, ms, faults, current);
            && SchemaVersion(cut.stamp).Some? && SchemaVersion(cut.stamp).value >= current
            && ApplyFrom(cut, ms, AllWork(|ms|), SchemaVersion(cut.stamp).value)
                 == ApplyFrom(db, ms, AllWork(|ms|), current)
            && (broke.None? ==> forall i | 0 <= i < |ms| :: ms[i].version <= SchemaVersion(cut.stamp).value)
    decreases |ms|
  {
    if ms != [] {
      var works := AllWork<D>(|ms|);
      assert works[1..] == AllWork(|ms| - 1);
      if ms[0].version <= current {
        ResumeFrom(db, ms[1..], faults[1..], current);
      } else if Tried(ms[0], db.data, faults[0]).Done? {
        var next := Database(Tried(ms[0], db.data, faults[0]).data, At(ms[0].version));
        ResumeFrom(next, ms[1..], faults[1..], ms[0].version);
        SameAbove(next, ms[1..], faults[1..], ms[0].version, current);
        SameAbove(next, ms[1..], works[1..], ms[0].version, current);
      }
    }
  }

  lemma {:induction false} NothingAbove<D>(db: Database<D>, ms: seq<Migration<D>>, faults: seq<Fault<D>>, current: nat)
    requires |faults| == |ms|
    requires forall i | 0 <= i < |ms| :: ms[i].version <= current
    ensures ApplyFrom(db, ms, faults, current) == (db, None)
  {
    if ms != [] {
      NothingAbove(db, ms[1..], faults[1..], current);
    }
  }

  function RunAll<D>(db: Database<D>, ms: seq<Migration<D>>, runs: seq<seq<Fault<D>>>): Database<D>
    requires forall i | 0 <= i < |runs| :: |runs[i]| == |ms|
    decreases |runs|
  {
    if runs == [] then db else RunAll(Apply(db, ms, runs[0]).0, ms, runs[1..])
  }

  /** However many runs were cut short, and wherever, an undisturbed run then ends
      as if it had been the only one. */
  lemma {:induction false} InterruptionsDoNotMatter<D>(db: Database<D>, ms: seq<Migration<D>>, runs: seq<seq<Fault<D>>>)
    requires Increasing(ms)
    requires forall i | 0 <= i < |runs| :: |runs[i]| == |ms|
    ensures Apply(RunAll(db, ms, runs), ms, AllWork(|ms|)) == Apply(db, ms, AllWork(|ms|))
    decreases |runs|
  {
    if runs != [] {
      InterruptionsDoNotMatter(Apply(db, ms, runs[0]).0, ms, runs[1..]);
      if !db.stamp.Garbled? {
        ResumeFrom(db, ms, runs[0], SchemaVersion(db.stamp).value);
      }
    }
  }

  /** A run that succeeded leaves nothing for the next, even one in which every
      step would fail. */
  lemma FurtherRunDoesNothing<D>(db: Database<D>, ms: seq<Migration<D>>, faults: seq<Fault<D>>, later: seq<Fault<D>>)
    requires Increasing(ms) && |faults| == |later| == |ms|
    requires Apply(db, ms, faults).1.Ok?
    ensures var after := Apply(db, ms, faults).0;
            Apply(after, ms, later) == (after, Ok(()))
  {
    var current := SchemaVersion(db.stamp).value;
    ResumeFrom(db, ms, faults, current);
    var (after, broke) := ApplyFrom(db, ms, faults, current);
    assert broke.None?;
    NothingAbove(after, ms, later, SchemaVersion(after.stamp).value);
  }

  /** Increasing versions are needed: with 2 listed before 1 the stamp ends at 1,
      and a second run repeats step 2. */
  lemma OrderMatters(up: int -> Attempt<int>)
    requires forall x :: up(x) == Done(x + 1)
    ensures var ms := [Migration(2, up), Migration(1, up)];
            var once := Apply(Database(0, Unset), ms, AllWork(2)).0;
            once == Database(2, At(1)) && Apply(once, ms, AllWork(2)).0 == Database(3, At(2))
  {
    var ms := [Migration(2, up), Migration(1, up)];
    var one := [Migration(1, up)];
    var w2, w1 := AllWork<int>(2), AllWork<int>(1);
    assert ms[1..] == one && w2[1..] == w1 && w1[1..] == AllWork(0) && one[1..] == [];
    assert ApplyFrom(Database(1, At(2)), one, w1, 0) == (Database(2, At(1)), None);
    assert ApplyFrom(Database(3, At(2)), one, w1, 1) == (Database(3, At(2)), None);
  }
}
