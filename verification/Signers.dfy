/**
 Migration 16's repair: a document version that ended up with several signers
 keeps the first by (position, id) and records the others as collaborators, so
 that the one-signer index can be built.
 */
module Signers {
  import opened Outcomes
  import opened Tables

  datatype Role = Signer | Collaborator

  datatype Recipient = Recipient(version: Id, role: Role, position: int, name: string, email: string, token: string)

  type Recipients = map<Id, Recipient>

  predicate IsSigner(t: Recipients, id: Id) {
    id in t && t[id].role.Signer?
  }

  /** `a` comes before `b` in the frozen order of their version. */
  predicate Before(t: Recipients, a: Id, b: Id)
    requires a in t && b in t
  {
    t[a].version == t[b].version
    && (t[a].position < t[b].position || (t[a].position == t[b].position && a < b))
  }

  /** A signer that is not the first of its version. */
  predicate Extra(t: Recipients, id: Id) {
    IsSigner(t, id) && exists other | other in t :: IsSigner(t, other) && Before(t, other, id)
  }

  function SignersOf(t: Recipients, version: Id): set<Id> {
    set id | id in t && IsSigner(t, id) && t[id].version == version
  }

  function AllSigners(t: Recipients): set<Id> {
    set id | id in t && IsSigner(t, id)
  }

  function Extras(t: Recipients): set<Id> {
    set id | id in t && Extra(t, id)
  }

  function SignedVersions(t: Recipients): set<Id> {
    set id | id in AllSigners(t) :: t[id].version
  }

  /** The extra signers among `ids` demoted, all at once. */
  function DemotedIn(t: Recipients, ids: set<Id>): Recipients {
    map id | id in t :: if id in ids && Extra(t, id) then t[id].(role := Collaborator) else t[id]
  }

  function Demoted(t: Recipients): Recipients {
    DemotedIn(t, t.Keys)
  }

  predicate IsFirst(t: Recipients, version: Id, id: Id) {
    && id in SignersOf(t, version)
    && forall other | other in SignersOf(t, version) :: other == id || Before(t, id, other)
  }

  /** The first signer of a version: lowest in position, and of equals the oldest row. */
  lemma FirstIsLowest(t: Recipients, version: Id, id: Id)
    ensures IsFirst(t, version, id)
       <==> && id in t && t[id].role == Signer && t[id].version == version
            && forall other | other in t && t[other].role == Signer && t[other].version == version ::
                 t[id].position < t[other].position || (t[id].position == t[other].position && id <= other)
  {
    if IsFirst(t, version, id) {
      forall other | other in t && t[other].role == Signer && t[other].version == version
        ensures t[id].position < t[other].position || (t[id].position == t[other].position && id <= other)
      {
        assert other in SignersOf(t, version);
      }
    }
  }

  function Earlier(t: Recipients, id: Id): set<Id>
    requires id in t
  {
    set other | other in t && IsSigner(t, other) && Before(t, other, id)
  }

  // ----- row by row is all at once -----

  /** Before every extra signer of a version stands one that is kept. */
  lemma {:induction false} KeptBefore(t: Recipients, id: Id) returns (kept: Id)
    requires Extra(t, id)
    ensures IsSigner(t, kept) && !Extra(t, kept) && Before(t, kept, id)
    decreases |Earlier(t, id)|
  {
    kept :| kept in t && IsSigner(t, kept) && Before(t, kept, id);
    if Extra(t, kept) {
      assert kept in Earlier(t, id) && kept !in Earlier(t, kept);
      assert Earlier(t, kept) <= Earlier(t, id);
      SmallerSet(Earlier(t, kept), Earlier(t, id), kept);
      kept := KeptBefore(t, kept);
    }
  }

  lemma SmallerSet(a: set<Id>, b: set<Id>, x: Id)
    requires a <= b && x in b && x !in a
    ensures |a| < |b|
  {
    var rest := b - {x};
    assert a <= rest;
    SubsetSize(a, rest);
  }

  lemma {:induction false} SubsetSize(a: set<Id>, b: set<Id>)
    requires a <= b
    ensures |a| <= |b|
  {
    if a != {} {
      var x := Pick(a);
      SubsetSize(a - {x}, b - {x});
    }
  }

  /** Demoting some rows first does not change which of the others are extra. */
  lemma StillExtra(t: Recipients, ids: set<Id>, id: Id)
    requires id in t && id !in ids
    ensures Extra(DemotedIn(t, ids), id) <==> Extra(t, id)
  {
    var now := DemotedIn(t, ids);
    if Extra(t, id) {
      var kept := KeptBefore(t, id);
      assert IsSigner(now, kept) && Before(now, kept, id);
    }
    if Extra(now, id) {
      var other :| other in now && IsSigner(now, other) && Before(now, other, id);
      assert IsSigner(t, other) && Before(t, other, id);
    }
  }

  lemma DemoteOne(t: Recipients, ids: set<Id>, id: Id)
    requires id in t
    ensures var now := DemotedIn(t, ids);
            DemotedIn(t, ids + {id}) == if Extra(t, id) then now[id := now[id].(role := Collaborator)] else now
    ensures id !in ids ==> DemotedIn(t, ids)[id] == t[id]
  {
    hide Extra;
  }

  lemma DemotedOfNone(t: Recipients)
    ensures DemotedIn(t, {}) == t
  {
  }

  /** What row `id` is tested for: not being the first signer of its version. */
  lemma ExtraIsNotFirst(t: Recipients, id: Id, first: Id)
    requires IsSigner(t, id) && IsFirst(t, t[id].version, first)
    ensures Extra(t, id) <==> id != first
  {
    if Extra(t, id) {
      var other :| other in t && IsSigner(t, other) && Before(t, other, id);
      assert other in SignersOf(t, t[id].version);
    }
  }

  lemma IsOneOfItsVersion(t: Recipients, id: Id)
    requires id in t && t[id].role.Signer?
    ensures SignersOf(t, t[id].version) != {} && IsSigner(t, id)
  {
    assert id in SignersOf(t, t[id].version);
  }

  lemma CollaboratorIsNotExtra(t: Recipients, id: Id)
    requires id in t && !t[id].role.Signer?
    ensures !Extra(t, id)
  {
  }

  class Documents {
    var recipients: Recipients

    /** The subquery: the first signer of a version in the table as it now is. */
    method FirstSigner(version: Id) returns (first: Option<Id>)
      ensures first.None? <==> SignersOf(recipients, version) == {}
      ensures first.Some? ==> IsFirst(recipients, version, first.value)
    {
      first := None;
      var left := recipients.Keys;
      while left != {}
        invariant left <= recipients.Keys
        invariant first.None? ==> forall id | id in SignersOf(recipients, version) :: id in left
        invariant first.Some? ==>
          && first.value in SignersOf(recipients, version)
          && forall id | id in SignersOf(recipients, version) && id !in left ::
               id == first.value || Before(recipients, first.value, id)
        decreases |left|
      {
        ghost var some := Pick(left);
        var id :| id in left;
        left := left - {id};
        var row := recipients[id];
        if row.role == Signer && row.version == version {
          if first.None? || Before(recipients, id, first.value) {
            first := Some(id);
          }
        }
      }
      if first.None? && SignersOf(recipients, version) != {} {
        var id := Pick(SignersOf(recipients, version));
        assert false;
      }
    }

    /** The update, row by row in no particular order, each row testing the table
        as the rows before it left it; how many rows changed, if any. */
    method DemoteExtraSigners() returns (notice: Option<nat>)
      modifies this
      ensures recipients == Demoted(old(recipients))
      ensures notice == if Extras(old(recipients)) == {} then None else Some(|Extras(old(recipients))|)
    {
      hide Extra, IsFirst, SignersOf, DemotedIn, IsSigner;
      ghost var before := recipients;
      ghost var done: set<Id> := {};
      ghost var changed: set<Id> := {};
      var left := recipients.Keys;
      var demoted := 0;
      DemotedOfNone(before);
      while left != {}
        invariant left <= before.Keys && done <= before.Keys && recipients.Keys == before.Keys
        invariant forall id | id in before :: id in done <==> id !in left
        invariant recipients == DemotedIn(before, done)
        invariant demoted == |changed|
        invariant forall id :: id in changed <==> id in done && Extra(before, id)
        decreases |left|
      {
        ghost var some := Pick(left);
        var id :| id in left;
        left := left - {id};
        StillExtra(before, done, id);
        DemoteOne(before, done, id);
        if recipients[id].role == Signer {
          IsOneOfItsVersion(recipients, id);
          var first := FirstSigner(recipients[id].version);
          ExtraIsNotFirst(recipients, id, first.value);
          if id != first.value {
            recipients := recipients[id := recipients[id].(role := Collaborator)];
            demoted := demoted + 1;
            changed := changed + {id};
          }
        } else {
          CollaboratorIsNotExtra(recipients, id);
        }
        done := done + {id};
      }
      forall id | id in before
        ensures id in done
      {
        assert id !in left;
      }
      if done != before.Keys {
        var x := Difference(done, before.Keys);
        assert false;
      }
      if changed != Extras(before) {
        var x := Difference(changed, Extras(before));
        assert false;
      }
      return if demoted > 0 then Some(demoted) else None;
    }
  }

  // ----- what it achieves -----

  /** A version with signers keeps exactly its first; one without gets none. */
  lemma FirstSignerRemains(t: Recipients, version: Id)
    ensures forall id :: id in SignersOf(Demoted(t), version) <==> IsFirst(t, version, id)
    ensures SignersOf(t, version) != {} ==> exists id :: IsFirst(t, version, id)
  {
    forall id
      ensures id in SignersOf(Demoted(t), version) <==> IsFirst(t, version, id)
    {
      if id in SignersOf(t, version) {
        if IsFirst(t, version, id) {
          ExtraIsNotFirst(t, id, id);
        }
        forall other | other in SignersOf(t, version) && other != id && !Extra(t, id)
          ensures Before(t, id, other)
        {
          assert !Before(t, other, id);
        }
      }
    }
    if SignersOf(t, version) != {} {
      var id := Pick(SignersOf(t, version));
      if Extra(t, id) {
        id := KeptBefore(t, id);
      }
      assert id in SignersOf(Demoted(t), version);
    }
  }

  /** Only roles change, and only from signer to collaborator. */
  lemma OnlyRolesChange(t: Recipients, id: Id)
    requires id in t
    ensures id in Demoted(t) && Demoted(t)[id].(role := t[id].role) == t[id]
    ensures Demoted(t)[id] != t[id] <==> Extra(t, id)
  {
  }

  predicate OneSignerPerVersion(t: Recipients) {
    forall a, b | a in t && b in t && IsSigner(t, a) && IsSigner(t, b) && t[a].version == t[b].version :: a == b
  }

  /** The unique index can be built exactly when nothing is left to demote. */
  lemma IndexBuildsExactly(t: Recipients)
    ensures OneSignerPerVersion(t) <==> Extras(t) == {}
    ensures OneSignerPerVersion(t) <==> Demoted(t) == t
  {
    if Extras(t) != {} {
      var id := Pick(Extras(t));
      var kept := KeptBefore(t, id);
      assert Demoted(t)[id] != t[id];
    } else {
      forall a, b | IsSigner(t, a) && IsSigner(t, b) && t[a].version == t[b].version
        ensures a == b
      {
        assert a !in Extras(t) && b !in Extras(t);
      }
      forall id | id in t
        ensures Demoted(t)[id] == t[id]
      {
        assert id !in Extras(t);
      }
      assert Demoted(t) == t;
    }
  }

  /** Afterwards the index can be built, and a second run demotes nobody. */
  lemma DemotedOnceForAll(t: Recipients)
    ensures OneSignerPerVersion(Demoted(t)) && Extras(Demoted(t)) == {} && Demoted(Demoted(t)) == Demoted(t)
  {
    var now := Demoted(t);
    forall a, b | IsSigner(now, a) && IsSigner(now, b) && now[a].version == now[b].version
      ensures a == b
    {
      FirstSignerRemains(t, now[a].version);
      assert a in SignersOf(now, now[a].version) && b in SignersOf(now, now[a].version);
    }
    IndexBuildsExactly(now);
  }

  // ----- how many -----

  lemma {:induction false} ImageSize(t: Recipients, ids: set<Id>)
    requires ids <= t.Keys
    requires forall a, b | a in ids && b in ids && t[a].version == t[b].version :: a == b
    ensures |set id | id in ids :: t[id].version| == |ids|
  {
    var image := set id | id in ids :: t[id].version;
    if ids != {} {
      var x := Pick(ids);
      var rest := ids - {x};
      ImageSize(t, rest);
      var restImage := set id | id in rest :: t[id].version;
      assert t[x].version !in restImage;
      assert image == restImage + {t[x].version};
    }
  }

  function Kept(t: Recipients): set<Id> {
    set id | id in t && IsSigner(t, id) && !Extra(t, id)
  }

  lemma KeptVersionsDiffer(t: Recipients, a: Id, b: Id)
    requires a in Kept(t) && b in Kept(t) && t[a].version == t[b].version
    ensures a == b
  {
    assert !Before(t, a, b) && !Before(t, b, a);
  }

  lemma KeptVersions(t: Recipients)
    ensures (set id | id in Kept(t) :: t[id].version) == SignedVersions(t)
  {
    hide Extra;
    var versions := set id | id in Kept(t) :: t[id].version;
    forall v | v in SignedVersions(t)
      ensures v in versions
    {
      var id :| id in AllSigners(t) && t[id].version == v;
      if Extra(t, id) {
        var kept := KeptBefore(t, id);
        assert kept in Kept(t);
      } else {
        assert id in Kept(t);
      }
    }
  }

  lemma KeptOrExtra(t: Recipients)
    ensures |AllSigners(t)| == |Kept(t)| + |Extras(t)|
  {
    hide Before;
    if AllSigners(t) != Kept(t) + Extras(t) {
      var x := Difference(AllSigners(t), Kept(t) + Extras(t));
      assert false;
    }
    assert Kept(t) !! Extras(t);
  }

  /** The count returned is all signers less one for each version that has any. */
  lemma DemotedCount(t: Recipients)
    ensures |Extras(t)| == |AllSigners(t)| - |SignedVersions(t)|
  {
    hide Extra, Extras, AllSigners, SignedVersions;
    forall a, b | a in Kept(t) && b in Kept(t) && t[a].version == t[b].version
      ensures a == b
    {
      KeptVersionsDiffer(t, a, b);
    }
    ImageSize(t, Kept(t));
    KeptVersions(t);
    KeptOrExtra(t);
  }
}
