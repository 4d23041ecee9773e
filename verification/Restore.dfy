/**
 Copying the documents tree out with a backup and swapping it back in. Which
 file-system calls fail is an input; a failed removal or copy may have done part of
 its work, a failed rename has done nothing.
 */
module Restore {
  import opened Outcomes

  datatype Node = File(content: string) | Folder(entries: seq<Entry>)

  datatype Entry = Entry(name: string, node: Node)

  function FileCount(tree: Node): nat
    decreases tree
  {
    match tree
    case File(_) => 1
    case Folder(entries) => FilesIn(entries)
  }

  function FilesIn(entries: seq<Entry>): nat
    decreases entries
  {
    if entries == [] then 0
    else FilesIn(entries[..|entries| - 1]) + FileCount(entries[|entries| - 1].node)
  }

  /** Every file of a tree, by the names that lead to it. */
  function Files(tree: Node): (paths: seq<seq<string>>)
    decreases tree
  {
    match tree
    case File(_) => [[]]
    case Folder(entries) => FilesOf(entries)
  }

  function FilesOf(entries: seq<Entry>): (paths: seq<seq<string>>)
    decreases entries
  {
    if entries == [] then []
    else FilesOf(entries[..|entries| - 1]) + Under(entries[|entries| - 1].name, Files(entries[|entries| - 1].node))
  }

  function Under(name: string, paths: seq<seq<string>>): (longer: seq<seq<string>>)
    ensures |longer| == |paths|
  {
    seq(|paths|, i requires 0 <= i < |paths| => [name] + paths[i])
  }

  /** What is counted is the files, each once. */
  lemma {:induction false} CountsFiles(tree: Node)
    ensures FileCount(tree) == |Files(tree)|
    decreases tree
  {
    if tree.Folder? {
      CountsFilesIn(tree.entries);
    }
  }

  lemma {:induction false} CountsFilesIn(entries: seq<Entry>)
    ensures FilesIn(entries) == |FilesOf(entries)|
    decreases entries
  {
    if entries != [] {
      CountsFilesIn(entries[..|entries| - 1]);
      CountsFiles(entries[|entries| - 1].node);
    }
  }

  /** The calls that copying a tree takes: one to make a folder, one to read each of
      its entries, one to copy a file. */
  function CopyCalls(tree: Node): nat
    decreases tree
  {
    match tree
    case File(_) => 1
    case Folder(entries) => 1 + CallsIn(entries)
  }

  function CallsIn(entries: seq<Entry>): nat
    decreases entries
  {
    if entries == [] then 0
    else CallsIn(entries[..|entries| - 1]) + 1 + CopyCalls(entries[|entries| - 1].node)
  }

  lemma {:induction false} CallsInGrows(entries: seq<Entry>, i: nat)
    requires i <= |entries|
    ensures CallsIn(entries[..i]) <= CallsIn(entries)
  {
    if i == |entries| {
      assert entries[..i] == entries;
    } else {
      var front := entries[..|entries| - 1];
      CallsInGrows(front, i);
      assert front[..i] == entries[..i];
    }
  }

  ghost predicate AnyFails(fails: nat -> bool, first: nat, end: nat) {
    exists n :: first <= n < end && fails(n)
  }

  /** A copy numbers its calls from 0. */
  ghost predicate CopyFails(fails: nat -> bool, src: Node) {
    AnyFails(fails, 0, CopyCalls(src))
  }

  predicate IsFolder(slot: Option<Node>) {
    slot.Some? && slot.value.Folder?
  }

  /** The call that failed. */
  datatype Call = Check | ClearStaging | ClearOld | Copy | MoveOut | MoveIn

  /** The first says that the live folder was left as it was. */
  datatype RestoreError = LeftAsItWas(call: Call) | OldNotRemoved | LinkNotResolved

  datatype CopyError = NotCopied(call: Call) | BackupNotRemoved | NotRenamed

  /** Which calls of a copy out fail when they are made. */
  datatype OutFaults = OutFaults(clearTemp: bool, copy: nat -> bool, cleanTemp: bool, removeOld: bool, rename: bool)

  ghost predicate NoneFail(f: OutFaults) {
    !f.clearTemp && !f.removeOld && !f.rename && forall n :: !f.copy(n)
  }

  /** Which calls of a restore fail when they are made; putting the old folder back and
      the last cleaning of the staging are made only after another has failed. */
  datatype InFaults = InFaults(resolve: bool, clearStaging: bool, clearOld: bool, copy: nat -> bool, moveOut: bool,
                               moveIn: bool, putBack: bool, cleanStaging: bool, removeOld: bool)

  ghost predicate NoneFails(f: InFaults) {
    !f.resolve && !f.clearStaging && !f.clearOld && !f.moveOut && !f.moveIn && !f.removeOld && forall n :: !f.copy(n)
  }

  lemma CopySucceeds(fails: nat -> bool, src: Node)
    ensures (forall n :: !fails(n)) ==> !CopyFails(fails, src)
  {
  }

  lemma OneCall(fails: nat -> bool, n: nat)
    ensures AnyFails(fails, n, n + 1) <==> fails(n)
  {
  }

  lemma SomeFails(fails: nat -> bool, n: nat, first: nat, end: nat)
    requires first <= n < end && fails(n)
    ensures AnyFails(fails, first, end)
  {
  }

  lemma FailsInPart(fails: nat -> bool, first: nat, mid: nat, next: nat, end: nat)
    requires first <= mid <= next <= end && !AnyFails(fails, first, mid)
    ensures AnyFails(fails, mid, next) ==> AnyFails(fails, first, end)
    ensures !AnyFails(fails, mid, next) ==> !AnyFails(fails, first, next)
  {
  }

  lemma FolderCalls(src: Node)
    requires src.Folder?
    ensures CopyCalls(src) == 1 + CallsIn(src.entries) && FileCount(src) == FilesIn(src.entries)
  {
  }

  lemma OneMoreEntry(entries: seq<Entry>, i: nat)
    requires i < |entries|
    ensures entries[..i + 1] == entries[..i] + [entries[i]]
    ensures CallsIn(entries[..i + 1]) == CallsIn(entries[..i]) + 1 + CopyCalls(entries[i].node) <= CallsIn(entries)
    ensures FilesIn(entries[..i + 1]) == FilesIn(entries[..i]) + FileCount(entries[i].node)
  {
    hide *;
    CallsInGrows(entries, i + 1);
    CallsOneMore(entries[..i], entries[i]);
    FilesOneMore(entries[..i], entries[i]);
  }

  lemma CallsOneMore(entries: seq<Entry>, next: Entry)
    ensures CallsIn(entries + [next]) == CallsIn(entries) + 1 + CopyCalls(next.node)
  {
    hide CopyCalls;
    assert (entries + [next])[..|entries|] == entries;
  }

  lemma FilesOneMore(entries: seq<Entry>, next: Entry)
    ensures FilesIn(entries + [next]) == FilesIn(entries) + FileCount(next.node)
  {
    hide FileCount;
    assert (entries + [next])[..|entries|] == entries;
  }

  class Disk {
    var linked: bool             // whether <data_dir>/documents is a symbolic link
    var live: Option<Node>       // that folder, or the link's target
    var staging: Option<Node>    // documents.restoring
    var replaced: Option<Node>   // documents.replaced
    var backup: Option<Node>     // the folder that accompanies the backup
    var temp: Option<Node>       // that folder's .tmp

    constructor (linked: bool, live: Option<Node>, backup: Option<Node>)
      ensures this.linked == linked && this.live == live && this.backup == backup
      ensures staging.None? && replaced.None? && temp.None?
    {
      this.linked, this.live, this.backup := linked, live, backup;
      staging, replaced, temp := None, None, None;
    }

    /** What a removal leaves at a path; part of a folder may be gone even when it fails. */
    static method Removed(slot: Option<Node>, fails: bool) returns (ok: bool, left: Option<Node>)
      ensures ok == (slot.None? || !fails) && left.None? == ok
    {
      if slot.Some? && fails {
        var rest: Node := *;
        return false, Some(rest);
      }
      return true, None;
    }

    /** Copies a folder to a path where nothing is; `made` is what is there afterwards,
        `next` the number of the call that comes after. */
    static method CopyTree(src: Node, fails: nat -> bool, first: nat)
      returns (ok: bool, copied: nat, made: Option<Node>, next: nat)
      requires src.Folder?
      ensures ok <==> !AnyFails(fails, first, first + CopyCalls(src))
      ensures ok ==> made == Some(src) && copied == FileCount(src) && next == first + CopyCalls(src)
      decreases src
    {
      hide AnyFails, CopyCalls, FileCount;
      FolderCalls(src);
      OneCall(fails, first);
      copied, made, next := 0, None, first + 1;
      if fails(first) {
        SomeFails(fails, first, first, first + CopyCalls(src));
        return false, 0, None, next;
      }
      var entries := [];
      for i := 0 to |src.entries|
        invariant entries == src.entries[..i] && copied == FilesIn(entries)
        invariant next == first + 1 + CallsIn(entries) && !AnyFails(fails, first, next)
      {
        ghost var before := next;
        var count, child;
        ok, count, child, next := CopyEntry(src.entries[i], fails, next);
        OneMoreEntry(src.entries, i);
        FailsInPart(fails, first, before, before + 1 + CopyCalls(src.entries[i].node), first + CopyCalls(src));
        if !ok {
          var part := if child.Some? then [Entry(src.entries[i].name, child.value)] else [];
          return false, copied, Some(Folder(entries + part)), next;
        }
        entries, copied := entries + [Entry(src.entries[i].name, child.value)], copied + count;
      }
      assert entries == src.entries;
      return true, copied, Some(Folder(entries)), next;
    }

    /** One entry: a folder with all that is in it, or a file. */
    static method CopyEntry(entry: Entry, fails: nat -> bool, first: nat)
      returns (ok: bool, copied: nat, made: Option<Node>, next: nat)
      ensures ok <==> !AnyFails(fails, first, first + 1 + CopyCalls(entry.node))
      ensures ok ==> made == Some(entry.node) && copied == FileCount(entry.node)
      ensures ok ==> next == first + 1 + CopyCalls(entry.node)
      decreases entry
    {
      copied, made, next := 0, None, first + 1;
      if fails(first) {
        return false, 0, None, next;
      }
      if entry.node.Folder? {
        ok, copied, made, next := CopyTree(entry.node, fails, next);
      } else if fails(next) {
        var part: string := *;
        return false, 0, Some(File(part)), next + 1;
      } else {
        return true, 1, Some(entry.node), next + 1;
      }
    }

    ghost function CopyOutResult(allowed: bool, f: OutFaults): Result<nat, CopyError>
      reads this
    {
      if !IsFolder(live) then Ok(0)
      else if !allowed then Err(NotCopied(Check))
      else if temp.Some? && f.clearTemp then Err(NotCopied(ClearStaging))
      else if CopyFails(f.copy, live.value) then Err(NotCopied(Copy))
      else if backup.Some? && f.removeOld then Err(BackupNotRemoved)
      else if f.rename then Err(NotRenamed)
      else Ok(FileCount(live.value))
    }

    /** Whatever fails, either the old backup or a complete copy of the live folder is
        left, and the live folder and what a restore uses are as they were. */
    method CopyDocumentsOut(allowed: bool, f: OutFaults) returns (r: Result<nat, CopyError>)
      modifies this
      ensures r == old(CopyOutResult(allowed, f))
      ensures allowed && NoneFail(f) ==> r.Ok?
      ensures linked == old(linked) && live == old(live) && staging == old(staging) && replaced == old(replaced)
      ensures !IsFolder(live) ==> backup == old(backup) && temp == old(temp)
      ensures IsFolder(live) && r.Ok? ==> backup == live && temp.None?
      ensures r.Err? && r.error.NotCopied? ==> backup == old(backup)
      ensures r == Err(BackupNotRemoved) ==> backup.Some? && temp == live
      ensures r == Err(NotRenamed) ==> backup.None? && temp == live
    {
      if !IsFolder(live) {
        return Ok(0);
      }
      if !allowed {
        return Err(NotCopied(Check));
      }
      var ok, copied, next;
      ok, temp := Removed(temp, f.clearTemp);
      if !ok {
        return Err(NotCopied(ClearStaging));
      }
      ok, copied, temp, next := CopyTree(live.value, f.copy, 0);
      if !ok {
        ok, temp := Removed(temp, f.cleanTemp);
        return Err(NotCopied(Copy));
      }
      ok, backup := Removed(backup, f.removeOld);
      if !ok {
        return Err(BackupNotRemoved);
      }
      if f.rename {
        return Err(NotRenamed);
      }
      backup, temp := temp, None;
      return Ok(copied);
    }

    ghost function RestoreResult(f: InFaults): Result<Option<nat>, RestoreError>
      reads this
    {
      if !IsFolder(backup) then Ok(None)
      else if linked && (live.None? || f.resolve) then Err(LinkNotResolved)
      else if staging.Some? && f.clearStaging then Err(LeftAsItWas(ClearStaging))
      else if replaced.Some? && f.clearOld then Err(LeftAsItWas(ClearOld))
      else if CopyFails(f.copy, backup.value) then Err(LeftAsItWas(Copy))
      else if live.Some? && f.moveOut then Err(LeftAsItWas(MoveOut))
      else if f.moveIn then Err(LeftAsItWas(MoveIn))
      else if live.Some? && f.removeOld then Err(OldNotRemoved)
      else Ok(Some(FileCount(backup.value)))
    }

    /** A link is followed, survives, and has its target replaced; a dangling one is an
        error that touches nothing. An error leaves the live folder as it was exactly
        when it is not one of two: the new folder is in and the old one was not removed,
        or the new one would not go in and the old one would not go back. */
    method RestoreDocumentsIn(f: InFaults) returns (r: Result<Option<nat>, RestoreError>)
      modifies this
      ensures r == old(RestoreResult(f))
      ensures NoneFails(f) && (linked ==> old(live).Some?) ==> r.Ok?
      ensures linked == old(linked) && backup == old(backup) && temp == old(temp)
      ensures r == Ok(None) || r == Err(LinkNotResolved) ==>
                live == old(live) && staging == old(staging) && replaced == old(replaced)
      ensures r.Ok? && r.value.Some? ==> live == backup && staging.None? && replaced.None?
      ensures r == Err(OldNotRemoved) ==>
                live == backup && staging.None? && replaced.Some?
      ensures r.Err? && r.error.LeftAsItWas? ==>
                && live == (if r.error.call == MoveIn && f.putBack then None else old(live))
                && (r.error.call == ClearStaging ==> replaced == old(replaced))
                && (r.error.call in {Copy, MoveOut} ==> replaced.None?)
                && (r.error.call == MoveIn ==> replaced == if f.putBack then old(live) else None)
      ensures r.Err? && r.error.LeftAsItWas? ==>
                (live == old(live) <==> !(r.error.call == MoveIn && f.putBack && old(live).Some?))
      ensures r.Err? && !f.moveIn && !f.removeOld ==> live == old(live)
    {
      hide FileCount, CopyFails;
      if !IsFolder(backup) {
        return Ok(None);
      }
      CopySucceeds(f.copy, backup.value);
      if linked && (live.None? || f.resolve) {
        return Err(LinkNotResolved);
      }
      var failed, copied := Stage(f);
      if failed.Some? {
        return Err(LeftAsItWas(failed.value));
      }
      failed := SwapIn(f);
      if failed.Some? {
        return Err(LeftAsItWas(failed.value));
      }
      var ok;
      ok, replaced := Removed(replaced, f.removeOld);
      r := if ok then Ok(Some(copied)) else Err(OldNotRemoved);
    }

    /** The copy beside the live folder, once what earlier restores left is gone. */
    method Stage(f: InFaults) returns (failed: Option<Call>, copied: nat)
      requires IsFolder(backup)
      modifies this`staging, this`replaced
      ensures failed == if old(staging).Some? && f.clearStaging then Some(ClearStaging)
                        else if old(replaced).Some? && f.clearOld then Some(ClearOld)
                        else if CopyFails(f.copy, backup.value) then Some(Copy)
                        else None
      ensures failed.None? ==> staging == backup && replaced.None? && copied == FileCount(backup.value)
      ensures failed == Some(ClearStaging) ==> replaced == old(replaced)
      ensures failed == Some(Copy) ==> replaced.None?
    {
      hide AnyFails, CopyCalls, FileCount;
      copied := 0;
      var ok, next;
      ok, staging := Removed(staging, f.clearStaging);
      if !ok {
        return Some(ClearStaging), 0;
      }
      ok, replaced := Removed(replaced, f.clearOld);
      if !ok {
        return Some(ClearOld), 0;
      }
      ok, copied, staging, next := CopyTree(backup.value, f.copy, 0);
      if !ok {
        ok, staging := Removed(staging, f.cleanStaging);
        return Some(Copy), 0;
      }
      failed := None;
    }

    /** The two renames, and the third that takes the first back. */
    method SwapIn(f: InFaults) returns (failed: Option<Call>)
      requires staging.Some? && replaced.None?
      modifies this`live, this`staging, this`replaced
      ensures failed == if old(live).Some? && f.moveOut then Some(MoveOut) else if f.moveIn then Some(MoveIn) else None
      ensures failed.None? ==> live == old(staging) && staging.None? && replaced == old(live)
      ensures failed == Some(MoveOut) ==> live == old(live) && replaced.None?
      ensures failed == Some(MoveIn) ==>
                && live == (if f.putBack then None else old(live))
                && replaced == if f.putBack then old(live) else None
    {
      var ok;
      var hadLive := live.Some?;
      if hadLive {
        if f.moveOut {
          ok, staging := Removed(staging, f.cleanStaging);
          return Some(MoveOut);
        }
        live, replaced := None, live;
      }
      if f.moveIn {
        if hadLive && !f.putBack {
          live, replaced := replaced, None;
        }
        ok, staging := Removed(staging, f.cleanStaging);
        return Some(MoveIn);
      }
      live, staging := staging, None;
      failed := None;
    }

    /** A backup undoes any later change to the documents: copied out, changed and
        restored, they are what they were, and both calls counted the same files. */
    method BackUpThenRestore(changed: Option<Node>, out: OutFaults, back: InFaults)
      returns (saved: Result<nat, CopyError>, restored: Result<Option<nat>, RestoreError>)
      requires IsFolder(live)
      modifies this
      ensures NoneFail(out) ==> saved.Ok?
      ensures NoneFail(out) && NoneFails(back) && (linked ==> changed.Some?) ==> restored.Ok?
      ensures saved.Ok? && restored.Ok? ==>
                && live == old(live) && restored.value == Some(saved.value) && saved.value == FileCount(live.value)
    {
      saved := CopyDocumentsOut(true, out);
      live := changed;
      restored := RestoreDocumentsIn(back);
    }

    /** Two restores that lose the old documents. In the first the new folder would not
        go in nor the old one back; in the second the copy fails. Both errors say that
        the documents were left as they were. Behind a link the second touches nothing,
        as the link now dangles. */
    method RestoreTwice(first: InFaults, second: InFaults)
      returns (r1: Result<Option<nat>, RestoreError>, r2: Result<Option<nat>, RestoreError>)
      requires IsFolder(backup) && live.Some?
      requires NoneFails(first.(moveIn := false)) && first.moveIn && first.putBack
      requires NoneFails(second.(copy := n => false)) && CopyFails(second.copy, backup.value)
      modifies this
      ensures r1 == Err(LeftAsItWas(MoveIn))
      ensures linked ==> r2 == Err(LinkNotResolved) && live.None? && replaced == old(live)
      ensures !linked ==> r2 == Err(LeftAsItWas(Copy)) && live.None? && replaced.None?
    {
      r1 := RestoreDocumentsIn(first);
      r2 := RestoreDocumentsIn(second);
    }
  }
}
