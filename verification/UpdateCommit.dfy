/** The replacement of installed SDK components: class Update in update-sdk.py.

  An update stages the new components next to the installed ones. Committing it moves each installed component aside
  and the staged one into its place; when one of these renames fails, everything that was moved is put back. The
  metadata are written once all components are in place.

  A disk maps paths to files and to directories with their whole content. Renames may fail at any point; deletes,
  the renames of the rollback and the writes of metadata do what they should.
*/
module UpdateCommit {
  import opened Wrappers

  datatype Node = Dir(content: string) | File(text: string)

  type Disk = map<string, Node>

  /** A component: its directory, the file that describes what is installed, and what that file is to say. */
  datatype Component = Component(target: string, metadataPath: string, metadata: string)

  function Old(target: string): string {
    target + ".old"
  }

  function New(target: string): string {
    target + ".new"
  }

  // ---------------------------------------------------------------------------------------------
  // The disk

  function At(d: Disk, p: string): Option<Node> {
    if p in d then Some(d[p]) else None
  }

  predicate IsDir(d: Disk, p: string) {
    p in d && d[p].Dir?
  }

  /** shutil.rmtree with its errors ignored. */
  function RemoveTree(d: Disk, p: string): Disk {
    if IsDir(d, p) then d - {p} else d
  }

  /** os.replace puts a directory only where there is nothing or an empty directory, and a file only where there is no
    directory. */
  predicate CanRename(d: Disk, from: string, to: string) {
    from in d && from != to &&
    match d[from]
    case Dir(_) => to !in d || d[to] == Dir("")
    case File(_) => to !in d || d[to].File?
  }

  function Rename(d: Disk, from: string, to: string): Disk
    requires from in d
  {
    (d - {from})[to := d[from]]
  }

  // ---------------------------------------------------------------------------------------------
  // One component

  /** How far the replacement of a component got. `moved` says that a rollback has to undo it. */
  datatype Attempt = Attempt(disk: Disk, moved: bool, ok: bool)

  function Backup(d: Disk, t: string): Disk {
    RemoveTree(d, Old(t))
  }

  function TryInstall(d: Disk, t: string, backupFails: bool, installFails: bool): Attempt {
    var d1 := Backup(d, t);
    if IsDir(d1, t) && (backupFails || !CanRename(d1, t, Old(t))) then Attempt(d1, false, false)
    else
      var d2 := if IsDir(d1, t) then Rename(d1, t, Old(t)) else d1;
      if installFails || !CanRename(d2, New(t), t) then Attempt(d2, true, false)
      else Attempt(Rename(d2, New(t), t), true, true)
  }

  function Undo(d: Disk, t: string): Disk {
    var d1 := RemoveTree(d, t);
    if IsDir(d1, Old(t)) then Rename(d1, Old(t), t) else d1
  }

  lemma OwnPaths(t: string)
    ensures t != Old(t) && t != New(t) && Old(t) != New(t)
  {
    assert Old(t)[|t| + 1] == 'o' && New(t)[|t| + 1] == 'n';
  }

  /** `d` holds what was staged, and what was there before lies in the backup. */
  predicate Installed(d0: Disk, d: Disk, t: string) {
    New(t) in d0 && At(d, t) == At(d0, New(t)) && New(t) !in d &&
    At(d, Old(t)) == (if IsDir(d0, t) then At(d0, t) else At(Backup(d0, t), Old(t))) &&
    (IsDir(d0, t) || t !in d0)
  }

  predicate Untouched(d0: Disk, d: Disk, t: string) {
    At(d, t) == At(d0, t) && At(d, Old(t)) == At(d0, Old(t)) && At(d, New(t)) == At(d0, New(t))
  }

  /** The target is as it was and a backup of it is out of the way. */
  predicate Pending(d0: Disk, d: Disk, t: string) {
    At(d, t) == At(d0, t) && At(d, New(t)) == At(d0, New(t)) && At(d, Old(t)) == At(Backup(d0, t), Old(t))
  }

  /** The old content has been moved away and nothing has come in its place. */
  predicate Vacated(d0: Disk, d: Disk, t: string) {
    (IsDir(d0, t) ==> t !in d && At(d, Old(t)) == At(d0, t)) &&
    (!IsDir(d0, t) ==> At(d, t) == At(d0, t) && At(d, Old(t)) == At(Backup(d0, t), Old(t))) &&
    At(d, New(t)) == At(d0, New(t))
  }

  predicate ElsewhereSame(d0: Disk, d: Disk, t: string) {
    forall p :: p in d0.Keys + d.Keys && p != t && p != Old(t) && p != New(t) ==> At(d, p) == At(d0, p)
  }

  /** Which renames of a component have to work. */
  predicate Works(d: Disk, t: string, backupFails: bool, installFails: bool) {
    (IsDir(d, t) ==> !backupFails && (Old(t) in d ==> d[Old(t)].Dir?)) &&
    !installFails && New(t) in d && (d[New(t)].Dir? ==> (t in d ==> d[t].Dir?))
  }

  lemma InstallEffect(d: Disk, t: string, backupFails: bool, installFails: bool)
    ensures var a := TryInstall(d, t, backupFails, installFails);
      ElsewhereSame(d, a.disk, t) && (a.ok ==> a.moved) &&
      (!a.moved ==> Pending(d, a.disk, t)) && (a.moved && !a.ok ==> Vacated(d, a.disk, t))
  {
    OwnPaths(t);
  }

  /** With a staged directory, the component is replaced exactly if the renames that it needs work: an installed
    directory has to be moved aside, to where no file is in the way, and no file may be in the way of the new one. */
  lemma InstallSucceeds(d: Disk, t: string, backupFails: bool, installFails: bool)
    requires IsDir(d, New(t))
    ensures var a := TryInstall(d, t, backupFails, installFails);
      && (a.ok <==> Works(d, t, backupFails, installFails)) && (a.ok ==> Installed(d, a.disk, t))
      && (a.ok <==>
            !installFails && (t in d ==> d[t].Dir? && !backupFails && (Old(t) in d ==> d[Old(t)].Dir?)))
  {
    OwnPaths(t);
  }

  lemma UndoEffect(d0: Disk, d: Disk, t: string)
    requires Installed(d0, d, t) || Vacated(d0, d, t)
    requires IsDir(d0, New(t))
    ensures At(Undo(d, t), t) == At(d0, t) && ElsewhereSame(d, Undo(d, t), t)
  {
    OwnPaths(t);
  }

  // ---------------------------------------------------------------------------------------------
  // All components

  predicate EndsWith(s: string, suffix: string) {
    |s| >= |suffix| && s[|s| - |suffix|..] == suffix
  }

  predicate Plain(t: string) {
    !EndsWith(t, ".old") && !EndsWith(t, ".new")
  }

  predicate Owns(t: string, p: string) {
    p == t || p == Old(t) || p == New(t)
  }

  /** Distinct components, whose metadata lie outside of all of them. */
  ghost predicate Proper(cs: seq<Component>) {
    (forall i :: 0 <= i < |cs| ==> Plain(cs[i].target)) &&
    (forall i, j :: 0 <= i < j < |cs| ==> cs[i].target != cs[j].target && cs[i].metadataPath != cs[j].metadataPath) &&
    (forall i, j :: 0 <= i < |cs| && 0 <= j < |cs| ==> !Owns(cs[i].target, cs[j].metadataPath))
  }

  lemma Apart(t: string, u: string, p: string)
    requires Plain(t) && Plain(u) && t != u && Owns(t, p)
    ensures !Owns(u, p)
  {
    assert Old(t)[..|t|] == t && Old(u)[..|u|] == u && New(t)[..|t|] == t && New(u)[..|u|] == u;
    assert Old(t)[|t|..] == ".old" && New(t)[|t|..] == ".new" && Old(u)[|u|..] == ".old" && New(u)[|u|..] == ".new";
    assert Old(t)[|Old(t)| - 1] == 'd' && New(t)[|New(t)| - 1] == 'w';
    assert Old(u)[|Old(u)| - 1] == 'd' && New(u)[|New(u)| - 1] == 'w';
  }

  /** A change to one component leaves the paths of the others alone. */
  lemma OthersKept(cs: seq<Component>, i: nat, j: nat, d: Disk, d': Disk)
    requires Proper(cs) && i < |cs| && j < |cs| && i != j && ElsewhereSame(d, d', cs[i].target)
    ensures Untouched(d, d', cs[j].target)
  {
    var t, u := cs[i].target, cs[j].target;
    assert u != t by { if i < j { assert cs[i].target != cs[j].target; } else { assert cs[j].target != cs[i].target; } }
    forall p | Owns(u, p) ensures At(d', p) == At(d, p) { Apart(u, t, p); }
    assert Owns(u, u) && Owns(u, Old(u)) && Owns(u, New(u));
  }

  ghost predicate OutsideSame(cs: seq<Component>, d0: Disk, d: Disk) {
    forall p :: (forall i :: 0 <= i < |cs| ==> !Owns(cs[i].target, p)) ==> At(d, p) == At(d0, p)
  }

  lemma OutsideStep(cs: seq<Component>, d0: Disk, d: Disk, d': Disk, i: nat)
    requires i < |cs| && OutsideSame(cs, d0, d) && ElsewhereSame(d, d', cs[i].target)
    ensures OutsideSame(cs, d0, d')
  {
    forall p | forall j :: 0 <= j < |cs| ==> !Owns(cs[j].target, p) ensures At(d', p) == At(d0, p) {
      assert !Owns(cs[i].target, p);
    }
  }

  predicate Undoable(d0: Disk, d: Disk, t: string) {
    Installed(d0, d, t) || Vacated(d0, d, t)
  }

  function WithoutFolders(d: Disk, paths: set<string>): Disk {
    map p | p in d && !(p in paths && d[p].Dir?) :: d[p]
  }

  function NewFolders(cs: seq<Component>): set<string> {
    set c | c in cs :: New(c.target)
  }

  function OldFolders(cs: seq<Component>): set<string> {
    set c | c in cs :: Old(c.target)
  }

  class Update {
    var disk: Disk
    var staged: seq<Component>

    /** What is staged is on the disk. */
    ghost predicate Valid()
      reads this
    {
      Proper(staged) && forall i :: 0 <= i < |staged| ==> IsDir(disk, New(staged[i].target))
    }

    constructor (disk: Disk)
      ensures this.disk == disk && staged == [] && Valid()
    {
      this.disk, staged := disk, [];
    }

    /** `archive` is absent if it is no valid archive. Only the staging folder of the component changes. */
    method Stage(c: Component, archive: Option<string>) returns (ok: bool)
      requires Valid() && Proper(staged + [c])
      modifies this
      ensures ElsewhereSame(old(disk), disk, c.target) && At(disk, c.target) == old(At(disk, c.target))
      ensures ok ==> Valid() && archive.Some? && staged == old(staged) + [c] &&
                     At(disk, New(c.target)) == Some(Dir(archive.value))
      ensures ok <==> archive.Some? && old(New(c.target) in disk ==> IsDir(disk, New(c.target)))
      ensures staged == old(staged) || staged == old(staged) + [c]
    {
      var path := New(c.target);
      OwnPaths(c.target);
      ghost var before, all := disk, staged + [c];
      disk := RemoveTree(disk, path);
      if path in disk { return false; }
      disk := disk[path := Dir("")];
      staged := staged + [c];
      if archive.None? { return false; }
      disk := disk[path := Dir(archive.value)];
      forall i | 0 <= i < |staged| - 1 ensures IsDir(disk, New(staged[i].target)) {
        assert all[i] == old(staged)[i];
        OthersKept(all, |all| - 1, i, before, disk);
      }
      return true;
    }

    /** Removes every staging folder, and nothing else. */
    method Discard()
      modifies this
      ensures staged == [] && disk == old(WithoutFolders(disk, NewFolders(staged)))
    {
      ghost var d0 := disk;
      for i := 0 to |staged|
        invariant staged == old(staged) && disk == WithoutFolders(d0, NewFolders(staged[..i]))
      {
        assert NewFolders(staged[..i + 1]) == NewFolders(staged[..i]) + {New(staged[i].target)} by {
          assert staged[..i + 1] == staged[..i] + [staged[i]];
        }
        disk := RemoveTree(disk, New(staged[i].target));
      }
      assert staged[..|staged|] == staged;
      staged := [];
    }

    /** The loop that replaces the components, up to the first rename that fails. `replaced` counts those that a
      rollback has to undo. */
    method ReplaceAll(backupFails: set<nat>, installFails: set<nat>) returns (ok: bool, replaced: nat)
      requires Valid()
      modifies this`disk
      ensures replaced <= |staged| && (ok ==> replaced == |staged|)
      ensures ok <==>
        forall i :: 0 <= i < |staged| ==> Works(old(disk), staged[i].target, i in backupFails, i in installFails)
      ensures ok ==> forall i :: 0 <= i < |staged| ==> Installed(old(disk), disk, staged[i].target)
      ensures forall i :: 0 <= i < replaced ==> Undoable(old(disk), disk, staged[i].target)
      ensures forall i :: replaced <= i < |staged| ==> At(disk, staged[i].target) == At(old(disk), staged[i].target)
      ensures OutsideSame(staged, old(disk), disk)
    {
      hide Proper, OutsideSame, Installed, Works, TryInstall, IsDir, ElsewhereSame;
      ghost var d0 := disk;
      OutsideItself(staged, d0);
      ok, replaced := true, 0;
      for i := 0 to |staged|
        invariant ok && replaced == i
        invariant forall j :: 0 <= j < i ==> Works(d0, staged[j].target, j in backupFails, j in installFails)
        invariant forall j :: 0 <= j < i ==> Installed(d0, disk, staged[j].target)
        invariant forall j :: i <= j < |staged| ==> Untouched(d0, disk, staged[j].target)
        invariant OutsideSame(staged, d0, disk)
      {
        ghost var before := disk;
        var attempt := TryInstall(disk, staged[i].target, i in backupFails, i in installFails);
        SameAttempt(d0, disk, staged[i].target, i in backupFails, i in installFails);
        disk := attempt.disk;
        OutsideStep(staged, d0, before, disk, i);
        forall j | 0 <= j < |staged| && j != i ensures Untouched(before, disk, staged[j].target) {
          OthersKept(staged, i, j, before, disk);
        }
        forall j | 0 <= j < i ensures Installed(d0, disk, staged[j].target) {
          StaysInstalled(d0, before, disk, staged[j].target);
        }
        if attempt.moved { replaced := i + 1; }
        if !attempt.ok {
          ok := false;
          return;
        }
      }
    }

    /** Puts the previous folders back, the last one first. */
    method RollBack(ghost d0: Disk, replaced: nat)
      requires Proper(staged) && (forall i :: 0 <= i < |staged| ==> IsDir(d0, New(staged[i].target))) &&
        replaced <= |staged|
      requires forall i :: 0 <= i < replaced ==> Undoable(d0, disk, staged[i].target)
      requires forall i :: replaced <= i < |staged| ==> At(disk, staged[i].target) == At(d0, staged[i].target)
      requires OutsideSame(staged, d0, disk)
      modifies this`disk
      ensures forall i :: 0 <= i < |staged| ==> At(disk, staged[i].target) == At(d0, staged[i].target)
      ensures OutsideSame(staged, d0, disk)
    {
      hide Proper, OutsideSame, Installed, Vacated, IsDir, ElsewhereSame;
      for k := replaced downto 0
        invariant forall j :: 0 <= j < k ==> Undoable(d0, disk, staged[j].target)
        invariant forall j :: k <= j < |staged| ==> At(disk, staged[j].target) == At(d0, staged[j].target)
        invariant OutsideSame(staged, d0, disk)
      {
        ghost var before := disk;
        UndoEffect(d0, disk, staged[k].target);
        disk := Undo(disk, staged[k].target);
        OutsideStep(staged, d0, before, disk, k);
        forall j | 0 <= j < |staged| && j != k ensures Untouched(before, disk, staged[j].target) {
          OthersKept(staged, k, j, before, disk);
        }
        forall j | 0 <= j < k ensures Undoable(d0, disk, staged[j].target) {
          StaysUndoable(d0, before, disk, staged[j].target);
        }
      }
    }

    /** Writes the metadata of every component. */
    method WriteMetadata()
      requires Proper(staged)
      modifies this`disk
      ensures MetadataWritten(staged, disk) && OnlyMetadata(staged, old(disk), disk)
    {
      ghost var d0 := disk;
      for i := 0 to |staged|
        invariant forall j :: 0 <= j < i ==> At(disk, staged[j].metadataPath) == Some(File(staged[j].metadata))
        invariant forall p :: (forall j :: 0 <= j < i ==> p != staged[j].metadataPath) ==> At(disk, p) == At(d0, p)
      {
        assert forall j :: 0 <= j < i ==> staged[j].metadataPath != staged[i].metadataPath;
        disk := disk[staged[i].metadataPath := File(staged[i].metadata)];
      }
    }

    /** Removes every backup, and nothing else. */
    method RemoveBackups()
      modifies this`disk
      ensures disk == WithoutFolders(old(disk), OldFolders(staged))
    {
      ghost var d0 := disk;
      for i := 0 to |staged|
        invariant disk == WithoutFolders(d0, OldFolders(staged[..i]))
      {
        assert OldFolders(staged[..i + 1]) == OldFolders(staged[..i]) + {Old(staged[i].target)} by {
          assert staged[..i + 1] == staged[..i] + [staged[i]];
        }
        disk := RemoveTree(disk, Old(staged[i].target));
      }
      assert staged[..|staged|] == staged;
    }

    /** All or nothing. It succeeds exactly if every rename that is needed works, and then each component and its
      metadata are the new ones; otherwise each component and its metadata are as they were. Nothing else changes. */
    method Commit(backupFails: set<nat>, installFails: set<nat>) returns (ok: bool)
      requires Valid()
      modifies this
      ensures staged == []
      ensures ok <==> forall i :: 0 <= i < |old(staged)| ==>
        Works(old(disk), old(staged)[i].target, i in backupFails, i in installFails)
      ensures ok ==> forall i :: 0 <= i < |old(staged)| ==>
        Replaced(old(disk), disk, old(staged)[i])
      ensures !ok ==> forall i :: 0 <= i < |old(staged)| ==>
        Kept(old(disk), disk, old(staged)[i])
      ensures NothingElse(old(staged), old(disk), disk)
    {
      hide Proper, OutsideSame, Works, Undoable, WithoutFolders;
      ghost var d0, cs := disk, staged;
      var replaced;
      ok, replaced := ReplaceAll(backupFails, installFails);
      if !ok {
        RollBack(d0, replaced);
        ghost var restored := disk;
        Discard();
        forall i | 0 <= i < |cs| ensures Kept(d0, disk, cs[i]) { DiscardKeeps(cs, i, d0, restored); }
        FoldersElsewhere(cs, d0, restored, NewFolders(cs));
        return;
      }
      ghost var installed := disk;
      WriteMetadata();
      ghost var written := disk;
      RemoveBackups();
      staged := [];
      forall i | 0 <= i < |cs| ensures Replaced(d0, disk, cs[i]) { CleanUpKeeps(cs, i, d0, installed, written); }
      WrittenElsewhere(cs, d0, installed, written);
    }
  }

  /** The staged content is in place and the metadata say so; staging folder and backup are gone. */
  predicate Replaced(d0: Disk, d: Disk, c: Component) {
    At(d, c.target) == At(d0, New(c.target)) && At(d, c.metadataPath) == Some(File(c.metadata)) &&
    New(c.target) !in d && !IsDir(d, Old(c.target))
  }

  /** The component and its metadata are as they were; the staging folder is gone. */
  predicate Kept(d0: Disk, d: Disk, c: Component) {
    At(d, c.target) == At(d0, c.target) && At(d, c.metadataPath) == At(d0, c.metadataPath) && !IsDir(d, New(c.target))
  }

  ghost predicate NothingElse(cs: seq<Component>, d0: Disk, d: Disk) {
    forall p :: (forall i :: 0 <= i < |cs| ==> !Owns(cs[i].target, p) && p != cs[i].metadataPath) ==>
      At(d, p) == At(d0, p)
  }

  lemma NotAFolder(cs: seq<Component>, p: string)
    requires forall i :: 0 <= i < |cs| ==> !Owns(cs[i].target, p)
    ensures p !in NewFolders(cs) && p !in OldFolders(cs)
  {
  }

  lemma TargetIsNoFolder(cs: seq<Component>, i: nat)
    requires Proper(cs) && i < |cs|
    ensures cs[i].target !in NewFolders(cs) && cs[i].target !in OldFolders(cs)
    ensures New(cs[i].target) in NewFolders(cs) && New(cs[i].target) !in OldFolders(cs) &&
      Old(cs[i].target) in OldFolders(cs)
    ensures cs[i].metadataPath !in NewFolders(cs) && cs[i].metadataPath !in OldFolders(cs)
  {
    var t := cs[i].target;
    OwnPaths(t);
    forall j | 0 <= j < |cs|
      ensures t != New(cs[j].target) && t != Old(cs[j].target) && New(t) != Old(cs[j].target)
    {
      if j == i {
      } else {
        assert t != cs[j].target by {
          assert if i < j then cs[i].target != cs[j].target else cs[j].target != cs[i].target;
        }
        Apart(t, cs[j].target, t);
        Apart(t, cs[j].target, New(t));
      }
    }
    assert cs[i] in cs;
    NotAFolder(cs, cs[i].metadataPath);
  }

  lemma DiscardKeeps(cs: seq<Component>, i: nat, d0: Disk, restored: Disk)
    requires Proper(cs) && i < |cs| && At(restored, cs[i].target) == At(d0, cs[i].target) &&
      OutsideSame(cs, d0, restored)
    ensures Kept(d0, WithoutFolders(restored, NewFolders(cs)), cs[i])
  {
    TargetIsNoFolder(cs, i);
    assert forall j :: 0 <= j < |cs| ==> !Owns(cs[j].target, cs[i].metadataPath);
  }

  lemma FoldersElsewhere(cs: seq<Component>, d0: Disk, d: Disk, paths: set<string>)
    requires OutsideSame(cs, d0, d) && (paths == NewFolders(cs) || paths == OldFolders(cs))
    ensures NothingElse(cs, d0, WithoutFolders(d, paths))
  {
    forall p | forall i :: 0 <= i < |cs| ==> !Owns(cs[i].target, p) && p != cs[i].metadataPath
      ensures At(WithoutFolders(d, paths), p) == At(d0, p)
    {
      NotAFolder(cs, p);
    }
  }

  predicate MetadataWritten(cs: seq<Component>, d: Disk) {
    forall i :: 0 <= i < |cs| ==> At(d, cs[i].metadataPath) == Some(File(cs[i].metadata))
  }

  ghost predicate OnlyMetadata(cs: seq<Component>, d: Disk, d': Disk) {
    forall p :: (forall i :: 0 <= i < |cs| ==> p != cs[i].metadataPath) ==> At(d', p) == At(d, p)
  }

  lemma CleanUpKeeps(cs: seq<Component>, i: nat, d0: Disk, installed: Disk, written: Disk)
    requires Proper(cs) && i < |cs| && Installed(d0, installed, cs[i].target)
    requires MetadataWritten(cs, written) && OnlyMetadata(cs, installed, written)
    ensures Replaced(d0, WithoutFolders(written, OldFolders(cs)), cs[i])
  {
    TargetIsNoFolder(cs, i);
    var t := cs[i].target;
    forall p | Owns(t, p) ensures At(written, p) == At(installed, p) {
      assert forall j :: 0 <= j < |cs| ==> !Owns(cs[i].target, cs[j].metadataPath);
    }
    assert Owns(t, t) && Owns(t, Old(t)) && Owns(t, New(t));
  }

  lemma WrittenElsewhere(cs: seq<Component>, d0: Disk, installed: Disk, written: Disk)
    requires OutsideSame(cs, d0, installed) && OnlyMetadata(cs, installed, written)
    ensures NothingElse(cs, d0, WithoutFolders(written, OldFolders(cs)))
  {
    forall p | forall i :: 0 <= i < |cs| ==> !Owns(cs[i].target, p) && p != cs[i].metadataPath
      ensures At(WithoutFolders(written, OldFolders(cs)), p) == At(d0, p)
    {
      NotAFolder(cs, p);
    }
  }

  lemma OutsideItself(cs: seq<Component>, d: Disk)
    ensures OutsideSame(cs, d, d)
  {
  }

  lemma StaysInstalled(d0: Disk, d: Disk, d': Disk, t: string)
    requires Installed(d0, d, t) && Untouched(d, d', t)
    ensures Installed(d0, d', t)
  {
  }

  lemma StaysUndoable(d0: Disk, d: Disk, d': Disk, t: string)
    requires Undoable(d0, d, t) && Untouched(d, d', t)
    ensures Undoable(d0, d', t)
  {
  }

  /** An attempt on a disk where the component is still as it was at first. */
  lemma SameAttempt(d0: Disk, d: Disk, t: string, backupFails: bool, installFails: bool)
    requires Untouched(d0, d, t) && IsDir(d0, New(t))
    ensures var a := TryInstall(d, t, backupFails, installFails);
      ElsewhereSame(d, a.disk, t) && (a.ok <==> Works(d0, t, backupFails, installFails)) &&
      (a.ok ==> a.moved && Installed(d0, a.disk, t)) &&
      (a.moved ==> Undoable(d0, a.disk, t)) && (!a.moved ==> At(a.disk, t) == At(d0, t))
  {
    hide TryInstall;
    InstallEffect(d, t, backupFails, installFails);
    InstallSucceeds(d, t, backupFails, installFails);
  }
}
