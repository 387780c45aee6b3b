/**
  What a replacement leaves alone: every name but the ones it uses, at every disk it passes and
  after a crash at any of them.
 */
module CrashFrame {
  import opened DiskModel
  import opened AtomicReplace
  import opened CrashSafety

  ghost predicate SameOutside(a: Directory, b: Directory, names: set<Name>) {
    forall name :: name !in names ==> (name in a <==> name in b) && (name in a ==> a[name] == b[name])
  }

  /** A file there at the start that is not the temporary file. */
  predicate IsOther(d: Disk, temp: Name, id: FileId)
    requires d.directories != []
  {
    id in d.files && (Exists(d, temp) ==> id != Current(d)[temp])
  }

  predicate FileKept(before: map<FileId, File>, after: map<FileId, File>, id: FileId)
    requires id in before
  {
    id in after && after[id].data == before[id].data && (before[id].synced ==> after[id].synced)
  }

  ghost predicate FilesKept(d: Disk, x: Disk, temp: Name)
    requires d.directories != []
  {
    forall id :: IsOther(d, temp, id) ==> FileKept(d.files, x.files, id)
  }

  ghost predicate DirectoriesKept(d: Disk, x: Disk, names: set<Name>)
    requires d.directories != []
  {
    forall i :: 0 <= i < |x.directories|
                ==> x.directories[i] in d.directories || SameOutside(x.directories[i], Current(d), names)
  }

  /** From `d` to `x` only these names changed, in every directory a crash may bring back, and only the temporary
      file. */
  ghost predicate Kept(d: Disk, x: Disk, names: set<Name>, temp: Name) {
    && IsDisk(d) && IsDisk(x) && d.next <= x.next
    && DirectoriesKept(d, x, names) && SameOutside(Current(x), Current(d), names)
    && FilesKept(d, x, temp)
    && (Exists(x, temp) ==> !IsOther(d, temp, Current(x)[temp]))
  }

  /** In this directory, this name is not another one of the file that `temp` stands for. */
  predicate StandsAlone(current: Directory, directory: Directory, temp: Name, name: Name) {
    temp in current && name in directory && directory[name] == current[temp] ==> name == temp
  }

  /** A temporary file has never stood under another name. */
  ghost predicate Private(d: Disk, temps: set<Name>)
    requires d.directories != []
  {
    forall temp, i, name :: temp in temps && 0 <= i < |d.directories|
      ==> StandsAlone(Current(d), d.directories[i], temp, name)
  }

  ghost predicate Around(d: Disk, x: Disk, names: set<Name>, temp: Name, temps: set<Name>) {
    Kept(d, x, names, temp) && Private(x, temps)
  }

  ghost predicate AllAround(d: Disk, o: Outcome, names: set<Name>, temp: Name, temps: set<Name>) {
    forall x :: x in o.passed ==> Around(d, x, names, temp, temps)
  }

  predicate NamesFit(job: Job, names: set<Name>, temps: set<Name>) {
    {job.target, job.temp, job.backup} <= names && job.temp in temps && job.target !in temps && job.backup !in temps
  }

  // ----- Single changes -----

  lemma StartIsAround(d: Disk, names: set<Name>, temp: Name, temps: set<Name>)
    requires IsDisk(d) && Private(d, temps)
    ensures Around(d, d, names, temp, temps)
  {
  }

  /** A change of the current directory among these names. */
  lemma ChangeIsKept(d: Disk, x: Disk, directory: Directory, names: set<Name>, temp: Name)
    requires Kept(d, x, names, temp) && SameOutside(directory, Current(x), names) && IsDisk(Change(x, directory))
    requires temp in directory ==> temp in Current(x) && directory[temp] == Current(x)[temp]
    ensures Kept(d, Change(x, directory), names, temp)
  {
    hide IsOther;
    var r := Change(x, directory);
    forall i | 0 <= i < |r.directories|
      ensures r.directories[i] in d.directories || SameOutside(r.directories[i], Current(d), names)
    {
      if i < |x.directories| {
        assert r.directories[i] == x.directories[i];
      }
    }
  }

  lemma RemoveIsAround(d: Disk, x: Disk, name: Name, names: set<Name>, temp: Name, temps: set<Name>)
    requires IsDisk(x) && Around(d, x, names, temp, temps) && name in names
    ensures Around(d, Remove(x, name), names, temp, temps)
  {
    hide Kept;
    if Exists(x, name) {
      RemoveIsKept(d, x, name, names, temp);
      RemoveIsPrivate(x, name, temps);
    }
  }

  lemma RemoveIsPrivate(x: Disk, gone: Name, temps: set<Name>)
    requires IsDisk(x) && Private(x, temps) && Exists(x, gone)
    ensures Private(Remove(x, gone), temps)
  {
    var r, last := Remove(x, gone), |x.directories| - 1;
    forall temp, i, name | temp in temps && 0 <= i < |r.directories|
      ensures StandsAlone(Current(r), r.directories[i], temp, name)
    {
      assert StandsAlone(Current(x), x.directories[if i < |x.directories| then i else last], temp, name);
    }
  }

  lemma RemoveIsKept(d: Disk, x: Disk, name: Name, names: set<Name>, temp: Name)
    requires Kept(d, x, names, temp) && name in names && Exists(x, name)
    ensures Kept(d, Remove(x, name), names, temp)
  {
    hide DirectoriesKept, FilesKept;
    ChangeIsKept(d, x, Current(x) - {name}, names, temp);
  }

  lemma RenameIsAround(d: Disk, x: Disk, from: Name, to: Name, names: set<Name>, temp: Name, temps: set<Name>)
    requires IsDisk(x) && Around(d, x, names, temp, temps)
    requires from in names && to in names && temp in temps && to !in temps
    ensures Around(d, Rename(x, from, to), names, temp, temps)
  {
    hide Kept;
    if Exists(x, from) {
      RenameIsKept(d, x, from, to, names, temp);
      RenameIsPrivate(x, from, to, temps);
    }
  }

  lemma RenameIsKept(d: Disk, x: Disk, from: Name, to: Name, names: set<Name>, temp: Name)
    requires Kept(d, x, names, temp) && from in names && to in names && temp != to && Exists(x, from)
    ensures Kept(d, Rename(x, from, to), names, temp)
  {
    hide DirectoriesKept, FilesKept;
    ChangeIsKept(d, x, (Current(x) - {from})[to := Current(x)[from]], names, temp);
  }

  lemma RenameIsPrivate(x: Disk, from: Name, to: Name, temps: set<Name>)
    requires IsDisk(x) && Private(x, temps) && to !in temps && Exists(x, from)
    ensures Private(Rename(x, from, to), temps)
  {
    var r := Rename(x, from, to);
    var last := |x.directories| - 1;
    forall temp, i, name | temp in temps && 0 <= i < |r.directories|
      ensures StandsAlone(Current(r), r.directories[i], temp, name)
    {
      if i < |x.directories| {
        assert StandsAlone(Current(x), x.directories[i], temp, name);
      } else {
        assert StandsAlone(Current(x), x.directories[last], temp, from);
        assert StandsAlone(Current(x), x.directories[last], temp, name);
      }
    }
  }

  /** Writing to a file that is none of the others. */
  lemma WriteIsAround(d: Disk, x: Disk, id: FileId, file: File, names: set<Name>, temp: Name, temps: set<Name>)
    requires Around(d, x, names, temp, temps) && id < x.next && !IsOther(d, temp, id)
    ensures Around(d, x.(files := x.files[id := file]), names, temp, temps)
  {
  }

  lemma SyncFileIsAround(d: Disk, x: Disk, name: Name, names: set<Name>, temp: Name, temps: set<Name>)
    requires Around(d, x, names, temp, temps)
    ensures Around(d, SyncFile(x, name), names, temp, temps)
  {
  }

  lemma SyncDirectoryIsAround(d: Disk, x: Disk, names: set<Name>, temp: Name, temps: set<Name>)
    requires Around(d, x, names, temp, temps)
    ensures Around(d, SyncDirectory(x), names, temp, temps)
  {
    var r, last := SyncDirectory(x), |x.directories| - 1;
    forall other, i, name | other in temps && 0 <= i < |r.directories|
      ensures StandsAlone(Current(r), r.directories[i], other, name)
    {
      assert StandsAlone(Current(x), x.directories[last], other, name);
    }
  }

  lemma CreateIsAround(d: Disk, x: Disk, names: set<Name>, temp: Name, temps: set<Name>)
    requires Around(d, x, names, temp, temps) && temp in names && temp in temps
    ensures Around(d, CreateTruncated(x, temp), names, temp, temps)
  {
    if Exists(x, temp) {
      WriteIsAround(d, x, Current(x)[temp], File([], false), names, temp, temps);
    } else {
      NewFileIsKept(d, x, names, temp);
      NewFileIsPrivate(x, temp, temps);
    }
  }

  lemma NewFileIsKept(d: Disk, x: Disk, names: set<Name>, temp: Name)
    requires Kept(d, x, names, temp) && temp in names && !Exists(x, temp)
    ensures Kept(d, CreateTruncated(x, temp), names, temp)
  {
    hide SameOutside;
    var r := CreateTruncated(x, temp);
    forall id | IsOther(d, temp, id) ensures FileKept(d.files, r.files, id) {
      assert FileKept(d.files, x.files, id);
    }
    NewNameIsInside(Current(x), Current(d), temp, x.next, names);
    forall i | 0 <= i < |r.directories|
      ensures r.directories[i] in d.directories || SameOutside(r.directories[i], Current(d), names)
    {
      if i < |x.directories| {
        assert r.directories[i] == x.directories[i];
      }
    }
  }

  lemma NewNameIsInside(a: Directory, b: Directory, name: Name, id: FileId, names: set<Name>)
    requires SameOutside(a, b, names) && name in names
    ensures SameOutside(a[name := id], b, names)
  {
  }

  lemma NewFileIsPrivate(x: Disk, temp: Name, temps: set<Name>)
    requires IsDisk(x) && Private(x, temps) && !Exists(x, temp)
    ensures Private(CreateTruncated(x, temp), temps)
  {
    var r := CreateTruncated(x, temp);
    var last := |x.directories| - 1;
    forall other, i, name | other in temps && 0 <= i < |r.directories|
      ensures StandsAlone(Current(r), r.directories[i], other, name)
    {
      if i < |x.directories| {
        assert StandsAlone(Current(x), x.directories[i], other, name);
        assert name in x.directories[i] ==> x.directories[i][name] < x.next;
      } else {
        assert StandsAlone(Current(x), x.directories[last], other, name);
        assert name in x.directories[last] ==> x.directories[last][name] < x.next;
        assert other in x.directories[last] ==> x.directories[last][other] < x.next;
      }
    }
  }

  // ----- The stages of a replacement -----

  lemma WriteTempIsAround(d: Disk, x: Disk, job: Job, names: set<Name>, temps: set<Name>, a: Answers)
    requires IsDisk(x) && Around(d, x, names, job.temp, temps) && NamesFit(job, names, temps)
    ensures AllAround(d, WriteTemp(x, job.temp, job.content, a), names, job.temp, temps)
  {
    hide Around, CreateTruncated, Write, SyncFile;
    if a.open {
      CreateIsAround(d, x, names, job.temp, temps);
      var created := CreateTruncated(x, job.temp);
      var part := if a.written < |job.content| then job.content[..a.written] else job.content;
      WriteNameIsAround(d, created, part, names, job.temp, temps);
      WriteNameIsAround(d, created, job.content, names, job.temp, temps);
      SyncFileIsAround(d, Write(created, job.temp, job.content), job.temp, names, job.temp, temps);
    }
  }

  lemma WriteNameIsAround(d: Disk, x: Disk, data: Bytes, names: set<Name>, temp: Name, temps: set<Name>)
    requires IsDisk(x) && Around(d, x, names, temp, temps)
    ensures Around(d, Write(x, temp, data), names, temp, temps)
  {
    if Exists(x, temp) {
      WriteIsAround(d, x, Current(x)[temp], File(data, false), names, temp, temps);
    }
  }

  lemma AbandonIsAround(d: Disk, x: Disk, job: Job, names: set<Name>, temps: set<Name>, a: Answers)
    requires IsDisk(x) && Around(d, x, names, job.temp, temps) && NamesFit(job, names, temps)
    ensures AllAround(d, Abandon(x, job.temp, a), names, job.temp, temps)
  {
    hide Around;
    RemoveIsAround(d, x, job.temp, names, job.temp, temps);
  }

  lemma FinalizeIsAround(d: Disk, x: Disk, job: Job, names: set<Name>, temps: set<Name>, windows: bool, a: Answers)
    requires IsDisk(x) && Around(d, x, names, job.temp, temps)
    ensures AllAround(d, Finalize(x, job.target, windows, a), names, job.temp, temps)
  {
    hide Around;
    SyncFileIsAround(d, x, job.target, names, job.temp, temps);
    SyncDirectoryIsAround(d, SyncFile(x, job.target), names, job.temp, temps);
  }

  /** The target in the backup, and from there the new content in place, or the old one back. */
  lemma StagingIsAround(d: Disk, x: Disk, job: Job, names: set<Name>, temps: set<Name>)
    requires IsDisk(x) && Around(d, x, names, job.temp, temps) && NamesFit(job, names, temps)
    ensures var staged := Rename(x, job.target, job.backup);
            && Around(d, staged, names, job.temp, temps)
            && Around(d, Rename(staged, job.backup, job.target), names, job.temp, temps)
            && Around(d, Rename(staged, job.temp, job.target), names, job.temp, temps)
            && Around(d, Remove(Rename(staged, job.temp, job.target), job.backup), names, job.temp, temps)
  {
    hide Around;
    var staged := Rename(x, job.target, job.backup);
    RenameIsAround(d, x, job.target, job.backup, names, job.temp, temps);
    RenameIsAround(d, staged, job.backup, job.target, names, job.temp, temps);
    RenameIsAround(d, staged, job.temp, job.target, names, job.temp, temps);
    RemoveIsAround(d, Rename(staged, job.temp, job.target), job.backup, names, job.temp, temps);
  }

  lemma StageAndRetryIsAround(d: Disk, x: Disk, job: Job, names: set<Name>, temps: set<Name>, windows: bool, a: Answers)
    requires IsDisk(x) && Around(d, x, names, job.temp, temps) && NamesFit(job, names, temps)
    ensures AllAround(d, StageAndRetry(x, job, windows, a), names, job.temp, temps)
  {
    hide Around, Rename, Remove, Finalize, Abandon, NamesFit;
    AbandonIsAround(d, x, job, names, temps, a);
    StagingIsAround(d, x, job, names, temps);
    var staged := Rename(x, job.target, job.backup);
    var placed := Rename(staged, job.temp, job.target);
    FinalizeIsAround(d, placed, job, names, temps, windows, a);
    FinalizeIsAround(d, Remove(placed, job.backup), job, names, temps, windows, a);
    AbandonIsAround(d, Rename(staged, job.backup, job.target), job, names, temps, a);
  }

  lemma ReplaceWithBackupIsAround(d: Disk, x: Disk, job: Job, names: set<Name>, temps: set<Name>,
                                  windows: bool, a: Answers)
    requires IsDisk(x) && Around(d, x, names, job.temp, temps) && NamesFit(job, names, temps)
    ensures AllAround(d, ReplaceWithBackup(x, job, windows, a), names, job.temp, temps)
  {
    hide Around, Remove, Abandon, StageAndRetry;
    AbandonIsAround(d, x, job, names, temps, a);
    StageAndRetryIsAround(d, x, job, names, temps, windows, a);
    RemoveIsAround(d, x, job.backup, names, job.temp, temps);
    StageAndRetryIsAround(d, Remove(x, job.backup), job, names, temps, windows, a);
  }

  lemma RenameIntoPlaceIsAround(d: Disk, x: Disk, job: Job, names: set<Name>, temps: set<Name>,
                                windows: bool, a: Answers)
    requires IsDisk(x) && Around(d, x, names, job.temp, temps) && NamesFit(job, names, temps)
    ensures AllAround(d, RenameIntoPlace(x, job, windows, a), names, job.temp, temps)
  {
    hide Around, Rename, Abandon, Finalize, ReplaceWithBackup;
    AbandonIsAround(d, x, job, names, temps, a);
    ReplaceWithBackupIsAround(d, x, job, names, temps, windows, a);
    RenameIsAround(d, x, job.temp, job.target, names, job.temp, temps);
    FinalizeIsAround(d, Rename(x, job.temp, job.target), job, names, temps, windows, a);
  }

  lemma ClearLegacyIsAround(d: Disk, x: Disk, job: Job, names: set<Name>, temps: set<Name>, windows: bool, a: Answers)
    requires IsDisk(x) && Around(d, x, names, job.temp, temps) && NamesFit(job, names, temps) && job.legacy in names
    ensures AllAround(d, ClearLegacy(x, job, windows, a), names, job.temp, temps)
  {
    hide Around, Remove, RenameIntoPlace, NamesFit;
    RenameIntoPlaceIsAround(d, x, job, names, temps, windows, a);
    RemoveIsAround(d, x, job.legacy, names, job.temp, temps);
    RenameIntoPlaceIsAround(d, Remove(x, job.legacy), job, names, temps, windows, a);
  }

  lemma SwapIsAround(d: Disk, x: Disk, job: Job, names: set<Name>, temps: set<Name>, a: Answers)
    requires IsDisk(x) && Around(d, x, names, job.temp, temps) && NamesFit(job, names, temps)
    ensures AllAround(d, Swap(x, job, a), names, job.temp, temps)
  {
    hide Around, Rename, Remove, Abandon, NamesFit;
    AbandonIsAround(d, x, job, names, temps, a);
    StagingIsAround(d, x, job, names, temps);
    var staged := Rename(x, job.target, job.backup);
    AbandonIsAround(d, Rename(staged, job.backup, job.target), job, names, temps, a);
    AbandonIsAround(d, staged, job, names, temps, a);
  }

  lemma RenameOrSwapIsAround(d: Disk, x: Disk, job: Job, names: set<Name>, temps: set<Name>, a: Answers)
    requires IsDisk(x) && Around(d, x, names, job.temp, temps) && NamesFit(job, names, temps)
    ensures AllAround(d, RenameOrSwap(x, job, a), names, job.temp, temps)
  {
    hide Around, Rename, Remove, Abandon, Swap;
    AbandonIsAround(d, x, job, names, temps, a);
    RenameIsAround(d, x, job.temp, job.target, names, job.temp, temps);
    SwapIsAround(d, x, job, names, temps, a);
    RemoveIsAround(d, x, job.backup, names, job.temp, temps);
    SwapIsAround(d, Remove(x, job.backup), job, names, temps, a);
  }

  lemma SwapOrRenameIsAround(d: Disk, x: Disk, job: Job, names: set<Name>, temps: set<Name>, windows: bool, a: Answers)
    requires IsDisk(x) && Around(d, x, names, job.temp, temps) && NamesFit(job, names, temps)
    ensures AllAround(d, SwapOrRename(x, job, windows, a), names, job.temp, temps)
  {
    hide Around, Rename, Abandon, Swap;
    AbandonIsAround(d, x, job, names, temps, a);
    RenameIsAround(d, x, job.temp, job.target, names, job.temp, temps);
    SwapIsAround(d, x, job, names, temps, a);
  }

  // ----- Whole calls -----

  lemma DurableReplaceIsAround(d: Disk, job: Job, names: set<Name>, temps: set<Name>, windows: bool, a: Answers)
    requires IsDisk(d) && Private(d, temps) && NamesFit(job, names, temps) && job.legacy in names
    ensures AllAround(d, DurableReplace(d, job, windows, a), names, job.temp, temps)
  {
    hide Around, WriteTemp, ClearLegacy, NamesFit;
    StartIsAround(d, names, job.temp, temps);
    WriteTempIsAround(d, d, job, names, temps, a);
    var written := WriteTemp(d, job.temp, job.content, a).final;
    ClearLegacyIsAround(d, written, job, names, temps, windows, a);
  }

  lemma SaveDiskCacheIsAround(d: Disk, job: Job, names: set<Name>, temps: set<Name>, a: Answers)
    requires IsDisk(d) && Private(d, temps) && NamesFit(job, names, temps)
    ensures AllAround(d, SaveDiskCache(d, job, a), names, job.temp, temps)
  {
    hide Around, WriteTemp, RenameOrSwap, NamesFit;
    StartIsAround(d, names, job.temp, temps);
    WriteTempIsAround(d, d, job, names, temps, a);
    RenameOrSwapIsAround(d, WriteTemp(d, job.temp, job.content, a).final, job, names, temps, a);
  }

  lemma WriteAtomicFileIsAround(d: Disk, job: Job, names: set<Name>, temps: set<Name>, windows: bool, a: Answers)
    requires IsDisk(d) && Private(d, temps) && NamesFit(job, names, temps)
    ensures AllAround(d, WriteAtomicFile(d, job, windows, a), names, job.temp, temps)
  {
    hide Around, WriteTemp, SwapOrRename, NamesFit;
    StartIsAround(d, names, job.temp, temps);
    WriteTempIsAround(d, d, job, names, temps, a);
    SwapOrRenameIsAround(d, WriteTemp(d, job.temp, job.content, a).final, job, names, temps, windows, a);
  }
}
