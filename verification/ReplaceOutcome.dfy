/** When each of the three writers succeeds, and what it leaves under its names, for every pattern of answers. */
module ReplaceOutcome {
  import opened Wrappers
  import opened DiskModel
  import opened AtomicReplace

  /** What a name stands for. */
  function FileOf(d: Disk, name: Name): Option<File>
    requires IsDisk(d)
  {
    if Exists(d, name) then Some(FileAt(d, name)) else None
  }

  predicate AreDistinct(job: Job) {
    job.target != job.temp && job.target != job.backup && job.temp != job.backup
  }

  /** No other name stands for the temporary file. */
  predicate TempAlone(d: Disk, temp: Name)
    requires d.directories != []
  {
    Exists(d, temp) ==> forall name :: name in Current(d) && name != temp ==> Current(d)[name] != Current(d)[temp]
  }

  function Content(job: Job): Option<File> {
    Some(File(job.content, true))
  }

  // ----- Single changes -----

  lemma RenameMoves(d: Disk, from: Name, to: Name)
    requires IsDisk(d) && Exists(d, from) && from != to
    ensures FileOf(Rename(d, from, to), to) == FileOf(d, from) && FileOf(Rename(d, from, to), from) == None
    ensures forall name :: name != from && name != to ==> FileOf(Rename(d, from, to), name) == FileOf(d, name)
  {
  }

  lemma RemoveRemoves(d: Disk, gone: Name)
    requires IsDisk(d)
    ensures FileOf(Remove(d, gone), gone) == None
    ensures forall name :: name != gone ==> FileOf(Remove(d, gone), name) == FileOf(d, name)
  {
  }

  lemma CreateLeaves(d: Disk, temp: Name)
    requires IsDisk(d) && TempAlone(d, temp)
    ensures var r := CreateTruncated(d, temp);
            && Exists(r, temp) && TempAlone(r, temp)
            && (forall name :: name != temp ==> FileOf(r, name) == FileOf(d, name))
  {
  }

  /** Writing to the temporary file, or syncing it. */
  lemma ChangeLeaves(d: Disk, temp: Name, file: File)
    requires IsDisk(d) && TempAlone(d, temp) && Exists(d, temp)
    ensures var r := d.(files := d.files[Current(d)[temp] := file]);
            && IsDisk(r) && TempAlone(r, temp) && FileOf(r, temp) == Some(file)
            && (forall name :: name != temp ==> FileOf(r, name) == FileOf(d, name))
  {
  }

  lemma WriteAndSyncLeave(d: Disk, temp: Name, data: Bytes)
    requires IsDisk(d) && TempAlone(d, temp) && Exists(d, temp)
    ensures var written := Write(d, temp, data);
            && FileOf(written, temp) == Some(File(data, false))
            && FileOf(SyncFile(written, temp), temp) == Some(File(data, true))
            && (forall name :: name != temp ==> FileOf(written, name) == FileOf(d, name))
            && (forall name :: name != temp ==> FileOf(SyncFile(written, temp), name) == FileOf(d, name))
  {
    hide IsDisk, TempAlone;
    ChangeLeaves(d, temp, File(data, false));
    ChangeLeaves(Write(d, temp, data), temp, File(data, true));
  }

  /** Creating and writing the temporary file. */
  lemma WriteTempLeaves(d: Disk, job: Job, a: Answers)
    requires IsDisk(d) && TempAlone(d, job.temp)
    ensures var o := WriteTemp(d, job.temp, job.content, a);
            && (o.ok <==> a.open && a.write && a.sync)
            && (o.ok ==> FileOf(o.final, job.temp) == Content(job))
            && (if a.open then FileOf(o.final, job.temp).Some? else o.final == d)
            && (forall name :: name != job.temp ==> FileOf(o.final, name) == FileOf(d, name))
  {
    hide IsDisk, FileOf, TempAlone, CreateTruncated, Write, SyncFile;
    if a.open {
      CreateLeaves(d, job.temp);
      var created := CreateTruncated(d, job.temp);
      WriteAndSyncLeave(created, job.temp, job.content);
      WriteAndSyncLeave(created, job.temp, if a.written < |job.content| then job.content[..a.written] else job.content);
    }
  }

  // ----- The stages -----

  lemma AbandonLeaves(d: Disk, job: Job, a: Answers)
    requires IsDisk(d)
    ensures var o := Abandon(d, job.temp, a);
            && !o.ok && FileOf(o.final, job.temp) == (if a.removeTemp then None else FileOf(d, job.temp))
            && (forall name :: name != job.temp ==> FileOf(o.final, name) == FileOf(d, name))
  {
    RemoveRemoves(d, job.temp);
  }

  /** The syncs at the end of `durable_replace` change no file that is synced already. */
  lemma FinalizeLeaves(d: Disk, job: Job, windows: bool, a: Answers)
    requires IsDisk(d) && FileOf(d, job.target) == Content(job)
    ensures var o := Finalize(d, job.target, windows, a);
            && (o.ok <==> a.syncTarget && (windows || a.syncParent))
            && (forall name :: FileOf(o.final, name) == FileOf(d, name))
            && (o.ok && !windows ==> |o.final.directories| == 1)
  {
    assert SyncFile(d, job.target).files == d.files;
  }

  /** How far a call has come: nothing was done; the temporary file was left behind; the new content is in place; the
      old one is in the backup and nothing in place; or the new content was given up. */
  datatype Course = NotStarted | TempLeft | Placed | Aside | GivenUp

  /** From a complete temporary file on: what stands under the names after this course. `kept` is what the target holds
      where the new content was given up. */
  predicate Leaves(x: Disk, d: Disk, job: Job, course: Course, kept: Option<File>, tempLeft: bool)
    requires IsDisk(x) && IsDisk(d)
  {
    match course
    case Placed => FileOf(x, job.target) == Content(job) && FileOf(x, job.temp) == None
    case Aside =>
      && FileOf(x, job.target) == None && FileOf(x, job.backup) == FileOf(d, job.target)
      && FileOf(x, job.temp) == (if tempLeft then Content(job) else None)
    case GivenUp => FileOf(x, job.target) == kept && FileOf(x, job.temp) == (if tempLeft then Content(job) else None)
    case _ => false
  }

  function StageCourse(a: Answers): Course {
    if !a.stage then GivenUp else if a.retry then Placed else if a.restore then GivenUp else Aside
  }

  lemma StagedFiles(d: Disk, job: Job)
    requires IsDisk(d) && AreDistinct(job) && FileOf(d, job.temp) == Content(job) && Exists(d, job.target)
    ensures var staged := Rename(d, job.target, job.backup);
            var placed, restored := Rename(staged, job.temp, job.target), Rename(staged, job.backup, job.target);
            && Leaves(staged, d, job, Aside, None, true)
            && Leaves(placed, d, job, Placed, None, true) && FileOf(placed, job.backup) == FileOf(d, job.target)
            && Leaves(restored, d, job, GivenUp, FileOf(d, job.target), true)
            && Leaves(Remove(placed, job.backup), d, job, Placed, None, true)
            && FileOf(Remove(placed, job.backup), job.backup) == None
  {
    var staged := Rename(d, job.target, job.backup);
    RenameMoves(d, job.target, job.backup);
    RenameMoves(staged, job.temp, job.target);
    RenameMoves(staged, job.backup, job.target);
    RemoveRemoves(Rename(staged, job.temp, job.target), job.backup);
  }

  /** Staging the target aside: the course, success, and whether the backup stays. */
  lemma StageAndRetryLeaves(d: Disk, job: Job, windows: bool, a: Answers)
    requires IsDisk(d) && AreDistinct(job) && FileOf(d, job.temp) == Content(job) && Exists(d, job.target)
    ensures var o, course := StageAndRetry(d, job, windows, a), StageCourse(a);
            && (o.ok <==> course == Placed && a.syncTarget && (windows || a.syncParent))
            && Leaves(o.final, d, job, course, FileOf(d, job.target), course == Aside || !a.removeTemp)
            && (course == Placed
                ==> FileOf(o.final, job.backup) == if a.removeBackup then None else FileOf(d, job.target))
            && (o.ok && !windows ==> |o.final.directories| == 1)
  {
    hide Rename, Remove, FileOf, Finalize, Abandon;
    StagedFiles(d, job);
    var staged := Rename(d, job.target, job.backup);
    var placed := Rename(staged, job.temp, job.target);
    FinalizeLeaves(placed, job, windows, a);
    FinalizeLeaves(Remove(placed, job.backup), job, windows, a);
    AbandonLeaves(d, job, a);
    AbandonLeaves(Rename(staged, job.backup, job.target), job, a);
  }

  /** The same for the two writers that sync nothing at the end; there the temporary file goes in any case. */
  lemma SwapLeaves(d: Disk, job: Job, a: Answers)
    requires IsDisk(d) && AreDistinct(job) && FileOf(d, job.temp) == Content(job) && Exists(d, job.target)
    ensures var o, course := Swap(d, job, a), StageCourse(a);
            && (o.ok <==> course == Placed)
            && Leaves(o.final, d, job, course, FileOf(d, job.target), !a.removeTemp)
            && (course == Placed
                ==> FileOf(o.final, job.backup) == if a.removeBackup then None else FileOf(d, job.target))
  {
    hide Rename, Remove, FileOf, Abandon;
    StagedFiles(d, job);
    var staged := Rename(d, job.target, job.backup);
    AbandonLeaves(d, job, a);
    AbandonLeaves(staged, job, a);
    AbandonLeaves(Rename(staged, job.backup, job.target), job, a);
  }

  // ----- durable_replace -----

  /** No stale backup stands in the way, as far as the call can tell. */
  predicate ClearsBackup(d: Disk, job: Job, a: Answers)
    requires d.directories != []
  {
    Exists(d, job.backup) && a.canTellBackup ==> a.removeStale
  }

  function ReplaceCourse(d: Disk, job: Job, a: Answers): Course
    requires d.directories != []
  {
    if a.rename == Renamed then Placed
    else if a.rename == AlreadyExists && Exists(d, job.target) && a.canTellTarget && ClearsBackup(d, job, a)
    then StageCourse(a) else GivenUp
  }

  lemma ReplaceWithBackupLeaves(d: Disk, job: Job, windows: bool, a: Answers)
    requires IsDisk(d) && AreDistinct(job) && FileOf(d, job.temp) == Content(job) && Exists(d, job.target)
    ensures var o := ReplaceWithBackup(d, job, windows, a);
            var course := if ClearsBackup(d, job, a) then StageCourse(a) else GivenUp;
            && (o.ok <==> course == Placed && a.syncTarget && (windows || a.syncParent))
            && Leaves(o.final, d, job, course, FileOf(d, job.target), course == Aside || !a.removeTemp)
            && (o.ok && !windows ==> |o.final.directories| == 1)
  {
    hide Remove, StageAndRetry, Abandon, StageCourse;
    RemoveRemoves(d, job.backup);
    AbandonLeaves(d, job, a);
    StageAndRetryLeaves(d, job, windows, a);
    if Exists(d, job.backup) && a.canTellBackup {
      StageAndRetryLeaves(Remove(d, job.backup), job, windows, a);
    }
  }

  lemma RenameIntoPlaceLeaves(d: Disk, job: Job, windows: bool, a: Answers)
    requires IsDisk(d) && AreDistinct(job) && FileOf(d, job.temp) == Content(job)
    ensures var o, course := RenameIntoPlace(d, job, windows, a), ReplaceCourse(d, job, a);
            && (o.ok <==> course == Placed && a.syncTarget && (windows || a.syncParent))
            && Leaves(o.final, d, job, course, FileOf(d, job.target), course == Aside || !a.removeTemp)
            && (o.ok && !windows ==> |o.final.directories| == 1)
  {
    hide Rename, ReplaceWithBackup, Abandon, Finalize, StageCourse, ClearsBackup;
    AbandonLeaves(d, job, a);
    RenameMoves(d, job.temp, job.target);
    FinalizeLeaves(Rename(d, job.temp, job.target), job, windows, a);
    if Exists(d, job.target) {
      ReplaceWithBackupLeaves(d, job, windows, a);
    }
  }

  /** The legacy backup is not there, as far as the call can tell, or can be removed. */
  predicate ClearsLegacy(d: Disk, job: Job, a: Answers)
    requires d.directories != []
  {
    Exists(d, job.legacy) && a.canTellLegacy ==> a.removeLegacy
  }

  /** The target is seen when the rename has failed: it was there, and was not itself removed as the legacy backup. */
  predicate SeesTarget(d: Disk, job: Job, a: Answers)
    requires d.directories != []
  {
    Exists(d, job.target) && a.canTellTarget && !(job.legacy == job.target && a.canTellLegacy)
  }

  function DurableCourse(d: Disk, job: Job, a: Answers): Course
    requires d.directories != []
  {
    if !a.mkdir || !a.open then NotStarted
    else if !a.write || !a.sync || !ClearsLegacy(d, job, a) then TempLeft
    else if a.rename == Renamed then Placed
    else if a.rename == AlreadyExists && SeesTarget(d, job, a) && ClearsBackup(d, job, a) then StageCourse(a)
    else GivenUp
  }

  /** What the target holds when the new content is given up. */
  function KeptFile(d: Disk, job: Job, a: Answers): Option<File>
    requires IsDisk(d)
  {
    if job.legacy == job.target && a.canTellLegacy then None else FileOf(d, job.target)
  }

  lemma SameNames(d: Disk, x: Disk, job: Job)
    requires IsDisk(d) && IsDisk(x) && forall name :: name != job.temp ==> FileOf(x, name) == FileOf(d, name)
    ensures forall name :: name != job.temp ==> (Exists(x, name) <==> Exists(d, name))
  {
    forall name | name != job.temp ensures Exists(x, name) <==> Exists(d, name) {
      assert FileOf(x, name) == FileOf(d, name);
    }
  }

  /** From a complete temporary file on, once no legacy backup is in the way. */
  lemma AfterLegacyLeaves(d: Disk, x: Disk, job: Job, windows: bool, a: Answers)
    requires IsDisk(d) && IsDisk(x) && AreDistinct(job) && FileOf(x, job.temp) == Content(job)
    requires FileOf(x, job.target) == KeptFile(d, job, a) && FileOf(x, job.backup) == FileOf(d, job.backup)
    requires a.mkdir && a.open && a.write && a.sync && ClearsLegacy(d, job, a)
    ensures var o, course := RenameIntoPlace(x, job, windows, a), DurableCourse(d, job, a);
            && (o.ok <==> course == Placed && a.syncTarget && (windows || a.syncParent))
            && course != NotStarted && course != TempLeft
            && Leaves(o.final, d, job, course, KeptFile(d, job, a), course == Aside || !a.removeTemp)
            && (o.ok && !windows ==> |o.final.directories| == 1)
  {
    hide RenameIntoPlace;
    RenameIntoPlaceLeaves(x, job, windows, a);
  }

  lemma ClearLegacyLeaves(d: Disk, x: Disk, job: Job, windows: bool, a: Answers)
    requires IsDisk(d) && IsDisk(x) && AreDistinct(job) && job.legacy != job.temp && job.legacy != job.backup
    requires FileOf(x, job.temp) == Content(job)
    requires forall name :: name != job.temp ==> FileOf(x, name) == FileOf(d, name)
    requires a.mkdir && a.open && a.write && a.sync
    ensures var o, course := ClearLegacy(x, job, windows, a), DurableCourse(d, job, a);
            && (o.ok <==> course == Placed && a.syncTarget && (windows || a.syncParent))
            && (course == TempLeft <==> !ClearsLegacy(d, job, a))
            && (if course == TempLeft then o.final == x
                else course != NotStarted
                     && Leaves(o.final, d, job, course, KeptFile(d, job, a), course == Aside || !a.removeTemp))
            && (o.ok && !windows ==> |o.final.directories| == 1)
  {
    hide Remove, RenameIntoPlace, StageCourse, Leaves, ClearsBackup, SeesTarget;
    SameNames(d, x, job);
    assert FileOf(x, job.target) == FileOf(d, job.target) && FileOf(x, job.backup) == FileOf(d, job.backup);
    if Exists(x, job.legacy) && a.canTellLegacy {
      RemoveRemoves(x, job.legacy);
      if a.removeLegacy { AfterLegacyLeaves(d, Remove(x, job.legacy), job, windows, a); }
    } else {
      AfterLegacyLeaves(d, x, job, windows, a);
    }
  }

  /** `durable_replace` returns `Ok` exactly when the directory could be made, the temporary file opened, written and
      synced, a legacy backup removed, the rename done, or else the target staged aside and the rename done then, and
      the syncs done. Then the target holds the new content; and what is left otherwise depends on how far it came. */
  lemma DurableReplaceSucceedsExactly(d: Disk, job: Job, windows: bool, a: Answers)
    requires IsDisk(d) && AreDistinct(job) && job.legacy != job.temp && job.legacy != job.backup
    requires TempAlone(d, job.temp)
    ensures DurableReplace(d, job, windows, a).ok
       <==> && a.mkdir && a.open && a.write && a.sync && ClearsLegacy(d, job, a)
            && (|| a.rename == Renamed
                || (a.rename == AlreadyExists && SeesTarget(d, job, a) && ClearsBackup(d, job, a)
                    && a.stage && a.retry))
            && a.syncTarget && (windows || a.syncParent)
    ensures var o, course := DurableReplace(d, job, windows, a), DurableCourse(d, job, a);
            && (o.ok ==> course == Placed && (!windows ==> |o.final.directories| == 1))
            && (course == NotStarted ==> o.final == d)
            && (course == TempLeft
                ==> Exists(o.final, job.temp) && FileOf(o.final, job.target) == FileOf(d, job.target))
            && (course != NotStarted && course != TempLeft
                ==> Leaves(o.final, d, job, course, KeptFile(d, job, a), course == Aside || !a.removeTemp))
  {
    hide WriteTemp, ClearLegacy, ClearsLegacy, SeesTarget, ClearsBackup, Leaves, KeptFile;
    WriteTempLeaves(d, job, a);
    var written := WriteTemp(d, job.temp, job.content, a);
    if a.mkdir && written.ok {
      ClearLegacyLeaves(d, written.final, job, windows, a);
    }
  }

  // ----- The two writers without a sync at the end -----

  function CacheCourse(d: Disk, job: Job, a: Answers): Course
    requires d.directories != []
  {
    if !a.open then NotStarted
    else if !a.write || !a.sync then TempLeft
    else if a.rename == Renamed then Placed
    else if Exists(d, job.target) && a.canTellTarget then StageCourse(a)
    else GivenUp
  }

  lemma RenameOrSwapLeaves(d: Disk, x: Disk, job: Job, a: Answers)
    requires IsDisk(d) && IsDisk(x) && AreDistinct(job) && FileOf(x, job.temp) == Content(job)
    requires forall name :: name != job.temp ==> FileOf(x, name) == FileOf(d, name)
    requires a.open && a.write && a.sync
    ensures var o, course := RenameOrSwap(x, job, a), CacheCourse(d, job, a);
            (o.ok <==> course == Placed) && Leaves(o.final, d, job, course, FileOf(d, job.target), !a.removeTemp)
  {
    hide Rename, Remove, Swap, Abandon, StageCourse;
    SameNames(d, x, job);
    AbandonLeaves(x, job, a);
    RenameMoves(x, job.temp, job.target);
    RemoveRemoves(x, job.backup);
    if Exists(x, job.target) {
      SwapLeaves(x, job, a);
      SwapLeaves(Remove(x, job.backup), job, a);
    }
  }

  /** `save_disk_cache` returns `Ok` exactly when the temporary file could be opened, written and synced and the rename
      done, or else the target staged aside and the rename done then. */
  lemma SaveDiskCacheSucceedsExactly(d: Disk, job: Job, a: Answers)
    requires IsDisk(d) && AreDistinct(job) && TempAlone(d, job.temp)
    ensures SaveDiskCache(d, job, a).ok
       <==> && a.open && a.write && a.sync
            && (a.rename == Renamed || (Exists(d, job.target) && a.canTellTarget && a.stage && a.retry))
    ensures var o, course := SaveDiskCache(d, job, a), CacheCourse(d, job, a);
            && (o.ok ==> course == Placed)
            && (course == NotStarted ==> o.final == d)
            && (course == TempLeft
                ==> Exists(o.final, job.temp) && FileOf(o.final, job.target) == FileOf(d, job.target))
            && (course != NotStarted && course != TempLeft
                ==> Leaves(o.final, d, job, course, FileOf(d, job.target), !a.removeTemp))
  {
    hide WriteTemp, RenameOrSwap, Leaves;
    WriteTempLeaves(d, job, a);
    var written := WriteTemp(d, job.temp, job.content, a);
    if written.ok {
      RenameOrSwapLeaves(d, written.final, job, a);
    }
  }

  function AtomicCourse(d: Disk, job: Job, windows: bool, a: Answers): Course
    requires d.directories != []
  {
    if !a.mkdir || !a.open then NotStarted
    else if !a.write || !a.sync then TempLeft
    else if windows && Exists(d, job.target) && a.canTellTarget then StageCourse(a)
    else if a.rename == Renamed then Placed
    else GivenUp
  }

  lemma SwapOrRenameLeaves(d: Disk, x: Disk, job: Job, windows: bool, a: Answers)
    requires IsDisk(d) && IsDisk(x) && AreDistinct(job) && FileOf(x, job.temp) == Content(job)
    requires forall name :: name != job.temp ==> FileOf(x, name) == FileOf(d, name)
    requires a.mkdir && a.open && a.write && a.sync
    ensures var o, course := SwapOrRename(x, job, windows, a), AtomicCourse(d, job, windows, a);
            (o.ok <==> course == Placed) && Leaves(o.final, d, job, course, FileOf(d, job.target), !a.removeTemp)
  {
    hide Rename, Swap, Abandon, StageCourse;
    SameNames(d, x, job);
    AbandonLeaves(x, job, a);
    RenameMoves(x, job.temp, job.target);
    if Exists(x, job.target) {
      SwapLeaves(x, job, a);
    }
  }

  /** `write_atomic_file` returns `Ok` exactly when the directory could be made, the temporary file opened, written and
      synced and the rename done, or on Windows, over a file it sees, that one staged aside and the rename done then. */
  lemma WriteAtomicFileSucceedsExactly(d: Disk, job: Job, windows: bool, a: Answers)
    requires IsDisk(d) && AreDistinct(job) && TempAlone(d, job.temp)
    ensures WriteAtomicFile(d, job, windows, a).ok
       <==> && a.mkdir && a.open && a.write && a.sync
            && (if windows && Exists(d, job.target) && a.canTellTarget then a.stage && a.retry else a.rename == Renamed)
    ensures var o, course := WriteAtomicFile(d, job, windows, a), AtomicCourse(d, job, windows, a);
            && (o.ok ==> course == Placed)
            && (course == NotStarted ==> o.final == d)
            && (course == TempLeft
                ==> Exists(o.final, job.temp) && FileOf(o.final, job.target) == FileOf(d, job.target))
            && (course != NotStarted && course != TempLeft
                ==> Leaves(o.final, d, job, course, FileOf(d, job.target), !a.removeTemp))
  {
    hide WriteTemp, SwapOrRename, Leaves;
    WriteTempLeaves(d, job, a);
    var written := WriteTemp(d, job.temp, job.content, a);
    if a.mkdir && written.ok {
      SwapOrRenameLeaves(d, written.final, job, windows, a);
    }
  }
}
