/**
  Replacing a file so that a crash at any point leaves the whole old or the whole new content.

  The three writers of the source are followed call by call. What the operating system answers
  to each call is an argument, so a statement about every `Answers` covers every pattern of
  failures; a failed call changes nothing, except that a failed write may have written a part.
 */
module AtomicReplace {
  import opened Wrappers
  import opened DiskModel

  datatype RenameAnswer = Renamed | AlreadyExists | RenameFailed

  datatype Answers = Answers(
    mkdir: bool, open: bool, write: bool, written: nat, sync: bool,
    canTellLegacy: bool, removeLegacy: bool,
    rename: RenameAnswer, canTellTarget: bool,
    canTellBackup: bool, removeStale: bool,
    stage: bool, retry: bool, restore: bool,
    removeTemp: bool, removeBackup: bool,
    syncTarget: bool, syncParent: bool)

  /** One replacement: the names it uses and the content to write. `legacy` is the fixed `.bak` sibling. */
  datatype Job = Job(target: Name, temp: Name, backup: Name, legacy: Name, content: Bytes)

  /** The disks passed, from the one at the start to the one at the end, and whether the call returned `Ok`. */
  datatype Outcome = Outcome(passed: set<Disk>, final: Disk, ok: bool)

  ghost predicate IsOutcome(o: Outcome, d: Disk) {
    d in o.passed && o.final in o.passed && forall x :: x in o.passed ==> IsDisk(x)
  }

  function Stop(d: Disk, ok: bool): (o: Outcome)
    requires IsDisk(d)
    ensures IsOutcome(o, d)
  {
    Outcome({d}, d, ok)
  }

  /** What happens from `d` on, when the next disk starts `o`. */
  function Then(d: Disk, o: Outcome): (r: Outcome)
    requires IsDisk(d) && IsOutcome(o, o.final)
    ensures IsOutcome(r, d)
  {
    Outcome({d} + o.passed, o.final, o.ok)
  }

  /** `first`, and after it `rest`. */
  function Follow(d: Disk, first: Outcome, rest: Outcome): (o: Outcome)
    requires IsOutcome(first, d) && IsOutcome(rest, first.final)
    ensures IsOutcome(o, d)
  {
    Outcome(first.passed + rest.passed, rest.final, rest.ok)
  }

  /** `write_temp_durable`. */
  function WriteTemp(d: Disk, temp: Name, content: Bytes, a: Answers): (o: Outcome)
    requires IsDisk(d)
    ensures IsOutcome(o, d)
  {
    if !a.open then Stop(d, false) else
      var created := CreateTruncated(d, temp);
      if !a.write then
        var part := if a.written < |content| then content[..a.written] else content;
        Then(d, Then(created, Stop(Write(created, temp, part), false)))
      else
        var written := Write(created, temp, content);
        if !a.sync then Then(d, Then(created, Stop(written, false)))
        else Then(d, Then(created, Then(written, Stop(SyncFile(written, temp), true))))
  }

  /** Best-effort removal of the temporary file on the way out. */
  function Abandon(d: Disk, temp: Name, a: Answers): (o: Outcome)
    requires IsDisk(d)
    ensures IsOutcome(o, d) && !o.ok
  {
    if a.removeTemp then Then(d, Stop(Remove(d, temp), false)) else Stop(d, false)
  }

  /** `finalize_durable`; on Windows the directory is not synced. */
  function Finalize(d: Disk, target: Name, windows: bool, a: Answers): (o: Outcome)
    requires IsDisk(d)
    ensures IsOutcome(o, d)
  {
    if !a.syncTarget then Stop(d, false) else
      var synced := SyncFile(d, target);
      if windows then Then(d, Stop(synced, true))
      else if !a.syncParent then Then(d, Stop(synced, false))
      else Then(d, Then(synced, Stop(SyncDirectory(synced), true)))
  }

  /** The rest of `replace_with_backup` once no stale backup is in the way. */
  function StageAndRetry(d: Disk, job: Job, windows: bool, a: Answers): (o: Outcome)
    requires IsDisk(d)
    ensures IsOutcome(o, d)
  {
    if !a.stage then Abandon(d, job.temp, a) else
      var staged := Rename(d, job.target, job.backup);
      if a.retry then
        var placed := Rename(staged, job.temp, job.target);
        var rest := if a.removeBackup
                    then Then(placed, Finalize(Remove(placed, job.backup), job.target, windows, a))
                    else Finalize(placed, job.target, windows, a);
        Then(d, Then(staged, rest))
      else if !a.restore then Then(d, Stop(staged, false))
      else Then(d, Then(staged, Abandon(Rename(staged, job.backup, job.target), job.temp, a)))
  }

  function ReplaceWithBackup(d: Disk, job: Job, windows: bool, a: Answers): (o: Outcome)
    requires IsDisk(d)
    ensures IsOutcome(o, d)
  {
    if Exists(d, job.backup) && a.canTellBackup then
      if !a.removeStale then Abandon(d, job.temp, a)
      else Then(d, StageAndRetry(Remove(d, job.backup), job, windows, a))
    else StageAndRetry(d, job, windows, a)
  }

  function RenameIntoPlace(d: Disk, job: Job, windows: bool, a: Answers): (o: Outcome)
    requires IsDisk(d)
    ensures IsOutcome(o, d)
  {
    match a.rename
    case Renamed => Then(d, Finalize(Rename(d, job.temp, job.target), job.target, windows, a))
    case AlreadyExists =>
      if Exists(d, job.target) && a.canTellTarget then ReplaceWithBackup(d, job, windows, a)
      else Abandon(d, job.temp, a)
    case RenameFailed => Abandon(d, job.temp, a)
  }

  /** Removal of the legacy backup, which runs before the rename. */
  function ClearLegacy(d: Disk, job: Job, windows: bool, a: Answers): (o: Outcome)
    requires IsDisk(d)
    ensures IsOutcome(o, d)
  {
    if Exists(d, job.legacy) && a.canTellLegacy then
      if !a.removeLegacy then Stop(d, false)
      else Then(d, RenameIntoPlace(Remove(d, job.legacy), job, windows, a))
    else RenameIntoPlace(d, job, windows, a)
  }

  /** `durable_replace`. */
  function DurableReplace(d: Disk, job: Job, windows: bool, a: Answers): (o: Outcome)
    requires IsDisk(d)
    ensures IsOutcome(o, d)
  {
    if !a.mkdir then Stop(d, false) else
      var written := WriteTemp(d, job.temp, job.content, a);
      if !written.ok then written else Follow(d, written, ClearLegacy(written.final, job, windows, a))
  }

  /** Moves the target aside, the temporary file in, and on failure the target back; nothing is synced here. */
  function Swap(d: Disk, job: Job, a: Answers): (o: Outcome)
    requires IsDisk(d)
    ensures IsOutcome(o, d)
  {
    if !a.stage then Abandon(d, job.temp, a) else
      var staged := Rename(d, job.target, job.backup);
      if a.retry then
        var placed := Rename(staged, job.temp, job.target);
        var rest := if a.removeBackup then Then(placed, Stop(Remove(placed, job.backup), true)) else Stop(placed, true);
        Then(d, Then(staged, rest))
      else if a.restore then Then(d, Then(staged, Abandon(Rename(staged, job.backup, job.target), job.temp, a)))
      else Then(d, Abandon(staged, job.temp, a))
  }

  /** The tail of `save_disk_cache`: any failed rename over an existing file is retried by a swap. */
  function RenameOrSwap(d: Disk, job: Job, a: Answers): (o: Outcome)
    requires IsDisk(d)
    ensures IsOutcome(o, d)
  {
    if a.rename == Renamed then Then(d, Stop(Rename(d, job.temp, job.target), true))
    else if Exists(d, job.target) && a.canTellTarget then
      if Exists(d, job.backup) && a.canTellBackup && a.removeStale then Then(d, Swap(Remove(d, job.backup), job, a))
      else Swap(d, job, a)
    else Abandon(d, job.temp, a)
  }

  /** `save_disk_cache`. */
  function SaveDiskCache(d: Disk, job: Job, a: Answers): (o: Outcome)
    requires IsDisk(d)
    ensures IsOutcome(o, d)
  {
    var written := WriteTemp(d, job.temp, job.content, a);
    if !written.ok then written else Follow(d, written, RenameOrSwap(written.final, job, a))
  }

  /** The tail of `write_atomic_file`: on Windows an existing file is swapped at once. */
  function SwapOrRename(d: Disk, job: Job, windows: bool, a: Answers): (o: Outcome)
    requires IsDisk(d)
    ensures IsOutcome(o, d)
  {
    if windows && Exists(d, job.target) && a.canTellTarget then Swap(d, job, a)
    else if a.rename == Renamed then Then(d, Stop(Rename(d, job.temp, job.target), true))
    else Abandon(d, job.temp, a)
  }

  /** `write_atomic_file`. Failing to set the permissions of the temporary file is a write that wrote nothing. */
  function WriteAtomicFile(d: Disk, job: Job, windows: bool, a: Answers): (o: Outcome)
    requires IsDisk(d)
    ensures IsOutcome(o, d)
  {
    if !a.mkdir then Stop(d, false) else
      var written := WriteTemp(d, job.temp, job.content, a);
      if !written.ok then written else Follow(d, written, SwapOrRename(written.final, job, windows, a))
  }

  // ----- The imperative form -----

  method WriteTempDurable(fs: FileSystem, temp: Name, content: Bytes, a: Answers) returns (ok: bool)
    requires fs.Valid()
    modifies fs
    ensures fs.Valid()
    ensures var o := WriteTemp(old(fs.disk), temp, content, a);
            fs.passed == old(fs.passed) + o.passed && fs.disk == o.final && ok == o.ok
  {
    hide CreateTruncated, Write, SyncFile;
    if !a.open { return false; }
    fs.DoCreate(temp);
    if !a.write {
      fs.DoWrite(temp, if a.written < |content| then content[..a.written] else content);
      return false;
    }
    fs.DoWrite(temp, content);
    if !a.sync { return false; }
    fs.DoSync(temp);
    return true;
  }

  method AbandonTemp(fs: FileSystem, temp: Name, a: Answers)
    requires fs.Valid()
    modifies fs
    ensures fs.Valid()
    ensures var o := Abandon(old(fs.disk), temp, a);
            fs.passed == old(fs.passed) + o.passed && fs.disk == o.final
  {
    if a.removeTemp {
      fs.DoRemove(temp);
    }
  }

  method FinalizeDurable(fs: FileSystem, target: Name, windows: bool, a: Answers) returns (ok: bool)
    requires fs.Valid()
    modifies fs
    ensures fs.Valid()
    ensures var o := Finalize(old(fs.disk), target, windows, a);
            fs.passed == old(fs.passed) + o.passed && fs.disk == o.final && ok == o.ok
  {
    if !a.syncTarget { return false; }
    fs.DoSync(target);
    if windows { return true; }
    if !a.syncParent { return false; }
    fs.DoSyncDirectory();
    return true;
  }

  method DoStageAndRetry(fs: FileSystem, job: Job, windows: bool, a: Answers) returns (ok: bool)
    requires fs.Valid()
    modifies fs
    ensures fs.Valid()
    ensures var o := StageAndRetry(old(fs.disk), job, windows, a);
            fs.passed == old(fs.passed) + o.passed && fs.disk == o.final && ok == o.ok
  {
    hide Finalize, Abandon, Rename, Remove;
    if !a.stage {
      AbandonTemp(fs, job.temp, a);
      return false;
    }
    fs.DoRename(job.target, job.backup);
    if a.retry {
      fs.DoRename(job.temp, job.target);
      if a.removeBackup {
        fs.DoRemove(job.backup);
      }
      ok := FinalizeDurable(fs, job.target, windows, a);
      return ok;
    }
    if !a.restore { return false; }
    fs.DoRename(job.backup, job.target);
    AbandonTemp(fs, job.temp, a);
    return false;
  }

  method DoReplaceWithBackup(fs: FileSystem, job: Job, windows: bool, a: Answers) returns (ok: bool)
    requires fs.Valid()
    modifies fs
    ensures fs.Valid()
    ensures var o := ReplaceWithBackup(old(fs.disk), job, windows, a);
            fs.passed == old(fs.passed) + o.passed && fs.disk == o.final && ok == o.ok
  {
    hide StageAndRetry, Abandon, Remove;
    var stale := fs.Sees(job.backup, a.canTellBackup);
    if stale {
      if !a.removeStale {
        AbandonTemp(fs, job.temp, a);
        return false;
      }
      fs.DoRemove(job.backup);
    }
    ok := DoStageAndRetry(fs, job, windows, a);
  }

  method DoRenameIntoPlace(fs: FileSystem, job: Job, windows: bool, a: Answers) returns (ok: bool)
    requires fs.Valid()
    modifies fs
    ensures fs.Valid()
    ensures var o := RenameIntoPlace(old(fs.disk), job, windows, a);
            fs.passed == old(fs.passed) + o.passed && fs.disk == o.final && ok == o.ok
  {
    hide ReplaceWithBackup, Finalize, Abandon, Rename;
    if a.rename == Renamed {
      fs.DoRename(job.temp, job.target);
      ok := FinalizeDurable(fs, job.target, windows, a);
      return ok;
    }
    var seen := fs.Sees(job.target, a.canTellTarget);
    if a.rename == AlreadyExists && seen {
      ok := DoReplaceWithBackup(fs, job, windows, a);
      return ok;
    }
    AbandonTemp(fs, job.temp, a);
    return false;
  }

  method DoClearLegacy(fs: FileSystem, job: Job, windows: bool, a: Answers) returns (ok: bool)
    requires fs.Valid()
    modifies fs
    ensures fs.Valid()
    ensures var o := ClearLegacy(old(fs.disk), job, windows, a);
            fs.passed == old(fs.passed) + o.passed && fs.disk == o.final && ok == o.ok
  {
    hide RenameIntoPlace, Remove;
    var legacy := fs.Sees(job.legacy, a.canTellLegacy);
    if legacy {
      if !a.removeLegacy { return false; }
      fs.DoRemove(job.legacy);
    }
    ok := DoRenameIntoPlace(fs, job, windows, a);
  }

  method DoDurableReplace(fs: FileSystem, job: Job, windows: bool, a: Answers) returns (ok: bool)
    requires fs.Valid()
    modifies fs
    ensures fs.Valid()
    ensures var o := DurableReplace(old(fs.disk), job, windows, a);
            fs.passed == old(fs.passed) + o.passed && fs.disk == o.final && ok == o.ok
  {
    hide WriteTemp, ClearLegacy;
    if !a.mkdir { return false; }
    ok := WriteTempDurable(fs, job.temp, job.content, a);
    if !ok { return false; }
    ok := DoClearLegacy(fs, job, windows, a);
  }

  method DoSwap(fs: FileSystem, job: Job, a: Answers) returns (ok: bool)
    requires fs.Valid()
    modifies fs
    ensures fs.Valid()
    ensures var o := Swap(old(fs.disk), job, a);
            fs.passed == old(fs.passed) + o.passed && fs.disk == o.final && ok == o.ok
  {
    hide Abandon, Rename, Remove;
    if !a.stage {
      AbandonTemp(fs, job.temp, a);
      return false;
    }
    fs.DoRename(job.target, job.backup);
    if a.retry {
      fs.DoRename(job.temp, job.target);
      if a.removeBackup {
        fs.DoRemove(job.backup);
      }
      return true;
    }
    if a.restore {
      fs.DoRename(job.backup, job.target);
    }
    AbandonTemp(fs, job.temp, a);
    return false;
  }

  method DoSaveDiskCache(fs: FileSystem, job: Job, a: Answers) returns (ok: bool)
    requires fs.Valid()
    modifies fs
    ensures fs.Valid()
    ensures var o := SaveDiskCache(old(fs.disk), job, a);
            fs.passed == old(fs.passed) + o.passed && fs.disk == o.final && ok == o.ok
  {
    hide WriteTemp, Swap, Abandon, Rename, Remove;
    ok := WriteTempDurable(fs, job.temp, job.content, a);
    if !ok { return false; }
    if a.rename == Renamed {
      fs.DoRename(job.temp, job.target);
      return true;
    }
    var seen := fs.Sees(job.target, a.canTellTarget);
    if !seen {
      AbandonTemp(fs, job.temp, a);
      return false;
    }
    var stale := fs.Sees(job.backup, a.canTellBackup);
    if stale && a.removeStale {
      fs.DoRemove(job.backup);
    }
    ok := DoSwap(fs, job, a);
  }

  method DoWriteAtomicFile(fs: FileSystem, job: Job, windows: bool, a: Answers) returns (ok: bool)
    requires fs.Valid()
    modifies fs
    ensures fs.Valid()
    ensures var o := WriteAtomicFile(old(fs.disk), job, windows, a);
            fs.passed == old(fs.passed) + o.passed && fs.disk == o.final && ok == o.ok
  {
    hide WriteTemp, Swap, Abandon, Rename, Remove;
    if !a.mkdir { return false; }
    ok := WriteTempDurable(fs, job.temp, job.content, a);
    if !ok { return false; }
    var seen := fs.Sees(job.target, a.canTellTarget);
    if windows && seen {
      ok := DoSwap(fs, job, a);
      return ok;
    }
    if a.rename == Renamed {
      fs.DoRename(job.temp, job.target);
      return true;
    }
    AbandonTemp(fs, job.temp, a);
    return false;
  }
}
