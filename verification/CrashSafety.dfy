/**
  What a crash can leave behind at any point of a replacement. Replacements follow each other, and
  not every one of them syncs the directory; so a crash may also bring back an earlier directory.
 */
module CrashSafety {
  import opened Wrappers
  import opened DiskModel
  import opened AtomicReplace

  /** What a crash may bring back: whole contents written so far, backups that may hold one of them, and perhaps no file
      at all, if there was none at first. */
  datatype Past = Past(contents: set<Bytes>, backups: set<Name>, absent: bool)

  /** The file `name` stands for holds exactly `data`, and holds it after a crash. */
  predicate Holds(directory: Directory, files: map<FileId, File>, name: Name, data: Bytes) {
    name in directory && directory[name] in files && files[directory[name]] == File(data, true)
  }

  /** The same for one of these contents. */
  predicate IsWhole(directory: Directory, files: map<FileId, File>, name: Name, contents: set<Bytes>) {
    && name in directory && directory[name] in files
    && files[directory[name]].synced && files[directory[name]].data in contents
  }

  ghost predicate InBackup(directory: Directory, files: map<FileId, File>, past: Past) {
    exists b :: b in past.backups && IsWhole(directory, files, b, past.contents)
  }

  /** With the directory like this, nothing is lost: the target is whole, one of the earlier contents or the new one; or
      there is no target, and an earlier content is whole in a backup or there may be no file yet. */
  ghost predicate SafeDirectory(directory: Directory, files: map<FileId, File>, job: Job, past: Past) {
    if job.target in directory then IsWhole(directory, files, job.target, past.contents + {job.content})
    else past.absent || IsWhole(directory, files, job.backup, past.contents) || InBackup(directory, files, past)
  }

  /** A crash at this disk loses nothing, whichever of its directories reached the medium. */
  ghost predicate CrashSafe(d: Disk, job: Job, past: Past) {
    forall i :: 0 <= i < |d.directories| ==> SafeDirectory(d.directories[i], d.files, job, past)
  }

  ghost predicate AllSafe(o: Outcome, job: Job, past: Past) {
    forall d :: d in o.passed ==> CrashSafe(d, job, past)
  }

  /** Between two replacements: nothing is lost, without a look at the next job. */
  ghost predicate SettledDirectory(directory: Directory, files: map<FileId, File>, target: Name, past: Past) {
    if target in directory then IsWhole(directory, files, target, past.contents)
    else past.absent || InBackup(directory, files, past)
  }

  ghost predicate IsSettled(d: Disk, target: Name, past: Past) {
    IsDisk(d) && forall i :: 0 <= i < |d.directories| ==> SettledDirectory(d.directories[i], d.files, target, past)
  }

  /** What the target holds. */
  function TargetNow(d: Disk, target: Name): Option<Bytes>
    requires IsDisk(d)
  {
    if Exists(d, target) then Some(FileAt(d, target).data) else None
  }

  /** The target holds `now`, for good, or there is none. */
  predicate TargetIs(d: Disk, target: Name, now: Option<Bytes>)
    requires d.directories != []
  {
    if now.Some? then Holds(Current(d), d.files, target, now.value) else !Exists(d, target)
  }

  /** Without a target nothing is lost. */
  ghost predicate HasFallback(d: Disk, past: Past)
    requires d.directories != []
  {
    past.absent || InBackup(Current(d), d.files, past)
  }

  /** The names a job uses are distinct. Its backup may have served before; the other ones may not. */
  predicate DistinctNames(job: Job, past: Past) {
    && job.target != job.temp && job.target != job.backup && job.temp != job.backup
    && job.target !in past.backups && job.temp !in past.backups && job.legacy !in past.backups
  }

  /** The name stands, now or in an unsynced directory, for something that must not be written to. */
  predicate IsPrecious(name: Name, job: Job, past: Past) {
    name == job.target || name == job.backup || name in past.backups
  }

  /** The temporary file is not also one of those under another name. */
  ghost predicate TempIsPrivate(d: Disk, job: Job, past: Past)
    requires d.directories != []
  {
    Exists(d, job.temp) ==> IsPrivate(d, Current(d)[job.temp], job, past)
  }

  ghost predicate IsPrivate(d: Disk, id: FileId, job: Job, past: Past) {
    forall i, name :: 0 <= i < |d.directories| && name in d.directories[i] && IsPrecious(name, job, past)
                      ==> d.directories[i][name] != id
  }

  /** Where a replacement may start. */
  ghost predicate Start(d: Disk, job: Job, past: Past) {
    IsSettled(d, job.target, past) && DistinctNames(job, past) && TempIsPrivate(d, job, past)
  }

  /** Under way: nothing is lost so far, and the target stands as it did at the start. */
  ghost predicate UnderWay(d: Disk, job: Job, past: Past, now: Option<Bytes>) {
    && IsDisk(d) && DistinctNames(job, past) && CrashSafe(d, job, past) && TargetIs(d, job.target, now)
    && (if now.Some? then now.value in past.contents else HasFallback(d, past))
  }

  /** The temporary file is complete and synced, and nothing else has happened. */
  ghost predicate Ready(d: Disk, job: Job, past: Past, now: Option<Bytes>) {
    UnderWay(d, job, past, now) && Holds(Current(d), d.files, job.temp, job.content)
  }

  /** The new content is in the target; on systems that sync the directory it is there for good. */
  predicate InPlace(d: Disk, job: Job, windows: bool)
    requires d.directories != []
  {
    Holds(Current(d), d.files, job.target, job.content) && (!windows ==> d.directories == [Current(d)])
  }

  /** How a replacement may end, when the target held `now` at the start. */
  predicate EndsWell(o: Outcome, job: Job, now: Option<Bytes>, windows: bool, a: Answers)
    requires IsDisk(o.final)
  {
    && (o.ok ==> InPlace(o.final, job, windows))
    && (!o.ok && !Exists(o.final, job.target) && now.Some?
        ==> a.stage && !a.retry && !a.restore && Holds(Current(o.final), o.final.files, job.backup, now.value))
    && (!o.ok && Exists(o.final, job.target)
        ==> Holds(Current(o.final), o.final.files, job.target, job.content) || TargetIs(o.final, job.target, now))
  }

  /** A start is under way. */
  lemma StartIsUnderWay(d: Disk, job: Job, past: Past)
    requires Start(d, job, past)
    ensures UnderWay(d, job, past, TargetNow(d, job.target))
  {
    hide InBackup;
    forall i | 0 <= i < |d.directories| ensures SafeDirectory(d.directories[i], d.files, job, past) {
      assert SettledDirectory(d.directories[i], d.files, job.target, past);
    }
    assert SettledDirectory(Current(d), d.files, job.target, past);
  }

  // ----- Single changes -----

  lemma ChangeIsSafe(d: Disk, directory: Directory, job: Job, past: Past)
    requires CrashSafe(d, job, past) && SafeDirectory(directory, d.files, job, past)
    ensures CrashSafe(Change(d, directory), job, past)
  {
    hide SafeDirectory;
  }

  /** Two directories agree on the backups of earlier calls. */
  lemma BackupsKept(a: Directory, b: Directory, files: map<FileId, File>, past: Past)
    requires forall name :: name in past.backups && name in a ==> name in b && b[name] == a[name]
    ensures InBackup(a, files, past) ==> InBackup(b, files, past)
  {
    if InBackup(a, files, past) {
      var name :| name in past.backups && IsWhole(a, files, name, past.contents);
      assert IsWhole(b, files, name, past.contents);
    }
  }

  /** Changing a file that no precious name ever stood for is safe. */
  lemma PrivateWriteIsSafe(d: Disk, id: FileId, file: File, job: Job, past: Past)
    requires CrashSafe(d, job, past) && IsPrivate(d, id, job, past)
    ensures CrashSafe(d.(files := d.files[id := file]), job, past)
  {
    forall i | 0 <= i < |d.directories| ensures SafeDirectory(d.directories[i], d.files[id := file], job, past) {
      OneDirectoryKept(d, i, id, file, job, past);
    }
  }

  lemma OneDirectoryKept(d: Disk, i: nat, id: FileId, file: File, job: Job, past: Past)
    requires i < |d.directories| && SafeDirectory(d.directories[i], d.files, job, past) && IsPrivate(d, id, job, past)
    ensures SafeDirectory(d.directories[i], d.files[id := file], job, past)
  {
    var directory, files := d.directories[i], d.files[id := file];
    if InBackup(directory, d.files, past) {
      var name :| name in past.backups && IsWhole(directory, d.files, name, past.contents);
      assert IsPrecious(name, job, past);
      assert IsWhole(directory, files, name, past.contents);
    }
    assert IsPrecious(job.target, job, past) && IsPrecious(job.backup, job, past);
  }

  /** Removing another name: a backup only where the target is not missed. */
  lemma RemoveOtherIsSafe(d: Disk, name: Name, job: Job, past: Past)
    requires IsDisk(d) && CrashSafe(d, job, past) && name != job.target
    requires name in past.backups ==> Exists(d, job.target)
    requires name == job.backup ==> Exists(d, job.target) || HasFallback(d, past)
    ensures CrashSafe(Remove(d, name), job, past)
    ensures Exists(Remove(d, name), job.target) == Exists(d, job.target) && Remove(d, name).files == d.files
    ensures Exists(d, job.target) ==> Current(Remove(d, name))[job.target] == Current(d)[job.target]
    ensures HasFallback(d, past) && name !in past.backups ==> HasFallback(Remove(d, name), past)
  {
    hide InBackup;
    if Exists(d, name) {
      if name !in past.backups {
        BackupsKept(Current(d), Current(d) - {name}, d.files, past);
      }
      assert SafeDirectory(Current(d), d.files, job, past);
      ChangeIsSafe(d, Current(d) - {name}, job, past);
    }
  }

  // ----- Writing the temporary file -----

  /** The temporary file is open. */
  ghost predicate Open(d: Disk, job: Job, past: Past, now: Option<Bytes>) {
    UnderWay(d, job, past, now) && TempIsPrivate(d, job, past) && Exists(d, job.temp)
  }

  /** Writing to a private file changes nothing else. */
  lemma PrivateWriteStaysUnderWay(d: Disk, id: FileId, file: File, job: Job, past: Past, now: Option<Bytes>)
    requires UnderWay(d, job, past, now) && IsPrivate(d, id, job, past) && id < d.next
    ensures UnderWay(d.(files := d.files[id := file]), job, past, now)
  {
    hide CrashSafe;
    PrivateWriteIsSafe(d, id, file, job, past);
    var last := |d.directories| - 1;
    if now.Some? {
      assert IsPrecious(job.target, job, past);
    } else if InBackup(Current(d), d.files, past) {
      var name :| name in past.backups && IsWhole(Current(d), d.files, name, past.contents);
      assert IsPrecious(name, job, past) && name in d.directories[last];
      assert IsWhole(Current(d), d.files[id := file], name, past.contents);
    }
  }

  lemma CreateIsSafe(d: Disk, job: Job, past: Past, now: Option<Bytes>)
    requires UnderWay(d, job, past, now) && TempIsPrivate(d, job, past)
    ensures Open(CreateTruncated(d, job.temp), job, past, now)
  {
    if Exists(d, job.temp) {
      hide CrashSafe, HasFallback;
      PrivateWriteStaysUnderWay(d, Current(d)[job.temp], File([], false), job, past, now);
    } else {
      NewFileIsSafe(d, job, past, now);
    }
  }

  lemma NewFileIsSafe(d: Disk, job: Job, past: Past, now: Option<Bytes>)
    requires UnderWay(d, job, past, now) && !Exists(d, job.temp)
    ensures Open(CreateTruncated(d, job.temp), job, past, now)
  {
    hide InBackup;
    var d' := CreateTruncated(d, job.temp);
    var written := d.(files := d'.files);
    assert IsPrivate(d, d.next, job, past);
    PrivateWriteIsSafe(d, d.next, File([], false), job, past);
    NewFileKeepsBackups(d, job, past);
    BackupsKept(Current(d), Current(d'), d'.files, past);
    assert SafeDirectory(written.directories[|d.directories| - 1], d'.files, job, past);
    ChangeIsSafe(written, Current(d'), job, past);
  }

  lemma NewFileKeepsBackups(d: Disk, job: Job, past: Past)
    requires IsDisk(d) && DistinctNames(job, past)
    ensures InBackup(Current(d), d.files, past)
            ==> InBackup(Current(d), d.files[d.next := File([], false)], past)
  {
    if InBackup(Current(d), d.files, past) {
      var name :| name in past.backups && IsWhole(Current(d), d.files, name, past.contents);
      assert name in d.directories[|d.directories| - 1];
      assert IsWhole(Current(d), d.files[d.next := File([], false)], name, past.contents);
    }
  }

  lemma WriteIsSafe(d: Disk, data: Bytes, job: Job, past: Past, now: Option<Bytes>)
    requires Open(d, job, past, now)
    ensures Open(Write(d, job.temp, data), job, past, now) && FileAt(Write(d, job.temp, data), job.temp).data == data
  {
    hide CrashSafe, HasFallback;
    PrivateWriteStaysUnderWay(d, Current(d)[job.temp], File(data, false), job, past, now);
  }

  lemma SyncIsSafe(d: Disk, job: Job, past: Past, now: Option<Bytes>)
    requires Open(d, job, past, now) && FileAt(d, job.temp).data == job.content
    ensures Ready(SyncFile(d, job.temp), job, past, now)
  {
    hide CrashSafe, HasFallback;
    PrivateWriteStaysUnderWay(d, Current(d)[job.temp], File(job.content, true), job, past, now);
  }

  lemma WriteTempIsSafe(d: Disk, job: Job, past: Past, now: Option<Bytes>, a: Answers)
    requires UnderWay(d, job, past, now) && TempIsPrivate(d, job, past)
    ensures AllSafe(WriteTemp(d, job.temp, job.content, a), job, past)
    ensures var o := WriteTemp(d, job.temp, job.content, a);
            UnderWay(o.final, job, past, now) && (o.ok ==> Ready(o.final, job, past, now))
  {
    hide CrashSafe, TargetIs, TempIsPrivate, DistinctNames, HasFallback;
    if a.open {
      CreateIsSafe(d, job, past, now);
      var created := CreateTruncated(d, job.temp);
      var part := if a.written < |job.content| then job.content[..a.written] else job.content;
      WriteIsSafe(created, part, job, past, now);
      WriteIsSafe(created, job.content, job, past, now);
      SyncIsSafe(Write(created, job.temp, job.content), job, past, now);
    }
  }

  // ----- The stages after it -----

  lemma AbandonIsSafe(d: Disk, job: Job, past: Past, a: Answers)
    requires IsDisk(d) && DistinctNames(job, past) && CrashSafe(d, job, past)
    ensures AllSafe(Abandon(d, job.temp, a), job, past)
    ensures var final := Abandon(d, job.temp, a).final;
            && final.files == d.files
            && Exists(final, job.target) == Exists(d, job.target)
            && (Exists(d, job.target) ==> Current(final)[job.target] == Current(d)[job.target])
            && Exists(final, job.backup) == Exists(d, job.backup)
            && (Exists(d, job.backup) ==> Current(final)[job.backup] == Current(d)[job.backup])
  {
    hide CrashSafe, HasFallback;
    RemoveOtherIsSafe(d, job.temp, job, past);
  }

  lemma FinalizeIsSafe(d: Disk, job: Job, past: Past, now: Option<Bytes>, windows: bool, a: Answers)
    requires IsDisk(d) && CrashSafe(d, job, past) && Holds(Current(d), d.files, job.target, job.content)
    ensures AllSafe(Finalize(d, job.target, windows, a), job, past)
    ensures EndsWell(Finalize(d, job.target, windows, a), job, now, windows, a)
  {
    hide SafeDirectory;
    assert SyncFile(d, job.target) == d;
  }

  /** The old content is in the backup and the new one still under its temporary name. */
  ghost predicate Staged(d: Disk, job: Job, past: Past, now: Option<Bytes>) {
    && IsDisk(d) && DistinctNames(job, past) && CrashSafe(d, job, past) && now.Some? && now.value in past.contents
    && !Exists(d, job.target)
    && Holds(Current(d), d.files, job.backup, now.value)
    && Holds(Current(d), d.files, job.temp, job.content)
  }

  lemma StagedIsSafe(d: Disk, job: Job, past: Past, now: Option<Bytes>)
    requires Ready(d, job, past, now) && now.Some?
    ensures Staged(Rename(d, job.target, job.backup), job, past, now)
  {
    hide InBackup;
    ChangeIsSafe(d, Current(Rename(d, job.target, job.backup)), job, past);
  }

  lemma RestoredIsSafe(d: Disk, job: Job, past: Past, now: Option<Bytes>)
    requires Staged(d, job, past, now)
    ensures var d' := Rename(d, job.backup, job.target);
            IsDisk(d') && CrashSafe(d', job, past) && TargetIs(d', job.target, now)
  {
    hide InBackup;
    ChangeIsSafe(d, Current(Rename(d, job.backup, job.target)), job, past);
  }

  /** The new content has been renamed into place, and the backup of the old one may go. */
  lemma PlacedIsSafe(d: Disk, job: Job, past: Past)
    requires IsDisk(d) && DistinctNames(job, past) && CrashSafe(d, job, past)
    requires Holds(Current(d), d.files, job.temp, job.content)
    ensures var placed := Rename(d, job.temp, job.target);
            && CrashSafe(placed, job, past) && InPlace(placed, job, true)
            && CrashSafe(Remove(placed, job.backup), job, past) && InPlace(Remove(placed, job.backup), job, true)
  {
    hide InBackup, HasFallback;
    var placed := Rename(d, job.temp, job.target);
    ChangeIsSafe(d, Current(placed), job, past);
    RemoveOtherIsSafe(placed, job.backup, job, past);
  }

  /** From a complete temporary file on, staging the target aside and retrying is safe. */
  lemma StageAndRetryIsSafe(d: Disk, job: Job, past: Past, now: Option<Bytes>, windows: bool, a: Answers)
    requires Ready(d, job, past, now) && now.Some?
    ensures AllSafe(StageAndRetry(d, job, windows, a), job, past)
    ensures EndsWell(StageAndRetry(d, job, windows, a), job, now, windows, a)
  {
    hide CrashSafe, HasFallback;
    if !a.stage {
      AbandonIsSafe(d, job, past, a);
    } else {
      StagedIsSafe(d, job, past, now);
      RetryIsSafe(d, job, past, now, windows, a);
    }
  }

  lemma RetryIsSafe(d: Disk, job: Job, past: Past, now: Option<Bytes>, windows: bool, a: Answers)
    requires a.stage && Ready(d, job, past, now) && Staged(Rename(d, job.target, job.backup), job, past, now)
    ensures AllSafe(StageAndRetry(d, job, windows, a), job, past)
    ensures EndsWell(StageAndRetry(d, job, windows, a), job, now, windows, a)
  {
    hide CrashSafe, HasFallback, Finalize, Abandon;
    var staged := Rename(d, job.target, job.backup);
    if a.retry {
      PlacedIsSafe(staged, job, past);
      var placed := Rename(staged, job.temp, job.target);
      FinalizeIsSafe(placed, job, past, now, windows, a);
      FinalizeIsSafe(Remove(placed, job.backup), job, past, now, windows, a);
    } else if a.restore {
      RestoredIsSafe(staged, job, past, now);
      AbandonIsSafe(Rename(staged, job.backup, job.target), job, past, a);
    }
  }

  lemma ReplaceWithBackupIsSafe(d: Disk, job: Job, past: Past, now: Option<Bytes>, windows: bool, a: Answers)
    requires Ready(d, job, past, now) && now.Some?
    ensures AllSafe(ReplaceWithBackup(d, job, windows, a), job, past)
    ensures EndsWell(ReplaceWithBackup(d, job, windows, a), job, now, windows, a)
  {
    hide StageAndRetry, CrashSafe, HasFallback;
    AbandonIsSafe(d, job, past, a);
    StageAndRetryIsSafe(d, job, past, now, windows, a);
    RemoveKeepsReady(d, job.backup, job, past, now);
    StageAndRetryIsSafe(Remove(d, job.backup), job, past, now, windows, a);
  }

  lemma RemoveKeepsReady(d: Disk, name: Name, job: Job, past: Past, now: Option<Bytes>)
    requires Ready(d, job, past, now) && name != job.target && name != job.temp
    requires name in past.backups ==> now.Some?
    ensures Ready(Remove(d, name), job, past, now)
  {
    hide CrashSafe, HasFallback;
    RemoveOtherIsSafe(d, name, job, past);
  }

  lemma RenameIntoPlaceIsSafe(d: Disk, job: Job, past: Past, now: Option<Bytes>, windows: bool, a: Answers)
    requires Ready(d, job, past, now)
    ensures AllSafe(RenameIntoPlace(d, job, windows, a), job, past)
    ensures EndsWell(RenameIntoPlace(d, job, windows, a), job, now, windows, a)
  {
    hide ReplaceWithBackup, CrashSafe, HasFallback, Finalize;
    AbandonIsSafe(d, job, past, a);
    PlacedIsSafe(d, job, past);
    FinalizeIsSafe(Rename(d, job.temp, job.target), job, past, now, windows, a);
    if now.Some? {
      ReplaceWithBackupIsSafe(d, job, past, now, windows, a);
    }
  }

  lemma ClearLegacyIsSafe(d: Disk, job: Job, past: Past, now: Option<Bytes>, windows: bool, a: Answers)
    requires Ready(d, job, past, now) && job.legacy != job.target && job.legacy != job.temp
    ensures AllSafe(ClearLegacy(d, job, windows, a), job, past)
    ensures EndsWell(ClearLegacy(d, job, windows, a), job, now, windows, a)
  {
    hide RenameIntoPlace, CrashSafe, HasFallback;
    RenameIntoPlaceIsSafe(d, job, past, now, windows, a);
    RemoveKeepsReady(d, job.legacy, job, past, now);
    RenameIntoPlaceIsSafe(Remove(d, job.legacy), job, past, now, windows, a);
  }

  lemma SwapIsSafe(d: Disk, job: Job, past: Past, now: Option<Bytes>, a: Answers)
    requires Ready(d, job, past, now) && now.Some?
    ensures AllSafe(Swap(d, job, a), job, past)
    ensures EndsWell(Swap(d, job, a), job, now, true, a)
  {
    hide CrashSafe, HasFallback;
    if !a.stage {
      AbandonIsSafe(d, job, past, a);
    } else {
      StagedIsSafe(d, job, past, now);
      SwapStagedIsSafe(d, job, past, now, a);
    }
  }

  lemma SwapStagedIsSafe(d: Disk, job: Job, past: Past, now: Option<Bytes>, a: Answers)
    requires a.stage && Ready(d, job, past, now) && Staged(Rename(d, job.target, job.backup), job, past, now)
    ensures AllSafe(Swap(d, job, a), job, past)
    ensures EndsWell(Swap(d, job, a), job, now, true, a)
  {
    hide CrashSafe, HasFallback, Abandon;
    var staged := Rename(d, job.target, job.backup);
    if a.retry {
      PlacedIsSafe(staged, job, past);
    } else if a.restore {
      RestoredIsSafe(staged, job, past, now);
      AbandonIsSafe(Rename(staged, job.backup, job.target), job, past, a);
    } else {
      AbandonIsSafe(staged, job, past, a);
    }
  }

  lemma RenameOrSwapIsSafe(d: Disk, job: Job, past: Past, now: Option<Bytes>, a: Answers)
    requires Ready(d, job, past, now)
    ensures AllSafe(RenameOrSwap(d, job, a), job, past)
    ensures EndsWell(RenameOrSwap(d, job, a), job, now, true, a)
  {
    hide Swap, CrashSafe, HasFallback;
    PlacedIsSafe(d, job, past);
    AbandonIsSafe(d, job, past, a);
    if now.Some? {
      SwapIsSafe(d, job, past, now, a);
      RemoveKeepsReady(d, job.backup, job, past, now);
      SwapIsSafe(Remove(d, job.backup), job, past, now, a);
    }
  }

  lemma SwapOrRenameIsSafe(d: Disk, job: Job, past: Past, now: Option<Bytes>, windows: bool, a: Answers)
    requires Ready(d, job, past, now)
    ensures AllSafe(SwapOrRename(d, job, windows, a), job, past)
    ensures EndsWell(SwapOrRename(d, job, windows, a), job, now, true, a)
  {
    hide Swap, CrashSafe, HasFallback;
    PlacedIsSafe(d, job, past);
    AbandonIsSafe(d, job, past, a);
    if now.Some? {
      SwapIsSafe(d, job, past, now, a);
    }
  }

  // ----- The whole call -----

  /** `durable_replace`: at every disk passed, whatever the operating system answers, nothing is lost; `Ok` means the
      new content is in place, on systems that sync the directory for good; a target that was there is missing only when
      the rename that should have restored it failed, and then the backup has what it held. */
  lemma DurableReplaceIsSafe(d: Disk, job: Job, past: Past, windows: bool, a: Answers)
    requires Start(d, job, past) && job.legacy != job.target && job.legacy != job.temp
    ensures AllSafe(DurableReplace(d, job, windows, a), job, past)
    ensures EndsWell(DurableReplace(d, job, windows, a), job, TargetNow(d, job.target), windows, a)
  {
    hide WriteTemp, ClearLegacy, CrashSafe, TempIsPrivate, HasFallback;
    var now := TargetNow(d, job.target);
    StartIsUnderWay(d, job, past);
    WriteTempIsSafe(d, job, past, now, a);
    var written := WriteTemp(d, job.temp, job.content, a);
    if written.ok {
      ClearLegacyIsSafe(written.final, job, past, now, windows, a);
    }
  }

  /** `save_disk_cache`, which does not sync the directory. */
  lemma SaveDiskCacheIsSafe(d: Disk, job: Job, past: Past, a: Answers)
    requires Start(d, job, past)
    ensures AllSafe(SaveDiskCache(d, job, a), job, past)
    ensures EndsWell(SaveDiskCache(d, job, a), job, TargetNow(d, job.target), true, a)
  {
    hide WriteTemp, RenameOrSwap, CrashSafe, TempIsPrivate, HasFallback;
    var now := TargetNow(d, job.target);
    StartIsUnderWay(d, job, past);
    WriteTempIsSafe(d, job, past, now, a);
    var written := WriteTemp(d, job.temp, job.content, a);
    if written.ok {
      RenameOrSwapIsSafe(written.final, job, past, now, a);
    }
  }

  /** `write_atomic_file`, on every system. */
  lemma WriteAtomicFileIsSafe(d: Disk, job: Job, past: Past, windows: bool, a: Answers)
    requires Start(d, job, past)
    ensures AllSafe(WriteAtomicFile(d, job, windows, a), job, past)
    ensures EndsWell(WriteAtomicFile(d, job, windows, a), job, TargetNow(d, job.target), true, a)
  {
    hide WriteTemp, SwapOrRename, CrashSafe, TempIsPrivate, HasFallback;
    var now := TargetNow(d, job.target);
    StartIsUnderWay(d, job, past);
    WriteTempIsSafe(d, job, past, now, a);
    var written := WriteTemp(d, job.temp, job.content, a);
    if written.ok {
      SwapOrRenameIsSafe(written.final, job, past, now, windows, a);
    }
  }

  // ----- What a crash leaves -----

  /** A crash leaves one of the directories; of the files only the synced ones are known. */
  ghost predicate CrashOutcome(d: Disk, image: map<Name, Bytes>) {
    exists i :: 0 <= i < |d.directories| && Leaves(d.directories[i], d.files, image)
  }

  predicate Leaves(directory: Directory, files: map<FileId, File>, image: map<Name, Bytes>) {
    && image.Keys == directory.Keys
    && (forall name :: name in directory && directory[name] in files && files[directory[name]].synced
          ==> image[name] == files[directory[name]].data)
  }

  /** The target has the new content or an earlier one, whole; or there is none, and a backup has an earlier one, unless
      there may be no file yet. */
  ghost predicate NothingLost(image: map<Name, Bytes>, job: Job, past: Past) {
    if job.target in image then image[job.target] in past.contents + {job.content}
    else past.absent || exists b :: b in past.backups + {job.backup} && b in image && image[b] in past.contents
  }

  lemma SafeMeansNothingLost(d: Disk, job: Job, past: Past, image: map<Name, Bytes>)
    requires CrashSafe(d, job, past) && CrashOutcome(d, image)
    ensures NothingLost(image, job, past)
  {
    var i :| 0 <= i < |d.directories| && Leaves(d.directories[i], d.files, image);
    assert SafeDirectory(d.directories[i], d.files, job, past);
    if InBackup(d.directories[i], d.files, past) {
      var b :| b in past.backups && IsWhole(d.directories[i], d.files, b, past.contents);
      assert b in past.backups + {job.backup};
    } else {
      assert job.backup in past.backups + {job.backup};
    }
  }

  /** Whatever a crash during `durable_replace` leaves, nothing is lost. */
  lemma DurableReplaceSurvivesCrashes(d: Disk, job: Job, past: Past, windows: bool, a: Answers,
                                      x: Disk, image: map<Name, Bytes>)
    requires Start(d, job, past) && job.legacy != job.target && job.legacy != job.temp
    requires x in DurableReplace(d, job, windows, a).passed && CrashOutcome(x, image)
    ensures NothingLost(image, job, past)
    ensures x == DurableReplace(d, job, windows, a).final && DurableReplace(d, job, windows, a).ok && !windows
            ==> job.target in image && image[job.target] == job.content
  {
    hide DurableReplace, CrashSafe, NothingLost;
    DurableReplaceIsSafe(d, job, past, windows, a);
    SafeMeansNothingLost(x, job, past, image);
  }

  // ----- A target that is its own legacy backup -----

  const ALL_WELL := Answers(true, true, true, 0, true, true, true, Renamed, true, true, true, true, true, true, true,
                            true, true, true)

  lemma RemovedTargetIsUnsafe(d: Disk, job: Job, past: Past)
    requires IsDisk(d) && Exists(d, job.target) && !Exists(d, job.backup) && !HasFallback(d, past)
    ensures !CrashSafe(Remove(d, job.target), job, past)
  {
    var removed := Remove(d, job.target);
    var last := |removed.directories| - 1;
    BackupsKept(Current(removed), Current(d), d.files, past);
    assert !SafeDirectory(removed.directories[last], removed.files, job, past);
  }

  /** What matters of the names but the temporary one is the same on both disks. */
  ghost predicate SameButTemp(d: Disk, d': Disk, job: Job, past: Past)
    requires IsDisk(d) && IsDisk(d')
  {
    && Exists(d, job.target) == Exists(d', job.target)
    && Exists(d, job.backup) == Exists(d', job.backup)
    && (HasFallback(d', past) ==> HasFallback(d, past))
  }

  lemma TempWriteTouchesNothingElse(d: Disk, job: Job, past: Past)
    requires Start(d, job, past)
    ensures var o := WriteTemp(d, job.temp, job.content, ALL_WELL);
            o.ok && SameButTemp(d, o.final, job, past)
  {
    var final := WriteTemp(d, job.temp, job.content, ALL_WELL).final;
    if InBackup(Current(final), final.files, past) {
      var b :| b in past.backups && IsWhole(Current(final), final.files, b, past.contents);
      assert IsPrecious(b, job, past) && b in d.directories[|d.directories| - 1];
      assert IsWhole(Current(d), d.files, b, past.contents);
    }
  }

  /** For such a target even a call in which every answer is good passes a disk at which a crash loses the file. */
  lemma LegacyRemovalLosesTarget(d: Disk, job: Job, past: Past)
    requires Start(d, job, past) && job.legacy == job.target
    requires Exists(d, job.target) && !Exists(d, job.backup) && !HasFallback(d, past)
    ensures !AllSafe(DurableReplace(d, job, false, ALL_WELL), job, past)
  {
    hide WriteTemp, RenameIntoPlace, CrashSafe, TempIsPrivate, HasFallback;
    TempWriteTouchesNothingElse(d, job, past);
    var written := WriteTemp(d, job.temp, job.content, ALL_WELL).final;
    RemovedTargetIsUnsafe(written, job, past);
    var removed := Remove(written, job.target);
    var cleared := ClearLegacy(written, job, false, ALL_WELL);
    assert IsOutcome(RenameIntoPlace(removed, job, false, ALL_WELL), removed);
    assert removed in cleared.passed;
    assert removed in DurableReplace(d, job, false, ALL_WELL).passed;
  }

  /** Over an existing target of which there is no backup yet: safe whatever the answers, if and only if the legacy
      backup has another name. */
  lemma SafeExactlyWhenLegacyIsAnotherFile(d: Disk, job: Job, past: Past)
    requires Start(d, job, past) && job.legacy != job.temp
    requires Exists(d, job.target) && !Exists(d, job.backup) && !HasFallback(d, past)
    ensures (forall windows, a :: AllSafe(DurableReplace(d, job, windows, a), job, past)) <==> job.legacy != job.target
  {
    hide DurableReplace, AllSafe, TempIsPrivate, HasFallback;
    if job.legacy == job.target {
      LegacyRemovalLosesTarget(d, job, past);
    } else {
      forall windows, a ensures AllSafe(DurableReplace(d, job, windows, a), job, past) {
        DurableReplaceIsSafe(d, job, past, windows, a);
      }
    }
  }
}
