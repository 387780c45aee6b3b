/**
  Any number of replacements of the same file, by any of the three writers, one after the other.
 */
module CrashRuns {
  import opened DiskModel
  import opened AtomicReplace
  import opened CrashSafety
  import opened CrashFrame

  datatype Writer = Durable(windows: bool) | Cache | Atomic(windows: bool)

  /** One call: who writes what, and how the operating system answers. */
  datatype Call = Call(writer: Writer, job: Job, answers: Answers)

  function Perform(d: Disk, c: Call): (o: Outcome)
    requires IsDisk(d)
    ensures IsOutcome(o, d)
  {
    match c.writer
    case Durable(windows) => DurableReplace(d, c.job, windows, c.answers)
    case Cache => SaveDiskCache(d, c.job, c.answers)
    case Atomic(windows) => WriteAtomicFile(d, c.job, windows, c.answers)
  }

  /** The names a call may change; only `durable_replace` touches the legacy backup. */
  function Names(c: Call): set<Name> {
    {c.job.target, c.job.temp, c.job.backup} + if c.writer.Durable? then {c.job.legacy} else {}
  }

  lemma PerformIsAround(d: Disk, c: Call, temps: set<Name>)
    requires IsDisk(d) && Private(d, temps) && NamesFit(c.job, Names(c), temps)
    ensures AllAround(d, Perform(d, c), Names(c), c.job.temp, temps)
  {
    hide AllAround, Private, DurableReplace, SaveDiskCache, WriteAtomicFile;
    match c.writer {
      case Durable(windows) => DurableReplaceIsAround(d, c.job, Names(c), temps, windows, c.answers);
      case Cache => SaveDiskCacheIsAround(d, c.job, Names(c), temps, c.answers);
      case Atomic(windows) => WriteAtomicFileIsAround(d, c.job, Names(c), temps, windows, c.answers);
    }
  }

  // ----- What one call leaves alone -----

  /** But for these names, a crash with this directory on the medium may leave the image. */
  ghost predicate LeavesOutside(directory: Directory, files: map<FileId, File>, image: map<Name, Bytes>,
                                names: set<Name>) {
    && (forall name :: name !in names ==> (name in image <==> name in directory))
    && (forall name :: name !in names && name in directory && directory[name] in files && files[directory[name]].synced
          ==> image[name] == files[directory[name]].data)
  }

  /** Seen from any other name, a crash during a call leaves what a crash before the call could have left. */
  lemma CallTouchesOnlyItsNames(d: Disk, c: Call, x: Disk, image: map<Name, Bytes>)
    requires IsDisk(d) && Private(d, {c.job.temp}) && c.job.temp != c.job.target && c.job.temp != c.job.backup
    requires x in Perform(d, c).passed
    ensures forall name :: name !in Names(c) && Exists(x, name) ==> Exists(d, name)
    ensures forall name :: name !in Names(c) && Exists(d, name)
                           ==> Exists(x, name) && FileAt(x, name).data == FileAt(d, name).data
    ensures CrashOutcome(x, image)
            ==> exists directory :: directory in d.directories && LeavesOutside(directory, d.files, image, Names(c))
  {
    hide Perform, Private, LeavesOutside, CrashOutcome;
    PerformIsAround(d, c, {c.job.temp});
    OtherNamesKept(d, c, x);
    if CrashOutcome(x, image) {
      CrashLeavesOthers(d, c, x, image);
    }
  }

  /** Another name never stands for the temporary file. */
  lemma OtherNameIsOther(d: Disk, temp: Name, directory: Directory, name: Name)
    requires IsDisk(d) && Private(d, {temp}) && directory in d.directories && name in directory && name != temp
    ensures IsOther(d, temp, directory[name])
  {
    var i :| 0 <= i < |d.directories| && d.directories[i] == directory;
    assert StandsAlone(Current(d), d.directories[i], temp, name);
  }

  lemma OtherNamesKept(d: Disk, c: Call, x: Disk)
    requires IsDisk(d) && Private(d, {c.job.temp}) && Kept(d, x, Names(c), c.job.temp)
    ensures forall name :: name !in Names(c) && Exists(x, name) ==> Exists(d, name)
    ensures forall name :: name !in Names(c) && Exists(d, name)
                           ==> Exists(x, name) && FileAt(x, name).data == FileAt(d, name).data
  {
    hide Private, DirectoriesKept, IsOther;
    forall name | name !in Names(c) && Exists(d, name)
      ensures Exists(x, name) && FileAt(x, name).data == FileAt(d, name).data
    {
      OtherNameIsOther(d, c.job.temp, Current(d), name);
      assert FileKept(d.files, x.files, Current(d)[name]);
    }
  }

  lemma CrashLeavesOthers(d: Disk, c: Call, x: Disk, image: map<Name, Bytes>)
    requires IsDisk(d) && Private(d, {c.job.temp}) && Kept(d, x, Names(c), c.job.temp) && CrashOutcome(x, image)
    ensures exists directory :: directory in d.directories && LeavesOutside(directory, d.files, image, Names(c))
  {
    hide Private, IsOther, FilesKept;
    var i :| 0 <= i < |x.directories| && Leaves(x.directories[i], x.files, image);
    var directory := if x.directories[i] in d.directories then x.directories[i] else Current(d);
    assert directory in d.directories && SameOutside(x.directories[i], directory, Names(c));
    LeavesTheSame(d, c, x, x.directories[i], directory, image);
  }

  lemma LeavesTheSame(d: Disk, c: Call, x: Disk, left: Directory, directory: Directory, image: map<Name, Bytes>)
    requires IsDisk(d) && Private(d, {c.job.temp}) && FilesKept(d, x, c.job.temp) && Leaves(left, x.files, image)
    requires directory in d.directories && SameOutside(left, directory, Names(c))
    ensures LeavesOutside(directory, d.files, image, Names(c))
  {
    hide Private, IsOther;
    forall name | name !in Names(c) && name in directory && directory[name] in d.files
                  && d.files[directory[name]].synced
      ensures image[name] == d.files[directory[name]].data
    {
      OtherNameIsOther(d, c.job.temp, directory, name);
      assert FileKept(d.files, x.files, directory[name]);
    }
  }

  /** A successful `durable_replace` has deleted the `.bak` sibling it saw. */
  lemma LegacyIsDeleted(d: Disk, job: Job, windows: bool, a: Answers)
    requires IsDisk(d) && Private(d, {job.temp}) && job.temp != job.target && job.temp != job.backup
    requires job.legacy !in {job.target, job.temp, job.backup} && a.canTellLegacy
    ensures DurableReplace(d, job, windows, a).ok ==> !Exists(DurableReplace(d, job, windows, a).final, job.legacy)
  {
    hide WriteTemp, RenameIntoPlace, Around, Private;
    var names := {job.target, job.temp, job.backup};
    StartIsAround(d, names, job.temp, {job.temp});
    WriteTempIsAround(d, d, job, names, {job.temp}, a);
    var written := WriteTemp(d, job.temp, job.content, a).final;
    var cleared := if Exists(written, job.legacy) then Remove(written, job.legacy) else written;
    ClearedStays(d, written, cleared, job, names, windows, a);
  }

  lemma ClearedStays(d: Disk, written: Disk, cleared: Disk, job: Job, names: set<Name>, windows: bool, a: Answers)
    requires IsDisk(written) && Around(d, written, names, job.temp, {job.temp}) && NamesFit(job, names, {job.temp})
    requires cleared == Remove(written, job.legacy) && job.legacy !in names
    ensures IsDisk(cleared) && !Exists(RenameIntoPlace(cleared, job, windows, a).final, job.legacy)
  {
    hide RenameIntoPlace, NamesFit;
    if Exists(written, job.legacy) {
      RemoveIsPrivate(written, job.legacy, {job.temp});
    }
    StartIsAround(cleared, names, job.temp, {job.temp});
    RenameIntoPlaceIsAround(cleared, cleared, job, names, {job.temp}, windows, a);
    assert Around(cleared, RenameIntoPlace(cleared, job, windows, a).final, names, job.temp, {job.temp});
  }

  // ----- Any number of calls -----

  /** What a crash may bring back after the call: once the directory was synced, nothing but the new content. */
  function After(past: Past, c: Call, ok: bool): Past {
    if c.writer == Durable(false) && ok then Past({c.job.content}, {}, false)
    else Past(past.contents + {c.job.content}, past.backups + {c.job.backup}, past.absent)
  }

  /** The disk before the call `k`. */
  function DiskAt(d: Disk, calls: seq<Call>, k: nat): (r: Disk)
    requires IsDisk(d) && k <= |calls|
    ensures IsDisk(r)
  {
    if k == 0 then d else Perform(DiskAt(d, calls, k - 1), calls[k - 1]).final
  }

  function PastAt(d: Disk, calls: seq<Call>, past: Past, k: nat): Past
    requires IsDisk(d) && k <= |calls|
  {
    if k == 0 then past
    else After(PastAt(d, calls, past, k - 1), calls[k - 1], Perform(DiskAt(d, calls, k - 1), calls[k - 1]).ok)
  }

  function Temps(calls: seq<Call>): set<Name> {
    set c | c in calls :: c.job.temp
  }

  function Backups(calls: seq<Call>): set<Name> {
    set c | c in calls :: c.job.backup
  }

  /** All calls write to the same target, and the names they use are used for nothing else. Temporary and backup names
      may be made up for each call, as two of the writers do, or be the same ones every time, as for the icon cache. */
  ghost predicate NamesAreApart(calls: seq<Call>, target: Name, past: Past) {
    var temps, backups := Temps(calls), past.backups + Backups(calls);
    && temps !! backups && target !in temps && target !in backups
    && (forall c :: c in calls ==> c.job.target == target && c.job.legacy !in backups)
    && (forall c :: c in calls && c.writer.Durable? ==> c.job.legacy != target && c.job.legacy != c.job.temp)
  }

  /** Before a call: nothing is lost, and leftover temporary files are only that. */
  ghost predicate Between(d: Disk, target: Name, past: Past, temps: set<Name>) {
    IsSettled(d, target, past) && Private(d, temps)
  }

  /** A run may start with a whole file and nothing else, or with no file at all. */
  lemma RunMayStart(target: Name, data: Bytes, temps: set<Name>)
    requires target !in temps
    ensures var d := Disk([map[target := 0]], map[0 := File(data, true)], 1);
            IsDisk(d) && Between(d, target, Past({data}, {}, false), temps)
    ensures var d := Disk([map[]], map[], 0);
            IsDisk(d) && Between(d, target, Past({}, {}, true), temps)
  {
    var d := Disk([map[target := 0]], map[0 := File(data, true)], 1);
    assert Current(d) == d.directories[0];
  }

  /** And two calls may use the same names one after the other, as the icon cache does. */
  lemma NamesMayBeReused(target: Name, temp: Name, backup: Name, legacy: Name, first: Call, second: Call)
    requires target != temp && target != backup && temp != backup && legacy !in {target, temp, backup}
    requires first.job == Job(target, temp, backup, legacy, first.job.content)
    requires second.job == Job(target, temp, backup, legacy, second.job.content)
    ensures NamesAreApart([first, second], target, Past({}, {}, true))
  {
    assert Temps([first, second]) == {temp} && Backups([first, second]) == {backup};
  }

  lemma CallMayStart(d: Disk, job: Job, past: Past, temps: set<Name>)
    requires Between(d, job.target, past, temps) && DistinctNames(job, past) && job.temp in temps
    ensures Start(d, job, past)
  {
    hide SettledDirectory;
    if Exists(d, job.temp) {
      forall i, name | 0 <= i < |d.directories| && name in d.directories[i] && IsPrecious(name, job, past)
        ensures d.directories[i][name] != Current(d)[job.temp]
      {
        assert StandsAlone(Current(d), d.directories[i], job.temp, name);
      }
    }
  }

  lemma SafeIsSettled(d: Disk, job: Job, past: Past)
    requires IsDisk(d) && CrashSafe(d, job, past)
    ensures IsSettled(d, job.target, Past(past.contents + {job.content}, past.backups + {job.backup}, past.absent))
  {
    var after := Past(past.contents + {job.content}, past.backups + {job.backup}, past.absent);
    forall i | 0 <= i < |d.directories| ensures SettledDirectory(d.directories[i], d.files, job.target, after) {
      SafeDirectoryIsSettled(d.directories[i], d.files, job, past, after);
    }
  }

  lemma SafeDirectoryIsSettled(directory: Directory, files: map<FileId, File>, job: Job, past: Past, after: Past)
    requires SafeDirectory(directory, files, job, past)
    requires after == Past(past.contents + {job.content}, past.backups + {job.backup}, past.absent)
    ensures SettledDirectory(directory, files, job.target, after)
  {
    if job.target !in directory && !past.absent {
      if InBackup(directory, files, past) {
        var b :| b in past.backups && IsWhole(directory, files, b, past.contents);
        assert b in after.backups && IsWhole(directory, files, b, after.contents);
      } else {
        assert job.backup in after.backups && IsWhole(directory, files, job.backup, after.contents);
      }
    }
  }

  /** A call that may start is safe throughout. */
  lemma CallIsSafe(d: Disk, c: Call, past: Past)
    requires Start(d, c.job, past)
    requires c.writer.Durable? ==> c.job.legacy != c.job.target && c.job.legacy != c.job.temp
    ensures AllSafe(Perform(d, c), c.job, past)
    ensures c.writer == Durable(false) && Perform(d, c).ok ==> InPlace(Perform(d, c).final, c.job, false)
  {
    hide Start, AllSafe, DurableReplace, SaveDiskCache, WriteAtomicFile, TargetIs, InPlace;
    match c.writer {
      case Durable(windows) => DurableReplaceIsSafe(d, c.job, past, windows, c.answers);
      case Cache => SaveDiskCacheIsSafe(d, c.job, past, c.answers);
      case Atomic(windows) => WriteAtomicFileIsSafe(d, c.job, past, windows, c.answers);
    }
  }

  /** After it the next one may start. */
  lemma CallSettles(d: Disk, c: Call, past: Past, temps: set<Name>)
    requires IsDisk(d) && Between(d, c.job.target, past, temps)
    requires DistinctNames(c.job, past) && NamesFit(c.job, Names(c), temps)
    requires c.writer.Durable? ==> c.job.legacy != c.job.target && c.job.legacy != c.job.temp
    ensures Start(d, c.job, past) && AllSafe(Perform(d, c), c.job, past)
    ensures Between(Perform(d, c).final, c.job.target, After(past, c, Perform(d, c).ok), temps)
  {
    hide Start, Perform, CrashSafe, Kept, IsSettled, Private, DistinctNames, Names;
    CallMayStart(d, c.job, past, temps);
    CallIsSafe(d, c, past);
    PerformIsAround(d, c, temps);
    var o := Perform(d, c);
    assert Around(d, o.final, Names(c), c.job.temp, temps);
    SafeIsSettled(o.final, c.job, past);
    if c.writer == Durable(false) && o.ok {
      SyncedIsSettled(o.final, c.job);
    }
  }

  lemma SyncedIsSettled(d: Disk, job: Job)
    requires IsDisk(d) && InPlace(d, job, false)
    ensures IsSettled(d, job.target, Past({job.content}, {}, false))
  {
  }

  /** The contents of the calls from `j` up to `k`. */
  function Written(calls: seq<Call>, j: nat, k: nat): set<Bytes>
    requires k <= |calls|
  {
    set i | j <= i < k :: calls[i].job.content
  }

  lemma {:induction false} PastIsBounded(d: Disk, calls: seq<Call>, past: Past, k: nat)
    requires IsDisk(d) && k <= |calls|
    ensures PastAt(d, calls, past, k).backups <= past.backups + Backups(calls)
    ensures PastAt(d, calls, past, k).contents <= past.contents + Written(calls, 0, k)
    decreases k
  {
    hide Perform;
    if k > 0 {
      PastIsBounded(d, calls, past, k - 1);
      assert calls[k - 1] in calls && calls[k - 1].job.backup in Backups(calls);
      assert calls[k - 1].job.content in Written(calls, 0, k);
      assert Written(calls, 0, k - 1) <= Written(calls, 0, k);
    }
  }

  /** Every call of a run starts on a disk on which nothing is lost. */
  lemma {:induction false} RunIsSettled(d: Disk, calls: seq<Call>, target: Name, past: Past, k: nat)
    requires IsDisk(d) && Between(d, target, past, Temps(calls)) && NamesAreApart(calls, target, past) && k <= |calls|
    ensures Between(DiskAt(d, calls, k), target, PastAt(d, calls, past, k), Temps(calls))
    decreases k
  {
    hide Between, Perform, After, Temps, Backups, NamesAreApart, NamesFit, DistinctNames;
    if k > 0 {
      RunIsSettled(d, calls, target, past, k - 1);
      PastIsBounded(d, calls, past, k - 1);
      var c, before := calls[k - 1], PastAt(d, calls, past, k - 1);
      NamesStayApart(calls, target, past, before, k - 1);
      CallSettles(DiskAt(d, calls, k - 1), c, before, Temps(calls));
    }
  }

  lemma NamesStayApart(calls: seq<Call>, target: Name, past: Past, now: Past, k: nat)
    requires NamesAreApart(calls, target, past) && k < |calls| && now.backups <= past.backups + Backups(calls)
    ensures DistinctNames(calls[k].job, now) && NamesFit(calls[k].job, Names(calls[k]), Temps(calls))
    ensures calls[k].job.target == target
    ensures calls[k].writer.Durable? ==> calls[k].job.legacy != target && calls[k].job.legacy != calls[k].job.temp
  {
    assert calls[k] in calls;
    assert calls[k].job.temp in Temps(calls) && calls[k].job.backup in Backups(calls);
  }

  /** Whatever a crash in the course of any number of calls leaves, whatever the operating system answered to each: the
      target is whole, as it was at first or as one of the calls so far wrote it; or there is none, and a backup has
      such a content, unless there may have been no file at first. */
  lemma RunSurvivesCrashes(d: Disk, calls: seq<Call>, target: Name, past: Past, k: nat, x: Disk,
                           image: map<Name, Bytes>)
    requires IsDisk(d) && Between(d, target, past, Temps(calls)) && NamesAreApart(calls, target, past) && k < |calls|
    requires x in Perform(DiskAt(d, calls, k), calls[k]).passed && CrashOutcome(x, image)
    ensures NothingLost(image, calls[k].job, PastAt(d, calls, past, k))
    ensures target in image ==> image[target] in past.contents + Written(calls, 0, k + 1)
    ensures target !in image && !past.absent
            ==> exists b :: b in past.backups + Backups(calls) && b in image
                            && image[b] in past.contents + Written(calls, 0, k)
  {
    hide Between, Perform, Temps, NamesAreApart, NamesFit, DistinctNames, CrashOutcome, CrashSafe, PastAt;
    RunIsSettled(d, calls, target, past, k);
    PastIsBounded(d, calls, past, k);
    var c, before := calls[k], PastAt(d, calls, past, k);
    NamesStayApart(calls, target, past, before, k);
    CallSettles(DiskAt(d, calls, k), c, before, Temps(calls));
    SafeMeansNothingLost(x, c.job, before, image);
    assert Written(calls, 0, k) <= Written(calls, 0, k + 1) && c.job.content in Written(calls, 0, k + 1);
    AbsenceNeverReturns(d, calls, past, k);
    assert c in calls && c.job.backup in Backups(calls);
  }

  lemma {:induction false} AbsenceNeverReturns(d: Disk, calls: seq<Call>, past: Past, k: nat)
    requires IsDisk(d) && k <= |calls|
    ensures PastAt(d, calls, past, k).absent ==> past.absent
    decreases k
  {
    hide Perform;
    if k > 0 {
      AbsenceNeverReturns(d, calls, past, k - 1);
    }
  }

  /** What a crash may bring back once the call `j` has synced the directory. */
  lemma {:induction false} SyncedPast(d: Disk, calls: seq<Call>, past: Past, j: nat, k: nat)
    requires IsDisk(d) && j < k <= |calls|
    requires calls[j].writer == Durable(false) && Perform(DiskAt(d, calls, j), calls[j]).ok
    ensures PastAt(d, calls, past, k).contents <= Written(calls, j, k)
    ensures PastAt(d, calls, past, k).backups <= Backups(calls) && !PastAt(d, calls, past, k).absent
    decreases k
  {
    hide Perform;
    assert calls[k - 1] in calls && calls[k - 1].job.backup in Backups(calls);
    assert calls[k - 1].job.content in Written(calls, j, k);
    if k > j + 1 {
      SyncedPast(d, calls, past, j, k - 1);
      assert Written(calls, j, k - 1) <= Written(calls, j, k);
    }
  }

  /** Once a call has synced the directory, no crash during a later one brings back anything older. */
  lemma SyncedWriteStays(d: Disk, calls: seq<Call>, target: Name, past: Past, j: nat, k: nat, x: Disk,
                         image: map<Name, Bytes>)
    requires IsDisk(d) && Between(d, target, past, Temps(calls)) && NamesAreApart(calls, target, past)
    requires j < k < |calls|
    requires calls[j].writer == Durable(false) && Perform(DiskAt(d, calls, j), calls[j]).ok
    requires x in Perform(DiskAt(d, calls, k), calls[k]).passed && CrashOutcome(x, image)
    ensures target in image ==> image[target] in Written(calls, j, k + 1)
    ensures target !in image
            ==> exists b :: b in Backups(calls) && b in image && image[b] in Written(calls, j, k)
  {
    hide Between, Perform, Temps, CrashOutcome, PastAt;
    RunSurvivesCrashes(d, calls, target, past, k, x, image);
    SyncedPast(d, calls, past, j, k);
    assert calls[k] in calls;
    assert Written(calls, j, k) <= Written(calls, j, k + 1) && calls[k].job.content in Written(calls, j, k + 1);
    assert calls[k].job.backup in Backups(calls);
  }
}
