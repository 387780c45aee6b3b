/**
  A directory of files that survives a crash.

  A rename or a removal takes effect atomically. Such changes reach the medium in the order in
  which they were made, but possibly late: a crash leaves the directory as it was after any one
  of the changes since it was last synced. A file that was synced after its last write is whole
  after a crash; of any other file nothing is known.
 */
module DiskModel {

  type Name = string
  type FileId = nat
  type Bytes = seq<int>

  datatype File = File(data: Bytes, synced: bool)

  type Directory = map<Name, FileId>

  /** `directories` holds the directory after each change since the last sync, the current one last. */
  datatype Disk = Disk(directories: seq<Directory>, files: map<FileId, File>, next: FileId)

  predicate IsDisk(d: Disk) {
    && d.directories != []
    && (forall i, name :: 0 <= i < |d.directories| && name in d.directories[i]
          ==> d.directories[i][name] in d.files && d.directories[i][name] < d.next)
    && (forall id :: id in d.files ==> id < d.next)
  }

  function Current(d: Disk): Directory
    requires d.directories != []
  {
    d.directories[|d.directories| - 1]
  }

  predicate Exists(d: Disk, name: Name)
    requires d.directories != []
  {
    name in Current(d)
  }

  /** The file a name stands for now. */
  function FileAt(d: Disk, name: Name): File
    requires IsDisk(d) && Exists(d, name)
  {
    d.files[Current(d)[name]]
  }

  function Change(d: Disk, directory: Directory): Disk {
    d.(directories := d.directories + [directory])
  }

  /** Opens for writing with create and truncate: a new file, or the old one emptied. */
  function CreateTruncated(d: Disk, name: Name): (r: Disk)
    requires IsDisk(d)
    ensures IsDisk(r)
  {
    if Exists(d, name) then d.(files := d.files[Current(d)[name] := File([], false)])
    else Change(d, Current(d)[name := d.next]).(files := d.files[d.next := File([], false)], next := d.next + 1)
  }

  function Write(d: Disk, name: Name, data: Bytes): (r: Disk)
    requires IsDisk(d)
    ensures IsDisk(r)
  {
    if Exists(d, name) then d.(files := d.files[Current(d)[name] := File(data, false)]) else d
  }

  function SyncFile(d: Disk, name: Name): (r: Disk)
    requires IsDisk(d)
    ensures IsDisk(r)
  {
    if Exists(d, name) then d.(files := d.files[Current(d)[name] := FileAt(d, name).(synced := true)]) else d
  }

  /** Moves `from` onto `to`, replacing what was there. */
  function Rename(d: Disk, from: Name, to: Name): (r: Disk)
    requires IsDisk(d)
    ensures IsDisk(r)
  {
    if Exists(d, from) then Change(d, (Current(d) - {from})[to := Current(d)[from]]) else d
  }

  function Remove(d: Disk, name: Name): (r: Disk)
    requires IsDisk(d)
    ensures IsDisk(r)
  {
    if Exists(d, name) then Change(d, Current(d) - {name}) else d
  }

  function SyncDirectory(d: Disk): (r: Disk)
    requires IsDisk(d)
    ensures IsDisk(r)
  {
    d.(directories := [Current(d)])
  }

  /** What the program sees of its disk, call by call; `passed` collects every disk on the way. */
  class FileSystem {
    var disk: Disk
    ghost var passed: set<Disk>

    ghost predicate Valid()
      reads this
    {
      IsDisk(disk) && disk in passed
    }

    constructor (d: Disk)
      requires IsDisk(d)
      ensures Valid() && disk == d && passed == {d}
    {
      disk := d;
      passed := {d};
    }

    /** `path.exists()`, which also answers no when it cannot tell. */
    method Sees(name: Name, canTell: bool) returns (seen: bool)
      requires Valid()
      ensures seen == (Exists(disk, name) && canTell)
    {
      return name in disk.directories[|disk.directories| - 1] && canTell;
    }

    method DoCreate(name: Name)
      requires Valid()
      modifies this
      ensures Valid() && disk == CreateTruncated(old(disk), name) && passed == old(passed) + {disk}
    {
      disk := CreateTruncated(disk, name);
      passed := passed + {disk};
    }

    method DoWrite(name: Name, data: Bytes)
      requires Valid()
      modifies this
      ensures Valid() && disk == Write(old(disk), name, data) && passed == old(passed) + {disk}
    {
      disk := Write(disk, name, data);
      passed := passed + {disk};
    }

    method DoSync(name: Name)
      requires Valid()
      modifies this
      ensures Valid() && disk == SyncFile(old(disk), name) && passed == old(passed) + {disk}
    {
      disk := SyncFile(disk, name);
      passed := passed + {disk};
    }

    method DoRename(from: Name, to: Name)
      requires Valid()
      modifies this
      ensures Valid() && disk == Rename(old(disk), from, to) && passed == old(passed) + {disk}
    {
      disk := Rename(disk, from, to);
      passed := passed + {disk};
    }

    method DoRemove(name: Name)
      requires Valid()
      modifies this
      ensures Valid() && disk == Remove(old(disk), name) && passed == old(passed) + {disk}
    {
      disk := Remove(disk, name);
      passed := passed + {disk};
    }

    method DoSyncDirectory()
      requires Valid()
      modifies this
      ensures Valid() && disk == SyncDirectory(old(disk)) && passed == old(passed) + {disk}
    {
      disk := SyncDirectory(disk);
      passed := passed + {disk};
    }
  }
}
