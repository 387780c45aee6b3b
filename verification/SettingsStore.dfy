/**
  The settings file and its last-known-good backup. The settings file may be changed by other
  programs at any moment; the backup is written by the application alone.
 */
module SettingsStore {
  import opened Wrappers
  import opened Json
  import opened SettingsSchema

  /** A file and its modification stamp. */
  datatype File = File(content: string, stamp: nat)

  function ContentOf(f: Option<File>): Option<string> {
    match f case Some(file) => Some(file.content) case None => None
  }

  function StampOf(f: Option<File>): Option<nat> {
    match f case Some(file) => Some(file.stamp) case None => None
  }

  /** The JSON library, which reads values nested up to `depth`. */
  datatype Codec = Codec(parse: string -> Option<Value>, pretty: Value -> string, depth: nat)

  /** Settings written out are read back as settings with no stored key that was not there. Nothing is asked about the
      digits of a floating-point number, but that they keep an accepted one accepted. */
  predicate Rereads(codec: Codec, v: Value) {
    var w := codec.parse(codec.pretty(v));
    && w.Some? && ValidSchema(w.value)
    && (HasKeys(w.value) ==> HasKeys(v) && KeysOf(w.value).Keys <= KeysOf(v).Keys)
  }

  ghost predicate IsLawful(codec: Codec) {
    && codec.depth > 0
    && (forall text :: codec.parse(text).Some? ==> Within(codec.parse(text).value, codec.depth))
    && (forall v :: ValidSchema(v) && Within(v, codec.depth) ==> Rereads(codec, v))
  }

  /** The law can be met: by a library, for one, that reads every text as no settings at all. */
  lemma LawfulCodecExists()
    ensures exists codec :: IsLawful(codec)
  {
    var codec := Codec(text => Some(Object(map[])), v => "", 1);
    assert IsLawful(codec);
  }

  /** Settings that can be used: an object that meets the schema. */
  predicate IsGood(codec: Codec, content: string) {
    codec.parse(content).Some? && ValidSchema(codec.parse(content).value)
  }

  predicate IsObjectText(codec: Codec, content: string) {
    codec.parse(content).Some? && codec.parse(content).value.Object?
  }

  /** The settings that a file, or an older one in its absence, stands for. */
  function Effective(codec: Codec, seen: Option<File>, legacy: Option<string>): Option<Value> {
    match seen
    case Some(file) => codec.parse(file.content)
    case None => (match legacy case Some(text) => codec.parse(text) case None => Some(Object(map[])))
  }

  /** There are settings, and they meet the schema. */
  predicate IsUsable(v: Option<Value>) {
    v.Some? && ValidSchema(v.value)
  }

  /** A managed write goes over it: there is no file, or no object in it, or settings that meet the schema. */
  predicate MayBeOverwritten(codec: Codec, previous: Option<File>) {
    previous.Some? && IsObjectText(codec, previous.value.content) ==> IsGood(codec, previous.value.content)
  }

  lemma PrintedIsGood(codec: Codec, v: Value)
    requires IsLawful(codec) && ValidSchema(v) && Within(v, codec.depth)
    ensures IsGood(codec, codec.pretty(v)) && Rereads(codec, v)
  {
    hide ValidSchema, Within;
    assert Rereads(codec, v);
  }

  /** Settings read, scrubbed and written out are good, and no provider's key is among them. */
  lemma ScrubbedIsGood(codec: Codec, v: Value, providers: set<string>)
    requires IsLawful(codec) && ValidSchema(v) && Within(v, codec.depth)
    ensures var text := codec.pretty(Scrubbed(v, providers));
            IsGood(codec, text) && !ScrubChanges(codec.parse(text).value, providers)
  {
    hide ValidSchema, Within, IsLawful;
    ScrubKeepsSchema(v, providers);
    ScrubKeepsDepth(v, providers, codec.depth);
    PrintedIsGood(codec, Scrubbed(v, providers));
    ScrubTwice(v, providers);
  }

  lemma ScrubTwice(v: Value, providers: set<string>)
    ensures !ScrubChanges(Scrubbed(v, providers), providers)
  {
  }

  /** The commands of the application; `legacy` is an older settings file that may still be there. */
  datatype Command =
    | Get(legacy: Option<string>)
    | Set(legacy: Option<string>, overlay: Value)
    | WriteRaw(content: string, expected: Option<nat>)
    | Restore
    | MoveSecrets(legacy: Option<string>, providers: set<string>)

  class Store {
    const codec: Codec
    var settings: Option<File>
    var backup: Option<File>
    /** Whether any file could not be read or replaced. */
    ghost var refused: bool

    /** The last-known-good backup is good, if there is one. */
    ghost predicate Valid()
      reads this
    {
      IsLawful(codec) && (backup.Some? ==> IsGood(codec, backup.value.content))
    }

    constructor (codec: Codec)
      requires IsLawful(codec)
      ensures Valid() && this.codec == codec && settings == None && backup == None
    {
      this.codec := codec;
      settings, backup := None, None;
      refused := false;
    }

    /** Other programs may do anything to the settings file. */
    method Interfere()
      modifies this`settings
    {
      settings := *;
    }

    /** Whether a file that is there can be read. */
    method CanRead() returns (ok: bool)
      modifies this`refused
      ensures refused == (old(refused) || !ok)
    {
      ok := *;
      refused := refused || !ok;
    }

    /** Replaces a file; when that fails it is as it was or, where it could not be moved back, gone. */
    method Replace(was: Option<File>, content: string) returns (now: Option<File>, ok: bool)
      modifies this`refused
      ensures ok ==> ContentOf(now) == Some(content)
      ensures !ok ==> now == was || now == None
      ensures refused == (old(refused) || !ok)
    {
      ok := *;
      refused := refused || !ok;
      if ok {
        var stamp: nat := *;
        now := Some(File(content, stamp));
      } else {
        var lost: bool := *;
        now := if lost then None else was;
      }
    }

    method WriteSettings(content: string) returns (ok: bool)
      modifies this`settings, this`refused
      ensures ok ==> ContentOf(settings) == Some(content)
      ensures refused == (old(refused) || !ok)
    {
      settings, ok := Replace(settings, content);
    }

    method WriteBackup(content: string) returns (ok: bool)
      requires Valid() && IsGood(codec, content)
      modifies this`backup, this`refused
      ensures Valid() && (ok ==> ContentOf(backup) == Some(content))
      ensures !ok ==> backup == old(backup) || backup == None
      ensures refused == (old(refused) || !ok)
    {
      backup, ok := Replace(backup, content);
    }

    /** `read_settings_from_path`. */
    method ParseSettings(content: string) returns (v: Option<Value>)
      ensures v == if IsGood(codec, content) then codec.parse(content) else None
    {
      return if IsGood(codec, content) then codec.parse(content) else None;
    }

    /** `read_effective_settings`; an older file is only moved over when the caller does not hold the lock. `seen` is
        the settings file that it finds, and `again` the one that it finds before it moves an older file over. */
    method ReadEffective(legacy: Option<string>, holdsLock: bool)
      returns (v: Option<Value>, ghost seen: Option<File>, ghost again: Option<File>)
      requires Valid()
      modifies this`settings, this`refused
      ensures Valid() && (v.Some? ==> ValidSchema(v.value) && v == Effective(codec, seen, legacy))
      ensures v.Some? ==> Within(v.value, codec.depth)
      ensures old(refused) ==> refused
      ensures !refused ==> (v.Some? <==> IsUsable(Effective(codec, seen, legacy)))
      ensures !refused && v.Some? ==>
        if seen.None? && legacy.Some? && !holdsLock then
          if again.Some? then settings == again else ContentOf(settings) == Some(codec.pretty(v.value))
        else settings == seen
    {
      Interfere();
      seen, again := settings, None;
      if settings.Some? {
        var readable := CanRead();
        if !readable { return None, seen, again; }
        v := ParseSettings(settings.value.content);
        return;
      }
      if legacy.None? { return Some(Object(map[])), seen, again; }
      var readable := CanRead();
      if !readable { return None, seen, again; }
      v := ParseSettings(legacy.value);
      if v.Some? && !holdsLock {
        Interfere();
        again := settings;
        if settings.None? {
          var ok := WriteSettings(codec.pretty(v.value));
          if !ok { return None, seen, again; }
        }
      }
    }

    /** The backup of what is about to be overwritten, in a managed write: settings that are an object but do not meet
        the schema stop the write, and anything else that is no object is not backed up. */
    method BackUpManaged(existing: string) returns (ok: bool)
      requires Valid()
      modifies this`backup, this`refused
      ensures Valid() && (old(refused) ==> refused)
      ensures !refused ==> (ok <==> !IsObjectText(codec, existing) || IsGood(codec, existing))
      ensures ok && IsObjectText(codec, existing) ==> IsGood(codec, existing) && ContentOf(backup) == Some(existing)
      ensures !IsObjectText(codec, existing) ==> ok && backup == old(backup)
      ensures !ok && !IsGood(codec, existing) ==> backup == old(backup)
    {
      var parsed := codec.parse(existing);
      if parsed.None? || !parsed.value.Object? { return true; }
      if !ValidSchema(parsed.value) { return false; }
      ok := WriteBackup(existing);
    }

    /** `persist_settings_json`. `previous` is the settings file that it reads and then overwrites. */
    method PersistSettings(v: Value) returns (ok: bool, ghost previous: Option<File>)
      requires Valid()
      modifies this`settings, this`backup, this`refused
      ensures Valid() && (old(refused) ==> refused)
      ensures !refused ==> (ok <==> ValidSchema(v) && MayBeOverwritten(codec, previous))
      ensures ok ==> ValidSchema(v) && ContentOf(settings) == Some(codec.pretty(v))
      ensures ok && previous.Some? && IsObjectText(codec, previous.value.content)
              ==> IsGood(codec, previous.value.content) && ContentOf(backup) == ContentOf(previous)
      ensures ok && (previous.None? || !IsObjectText(codec, previous.value.content)) ==> backup == old(backup)
    {
      previous := None;
      if !ValidSchema(v) { return false, None; }
      Interfere();
      previous := settings;
      if settings.Some? {
        var readable := CanRead();
        if !readable { return false, settings; }
        ok := BackUpManaged(settings.value.content);
        if !ok { return false, settings; }
      }
      ok := WriteSettings(codec.pretty(v));
    }

    /** `settings_set`. `seen` is the settings file that it merges the overlay into, `previous` the one that it then
        overwrites. */
    method SetSettings(legacy: Option<string>, overlay: Value)
      returns (ok: bool, ghost seen: Option<File>, ghost previous: Option<File>)
      requires Valid()
      modifies this`settings, this`backup, this`refused
      ensures Valid() && (old(refused) ==> refused)
      ensures !refused ==> (ok <==> && IsUsable(Effective(codec, seen, legacy))
                                    && ValidSchema(Merge(Effective(codec, seen, legacy).value, overlay))
                                    && MayBeOverwritten(codec, previous))
      ensures ok ==> Effective(codec, seen, legacy).Some?
      ensures ok ==> var merged := Merge(Effective(codec, seen, legacy).value, overlay);
                     ValidSchema(merged) && ContentOf(settings) == Some(codec.pretty(merged))
      ensures ok && Within(overlay, codec.depth) ==> settings.Some? && IsGood(codec, settings.value.content)
      ensures ok && previous.Some? && IsObjectText(codec, previous.value.content)
              ==> IsGood(codec, previous.value.content) && ContentOf(backup) == ContentOf(previous)
      ensures ok && (previous.None? || !IsObjectText(codec, previous.value.content)) ==> backup == old(backup)
    {
      hide ValidSchema, Merge, IsGood, Within, IsLawful, MayBeOverwritten;
      var read: Option<Value>;
      ghost var again: Option<File>;
      read, seen, again := ReadEffective(legacy, true);
      if read.None? { return false, seen, None; }
      ok, previous := PersistSettings(Merge(read.value, overlay));
      if ok && Within(overlay, codec.depth) {
        MergeKeepsDepth(read.value, overlay, codec.depth);
        PrintedIsGood(codec, Merge(read.value, overlay));
      }
    }

    /** `settings_write_raw`. `first` is the settings file when it is read, `checked` when its stamp is looked at then,
        `again` when it is read again just before it is overwritten, and `stamped` when its stamp is looked at after
        that. */
    method WriteRawSettings(content: string, expected: Option<nat>)
      returns (ok: bool, ghost first: Option<File>, ghost checked: Option<File>, ghost again: Option<File>,
               ghost stamped: Option<File>)
      requires Valid()
      modifies this`settings, this`backup, this`refused
      ensures Valid() && (old(refused) ==> refused)
      ensures !refused && !ok ==> || !IsGood(codec, content) || StampOf(checked) != expected
                                  || ContentOf(again) != ContentOf(first) || StampOf(stamped) != expected
      ensures ok ==> StampOf(checked) == expected
      ensures ok ==> IsGood(codec, content) && ContentOf(settings) == Some(content)
      ensures ok ==> ContentOf(again) == ContentOf(first) && StampOf(stamped) == expected
      ensures ok && again.Some? && IsGood(codec, again.value.content) ==> ContentOf(backup) == ContentOf(again)
      ensures ok && !(again.Some? && IsGood(codec, again.value.content)) ==> backup == old(backup)
    {
      hide ValidSchema;
      first, checked, again, stamped := None, None, None, None;
      Interfere();
      first := settings;
      var current := ContentOf(settings);
      var readable := CanRead();
      if !readable { return false, first, checked, again, stamped; }
      Interfere();
      checked := settings;
      if StampOf(settings) != expected { return false, first, checked, again, stamped; }
      if !IsGood(codec, content) { return false, first, checked, again, stamped; }
      Interfere();
      again := settings;
      var latest := ContentOf(settings);
      readable := CanRead();
      if !readable || latest != current { return false, first, checked, again, stamped; }
      Interfere();
      stamped := settings;
      if StampOf(settings) != expected { return false, first, checked, again, stamped; }
      if current.Some? && IsGood(codec, current.value) {
        ok := WriteBackup(current.value);
        if !ok { return false, first, checked, again, stamped; }
      }
      ok := WriteSettings(content);
    }

    /** `settings_restore_last_known_good`. */
    method RestoreLastKnownGood() returns (ok: bool)
      requires Valid()
      modifies this`settings, this`refused
      ensures Valid() && (old(refused) ==> refused)
      ensures !refused ==> (ok <==> backup.Some?)
      ensures ok ==> backup.Some? && ContentOf(settings) == ContentOf(backup) && IsGood(codec, backup.value.content)
      ensures backup.None? ==> !ok
    {
      Interfere();
      if backup.None? { return false; }
      var readable := CanRead();
      if !readable || !IsGood(codec, backup.value.content) { return false; }
      ok := WriteSettings(backup.value.content);
    }

    /** `scrub_settings_file_api_keys` on the backup. */
    method ScrubBackup(providers: set<string>) returns (ok: bool)
      requires Valid()
      modifies this`backup, this`refused
      ensures Valid() && (old(refused) ==> refused) && (!refused ==> ok)
      ensures ok && old(backup).None? ==> backup == None
      ensures ok && old(backup).Some? ==>
        var v := codec.parse(old(backup).value.content).value;
        if ScrubChanges(v, providers) then ContentOf(backup) == Some(codec.pretty(Scrubbed(v, providers)))
        else backup == old(backup)
      ensures ok && backup.Some? ==> !ScrubChanges(codec.parse(backup.value.content).value, providers)
    {
      hide ValidSchema, Scrubbed, ScrubChanges;
      if backup.None? { return true; }
      var readable := CanRead();
      if !readable { return false; }
      var v := codec.parse(backup.value.content).value;
      var changed := ChangesByScrub(v, providers);
      if !changed { return true; }
      ScrubbedIsGood(codec, v, providers);
      ok := WriteBackup(codec.pretty(Scrubbed(v, providers)));
    }

    /** Moving the stored keys out of the settings: the scrubbed settings are written over both files, and then the
        backup is scrubbed on its own. */
    method MoveSecretsOut(legacy: Option<string>, providers: set<string>) returns (ok: bool, ghost seen: Option<File>)
      requires Valid()
      modifies this`settings, this`backup, this`refused
      ensures Valid() && (old(refused) ==> refused)
      ensures !refused ==> (ok <==> IsUsable(Effective(codec, seen, legacy)))
      ensures ok ==> IsUsable(Effective(codec, seen, legacy))
      ensures ok && ScrubChanges(Effective(codec, seen, legacy).value, providers)
              ==> ContentOf(settings) == Some(codec.pretty(Scrubbed(Effective(codec, seen, legacy).value, providers)))
      ensures ok && backup.Some? ==>
                !ScrubChanges(codec.parse(backup.value.content).value, providers)
    {
      hide ValidSchema, Scrubbed, ScrubChanges, IsLawful, Within;
      var read: Option<Value>;
      ghost var again: Option<File>;
      read, seen, again := ReadEffective(legacy, false);
      if read.None? { return false, seen; }
      var changed := ChangesByScrub(read.value, providers);
      if changed {
        ScrubbedIsGood(codec, read.value, providers);
        var text := codec.pretty(Scrubbed(read.value, providers));
        Interfere();
        if settings.Some? {
          ok := WriteBackup(text);
          if !ok { return false, seen; }
        }
        ok := WriteSettings(text);
        if !ok { return false, seen; }
      }
      ok := ScrubBackup(providers);
    }
  }

  /** The loop over the providers. */
  method ChangesByScrub(v: Value, providers: set<string>) returns (changed: bool)
    ensures changed == ScrubChanges(v, providers)
  {
    if !HasKeys(v) { return false; }
    return KeysOf(v).Keys * providers != {};
  }

  // ----- Whole runs -----

  /** Over any sequence of commands, whatever fails and whatever other programs do to the settings file, the
      last-known-good backup is good. */
  method RunCommands(store: Store, commands: seq<Command>)
    requires store.Valid()
    modifies store
    ensures store.Valid()
  {
    hide ValidSchema;
    for i := 0 to |commands|
      invariant store.Valid()
    {
      match commands[i]
      case Get(legacy) => var v, seen, again := store.ReadEffective(legacy, false);
      case Set(legacy, overlay) => var ok, seen, previous := store.SetSettings(legacy, overlay);
      case WriteRaw(content, expected) => var ok, a, b, c, d := store.WriteRawSettings(content, expected);
      case Restore => var ok := store.RestoreLastKnownGood();
      case MoveSecrets(legacy, providers) => var ok, seen := store.MoveSecretsOut(legacy, providers);
    }
  }

  /** Restoring right after a successful set gives back the settings file that the set overwrote, byte for byte. */
  method SetThenRestore(store: Store, legacy: Option<string>, overlay: Value)
    returns (ok: bool, ghost previous: Option<File>)
    requires store.Valid()
    modifies store
    ensures store.Valid() && (old(store.refused) ==> store.refused)
    ensures ok && previous.Some? && IsObjectText(store.codec, previous.value.content)
            ==> ContentOf(store.settings) == ContentOf(previous)
    ensures ok && (previous.None? || !IsObjectText(store.codec, previous.value.content))
            ==> ContentOf(store.settings) == ContentOf(old(store.backup))
  {
    hide ValidSchema, Merge;
    var done: bool;
    ghost var seen: Option<File>;
    done, seen, previous := store.SetSettings(legacy, overlay);
    if !done { return false, previous; }
    ok := store.RestoreLastKnownGood();
  }
}
