/**
  Moving the data of an earlier application identifier to the current one.

  A process may be killed between any two calls and started again; calls may fail. The medium is
  taken to keep what the process had written. Directories are looked up by place; none of the
  places lies inside another.
 */
module IdentityMigration {
  import opened Wrappers
  import opened FileTree

  type Place = string

  /** What stands at a place: a directory, by paths relative to it, or anything else. */
  datatype Root = FolderRoot(contents: Store) | OtherRoot

  type Roots = map<Place, Root>

  const MARKER := ".zync-identity-migration-v1.json"
  const LEGACY_MARKER := ".zync-identity-migration-v1.bak"

  predicate EffectivelyEmpty(roots: Roots, place: Place) {
    place in roots ==> roots[place] == FolderRoot(map[])
  }

  /** What a copy takes along: directories and regular files, no links and no devices. */
  function RegularPart(f: Store): Store {
    map q | q in f && (f[q].Directory? || f[q].RegularFile?) :: f[q]
  }

  /** The directory copied from `source`, before the marker is written. */
  function Copied(source: Tree): Store {
    if source.Folder? then RegularPart(FlattenAll([], source.listing)) else map[]
  }

  /** Writing the marker clears its legacy backup and replaces a file of its own name. */
  function Marked(contents: Store, json: Bytes): Store {
    (contents - {[LEGACY_MARKER]})[[MARKER] := RegularFile(json)]
  }

  /** Nothing in the way of the marker that a file operation could not replace. */
  predicate MarkerFits(contents: Store) {
    ([MARKER] in contents ==> contents[[MARKER]] != Directory)
    && ([LEGACY_MARKER] in contents ==> contents[[LEGACY_MARKER]] != Directory)
  }

  ghost predicate Complete(root: Root, source: Tree) {
    MarkerFits(Copied(source)) && exists json :: root == FolderRoot(Marked(Copied(source), json))
  }

  /** `candidates`: the earlier places in the order in which they are tried; `listings`: what they hold. */
  datatype Setting = Setting(target: Place, candidates: seq<Place>, listings: map<Place, Tree>)

  /** The listings are those of the directories. */
  predicate Describes(s: Setting, roots: Roots) {
    forall c :: c in s.candidates && c != s.target ==>
      && (c in s.listings <==> c in roots && roots[c].FolderRoot?)
      && (c in s.listings ==> s.listings[c].Folder? && WellFormed(s.listings[c]) && NoDots(s.listings[c].listing)
                              && roots[c] == FolderRoot(FlattenAll([], s.listings[c].listing)))
  }

  predicate NoDots(listing: seq<Child>) {
    listing != [] ==>
      && !IsDot(listing[0].name) && (listing[0].tree.Folder? ==> NoDots(listing[0].tree.listing))
      && NoDots(listing[1..])
  }

  predicate IsReadableCandidate(s: Setting, c: Place) {
    c in s.candidates && c != s.target && c in s.listings && s.listings[c].Folder?
  }

  predicate IsSource(s: Setting, c: Place) {
    IsReadableCandidate(s, c) && s.listings[c].listing != []
  }

  /** The first candidate from the `i`-th on that is a nonempty directory. */
  function SourceOf(s: Setting, i: nat): (c: Option<Place>)
    ensures c.Some? ==> IsSource(s, c.value)
    decreases |s.candidates| - i
  {
    if i >= |s.candidates| then None
    else if IsSource(s, s.candidates[i]) then Some(s.candidates[i])
    else SourceOf(s, i + 1)
  }

  /** Nothing but the target and places used by no one has changed since `before`; the target is as it was, or was
      empty and is still empty or is now complete. */
  ghost predicate AllOrNothing(s: Setting, before: Roots, now: Roots) {
    && (forall c :: c in before && c != s.target ==> c in now && now[c] == before[c])
    && (forall c :: c in s.candidates && c !in before ==> c !in now || c == s.target)
    && TargetAllOrNothing(s, before, now)
  }

  ghost predicate TargetAllOrNothing(s: Setting, before: Roots, now: Roots) {
    if !EffectivelyEmpty(before, s.target) then s.target in now && now[s.target] == before[s.target]
    else EffectivelyEmpty(now, s.target) || IsComplete(s, now)
  }

  /** The target is the complete copy of this candidate. */
  ghost predicate IsCompleteFrom(s: Setting, now: Roots, c: Place)
    requires c in s.listings
  {
    s.target in now && Complete(now[s.target], s.listings[c])
  }

  ghost predicate IsComplete(s: Setting, now: Roots) {
    exists c :: IsReadableCandidate(s, c) && IsCompleteFrom(s, now, c)
  }

  // ----- Which source, and whether it can be marked -----

  /** Candidate `k` is another place than the target, a directory that can be read, and has something in it. */
  predicate IsNonemptyCandidate(s: Setting, k: nat) {
    && k < |s.candidates| && s.candidates[k] != s.target && s.candidates[k] in s.listings
    && s.listings[s.candidates[k]].Folder? && s.listings[s.candidates[k]].listing != []
  }

  /** The source is the first such candidate, and there is none if there is no such candidate. */
  lemma {:induction false} SourceIsTheFirst(s: Setting, i: nat)
    requires i <= |s.candidates|
    ensures SourceOf(s, i) == None <==> forall k :: i <= k < |s.candidates| ==> !IsNonemptyCandidate(s, k)
    ensures SourceOf(s, i) != None
            ==> exists k :: && i <= k && IsNonemptyCandidate(s, k) && SourceOf(s, i) == Some(s.candidates[k])
                            && forall j :: i <= j < k ==> !IsNonemptyCandidate(s, j)
    decreases |s.candidates| - i
  {
    if i < |s.candidates| {
      SourceIsTheFirst(s, i + 1);
      assert s.candidates[i] in s.candidates;
      assert IsNonemptyCandidate(s, i) <==> IsSource(s, s.candidates[i]);
    }
  }

  /** A child with this name is a directory. */
  predicate HasFolder(listing: seq<Child>, name: Name) {
    exists i :: 0 <= i < |listing| && listing[i].name == name && listing[i].tree.Folder?
  }

  lemma {:induction false} FolderIsListed(listing: seq<Child>, name: Name)
    requires AllWellFormed(listing) && NoDots(listing)
    ensures [name] in FlattenAll([], listing) && FlattenAll([], listing)[[name]] == Directory
       <==> HasFolder(listing, name)
  {
    if listing != [] {
      FolderIsListed(listing[1..], name);
      FolderInRest(listing, name);
      ListedAreDisjoint([], listing);
      var child, first := [] + [listing[0].name], Flatten([] + [listing[0].name], listing[0].tree);
      FlattenedTop(child, listing[0].tree);
      if listing[0].name == name {
        assert child == [name] && [name] in first;
        assert !HasFolder(listing[1..], name);
      } else {
        assert child[0] != [name][0];
        NotBelow(child, listing[0].tree, [name]);
      }
    }
  }

  lemma NotBelow(p: Path, t: Tree, q: Path)
    requires !(p <= q)
    ensures q !in Flatten(p, t)
  {
    if q in Flatten(p, t) { FlattenIsBelow(p, t, q); }
  }

  lemma FlattenedTop(p: Path, t: Tree)
    requires WellFormed(t)
    ensures p in Flatten(p, t) && (Flatten(p, t)[p] == Directory <==> t.Folder?)
  {
    if t.Folder? && p in FlattenAll(p, t.listing) { FlattenAllIsBelow(p, t.listing, p); }
  }

  lemma FolderInRest(listing: seq<Child>, name: Name)
    requires listing != []
    ensures HasFolder(listing, name)
       <==> (listing[0].name == name && listing[0].tree.Folder?) || HasFolder(listing[1..], name)
  {
    if HasFolder(listing[1..], name) {
      var i :| 0 <= i < |listing[1..]| && listing[1..][i].name == name && listing[1..][i].tree.Folder?;
      assert listing[i + 1].name == name;
    }
  }

  /** The copy can be marked exactly if the source has no directory of the marker's name or of its backup's. */
  lemma MarkerFitsExactly(source: Tree)
    requires source.Folder? && WellFormed(source) && NoDots(source.listing)
    ensures MarkerFits(Copied(source))
       <==> && !HasFolder(source.listing, ".zync-identity-migration-v1.json")
            && !HasFolder(source.listing, ".zync-identity-migration-v1.bak")
  {
    hide FlattenAll, HasFolder;
    FolderIsListed(source.listing, MARKER);
    FolderIsListed(source.listing, LEGACY_MARKER);
  }

  // ----- What a copy means -----

  /** Copying one more child adds the regular part of its subtree. */
  lemma RegularPartOfFirst(p: Path, listing: seq<Child>)
    requires listing != [] && AllWellFormed(listing) && !IsDot(listing[0].name)
    ensures RegularPart(FlattenAll(p, listing))
         == RegularPart(Flatten(p + [listing[0].name], listing[0].tree)) + RegularPart(FlattenAll(p, listing[1..]))
  {
    ListedAreDisjoint(p, listing);
  }

  lemma RegularPartOfFolder(p: Path, listing: seq<Child>)
    requires p !in FlattenAll(p, listing)
    ensures RegularPart(Flatten(p, Folder(listing))) == map[p := Directory] + RegularPart(FlattenAll(p, listing))
  {
  }

  lemma RegularPartOfLeaf(p: Path, entry: Entry)
    requires entry != Directory
    ensures RegularPart(Flatten(p, Leaf(entry))) == if entry.RegularFile? then map[p := entry] else map[]
  {
    assert Flatten(p, Leaf(entry)) == map[p := entry];
  }

  lemma FolderIsNotBelowItself(p: Path, listing: seq<Child>)
    ensures p !in FlattenAll(p, listing)
  {
    if p in FlattenAll(p, listing) {
      FlattenAllIsBelow(p, listing, p);
    }
  }

  // ----- Restarting -----

  lemma SourceIsStable(s: Setting, before: Roots, now: Roots)
    requires Describes(s, before) && AllOrNothing(s, before, now)
    ensures Describes(s, now)
  {
  }

  // ----- The process -----

  function Renamed(roots: Roots, from: Place, to: Place): Roots
    requires from in roots
  {
    (roots - {from})[to := roots[from]]
  }

  /** The directories, as one process sees them. `passed` collects every state a kill could leave behind, `refused`
      whether any call has failed. */
  class Machine {
    var roots: Roots
    ghost var passed: set<Roots>
    ghost var refused: bool

    ghost predicate Valid()
      reads this
    {
      roots in passed
    }

    /** Whether the operating system carries out the next call. */
    method Attempt() returns (ok: bool)
      modifies this`refused
      ensures refused == (old(refused) || !ok)
    {
      ok := *;
      refused := refused || !ok;
    }

    method Put(place: Place, root: Root)
      modifies this`roots, this`passed
      ensures roots == old(roots)[place := root] && passed == old(passed) + {roots}
    {
      roots := roots[place := root];
      passed := passed + {roots};
    }

    method Delete(place: Place)
      modifies this`roots, this`passed
      ensures roots == old(roots) - {place} && passed == old(passed) + {roots}
    {
      roots := roots - {place};
      passed := passed + {roots};
    }

    /** Renames one directory; the destination must be missing or an empty directory. */
    method Rename(from: Place, to: Place) returns (ok: bool)
      requires from in roots && EffectivelyEmpty(roots, to)
      modifies this
      ensures refused == (old(refused) || !ok)
      ensures ok ==> roots == Renamed(old(roots), from, to) && passed == old(passed) + {roots}
      ensures !ok ==> roots == old(roots) && passed == old(passed)
    {
      ok := Attempt();
      if ok {
        roots := Renamed(roots, from, to);
        passed := passed + {roots};
      }
    }

    /** Removes a directory tree; on failure anything may be left of it. */
    method RemoveAll(place: Place)
      requires Valid()
      modifies this
      ensures Valid() && Confined(old(roots), old(passed), roots, passed, place)
      ensures old(refused) ==> refused
      ensures place !in old(roots) ==> roots == old(roots) && passed == old(passed)
      ensures !refused && place in old(roots) && old(roots)[place].FolderRoot? ==> place !in roots
    {
      if place in roots && roots[place].FolderRoot? {
        var ok := Attempt();
        if ok {
          Delete(place);
        } else {
          var left: Store := *;
          Put(place, FolderRoot(left));
        }
      }
    }
  }

  /** The same but at one place. */
  ghost predicate SameBut(a: Roots, b: Roots, place: Place) {
    forall c :: c != place ==> (c in a <==> c in b) && (c in a ==> a[c] == b[c])
  }

  lemma SameElsewhere(a: Roots, b: Roots, place: Place, other: Place)
    requires SameBut(a, b, place) && other != place && other in a
    ensures other in b && b[other] == a[other]
  {
  }

  /** From `a` to `b`, nothing changed at any moment but at one place. */
  ghost predicate Confined(a: Roots, passedBefore: set<Roots>, b: Roots, passedNow: set<Roots>, place: Place) {
    && passedBefore <= passedNow && SameBut(a, b, place)
    && forall w :: w in passedNow && w !in passedBefore ==> SameBut(a, w, place)
  }

  lemma ConfinedTwice(a: Roots, passedA: set<Roots>, b: Roots, passedB: set<Roots>, c: Roots, passedC: set<Roots>,
                      place: Place)
    requires Confined(a, passedA, b, passedB, place) && Confined(b, passedB, c, passedC, place)
    ensures Confined(a, passedA, c, passedC, place)
  {
  }

  lemma ConfinedNever(a: Roots, passed: set<Roots>, place: Place)
    ensures Confined(a, passed, a, passed, place)
  {
  }

  /** `fs::copy`: a kill or a failure may leave a part of the file, or nothing. */
  method CopyFile(machine: Machine, staging: Place, data: Bytes, to: Path) returns (ok: bool)
    requires machine.Valid() && staging in machine.roots && machine.roots[staging].FolderRoot?
    modifies machine
    ensures machine.Valid() && staging in machine.roots && machine.roots[staging].FolderRoot?
    ensures Confined(old(machine.roots), old(machine.passed), machine.roots, machine.passed, staging)
    ensures ok ==> machine.roots[staging].contents == old(machine.roots[staging].contents)[to := RegularFile(data)]
    ensures (old(machine.refused) || !ok) ==> machine.refused
  {
    ok := machine.Attempt();
    if !ok { return; }
    var part: Bytes := *;
    machine.Put(staging, FolderRoot(machine.roots[staging].contents[to := RegularFile(part)]));
    ok := machine.Attempt();
    if !ok { return; }
    machine.Put(staging, FolderRoot(machine.roots[staging].contents[to := RegularFile(data)]));
  }

  /** `create_dir_all` below the staging directory. */
  method MakeDirectory(machine: Machine, staging: Place, at: Path) returns (ok: bool)
    requires machine.Valid() && staging in machine.roots && machine.roots[staging].FolderRoot?
    modifies machine
    ensures machine.Valid() && staging in machine.roots && machine.roots[staging].FolderRoot?
    ensures Confined(old(machine.roots), old(machine.passed), machine.roots, machine.passed, staging)
    ensures ok ==> machine.roots[staging].contents == old(machine.roots[staging].contents)[at := Directory]
    ensures (old(machine.refused) || !ok) ==> machine.refused
  {
    ok := machine.Attempt();
    if !ok { return; }
    machine.Put(staging, FolderRoot(machine.roots[staging].contents[at := Directory]));
  }

  /** `copy_path_recursive`; the first attempt stands for reading the entry and its metadata. */
  method CopyPath(machine: Machine, staging: Place, source: Tree, at: Path) returns (ok: bool)
    requires machine.Valid() && staging in machine.roots && machine.roots[staging].FolderRoot?
    requires WellFormed(source) && (source.Folder? ==> NoDots(source.listing))
    modifies machine
    ensures machine.Valid() && staging in machine.roots && machine.roots[staging].FolderRoot?
    ensures Confined(old(machine.roots), old(machine.passed), machine.roots, machine.passed, staging)
    ensures ok ==> machine.roots[staging].contents
                   == old(machine.roots[staging].contents) + RegularPart(Flatten(at, source))
    ensures (old(machine.refused) || !ok) ==> machine.refused
    decreases source
  {
    hide Confined, Flatten, FlattenAll, RegularPart;
    ConfinedNever(machine.roots, machine.passed, staging);
    ok := machine.Attempt();
    if !ok { return; }
    match source
    case Folder(listing) =>
      ok := MakeDirectory(machine, staging, at);
      if !ok { return; }
      ghost var made := machine.roots[staging].contents;
      ghost var b, passed := machine.roots, machine.passed;
      ok := CopyListing(machine, staging, listing, at);
      ConfinedTwice(old(machine.roots), old(machine.passed), b, passed, machine.roots, machine.passed, staging);
      FolderIsNotBelowItself(at, listing);
      RegularPartOfFolder(at, listing);
      assert old(machine.roots[staging].contents) + (map[at := Directory] + RegularPart(FlattenAll(at, listing)))
          == made + RegularPart(FlattenAll(at, listing));
    case Leaf(entry) =>
      if entry.RegularFile? {
        ok := CopyFile(machine, staging, entry.data, at);
      }
      RegularPartOfLeaf(at, entry);
  }

  /** The loop over the entries of a directory. */
  method CopyListing(machine: Machine, staging: Place, listing: seq<Child>, at: Path) returns (ok: bool)
    requires machine.Valid() && staging in machine.roots && machine.roots[staging].FolderRoot?
    requires AllWellFormed(listing) && NoDots(listing)
    modifies machine
    ensures machine.Valid() && staging in machine.roots && machine.roots[staging].FolderRoot?
    ensures Confined(old(machine.roots), old(machine.passed), machine.roots, machine.passed, staging)
    ensures ok ==> machine.roots[staging].contents
                   == old(machine.roots[staging].contents) + RegularPart(FlattenAll(at, listing))
    ensures (old(machine.refused) || !ok) ==> machine.refused
    decreases listing
  {
    hide RegularPart, Flatten, FlattenAll, Confined, WellFormed;
    ConfinedNever(machine.roots, machine.passed, staging);
    ghost var all := old(machine.roots[staging].contents) + RegularPart(FlattenAll(at, listing));
    assert listing[0..] == listing;
    var i := 0;
    while i < |listing|
      invariant i <= |listing|
      invariant machine.Valid() && staging in machine.roots && machine.roots[staging].FolderRoot?
      invariant Confined(old(machine.roots), old(machine.passed), machine.roots, machine.passed, staging)
      invariant machine.roots[staging].contents + RegularPart(FlattenAll(at, listing[i..])) == all
      invariant AllWellFormed(listing[i..]) && NoDots(listing[i..])
      invariant old(machine.refused) ==> machine.refused
    {
      ghost var rest := listing[i..];
      assert rest[0] == listing[i] && rest[1..] == listing[i + 1..];
      RegularPartOfFirst(at, rest);
      ghost var b, passed := machine.roots, machine.passed;
      ok := CopyPath(machine, staging, listing[i].tree, at + [listing[i].name]);
      ConfinedTwice(old(machine.roots), old(machine.passed), b, passed, machine.roots, machine.passed, staging);
      if !ok { return; }
      i := i + 1;
    }
    assert listing[i..] == [];
    NothingListed(at);
    ok := true;
  }

  lemma NothingListed(p: Path)
    ensures RegularPart(FlattenAll(p, [])) == map[]
  {
  }

  /** `copy_dir_contents` into a new staging directory. */
  method CopyDirContents(machine: Machine, source: Tree, staging: Place) returns (ok: bool)
    requires machine.Valid() && staging !in machine.roots
    requires source.Folder? && WellFormed(source) && NoDots(source.listing)
    modifies machine
    ensures machine.Valid() && Confined(old(machine.roots), old(machine.passed), machine.roots, machine.passed, staging)
    ensures ok ==> staging in machine.roots && machine.roots[staging] == FolderRoot(Copied(source))
    ensures (old(machine.refused) || !ok) ==> machine.refused
  {
    ok := machine.Attempt();
    if !ok { return; }
    machine.Put(staging, FolderRoot(map[]));
    ok := CopyListing(machine, staging, source.listing, []);
  }

  /** `write_identity_migration_marker`: a durable replacement below the staging directory. It fails when a directory
      is in its way. */
  method WriteMarker(machine: Machine, staging: Place, json: Bytes) returns (ok: bool)
    requires machine.Valid() && staging in machine.roots && machine.roots[staging].FolderRoot?
    modifies machine
    ensures machine.Valid() && staging in machine.roots && machine.roots[staging].FolderRoot?
    ensures Confined(old(machine.roots), old(machine.passed), machine.roots, machine.passed, staging)
    ensures ok ==> MarkerFits(old(machine.roots[staging].contents))
                   && machine.roots[staging] == FolderRoot(Marked(old(machine.roots[staging].contents), json))
    ensures !ok ==> machine.refused || !MarkerFits(old(machine.roots[staging].contents))
    ensures old(machine.refused) ==> machine.refused
  {
    var contents := machine.roots[staging].contents;
    if [LEGACY_MARKER] in contents {
      if contents[[LEGACY_MARKER]] == Directory { return false; }
      ok := machine.Attempt();
      if !ok { return; }
      machine.Put(staging, FolderRoot(contents - {[LEGACY_MARKER]}));
    }
    if [MARKER] in contents && contents[[MARKER]] == Directory { return false; }
    ok := machine.Attempt();
    if !ok { return; }
    machine.Put(staging, FolderRoot((contents - {[LEGACY_MARKER]})[[MARKER] := RegularFile(json)]));
  }

  /** `is_dir_effectively_empty`; when it cannot tell, the answer is no. */
  method IsDirEffectivelyEmpty(machine: Machine, place: Place) returns (empty: bool)
    modifies machine`refused
    ensures old(machine.refused) ==> machine.refused
    ensures empty ==> EffectivelyEmpty(machine.roots, place)
    ensures !machine.refused ==> (empty <==> EffectivelyEmpty(machine.roots, place))
  {
    var ok := machine.Attempt();
    return ok && (place in machine.roots ==> machine.roots[place] == FolderRoot(map[]));
  }

  /** The search among the candidates with `is_migration_source`. */
  method FindSource(machine: Machine, s: Setting) returns (source: Option<Place>)
    requires Describes(s, machine.roots)
    modifies machine`refused
    ensures old(machine.refused) ==> machine.refused
    ensures source.Some? ==> IsReadableCandidate(s, source.value)
    ensures !machine.refused ==> source == SourceOf(s, 0)
  {
    var i := 0;
    while i < |s.candidates|
      invariant i <= |s.candidates|
      invariant old(machine.refused) ==> machine.refused
      invariant !machine.refused ==> SourceOf(s, 0) == SourceOf(s, i)
    {
      var c := s.candidates[i];
      var ok := machine.Attempt();
      if ok && c != s.target && c in machine.roots && machine.roots[c].FolderRoot? {
        var empty := IsDirEffectivelyEmpty(machine, c);
        ListingIsEmpty(s.listings[c].listing);
        if !empty { return Some(c); }
      }
      i := i + 1;
    }
    return None;
  }

  lemma ListingIsEmpty(listing: seq<Child>)
    requires NoDots(listing)
    ensures listing == [] <==> FlattenAll([], listing) == map[]
  {
    if listing != [] {
      var name := [] + [listing[0].name];
      assert name in Flatten(name, listing[0].tree);
      assert name in FlattenAll([], listing);
    }
  }

  /** Copies the source and writes the marker, both in the staging directory. */
  method Stage(machine: Machine, source: Tree, staging: Place, json: Bytes) returns (ok: bool)
    requires machine.Valid() && staging !in machine.roots
    requires source.Folder? && WellFormed(source) && NoDots(source.listing)
    modifies machine
    ensures machine.Valid() && Confined(old(machine.roots), old(machine.passed), machine.roots, machine.passed, staging)
    ensures ok ==> staging in machine.roots && Complete(machine.roots[staging], source)
    ensures old(machine.refused) ==> machine.refused
    ensures !machine.refused ==> (ok <==> MarkerFits(Copied(source)))
  {
    hide Copied, Marked, MarkerFits;
    ok := CopyDirContents(machine, source, staging);
    if ok {
      ok := WriteMarker(machine, staging, json);
    }
  }

  /** What the target may be from one call of `install_staged_dir` to the next. */
  ghost predicate Installing(a: Roots, w: Roots, target: Place, staging: Place, backup: Place) {
    && (forall c :: c != target && c != staging && c != backup ==> (c in a <==> c in w) && (c in a ==> a[c] == w[c]))
    && (EffectivelyEmpty(w, target) || (target in w && staging in a && w[target] == a[staging]))
  }

  lemma InstallStates(a: Roots, target: Place, staging: Place, backup: Place)
    requires staging in a && target != staging && backup != staging && backup != target
    requires backup !in a && EffectivelyEmpty(a, target)
    ensures Installing(a, a, target, staging, backup)
    ensures Installing(a, Renamed(a, staging, target), target, staging, backup)
    ensures target in a ==>
      var aside := Renamed(a, target, backup);
      && Installing(a, aside, target, staging, backup)
      && Installing(a, Renamed(aside, staging, target), target, staging, backup)
      && Installing(a, Renamed(aside, backup, target), target, staging, backup)
  {
  }

  lemma BackupIsNotInstalled(a: Roots, x: Roots, w: Roots, target: Place, staging: Place, backup: Place)
    requires Installing(a, x, target, staging, backup) && SameBut(x, w, backup) && target != backup
    ensures Installing(a, w, target, staging, backup)
  {
  }

  /** `install_staged_dir`. */
  method InstallStagedDir(machine: Machine, target: Place, staging: Place, backup: Place) returns (ok: bool)
    requires machine.Valid() && staging in machine.roots && target != staging && backup != staging && backup != target
    requires backup !in machine.roots && EffectivelyEmpty(machine.roots, target)
    modifies machine
    ensures machine.Valid() && old(machine.passed) <= machine.passed
    ensures forall w :: w in machine.passed && w !in old(machine.passed)
              ==> Installing(old(machine.roots), w, target, staging, backup)
    ensures Installing(old(machine.roots), machine.roots, target, staging, backup)
    ensures ok ==> target in machine.roots && machine.roots[target] == old(machine.roots[staging])
    ensures (old(machine.refused) || !ok) ==> machine.refused
  {
    InstallStates(machine.roots, target, staging, backup);
    hide Installing, SameBut;
    var sees := *;
    if target !in machine.roots || !sees {
      ok := machine.Rename(staging, target);
      return;
    }
    ok := machine.Rename(target, backup);
    if !ok { return; }
    ok := machine.Rename(staging, target);
    if ok {
      ghost var before, passed := machine.roots, machine.passed;
      machine.RemoveAll(backup);
      SameElsewhere(before, machine.roots, backup, target);
      forall w | (w in machine.passed && w !in passed) || w == machine.roots
        ensures Installing(old(machine.roots), w, target, staging, backup)
      {
        BackupIsNotInstalled(old(machine.roots), before, w, target, staging, backup);
      }
    } else {
      var restored := machine.Rename(backup, target);
    }
  }

  lemma InstallingIsAllOrNothing(s: Setting, before: Roots, a: Roots, w: Roots, c: Place, staging: Place, backup: Place)
    requires AllOrNothing(s, before, a) && EffectivelyEmpty(a, s.target) && Installing(a, w, s.target, staging, backup)
    requires IsReadableCandidate(s, c) && staging in a && Complete(a[staging], s.listings[c])
    requires ArePrivate(s, before, staging, backup)
    ensures AllOrNothing(s, before, w)
    ensures EffectivelyEmpty(before, s.target)
  {
  }

  lemma StagingIsAllOrNothing(s: Setting, before: Roots, a: Roots, w: Roots, staging: Place, backup: Place)
    requires AllOrNothing(s, before, a) && SameBut(a, w, staging) && ArePrivate(s, before, staging, backup)
    ensures AllOrNothing(s, before, w)
  {
  }

  /** Names no one else uses: they end in a random identifier. */
  predicate ArePrivate(s: Setting, before: Roots, staging: Place, backup: Place) {
    && staging != backup && staging != s.target && backup != s.target
    && staging !in s.candidates && backup !in s.candidates && staging !in before && backup !in before
  }

  /** Installing a staged directory keeps the promise at every moment. */
  method InstallComplete(machine: Machine, s: Setting, c: Place, staging: Place, backup: Place, ghost before: Roots)
    returns (ok: bool)
    requires machine.Valid() && AllOrNothing(s, before, machine.roots) && EffectivelyEmpty(before, s.target)
    requires ArePrivate(s, before, staging, backup) && staging in machine.roots && backup !in machine.roots
    requires IsReadableCandidate(s, c) && Complete(machine.roots[staging], s.listings[c])
    modifies machine
    ensures machine.Valid() && old(machine.passed) <= machine.passed
    ensures forall w :: w in machine.passed && w !in old(machine.passed) ==> AllOrNothing(s, before, w)
    ensures AllOrNothing(s, before, machine.roots)
    ensures old(machine.refused) ==> machine.refused
    ensures ok ==> IsCompleteFrom(s, machine.roots, c)
    ensures !ok ==> machine.refused || IsComplete(s, old(machine.roots))
  {
    hide Complete, Installing, AllOrNothing;
    ok := IsDirEffectivelyEmpty(machine, s.target);
    ghost var a := machine.roots;
    if ok {
      ok := InstallStagedDir(machine, s.target, staging, backup);
      forall w | (w in machine.passed && w !in old(machine.passed)) || w == machine.roots
        ensures AllOrNothing(s, before, w)
      {
        InstallingIsAllOrNothing(s, before, a, w, c, staging, backup);
      }
    } else {
      EmptyOrComplete(s, before, a);
    }
  }

  lemma EmptyOrComplete(s: Setting, before: Roots, a: Roots)
    requires AllOrNothing(s, before, a) && EffectivelyEmpty(before, s.target)
    ensures EffectivelyEmpty(a, s.target) || IsComplete(s, a)
  {
  }

  lemma CompleteFromIsComplete(s: Setting, a: Roots, c: Place)
    requires IsReadableCandidate(s, c)
    ensures IsCompleteFrom(s, a, c) ==> IsComplete(s, a)
  {
  }

  lemma CompleteIsNotEmpty(s: Setting, a: Roots)
    requires IsComplete(s, a)
    ensures !EffectivelyEmpty(a, s.target)
  {
    var c :| IsReadableCandidate(s, c) && IsCompleteFrom(s, a, c);
    var json :| a[s.target] == FolderRoot(Marked(Copied(s.listings[c]), json));
    assert [MARKER] in Marked(Copied(s.listings[c]), json);
  }

  /** Changes confined to a private place keep the promise. */
  lemma ConfinedIsAllOrNothing(s: Setting, before: Roots, a: Roots, passedBefore: set<Roots>, b: Roots,
                               passedNow: set<Roots>, staging: Place, backup: Place)
    requires AllOrNothing(s, before, a) && Confined(a, passedBefore, b, passedNow, staging)
    requires ArePrivate(s, before, staging, backup)
    ensures AllOrNothing(s, before, b)
    ensures forall w :: w in passedNow && w !in passedBefore ==> AllOrNothing(s, before, w)
    ensures backup !in a ==> backup !in b
    ensures s.target in a <==> s.target in b
    ensures s.target in a ==> a[s.target] == b[s.target]
  {
    hide AllOrNothing;
    StagingIsAllOrNothing(s, before, a, b, staging, backup);
    forall w | w in passedNow && w !in passedBefore ensures AllOrNothing(s, before, w) {
      StagingIsAllOrNothing(s, before, a, w, staging, backup);
    }
  }

  /** From the chosen source on. */
  method MigrateFrom(machine: Machine, s: Setting, c: Place, staging: Place, backup: Place, json: Bytes,
                     ghost before: Roots)
    requires machine.Valid() && AllOrNothing(s, before, machine.roots)
    requires EffectivelyEmpty(machine.roots, s.target) && EffectivelyEmpty(before, s.target)
    requires ArePrivate(s, before, staging, backup) && staging !in machine.roots && backup !in machine.roots
    requires IsReadableCandidate(s, c) && WellFormed(s.listings[c]) && NoDots(s.listings[c].listing)
    modifies machine
    ensures machine.Valid()
    ensures forall w :: w in machine.passed && w !in old(machine.passed) ==> AllOrNothing(s, before, w)
    ensures AllOrNothing(s, before, machine.roots)
    ensures old(machine.refused) ==> machine.refused
    ensures !machine.refused ==> (IsCompleteFrom(s, machine.roots, c) <==> MarkerFits(Copied(s.listings[c])))
    ensures !machine.refused ==> (IsComplete(s, machine.roots) <==> MarkerFits(Copied(s.listings[c])))
  {
    hide Complete, MarkerFits, AllOrNothing, Copied, Confined, IsComplete;
    machine.RemoveAll(staging);
    label Staging:
    var ok := Stage(machine, s.listings[c], staging, json);
    ConfinedIsAllOrNothing(s, before, old(machine.roots), old(machine.passed), machine.roots, machine.passed, staging,
                           backup);
    if ok {
      if IsComplete(s, machine.roots) { CompleteIsNotEmpty(s, machine.roots); }
      ok := InstallComplete(machine, s, c, staging, backup, before);
    }
    if !ok {
      ghost var a, passed := machine.roots, machine.passed;
      machine.RemoveAll(staging);
      ConfinedIsAllOrNothing(s, before, a, passed, machine.roots, machine.passed, staging, backup);
      if IsComplete(s, machine.roots) { CompleteIsNotEmpty(s, machine.roots); }
    }
    CompleteFromIsComplete(s, machine.roots, c);
  }

  /** `migrate_default_dir`, started in any state that earlier starts, killed or not, may have left of `before`. */
  method MigrateDefaultDir(machine: Machine, s: Setting, staging: Place, backup: Place, json: Bytes,
                           ghost before: Roots)
    requires machine.Valid() && Describes(s, before) && AllOrNothing(s, before, machine.roots)
    requires ArePrivate(s, before, staging, backup) && staging !in machine.roots && backup !in machine.roots
    modifies machine
    ensures machine.Valid()
    ensures forall w :: w in machine.passed && w !in old(machine.passed) ==> AllOrNothing(s, before, w)
    ensures AllOrNothing(s, before, machine.roots)
    ensures !machine.refused && EffectivelyEmpty(before, s.target) && SourceOf(s, 0).Some?
            ==> (IsComplete(s, machine.roots)
                 <==> IsComplete(s, old(machine.roots)) || MarkerFits(Copied(s.listings[SourceOf(s, 0).value])))
    ensures !machine.refused && EffectivelyEmpty(old(machine.roots), s.target) && SourceOf(s, 0).Some?
            ==> (IsCompleteFrom(s, machine.roots, SourceOf(s, 0).value)
                 <==> MarkerFits(Copied(s.listings[SourceOf(s, 0).value])))
  {
    hide MarkerFits, AllOrNothing, Copied, IsComplete;
    SourceIsStable(s, before, machine.roots);
    var empty := IsDirEffectivelyEmpty(machine, s.target);
    if !empty {
      if EffectivelyEmpty(before, s.target) { EmptyOrComplete(s, before, machine.roots); }
      return;
    }
    var source := FindSource(machine, s);
    if source.None? { return; }
    if IsComplete(s, machine.roots) { CompleteIsNotEmpty(s, machine.roots); }
    EmptyBefore(s, before, machine.roots);
    MigrateFrom(machine, s, source.value, staging, backup, json, before);
  }

  lemma EmptyBefore(s: Setting, before: Roots, a: Roots)
    requires AllOrNothing(s, before, a) && EffectivelyEmpty(a, s.target)
    ensures EffectivelyEmpty(before, s.target)
  {
  }

  lemma AllOrNothingTwice(s: Setting, a: Roots, b: Roots, c: Roots)
    requires AllOrNothing(s, a, b) && AllOrNothing(s, b, c)
    ensures AllOrNothing(s, a, c)
  {
    hide Complete;
    if EffectivelyEmpty(a, s.target) && !EffectivelyEmpty(b, s.target) {
      assert IsComplete(s, b);
      assert IsComplete(s, c);
    }
  }

  /** However often the application is killed and started again, each start leaving what `MigrateDefaultDir` may leave,
      the target is still as it was or empty, or complete, and no other directory has changed. */
  lemma {:induction false} RestartsKeepThePromise(s: Setting, states: seq<Roots>)
    requires states != []
    requires forall i :: 0 < i < |states| ==> AllOrNothing(s, states[i - 1], states[i])
    ensures AllOrNothing(s, states[0], states[|states| - 1])
  {
    hide AllOrNothing;
    if |states| == 1 {
      NothingHappened(s, states[0]);
    } else {
      RestartsKeepThePromise(s, states[..|states| - 1]);
      AllOrNothingTwice(s, states[0], states[|states| - 2], states[|states| - 1]);
    }
  }

  lemma NothingHappened(s: Setting, a: Roots)
    ensures AllOrNothing(s, a, a)
  {
  }
}
