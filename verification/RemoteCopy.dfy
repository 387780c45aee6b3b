/** What copying a tree of directories and regular files to another server comes to, whatever the servers answer. */
module RemoteCopy {
  import opened Wrappers
  import opened FileTree
  import opened RemoteSize

  /** Only directories and regular files. */
  predicate Plain(t: Tree) {
    match t
    case Leaf(entry) => entry.RegularFile?
    case Folder(listing) => AllPlain(listing)
  }

  predicate AllPlain(listing: seq<Child>) {
    listing != [] ==> (IsDot(listing[0].name) || Plain(listing[0].tree)) && AllPlain(listing[1..])
  }

  predicate IsDirectory(store: Store, p: Path) {
    p in store && store[p] == Directory
  }

  /** There is a directory to put `p` into. */
  predicate HasParent(store: Store, p: Path) {
    p != [] ==> IsDirectory(store, p[..|p| - 1])
  }

  /** Whatever is there is in a directory. */
  predicate IsClosed(store: Store) {
    forall p :: p in store ==> HasParent(store, p)
  }

  /** What the servers answer at the destination path `p`: whether the copy gets started there (it may also have been
      cancelled), whether a directory is made and listed, and whether a file is opened and after how many bytes its copy
      stops early, if it does. */
  datatype Answers = Answers(starts: Path -> bool, makes: Path -> bool, lists: Path -> bool, opens: Path -> bool,
                             stopsAfter: Path -> Option<nat>)

  datatype Outcome = Outcome(store: Store, ok: bool, moved: nat)

  function DataOf(entry: Entry): Bytes {
    if entry.RegularFile? then entry.data else []
  }

  function CopyLeaf(a: Answers, s: Store, data: Bytes, p: Path): Outcome {
    if IsDirectory(s, p) || !HasParent(s, p) || !a.opens(p) then Outcome(s, false, 0)
    else
      match a.stopsAfter(p)
      case None => Outcome(s[p := RegularFile(data)], true, |data|)
      case Some(k) =>
        var part := if k < |data| then data[..k] else data;
        Outcome(s[p := RegularFile(part)], false, |part|)
  }

  /** `create_dir`, whose failure is ignored. */
  function MakeDirectory(a: Answers, s: Store, p: Path): Store {
    if a.makes(p) && p !in s && HasParent(s, p) then s[p := Directory] else s
  }

  /** `copy_recursive_optimized`. */
  function CopyTree(a: Answers, s: Store, t: Tree, p: Path): Outcome
    decreases t
  {
    if !a.starts(p) then Outcome(s, false, 0)
    else
      match t
      case Leaf(entry) => CopyLeaf(a, s, DataOf(entry), p)
      case Folder(listing) =>
        if !a.lists(p) then Outcome(MakeDirectory(a, s, p), false, 0)
        else CopyAll(a, MakeDirectory(a, s, p), listing, p)
  }

  /** The loop over the entries of a directory. */
  function CopyAll(a: Answers, s: Store, listing: seq<Child>, p: Path): Outcome
    decreases listing
  {
    if listing == [] then Outcome(s, true, 0)
    else if IsDot(listing[0].name) then CopyAll(a, s, listing[1..], p)
    else
      var first := CopyTree(a, s, listing[0].tree, p + [listing[0].name]);
      if !first.ok then first
      else
        var rest := CopyAll(a, first.store, listing[1..], p);
        Outcome(rest.store, rest.ok, first.moved + rest.moved)
  }

  // ----- What is promised -----

  /** `f` put over `s`; a directory leaves what it finds in its place. */
  function Overlay(s: Store, f: Store): Store {
    s + map q | q in f && !(f[q].Directory? && q in s) :: f[q]
  }

  /** Where both have something, both have a directory or neither has. */
  predicate NoClash(s: Store, f: Store) {
    forall q :: q in f && q in s ==> (f[q].Directory? <==> s[q].Directory?)
  }

  /** Every file of `f` is in the store, whole. */
  predicate FilesArrived(store: Store, f: Store) {
    forall q :: q in f && f[q].RegularFile? ==> q in store && store[q] == f[q]
  }

  predicate DirectoriesArrived(store: Store, f: Store) {
    forall q :: q in f && f[q].Directory? ==> IsDirectory(store, q)
  }

  /** Some regular file of `f` is below `q`. */
  ghost predicate HasFileBelow(f: Store, q: Path) {
    exists r :: r in f && f[r].RegularFile? && q < r
  }

  /** Only the places of `f` have changed, and directories are still directories. */
  predicate ChangedOnlyAt(was: Store, now: Store, f: Store) {
    && (forall q :: q in was ==> q in now && (q !in f || was[q].Directory? ==> now[q] == was[q]))
    && (forall q :: q in now && q !in was ==> q in f)
  }

  // ----- Two stores after each other -----

  lemma OverlayTwice(s: Store, f: Store, g: Store)
    requires f.Keys !! g.Keys
    ensures Overlay(Overlay(s, f), g) == Overlay(s, f + g)
  {
    var twice, once := Overlay(Overlay(s, f), g), Overlay(s, f + g);
    assert twice.Keys == s.Keys + f.Keys + g.Keys == once.Keys;
    forall q | q in twice ensures twice[q] == once[q] {
      if q in g {
        assert q !in f && (f + g)[q] == g[q];
      } else if q in f {
        assert (f + g)[q] == f[q];
      }
    }
  }

  /** Where nothing of the tree's names is taken by something of the other kind, an overlay is the tree itself. */
  lemma OverlayIsUnion(s: Store, f: Store)
    ensures Overlay(s, f) == s + f <==> forall q :: q in f && f[q].Directory? && q in s ==> s[q] == Directory
  {
    forall q | q in f && f[q].Directory? && q in s && s[q] != Directory ensures Overlay(s, f) != s + f {
      assert Overlay(s, f)[q] != (s + f)[q];
    }
    if forall q :: q in f && f[q].Directory? && q in s ==> s[q] == Directory {
      assert Overlay(s, f) == s + f;
    }
  }

  lemma ChangedOnlyAtTwice(a: Store, b: Store, c: Store, f: Store, g: Store)
    requires ChangedOnlyAt(a, b, f) && ChangedOnlyAt(b, c, g)
    ensures ChangedOnlyAt(a, c, f + g)
  {
  }

  lemma FilesArrivedTwice(b: Store, c: Store, f: Store, g: Store)
    requires FilesArrived(b, f) && ChangedOnlyAt(b, c, g) && FilesArrived(c, g) && f.Keys !! g.Keys
    ensures FilesArrived(c, f + g)
  {
    forall q | q in f + g && (f + g)[q].RegularFile? ensures q in c && c[q] == (f + g)[q] {
      if q !in g { assert (f + g)[q] == f[q]; }
    }
  }

  /** The entries of a listing from one on: the first one's tree, and the rest. */
  lemma Split(p: Path, listing: seq<Child>)
    requires listing != [] && AllWellFormed(listing) && AllPlain(listing)
    ensures AllWellFormed(listing[1..]) && AllPlain(listing[1..])
    ensures IsDot(listing[0].name)
            ==> FlattenAll(p, listing) == FlattenAll(p, listing[1..]) && TotalOfAll(listing) == TotalOfAll(listing[1..])
    ensures !IsDot(listing[0].name)
            ==> && FlattenAll(p, listing)
                   == Flatten(p + [listing[0].name], listing[0].tree) + FlattenAll(p, listing[1..])
                && Flatten(p + [listing[0].name], listing[0].tree).Keys !! FlattenAll(p, listing[1..]).Keys
                && p !in Flatten(p + [listing[0].name], listing[0].tree)
                && WellFormed(listing[0].tree) && Plain(listing[0].tree)
                && TotalOfAll(listing) == TotalBytes(listing[0].tree) + TotalOfAll(listing[1..])
  {
    ListedAreDisjoint(p, listing);
    var child := p + [listing[0].name];
    if p in Flatten(child, listing[0].tree) {
      FlattenIsBelow(child, listing[0].tree, p);
    }
  }

  lemma FolderContainsListing(p: Path, listing: seq<Child>)
    ensures Flatten(p, Folder(listing)) == map[p := Directory] + FlattenAll(p, listing)
    ensures p !in FlattenAll(p, listing)
    ensures TotalBytes(Folder(listing)) == TotalOfAll(listing)
  {
    if p in FlattenAll(p, listing) {
      FlattenAllIsBelow(p, listing, p);
    }
  }

  // ----- Files -----

  /** Whatever is answered: only places of the tree change, a finished copy has every file whole and has moved exactly
      their bytes, and no copy moves more. */
  lemma {:induction false} CopyIsConfined(a: Answers, s: Store, t: Tree, p: Path)
    requires WellFormed(t) && Plain(t)
    ensures var o := CopyTree(a, s, t, p);
            && ChangedOnlyAt(s, o.store, Flatten(p, t)) && o.moved <= TotalBytes(t)
            && (o.ok ==> FilesArrived(o.store, Flatten(p, t)) && o.moved == TotalBytes(t))
    decreases t
  {
    if t.Leaf? {
      LeafIsConfined(a, s, DataOf(t.entry), p);
    } else {
      hide CopyLeaf, CopyAll, FlattenAll, Flatten, ChangedOnlyAt, FilesArrived, MakeDirectory;
      var made := MakeDirectory(a, s, p);
      var listed := FlattenAll(p, t.listing);
      CopyAllIsConfined(a, made, t.listing, p);
      FolderContainsListing(p, t.listing);
      FolderIsConfined(a, s, p, listed);
      ChangedOnlyAtTwice(s, made, CopyAll(a, made, t.listing, p).store, map[p := Directory], listed);
      if CopyAll(a, made, t.listing, p).ok { FilesOfFolder(CopyAll(a, made, t.listing, p).store, p, listed); }
    }
  }

  lemma FolderIsConfined(a: Answers, s: Store, p: Path, listed: Store)
    ensures var made := MakeDirectory(a, s, p);
            && ChangedOnlyAt(s, made, map[p := Directory])
            && ChangedOnlyAt(s, made, map[p := Directory] + listed)
            && ChangedOnlyAt(s, s, map[p := Directory] + listed)
  {
  }

  lemma FilesOfFolder(store: Store, p: Path, listed: Store)
    requires p !in listed && FilesArrived(store, listed)
    ensures FilesArrived(store, map[p := Directory] + listed)
  {
  }

  lemma LeafIsConfined(a: Answers, s: Store, data: Bytes, p: Path)
    ensures var o, f := CopyLeaf(a, s, data, p), map[p := RegularFile(data)];
            && ChangedOnlyAt(s, o.store, f) && o.moved <= |data|
            && (o.ok ==> FilesArrived(o.store, f) && o.moved == |data|)
  {
  }

  lemma {:induction false} CopyAllIsConfined(a: Answers, s: Store, listing: seq<Child>, p: Path)
    requires AllWellFormed(listing) && AllPlain(listing)
    ensures var o := CopyAll(a, s, listing, p);
            && ChangedOnlyAt(s, o.store, FlattenAll(p, listing)) && o.moved <= TotalOfAll(listing)
            && (o.ok ==> FilesArrived(o.store, FlattenAll(p, listing)) && o.moved == TotalOfAll(listing))
    decreases listing
  {
    hide CopyTree, Flatten, FlattenAll, ChangedOnlyAt, FilesArrived, TotalOfAll, TotalBytes;
    NothingListed(s, p);
    if listing != [] {
      Split(p, listing);
      if IsDot(listing[0].name) {
        CopyAllIsConfined(a, s, listing[1..], p);
      } else {
        var child := p + [listing[0].name];
        var first := CopyTree(a, s, listing[0].tree, child);
        var f, g := Flatten(child, listing[0].tree), FlattenAll(p, listing[1..]);
        CopyIsConfined(a, s, listing[0].tree, child);
        ConfinedToMore(s, first.store, f, g);
        if first.ok {
          var rest := CopyAll(a, first.store, listing[1..], p);
          CopyAllIsConfined(a, first.store, listing[1..], p);
          ChangedOnlyAtTwice(s, first.store, rest.store, f, g);
          if rest.ok { FilesArrivedTwice(first.store, rest.store, f, g); }
        }
      }
    }
  }

  lemma NothingListed(s: Store, p: Path)
    ensures ChangedOnlyAt(s, s, FlattenAll(p, [])) && FilesArrived(s, FlattenAll(p, [])) && TotalOfAll([]) == 0
  {
  }

  lemma ConfinedToMore(a: Store, b: Store, f: Store, g: Store)
    requires ChangedOnlyAt(a, b, f)
    ensures ChangedOnlyAt(a, b, f + g)
  {
  }

  // ----- Directories -----

  lemma {:induction false} CopyKeepsClosed(a: Answers, s: Store, t: Tree, p: Path)
    requires IsClosed(s)
    ensures IsClosed(CopyTree(a, s, t, p).store)
    decreases t
  {
    if t.Folder? {
      var made := MakeDirectory(a, s, p);
      assert IsClosed(made);
      CopyAllKeepsClosed(a, made, t.listing, p);
    } else {
      LeafKeepsClosed(a, s, DataOf(t.entry), p);
    }
  }

  lemma LeafKeepsClosed(a: Answers, s: Store, data: Bytes, p: Path)
    requires IsClosed(s)
    ensures IsClosed(CopyLeaf(a, s, data, p).store)
  {
  }

  lemma {:induction false} CopyAllKeepsClosed(a: Answers, s: Store, listing: seq<Child>, p: Path)
    requires IsClosed(s)
    ensures IsClosed(CopyAll(a, s, listing, p).store)
    decreases listing
  {
    hide IsClosed, CopyTree;
    if listing != [] {
      if IsDot(listing[0].name) {
        CopyAllKeepsClosed(a, s, listing[1..], p);
      } else {
        var first := CopyTree(a, s, listing[0].tree, p + [listing[0].name]);
        CopyKeepsClosed(a, s, listing[0].tree, p + [listing[0].name]);
        CopyAllKeepsClosed(a, first.store, listing[1..], p);
      }
    }
  }

  /** In a closed store everything above a place is a directory. */
  lemma {:induction false} AboveIsDirectory(store: Store, q: Path, r: Path)
    requires IsClosed(store) && r in store && q < r
    ensures IsDirectory(store, q)
    decreases |r|
  {
    var parent := r[..|r| - 1];
    assert HasParent(store, r);
    if q == parent {
    } else {
      AboveIsDirectory(store, q, parent);
    }
  }

  /** Whatever is answered, a finished copy into a closed store has every directory that has a file below it. */
  lemma DirectoriesOfFilesArrive(a: Answers, s: Store, t: Tree, p: Path, q: Path)
    requires WellFormed(t) && Plain(t) && IsClosed(s) && CopyTree(a, s, t, p).ok && HasFileBelow(Flatten(p, t), q)
    ensures IsDirectory(CopyTree(a, s, t, p).store, q)
  {
    hide CopyTree, Flatten, IsClosed;
    CopyIsConfined(a, s, t, p);
    CopyKeepsClosed(a, s, t, p);
    var f := Flatten(p, t);
    var r :| r in f && f[r].RegularFile? && q < r;
    AboveIsDirectory(CopyTree(a, s, t, p).store, q, r);
  }

  // ----- When everything is granted, but one directory perhaps -----

  function GrantingAllBut(q: Option<Path>): Answers {
    Answers(p => true, p => q != Some(p), p => true, p => true, p => None)
  }

  /** `f` without what is at `q` or below it. */
  function Without(f: Store, q: Option<Path>): Store {
    if q.None? then f else map r | r in f && !(q.value <= r) :: f[r]
  }

  /** Nothing is at `q` or below it in the store, and no file is in the tree. */
  predicate CanBeMissing(s: Store, f: Store, q: Option<Path>) {
    q.Some? ==> (forall r :: r in s ==> !(q.value <= r)) && forall r :: r in f && q.value <= r ==> f[r].Directory?
  }

  /** Without a parent, a tree of directories alone is not made, and nobody minds. */
  lemma {:induction false} NothingWithoutParent(q: Option<Path>, s: Store, t: Tree, p: Path)
    requires !HasParent(s, p) && p !in s && forall r :: r in s ==> !(p <= r)
    requires WellFormed(t) && Plain(t) && forall r :: r in Flatten(p, t) ==> Flatten(p, t)[r].Directory?
    ensures CopyTree(GrantingAllBut(q), s, t, p) == Outcome(s, true, 0)
    decreases t
  {
    assert p in Flatten(p, t);
    if t.Folder? {
      hide CopyAll, FlattenAll, Flatten;
      FolderContainsListing(p, t.listing);
      assert forall r :: r in FlattenAll(p, t.listing) ==> Flatten(p, t)[r] == FlattenAll(p, t.listing)[r];
      NothingWithoutDirectory(q, s, t.listing, p);
    }
  }

  lemma {:induction false} NothingWithoutDirectory(q: Option<Path>, s: Store, listing: seq<Child>, p: Path)
    requires forall r :: r in s ==> !(p <= r)
    requires AllWellFormed(listing) && AllPlain(listing)
    requires forall r :: r in FlattenAll(p, listing) ==> FlattenAll(p, listing)[r].Directory?
    ensures CopyAll(GrantingAllBut(q), s, listing, p) == Outcome(s, true, 0)
    decreases listing
  {
    hide CopyTree, Flatten, FlattenAll;
    if listing != [] {
      Split(p, listing);
      var child := p + [listing[0].name];
      if IsDot(listing[0].name) {
        NothingWithoutDirectory(q, s, listing[1..], p);
      } else {
        var f, g := Flatten(child, listing[0].tree), FlattenAll(p, listing[1..]);
        assert forall r :: r in f ==> (f + g)[r] == f[r];
        assert forall r :: r in g ==> (f + g)[r] == g[r];
        assert child[..|child| - 1] == p && p !in s && !HasParent(s, child);
        assert forall r :: r in s && child <= r ==> p <= r;
        NothingWithoutParent(q, s, listing[0].tree, child);
        NothingWithoutDirectory(q, s, listing[1..], p);
      }
    }
  }

  /** Everything is granted, but `q` perhaps is not made: the copy succeeds, and the destination is the tree laid over
      what was there, without `q`. */
  lemma {:induction false} GrantedCopy(s: Store, t: Tree, p: Path, q: Option<Path>)
    requires WellFormed(t) && Plain(t) && HasParent(s, p)
    requires NoClash(s, Flatten(p, t)) && CanBeMissing(s, Flatten(p, t), q)
    ensures var o := CopyTree(GrantingAllBut(q), s, t, p);
            o.ok && o.store == Overlay(s, Without(Flatten(p, t), q))
    decreases t
  {
    if t.Leaf? {
      GrantedLeaf(s, t.entry, p, q);
    } else {
      hide CopyAll, FlattenAll, Flatten;
      var listed := FlattenAll(p, t.listing);
      FolderContainsListing(p, t.listing);
      if q == Some(p) {
        assert forall r :: r in listed ==> Flatten(p, t)[r] == listed[r];
        forall r | r in listed ensures p <= r { FlattenAllIsBelow(p, t.listing, r); }
        NothingWithoutDirectory(q, s, t.listing, p);
        assert Without(Flatten(p, t), q) == map[];
        assert Overlay(s, map[]) == s;
      } else {
        FolderIsMade(s, p, q, listed);
        var made := MakeDirectory(GrantingAllBut(q), s, p);
        GrantedListing(made, t.listing, p, q);
        FolderOverlay(s, p, q, listed);
      }
    }
  }

  lemma GrantedLeaf(s: Store, entry: Entry, p: Path, q: Option<Path>)
    requires entry.RegularFile? && HasParent(s, p)
    requires NoClash(s, Flatten(p, Leaf(entry))) && CanBeMissing(s, Flatten(p, Leaf(entry)), q)
    ensures var o := CopyTree(GrantingAllBut(q), s, Leaf(entry), p);
            o.ok && o.store == Overlay(s, Without(Flatten(p, Leaf(entry)), q))
  {
    var f := Flatten(p, Leaf(entry));
    assert f == map[p := entry] && p in f;
    assert Without(f, q) == f;
  }

  lemma PrefixIsProper(q: Path, r: Path)
    ensures q <= r ==> q == r || (q < r && r != [] && q <= r[..|r| - 1])
  {
    if q <= r && |q| == |r| {
      assert q == r;
    }
  }

  /** The directory is made, or was there, and leaves room for its entries. */
  lemma FolderIsMade(s: Store, p: Path, q: Option<Path>, listed: Store)
    requires p !in listed && q != Some(p) && HasParent(s, p)
    requires NoClash(s, map[p := Directory] + listed) && CanBeMissing(s, map[p := Directory] + listed, q)
    ensures var made := MakeDirectory(GrantingAllBut(q), s, p);
            && made == Overlay(s, map[p := Directory])
            && IsDirectory(made, p) && NoClash(made, listed) && CanBeMissing(made, listed, q)
            && (q.Some? ==> !(q.value <= p))
  {
    var f := map[p := Directory] + listed;
    assert p in f && f[p] == Directory;
    assert forall r :: r in listed ==> r in f && f[r] == listed[r];
    if q.Some? && q.value <= p {
      PrefixIsProper(q.value, p);
    }
  }

  lemma FolderOverlay(s: Store, p: Path, q: Option<Path>, listed: Store)
    requires p !in listed && (q.Some? ==> !(q.value <= p))
    ensures Overlay(Overlay(s, map[p := Directory]), Without(listed, q))
         == Overlay(s, Without(map[p := Directory] + listed, q))
  {
    hide Overlay;
    OverlayTwice(s, map[p := Directory], Without(listed, q));
    assert map[p := Directory] + Without(listed, q) == Without(map[p := Directory] + listed, q);
  }

  lemma {:induction false} GrantedListing(s: Store, listing: seq<Child>, p: Path, q: Option<Path>)
    requires AllWellFormed(listing) && AllPlain(listing) && IsDirectory(s, p)
    requires NoClash(s, FlattenAll(p, listing)) && CanBeMissing(s, FlattenAll(p, listing), q)
    ensures var o := CopyAll(GrantingAllBut(q), s, listing, p);
            o.ok && o.store == Overlay(s, Without(FlattenAll(p, listing), q))
    decreases listing
  {
    hide CopyTree, Flatten, FlattenAll, NoClash, CanBeMissing, Overlay, Without;
    if listing == [] {
      EmptyOverlay(s, p, q);
    } else {
      Split(p, listing);
      if IsDot(listing[0].name) {
        GrantedListing(s, listing[1..], p, q);
      } else {
        var child := p + [listing[0].name];
        var f, g := Flatten(child, listing[0].tree), FlattenAll(p, listing[1..]);
        assert child[..|child| - 1] == p;
        FirstFits(s, p, f, g, q);
        GrantedCopy(s, listing[0].tree, child, q);
        RestFits(s, p, f, g, q);
        GrantedListing(Overlay(s, Without(f, q)), listing[1..], p, q);
      }
    }
  }

  lemma EmptyOverlay(s: Store, p: Path, q: Option<Path>)
    ensures Overlay(s, Without(FlattenAll(p, []), q)) == s
  {
    assert Without(FlattenAll(p, []), q) == map[];
  }

  lemma FirstFits(s: Store, p: Path, f: Store, g: Store, q: Option<Path>)
    requires f.Keys !! g.Keys && NoClash(s, f + g) && CanBeMissing(s, f + g, q)
    ensures NoClash(s, f) && CanBeMissing(s, f, q)
  {
    assert forall r :: r in f ==> r in f + g && (f + g)[r] == f[r];
  }

  lemma RestFits(s: Store, p: Path, f: Store, g: Store, q: Option<Path>)
    requires f.Keys !! g.Keys && p !in f && IsDirectory(s, p) && NoClash(s, f + g) && CanBeMissing(s, f + g, q)
    ensures var next := Overlay(s, Without(f, q));
            && IsDirectory(next, p) && NoClash(next, g) && CanBeMissing(next, g, q)
            && Overlay(next, Without(g, q)) == Overlay(s, Without(f + g, q))
  {
    var next := Overlay(s, Without(f, q));
    assert forall r :: r in g ==> r in f + g && (f + g)[r] == g[r];
    assert forall r :: r in g && r in next ==> r !in f && r in s && next[r] == s[r];
    assert Without(f, q) + Without(g, q) == Without(f + g, q);
    OverlayTwice(s, Without(f, q), Without(g, q));
  }

  /** Where everything is granted, the destination is the tree laid over what was there. */
  lemma CopyGranted(s: Store, t: Tree, p: Path)
    requires WellFormed(t) && Plain(t) && HasParent(s, p) && NoClash(s, Flatten(p, t))
    ensures CopyTree(GrantingAllBut(None), s, t, p)
         == Outcome(Overlay(s, Flatten(p, t)), true, TotalBytes(t))
  {
    GrantedCopy(s, t, p, None);
    CopyIsConfined(GrantingAllBut(None), s, t, p);
  }

  /** A directory that is not there yet and has no file below it is missing after a copy that nevertheless succeeds,
      if making it is refused. */
  lemma EmptyDirectoryCanBeMissing(s: Store, t: Tree, p: Path, q: Path)
    requires WellFormed(t) && Plain(t) && IsClosed(s) && HasParent(s, p) && NoClash(s, Flatten(p, t))
    requires q in Flatten(p, t) && Flatten(p, t)[q].Directory? && q !in s && !HasFileBelow(Flatten(p, t), q)
    ensures var o := CopyTree(GrantingAllBut(Some(q)), s, t, p); o.ok && q !in o.store
  {
    hide Flatten, CopyTree, IsClosed, NoClash;
    var f := Flatten(p, t);
    forall r | r in s ensures !(q <= r) {
      PrefixIsProper(q, r);
      if q < r { AboveIsDirectory(s, q, r); }
    }
    PlainTreesHaveNoMore(p, t);
    forall r | r in f && q <= r ensures f[r].Directory? {
      PrefixIsProper(q, r);
    }
    GrantedCopy(s, t, p, Some(q));
    assert q !in Without(f, Some(q));
  }

  lemma {:induction false} PlainTreesHaveNoMore(p: Path, t: Tree)
    requires WellFormed(t) && Plain(t)
    ensures forall r :: r in Flatten(p, t) ==> Flatten(p, t)[r].Directory? || Flatten(p, t)[r].RegularFile?
    decreases t
  {
    if t.Folder? { PlainListingsHaveNoMore(p, t.listing); }
  }

  lemma {:induction false} PlainListingsHaveNoMore(p: Path, listing: seq<Child>)
    requires AllWellFormed(listing) && AllPlain(listing)
    ensures forall r :: r in FlattenAll(p, listing)
              ==> FlattenAll(p, listing)[r].Directory? || FlattenAll(p, listing)[r].RegularFile?
    decreases listing
  {
    if listing != [] {
      if !IsDot(listing[0].name) { PlainTreesHaveNoMore(p + [listing[0].name], listing[0].tree); }
      PlainListingsHaveNoMore(p, listing[1..]);
    }
  }

  /** Success guarantees every directory of the tree exactly when each of them is there already or has a file below. */
  lemma SuccessMeansAllDirectories(s: Store, t: Tree, p: Path)
    requires WellFormed(t) && Plain(t) && IsClosed(s) && HasParent(s, p) && NoClash(s, Flatten(p, t))
    ensures (forall a :: CopyTree(a, s, t, p).ok ==> DirectoriesArrived(CopyTree(a, s, t, p).store, Flatten(p, t)))
       <==> forall q :: q in Flatten(p, t) && Flatten(p, t)[q].Directory? ==> q in s || HasFileBelow(Flatten(p, t), q)
  {
    hide Flatten, CopyTree, IsClosed, HasFileBelow, NoClash;
    var f := Flatten(p, t);
    if forall q :: q in f && f[q].Directory? ==> q in s || HasFileBelow(f, q) {
      forall a, q | CopyTree(a, s, t, p).ok && q in f && f[q].Directory?
        ensures IsDirectory(CopyTree(a, s, t, p).store, q)
      {
        DirectoryArrives(a, s, t, p, q);
      }
    } else {
      var q :| q in f && f[q].Directory? && q !in s && !HasFileBelow(f, q);
      EmptyDirectoryCanBeMissing(s, t, p, q);
      assert !DirectoriesArrived(CopyTree(GrantingAllBut(Some(q)), s, t, p).store, f);
    }
  }

  lemma DirectoryArrives(a: Answers, s: Store, t: Tree, p: Path, q: Path)
    requires WellFormed(t) && Plain(t) && IsClosed(s) && NoClash(s, Flatten(p, t)) && CopyTree(a, s, t, p).ok
    requires q in Flatten(p, t) && Flatten(p, t)[q].Directory? && (q in s || HasFileBelow(Flatten(p, t), q))
    ensures IsDirectory(CopyTree(a, s, t, p).store, q)
  {
    hide Flatten, CopyTree, IsClosed, HasFileBelow;
    if HasFileBelow(Flatten(p, t), q) {
      DirectoriesOfFilesArrive(a, s, t, p, q);
    } else {
      CopyIsConfined(a, s, t, p);
    }
  }
}
