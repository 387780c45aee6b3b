/** Deleting on a remote server, recursively. */
module RemoteDelete {
  import opened Wrappers
  import opened FileTree

  /** At `p` and below it stands `f`. */
  ghost predicate Stands(s: Store, p: Path, f: Store) {
    forall q :: p <= q ==> (q in s <==> q in f) && (q in s ==> s[q] == f[q])
  }

  /** The store without anything at `p` or below it. */
  function Without(s: Store, p: Path): Store {
    map q | q in s && !(p <= q) :: s[q]
  }

  /** The store without anything strictly below `p`. */
  function Emptied(s: Store, p: Path): Store {
    map q | q in s && !(p < q) :: s[q]
  }

  /** `now` is `was` with only things strictly below `p` missing. */
  predicate RemovedBelow(was: Store, now: Store, p: Path) {
    && (forall q :: q in now ==> q in was && now[q] == was[q])
    && (forall q :: q in was && !(p < q) ==> q in now)
  }

  /** The place that `p` leads to when links are followed, if there is something. A link is taken to lead to its final
      place. */
  function Followed(s: Store, p: Path): Option<Path> {
    if p !in s then None
    else if s[p].Symlink? then if s[p].to in s && !s[s[p].to].Symlink? then Some(s[p].to) else None
    else Some(p)
  }

  predicate LeadsToDirectory(s: Store, p: Path) {
    Followed(s, p).Some? && s[Followed(s, p).value] == Directory
  }

  /** Something that is there and is a directory or a file, or a link to something there that is neither a link nor a
      directory. */
  predicate IsDeletable(s: Store, p: Path) {
    && p in s
    && (s[p].Symlink? ==> s[p].to in s && s[s[p].to] != Directory && !s[s[p].to].Symlink?)
  }

  /** What deleting `p` comes to when the server refuses nothing: the store, and whether the call reports success. */
  function Deleted(s: Store, p: Path): (Store, bool) {
    if Followed(s, p).None? then (s, false)
    else if !LeadsToDirectory(s, p) then (s - {p}, true)
    else if s[p].Symlink? then (Emptied(s, s[p].to), false)
    else (Without(s, p), true)
  }

  /** Deleting touches nothing outside `p` exactly when `p` is not a link to a directory with something in it. */
  lemma DeletesOnlyItsOwnSubtree(s: Store, p: Path)
    requires p in s && s[p].Symlink? ==> forall q :: q in s ==> !(p < q)
    ensures (forall q :: q in s && !(p <= q) ==> q in Deleted(s, p).0 && Deleted(s, p).0[q] == s[q])
       <==> !(&& p in s && s[p].Symlink? && s[p].to in s && s[s[p].to] == Directory
              && exists q :: q in s && s[p].to < q && q != p)
  {
    if p in s && s[p].Symlink? && LeadsToDirectory(s, p) {
      if q :| q in s && s[p].to < q && q != p {
        assert !(p <= q) && q !in Deleted(s, p).0;
      }
    }
  }

  /** The files of the server. */
  class Server {
    var store: Store
    ghost var refused: bool

    method Attempt() returns (ok: bool)
      modifies this`refused
      ensures refused == (old(refused) || !ok)
    {
      ok := *;
      refused := refused || !ok;
    }

    /** `remove_file`: links are removed themselves. */
    method RemoveFile(p: Path) returns (ok: bool)
      requires p in store && store[p] != Directory
      modifies this
      ensures store == (if ok then old(store) - {p} else old(store)) && refused == (old(refused) || !ok)
    {
      ok := Attempt();
      if ok { store := store - {p}; }
    }

    /** `remove_dir`, only ever called on a directory that is empty. */
    method RemoveDir(p: Path) returns (ok: bool)
      requires p in store && store[p] == Directory && forall q :: q in store ==> !(p < q)
      modifies this
      ensures store == (if ok then old(store) - {p} else old(store)) && refused == (old(refused) || !ok)
    {
      ok := Attempt();
      if ok { store := store - {p}; }
    }
  }

  // ----- One entry after the other -----

  /** Where a place below the directory `p` can come from. */
  lemma ListedAt(p: Path, listing: seq<Child>, q: Path)
    requires listing != [] && AllWellFormed(listing) && !IsDot(listing[0].name)
    ensures var child := p + [listing[0].name];
            var first, rest := Flatten(child, listing[0].tree), FlattenAll(p, listing[1..]);
            && (q in first ==> child <= q && q != p && q !in rest)
            && (q in rest ==> !(child <= q) && q != p)
            && (q in FlattenAll(p, listing) <==> q in first || q in rest)
            && (q in first ==> FlattenAll(p, listing)[q] == first[q])
            && (q in rest ==> FlattenAll(p, listing)[q] == rest[q])
  {
    ListedAreDisjoint(p, listing);
    var child := p + [listing[0].name];
    if q in Flatten(child, listing[0].tree) {
      FlattenIsBelow(child, listing[0].tree, q);
    }
    if q in FlattenAll(p, listing[1..]) {
      FlattenAllIsBelow(p, listing[1..], q);
      assert child[|p|] == listing[0].name;
    }
  }

  /** The first entry stands where it should, and when it is gone the rest of the listing describes the directory. */
  lemma FirstOfListing(s: Store, p: Path, listing: seq<Child>)
    requires listing != [] && AllWellFormed(listing) && !IsDot(listing[0].name)
    requires Stands(s, p, Flatten(p, Folder(listing)))
    ensures Stands(s, p + [listing[0].name], Flatten(p + [listing[0].name], listing[0].tree))
    ensures Stands(Without(s, p + [listing[0].name]), p, Flatten(p, Folder(listing[1..])))
  {
    var child := p + [listing[0].name];
    forall q | p <= q
      ensures child <= q ==> (q in s <==> q in Flatten(child, listing[0].tree))
      ensures child <= q && q in s ==> s[q] == Flatten(child, listing[0].tree)[q]
      ensures !(child <= q) ==> (q in s <==> q in Flatten(p, Folder(listing[1..])))
      ensures !(child <= q) && q in s ==> s[q] == Flatten(p, Folder(listing[1..]))[q]
      ensures child <= q ==> q !in Flatten(p, Folder(listing[1..]))
    {
      ListedAt(p, listing, q);
    }
  }

  lemma SkipDot(s: Store, p: Path, listing: seq<Child>)
    requires listing != [] && AllWellFormed(listing)
    ensures AllWellFormed(listing[1..])
    ensures !IsDot(listing[0].name) ==> WellFormed(listing[0].tree)
    ensures IsDot(listing[0].name) ==> Flatten(p, Folder(listing)) == Flatten(p, Folder(listing[1..]))
  {
  }

  lemma RemovedTwice(a: Store, b: Store, c: Store, p: Path)
    requires RemovedBelow(a, b, p) && RemovedBelow(b, c, p)
    ensures RemovedBelow(a, c, p)
  {
  }

  lemma RemovedChild(was: Store, now: Store, p: Path, name: Name)
    requires RemovedBelow(was, now, p + [name]) || now == was - {p + [name]} || now == Without(was, p + [name])
    ensures RemovedBelow(was, now, p)
  {
  }

  lemma AllRemoved(was: Store, now: Store, p: Path)
    requires RemovedBelow(was, now, p) && Stands(now, p, Flatten(p, Folder([])))
    ensures now == Emptied(was, p)
    ensures p in now && now[p] == Directory && forall q :: q in now ==> !(p < q)
    ensures now - {p} == Without(was, p)
  {
    assert Flatten(p, Folder([])) == map[p := Directory];
  }

  /** Deletes the entries of the directory at `p`; `listing` is what reading it reports. */
  method DeleteListing(server: Server, p: Path, listing: seq<Child>) returns (ok: bool)
    requires AllWellFormed(listing) && Stands(server.store, p, Flatten(p, Folder(listing)))
    modifies server
    ensures RemovedBelow(old(server.store), server.store, p)
    ensures ok ==> Stands(server.store, p, Flatten(p, Folder([])))
    ensures (old(server.refused) || !ok) ==> server.refused
    ensures !server.refused ==> ok
    decreases listing
  {
    hide *;
    ghost var was := server.store;
    RemovedNothing(was, p);
    assert listing[0..] == listing;
    var i := 0;
    while i < |listing|
      invariant i <= |listing|
      invariant AllWellFormed(listing[i..])
      invariant Stands(server.store, p, Flatten(p, Folder(listing[i..])))
      invariant RemovedBelow(was, server.store, p)
      invariant old(server.refused) ==> server.refused
    {
      assert listing[i..][0] == listing[i] && listing[i..][1..] == listing[i + 1..];
      var entry := listing[i];
      SkipDot(server.store, p, listing[i..]);
      if !IsDot(entry.name) {
        FirstOfListing(server.store, p, listing[i..]);
        ghost var before := server.store;
        ok := DeleteEntry(server, p + [entry.name], entry.tree);
        RemovedChild(before, server.store, p, entry.name);
        RemovedTwice(was, before, server.store, p);
        if !ok { return; }
      }
      i := i + 1;
    }
    assert listing[i..] == [];
    ok := true;
  }

  lemma RemovedNothing(s: Store, p: Path)
    ensures RemovedBelow(s, s, p)
  {
  }

  /** One entry: a directory that is no link is emptied and removed, anything else is removed as a file. */
  method DeleteEntry(server: Server, p: Path, t: Tree) returns (ok: bool)
    requires WellFormed(t) && Stands(server.store, p, Flatten(p, t))
    modifies server
    ensures RemovedBelow(old(server.store), server.store, p) || server.store == Without(old(server.store), p)
    ensures ok ==> server.store == Without(old(server.store), p)
    ensures (old(server.refused) || !ok) ==> server.refused
    decreases t
  {
    ghost var was := server.store;
    if t.Folder? {
      hide Stands, Flatten, RemovedBelow, Without;
      ok := DeleteListing(server, p, t.listing);
      if !ok { return; }
      AllRemoved(was, server.store, p);
      ok := server.RemoveDir(p);
    } else {
      LeafStandsAlone(was, p, t.entry);
      ok := server.RemoveFile(p);
    }
  }

  lemma LeafStandsAlone(s: Store, p: Path, entry: Entry)
    requires Stands(s, p, Flatten(p, Leaf(entry)))
    ensures p in s && s[p] == entry && s - {p} == Without(s, p)
  {
    assert Flatten(p, Leaf(entry)) == map[p := entry];
  }

  lemma FolderStandsAsDirectory(s: Store, p: Path, listing: seq<Child>)
    requires Stands(s, p, Flatten(p, Folder(listing)))
    ensures p in s && s[p] == Directory
  {
    if p in FlattenAll(p, listing) {
      FlattenAllIsBelow(p, listing, p);
    }
    assert p <= p;
  }

  /** `delete_remote`; `t` is what stands at the place that `p` leads to, with its listings. */
  method DeleteRemote(server: Server, p: Path, t: Tree) returns (ok: bool)
    requires WellFormed(t)
    requires Followed(server.store, p).Some?
             ==> Stands(server.store, Followed(server.store, p).value, Flatten(Followed(server.store, p).value, t))
    modifies server
    ensures old(server.refused) ==> server.refused
    ensures !server.refused ==> (server.store, ok) == Deleted(old(server.store), p)
    ensures ok ==> server.store == Deleted(old(server.store), p).0 && Deleted(old(server.store), p).1
    ensures ok && p in old(server.store) && old(server.store)[p] == Directory
            ==> forall q :: q in server.store <==> q in old(server.store) && !(p <= q)
    ensures ok && !(p in old(server.store) && old(server.store)[p] == Directory)
            ==> p in old(server.store) && server.store == old(server.store) - {p}
    ensures !server.refused ==> (ok <==> IsDeletable(old(server.store), p))
    ensures forall q :: q in server.store ==> q in old(server.store) && server.store[q] == old(server.store)[q]
    ensures forall q :: q in old(server.store) && q in Deleted(old(server.store), p).0 ==> q in server.store
  {
    ok := server.Attempt();
    if !ok { return; }
    var at := Followed(server.store, p);
    if at.None? { return false; }
    ghost var was := server.store;
    var isLink := server.store[p].Symlink?;
    if t.Folder? {
      FolderStandsAsDirectory(was, at.value, t.listing);
      ok := DeleteListing(server, at.value, t.listing);
      if !ok { return; }
      AllRemoved(was, server.store, at.value);
      if isLink { return false; }  // the server does not remove a link as a directory
      ok := server.RemoveDir(p);
    } else {
      ok := server.RemoveFile(p);
    }
  }
}
