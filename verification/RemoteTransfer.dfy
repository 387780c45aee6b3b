/** The server-to-server copy as it runs: the destination, the running counter and the progress reports. */
module RemoteTransfer {
  import opened Wrappers
  import opened FileTree
  import opened RemoteCopy
  import opened RemoteSize

  /** The reports sent so far never go back and never run ahead of `transferred`. */
  predicate Orderly(reports: seq<nat>, transferred: nat) {
    && (forall i :: 0 <= i < |reports| ==> reports[i] <= transferred)
    && (forall i, j :: 0 <= i <= j < |reports| ==> reports[i] <= reports[j])
  }

  class Transfer {
    var store: Store
    var transferred: nat
    var reports: seq<nat>

    predicate Valid()
      reads this
    {
      Orderly(reports, transferred)
    }

    method Report()
      requires Valid()
      modifies this`reports
      ensures Valid() && old(reports) <= reports
    {
      reports := reports + [transferred];
    }

    method CreateDirectory(a: Answers, p: Path)
      modifies this`store
      ensures store == MakeDirectory(a, old(store), p)
    {
      if a.makes(p) && p !in store && HasParent(store, p) {
        store := store[p := Directory];
      }
    }

    /** Writes the next bytes of a file. */
    method WriteChunk(data: Bytes, p: Path, sent: nat, chunk: nat)
      requires Valid() && sent + chunk <= |data|
      modifies this
      ensures Valid() && old(reports) <= reports
      ensures store == old(store)[p := RegularFile(data[..sent + chunk])] && transferred == old(transferred) + chunk
    {
      store := store[p := RegularFile(data[..sent + chunk])];
      transferred := transferred + chunk;
      var due: bool := *;
      if due { Report(); }
    }

    /** The chunk loop of a file, reported whenever the timer has run out, and once more at the end. */
    method CopyFile(a: Answers, data: Bytes, p: Path) returns (ok: bool)
      requires Valid()
      modifies this
      ensures Valid() && old(reports) <= reports
      ensures var o := CopyLeaf(a, old(store), data, p);
              store == o.store && ok == o.ok && transferred == old(transferred) + o.moved
    {
      if IsDirectory(store, p) || !HasParent(store, p) || !a.opens(p) { return false; }
      var stop := a.stopsAfter(p);
      var limit := if stop.Some? && stop.value < |data| then stop.value else |data|;
      store := store[p := RegularFile([])];
      var sent := 0;
      while sent < limit
        invariant sent <= limit <= |data|
        invariant Valid() && old(reports) <= reports
        invariant store == old(store)[p := RegularFile(data[..sent])]
        invariant transferred == old(transferred) + sent
      {
        var n: nat := *;
        var chunk := if 0 < n <= limit - sent && n <= 4194304 then n else 1;
        WriteChunk(data, p, sent, chunk);
        sent := sent + chunk;
      }
      assert data[..|data|] == data;
      if stop.Some? { return false; }
      Report();
      return true;
    }

    /** `copy_recursive_optimized`. */
    method CopyRecursive(a: Answers, tree: Tree, p: Path) returns (ok: bool)
      requires Valid()
      modifies this
      ensures Valid() && old(reports) <= reports
      ensures var o := CopyTree(a, old(store), tree, p);
              store == o.store && ok == o.ok && transferred == old(transferred) + o.moved
      decreases tree
    {
      hide CopyLeaf, CopyAll, MakeDirectory;
      if !a.starts(p) { return false; }
      match tree
      case Leaf(entry) =>
        ok := CopyFile(a, DataOf(entry), p);
      case Folder(listing) =>
        CreateDirectory(a, p);
        if !a.lists(p) { return false; }
        ok := CopyListing(a, listing, p);
    }

    /** The loop over the entries of a directory. */
    method CopyListing(a: Answers, listing: seq<Child>, p: Path) returns (ok: bool)
      requires Valid()
      modifies this
      ensures Valid() && old(reports) <= reports
      ensures var o := CopyAll(a, old(store), listing, p);
              store == o.store && ok == o.ok && transferred == old(transferred) + o.moved
      decreases listing
    {
      hide CopyTree;
      assert listing[0..] == listing;
      var i := 0;
      while i < |listing|
        invariant i <= |listing|
        invariant Valid() && old(reports) <= reports
        invariant var rest, all := CopyAll(a, store, listing[i..], p), CopyAll(a, old(store), listing, p);
                  && rest.store == all.store && rest.ok == all.ok
                  && transferred + rest.moved == old(transferred) + all.moved
      {
        assert listing[i..][0] == listing[i] && listing[i..][1..] == listing[i + 1..];
        if !IsDot(listing[i].name) {
          ok := CopyRecursive(a, listing[i].tree, p + [listing[i].name]);
          if !ok { return; }
        }
        i := i + 1;
      }
      assert listing[i..] == [];
      ok := true;
    }
  }

  /** The body of a server-to-server copy: the size first, then the copy. When the source had no errors while it was
      measured, no report runs ahead of the announced total, and a finished copy has moved exactly the measured
      bytes. */
  method CopyToServer(t: Transfer, a: Answers, server: Server, src: Path, tree: Tree, dst: Path, cancelled: bool)
    returns (ok: bool, total: nat)
    requires t.reports == [] && t.transferred == 0 && WellFormed(tree) && Plain(tree)
    modifies t
    ensures total > 0 && (NoErrors(server) && TotalBytes(tree) > 0 ==> total == TotalBytes(tree))
    ensures forall i :: 0 <= i < |t.reports| ==> NoErrors(server) ==> t.reports[i] <= total
    ensures Orderly(t.reports, t.transferred)
    ensures ok ==> !cancelled && t.transferred == TotalBytes(tree)
    ensures cancelled ==> t.store == old(t.store)
    ensures !cancelled ==> t.store == CopyTree(a, old(t.store), tree, dst).store
                           && ok == CopyTree(a, old(t.store), tree, dst).ok
  {
    hide CopyTree;
    total := GetRemoteSize(server, src, tree);
    CountsAtMostAll(server, src, tree);
    if total == 0 { total := 1; }
    t.Report();
    if cancelled { return false, total; }
    CopyIsConfined(a, t.store, tree, dst);
    ok := t.CopyRecursive(a, tree, dst);
  }
}
