/**
  The size of a remote tree, computed with a worklist. The tree is the one that looking up each
  path reports: a link to a file is that file, and a link to a directory that directory.
 */
module RemoteSize {
  import opened FileTree

  function Length(entry: Entry): nat {
    if entry.RegularFile? then |entry.data| else 0
  }

  /** All bytes in the files of a tree. */
  function TotalBytes(t: Tree): nat {
    match t
    case Leaf(entry) => Length(entry)
    case Folder(listing) => TotalOfAll(listing)
  }

  function TotalOfAll(listing: seq<Child>): nat {
    if listing == [] then 0
    else (if IsDot(listing[0].name) then 0 else TotalBytes(listing[0].tree)) + TotalOfAll(listing[1..])
  }

  /** Which paths the server reports on and which directories it lists. */
  datatype Server = Server(canStat: Path -> bool, canList: Path -> bool)

  /** What there is to count from `p` on, once `p` has been looked up. */
  function Counted(server: Server, p: Path, t: Tree): nat
    decreases t, 0
  {
    match t
    case Leaf(entry) => Length(entry)
    case Folder(listing) => if server.canList(p) then CountedAll(server, p, listing) else 0
  }

  function CountedAll(server: Server, p: Path, listing: seq<Child>): nat
    decreases listing
  {
    if listing == [] then 0
    else CountedChild(server, p, listing[0]) + CountedAll(server, p, listing[1..])
  }

  function CountedChild(server: Server, p: Path, child: Child): nat
    decreases child.tree, 1
  {
    if IsDot(child.name) || !server.canStat(p + [child.name]) then 0
    else Counted(server, p + [child.name], child.tree)
  }

  /** A directory still to be visited. */
  datatype Pending = Pending(path: Path, listing: seq<Child>)

  function CountedPending(server: Server, queue: seq<Pending>): nat {
    if queue == [] then 0
    else
      var last := queue[|queue| - 1];
      CountedPending(server, queue[..|queue| - 1]) + Counted(server, last.path, Folder(last.listing))
  }

  /** How many directories and files there are in a tree, itself included. */
  function Nodes(t: Tree): nat {
    match t
    case Leaf(_) => 1
    case Folder(listing) => 1 + NodesOfAll(listing)
  }

  function NodesOfAll(listing: seq<Child>): nat {
    if listing == [] then 0 else Nodes(listing[0].tree) + NodesOfAll(listing[1..])
  }

  function NodesPending(queue: seq<Pending>): nat {
    if queue == [] then 0 else NodesPending(queue[..|queue| - 1]) + Nodes(Folder(queue[|queue| - 1].listing))
  }

  lemma Popped(server: Server, queue: seq<Pending>)
    requires queue != []
    ensures var last := queue[|queue| - 1];
            && CountedPending(server, queue) == CountedPending(server, queue[..|queue| - 1])
                                                + Counted(server, last.path, Folder(last.listing))
            && NodesPending(queue) == NodesPending(queue[..|queue| - 1]) + 1 + NodesOfAll(last.listing)
  {
  }

  lemma Pushed(server: Server, queue: seq<Pending>, next: Pending)
    ensures CountedPending(server, queue + [next])
         == CountedPending(server, queue) + Counted(server, next.path, Folder(next.listing))
    ensures NodesPending(queue + [next]) == NodesPending(queue) + 1 + NodesOfAll(next.listing)
  {
    assert (queue + [next])[..|queue|] == queue;
  }

  /** `get_remote_size`: the last directory found is visited next; what cannot be looked up or listed counts nothing. */
  method GetRemoteSize(server: Server, path: Path, t: Tree) returns (total: nat)
    ensures total == if server.canStat(path) then Counted(server, path, t) else 0
  {
    if !server.canStat(path) { return 0; }
    if t.Leaf? { return Length(t.entry); }
    total := 0;
    var queue := [Pending(path, t.listing)];
    assert queue[..0] == [];
    while queue != []
      invariant total + CountedPending(server, queue) == Counted(server, path, t)
      decreases NodesPending(queue)
    {
      var current := queue[|queue| - 1];
      Popped(server, queue);
      ghost var weight := NodesPending(queue);
      queue := queue[..|queue| - 1];
      if server.canList(current.path) {
        total, queue := VisitListing(server, current, total, queue);
      }
    }
  }

  /** One directory: files are added up and directories queued. */
  method VisitListing(server: Server, current: Pending, total: nat, queue: seq<Pending>)
    returns (total': nat, queue': seq<Pending>)
    ensures total' + CountedPending(server, queue')
         == total + CountedPending(server, queue) + CountedAll(server, current.path, current.listing)
    ensures NodesPending(queue') <= NodesPending(queue) + NodesOfAll(current.listing)
  {
    hide CountedPending, NodesPending;
    total', queue' := total, queue;
    var listing := current.listing;
    assert listing[0..] == listing;
    for i := 0 to |listing|
      invariant total' + CountedPending(server, queue') + CountedAll(server, current.path, listing[i..])
             == total + CountedPending(server, queue) + CountedAll(server, current.path, listing)
      invariant NodesPending(queue') + NodesOfAll(listing[i..]) <= NodesPending(queue) + NodesOfAll(listing)
    {
      var entry := listing[i];
      assert listing[i..][0] == entry && listing[i..][1..] == listing[i + 1..];
      assert CountedAll(server, current.path, listing[i..])
          == CountedChild(server, current.path, entry) + CountedAll(server, current.path, listing[i + 1..]);
      if IsDot(entry.name) { continue; }
      var next := current.path + [entry.name];
      if server.canStat(next) {
        match entry.tree
        case Folder(below) =>
          Pushed(server, queue', Pending(next, below));
          queue' := queue' + [Pending(next, below)];
        case Leaf(file) =>
          total' := total' + Length(file);
      }
    }
    assert listing[|listing|..] == [];
  }

  /** Errors only make the size smaller, and without errors it is the sum of all files. */
  lemma {:induction false} CountsAtMostAll(server: Server, p: Path, t: Tree)
    ensures Counted(server, p, t) <= TotalBytes(t)
    ensures NoErrors(server) ==> Counted(server, p, t) == TotalBytes(t)
    decreases t
  {
    if t.Folder? {
      CountsAtMostAllOf(server, p, t.listing);
    }
  }

  ghost predicate NoErrors(server: Server) {
    forall p :: server.canStat(p) && server.canList(p)
  }

  lemma {:induction false} CountsAtMostAllOf(server: Server, p: Path, listing: seq<Child>)
    ensures CountedAll(server, p, listing) <= TotalOfAll(listing)
    ensures NoErrors(server) ==> CountedAll(server, p, listing) == TotalOfAll(listing)
    decreases listing
  {
    if listing != [] {
      CountsAtMostAll(server, p + [listing[0].name], listing[0].tree);
      CountsAtMostAllOf(server, p, listing[1..]);
    }
  }

  // ----- File by file -----

  datatype File = File(path: Path, size: nat)

  /** The files of a tree with their paths, in the order in which they are listed. */
  function Files(p: Path, t: Tree): seq<File>
    decreases t
  {
    match t
    case Leaf(entry) => [File(p, Length(entry))]
    case Folder(listing) => FilesOfAll(p, listing)
  }

  function FilesOfAll(p: Path, listing: seq<Child>): seq<File>
    decreases listing
  {
    if listing == [] then []
    else
      (if IsDot(listing[0].name) then [] else Files(p + [listing[0].name], listing[0].tree))
      + FilesOfAll(p, listing[1..])
  }

  /** All directories from `p` on to `q` can be listed, and what they list on the way can be looked up. */
  ghost predicate IsReached(server: Server, p: Path, q: Path) {
    && (forall i :: |p| <= i < |q| ==> server.canList(q[..i]))
    && (forall i :: |p| < i <= |q| ==> server.canStat(q[..i]))
  }

  ghost function SizeReached(server: Server, p: Path, files: seq<File>): nat {
    if files == [] then 0
    else
      (if IsReached(server, p, files[0].path) then files[0].size else 0) + SizeReached(server, p, files[1..])
  }

  lemma {:induction false} SizeOfBoth(server: Server, p: Path, a: seq<File>, b: seq<File>)
    ensures SizeReached(server, p, a + b) == SizeReached(server, p, a) + SizeReached(server, p, b)
  {
    if a == [] {
      assert a + b == b;
    } else {
      assert (a + b)[1..] == a[1..] + b;
      SizeOfBoth(server, p, a[1..], b);
    }
  }

  lemma {:induction false} FilesAreBelow(p: Path, t: Tree)
    ensures forall i :: 0 <= i < |Files(p, t)| ==> p <= Files(p, t)[i].path
    decreases t
  {
    if t.Folder? { FilesOfAllAreBelow(p, t.listing); }
  }

  lemma {:induction false} FilesOfAllAreBelow(p: Path, listing: seq<Child>)
    ensures forall i :: 0 <= i < |FilesOfAll(p, listing)| ==> p < FilesOfAll(p, listing)[i].path
    decreases listing
  {
    if listing != [] {
      FilesAreBelow(p + [listing[0].name], listing[0].tree);
      FilesOfAllAreBelow(p, listing[1..]);
    }
  }

  lemma ReachedFromAbove(server: Server, p: Path, name: Name, q: Path)
    requires p + [name] <= q
    ensures IsReached(server, p, q)
            <==> server.canList(p) && server.canStat(p + [name]) && IsReached(server, p + [name], q)
  {
    var n := |p|;
    assert q[..n] == p && q[..n + 1] == p + [name];
  }

  lemma {:induction false} SizeFromAbove(server: Server, p: Path, name: Name, files: seq<File>)
    requires forall i :: 0 <= i < |files| ==> p + [name] <= files[i].path
    ensures SizeReached(server, p, files)
         == if server.canList(p) && server.canStat(p + [name]) then SizeReached(server, p + [name], files) else 0
  {
    if files != [] {
      ReachedFromAbove(server, p, name, files[0].path);
      SizeFromAbove(server, p, name, files[1..]);
    }
  }

  /** What is counted is the sum over exactly the files that can be reached. */
  lemma {:induction false} CountsTheReached(server: Server, p: Path, t: Tree)
    ensures Counted(server, p, t) == SizeReached(server, p, Files(p, t))
    decreases t
  {
    if t.Folder? {
      CountsTheReachedOfAll(server, p, t.listing);
    }
  }

  lemma {:induction false} CountsTheReachedOfAll(server: Server, p: Path, listing: seq<Child>)
    ensures SizeReached(server, p, FilesOfAll(p, listing))
         == if server.canList(p) then CountedAll(server, p, listing) else 0
    decreases listing
  {
    if listing != [] {
      var child, tree := p + [listing[0].name], listing[0].tree;
      CountsTheReachedOfAll(server, p, listing[1..]);
      if !IsDot(listing[0].name) {
        SizeOfBoth(server, p, Files(child, tree), FilesOfAll(p, listing[1..]));
        FilesAreBelow(child, tree);
        SizeFromAbove(server, p, listing[0].name, Files(child, tree));
        CountsTheReached(server, child, tree);
        assert FilesOfAll(p, listing) == Files(child, tree) + FilesOfAll(p, listing[1..]);
      } else {
        assert FilesOfAll(p, listing) == FilesOfAll(p, listing[1..]);
      }
    }
  }
}
