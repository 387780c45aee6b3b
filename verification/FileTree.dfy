/**
  Files and directories by path, and directory trees in the order in which they are listed.
 */
module FileTree {

  type Name = string
  type Path = seq<Name>
  type Bytes = seq<int>

  datatype Entry = Directory | RegularFile(data: Bytes) | Symlink(to: Path) | Device

  /** What is where. */
  type Store = map<Path, Entry>

  /** `listing` is what reading the directory reports, in order; a server may list "." and ".." too. */
  datatype Tree = Leaf(entry: Entry) | Folder(listing: seq<Child>)
  datatype Child = Child(name: Name, tree: Tree)

  predicate IsDot(name: Name) {
    name == "." || name == ".."
  }

  predicate WellFormed(t: Tree) {
    match t
    case Leaf(entry) => entry != Directory
    case Folder(listing) => AllWellFormed(listing)
  }

  predicate AllWellFormed(listing: seq<Child>) {
    listing != [] ==>
      && (IsDot(listing[0].name) || WellFormed(listing[0].tree))
      && (forall i :: 0 < i < |listing| ==> listing[i].name != listing[0].name)
      && AllWellFormed(listing[1..])
  }

  /** The tree `t` standing at `p`. */
  function Flatten(p: Path, t: Tree): Store
    decreases t
  {
    match t
    case Leaf(entry) => map[p := entry]
    case Folder(listing) => map[p := Directory] + FlattenAll(p, listing)
  }

  function FlattenAll(p: Path, listing: seq<Child>): Store
    decreases listing
  {
    if listing == [] then map[]
    else if IsDot(listing[0].name) then FlattenAll(p, listing[1..])
    else Flatten(p + [listing[0].name], listing[0].tree) + FlattenAll(p, listing[1..])
  }

  /** `q` is below one of the listed children of `p`. */
  ghost predicate BelowListed(q: Path, p: Path, listing: seq<Child>) {
    |p| < |q| && p < q && exists i :: 0 <= i < |listing| && listing[i].name == q[|p|]
  }

  lemma {:induction false} FlattenIsBelow(p: Path, t: Tree, q: Path)
    requires q in Flatten(p, t)
    ensures p <= q
    decreases t
  {
    if t.Folder? && q != p {
      FlattenAllIsBelow(p, t.listing, q);
    }
  }

  lemma {:induction false} FlattenAllIsBelow(p: Path, listing: seq<Child>, q: Path)
    requires q in FlattenAll(p, listing)
    ensures BelowListed(q, p, listing)
    decreases listing
  {
    var first := listing[0];
    if !IsDot(first.name) && q in Flatten(p + [first.name], first.tree) {
      FlattenIsBelow(p + [first.name], first.tree, q);
      assert listing[0].name == q[|p|];
    } else {
      FlattenAllIsBelow(p, listing[1..], q);
      var i :| 0 <= i < |listing[1..]| && listing[1..][i].name == q[|p|];
      assert listing[i + 1].name == q[|p|];
    }
  }

  /** Of a listing everything has its place but the two names that stand for the directory and its parent. */
  lemma {:induction false} ListedExactly(p: Path, listing: seq<Child>, name: Name)
    ensures p + [name] in FlattenAll(p, listing)
            <==> name != "." && name != ".." && exists i :: 0 <= i < |listing| && listing[i].name == name
    decreases listing
  {
    if listing != [] {
      var child, rest := p + [listing[0].name], listing[1..];
      ListedExactly(p, rest, name);
      assert child in Flatten(child, listing[0].tree);
      if p + [name] in Flatten(child, listing[0].tree) {
        FlattenIsBelow(child, listing[0].tree, p + [name]);
        assert (p + [name])[|p|] == child[|p|];
      }
      assert forall i :: 0 <= i < |rest| ==> rest[i] == listing[i + 1];
      assert (exists i :: 0 <= i < |listing| && listing[i].name == name)
        <==> listing[0].name == name || exists i :: 0 <= i < |rest| && rest[i].name == name by {
        if i :| 0 <= i < |listing| && listing[i].name == name && listing[0].name != name {
          assert rest[i - 1].name == name;
        }
      }
    }
  }

  /** The subtrees of a listing do not overlap. */
  lemma ListedAreDisjoint(p: Path, listing: seq<Child>)
    requires listing != [] && AllWellFormed(listing)
    ensures Flatten(p + [listing[0].name], listing[0].tree).Keys !! FlattenAll(p, listing[1..]).Keys
  {
    var below := p + [listing[0].name];
    forall q | q in Flatten(below, listing[0].tree) ensures q !in FlattenAll(p, listing[1..]) {
      FlattenIsBelow(below, listing[0].tree, q);
      assert q[|p|] == below[|p|];
      if q in FlattenAll(p, listing[1..]) {
        FlattenAllIsBelow(p, listing[1..], q);
      }
    }
  }
}
