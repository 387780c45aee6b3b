/** When a copy of a directory tree succeeds, in terms of what the servers answer and what stands at the destination. */
module CopyOutcome {
  import opened Wrappers
  import opened FileTree
  import opened RemoteCopy

  /** There is a directory at `q` once the copy of `f` has got past it: it was there, or it is made. */
  predicate Becomes(a: Answers, s: Store, f: Store, q: Path)
    decreases |q|
  {
    || IsDirectory(s, q)
    || (q in f && f[q].Directory? && q !in s && a.makes(q) && ParentBecomes(a, s, f, q))
  }

  predicate ParentBecomes(a: Answers, s: Store, f: Store, q: Path)
    decreases |q|, 0
  {
    q != [] ==> Becomes(a, s, f, q[..|q| - 1])
  }

  /** Nothing stands in the way of this place: the copy gets started there, a directory can be listed, and a file can be
      opened and written to its end, with no directory in its place and one around it. */
  predicate IsGranted(a: Answers, s: Store, f: Store, q: Path)
    requires q in f
  {
    a.starts(q)
    && if f[q].Directory? then a.lists(q)
       else a.opens(q) && a.stopsAfter(q).None? && !IsDirectory(s, q) && ParentBecomes(a, s, f, q)
  }

  predicate AllGranted(a: Answers, s: Store, f: Store) {
    forall q :: q in f ==> IsGranted(a, s, f, q)
  }

  // ----- The same directories -----

  /** Between `p` and `q` there is the same to be copied onto the same. */
  ghost predicate Agree(s: Store, f: Store, s': Store, f': Store, p: Path, q: Path) {
    forall r :: p < r <= q
                ==> && (r in s <==> r in s') && (IsDirectory(s, r) <==> IsDirectory(s', r))
                    && (r in f <==> r in f') && (r in f ==> f[r] == f'[r])
  }

  lemma {:induction false} SameDirectories(a: Answers, s: Store, f: Store, s': Store, f': Store, p: Path, q: Path)
    requires p <= q && Agree(s, f, s', f', p, q)
    requires Becomes(a, s, f, p) <==> Becomes(a, s', f', p)
    ensures Becomes(a, s, f, q) <==> Becomes(a, s', f', q)
    decreases |q|
  {
    if p < q {
      assert p <= q[..|q| - 1];
      SameDirectories(a, s, f, s', f', p, q[..|q| - 1]);
    } else {
      assert p == q;
    }
  }

  lemma SameAnswer(a: Answers, s: Store, f: Store, s': Store, f': Store, p: Path, q: Path)
    requires q in f && p < q && Agree(s, f, s', f', p, q)
    requires Becomes(a, s, f, p) <==> Becomes(a, s', f', p)
    ensures q in f' && (IsGranted(a, s, f, q) <==> IsGranted(a, s', f', q))
  {
    assert p <= q[..|q| - 1] && q <= q;
    SameDirectories(a, s, f, s', f', p, q[..|q| - 1]);
  }

  // ----- One directory -----

  /** Nothing above a tree is part of it, so the directory around it has to be there. */
  lemma ParentIsThere(a: Answers, s: Store, f: Store, p: Path)
    requires forall q :: q in f ==> p <= q
    ensures ParentBecomes(a, s, f, p) <==> HasParent(s, p)
  {
    if p != [] {
      assert !(p <= p[..|p| - 1]);
    }
  }

  lemma FolderGranted(a: Answers, s: Store, p: Path, listed: Store)
    requires forall q :: q in listed ==> p < q
    ensures AllGranted(a, s, map[p := Directory] + listed)
            <==> a.starts(p) && a.lists(p) && AllGranted(a, MakeDirectory(a, s, p), listed)
  {
    var f, made := map[p := Directory] + listed, MakeDirectory(a, s, p);
    assert Becomes(a, s, f, p) <==> Becomes(a, made, listed, p) by {
      ParentIsThere(a, s, f, p);
      assert p !in listed && f[p] == Directory;
    }
    forall q | q in listed ensures q in f && (IsGranted(a, s, f, q) <==> IsGranted(a, made, listed, q)) {
      assert Agree(s, f, made, listed, p, q);
      SameAnswer(a, s, f, made, listed, p, q);
    }
    assert f.Keys == {p} + listed.Keys;
  }

  // ----- One entry after the other -----

  lemma ListingGranted(a: Answers, s: Store, next: Store, p: Path, name: Name, f: Store, g: Store)
    requires ChangedOnlyAt(s, next, f)
    requires forall q :: q in f ==> p + [name] <= q
    requires forall q :: q in g ==> p < q && !(p + [name] <= q)
    ensures AllGranted(a, s, f + g) <==> AllGranted(a, s, f) && AllGranted(a, next, g)
  {
    var child := p + [name];
    assert p !in f && p !in g;
    forall q | q in f ensures IsGranted(a, s, f + g, q) <==> IsGranted(a, s, f, q) {
      forall r | p < r <= q ensures r !in g { assert child <= r; }
      assert Agree(s, f + g, s, f, p, q);
      SameAnswer(a, s, f + g, s, f, p, q);
    }
    forall q | q in g ensures IsGranted(a, s, f + g, q) <==> IsGranted(a, next, g, q) {
      forall r | p < r <= q ensures r !in f { assert child <= r ==> child <= q; }
      assert Agree(s, f + g, next, g, p, q);
      SameAnswer(a, s, f + g, next, g, p, q);
    }
    assert (f + g).Keys == f.Keys + g.Keys;
  }

  lemma PlacesOfListing(p: Path, listing: seq<Child>)
    requires listing != [] && AllWellFormed(listing)
    ensures var child := p + [listing[0].name];
            && (forall q :: q in Flatten(child, listing[0].tree) ==> child <= q)
            && (forall q :: q in FlattenAll(p, listing[1..]) ==> p < q && !(child <= q))
  {
    var child := p + [listing[0].name];
    forall q | q in Flatten(child, listing[0].tree) ensures child <= q {
      FlattenIsBelow(child, listing[0].tree, q);
    }
    forall q | q in FlattenAll(p, listing[1..]) ensures p < q && !(child <= q) {
      assert child <= q ==> q[|p|] == child[|p|];
      FlattenAllIsBelow(p, listing[1..], q);
    }
  }

  // ----- The whole copy -----

  /** A copy succeeds exactly if nothing stands in the way of any place of the tree. */
  lemma {:induction false} CopySucceedsExactly(a: Answers, s: Store, t: Tree, p: Path)
    requires WellFormed(t) && Plain(t)
    ensures CopyTree(a, s, t, p).ok <==> AllGranted(a, s, Flatten(p, t))
    decreases t
  {
    if t.Leaf? {
      ParentIsThere(a, s, Flatten(p, t), p);
      assert p in Flatten(p, t);
    } else {
      hide AllGranted, CopyAll, MakeDirectory;
      var listed := FlattenAll(p, t.listing);
      forall q | q in listed ensures p < q { FlattenAllIsBelow(p, t.listing, q); }
      FolderGranted(a, s, p, listed);
      CopyAllSucceedsExactly(a, MakeDirectory(a, s, p), t.listing, p);
    }
  }

  lemma {:induction false} CopyAllSucceedsExactly(a: Answers, s: Store, listing: seq<Child>, p: Path)
    requires AllWellFormed(listing) && AllPlain(listing)
    ensures CopyAll(a, s, listing, p).ok <==> AllGranted(a, s, FlattenAll(p, listing))
    decreases listing
  {
    if listing != [] {
      hide AllGranted, CopyTree, Flatten, ChangedOnlyAt;
      Split(p, listing);
      if IsDot(listing[0].name) {
        CopyAllSucceedsExactly(a, s, listing[1..], p);
      } else {
        var child := p + [listing[0].name];
        var first := CopyTree(a, s, listing[0].tree, child);
        CopySucceedsExactly(a, s, listing[0].tree, child);
        CopyIsConfined(a, s, listing[0].tree, child);
        PlacesOfListing(p, listing);
        ListingGranted(a, s, first.store, p, listing[0].name, Flatten(child, listing[0].tree),
                       FlattenAll(p, listing[1..]));
        CopyAllSucceedsExactly(a, first.store, listing[1..], p);
      }
    }
  }
}
