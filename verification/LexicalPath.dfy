/** Paths as Unix components, and their normalisation without a look at the file system. */
module LexicalPath {

  type Name = string

  datatype Component = CurDir | ParentDir | Normal(name: Name)

  /** A path and whether it begins at the root. */
  datatype Path = Path(rooted: bool, components: seq<Component>)

  /** The next component of the loop in `normalize_lexically`. */
  function Push(p: Path, c: Component): Path {
    var n := |p.components|;
    match c
    case CurDir => p
    case ParentDir =>
      if n > 0 && p.components[n - 1].Normal? then p.(components := p.components[..n - 1])
      else if !p.rooted then p.(components := p.components + [ParentDir])
      else p
    case Normal(_) => p.(components := p.components + [c])
  }

  /** `normalize_lexically`. */
  function Normalize(p: Path): Path
    decreases |p.components|
  {
    if p.components == [] then p
    else
      var n := |p.components| - 1;
      Push(Normalize(p.(components := p.components[..n])), p.components[n])
  }

  method NormalizeLexically(p: Path) returns (normalized: Path)
    ensures normalized == Normalize(p)
  {
    normalized := Path(p.rooted, []);
    for i := 0 to |p.components|
      invariant normalized == Normalize(p.(components := p.components[..i]))
    {
      assert p.components[..i + 1][..i] == p.components[..i];
      var c := p.components[i];
      var n := |normalized.components|;
      match c
      case CurDir =>
      case ParentDir =>
        if n > 0 && normalized.components[n - 1].Normal? {
          normalized := normalized.(components := normalized.components[..n - 1]);
        } else if !normalized.rooted {
          normalized := normalized.(components := normalized.components + [c]);
        }
      case Normal(_) =>
        normalized := normalized.(components := normalized.components + [c]);
    }
    assert p.components[..|p.components|] == p.components;
  }

  // ----- What a path means -----

  /** Where a walk through a tree without links goes on: a place is the list of names from the root to it. */
  function Step(at: seq<Name>, c: Component): seq<Name> {
    match c
    case CurDir => at
    case ParentDir => if at == [] then [] else at[..|at| - 1]
    case Normal(name) => at + [name]
  }

  function Walk(at: seq<Name>, components: seq<Component>): seq<Name> {
    if components == [] then at
    else
      var n := |components| - 1;
      Step(Walk(at, components[..n]), components[n])
  }

  /** The place a path leads to from a base directory. */
  function Meaning(base: seq<Name>, p: Path): seq<Name> {
    Walk(if p.rooted then [] else base, p.components)
  }

  /** The same in a tree that has only some places: there is no way through a missing one. */
  function WalkIn(tree: set<seq<Name>>, at: seq<Name>, components: seq<Component>): bool {
    if components == [] then true
    else
      var n := |components| - 1;
      WalkIn(tree, at, components[..n]) && Walk(at, components) in tree
  }

  predicate Resolves(tree: set<seq<Name>>, base: seq<Name>, p: Path) {
    WalkIn(tree, if p.rooted then [] else base, p.components)
  }

  // ----- The normal form -----

  /** No current directory; parent directories only at the start of a path that is not rooted. */
  predicate IsNormal(p: Path) {
    && (forall i :: 0 <= i < |p.components| ==> p.components[i] != CurDir)
    && (p.rooted ==> forall i :: 0 <= i < |p.components| ==> p.components[i].Normal?)
    && (forall i, j :: 0 <= i <= j < |p.components| && p.components[j] == ParentDir ==> p.components[i] == ParentDir)
  }

  lemma {:induction false} NormalizeIsNormal(p: Path)
    ensures IsNormal(Normalize(p)) && Normalize(p).rooted == p.rooted
    decreases |p.components|
  {
    if p.components != [] {
      var n := |p.components| - 1;
      NormalizeIsNormal(p.(components := p.components[..n]));
    }
  }

  /** A normal path stays as it is, so normalising twice is normalising once. */
  lemma {:induction false} NormalIsFixed(p: Path)
    requires IsNormal(p)
    ensures Normalize(p) == p
    decreases |p.components|
  {
    if p.components != [] {
      var n := |p.components| - 1;
      var before := p.(components := p.components[..n]);
      NormalIsFixed(before);
      assert p.components == p.components[..n] + [p.components[n]];
      if p.components[n] == ParentDir && n > 0 {
        assert p.components[n - 1] == ParentDir;
      }
    }
  }

  lemma NormalizeTwice(p: Path)
    ensures Normalize(Normalize(p)) == Normalize(p)
  {
    NormalizeIsNormal(p);
    NormalIsFixed(Normalize(p));
  }

  // ----- The meaning is kept -----

  lemma WalkStep(at: seq<Name>, components: seq<Component>, c: Component)
    ensures Walk(at, components + [c]) == Step(Walk(at, components), c)
  {
    assert (components + [c])[..|components|] == components;
  }

  /** From any base, the normal form leads where the path leads. */
  lemma {:induction false} NormalizeKeepsMeaning(base: seq<Name>, p: Path)
    ensures Meaning(base, Normalize(p)) == Meaning(base, p)
    decreases |p.components|
  {
    if p.components != [] {
      var n := |p.components| - 1;
      var before := p.(components := p.components[..n]);
      NormalizeKeepsMeaning(base, before);
      NormalizeIsNormal(before);
      PushKeepsMeaning(base, Normalize(before), p.components[n]);
    }
  }

  lemma PushKeepsMeaning(base: seq<Name>, p: Path, c: Component)
    requires IsNormal(p)
    ensures Meaning(base, Push(p, c)) == Step(Meaning(base, p), c)
  {
    var at := if p.rooted then [] else base;
    var n := |p.components|;
    WalkStep(at, p.components, c);
    if c == ParentDir && n > 0 && p.components[n - 1].Normal? {
      WalkStep(at, p.components[..n - 1], p.components[n - 1]);
      assert p.components == p.components[..n - 1] + [p.components[n - 1]];
    } else if c == ParentDir && p.rooted {
      assert p.components == [];
    }
  }

  lemma WalkInStep(tree: set<seq<Name>>, at: seq<Name>, components: seq<Component>, c: Component)
    ensures WalkIn(tree, at, components + [c]) <==> WalkIn(tree, at, components) && Walk(at, components + [c]) in tree
  {
    assert (components + [c])[..|components|] == components;
  }

  /** Where the path can be walked, the normal form can be walked. */
  lemma {:induction false} NormalizeKeepsResolving(tree: set<seq<Name>>, base: seq<Name>, p: Path)
    requires Resolves(tree, base, p)
    ensures Resolves(tree, base, Normalize(p))
    decreases |p.components|
  {
    hide Push, Walk;
    if p.components != [] {
      var n := |p.components| - 1;
      var before := p.(components := p.components[..n]);
      NormalizeKeepsResolving(tree, base, before);
      NormalizeKeepsMeaning(base, p);
      NormalizeIsNormal(before);
      NormalizeIsNormal(p);
      hide Normalize, IsNormal, WalkIn;
      PushResolves(tree, if p.rooted then [] else base, Normalize(before), p.components[n]);
    }
  }

  lemma PushResolves(tree: set<seq<Name>>, at: seq<Name>, p: Path, c: Component)
    requires WalkIn(tree, at, p.components) && Walk(at, Push(p, c).components) in tree
    ensures WalkIn(tree, at, Push(p, c).components)
  {
    hide Walk;
    var n := |p.components| - 1;
    WalkInStep(tree, at, p.components, c);
    if p.components != [] {
      WalkInStep(tree, at, p.components[..n], p.components[n]);
      assert p.components == p.components[..n] + [p.components[n]];
    }
  }

  // ----- One normal form for one meaning -----

  /** The number of parent directories that a path begins with. */
  function Ups(components: seq<Component>): (k: nat)
    ensures k <= |components|
    ensures forall i :: 0 <= i < k ==> components[i] == ParentDir
    ensures k < |components| ==> components[k] != ParentDir
  {
    if components == [] || components[0] != ParentDir then 0 else 1 + Ups(components[1..])
  }

  function NamesOf(components: seq<Component>): seq<Name>
    requires forall i :: 0 <= i < |components| ==> components[i].Normal?
  {
    seq(|components|, i requires 0 <= i < |components| => components[i].name)
  }

  lemma AfterUps(p: Path)
    requires IsNormal(p)
    ensures forall i :: Ups(p.components) <= i < |p.components| ==> p.components[i].Normal?
    ensures p.rooted ==> Ups(p.components) == 0
  {
  }

  lemma {:induction false} WalkNames(at: seq<Name>, components: seq<Component>)
    requires forall i :: 0 <= i < |components| ==> components[i].Normal?
    ensures Walk(at, components) == at + NamesOf(components)
  {
    if components != [] {
      var n := |components| - 1;
      WalkNames(at, components[..n]);
      assert NamesOf(components) == NamesOf(components[..n]) + [components[n].name];
    }
  }

  lemma {:induction false} WalkUps(at: seq<Name>, components: seq<Component>)
    requires |components| <= |at| && forall i :: 0 <= i < |components| ==> components[i] == ParentDir
    ensures Walk(at, components) == at[..|at| - |components|]
  {
    if components != [] { WalkUps(at, components[..|components| - 1]); }
  }

  lemma {:induction false} WalkBoth(at: seq<Name>, a: seq<Component>, b: seq<Component>)
    ensures Walk(at, a + b) == Walk(Walk(at, a), b)
  {
    if b == [] {
      assert a + b == a;
    } else {
      var n := |b| - 1;
      assert (a + b)[..|a| + n] == a + b[..n];
      WalkBoth(at, a, b[..n]);
    }
  }

  /** A normal path goes up and then down. */
  lemma MeaningOfNormal(base: seq<Name>, p: Path)
    requires IsNormal(p) && Ups(p.components) <= |base|
    ensures forall i :: Ups(p.components) <= i < |p.components| ==> p.components[i].Normal?
    ensures Meaning(base, p) == (if p.rooted then [] else base[..|base| - Ups(p.components)])
                                + NamesOf(p.components[Ups(p.components)..])
  {
    hide Walk, IsNormal, NamesOf;
    AfterUps(p);
    var k := Ups(p.components);
    var at := if p.rooted then [] else base;
    WalkBoth(at, p.components[..k], p.components[k..]);
    assert p.components == p.components[..k] + p.components[k..];
    WalkUps(at, p.components[..k]);
    WalkNames(Walk(at, p.components[..k]), p.components[k..]);
  }

  function Longest(names: seq<Name>): (n: nat)
    ensures forall i :: 0 <= i < |names| ==> |names[i]| <= n
  {
    if names == [] then 0
    else
      var rest := Longest(names[1..]);
      if |names[0]| > rest then |names[0]| else rest
  }

  /** A name that is in neither list. */
  function NewName(a: seq<Name>, b: seq<Name>): (name: Name)
    ensures name !in a && name !in b
  {
    seq(Longest(a) + Longest(b) + 1, _ => 'x')
  }

  function Times(n: nat, name: Name): seq<Name> {
    seq(n, _ => name)
  }

  /** How often a list begins with a name. */
  function Run(names: seq<Name>, name: Name): nat {
    if names == [] || names[0] != name then 0 else 1 + Run(names[1..], name)
  }

  lemma {:induction false} RunOfNew(n: nat, a: seq<Name>, name: Name)
    requires name !in a
    ensures Run(Times(n, name) + a, name) == n && (Times(n, name) + a)[n..] == a
  {
    if n == 0 {
      assert Times(n, name) + a == a;
    } else {
      assert (Times(n, name) + a)[1..] == Times(n - 1, name) + a;
      RunOfNew(n - 1, a, name);
    }
  }

  /** Two normal paths that lead to the same place from every base are the same path. */
  lemma MeaningDeterminesNormal(p: Path, q: Path)
    requires IsNormal(p) && IsNormal(q) && forall base :: Meaning(base, p) == Meaning(base, q)
    ensures p == q
  {
    hide Meaning, IsNormal, NamesOf, Times;
    AfterUps(p);
    AfterUps(q);
    var k, l := Ups(p.components), Ups(q.components);
    var a, b := NamesOf(p.components[k..]), NamesOf(q.components[l..]);
    var name := NewName(a, b);
    FromFreshBase(p, k + l + 1, name);
    FromFreshBase(q, k + l + 1, name);
    RunOfNew(if p.rooted then 0 else l + 1, a, name);
    RunOfNew(if q.rooted then 0 else k + 1, b, name);
    assert Meaning(Times(k + l + 1, name), p) == Meaning(Times(k + l + 1, name), q);
    SameComponents(p, q);
  }

  lemma FromFreshBase(p: Path, n: nat, name: Name)
    requires IsNormal(p) && Ups(p.components) <= n
    ensures forall i :: Ups(p.components) <= i < |p.components| ==> p.components[i].Normal?
    ensures Meaning(Times(n, name), p) == Times(if p.rooted then 0 else n - Ups(p.components), name)
                                          + NamesOf(p.components[Ups(p.components)..])
  {
    hide Meaning, IsNormal, NamesOf;
    var k := Ups(p.components);
    MeaningOfNormal(Times(n, name), p);
    assert Times(n, name)[..n - k] == Times(n - k, name) && Times(0, name) == [];
  }

  lemma SameComponents(p: Path, q: Path)
    requires IsNormal(p) && IsNormal(q) && p.rooted == q.rooted && Ups(p.components) == Ups(q.components)
    requires forall i :: Ups(p.components) <= i < |p.components| ==> p.components[i].Normal?
    requires forall i :: Ups(q.components) <= i < |q.components| ==> q.components[i].Normal?
    requires NamesOf(p.components[Ups(p.components)..]) == NamesOf(q.components[Ups(q.components)..])
    ensures p == q
  {
    var k := Ups(p.components);
    var a, b := NamesOf(p.components[k..]), NamesOf(q.components[k..]);
    assert |p.components| == k + |a| && |q.components| == k + |b|;
    forall i | 0 <= i < |p.components| ensures p.components[i] == q.components[i] {
      if i >= k {
        assert a[i - k] == p.components[i].name && b[i - k] == q.components[i].name;
      }
    }
  }

  /** Normalising identifies exactly the paths that lead to the same place from every base directory. */
  lemma NormalFormIsCanonical(p: Path, q: Path)
    ensures Normalize(p) == Normalize(q) <==> forall base :: Meaning(base, p) == Meaning(base, q)
  {
    forall base ensures Meaning(base, Normalize(p)) == Meaning(base, p) {
      NormalizeKeepsMeaning(base, p);
    }
    forall base ensures Meaning(base, Normalize(q)) == Meaning(base, q) {
      NormalizeKeepsMeaning(base, q);
    }
    NormalizeIsNormal(p);
    NormalizeIsNormal(q);
    if forall base :: Meaning(base, p) == Meaning(base, q) {
      MeaningDeterminesNormal(Normalize(p), Normalize(q));
    }
  }
}
