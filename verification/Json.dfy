/** JSON values, and the merge that applies an overlay of settings to the current ones. */
module Json {
  import opened Wrappers

  type Positive = n: int | n > 0 witness 1

  /** A floating-point number is the quotient of two integers, as every finite one is. */
  datatype Value =
    | Null
    | Bool(b: bool)
    | Integer(n: int)
    | Float(numerator: int, denominator: Positive)
    | String(s: string)
    | Array(items: seq<Value>)
    | Object(fields: map<string, Value>)

  /** `merge_json_values`: objects are merged key by key, anything else is replaced by the overlay. */
  function Merge(base: Value, overlay: Value): Value
    decreases overlay
  {
    if base.Object? && overlay.Object? then
      Object(map k | k in base.fields.Keys + overlay.fields.Keys ::
               if k !in overlay.fields then base.fields[k]
               else if k in base.fields then Merge(base.fields[k], overlay.fields[k])
               else overlay.fields[k])
    else overlay
  }

  /** The value at a path of keys. */
  function At(v: Value, path: seq<string>): Option<Value> {
    if path == [] then Some(v)
    else if v.Object? && path[0] in v.fields then At(v.fields[path[0]], path[1..])
    else None
  }

  lemma AtStep(v: Value, key: string, rest: seq<string>)
    ensures At(v, [key] + rest) == if v.Object? && key in v.fields then At(v.fields[key], rest) else None
  {
    assert ([key] + rest)[1..] == rest;
  }

  /** Something other than an object stands on the way to the path. */
  predicate IsBlocked(v: Value, path: seq<string>) {
    if path == [] then false
    else if !v.Object? then true
    else path[0] in v.fields && IsBlocked(v.fields[path[0]], path[1..])
  }

  /** What a merge holds at any path: the overlay decides wherever it holds something, two objects being merged in turn;
      where it holds nothing the base is kept, unless the overlay has put something else on the way. */
  lemma {:induction false} MergeAt(base: Value, overlay: Value, path: seq<string>)
    ensures At(Merge(base, overlay), path) ==
            match At(overlay, path)
            case Some(o) =>
              (match At(base, path)
               case Some(b) => Some(if b.Object? && o.Object? then Merge(b, o) else o)
               case None => Some(o))
            case None => if IsBlocked(overlay, path) then None else At(base, path)
    decreases path
  {
    if path != [] && base.Object? && overlay.Object? && path[0] in base.fields && path[0] in overlay.fields {
      MergeAt(base.fields[path[0]], overlay.fields[path[0]], path[1..]);
    }
  }

  /** Of two objects the merge has the keys of both; otherwise it is the overlay. */
  lemma MergeOfTwo(base: Value, overlay: Value)
    ensures var merged := Merge(base, overlay);
            if base.Object? && overlay.Object?
            then merged.Object? && merged.fields.Keys == base.fields.Keys + overlay.fields.Keys
            else merged == overlay
  {
  }

  /** Applying the same overlay again changes nothing. */
  lemma {:induction false} MergeTwice(base: Value, overlay: Value)
    ensures Merge(Merge(base, overlay), overlay) == Merge(base, overlay)
    decreases overlay
  {
    if overlay.Object? && base.Object? {
      forall k | k in overlay.fields
        ensures k in base.fields ==>
                  Merge(Merge(base.fields[k], overlay.fields[k]), overlay.fields[k])
                  == Merge(base.fields[k], overlay.fields[k])
        ensures k !in base.fields ==> Merge(overlay.fields[k], overlay.fields[k]) == overlay.fields[k]
      {
        if k in base.fields { MergeTwice(base.fields[k], overlay.fields[k]); }
        MergeWithSelf(overlay.fields[k]);
      }
    } else {
      MergeWithSelf(overlay);
    }
  }

  lemma {:induction false} MergeWithSelf(v: Value)
    ensures Merge(v, v) == v
    decreases v
  {
    if v.Object? {
      forall k | k in v.fields ensures Merge(v.fields[k], v.fields[k]) == v.fields[k] {
        MergeWithSelf(v.fields[k]);
      }
    }
  }

  /** Two overlays cannot always be merged beforehand: the first may clear what the second is merged into. */
  lemma MergeIsNotAssociative()
    ensures exists a, b, c :: Merge(Merge(a, b), c) != Merge(a, Merge(b, c))
  {
    var a, b, c := Object(map["x" := Null]), Null, Object(map[]);
    assert Merge(Merge(a, b), c) == c && Merge(b, c) == c;
    assert "x" in Merge(a, c).fields && "x" !in c.fields;
    assert Merge(Merge(a, b), c) != Merge(a, Merge(b, c));
  }

  // ----- Nesting -----

  /** Arrays and objects are nested at most `depth` deep; a parser gives up on deeper ones. */
  predicate Within(v: Value, depth: nat)
    decreases v
  {
    match v
    case Array(items) => depth > 0 && forall i :: 0 <= i < |items| ==> Within(items[i], depth - 1)
    case Object(fields) => depth > 0 && forall k :: k in fields ==> Within(fields[k], depth - 1)
    case _ => true
  }

  /** A merge is nested no deeper than what it is made of. */
  lemma {:induction false} MergeKeepsDepth(base: Value, overlay: Value, depth: nat)
    requires Within(base, depth) && Within(overlay, depth)
    ensures Within(Merge(base, overlay), depth)
    decreases overlay
  {
    if base.Object? && overlay.Object? {
      forall k | k in base.fields && k in overlay.fields
        ensures Within(Merge(base.fields[k], overlay.fields[k]), depth - 1)
      {
        MergeKeepsDepth(base.fields[k], overlay.fields[k], depth - 1);
      }
    }
  }
}
