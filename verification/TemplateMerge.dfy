/**
 Deep merge of template values, internal/service/templates.go. A decoded JSON value is a map, a
 list or something else; a nil map is an empty one.
 */
module TemplateMerge {
  import opened Wrappers

  datatype Value = Fields(fields: map<string, Value>) | Items(items: seq<Value>) | Scalar(text: string)

  const EMPTY := Fields(map[])

  // ---------------------------------------------------------------- clones

  function CloneValue(v: Value): Value {
    match v
    case Fields(m) => Fields(map k | k in m :: CloneValue(m[k]))
    case Items(s) => Items(seq(|s|, i requires 0 <= i < |s| => CloneValue(s[i])))
    case Scalar(_) => v
  }

  /** A clone is the same value. */
  lemma {:induction false} CloneIsEqual(v: Value)
    ensures CloneValue(v) == v
  {
    match v
    case Fields(m) =>
      forall k | k in m ensures CloneValue(m[k]) == m[k] {
        CloneIsEqual(m[k]);
      }
      assert (map k | k in m :: CloneValue(m[k])) == m;
    case Items(s) =>
      forall i | 0 <= i < |s| ensures CloneValue(s[i]) == s[i] {
        CloneIsEqual(s[i]);
      }
      assert seq(|s|, i requires 0 <= i < |s| => CloneValue(s[i])) == s;
    case Scalar(_) =>
  }

  // ---------------------------------------------------------------- merging

  /** What the merged map holds under a key of the overlay. */
  function MergeAt(base: map<string, Value>, k: string, ov: Value): Value
    decreases ov, 1
  {
    if ov.Fields? && k in base && base[k].Fields? then Merge(base[k], ov) else ov
  }

  /** The overlay wins, except that maps on both sides are merged. */
  function Merge(base: Value, overlay: Value): (r: Value)
    requires base.Fields? && overlay.Fields?
    ensures r.Fields?
    decreases overlay, 0
  {
    Fields(map k | k in base.fields.Keys + overlay.fields.Keys ::
      if k in overlay.fields then MergeAt(base.fields, k, overlay.fields[k]) else base.fields[k])
  }

  /** The loop over the overlay gives the merge whatever order the keys come in. */
  method MergeMaps(base: Value, overlay: Value) returns (r: Value)
    requires base.Fields? && overlay.Fields?
    ensures r == Merge(base, overlay)
    decreases overlay
  {
    CloneIsEqual(base);
    var out := CloneValue(base).fields;
    var todo := overlay.fields.Keys;
    while todo != {}
      invariant todo <= overlay.fields.Keys
      invariant out.Keys == base.fields.Keys + (overlay.fields.Keys - todo)
      invariant forall k :: k in out ==>
        out[k] == if k in overlay.fields && k !in todo then MergeAt(base.fields, k, overlay.fields[k])
                  else base.fields[k]
      decreases todo
    {
      var k :| k in todo;
      todo := todo - {k};
      var ov := overlay.fields[k];
      if ov.Fields? && k in out && out[k].Fields? {
        var merged := MergeMaps(out[k], ov);
        out := out[k := merged];
      } else {
        CloneIsEqual(ov);
        out := out[k := CloneValue(ov)];
      }
    }
    r := Fields(out);
  }

  // ---------------------------------------------------------------- the path law

  type Path = seq<string>

  function At(v: Value, path: Path): Option<Value>
    decreases |path|
  {
    if path == [] then Some(v)
    else if v.Fields? && path[0] in v.fields then At(v.fields[path[0]], path[1..])
    else None
  }

  /** Somewhere strictly above the path, the tree has a value that is not a map. */
  ghost predicate BelowNonMap(v: Value, path: Path) {
    exists n :: 0 <= n < |path| && At(v, path[..n]).Some? && !At(v, path[..n]).value.Fields?
  }

  lemma BelowNonMapStep(v: Value, path: Path)
    requires v.Fields? && path != []
    ensures BelowNonMap(v, path) <==> path[0] in v.fields && BelowNonMap(v.fields[path[0]], path[1..])
  {
    assert At(v, path[..0]) == Some(v);
    forall n | 0 < n < |path|
      ensures At(v, path[..n]) == if path[0] in v.fields then At(v.fields[path[0]], path[1..][..n - 1]) else None
    {
      assert path[..n][1..] == path[1..][..n - 1];
    }
    if path[0] in v.fields && BelowNonMap(v.fields[path[0]], path[1..]) {
      var m :| 0 <= m < |path[1..]| && At(v.fields[path[0]], path[1..][..m]).Some? &&
        !At(v.fields[path[0]], path[1..][..m]).value.Fields?;
      assert At(v, path[..m + 1]) == At(v.fields[path[0]], path[1..][..m]);
    }
    if BelowNonMap(v, path) {
      var n :| 0 <= n < |path| && At(v, path[..n]).Some? && !At(v, path[..n]).value.Fields?;
      assert n > 0 && At(v.fields[path[0]], path[1..][..n - 1]) == At(v, path[..n]);
    }
  }

  /** What a path of the merged tree holds, in terms of the two trees. */
  ghost function MergedAt(base: Value, overlay: Value, path: Path): Option<Value> {
    var b, o := At(base, path), At(overlay, path);
    if o.Some? && !o.value.Fields? then o                       // the overlay's value
    else if BelowNonMap(overlay, path) then None                // nothing below an overlay value
    else if o.None? then b                                      // the overlay is silent
    else if b.Some? && b.value.Fields? then Some(Merge(b.value, o.value))
    else o
  }

  lemma {:induction false} MergePathLaw(base: Value, overlay: Value, path: Path)
    requires base.Fields? && overlay.Fields?
    ensures At(Merge(base, overlay), path) == MergedAt(base, overlay, path)
    decreases |path|
  {
    if path != [] {
      var k, rest := path[0], path[1..];
      BelowNonMapStep(overlay, path);
      if k in overlay.fields {
        var ov := overlay.fields[k];
        if !ov.Fields? {
          NothingBelow(ov, rest);
        } else if k in base.fields && base.fields[k].Fields? {
          MergePathLaw(base.fields[k], ov, rest);
        } else {
          SilentBase(base, overlay, path);
        }
      }
    }
  }

  lemma NothingBelow(v: Value, path: Path)
    requires !v.Fields?
    ensures path != [] ==> At(v, path) == None && BelowNonMap(v, path)
  {
    if path != [] {
      assert At(v, path[..0]) == Some(v);
    }
  }

  /** Below a non-map nothing is found. */
  lemma {:induction false} BelowNonMapIsAbsent(v: Value, path: Path)
    requires BelowNonMap(v, path)
    ensures At(v, path) == None
    decreases |path|
  {
    if v.Fields? {
      BelowNonMapStep(v, path);
      BelowNonMapIsAbsent(v.fields[path[0]], path[1..]);
    }
  }

  /** Where the base has no map to merge with, the overlay's tree is taken as it is. */
  lemma SilentBase(base: Value, overlay: Value, path: Path)
    requires base.Fields? && overlay.Fields? && path != [] && path[0] in overlay.fields &&
      overlay.fields[path[0]].Fields?
    requires !(path[0] in base.fields && base.fields[path[0]].Fields?)
    ensures At(overlay, path) == MergedAt(base, overlay, path)
  {
    if BelowNonMap(overlay, path) {
      BelowNonMapIsAbsent(overlay, path);
    }
    if path[0] in base.fields {
      NothingBelow(base.fields[path[0]], path[1..]);
      assert At(base, path) == At(base.fields[path[0]], path[1..]);
      assert path[1..] == [] ==> At(overlay, path) == Some(overlay.fields[path[0]]);
    }
  }

  // ---------------------------------------------------------------- algebra

  lemma MergeUnits(v: Value)
    requires v.Fields?
    ensures Merge(v, EMPTY) == v && Merge(EMPTY, v) == v
  {
    assert Merge(v, EMPTY).fields == v.fields;
    assert Merge(EMPTY, v).fields == v.fields;
  }

  /** Merging the same overlay again changes nothing. */
  lemma {:induction false} MergeIdempotent(base: Value, overlay: Value)
    requires base.Fields? && overlay.Fields?
    ensures Merge(Merge(base, overlay), overlay) == Merge(base, overlay)
    decreases overlay
  {
    var once := Merge(base, overlay);
    var twice := Merge(once, overlay);
    forall k | k in once.fields ensures twice.fields[k] == once.fields[k] {
      if k in overlay.fields {
        var ov := overlay.fields[k];
        assert once.fields[k] == MergeAt(base.fields, k, ov);
        assert twice.fields[k] == MergeAt(once.fields, k, ov);
        if ov.Fields? {
          if k in base.fields && base.fields[k].Fields? {
            MergeIdempotent(base.fields[k], ov);
          } else {
            MergeUnits(ov);
            MergeIdempotent(EMPTY, ov);
          }
        }
      }
    }
    assert twice.fields == once.fields;
  }
}
