/** How configuration layers combine, from `src/config.rs`. */
module ConfigLayers {
  import opened Json
  import opened Options

  // ----- Merging -----

  /** Objects merge key by key; anything else replaces the old value. */
  function Merge(base: Value, overlay: Value): Value
    decreases overlay
  {
    if base.Object? && overlay.Object? then
      Object(map k | k in base.fields.Keys + overlay.fields.Keys ::
        if k !in overlay.fields then base.fields[k]
        else Merge(if k in base.fields then base.fields[k] else Null, overlay.fields[k]))
    else overlay
  }

  function Nest(path: seq<string>, v: Value): Value {
    if path == [] then v else Object(map[path[0] := Nest(path[1..], v)])
  }

  /** What a value holds at a path: nothing, an object, or a leaf. */
  datatype Content = Absent | Node | Leaf(value: Value)

  function At(v: Value, path: seq<string>): Content {
    if path == [] then (if v.Object? then Node else Leaf(v))
    else if v.Object? && path[0] in v.fields then At(v.fields[path[0]], path[1..])
    else Absent
  }

  /** The layer has a value at the path, or a leaf above it. */
  predicate Speaks(layer: Value, path: seq<string>) {
    || path == []
    || !layer.Object?
    || (path[0] in layer.fields && Speaks(layer.fields[path[0]], path[1..]))
  }

  lemma {:induction false} SpeaksMeans(layer: Value, path: seq<string>)
    ensures Speaks(layer, path) <==>
      At(layer, path) != Absent || exists n :: 0 <= n < |path| && At(layer, path[..n]).Leaf?
  {
    if path != [] {
      assert At(layer, path[..0]) == At(layer, []);
      if layer.Object? && path[0] in layer.fields {
        var rest := path[1..];
        SpeaksMeans(layer.fields[path[0]], rest);
        forall n | 0 <= n < |rest|
          ensures At(layer, path[..n + 1]) == At(layer.fields[path[0]], rest[..n])
        {
          assert path[..n + 1][1..] == rest[..n];
        }
        assert forall n :: 1 <= n < |path| ==> At(layer, path[..n]) == At(layer.fields[path[0]], rest[..n - 1]) by {
          forall n | 1 <= n < |path|
            ensures At(layer, path[..n]) == At(layer.fields[path[0]], rest[..n - 1])
          {
            assert path[..n][1..] == rest[..n - 1];
          }
        }
      }
    }
  }

  /** Where the overlay speaks it decides, and elsewhere the base stays. */
  lemma {:induction false} MergeAt(base: Value, overlay: Value, path: seq<string>)
    ensures At(Merge(base, overlay), path) == if Speaks(overlay, path) then At(overlay, path) else At(base, path)
    decreases overlay
  {
    SpeaksMeans(overlay, path);
    if path != [] && base.Object? && overlay.Object? && path[0] in overlay.fields {
      var k := path[0];
      MergeAt(if k in base.fields then base.fields[k] else Null, overlay.fields[k], path[1..]);
    }
  }

  // ----- Layers -----

  function Fold(base: Value, layers: seq<Value>): Value {
    if layers == [] then base else Merge(Fold(base, layers[..|layers| - 1]), layers[|layers| - 1])
  }

  /** The last layer that speaks at the path, if any does. */
  predicate LastToSpeak(layers: seq<Value>, path: seq<string>, i: int) {
    && -1 <= i < |layers|
    && (i >= 0 ==> Speaks(layers[i], path))
    && forall j :: i < j < |layers| ==> !Speaks(layers[j], path)
  }

  /** The last layer that speaks at a path decides what is there; without one the base stays. */
  lemma {:induction false} LastLayerDecides(base: Value, layers: seq<Value>, path: seq<string>) returns (i: int)
    ensures LastToSpeak(layers, path, i)
    ensures At(Fold(base, layers), path) == if i < 0 then At(base, path) else At(layers[i], path)
  {
    if layers == [] {
      i := -1;
    } else {
      var before, last := layers[..|layers| - 1], layers[|layers| - 1];
      i := LastLayerDecides(base, before, path);
      MergeAt(Fold(base, before), last, path);
      if Speaks(last, path) {
        i := |layers| - 1;
      }
    }
  }

  /** What configuration loading starts from. */
  const EMPTY: Value := Object(map[])

  /**
    A leaf is at a path exactly when the last layer with any value there, or
    with a leaf above it, has that leaf there.
  */
  lemma LeafFromLastLayer(layers: seq<Value>, path: seq<string>, leaf: Value)
    requires !leaf.Object?
    ensures At(Fold(EMPTY, layers), path) == Leaf(leaf)
      <==> exists i :: 0 <= i < |layers| && At(layers[i], path) == Leaf(leaf) && LastToSpeak(layers, path, i)
  {
    var i := LastLayerDecides(EMPTY, layers, path);
    assert At(EMPTY, path) != Leaf(leaf);
    forall j | 0 <= j < |layers| && LastToSpeak(layers, path, j)
      ensures i == j
    {
    }
  }

  // ----- Values are what they hold at every path -----

  lemma {:induction false} SameEverywhere(v: Value, w: Value)
    requires forall path :: At(v, path) == At(w, path)
    ensures v == w
    decreases v
  {
    assert At(v, []) == At(w, []);
    if v.Object? {
      forall k
        ensures k in v.fields <==> k in w.fields
        ensures k in v.fields ==> v.fields[k] == w.fields[k]
      {
        assert At(v, [k]) == At(w, [k]);
        assert k in v.fields ==> At(v, [k]) == At(v.fields[k], []);
        assert k in w.fields ==> At(w, [k]) == At(w.fields[k], []);
        if k in v.fields && k in w.fields {
          forall path
            ensures At(v.fields[k], path) == At(w.fields[k], path)
          {
            assert ([k] + path)[1..] == path;
            assert At(v, [k] + path) == At(w, [k] + path);
          }
          SameEverywhere(v.fields[k], w.fields[k]);
        }
      }
      assert v.fields == w.fields;
    }
  }

  /** Merging the last layer again changes nothing. */
  lemma MergeAgain(base: Value, overlay: Value)
    ensures Merge(Merge(base, overlay), overlay) == Merge(base, overlay)
  {
    forall path
      ensures At(Merge(Merge(base, overlay), overlay), path) == At(Merge(base, overlay), path)
    {
      MergeAt(Merge(base, overlay), overlay, path);
      MergeAt(base, overlay, path);
    }
    SameEverywhere(Merge(Merge(base, overlay), overlay), Merge(base, overlay));
  }

  // ----- Regrouping layers -----

  /** The later layer reopens as an object what the earlier one made a leaf. */
  ghost predicate Reopens(earlier: Value, later: Value) {
    exists path :: At(earlier, path).Leaf? && At(later, path).Node?
  }

  lemma {:induction false} ReopensBelow(earlier: Value, later: Value, k: string)
    requires earlier.Object? && later.Object? && k in earlier.fields && k in later.fields
    requires Reopens(earlier.fields[k], later.fields[k])
    ensures Reopens(earlier, later)
  {
    var path :| At(earlier.fields[k], path).Leaf? && At(later.fields[k], path).Node?;
    assert ([k] + path)[1..] == path;
    assert At(earlier, [k] + path).Leaf? && At(later, [k] + path).Node?;
  }

  lemma {:induction false} Regrouped(base: Value, earlier: Value, later: Value)
    requires !Reopens(earlier, later)
    ensures Merge(Merge(base, earlier), later) == Merge(base, Merge(earlier, later))
    decreases later
  {
    assert At(earlier, []).Leaf? ==> !At(later, []).Node?;
    if base.Object? && earlier.Object? && later.Object? {
      var left, right := Merge(Merge(base, earlier), later), Merge(base, Merge(earlier, later));
      forall k | k in left.fields
        ensures left.fields[k] == right.fields[k]
      {
        if k in earlier.fields && k in later.fields {
          if Reopens(earlier.fields[k], later.fields[k]) {
            ReopensBelow(earlier, later, k);
          }
          Regrouped(if k in base.fields then base.fields[k] else Null, earlier.fields[k], later.fields[k]);
        } else if k in later.fields {
          assert Merge(earlier, later).fields[k] == Merge(Null, later.fields[k]) == later.fields[k];
        }
      }
      assert left.fields == right.fields;
    }
  }

  lemma {:induction false} FreshKey(keys: set<string>) returns (unused: string)
    ensures forall k :: k in keys ==> |k| < |unused|
  {
    if keys == {} {
      unused := "x";
    } else {
      var k :| k in keys;
      unused := FreshKey(keys - {k});
      if |unused| <= |k| {
        unused := k + "x";
      }
    }
  }

  /** An object has room for one more key, and it has nothing but objects above it. */
  lemma {:induction false} FreshBelow(v: Value, path: seq<string>) returns (key: string)
    requires At(v, path).Node?
    ensures At(v, path + [key]) == Absent && !Speaks(v, path + [key])
    ensures forall n :: 0 <= n <= |path| ==> At(v, path[..n]).Node? && Speaks(v, path[..n])
    decreases |path|
  {
    if path == [] {
      key := FreshKey(v.fields.Keys);
      assert [] + [key] == [key];
    } else {
      key := FreshBelow(v.fields[path[0]], path[1..]);
      assert (path + [key])[1..] == path[1..] + [key];
      forall n | 0 < n <= |path|
        ensures At(v, path[..n]).Node? && Speaks(v, path[..n])
      {
        assert path[..n][1..] == path[1..][..n - 1];
      }
    }
  }

  lemma {:induction false} NestAt(path: seq<string>, v: Value)
    ensures At(Nest(path, v), path) == At(v, [])
  {
    if path != [] {
      NestAt(path[1..], v);
    }
  }

  /** A leaf has nothing below it, and decides there. */
  lemma {:induction false} BelowLeaf(v: Value, path: seq<string>, key: string)
    requires At(v, path).Leaf?
    ensures At(v, path + [key]) == Absent && Speaks(v, path + [key])
  {
    if path != [] {
      assert (path + [key])[1..] == path[1..] + [key];
      BelowLeaf(v.fields[path[0]], path[1..], key);
    } else {
      assert ([] + [key])[0] == key;
    }
  }

  /** What a layer holds below such a path is forgotten one way, and survives the other. */
  lemma Forgotten(earlier: Value, later: Value, path: seq<string>) returns (base: Value)
    requires At(earlier, path).Leaf? && At(later, path).Node?
    ensures Merge(Merge(base, earlier), later) != Merge(base, Merge(earlier, later))
  {
    var key := FreshBelow(later, path);
    var below := path + [key];
    var both := Merge(earlier, later);
    base := Nest(below, Null);
    NestAt(below, Null);
    BelowLeaf(earlier, path, key);
    MergeAt(Merge(base, earlier), later, below);
    MergeAt(base, earlier, below);
    MergeAt(earlier, later, below);
    SpeaksMeans(both, below);
    forall n | 0 <= n < |below|
      ensures !At(both, below[..n]).Leaf?
    {
      assert below[..n] == path[..n];
      MergeAt(earlier, later, path[..n]);
    }
    MergeAt(base, both, below);
  }

  /**
    Two layers may be merged with each other first, whatever is below them, if
    and only if the later one does not reopen a leaf of the earlier one.
  */
  lemma RegroupExactlyUnlessReopened(earlier: Value, later: Value)
    ensures (forall base :: Merge(Merge(base, earlier), later) == Merge(base, Merge(earlier, later)))
      <==> !Reopens(earlier, later)
  {
    if Reopens(earlier, later) {
      var path :| At(earlier, path).Leaf? && At(later, path).Node?;
      var base := Forgotten(earlier, later, path);
    } else {
      forall base
        ensures Merge(Merge(base, earlier), later) == Merge(base, Merge(earlier, later))
      {
        Regrouped(base, earlier, later);
      }
    }
  }

  /** The smallest case: a leaf that the last layer turns into an object again. */
  lemma LayersDoNotRegroup()
    ensures var leaf, last := Object(map["a" := Null]), Object(map["a" := EMPTY]);
      exists base :: Merge(Merge(base, leaf), last) != Merge(base, Merge(leaf, last))
  {
    var leaf, last := Object(map["a" := Null]), Object(map["a" := EMPTY]);
    assert ["a"][1..] == [];
    assert At(leaf, ["a"]) == At(Null, []) && At(last, ["a"]) == At(EMPTY, []);
    var base := Forgotten(leaf, last, ["a"]);
  }

  // ----- Dotted overrides -----

  /** The tree with `v` merged in at the path; what is not an object above it becomes one. */
  function Updated(base: Value, path: seq<string>, v: Value): Value
    decreases |path|
  {
    if path == [] then Merge(base, v)
    else
      var fields := if base.Object? then base.fields else map[];
      var old_ := if path[0] in fields then fields[path[0]] else Null;
      Object(fields[path[0] := Updated(old_, path[1..], v)])
  }

  lemma {:induction false} NestSpeaks(path: seq<string>, v: Value, other: seq<string>)
    requires Apart(path, other)
    ensures !Speaks(Nest(path, v), other)
    decreases |path|
  {
    if other[0] == path[0] {
      NestSpeaks(path[1..], v, other[1..]);
    }
  }

  /** Neither path continues the other. */
  predicate Apart(path: seq<string>, other: seq<string>) {
    path != [] && other != [] && (path[0] == other[0] ==> Apart(path[1..], other[1..]))
  }

  lemma MergeOneKey(base: Value, k: string, v: Value)
    ensures var fields := if base.Object? then base.fields else map[];
      Merge(base, Object(map[k := v])) == Object(fields[k := Merge(if k in fields then fields[k] else Null, v)])
  {
    if base.Object? {
      var merged := Merge(base, Object(map[k := v]));
      var fields := base.fields[k := Merge(if k in base.fields then base.fields[k] else Null, v)];
      assert merged.fields.Keys == fields.Keys;
      assert merged.fields == fields;
    } else {
      assert Merge(Null, v) == v;
    }
  }

  lemma {:induction false} NestedMerge(base: Value, path: seq<string>, v: Value)
    ensures Merge(base, Nest(path, v)) == Updated(base, path, v)
    decreases |path|
  {
    if path != [] {
      var fields := if base.Object? then base.fields else map[];
      NestedMerge(if path[0] in fields then fields[path[0]] else Null, path[1..], v);
      MergeOneKey(base, path[0], Nest(path[1..], v));
    }
  }

  /** An override is exactly the update at its path, and leaves every other path alone. */
  lemma OverrideIsUpdate(base: Value, path: seq<string>, v: Value)
    ensures Merge(base, Nest(path, v)) == Updated(base, path, v)
    ensures forall other :: Apart(path, other) ==> At(Updated(base, path, v), other) == At(base, other)
  {
    NestedMerge(base, path, v);
    forall other | Apart(path, other)
      ensures At(Updated(base, path, v), other) == At(base, other)
    {
      NestSpeaks(path, v, other);
      MergeAt(base, Nest(path, v), other);
    }
  }
}
