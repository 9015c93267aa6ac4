/**
  Loading a configuration, from `src/config.rs`: shorthands are expanded, command
  line arguments become nested objects, and everything is merged in order.
  Reading and parsing files is left to the caller.
*/
module ConfigLoading {
  import opened Json
  import opened Options
  import G = InlineGrammar
  import opened ConfigLayers
  import opened Text

  // ----- Runtime shorthands -----

  const SELECTORS: set<string> := {"existing", "managed", "first_available"}
  const FIELDS: set<string> := {"packages", "version", "resolution"}

  predicate HasAny(v: Value, keys: set<string>) {
    v.Object? && exists k :: k in keys && k in v.fields
  }

  /** A mapping without a selector that has a managed field, or is empty. */
  predicate ImpliesManaged(python: Value) {
    && python.Object? && !HasAny(python, SELECTORS)
    && (HasAny(python, FIELDS) || python.fields == map[])
  }

  predicate HasRShorthand(v: Value) {
    v.Object? && "r" in v.fields && v.fields["r"].String?
  }

  predicate HasPythonShorthand(v: Value) {
    v.Object? && "python" in v.fields && ImpliesManaged(v.fields["python"])
  }

  function ExpandR(v: Value): Value {
    if HasRShorthand(v) then Object(v.fields["r" := Object(map["executable" := v.fields["r"]])]) else v
  }

  function ExpandPython(v: Value): Value {
    if HasPythonShorthand(v) then Object(v.fields["python" := Object(map["managed" := v.fields["python"]])]) else v
  }

  function Expand(v: Value): Value {
    ExpandPython(ExpandR(v))
  }

  /** Expanding changes exactly the shorthands, and leaves none. */
  lemma ExpandingSettles(v: Value)
    ensures !HasRShorthand(Expand(v)) && !HasPythonShorthand(Expand(v))
    ensures Expand(Expand(v)) == Expand(v)
    ensures Expand(v) == v <==> !HasRShorthand(v) && !HasPythonShorthand(v)
  {
    if HasPythonShorthand(v) {
      var managed := Object(map["managed" := v.fields["python"]]);
      assert "managed" in SELECTORS && "managed" in managed.fields;
      assert HasAny(managed, SELECTORS);
      assert !HasPythonShorthand(Expand(v));
    }
  }

  lemma ExpandedRMeans(v: Value)
    requires HasRShorthand(v)
    ensures At(Expand(v), ["r", "executable"]) == Leaf(v.fields["r"])
  {
    assert ["r", "executable"][1..] == ["executable"] && ["executable"][1..] == [];
    var r := Object(map["executable" := v.fields["r"]]);
    assert Expand(v).fields["r"] == r;
    assert At(r, ["executable"]) == At(v.fields["r"], []) == Leaf(v.fields["r"]);
  }

  lemma ExpandedPythonMeans(v: Value, path: seq<string>)
    requires HasPythonShorthand(v)
    ensures At(Expand(v), ["python", "managed"] + path) == At(v, ["python"] + path)
  {
    assert (["python", "managed"] + path)[1..] == ["managed"] + path;
    assert (["managed"] + path)[1..] == path && (["python"] + path)[1..] == path;
  }

  /** What the expanded forms mean: the same content, under the full names. */
  lemma ExpandedMeans(v: Value, path: seq<string>)
    ensures HasRShorthand(v) ==> At(Expand(v), ["r", "executable"]) == Leaf(v.fields["r"])
    ensures HasPythonShorthand(v) ==> At(Expand(v), ["python", "managed"] + path) == At(v, ["python"] + path)
    ensures path != [] && path[0] != "r" && path[0] != "python" ==> At(Expand(v), path) == At(v, path)
  {
    if HasRShorthand(v) {
      ExpandedRMeans(v);
    }
    if HasPythonShorthand(v) {
      ExpandedPythonMeans(v, path);
    }
  }

  /** The path that an argument sets once its shorthand is expanded. */
  function Target(keys: seq<string>, v: Value): seq<string> {
    if keys == ["r"] && v.String? then ["r", "executable"]
    else if keys != [] && keys[0] == "python" && ImpliesManaged(Nest(keys[1..], v)) then ["python", "managed"] + keys[1..]
    else keys
  }

  lemma ExpandedNest(keys: seq<string>, v: Value)
    requires keys != []
    ensures Expand(Nest(keys, v)) == Nest(Target(keys, v), v)
  {
    var nested := Nest(keys, v);
    assert nested.fields.Keys == {keys[0]};
    if keys[0] == "r" {
      assert keys == ["r"] <==> keys[1..] == [];
      if |keys| == 1 && v.String? {
        assert nested.fields["r"] == Nest([], v) == v;
        assert Nest(["executable"], v) == Object(map["executable" := Nest(["executable"][1..], v)]);
        assert ["executable"][1..] == [] && ["r", "executable"][1..] == ["executable"];
        assert Nest(["r", "executable"], v) == Object(map["r" := Nest(["executable"], v)]);
        assert Expand(nested).fields == map["r" := Object(map["executable" := v])];
      }
    } else if keys[0] == "python" && ImpliesManaged(Nest(keys[1..], v)) {
      var path := ["python", "managed"] + keys[1..];
      assert path[1..] == ["managed"] + keys[1..] && (["managed"] + keys[1..])[1..] == keys[1..];
      assert Expand(nested).fields == map["python" := Object(map["managed" := Nest(keys[1..], v)])];
    }
  }

  /** A command line override is exactly the update at the path that it names. */
  lemma OverrideUpdatesTarget(base: Value, keys: seq<string>, v: Value)
    requires keys != []
    ensures Merge(base, Expand(Nest(keys, v))) == Updated(base, Target(keys, v), v)
  {
    ExpandedNest(keys, v);
    OverrideIsUpdate(base, Target(keys, v), v);
  }

  // ----- Arguments -----

  datatype ArgumentError = NoEquals | EmptyKey | Inline(error: G.Error)

  datatype Outcome<T> = Fine(value: T) | Bad(error: ArgumentError)

  function Trimmed(parts: seq<string>): seq<string> {
    if parts == [] then [] else [G.Trim(parts[0])] + Trimmed(parts[1..])
  }

  /** The trimmed parts of a dotted key. */
  function KeysOf(argument: string): seq<string> {
    Trimmed(Split(G.Trim(argument[..IndexOf(argument, '=', 0)]), '.'))
  }

  /** The layer of a KEY=VALUE argument. */
  function Overlay(y: G.Yaml, argument: string): Outcome<Value> {
    var equals := IndexOf(argument, '=', 0);
    if equals == |argument| then Bad(NoEquals)
    else if "" in KeysOf(argument) then Bad(EmptyKey)
    else
      match G.Parse(y, argument[equals + 1..])
      case Err(error) => Bad(Inline(error))
      case Ok(v) => Fine(Expand(Nest(KeysOf(argument), v)))
  }

  /** A key is written with dots between its parts, which are visible text without dots or equals signs. */
  predicate IsKey(keys: seq<string>) {
    && keys != []
    && forall i :: 0 <= i < |keys| ==>
      keys[i] != "" && G.Visible(keys[i]) && G.EndsVisible(keys[i]) && '.' !in keys[i] && '=' !in keys[i]
  }

  lemma {:induction false} TrimmedKeys(keys: seq<string>)
    requires forall i :: 0 <= i < |keys| ==> keys[i] != "" && G.Visible(keys[i]) && G.EndsVisible(keys[i])
    ensures Trimmed(keys) == keys
  {
    if keys != [] {
      G.TrimText(keys[0], []);
      assert keys[0] + [] == keys[0];
      TrimmedKeys(keys[1..]);
      assert keys == [keys[0]] + keys[1..];
    }
  }

  lemma {:induction false} JoinedKeys(keys: seq<string>)
    requires IsKey(keys)
    ensures var s := Join(keys, '.'); s != [] && G.Visible(s) && G.EndsVisible(s) && '=' !in s
  {
    if |keys| > 1 {
      JoinedKeys(keys[1..]);
    }
  }

  lemma EqualsIs(key: string, source: string)
    requires '=' !in key
    ensures var argument := key + "=" + source;
      IndexOf(argument, '=', 0) == |key| && argument[..|key|] == key && argument[|key| + 1..] == source
  {
    var argument := key + "=" + source;
    assert argument[|key|] == '=';
    assert forall j :: 0 <= j < |key| ==> argument[j] == key[j] && argument[j] in key;
  }

  /** What an argument means: the value of its source at its key, with spaces around the key allowed. */
  lemma ArgumentMeans(y: G.Yaml, lead: string, keys: seq<string>, tail: string, source: string)
    requires IsKey(keys) && G.Spaces(lead) && G.Spaces(tail)
    ensures KeysOf(lead + Join(keys, '.') + tail + "=" + source) == keys
    ensures var parsed := G.Parse(y, source);
      Overlay(y, lead + Join(keys, '.') + tail + "=" + source)
        == if parsed.Err? then Bad(Inline(parsed.error)) else Fine(Nest(Target(keys, parsed.value), parsed.value))
  {
    var key := Join(keys, '.');
    JoinedKeys(keys);
    assert '=' !in lead && '=' !in tail;
    EqualsIs(lead + key + tail, source);
    G.TrimSkips(lead, key, tail);
    SplitJoins(keys, '.');
    TrimmedKeys(keys);
    assert "" !in keys;
    if G.Parse(y, source).Ok? {
      ExpandedNest(keys, G.Parse(y, source).value);
    }
  }

  /** The layers of a list of arguments, up to the first that is refused. */
  function Overlays(y: G.Yaml, arguments: seq<string>): Outcome<seq<Value>> {
    if arguments == [] then Fine([])
    else
      match Overlays(y, arguments[..|arguments| - 1])
      case Bad(error) => Bad(error)
      case Fine(before) =>
        match Overlay(y, arguments[|arguments| - 1])
        case Bad(error) => Bad(error)
        case Fine(layer) => Fine(before + [layer])
  }

  /** The layers of a whole configuration: defaults, documents, overrides. */
  function Layers(y: G.Yaml, defaults: seq<string>, documents: seq<Value>, overrides: seq<string>): Outcome<seq<Value>> {
    match Overlays(y, defaults)
    case Bad(error) => Bad(error)
    case Fine(first) =>
      match Overlays(y, overrides)
      case Bad(error) => Bad(error)
      case Fine(last) => Fine(first + Expanded(documents) + last)
  }

  function Expanded(documents: seq<Value>): seq<Value> {
    if documents == [] then [] else Expanded(documents[..|documents| - 1]) + [Expand(documents[|documents| - 1])]
  }

  /** Without any layer there is no configuration, which is not the same as an empty one. */
  function Combined(layers: seq<Value>): Option<Value> {
    if layers == [] then None else Some(Fold(EMPTY, layers))
  }

  /** What loading gives, or the argument that it refuses. */
  function Loaded(y: G.Yaml, defaults: seq<string>, documents: seq<Value>, overrides: seq<string>)
    : Outcome<Option<Value>>
  {
    var layers := Layers(y, defaults, documents, overrides);
    if layers.Bad? then Bad(layers.error) else Fine(Combined(layers.value))
  }

  // ----- The code: values are changed in place -----

  /** One key of a merge. */
  lemma MergedField(base: Value, overlay: Value, key: string)
    requires base.Object? && overlay.Object? && key in overlay.fields
    ensures Merge(base, overlay).Object? && key in Merge(base, overlay).fields
    ensures Merge(base, overlay).fields[key]
      == Merge(if key in base.fields then base.fields[key] else Null, overlay.fields[key])
  {
  }

  /** Some keys of the overlay are merged already, and everything else is as it was. */
  ghost predicate MergedBut(fields: map<string, Value>, base: map<string, Value>, target: map<string, Value>,
                            rest: set<string>) {
    && (forall k :: k in target ==> k in rest || k in fields)
    && (forall k :: k in fields ==> k in target)
    && (forall k :: k in fields && k !in rest ==> fields[k] == target[k])
    && (forall k :: k in rest ==> (k in fields <==> k in base) && (k in base ==> fields[k] == base[k]))
  }

  method MergeInto(base: Value, overlay: Value) returns (merged: Value)
    ensures merged == Merge(base, overlay)
    decreases overlay
  {
    if !base.Object? || !overlay.Object? {
      return overlay;
    }
    var fields := base.fields;
    var rest := overlay.fields.Keys;
    ghost var target := Merge(base, overlay).fields;
    while rest != {}
      invariant rest <= overlay.fields.Keys && MergedBut(fields, base.fields, target, rest)
      decreases |rest|
    {
      var key :| key in rest;
      MergedField(base, overlay, key);
      var entry := if key in fields then fields[key] else Null;
      var value := MergeInto(entry, overlay.fields[key]);
      fields := fields[key := value];
      rest := rest - {key};
    }
    assert fields == target;
    merged := Object(fields);
  }

  method ExpandShorthands(v: Value) returns (expanded: Value)
    ensures expanded == Expand(v)
  {
    expanded := v;
    if expanded.Object? && "r" in expanded.fields && expanded.fields["r"].String? {
      expanded := Object(expanded.fields["r" := Object(map["executable" := expanded.fields["r"]])]);
    }
    if expanded.Object? && "python" in expanded.fields && expanded.fields["python"].Object? {
      var mapping := expanded.fields["python"].fields;
      var selector := "existing" in mapping || "managed" in mapping || "first_available" in mapping;
      var field := "packages" in mapping || "version" in mapping || "resolution" in mapping;
      assert selector <==> HasAny(expanded.fields["python"], SELECTORS);
      assert field <==> HasAny(expanded.fields["python"], FIELDS);
      if !selector && (field || mapping == map[]) {
        expanded := Object(expanded.fields["python" := Object(map["managed" := expanded.fields["python"]])]);
      }
    }
  }

  lemma CombineNext(layers: seq<Value>, layer: Value)
    ensures Combined(layers + [layer])
      == Some(Merge(if Combined(layers).Some? then Combined(layers).value else EMPTY, layer))
  {
    assert (layers + [layer])[..|layers|] == layers;
  }

  /** `apply_values`: the arguments in order, on top of what the layers so far make. */
  method ApplyValues(y: G.Yaml, value: Option<Value>, arguments: seq<string>, ghost layers: seq<Value>)
    returns (result: Outcome<Option<Value>>)
    requires value == Combined(layers)
    ensures var more := Overlays(y, arguments);
      result == if more.Bad? then Bad(more.error) else Fine(Combined(layers + more.value))
  {
    var current := value;
    ghost var done: seq<Value> := [];
    assert layers + [] == layers;
    for i := 0 to |arguments|
      invariant Overlays(y, arguments[..i]) == Fine(done)
      invariant current == Combined(layers + done)
    {
      assert arguments[..i + 1][..i] == arguments[..i];
      var overlay := ReadArgument(y, arguments[i]);
      if overlay.Bad? {
        StaysBad(y, arguments, i + 1);
        return Bad(overlay.error);
      }
      var merged := MergeInto(if current.Some? then current.value else EMPTY, overlay.value);
      CombineNext(layers + done, overlay.value);
      assert layers + (done + [overlay.value]) == (layers + done) + [overlay.value];
      current := Some(merged);
      done := done + [overlay.value];
    }
    assert arguments[..|arguments|] == arguments;
    result := Fine(current);
  }

  lemma {:induction false} StaysBad(y: G.Yaml, arguments: seq<string>, n: nat)
    requires n <= |arguments| && Overlays(y, arguments[..n]).Bad?
    ensures Overlays(y, arguments) == Overlays(y, arguments[..n])
    decreases |arguments| - n
  {
    if n < |arguments| {
      assert arguments[..n + 1][..n] == arguments[..n];
      StaysBad(y, arguments, n + 1);
    } else {
      assert arguments[..n] == arguments;
    }
  }

  /** One argument: the loop wraps the value in its keys, innermost first. */
  method ReadArgument(y: G.Yaml, argument: string) returns (overlay: Outcome<Value>)
    ensures overlay == Overlay(y, argument)
  {
    var equals := IndexOf(argument, '=', 0);
    if equals == |argument| {
      return Bad(NoEquals);
    }
    var keys := KeysOf(argument);
    if "" in keys {
      return Bad(EmptyKey);
    }
    var parsed := G.Parse(y, argument[equals + 1..]);
    if parsed.Err? {
      return Bad(Inline(parsed.error));
    }
    var value := parsed.value;
    for i := |keys| downto 0
      invariant value == Nest(keys[i..], parsed.value)
    {
      assert keys[i..][1..] == keys[i + 1..];
      value := Object(map[keys[i] := value]);
    }
    assert keys[0..] == keys;
    value := ExpandShorthands(value);
    overlay := Fine(value);
  }

  /** The documents, in the order in which they were found. */
  method ApplyDocuments(value: Option<Value>, documents: seq<Value>, ghost layers: seq<Value>)
    returns (result: Option<Value>)
    requires value == Combined(layers)
    ensures result == Combined(layers + Expanded(documents))
  {
    result := value;
    assert layers + [] == layers;
    for i := 0 to |documents|
      invariant result == Combined(layers + Expanded(documents[..i]))
    {
      var overlay := ExpandShorthands(documents[i]);
      var merged := MergeInto(if result.Some? then result.value else EMPTY, overlay);
      CombineNext(layers + Expanded(documents[..i]), overlay);
      assert documents[..i + 1][..i] == documents[..i];
      assert layers + (Expanded(documents[..i]) + [overlay]) == (layers + Expanded(documents[..i])) + [overlay];
      result := Some(merged);
    }
    assert documents[..|documents|] == documents;
  }

  /** `load`, from the documents that were found. */
  method LoadConfiguration(y: G.Yaml, defaults: seq<string>, documents: seq<Value>, overrides: seq<string>)
    returns (result: Outcome<Option<Value>>)
    ensures result == Loaded(y, defaults, documents, overrides)
  {
    result := ApplyValues(y, None, defaults, []);
    if result.Bad? {
      return;
    }
    ghost var first := Overlays(y, defaults).value;
    assert [] + first == first;
    var value := ApplyDocuments(result.value, documents, first);
    result := ApplyValues(y, value, overrides, first + Expanded(documents));
  }
}
