/**
  What a loaded configuration holds at each path, told by the arguments and the
  documents alone: overrides before documents before defaults, later before earlier.
*/
module ConfigPrecedence {
  import opened Json
  import opened Options
  import G = InlineGrammar
  import opened ConfigLayers
  import opened ConfigLoading
  import opened Text

  // ----- Precedence -----

  /** The first argument of a list that is refused. */
  predicate FirstRefused(y: G.Yaml, arguments: seq<string>, error: ArgumentError, i: int) {
    && 0 <= i < |arguments| && Overlay(y, arguments[i]) == Bad(error)
    && forall j :: 0 <= j < i ==> Overlay(y, arguments[j]).Fine?
  }

  predicate Reads(y: G.Yaml, arguments: seq<string>, layers: seq<Value>) {
    |layers| == |arguments| && forall i :: 0 <= i < |arguments| ==> Overlay(y, arguments[i]) == Fine(layers[i])
  }

  lemma RefusedStays(y: G.Yaml, before: seq<string>, argument: string, error: ArgumentError, i: int)
    requires FirstRefused(y, before, error, i)
    ensures FirstRefused(y, before + [argument], error, i)
  {
  }

  lemma {:induction false} OverlaysAre(y: G.Yaml, arguments: seq<string>)
    ensures var read := Overlays(y, arguments);
      && (read.Fine? ==> Reads(y, arguments, read.value))
      && (read.Bad? ==> exists i :: FirstRefused(y, arguments, read.error, i))
  {
    if arguments != [] {
      var before, argument := arguments[..|arguments| - 1], arguments[|arguments| - 1];
      OverlaysAre(y, before);
      assert arguments == before + [argument];
      var read := Overlays(y, before);
      if read.Bad? {
        var i :| FirstRefused(y, before, read.error, i);
        RefusedStays(y, before, argument, read.error, i);
      } else if Overlay(y, argument).Bad? {
        assert FirstRefused(y, arguments, Overlay(y, argument).error, |before|);
      }
    }
  }

  lemma {:induction false} ExpandedAre(documents: seq<Value>)
    ensures |Expanded(documents)| == |documents|
    ensures forall i :: 0 <= i < |documents| ==> Expanded(documents)[i] == Expand(documents[i])
  {
    if documents != [] {
      ExpandedAre(documents[..|documents| - 1]);
    }
  }

  lemma RefusedIn(y: G.Yaml, first: seq<string>, last: seq<string>, error: ArgumentError, i: int)
    ensures FirstRefused(y, first, error, i) ==> FirstRefused(y, first + last, error, i)
    ensures FirstRefused(y, last, error, i) && Overlays(y, first).Fine? ==>
      FirstRefused(y, first + last, error, |first| + i)
  {
    OverlaysAre(y, first);
  }

  /** Loading fails at the first default that is refused, or else at the first override that is. */
  lemma LoadFailsAtFirst(y: G.Yaml, defaults: seq<string>, documents: seq<Value>, overrides: seq<string>)
    ensures var all := defaults + overrides; var loaded := Loaded(y, defaults, documents, overrides);
      && (loaded.Fine? <==> forall i :: 0 <= i < |all| ==> Overlay(y, all[i]).Fine?)
      && (loaded.Bad? ==> exists i :: FirstRefused(y, all, loaded.error, i))
  {
    OverlaysAre(y, defaults);
    OverlaysAre(y, overrides);
    var all := defaults + overrides;
    var loaded := Loaded(y, defaults, documents, overrides);
    if Overlays(y, defaults).Bad? {
      var i :| FirstRefused(y, defaults, loaded.error, i);
      RefusedIn(y, defaults, overrides, loaded.error, i);
    } else if loaded.Bad? {
      var i :| FirstRefused(y, overrides, loaded.error, i);
      RefusedIn(y, defaults, overrides, loaded.error, i);
    } else {
      assert Reads(y, defaults, Overlays(y, defaults).value);
      assert Reads(y, overrides, Overlays(y, overrides).value);
    }
  }

  predicate Silent(layers: seq<Value>, path: seq<string>) {
    forall j :: 0 <= j < |layers| ==> !Speaks(layers[j], path)
  }

  predicate Decides(layers: seq<Value>, path: seq<string>, i: int) {
    0 <= i < |layers| && LastToSpeak(layers, path, i)
  }

  lemma ThreeLists(first: seq<Value>, middle: seq<Value>, last: seq<Value>, path: seq<string>, i: int)
    ensures var value := Fold(EMPTY, first + middle + last);
      && (Decides(last, path, i) ==> At(value, path) == At(last[i], path))
      && (Silent(last, path) && Decides(middle, path, i) ==> At(value, path) == At(middle[i], path))
      && (Silent(last, path) && Silent(middle, path) && Decides(first, path, i) ==>
            At(value, path) == At(first[i], path))
      && (Silent(last, path) && Silent(middle, path) && Silent(first, path) ==>
            At(value, path) == if path == [] then Node else Absent)
  {
    var layers := first + middle + last;
    var decider := LastLayerDecides(EMPTY, layers, path);
    var n, m := |first|, |first| + |middle|;
    if Decides(last, path, i) {
      OnlyOne(layers, path, decider, m + i);
    } else if Silent(last, path) && Decides(middle, path, i) {
      OnlyOne(layers, path, decider, n + i);
    } else if Silent(last, path) && Silent(middle, path) && Decides(first, path, i) {
      OnlyOne(layers, path, decider, i);
    }
  }

  /**
    At each path the last override that speaks there decides; without one the last
    document that does, its shorthands expanded; without either the last default;
    and without any nothing is there. No value at all is the result of no input at all.
  */
  lemma PrecedenceDecides(y: G.Yaml, defaults: seq<string>, documents: seq<Value>, overrides: seq<string>,
      path: seq<string>, i: int) returns (first: seq<Value>, middle: seq<Value>, last: seq<Value>)
    requires Loaded(y, defaults, documents, overrides).Fine?
    ensures |first| == |defaults| && forall k :: 0 <= k < |defaults| ==> Overlay(y, defaults[k]) == Fine(first[k])
    ensures |middle| == |documents| && forall k :: 0 <= k < |documents| ==> middle[k] == Expand(documents[k])
    ensures |last| == |overrides| && forall k :: 0 <= k < |overrides| ==> Overlay(y, overrides[k]) == Fine(last[k])
    ensures var value := Loaded(y, defaults, documents, overrides).value;
      && (value.None? <==> defaults == [] && documents == [] && overrides == [])
      && (value.Some? ==>
            && (Decides(last, path, i) ==> At(value.value, path) == At(last[i], path))
            && (Silent(last, path) && Decides(middle, path, i) ==> At(value.value, path) == At(middle[i], path))
            && (Silent(last, path) && Silent(middle, path) && Decides(first, path, i) ==>
                  At(value.value, path) == At(first[i], path))
            && (Silent(last, path) && Silent(middle, path) && Silent(first, path) ==>
                  At(value.value, path) == if path == [] then Node else Absent))
  {
    first, middle, last := Overlays(y, defaults).value, Expanded(documents), Overlays(y, overrides).value;
    OverlaysAre(y, defaults);
    OverlaysAre(y, overrides);
    assert Reads(y, defaults, first) && Reads(y, overrides, last);
    ExpandedAre(documents);
    ThreeLists(first, middle, last, path, i);
  }

  lemma OnlyOne(layers: seq<Value>, path: seq<string>, i: int, j: int)
    requires LastToSpeak(layers, path, i) && LastToSpeak(layers, path, j) && j >= 0
    ensures i == j
  {
  }

  /** An empty document alone makes an empty configuration, and no input at all makes none. */
  lemma EmptyDocumentIsEmpty(y: G.Yaml)
    ensures Loaded(y, [], [Object(map[])], []) == Fine(Some(Object(map[])))
    ensures Loaded(y, [], [], []) == Fine(None)
  {
    assert [EMPTY][..0] == [];
    assert Expanded([EMPTY]) == [Expand(EMPTY)] == [EMPTY];
    assert Layers(y, [], [EMPTY], []) == Fine([] + [EMPTY] + []);
    assert [] + [EMPTY] + [] == [EMPTY];
    assert Fold(EMPTY, [EMPTY]) == Merge(EMPTY, EMPTY);
    assert Merge(EMPTY, EMPTY).fields == map[];
  }

  // ----- What the layers are -----

  /** An R executable written as text, and a Python mapping that selects nothing but has a managed field or is empty. */
  lemma ExpandsExactly(v: Value)
    ensures !v.Object? ==> Expand(v) == v
    ensures v.Object? ==> Expand(v).Object? && Expand(v).fields.Keys == v.fields.Keys
    ensures v.Object? ==>
      forall k :: k in v.fields ==>
        var x := v.fields[k];
        Expand(v).fields[k]
        == if k == "r" && x.String? then Object(map["executable" := x])
           else if k == "python" && x.Object?
                   && "existing" !in x.fields && "managed" !in x.fields && "first_available" !in x.fields
                   && ("packages" in x.fields || "version" in x.fields || "resolution" in x.fields || x.fields == map[])
           then Object(map["managed" := x]) else x
  {
    if v.Object? && "python" in v.fields {
      var x := v.fields["python"];
      assert HasAny(x, SELECTORS) <==>
          x.Object? && ("existing" in x.fields || "managed" in x.fields || "first_available" in x.fields);
      assert HasAny(x, FIELDS) <==>
          x.Object? && ("packages" in x.fields || "version" in x.fields || "resolution" in x.fields);
    }
  }

  // ----- Keys with spaces -----

  lemma Associative(a: string, b: string, c: string)
    ensures (a + b) + c == a + (b + c)
  {
  }

  /** Text is the spaces before it, its trimmed form, and the spaces after it. */
  lemma TrimSplits(s: string) returns (lead: string, tail: string)
    ensures s == lead + G.Trim(s) + tail && G.Spaces(lead) && G.Spaces(tail)
    ensures G.Visible(G.Trim(s)) && G.EndsVisible(G.Trim(s))
    ensures G.Trim(s) == [] <==> G.Spaces(s)
  {
    var t := G.TrimStart(s);
    G.TrimStartSplits(s);
    G.TrimEndSplits(t);
    var core := G.TrimEnd(t);
    lead, tail := s[..|s| - |t|], t[|core|..];
    assert s == lead + t;
    assert t == core + tail;
    Associative(lead, core, tail);
    if G.Trim(s) == [] {
      assert tail == t == [] && s == lead;
    } else {
      assert s[|lead|] == G.Trim(s)[0];
    }
  }

  lemma {:induction false} TrimSpaces(s: string)
    requires G.Spaces(s)
    ensures G.Trim(s) == [] && G.TrimStart(s) == []
  {
    if s != [] {
      TrimSpaces(s[1..]);
    }
  }

  lemma TrimmedStart(s: string)
    ensures G.Trim(G.TrimStart(s)) == G.Trim(s)
  {
    var t := G.TrimStart(s);
    G.TrimStartSplits(s);
    G.TrimStartSkips([], t);
    assert [] + t == t;
  }

  lemma TrimmedEnd(s: string)
    ensures G.Trim(G.TrimEnd(s)) == G.Trim(s)
  {
    var lead, tail := TrimSplits(s);
    var core := G.Trim(s);
    if core == [] {
      G.TrimEndSplits(s);
      assert G.Spaces(G.TrimEnd(s));
      TrimSpaces(G.TrimEnd(s));
    } else {
      G.TrimEndSkips(lead + core, tail);
      G.TrimSkips(lead, core, []);
      assert lead + core + [] == lead + core;
    }
  }

  lemma TrimmedAgain(s: string)
    ensures G.Trim(G.Trim(s)) == G.Trim(s)
  {
    var lead, tail := TrimSplits(s);
    if G.Trim(s) != [] {
      G.TrimText(G.Trim(s), []);
      assert G.Trim(s) + [] == G.Trim(s);
    }
  }

  /** Trimming one end first changes nothing. */
  lemma TrimTwice(s: string)
    ensures G.Trim(G.TrimStart(s)) == G.Trim(s) && G.Trim(G.TrimEnd(s)) == G.Trim(s) && G.Trim(G.Trim(s)) == G.Trim(s)
  {
    TrimmedStart(s);
    TrimmedEnd(s);
    TrimmedAgain(s);
  }

  lemma {:induction false} TrimStartTo(s: string, rest: string)
    requires rest != [] && G.Visible(rest)
    ensures G.TrimStart(s + rest) == G.TrimStart(s) + rest
  {
    if s == [] {
      assert s + rest == rest;
    } else {
      assert (s + rest)[1..] == s[1..] + rest;
      TrimStartTo(s[1..], rest);
    }
  }

  lemma {:induction false} TrimEndTo(before: string, s: string)
    requires before != [] && G.EndsVisible(before)
    ensures G.TrimEnd(before + s) == before + G.TrimEnd(s)
  {
    if s == [] {
      assert before + s == before;
    } else {
      assert (before + s)[..|before + s| - 1] == before + s[..|s| - 1];
      TrimEndTo(before, s[..|s| - 1]);
    }
  }

  lemma {:induction false} JoinLast(parts: seq<string>, c: char)
    requires |parts| >= 2
    ensures Join(parts, c) == Join(parts[..|parts| - 1], c) + [c] + parts[|parts| - 1]
  {
    if |parts| > 2 {
      JoinLast(parts[1..], c);
      assert parts[1..][..|parts| - 2] == parts[..|parts| - 1][1..];
    }
  }

  lemma {:induction false} TrimmedAre(parts: seq<string>)
    ensures |Trimmed(parts)| == |parts| && forall i :: 0 <= i < |parts| ==> Trimmed(parts)[i] == G.Trim(parts[i])
  {
    if parts != [] {
      TrimmedAre(parts[1..]);
    }
  }

  /** Parts of which the first is trimmed on the left, and the last on the right. */
  function EndsTrimmed(parts: seq<string>): seq<string>
    requires parts != []
  {
    if |parts| == 1 then [G.Trim(parts[0])]
    else [G.TrimStart(parts[0])] + parts[1..|parts| - 1] + [G.TrimEnd(parts[|parts| - 1])]
  }

  lemma JoinFirst(first: string, rest: seq<string>)
    requires rest != []
    ensures Join([first] + rest, '.') == first + ("." + Join(rest, '.'))
  {
    assert ([first] + rest)[1..] == rest;
  }

  lemma TrimStartJoined(first: string, rest: seq<string>)
    requires rest != []
    ensures G.TrimStart(Join([first] + rest, '.')) == Join([G.TrimStart(first)] + rest, '.')
  {
    JoinFirst(first, rest);
    JoinFirst(G.TrimStart(first), rest);
    TrimStartTo(first, "." + Join(rest, '.'));
  }

  lemma TrimEndJoined(parts: seq<string>)
    requires |parts| >= 2
    ensures G.TrimEnd(Join(parts, '.')) == Join(parts[..|parts| - 1] + [G.TrimEnd(parts[|parts| - 1])], '.')
  {
    var before, last := parts[..|parts| - 1], parts[|parts| - 1];
    JoinLast(parts, '.');
    TrimEndTo(Join(before, '.') + ['.'], last);
    var ended := before + [G.TrimEnd(last)];
    assert ended[..|ended| - 1] == before;
    JoinLast(ended, '.');
  }

  lemma TrimJoined(parts: seq<string>)
    requires parts != []
    ensures G.Trim(Join(parts, '.')) == Join(EndsTrimmed(parts), '.')
  {
    if |parts| > 1 {
      TrimStartJoined(parts[0], parts[1..]);
      assert parts == [parts[0]] + parts[1..];
      var started := [G.TrimStart(parts[0])] + parts[1..];
      TrimEndJoined(started);
      assert started[..|started| - 1] + [G.TrimEnd(started[|started| - 1])] == EndsTrimmed(parts);
    }
  }

  lemma TrimmedWithout(s: string, c: char)
    requires c !in s
    ensures c !in G.TrimStart(s) && c !in G.TrimEnd(s) && c !in G.Trim(s)
  {
    G.TrimStartSplits(s);
    G.TrimEndSplits(s);
    G.TrimEndSplits(G.TrimStart(s));
  }

  lemma EndTrimmed(parts: seq<string>, i: nat)
    requires i < |parts|
    ensures var ended := EndsTrimmed(parts);
      && |ended| == |parts|
      && (|| ended[i] == parts[i] || ended[i] == G.TrimStart(parts[i])
          || ended[i] == G.TrimEnd(parts[i]) || ended[i] == G.Trim(parts[i]))
  {
  }

  lemma EndsTrimmedAlike(parts: seq<string>)
    requires parts != [] && forall i :: 0 <= i < |parts| ==> '.' !in parts[i]
    ensures Trimmed(EndsTrimmed(parts)) == Trimmed(parts)
    ensures forall i :: 0 <= i < |EndsTrimmed(parts)| ==> '.' !in EndsTrimmed(parts)[i]
  {
    var ended := EndsTrimmed(parts);
    TrimmedAre(parts);
    TrimmedAre(ended);
    forall i: nat | i < |parts|
      ensures Trimmed(ended)[i] == Trimmed(parts)[i] && '.' !in ended[i]
    {
      EndTrimmed(parts, i);
      TrimTwice(parts[i]);
      TrimmedWithout(parts[i], '.');
    }
  }

  lemma {:induction false} JoinedWithout(parts: seq<string>, c: char)
    requires parts != [] && c != '.' && forall i :: 0 <= i < |parts| ==> c !in parts[i]
    ensures c !in Join(parts, '.')
  {
    if |parts| > 1 {
      JoinedWithout(parts[1..], c);
    }
  }

  /**
    An argument without an equals sign is refused. Otherwise the text before the first one is
    cut at its dots, and spaces around each part do not count; a part of spaces alone is
    refused; and the value of what follows is put at those keys.
  */
  lemma ArgumentReads(y: G.Yaml, argument: string, parts: seq<string>, source: string) returns (keys: seq<string>)
    requires parts != [] && forall i :: 0 <= i < |parts| ==> '.' !in parts[i] && '=' !in parts[i]
    ensures '=' !in argument ==> Overlay(y, argument) == Bad(NoEquals)
    ensures |keys| == |parts| && forall i :: 0 <= i < |parts| ==> keys[i] == G.Trim(parts[i])
    ensures argument == Join(parts, '.') + "=" + source ==>
      var parsed := G.Parse(y, source);
      Overlay(y, argument)
      == if exists i :: 0 <= i < |parts| && G.Spaces(parts[i]) then Bad(EmptyKey)
         else if parsed.Err? then Bad(Inline(parsed.error))
         else Fine(Expand(Nest(keys, parsed.value)))
  {
    keys := Trimmed(parts);
    TrimmedAre(parts);
    if argument == Join(parts, '.') + "=" + source {
      JoinedWithout(parts, '=');
      EqualsIs(Join(parts, '.'), source);
      TrimJoined(parts);
      EndsTrimmedAlike(parts);
      SplitJoins(EndsTrimmed(parts), '.');
      assert KeysOf(argument) == keys;
      forall i | 0 <= i < |parts|
        ensures keys[i] == "" <==> G.Spaces(parts[i])
      {
        var lead, tail := TrimSplits(parts[i]);
      }
      assert "" in keys <==> exists i :: 0 <= i < |keys| && keys[i] == "";
    }
  }
}
