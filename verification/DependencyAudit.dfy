/**
  The dependency audit of `scripts/release.py`: every library that an ELF file
  of the wheel needs is a system library or is found in the wheel, the way glibc
  would find it. `join` stands for joining and normalizing a path.
*/
module DependencyAudit {
  import opened Options

  datatype Elf = Elf(needed: seq<string>, rpaths: seq<string>, runpath: Option<seq<string>>, interpreter: bool)

  datatype Wheel = Wheel(
    members: seq<string>,
    elves: map<string, Elf>,
    installed: map<string, string>,
    system: set<string>,
    join: (string, string) -> string)

  /** The evidence lists every ELF once, and every installed path is one of them. */
  ghost predicate Consistent(w: Wheel) {
    && Distinct(w.members)
    && (forall m :: m in w.members <==> m in w.elves)
    && (forall p :: p in w.installed ==> w.installed[p] in w.elves)
  }

  predicate Distinct(xs: seq<string>) {
    forall i, j :: 0 <= i < j < |xs| ==> xs[i] != xs[j]
  }

  // ----- Search paths -----

  /** The first occurrences, in order. */
  function Unique(xs: seq<string>): seq<string> {
    if xs == [] then []
    else
      var before := Unique(xs[..|xs| - 1]);
      if xs[|xs| - 1] in before then before else before + [xs[|xs| - 1]]
  }

  lemma {:induction false} UniqueIs(xs: seq<string>)
    ensures Distinct(Unique(xs)) && forall x :: x in Unique(xs) <==> x in xs
  {
    if xs != [] {
      UniqueIs(xs[..|xs| - 1]);
      assert xs == xs[..|xs| - 1] + [xs[|xs| - 1]];
    }
  }

  /** Where the children of a member look: its own paths, then those of its ancestors. */
  function Ancestors(elf: Elf, inherited: seq<string>): seq<string> {
    Unique(elf.rpaths + inherited)
  }

  /** RUNPATH replaces every inherited path for this member. */
  function Search(elf: Elf, inherited: seq<string>): seq<string> {
    if elf.runpath.Some? then elf.runpath.value else Ancestors(elf, inherited)
  }

  /** A name is found in the `k`-th of some paths, and in none before it. */
  ghost predicate FoundAt(w: Wheel, search: seq<string>, name: string, dependency: string, k: nat) {
    && k < |search| && w.join(search[k], name) in w.installed
    && w.installed[w.join(search[k], name)] == dependency
    && forall j :: 0 <= j < k ==> w.join(search[j], name) !in w.installed
  }

  /** `dependency` is what the first matching path of `search` holds. */
  ghost predicate IsFirstMatch(w: Wheel, search: seq<string>, name: string, dependency: string) {
    exists k: nat :: FoundAt(w, search, name, dependency, k)
  }

  ghost predicate NoMatch(w: Wheel, search: seq<string>, name: string) {
    forall k :: 0 <= k < |search| ==> w.join(search[k], name) !in w.installed
  }

  function First(w: Wheel, search: seq<string>, name: string): Option<string> {
    if search == [] then None
    else
      var candidate := w.join(search[0], name);
      if candidate in w.installed then Some(w.installed[candidate]) else First(w, search[1..], name)
  }

  lemma {:induction false} FirstIs(w: Wheel, search: seq<string>, name: string)
    ensures First(w, search, name).None? <==> NoMatch(w, search, name)
    ensures First(w, search, name).Some? ==> IsFirstMatch(w, search, name, First(w, search, name).value)
  {
    if search == [] {
    } else if w.join(search[0], name) in w.installed {
      assert FoundAt(w, search, name, w.installed[w.join(search[0], name)], 0);
    } else {
      var rest := search[1..];
      FirstIs(w, rest, name);
      assert forall k :: 1 <= k < |search| ==> search[k] == rest[k - 1];
      if First(w, rest, name).Some? {
        var found := First(w, rest, name).value;
        var k: nat :| FoundAt(w, rest, name, found, k);
        assert search[k + 1] == rest[k];
        assert FoundAt(w, search, name, found, k + 1);
      }
    }
  }

  // ----- Loading -----

  /**
    A mapped member: the search paths that it inherits, and the earlier member
    that first needed it, under the name `via`.
  */
  datatype Node = Node(member: string, inherited: seq<string>, parent: nat, via: string)

  /** What a loaded name stands for, and the member that needed it first. */
  datatype Binding = Binding(dependency: string, binder: nat)

  /** The members in the order in which they are mapped, and the loaded names. */
  datatype Loading = Loading(nodes: seq<Node>, bindings: map<string, Binding>)

  function Members(l: Loading): set<string> {
    set i | 0 <= i < |l.nodes| :: l.nodes[i].member
  }

  ghost predicate Shaped(w: Wheel, l: Loading) {
    && l.nodes != []
    && (forall i :: 0 <= i < |l.nodes| ==> l.nodes[i].member in w.elves)
    && (forall i, j :: 0 <= i < j < |l.nodes| ==> l.nodes[i].member != l.nodes[j].member)
  }

  function NeededBy(w: Wheel, l: Loading, i: nat): seq<string>
    requires i < |l.nodes| && l.nodes[i].member in w.elves
  {
    w.elves[l.nodes[i].member].needed
  }

  function AncestorsOf(w: Wheel, l: Loading, i: nat): seq<string>
    requires i < |l.nodes| && l.nodes[i].member in w.elves
  {
    Ancestors(w.elves[l.nodes[i].member], l.nodes[i].inherited)
  }

  function SearchOf(w: Wheel, l: Loading, i: nat): seq<string>
    requires i < |l.nodes| && l.nodes[i].member in w.elves
  {
    Search(w.elves[l.nodes[i].member], l.nodes[i].inherited)
  }

  /** A parent is mapped before its child, which it found under the child's name, and passes on its paths. */
  ghost predicate Child(w: Wheel, l: Loading, i: nat)
    requires Shaped(w, l) && i < |l.nodes|
  {
    var x := l.nodes[i];
    && x.parent < i
    && x.inherited == AncestorsOf(w, l, x.parent)
    && x.via in NeededBy(w, l, x.parent)
    && x.via in l.bindings && l.bindings[x.via] == Binding(x.member, x.parent)
  }

  /** Breadth first: children are mapped in the order of their parents. */
  ghost predicate BreadthFirst(w: Wheel, l: Loading, entry: string)
    requires Shaped(w, l)
  {
    && l.nodes[0].member == entry && l.nodes[0].inherited == []
    && (forall i: nat :: 0 < i < |l.nodes| ==> Child(w, l, i))
    && (forall i, j :: 0 < i < j < |l.nodes| ==> l.nodes[i].parent <= l.nodes[j].parent)
  }

  /** A loaded name is bound to the first match of the member that needed it first; both are mapped. */
  ghost predicate Resolved(w: Wheel, l: Loading, name: string)
    requires Shaped(w, l) && name in l.bindings
  {
    var b := l.bindings[name];
    && b.dependency in Members(l)
    && b.binder < |l.nodes|
    && name in NeededBy(w, l, b.binder)
    && IsFirstMatch(w, SearchOf(w, l, b.binder), name, b.dependency)
  }

  ghost predicate Bound(w: Wheel, l: Loading)
    requires Shaped(w, l)
  {
    forall name :: name in l.bindings ==> Resolved(w, l, name)
  }

  predicate Met(w: Wheel, l: Loading, name: string) {
    '/' !in name && (name in w.system || name in l.bindings)
  }

  /** Everything that the first `n` members need is met. */
  ghost predicate AllMet(w: Wheel, l: Loading, n: nat)
    requires Shaped(w, l) && n <= |l.nodes|
  {
    forall i: nat, name :: i < n && name in NeededBy(w, l, i) ==> Met(w, l, name)
  }

  datatype Failure = SlashInName(member: string, name: string) | Undeclared(member: string, name: string)
                   | MissingCommand(name: string)

  /** What is wrong where the audit stops. */
  ghost predicate Fails(w: Wheel, l: Loading, i: nat, failure: Failure)
    requires i < |l.nodes| && l.nodes[i].member in w.elves
  {
    match failure
    case SlashInName(member, name) => member == l.nodes[i].member && name in NeededBy(w, l, i) && '/' in name
    case Undeclared(member, name) =>
      && member == l.nodes[i].member && name in NeededBy(w, l, i)
      && !Met(w, l, name) && '/' !in name && NoMatch(w, SearchOf(w, l, i), name)
    case MissingCommand(_) => false
  }

  // ----- Binding one more name -----

  /** Binds a name of member `i`, and maps its member if that is new. */
  function Bind(w: Wheel, l: Loading, i: nat, name: string, dependency: string): Loading
    requires i < |l.nodes| && l.nodes[i].member in w.elves
  {
    Loading(
      if dependency in Members(l) then l.nodes
      else l.nodes + [Node(dependency, AncestorsOf(w, l, i), i, name)],
      l.bindings[name := Binding(dependency, i)])
  }

  ghost predicate Extends(l: Loading, t: Loading) {
    && |l.nodes| <= |t.nodes|
    && (forall i :: 0 <= i < |l.nodes| ==> t.nodes[i] == l.nodes[i])
    && (forall name :: name in l.bindings ==> name in t.bindings && t.bindings[name] == l.bindings[name])
  }

  lemma BindExtends(w: Wheel, l: Loading, i: nat, name: string, dependency: string)
    requires Shaped(w, l) && i < |l.nodes| && name !in l.bindings && dependency in w.elves
    ensures var t := Bind(w, l, i, name, dependency);
      && Shaped(w, t) && Extends(l, t)
      && Members(t) == Members(l) + {dependency}
  {
    var t := Bind(w, l, i, name, dependency);
    if dependency !in Members(l) {
      assert t.nodes[|l.nodes|].member == dependency;
      assert forall j :: 0 <= j < |l.nodes| ==> l.nodes[j].member in Members(l);
      assert forall j :: 0 <= j < |l.nodes| ==> t.nodes[j].member in Members(t);
    }
  }

  lemma ChildStays(w: Wheel, l: Loading, t: Loading, i: nat)
    requires Shaped(w, l) && Shaped(w, t) && Extends(l, t) && i < |l.nodes| && Child(w, l, i)
    ensures Child(w, t, i)
  {
  }

  lemma ResolvedStays(w: Wheel, l: Loading, t: Loading, name: string)
    requires Shaped(w, l) && Shaped(w, t) && Extends(l, t) && Members(l) <= Members(t)
    requires name in l.bindings && Resolved(w, l, name)
    ensures Resolved(w, t, name)
  {
  }

  /** Nothing that is mapped has a parent after `i`. */
  ghost predicate UpTo(l: Loading, i: nat) {
    forall j :: 0 < j < |l.nodes| ==> l.nodes[j].parent <= i
  }

  lemma BindKeepsOrder(w: Wheel, l: Loading, entry: string, i: nat, name: string, dependency: string)
    requires Shaped(w, l) && i < |l.nodes| && name !in l.bindings && dependency in w.elves
    requires BreadthFirst(w, l, entry) && UpTo(l, i) && name in NeededBy(w, l, i)
    ensures var t := Bind(w, l, i, name, dependency);
      Shaped(w, t) && BreadthFirst(w, t, entry) && UpTo(t, i)
  {
    BindExtends(w, l, i, name, dependency);
    var t := Bind(w, l, i, name, dependency);
    forall j: nat | 0 < j < |t.nodes|
      ensures Child(w, t, j)
    {
      if j < |l.nodes| {
        ChildStays(w, l, t, j);
      }
    }
  }

  lemma BindKeepsBound(w: Wheel, l: Loading, i: nat, name: string, dependency: string)
    requires Shaped(w, l) && i < |l.nodes| && name !in l.bindings && dependency in w.elves
    requires Bound(w, l) && name in NeededBy(w, l, i) && IsFirstMatch(w, SearchOf(w, l, i), name, dependency)
    ensures var t := Bind(w, l, i, name, dependency); Shaped(w, t) && Bound(w, t)
  {
    BindExtends(w, l, i, name, dependency);
    var t := Bind(w, l, i, name, dependency);
    forall other | other in t.bindings
      ensures Resolved(w, t, other)
    {
      if other != name {
        ResolvedStays(w, l, t, other);
      } else {
        assert SearchOf(w, t, i) == SearchOf(w, l, i);
      }
    }
  }

  lemma MetStays(w: Wheel, l: Loading, t: Loading, n: nat)
    requires Shaped(w, l) && Shaped(w, t) && Extends(l, t) && n <= |l.nodes| && AllMet(w, l, n)
    ensures AllMet(w, t, n)
  {
    forall i: nat, name | i < n && name in NeededBy(w, t, i)
      ensures Met(w, t, name)
    {
      assert NeededBy(w, t, i) == NeededBy(w, l, i);
      assert Met(w, l, name);
    }
  }

  // ----- The loader -----

  /** Binds what member `i` needs from its `k`-th name on. */
  function LoadNeeded(w: Wheel, l: Loading, i: nat, k: nat): (Loading, Option<Failure>)
    requires i < |l.nodes| && l.nodes[i].member in w.elves && k <= |NeededBy(w, l, i)|
    decreases |NeededBy(w, l, i)| - k
  {
    if k == |NeededBy(w, l, i)| then (l, None)
    else
      var name := NeededBy(w, l, i)[k];
      if '/' in name then (l, Some(SlashInName(l.nodes[i].member, name)))
      else if name in w.system || name in l.bindings then LoadNeeded(w, l, i, k + 1)
      else
        var dependency := First(w, SearchOf(w, l, i), name);
        if dependency.None? then (l, Some(Undeclared(l.nodes[i].member, name)))
        else LoadNeeded(w, Bind(w, l, i, name, dependency.value), i, k + 1)
  }

  ghost predicate Sound(w: Wheel, l: Loading, entry: string) {
    Shaped(w, l) && BreadthFirst(w, l, entry) && Bound(w, l)
  }

  lemma BindKeeps(w: Wheel, l: Loading, entry: string, i: nat, name: string)
    requires Consistent(w) && Looking(w, l, entry, i)
    requires name in NeededBy(w, l, i) && name !in l.bindings && First(w, SearchOf(w, l, i), name).Some?
    ensures var t := Bind(w, l, i, name, First(w, SearchOf(w, l, i), name).value);
      Looking(w, t, entry, i)
  {
    var dependency := First(w, SearchOf(w, l, i), name).value;
    FirstIs(w, SearchOf(w, l, i), name);
    BindExtends(w, l, i, name, dependency);
    BindKeepsOrder(w, l, entry, i, name, dependency);
    BindKeepsBound(w, l, i, name, dependency);
  }

  lemma ExtendsOn(l: Loading, t: Loading, u: Loading)
    requires Extends(l, t) && Extends(t, u)
    ensures Extends(l, u)
  {
  }

  lemma {:induction false} LoadNeededExtends(w: Wheel, l: Loading, i: nat, k: nat)
    requires i < |l.nodes| && l.nodes[i].member in w.elves && k <= |NeededBy(w, l, i)|
    ensures Extends(l, LoadNeeded(w, l, i, k).0)
    decreases |NeededBy(w, l, i)| - k
  {
    if k < |NeededBy(w, l, i)| {
      var name := NeededBy(w, l, i)[k];
      if '/' in name {
      } else if name in w.system || name in l.bindings {
        LoadNeededExtends(w, l, i, k + 1);
      } else if First(w, SearchOf(w, l, i), name).Some? {
        var t := Bind(w, l, i, name, First(w, SearchOf(w, l, i), name).value);
        LoadNeededExtends(w, t, i, k + 1);
        ExtendsOn(l, t, LoadNeeded(w, t, i, k + 1).0);
      }
    }
  }

  /** Member `i` is being looked at. */
  ghost predicate Looking(w: Wheel, l: Loading, entry: string, i: nat) {
    Sound(w, l, entry) && i < |l.nodes| && UpTo(l, i)
  }

  lemma {:induction false} LoadNeededKeeps(w: Wheel, l: Loading, entry: string, i: nat, k: nat)
    requires Consistent(w) && Looking(w, l, entry, i) && k <= |NeededBy(w, l, i)|
    ensures Looking(w, LoadNeeded(w, l, i, k).0, entry, i)
    decreases |NeededBy(w, l, i)| - k
  {
    if k < |NeededBy(w, l, i)| {
      var name := NeededBy(w, l, i)[k];
      if '/' in name {
      } else if name in w.system || name in l.bindings {
        LoadNeededKeeps(w, l, entry, i, k + 1);
      } else if First(w, SearchOf(w, l, i), name).Some? {
        BindKeeps(w, l, entry, i, name);
        LoadNeededKeeps(w, Bind(w, l, i, name, First(w, SearchOf(w, l, i), name).value), entry, i, k + 1);
      }
    }
  }

  /** What is met, or needed, stays so. */
  lemma {:induction false} LoadNeededMeets(w: Wheel, l: Loading, i: nat, k: nat)
    requires i < |l.nodes| && l.nodes[i].member in w.elves && k <= |NeededBy(w, l, i)|
    requires forall j :: 0 <= j < k ==> Met(w, l, NeededBy(w, l, i)[j])
    ensures LoadNeeded(w, l, i, k).1.None? ==>
      forall j :: 0 <= j < |NeededBy(w, l, i)| ==> Met(w, LoadNeeded(w, l, i, k).0, NeededBy(w, l, i)[j])
    decreases |NeededBy(w, l, i)| - k
  {
    if k < |NeededBy(w, l, i)| {
      var name := NeededBy(w, l, i)[k];
      if '/' in name {
      } else if name in w.system || name in l.bindings {
        LoadNeededMeets(w, l, i, k + 1);
      } else if First(w, SearchOf(w, l, i), name).Some? {
        LoadNeededMeets(w, Bind(w, l, i, name, First(w, SearchOf(w, l, i), name).value), i, k + 1);
      }
    }
  }

  lemma {:induction false} LoadNeededFails(w: Wheel, l: Loading, i: nat, k: nat)
    requires i < |l.nodes| && l.nodes[i].member in w.elves && k <= |NeededBy(w, l, i)|
    ensures var (t, failure) := LoadNeeded(w, l, i, k);
      failure.Some? ==> i < |t.nodes| && t.nodes[i].member in w.elves && Fails(w, t, i, failure.value)
    decreases |NeededBy(w, l, i)| - k
  {
    if k < |NeededBy(w, l, i)| {
      var name := NeededBy(w, l, i)[k];
      if '/' in name {
      } else if name in w.system || name in l.bindings {
        LoadNeededFails(w, l, i, k + 1);
      } else if First(w, SearchOf(w, l, i), name).Some? {
        LoadNeededFails(w, Bind(w, l, i, name, First(w, SearchOf(w, l, i), name).value), i, k + 1);
      } else {
        FirstIs(w, SearchOf(w, l, i), name);
      }
    }
  }

  /** Mapping more members leaves fewer to map. */
  lemma Measure(w: Wheel, l: Loading, t: Loading)
    requires Shaped(w, l) && Shaped(w, t) && Extends(l, t)
    ensures Members(l) <= Members(t) <= w.elves.Keys
    ensures |t.nodes| == |l.nodes| ==> Members(t) == Members(l)
    ensures |t.nodes| > |l.nodes| ==> |w.elves.Keys - Members(t)| < |w.elves.Keys - Members(l)|
  {
    assert forall i :: 0 <= i < |l.nodes| ==> l.nodes[i].member == t.nodes[i].member;
    if |t.nodes| > |l.nodes| {
      var m := t.nodes[|l.nodes|].member;
      assert m in Members(t) && m !in Members(l) && m in w.elves;
      Smaller(w.elves.Keys - Members(t), w.elves.Keys - Members(l), m);
    }
  }

  lemma Smaller(a: set<string>, b: set<string>, x: string)
    requires a <= b && x in b && x !in a
    ensures |a| < |b|
  {
    var rest := b - a;
    assert x in rest && b == a + rest;
  }

  /** All members before the `i`-th have been looked at. */
  ghost predicate Reached(w: Wheel, l: Loading, entry: string, i: nat) {
    Sound(w, l, entry) && i <= |l.nodes| && UpTo(l, i)
  }

  /** Looking at one member keeps going: fewer are left to map, or to look at. */
  lemma LookAt(w: Wheel, l: Loading, entry: string, i: nat)
    requires Consistent(w) && Reached(w, l, entry, i) && i < |l.nodes|
    ensures var t := LoadNeeded(w, l, i, 0).0;
      && Reached(w, t, entry, i + 1) && Extends(l, t)
      && (|t.nodes| == |l.nodes| ==> Members(t) == Members(l))
      && (|t.nodes| > |l.nodes| ==> |w.elves.Keys - Members(t)| < |w.elves.Keys - Members(l)|)
  {
    LoadNeededKeeps(w, l, entry, i, 0);
    LoadNeededExtends(w, l, i, 0);
    Measure(w, l, LoadNeeded(w, l, i, 0).0);
  }

  lemma LookedAtMeets(w: Wheel, l: Loading, entry: string, i: nat)
    requires Consistent(w) && Reached(w, l, entry, i) && i < |l.nodes| && AllMet(w, l, i)
    ensures var (t, failure) := LoadNeeded(w, l, i, 0);
      && Shaped(w, t) && i < |t.nodes| && AllMet(w, t, i)
      && (failure.None? ==> AllMet(w, t, i + 1))
      && (failure.Some? ==> Fails(w, t, i, failure.value))
  {
    var (t, failure) := LoadNeeded(w, l, i, 0);
    LookAt(w, l, entry, i);
    LoadNeededMeets(w, l, i, 0);
    LoadNeededFails(w, l, i, 0);
    MetStays(w, l, t, i);
    assert NeededBy(w, t, i) == NeededBy(w, l, i);
  }

  /** Looks at the mapped members from the `i`-th on, in order, as they are found. */
  ghost function LoadRest(w: Wheel, l: Loading, entry: string, i: nat): (Loading, Option<Failure>)
    requires Consistent(w) && Reached(w, l, entry, i)
    decreases |w.elves.Keys - Members(l)|, |l.nodes| - i
  {
    if i == |l.nodes| then (l, None)
    else
      var (t, failure) := LoadNeeded(w, l, i, 0);
      LookAt(w, l, entry, i);
      if failure.Some? then (t, failure) else LoadRest(w, t, entry, i + 1)
  }

  function Start(entry: string): Loading {
    Loading([Node(entry, [], 0, "")], map[])
  }

  /** What `check_dependencies` maps from an entry, and where it stops if it does. */
  ghost function Load(w: Wheel, entry: string): (Loading, Option<Failure>)
    requires Consistent(w) && entry in w.elves
  {
    LoadRest(w, Start(entry), entry, 0)
  }

  /** `failure` is what is wrong with one of the members, and everything before it is met; or all are met. */
  ghost predicate Ends(w: Wheel, t: Loading, failure: Option<Failure>)
    requires Shaped(w, t)
  {
    if failure.None? then AllMet(w, t, |t.nodes|)
    else exists n: nat :: n < |t.nodes| && AllMet(w, t, n) && Fails(w, t, n, failure.value)
  }

  lemma {:induction false} LoadRestMeets(w: Wheel, l: Loading, entry: string, i: nat)
    requires Consistent(w) && Reached(w, l, entry, i) && AllMet(w, l, i)
    ensures var (t, failure) := LoadRest(w, l, entry, i); Sound(w, t, entry) && Ends(w, t, failure)
    decreases |w.elves.Keys - Members(l)|, |l.nodes| - i
  {
    if i < |l.nodes| {
      var (t, failure) := LoadNeeded(w, l, i, 0);
      LookAt(w, l, entry, i);
      LookedAtMeets(w, l, entry, i);
      if failure.None? {
        LoadRestMeets(w, t, entry, i + 1);
      }
    }
  }

  /**
    The members are mapped breadth first, also around cycles. On success every
    needed name of every mapped member is a system library, or is bound to a
    mapped member by the first match where it was first needed. On failure
    everything before the failing member is met.
  */
  lemma LoadMeets(w: Wheel, entry: string)
    requires Consistent(w) && entry in w.elves
    ensures var (l, failure) := Load(w, entry);
      && Shaped(w, l) && BreadthFirst(w, l, entry) && Bound(w, l)
      && Ends(w, l, failure)
  {
    LoadRestMeets(w, Start(entry), entry, 0);
  }

  // ----- The code: a queue, and sets of loaded names and members -----

  method Find(w: Wheel, search: seq<string>, name: string) returns (dependency: Option<string>)
    ensures dependency == First(w, search, name)
  {
    for k := 0 to |search|
      invariant First(w, search[k..], name) == First(w, search, name)
    {
      var candidate := w.join(search[k], name);
      if candidate in w.installed {
        return Some(w.installed[candidate]);
      }
    }
    return None;
  }

  /** The queue holds what is mapped from the `i`-th member on, with its inherited search paths. */
  ghost predicate Queued(l: Loading, i: nat, pending: seq<(string, seq<string>)>) {
    && i + |pending| == |l.nodes|
    && forall k :: 0 <= k < |pending| ==> pending[k] == (l.nodes[i + k].member, l.nodes[i + k].inherited)
  }

  ghost predicate Represents(l: Loading, i: nat, names: set<string>, members: set<string>,
                             pending: seq<(string, seq<string>)>) {
    names == l.bindings.Keys && members == Members(l) && Queued(l, i, pending)
  }

  lemma BindRepresents(w: Wheel, l: Loading, i: nat, name: string, dependency: string, names: set<string>,
      members: set<string>, pending: seq<(string, seq<string>)>)
    requires i < |l.nodes| && l.nodes[i].member in w.elves && Represents(l, i + 1, names, members, pending)
    ensures Represents(Bind(w, l, i, name, dependency), i + 1, names + {name}, members + {dependency},
      if dependency in members then pending else pending + [(dependency, AncestorsOf(w, l, i))])
  {
    var t := Bind(w, l, i, name, dependency);
    if dependency !in members {
      assert t.nodes[|l.nodes|].member == dependency;
      assert forall j :: 0 <= j < |l.nodes| ==> t.nodes[j].member == l.nodes[j].member;
      assert forall m :: m in Members(t) <==> m in members + {dependency};
    } else {
      assert Members(t) == members;
    }
  }

  /** One turn of the loop: a member, off the queue, and everything that it needs. */
  method LoadMember(w: Wheel, member: string, inherited: seq<string>, names: set<string>, members: set<string>,
      pending: seq<(string, seq<string>)>, ghost l: Loading, ghost i: nat)
    returns (failure: Option<Failure>, newNames: set<string>, newMembers: set<string>,
      newPending: seq<(string, seq<string>)>, ghost t: Loading)
    requires i < |l.nodes| && member == l.nodes[i].member && inherited == l.nodes[i].inherited
    requires member in w.elves && Represents(l, i + 1, names, members, pending)
    ensures (t, failure) == LoadNeeded(w, l, i, 0)
    ensures Represents(t, i + 1, newNames, newMembers, newPending)
  {
    var elf := w.elves[member];
    var ancestors := Ancestors(elf, inherited);
    var search := if elf.runpath.Some? then elf.runpath.value else ancestors;
    newNames, newMembers, newPending, t := names, members, pending, l;
    for k := 0 to |elf.needed|
      invariant i < |t.nodes| && t.nodes[i] == l.nodes[i]
      invariant LoadNeeded(w, t, i, k) == LoadNeeded(w, l, i, 0)
      invariant Represents(t, i + 1, newNames, newMembers, newPending)
    {
      var name := elf.needed[k];
      if '/' in name {
        return Some(SlashInName(member, name)), newNames, newMembers, newPending, t;
      }
      if name !in w.system && name !in newNames {
        var dependency := Find(w, search, name);
        if dependency.None? {
          return Some(Undeclared(member, name)), newNames, newMembers, newPending, t;
        }
        BindRepresents(w, t, i, name, dependency.value, newNames, newMembers, newPending);
        t := Bind(w, t, i, name, dependency.value);
        newNames := newNames + {name};
        if dependency.value !in newMembers {
          newPending := newPending + [(dependency.value, ancestors)];
        }
        newMembers := newMembers + {dependency.value};
      }
    }
    failure := None;
  }

  /** With `i` members looked at, the rest of the work leads to the result of the whole. */
  ghost predicate OnTheWay(w: Wheel, entry: string, l: Loading, i: nat)
    requires Consistent(w) && entry in w.elves
  {
    Reached(w, l, entry, i) && LoadRest(w, l, entry, i) == Load(w, entry)
  }

  lemma Turn(w: Wheel, entry: string, l: Loading, i: nat)
    requires Consistent(w) && entry in w.elves && OnTheWay(w, entry, l, i) && i < |l.nodes|
    ensures l.nodes[i].member in w.elves
    ensures var (t, failure) := LoadNeeded(w, l, i, 0);
      && (failure.Some? ==> failure == Load(w, entry).1)
      && (failure.None? ==> OnTheWay(w, entry, t, i + 1))
  {
    LookAt(w, l, entry, i);
  }

  lemma TurnEnds(w: Wheel, entry: string, l: Loading, i: nat)
    requires Consistent(w) && entry in w.elves && OnTheWay(w, entry, l, i) && i == |l.nodes|
    ensures Load(w, entry) == (l, None)
  {
  }

  lemma LooksAt(l: Loading, t: Loading, i: nat)
    requires Extends(l, t) && i < |l.nodes|
    ensures LookedAt(t, i + 1) == LookedAt(l, i) + {l.nodes[i].member}
  {
    assert forall k :: 0 <= k <= i ==> t.nodes[k] == l.nodes[k];
  }

  function LookedAt(l: Loading, i: nat): set<string>
    requires i <= |l.nodes|
  {
    set k | 0 <= k < i :: l.nodes[k].member
  }

  /** The loop of `check_dependencies`, from a state in which `i` members have been looked at. */
  ghost predicate State(w: Wheel, entry: string, l: Loading, i: nat, checked: set<string>, nowChecked: set<string>)
    requires Consistent(w) && entry in w.elves
  {
    i <= |l.nodes| && OnTheWay(w, entry, l, i) && nowChecked == checked + LookedAt(l, i)
  }

  lemma Advance(w: Wheel, entry: string, l: Loading, i: nat, checked: set<string>, nowChecked: set<string>)
    requires Consistent(w) && entry in w.elves && State(w, entry, l, i, checked, nowChecked) && i < |l.nodes|
    ensures l.nodes[i].member in w.elves
    ensures var (t, failure) := LoadNeeded(w, l, i, 0);
      && (failure.Some? ==> failure == Load(w, entry).1)
      && (failure.None? ==> State(w, entry, t, i + 1, checked, nowChecked + {l.nodes[i].member}))
      && |l.nodes| <= |t.nodes|
      && (|t.nodes| == |l.nodes| ==> Members(t) == Members(l))
      && (|t.nodes| > |l.nodes| ==> |w.elves.Keys - Members(t)| < |w.elves.Keys - Members(l)|)
  {
    Turn(w, entry, l, i);
    LookAt(w, l, entry, i);
    LooksAt(l, LoadNeeded(w, l, i, 0).0, i);
  }

  lemma Finished(w: Wheel, entry: string, l: Loading, i: nat, checked: set<string>, nowChecked: set<string>)
    requires Consistent(w) && entry in w.elves && State(w, entry, l, i, checked, nowChecked) && i == |l.nodes|
    ensures Load(w, entry).1.None? && nowChecked == checked + Members(Load(w, entry).0)
  {
    TurnEnds(w, entry, l, i);
    assert LookedAt(l, i) == Members(l);
  }

  /** `check_dependencies`: what it has looked at, and the failure that stops it. */
  method CheckDependencies(w: Wheel, entry: string, checked: set<string>)
    returns (failure: Option<Failure>, nowChecked: set<string>)
    requires Consistent(w) && entry in w.elves
    ensures failure == Load(w, entry).1
    ensures failure.None? ==> nowChecked == checked + Members(Load(w, entry).0)
  {
    var names: set<string> := {};
    var members := {entry};
    var pending := [(entry, [])];
    ghost var l, i: nat := Start(entry), 0;
    nowChecked := checked;
    while pending != []
      invariant State(w, entry, l, i, checked, nowChecked)
      invariant Represents(l, i, names, members, pending)
      decreases |w.elves.Keys - Members(l)|, |pending|
    {
      Advance(w, entry, l, i, checked, nowChecked);
      var (member, inherited) := pending[0];
      pending := pending[1..];
      nowChecked := nowChecked + {member};
      failure, names, members, pending, l := LoadMember(w, member, inherited, names, members, pending, l, i);
      if failure.Some? {
        return;
      }
      i := i + 1;
    }
    Finished(w, entry, l, i, checked, nowChecked);
    failure := None;
  }

  // ----- The whole wheel -----

  /**
    What a mapped member needs has plain names, each of a system library or bound
    to the first match of the member that needed it first.
  */
  ghost predicate CoveredIn(w: Wheel, l: Loading, m: string)
    requires Shaped(w, l)
  {
    && m in Members(l) && m in w.elves
    && forall name :: name in w.elves[m].needed ==>
         '/' !in name && (name in w.system || (name in l.bindings && Resolved(w, l, name)))
  }

  /** What one load maps. */
  ghost function Mapped(w: Wheel, start: string): set<string>
    requires Consistent(w) && start in w.elves
  {
    Members(Load(w, start).0)
  }

  /** A load that succeeds covers everything that it maps. */
  lemma LoadedIsCovered(w: Wheel, start: string, m: string)
    requires Consistent(w) && start in w.elves && Load(w, start).1.None? && m in Mapped(w, start)
    ensures var l := Load(w, start).0; Shaped(w, l) && CoveredIn(w, l, m)
  {
    LoadMeets(w, start);
    var l := Load(w, start).0;
    var i: nat :| i < |l.nodes| && l.nodes[i].member == m;
    forall name | name in w.elves[m].needed
      ensures '/' !in name && (name in w.system || (name in l.bindings && Resolved(w, l, name)))
    {
      assert name in NeededBy(w, l, i) && Met(w, l, name);
    }
  }

  /** What a load maps are ELFs of the wheel, and its start is one of them. */
  lemma MapsItself(w: Wheel, start: string)
    requires Consistent(w) && start in w.elves
    ensures start in Mapped(w, start) && Mapped(w, start) <= w.elves.Keys
  {
    LoadMeets(w, start);
    assert Load(w, start).0.nodes[0].member == start;
  }

  /** What follows the last slash. */
  function Basename(path: string): (name: string)
    ensures '/' !in name && |name| <= |path| && path[|path| - |name|..] == name
    ensures |name| < |path| ==> path[|path| - |name| - 1] == '/'
  {
    if path == [] || path[|path| - 1] == '/' then []
    else Basename(path[..|path| - 1]) + [path[|path| - 1]]
  }

  function NeededNames(w: Wheel): set<string> {
    set m, name | m in w.elves && name in w.elves[m].needed :: name
  }

  /** Commands, executables, and what no ELF of the wheel needs. */
  predicate IsEntry(w: Wheel, commands: seq<string>, m: string)
    requires m in w.elves
  {
    m in commands || w.elves[m].interpreter || Basename(m) !in NeededNames(w)
  }

  /** The first loop takes the entries, and the second what no load has mapped yet. */
  predicate Selected(w: Wheel, commands: seq<string>, entries: bool, m: string, checked: set<string>)
    requires m in w.elves
  {
    if entries then IsEntry(w, commands, m) else m !in checked
  }

  /** The members from which a loop loads, from its `i`-th turn on. */
  ghost function Starts(w: Wheel, commands: seq<string>, entries: bool, i: nat, checked: set<string>): seq<string>
    requires Consistent(w) && i <= |w.members|
    decreases |w.members| - i
  {
    if i == |w.members| then []
    else
      var m := w.members[i];
      if Selected(w, commands, entries, m, checked)
      then [m] + Starts(w, commands, entries, i + 1, checked + Mapped(w, m))
      else Starts(w, commands, entries, i + 1, checked)
  }

  ghost predicate InWheel(w: Wheel, starts: seq<string>) {
    forall k :: 0 <= k < |starts| ==> starts[k] in w.elves
  }

  ghost function AllMapped(w: Wheel, starts: seq<string>): set<string>
    requires Consistent(w) && InWheel(w, starts)
  {
    if starts == [] then {} else Mapped(w, starts[0]) + AllMapped(w, starts[1..])
  }

  ghost function FirstFailure(w: Wheel, starts: seq<string>): Option<Failure>
    requires Consistent(w) && InWheel(w, starts)
  {
    if starts == [] then None
    else
      var failure := Load(w, starts[0]).1;
      if failure.Some? then failure else FirstFailure(w, starts[1..])
  }

  lemma {:induction false} StartsAreInWheel(w: Wheel, commands: seq<string>, entries: bool, i: nat, checked: set<string>)
    requires Consistent(w) && i <= |w.members|
    ensures InWheel(w, Starts(w, commands, entries, i, checked))
    decreases |w.members| - i
  {
    if i < |w.members| {
      var m := w.members[i];
      StartsAreInWheel(w, commands, entries, i + 1, checked + Mapped(w, m));
      StartsAreInWheel(w, commands, entries, i + 1, checked);
    }
  }

  /** One turn of a loop: from there on, it loads the rest of its starts. */
  lemma Selects(w: Wheel, commands: seq<string>, entries: bool, i: nat, checked: set<string>)
    requires Consistent(w) && i < |w.members|
    ensures var m := w.members[i]; var selected := Selected(w, commands, entries, m, checked);
      var now := if selected then checked + Mapped(w, m) else checked;
      var starts, rest := Starts(w, commands, entries, i, checked), Starts(w, commands, entries, i + 1, now);
      && InWheel(w, starts) && InWheel(w, rest)
      && checked + AllMapped(w, starts) == now + AllMapped(w, rest)
      && FirstFailure(w, starts)
         == (if selected && Load(w, m).1.Some? then Load(w, m).1 else FirstFailure(w, rest))
  {
    var m := w.members[i];
    var selected := Selected(w, commands, entries, m, checked);
    var now := if selected then checked + Mapped(w, m) else checked;
    StartsAreInWheel(w, commands, entries, i, checked);
    StartsAreInWheel(w, commands, entries, i + 1, now);
    var starts, rest := Starts(w, commands, entries, i, checked), Starts(w, commands, entries, i + 1, now);
    if selected {
      assert starts == [m] + rest && starts[1..] == rest;
    }
  }

  /** Before its `i`-th turn, the rest of a loop leads to the result of the whole. */
  ghost predicate OnCourse(w: Wheel, commands: seq<string>, entries: bool, checked: set<string>, i: nat, now: set<string>)
    requires Consistent(w)
  {
    && i <= |w.members|
    && var all, rest := Starts(w, commands, entries, 0, checked), Starts(w, commands, entries, i, now);
    && InWheel(w, all) && InWheel(w, rest)
    && FirstFailure(w, rest) == FirstFailure(w, all)
    && now + AllMapped(w, rest) == checked + AllMapped(w, all)
  }

  lemma StaysOnCourse(w: Wheel, commands: seq<string>, entries: bool, checked: set<string>, i: nat, now: set<string>)
    requires Consistent(w) && OnCourse(w, commands, entries, checked, i, now) && i < |w.members|
    ensures InWheel(w, Starts(w, commands, entries, 0, checked))
    ensures var m := w.members[i];
      if !Selected(w, commands, entries, m, now) then OnCourse(w, commands, entries, checked, i + 1, now)
      else if Load(w, m).1.None? then OnCourse(w, commands, entries, checked, i + 1, now + Mapped(w, m))
      else FirstFailure(w, Starts(w, commands, entries, 0, checked)) == Load(w, m).1
  {
    Selects(w, commands, entries, i, now);
  }

  /** One of the two loops: what it maps, or the first failure of its loads. */
  method CheckMembers(w: Wheel, commands: seq<string>, entries: bool, checked: set<string>)
    returns (failure: Option<Failure>, nowChecked: set<string>)
    requires Consistent(w)
    ensures var starts := Starts(w, commands, entries, 0, checked);
      && InWheel(w, starts) && failure == FirstFailure(w, starts)
      && (failure.None? ==> nowChecked == checked + AllMapped(w, starts))
  {
    StartsAreInWheel(w, commands, entries, 0, checked);
    nowChecked := checked;
    for i := 0 to |w.members|
      invariant OnCourse(w, commands, entries, checked, i, nowChecked)
    {
      StaysOnCourse(w, commands, entries, checked, i, nowChecked);
      var member := w.members[i];
      if if entries then IsEntry(w, commands, member) else member !in nowChecked {
        failure, nowChecked := CheckDependencies(w, member, nowChecked);
        if failure.Some? {
          return;
        }
      }
    }
    failure := None;
  }

  /** Every member from which the audit loads, in order: the entries, and then what no load has mapped. */
  ghost function AllStarts(w: Wheel, commands: seq<string>): (starts: seq<string>)
    requires Consistent(w)
    ensures InWheel(w, starts)
  {
    StartsAreInWheel(w, commands, true, 0, {});
    var entries := Starts(w, commands, true, 0, {});
    StartsAreInWheel(w, commands, false, 0, AllMapped(w, entries));
    entries + Starts(w, commands, false, 0, AllMapped(w, entries))
  }

  function FirstMissing(w: Wheel, commands: seq<string>): Option<Failure> {
    if commands == [] then None
    else if commands[0] !in w.elves then Some(MissingCommand(commands[0]))
    else FirstMissing(w, commands[1..])
  }

  /** Why the audit of a wheel fails, if it does: the first command that is missing, or the first load that fails. */
  ghost function Verdict(w: Wheel, commands: seq<string>): Option<Failure>
    requires Consistent(w)
  {
    var missing := FirstMissing(w, commands);
    if missing.Some? then missing else FirstFailure(w, AllStarts(w, commands))
  }

  lemma {:induction false} FailureOfBoth(w: Wheel, starts: seq<string>, more: seq<string>)
    requires Consistent(w) && InWheel(w, starts) && InWheel(w, more)
    ensures InWheel(w, starts + more)
    ensures FirstFailure(w, starts + more)
      == if FirstFailure(w, starts).Some? then FirstFailure(w, starts) else FirstFailure(w, more)
  {
    var all := starts + more;
    if starts == [] {
      assert all == more;
    } else {
      FailureOfBoth(w, starts[1..], more);
      assert all[0] == starts[0] && all[1..] == starts[1..] + more;
    }
  }

  lemma {:induction false} MappedByBoth(w: Wheel, starts: seq<string>, more: seq<string>)
    requires Consistent(w) && InWheel(w, starts) && InWheel(w, more)
    ensures InWheel(w, starts + more)
    ensures AllMapped(w, starts + more) == AllMapped(w, starts) + AllMapped(w, more)
  {
    var all := starts + more;
    if starts == [] {
      assert all == more;
    } else {
      MappedByBoth(w, starts[1..], more);
      assert all[0] == starts[0] && all[1..] == starts[1..] + more;
    }
  }

  /** The entries are all started from, and by the end of the second loop everything is mapped. */
  lemma {:induction false} StartsReach(w: Wheel, commands: seq<string>, entries: bool, i: nat, checked: set<string>)
    requires Consistent(w) && i <= |w.members|
    ensures var starts := Starts(w, commands, entries, i, checked);
      && InWheel(w, starts)
      && forall j :: i <= j < |w.members| ==>
           && (entries && IsEntry(w, commands, w.members[j]) ==> w.members[j] in starts)
           && (!entries ==> w.members[j] in checked + AllMapped(w, starts))
    decreases |w.members| - i
  {
    StartsAreInWheel(w, commands, entries, i, checked);
    if i < |w.members| {
      var m := w.members[i];
      var now := if Selected(w, commands, entries, m, checked) then checked + Mapped(w, m) else checked;
      MapsItself(w, m);
      Selects(w, commands, entries, i, checked);
      StartsReach(w, commands, entries, i + 1, now);
    }
  }

  lemma {:induction false} MappedByOne(w: Wheel, starts: seq<string>, m: string)
    requires Consistent(w) && InWheel(w, starts)
    ensures m in AllMapped(w, starts) <==> exists k :: 0 <= k < |starts| && m in Mapped(w, starts[k])
  {
    if starts != [] {
      MappedByOne(w, starts[1..], m);
      assert forall k :: 1 <= k < |starts| ==> starts[k] == starts[1..][k - 1];
      assert forall k :: 0 <= k < |starts| - 1 ==> starts[1..][k] == starts[k + 1];
    }
  }

  /** Every ELF of the wheel is mapped by some load of the audit, and every entry starts one. */
  lemma AuditReachesAll(w: Wheel, commands: seq<string>, m: string) returns (k: nat)
    requires Consistent(w) && m in w.elves
    ensures IsEntry(w, commands, m) ==> m in AllStarts(w, commands)
    ensures k < |AllStarts(w, commands)| && m in Mapped(w, AllStarts(w, commands)[k])
  {
    StartsReach(w, commands, true, 0, {});
    var entries := Starts(w, commands, true, 0, {});
    StartsReach(w, commands, false, 0, AllMapped(w, entries));
    MappedByBoth(w, entries, Starts(w, commands, false, 0, AllMapped(w, entries)));
    var starts := AllStarts(w, commands);
    assert m in w.members;
    MappedByOne(w, starts, m);
    k :| 0 <= k < |starts| && m in Mapped(w, starts[k]);
  }

  /** What the audit looks at when it passes: all that the wheel has. */
  lemma AuditMapsAll(w: Wheel, commands: seq<string>)
    requires Consistent(w)
    ensures AllMapped(w, AllStarts(w, commands)) == w.elves.Keys
  {
    var starts := AllStarts(w, commands);
    forall m
      ensures m in AllMapped(w, starts) <==> m in w.elves
    {
      MappedByOne(w, starts, m);
      if m in w.elves {
        var k := AuditReachesAll(w, commands, m);
      } else if k :| 0 <= k < |starts| && m in Mapped(w, starts[k]) {
        MapsItself(w, starts[k]);
      }
    }
  }

  /** The audit: its verdict, and on success every member that it checked. */
  method Audit(w: Wheel, commands: seq<string>) returns (failure: Option<Failure>, checked: set<string>)
    requires Consistent(w)
    ensures failure == Verdict(w, commands)
    ensures failure.None? ==> checked == AllMapped(w, AllStarts(w, commands)) == w.elves.Keys
  {
    AuditMapsAll(w, commands);
    checked := {};
    for i := 0 to |commands|
      invariant FirstMissing(w, commands[i..]) == FirstMissing(w, commands)
    {
      if commands[i] !in w.elves {
        return Some(MissingCommand(commands[i])), {};
      }
      assert commands[i..][1..] == commands[i + 1..];
    }
    ghost var entries := Starts(w, commands, true, 0, {});
    StartsAreInWheel(w, commands, true, 0, {});
    StartsAreInWheel(w, commands, false, 0, AllMapped(w, entries));
    FailureOfBoth(w, entries, Starts(w, commands, false, 0, AllMapped(w, entries)));
    MappedByBoth(w, entries, Starts(w, commands, false, 0, AllMapped(w, entries)));
    failure, checked := CheckMembers(w, commands, true, checked);
    if failure.None? {
      assert checked == AllMapped(w, entries);
      failure, checked := CheckMembers(w, commands, false, checked);
    }
  }

  // ----- What the verdict means -----

  lemma {:induction false} FirstMissingIs(w: Wheel, commands: seq<string>)
    ensures FirstMissing(w, commands).None? <==> forall name :: name in commands ==> name in w.elves
    ensures FirstMissing(w, commands).Some? ==>
      exists i :: 0 <= i < |commands| && FirstMissing(w, commands) == Some(MissingCommand(commands[i]))
                  && commands[i] !in w.elves
  {
    if commands != [] && commands[0] in w.elves {
      FirstMissingIs(w, commands[1..]);
      assert forall name :: name in commands <==> name == commands[0] || name in commands[1..];
      assert forall i :: 0 <= i < |commands| - 1 ==> commands[1..][i] == commands[i + 1];
    }
  }

  lemma {:induction false} FirstFailureIs(w: Wheel, starts: seq<string>)
    requires Consistent(w) && InWheel(w, starts)
    ensures FirstFailure(w, starts).None? <==> forall k :: 0 <= k < |starts| ==> Load(w, starts[k]).1.None?
    ensures FirstFailure(w, starts).Some? ==>
      exists k :: 0 <= k < |starts| && Load(w, starts[k]).1 == FirstFailure(w, starts)
                  && forall j :: 0 <= j < k ==> Load(w, starts[j]).1.None?
  {
    if starts != [] {
      var rest := starts[1..];
      FirstFailureIs(w, rest);
      assert forall k :: 1 <= k < |starts| ==> starts[k] == rest[k - 1];
      if Load(w, starts[0]).1.None? && FirstFailure(w, rest).Some? {
        var k :| 0 <= k < |rest| && Load(w, rest[k]).1 == FirstFailure(w, rest)
          && forall j :: 0 <= j < k ==> Load(w, rest[j]).1.None?;
        assert starts[k + 1] == rest[k];
      }
    }
  }

  ghost predicate Covers(w: Wheel, start: string, m: string)
    requires Consistent(w) && start in w.elves
  {
    var l := Load(w, start).0;
    Shaped(w, l) && CoveredIn(w, l, m)
  }

  /** A load reports what is wrong with an ELF that it mapped, after everything before it was met. */
  ghost predicate Blames(w: Wheel, start: string, failure: Failure)
    requires Consistent(w) && start in w.elves
  {
    var l := Load(w, start).0;
    Shaped(w, l) && exists n: nat :: n < |l.nodes| && AllMet(w, l, n) && Fails(w, l, n, failure)
  }

  lemma LoadBlames(w: Wheel, start: string)
    requires Consistent(w) && start in w.elves && Load(w, start).1.Some?
    ensures Blames(w, start, Load(w, start).1.value)
  {
    LoadMeets(w, start);
  }

  /**
    The audit passes if and only if every command is an ELF of the wheel and
    every load succeeds: one from each entry, and one from each ELF that the loads
    before it have not mapped. Then some load covers what any ELF needs.
  */
  lemma AuditPassesExactlyWhen(w: Wheel, commands: seq<string>)
    requires Consistent(w)
    ensures var starts := AllStarts(w, commands);
      && (Verdict(w, commands).None? <==>
            && (forall name :: name in commands ==> name in w.elves)
            && (forall k :: 0 <= k < |starts| ==> Load(w, starts[k]).1.None?))
      && (Verdict(w, commands).None? ==>
            forall m :: m in w.elves ==> exists k :: 0 <= k < |starts| && Covers(w, starts[k], m))
  {
    var starts := AllStarts(w, commands);
    FirstMissingIs(w, commands);
    FirstFailureIs(w, starts);
    if Verdict(w, commands).None? {
      forall m | m in w.elves
        ensures exists k :: 0 <= k < |starts| && Covers(w, starts[k], m)
      {
        var k := AuditReachesAll(w, commands, m);
        LoadedIsCovered(w, starts[k], m);
        assert Covers(w, starts[k], m);
      }
    }
  }

  /**
    When it does not pass, it reports a command that is missing, or the ELF and
    the name at which the first failing load stops.
  */
  lemma AuditBlames(w: Wheel, commands: seq<string>, failure: Failure)
    requires Consistent(w) && Verdict(w, commands) == Some(failure)
    ensures var starts := AllStarts(w, commands);
      || (failure.MissingCommand? && failure.name in commands && failure.name !in w.elves)
      || exists k :: 0 <= k < |starts| && Load(w, starts[k]).1 == Some(failure) && Blames(w, starts[k], failure)
                     && forall j :: 0 <= j < k ==> Load(w, starts[j]).1.None?
  {
    var starts := AllStarts(w, commands);
    FirstMissingIs(w, commands);
    FirstFailureIs(w, starts);
    if FirstMissing(w, commands).None? {
      var k :| 0 <= k < |starts| && Load(w, starts[k]).1 == FirstFailure(w, starts)
        && forall j :: 0 <= j < k ==> Load(w, starts[j]).1.None?;
      LoadBlames(w, starts[k]);
    }
  }
}
