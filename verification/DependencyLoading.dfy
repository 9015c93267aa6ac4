/**
  What one load of the dependency audit accepts, without its queue: a load
  succeeds if and only if the wheel admits a complete mapping, and then it finds it.
*/
module DependencyLoading {
  import opened Options
  import opened DependencyAudit

  // ----- Complete mappings -----

  /** Where a name is first listed. */
  function Position(names: seq<string>, name: string): (k: nat)
    requires name in names
    ensures k < |names| && names[k] == name && forall j :: 0 <= j < k ==> names[j] != name
  {
    if names[0] == name then 0 else 1 + Position(names[1..], name)
  }

  /** Needs are met member by member, and name by name. */
  predicate Precedes(i: nat, p: nat, j: nat, q: nat) {
    i < j || (i == j && p < q)
  }

  /** A name is bound by the first member that needs it, to the first match there. */
  ghost predicate BoundFirst(w: Wheel, l: Loading, name: string)
    requires Shaped(w, l) && name in l.bindings
  {
    var b := l.bindings[name];
    && name !in w.system && b.dependency in Members(l) && b.binder < |l.nodes|
    && name in NeededBy(w, l, b.binder)
    && (forall i: nat :: i < b.binder ==> name !in NeededBy(w, l, i))
    && IsFirstMatch(w, SearchOf(w, l, b.binder), name, b.dependency)
  }

  ghost predicate Bindings(w: Wheel, l: Loading)
    requires Shaped(w, l)
  {
    forall name :: name in l.bindings ==> BoundFirst(w, l, name)
  }

  ghost predicate Children(w: Wheel, l: Loading, entry: string)
    requires Shaped(w, l)
  {
    && l.nodes[0] == Start(entry).nodes[0]
    && forall j: nat :: 0 < j < |l.nodes| ==> Child(w, l, j)
  }

  /** Where a member lists a name, if it does. */
  function Place(w: Wheel, l: Loading, i: nat, name: string): nat {
    if i < |l.nodes| && l.nodes[i].member in w.elves && name in NeededBy(w, l, i)
    then Position(NeededBy(w, l, i), name) else 0
  }

  /** The need that the `i`-th member was mapped for comes before another one. */
  predicate MappedBefore(w: Wheel, l: Loading, i: nat, j: nat, q: nat)
    requires i < |l.nodes|
  {
    Precedes(l.nodes[i].parent, Place(w, l, l.nodes[i].parent, l.nodes[i].via), j, q)
  }

  predicate NameBefore(w: Wheel, l: Loading, name: string, j: nat, q: nat)
    requires name in l.bindings
  {
    Precedes(l.bindings[name].binder, Place(w, l, l.bindings[name].binder, name), j, q)
  }

  /** Members are mapped in the order of the needs that asked for them first. */
  ghost predicate MembersInOrder(w: Wheel, l: Loading) {
    forall i: nat, j: nat :: 0 < i < j < |l.nodes| ==>
      MappedBefore(w, l, i, l.nodes[j].parent, Place(w, l, l.nodes[j].parent, l.nodes[j].via))
  }

  ghost predicate MappedByFirstNeed(w: Wheel, l: Loading) {
    forall name, j: nat ::
      name in l.bindings && 0 < j < |l.nodes| && l.nodes[j].member == l.bindings[name].dependency
      ==> !NameBefore(w, l, name, l.nodes[j].parent, Place(w, l, l.nodes[j].parent, l.nodes[j].via))
  }

  ghost predicate InOrder(w: Wheel, l: Loading) {
    MembersInOrder(w, l) && MappedByFirstNeed(w, l)
  }

  /** Mapped breadth first from the entry, each name bound where it is first needed, and every need met. */
  ghost predicate Complete(w: Wheel, l: Loading, entry: string) {
    && Shaped(w, l) && Bindings(w, l) && Children(w, l, entry) && InOrder(w, l)
    && AllMet(w, l, |l.nodes|)
  }

  // ----- A load that succeeds finds a complete mapping -----

  /** Everything before the `k`-th name of member `i` has been dealt with, and nothing else has. */
  ghost predicate Done(w: Wheel, l: Loading, i: nat, k: nat)
    requires Shaped(w, l)
  {
    && i < |l.nodes| && k <= |NeededBy(w, l, i)|
    && AllMet(w, l, i) && (forall q :: 0 <= q < k ==> Met(w, l, NeededBy(w, l, i)[q]))
    && (forall name :: name in l.bindings ==> NameBefore(w, l, name, i, k))
    && (forall j: nat :: 0 < j < |l.nodes| ==> MappedBefore(w, l, j, i, k))
  }

  ghost predicate Under(w: Wheel, l: Loading, entry: string, i: nat, k: nat) {
    Shaped(w, l) && Bindings(w, l) && Children(w, l, entry) && InOrder(w, l) && Done(w, l, i, k)
  }

  lemma PlaceStays(w: Wheel, l: Loading, t: Loading, i: nat, name: string)
    requires Shaped(w, l) && Extends(l, t) && i < |l.nodes|
    ensures Place(w, t, i, name) == Place(w, l, i, name)
  {
  }

  lemma LaterStill(w: Wheel, l: Loading, i: nat, k: nat, j: nat, q: nat)
    requires Precedes(i, k, j, q)
    requires forall name :: name in l.bindings ==> NameBefore(w, l, name, i, k)
    requires forall m: nat :: 0 < m < |l.nodes| ==> MappedBefore(w, l, m, i, k)
    ensures forall name :: name in l.bindings ==> NameBefore(w, l, name, j, q)
    ensures forall m: nat :: 0 < m < |l.nodes| ==> MappedBefore(w, l, m, j, q)
  {
    forall name | name in l.bindings
      ensures NameBefore(w, l, name, j, q)
    {
      assert NameBefore(w, l, name, i, k);
    }
    forall m: nat | 0 < m < |l.nodes|
      ensures MappedBefore(w, l, m, j, q)
    {
      assert MappedBefore(w, l, m, i, k);
    }
  }

  lemma NextName(w: Wheel, l: Loading, i: nat, k: nat)
    requires Shaped(w, l) && Done(w, l, i, k) && k < |NeededBy(w, l, i)| && Met(w, l, NeededBy(w, l, i)[k])
    ensures Done(w, l, i, k + 1)
  {
    LaterStill(w, l, i, k, i, k + 1);
  }

  lemma NextMember(w: Wheel, l: Loading, i: nat)
    requires Shaped(w, l) && Bindings(w, l) && i + 1 < |l.nodes| && Done(w, l, i, |NeededBy(w, l, i)|)
    ensures Done(w, l, i + 1, 0)
  {
    LaterStill(w, l, i, |NeededBy(w, l, i)|, i + 1, 0);
    forall j: nat, name | j < i + 1 && name in NeededBy(w, l, j)
      ensures Met(w, l, name)
    {
      if j == i {
        var q :| 0 <= q < |NeededBy(w, l, i)| && NeededBy(w, l, i)[q] == name;
        assert Met(w, l, NeededBy(w, l, i)[q]);
      }
    }
  }

  /** A name that is not met yet is needed here for the first time. */
  lemma NeededFirst(w: Wheel, l: Loading, i: nat, k: nat)
    requires Shaped(w, l) && Done(w, l, i, k) && k < |NeededBy(w, l, i)| && !Met(w, l, NeededBy(w, l, i)[k])
    ensures var name := NeededBy(w, l, i)[k];
      Place(w, l, i, name) == k && forall j: nat :: j < i ==> name !in NeededBy(w, l, j)
  {
    var name := NeededBy(w, l, i)[k];
    assert NeededBy(w, l, i)[Position(NeededBy(w, l, i), name)] == name;
  }

  lemma BindKeepsFirst(w: Wheel, l: Loading, i: nat, k: nat, dependency: string)
    requires Shaped(w, l) && Bindings(w, l) && Done(w, l, i, k) && k < |NeededBy(w, l, i)|
    requires var name := NeededBy(w, l, i)[k];
      '/' !in name && !Met(w, l, name) && dependency in w.elves
      && IsFirstMatch(w, SearchOf(w, l, i), name, dependency)
    ensures var t := Bind(w, l, i, NeededBy(w, l, i)[k], dependency);
      Shaped(w, t) && Extends(l, t) && Members(t) == Members(l) + {dependency} && Bindings(w, t)
  {
    var name := NeededBy(w, l, i)[k];
    var t := Bind(w, l, i, name, dependency);
    BindExtends(w, l, i, name, dependency);
    NeededFirst(w, l, i, k);
    assert forall j: nat :: j < |l.nodes| ==> NeededBy(w, t, j) == NeededBy(w, l, j);
    forall other | other in t.bindings
      ensures BoundFirst(w, t, other)
    {
      if other != name {
        assert BoundFirst(w, l, other);
      }
    }
  }

  lemma BindKeepsChildren(w: Wheel, l: Loading, entry: string, i: nat, name: string, dependency: string)
    requires Shaped(w, l) && Children(w, l, entry) && i < |l.nodes| && dependency in w.elves
    requires name in NeededBy(w, l, i) && name !in l.bindings
    ensures var t := Bind(w, l, i, name, dependency); Shaped(w, t) && Children(w, t, entry)
  {
    BindExtends(w, l, i, name, dependency);
    var t := Bind(w, l, i, name, dependency);
    forall j: nat | 0 < j < |t.nodes|
      ensures Child(w, t, j)
    {
      if j < |l.nodes| {
        ChildStays(w, l, t, j);
      }
    }
  }

  /** What was in place stays in place. */
  lemma PlacesStay(w: Wheel, l: Loading, t: Loading)
    requires Shaped(w, l) && Bindings(w, l) && Extends(l, t)
    requires forall j: nat :: 0 < j < |l.nodes| ==> Child(w, l, j)
    ensures forall name, i: nat, k: nat :: name in l.bindings ==>
      (NameBefore(w, t, name, i, k) <==> NameBefore(w, l, name, i, k))
    ensures forall j: nat, i: nat, k: nat :: 0 < j < |l.nodes| ==>
      (MappedBefore(w, t, j, i, k) <==> MappedBefore(w, l, j, i, k))
    ensures forall j: nat :: 0 < j < |l.nodes| ==>
      Place(w, t, t.nodes[j].parent, t.nodes[j].via) == Place(w, l, l.nodes[j].parent, l.nodes[j].via)
  {
    forall name | name in l.bindings
      ensures Place(w, t, t.bindings[name].binder, name) == Place(w, l, l.bindings[name].binder, name)
    {
      assert BoundFirst(w, l, name);
      PlaceStays(w, l, t, l.bindings[name].binder, name);
    }
    forall j: nat | 0 < j < |l.nodes|
      ensures Place(w, t, t.nodes[j].parent, t.nodes[j].via) == Place(w, l, l.nodes[j].parent, l.nodes[j].via)
    {
      assert Child(w, l, j);
      PlaceStays(w, l, t, l.nodes[j].parent, l.nodes[j].via);
    }
  }

  /** The new binding, and the new member if there is one, come last. */
  lemma BindKeepsOrderOf(w: Wheel, l: Loading, entry: string, i: nat, k: nat, dependency: string)
    requires Under(w, l, entry, i, k) && k < |NeededBy(w, l, i)|
    requires var name := NeededBy(w, l, i)[k];
      '/' !in name && !Met(w, l, name) && dependency in w.elves
      && IsFirstMatch(w, SearchOf(w, l, i), name, dependency)
    ensures var t := Bind(w, l, i, NeededBy(w, l, i)[k], dependency); Shaped(w, t) && InOrder(w, t)
  {
    var name := NeededBy(w, l, i)[k];
    var t := Bind(w, l, i, name, dependency);
    BindKeepsFirst(w, l, i, k, dependency);
    NeededFirst(w, l, i, k);
    PlacesStay(w, l, t);
    PlaceStays(w, l, t, i, name);
    assert forall other :: other in l.bindings ==> l.bindings[other].dependency in Members(l) by {
      assert forall other :: other in l.bindings ==> BoundFirst(w, l, other);
    }
    NewMemberIsLast(w, l, t, i, k, name);
    NewBindingIsLast(w, l, t, i, k, name, dependency);
  }

  lemma NewMemberIsLast(w: Wheel, l: Loading, t: Loading, i: nat, k: nat, name: string)
    requires MembersInOrder(w, l) && Extends(l, t) && |t.nodes| <= |l.nodes| + 1
    requires |t.nodes| > |l.nodes| ==> t.nodes[|l.nodes|].parent == i && t.nodes[|l.nodes|].via == name
    requires Place(w, t, i, name) == k
    requires forall j: nat :: 0 < j < |l.nodes| ==> MappedBefore(w, l, j, i, k)
    requires forall j: nat, p: nat, q: nat :: 0 < j < |l.nodes| ==>
      (MappedBefore(w, t, j, p, q) <==> MappedBefore(w, l, j, p, q))
    requires forall j: nat :: 0 < j < |l.nodes| ==>
      Place(w, t, t.nodes[j].parent, t.nodes[j].via) == Place(w, l, l.nodes[j].parent, l.nodes[j].via)
    ensures MembersInOrder(w, t)
  {
    forall a: nat, b: nat | 0 < a < b < |t.nodes|
      ensures MappedBefore(w, t, a, t.nodes[b].parent, Place(w, t, t.nodes[b].parent, t.nodes[b].via))
    {
      if b < |l.nodes| {
        assert MappedBefore(w, l, a, l.nodes[b].parent, Place(w, l, l.nodes[b].parent, l.nodes[b].via));
      } else {
        assert MappedBefore(w, l, a, i, k);
      }
    }
  }

  lemma NewBindingIsLast(w: Wheel, l: Loading, t: Loading, i: nat, k: nat, name: string, dependency: string)
    requires Shaped(w, t) && MappedByFirstNeed(w, l) && Extends(l, t) && |t.nodes| <= |l.nodes| + 1
    requires |t.nodes| > |l.nodes| ==> t.nodes[|l.nodes|] == Node(dependency, t.nodes[|l.nodes|].inherited, i, name)
    requires t.bindings == l.bindings[name := Binding(dependency, i)] && name !in l.bindings
    requires |t.nodes| > |l.nodes| ==> dependency !in Members(l)
    requires Place(w, t, i, name) == k
    requires forall other :: other in l.bindings ==> l.bindings[other].dependency in Members(l)
    requires forall j: nat :: 0 < j < |l.nodes| ==> MappedBefore(w, l, j, i, k)
    requires forall other, p: nat, q: nat :: other in l.bindings ==>
      (NameBefore(w, t, other, p, q) <==> NameBefore(w, l, other, p, q))
    requires forall j: nat :: 0 < j < |l.nodes| ==>
      Place(w, t, t.nodes[j].parent, t.nodes[j].via) == Place(w, l, l.nodes[j].parent, l.nodes[j].via)
    ensures MappedByFirstNeed(w, t)
  {
    forall other, j: nat | other in t.bindings && 0 < j < |t.nodes| && t.nodes[j].member == t.bindings[other].dependency
      ensures !NameBefore(w, t, other, t.nodes[j].parent, Place(w, t, t.nodes[j].parent, t.nodes[j].via))
    {
      if other != name {
        assert j < |l.nodes|;
        assert !NameBefore(w, l, other, l.nodes[j].parent, Place(w, l, l.nodes[j].parent, l.nodes[j].via));
      } else if j < |l.nodes| {
        assert MappedBefore(w, l, j, i, k);
      }
    }
  }

  lemma BindMeets(w: Wheel, l: Loading, i: nat, k: nat, dependency: string)
    requires Shaped(w, l) && Done(w, l, i, k) && k < |NeededBy(w, l, i)| && dependency in w.elves
    requires '/' !in NeededBy(w, l, i)[k] && NeededBy(w, l, i)[k] !in l.bindings
    ensures var t := Bind(w, l, i, NeededBy(w, l, i)[k], dependency);
      && Shaped(w, t) && Extends(l, t) && NeededBy(w, t, i) == NeededBy(w, l, i) && AllMet(w, t, i)
      && forall q :: 0 <= q < k + 1 ==> Met(w, t, NeededBy(w, t, i)[q])
  {
    var t := Bind(w, l, i, NeededBy(w, l, i)[k], dependency);
    BindExtends(w, l, i, NeededBy(w, l, i)[k], dependency);
    MetStays(w, l, t, i);
    forall q | 0 <= q < k + 1
      ensures Met(w, t, NeededBy(w, t, i)[q])
    {
      if q < k {
        assert Met(w, l, NeededBy(w, l, i)[q]);
      }
    }
  }

  lemma BindIsDone(w: Wheel, l: Loading, entry: string, i: nat, k: nat, dependency: string)
    requires Under(w, l, entry, i, k) && k < |NeededBy(w, l, i)|
    requires var name := NeededBy(w, l, i)[k]; '/' !in name && !Met(w, l, name) && dependency in w.elves
    ensures var t := Bind(w, l, i, NeededBy(w, l, i)[k], dependency); Shaped(w, t) && Done(w, t, i, k + 1)
  {
    var name := NeededBy(w, l, i)[k];
    var t := Bind(w, l, i, name, dependency);
    BindMeets(w, l, i, k, dependency);
    NeededFirst(w, l, i, k);
    PlacesStay(w, l, t);
    PlaceStays(w, l, t, i, name);
    var next := k + 1;
    LaterStill(w, l, i, k, i, next);
    forall other | other in t.bindings
      ensures NameBefore(w, t, other, i, next)
    {
      assert other != name ==> NameBefore(w, l, other, i, next);
    }
    forall j: nat | 0 < j < |t.nodes|
      ensures MappedBefore(w, t, j, i, next)
    {
      assert j < |l.nodes| ==> MappedBefore(w, l, j, i, next);
    }
  }

  lemma BindKeepsUnder(w: Wheel, l: Loading, entry: string, i: nat, k: nat, dependency: string)
    requires Under(w, l, entry, i, k) && k < |NeededBy(w, l, i)|
    requires var name := NeededBy(w, l, i)[k];
      '/' !in name && !Met(w, l, name) && dependency in w.elves
      && IsFirstMatch(w, SearchOf(w, l, i), name, dependency)
    ensures Under(w, Bind(w, l, i, NeededBy(w, l, i)[k], dependency), entry, i, k + 1)
  {
    BindKeepsFirst(w, l, i, k, dependency);
    BindKeepsChildren(w, l, entry, i, NeededBy(w, l, i)[k], dependency);
    BindKeepsOrderOf(w, l, entry, i, k, dependency);
    BindIsDone(w, l, entry, i, k, dependency);
  }

  /** One name of the loader. */
  lemma LoadsNext(w: Wheel, l: Loading, i: nat, k: nat)
    requires i < |l.nodes| && l.nodes[i].member in w.elves && k < |NeededBy(w, l, i)|
    requires LoadNeeded(w, l, i, k).1.None?
    ensures var name := NeededBy(w, l, i)[k];
      && '/' !in name
      && if Met(w, l, name) then LoadNeeded(w, l, i, k) == LoadNeeded(w, l, i, k + 1)
         else First(w, SearchOf(w, l, i), name).Some?
              && var t := Bind(w, l, i, name, First(w, SearchOf(w, l, i), name).value);
              && i < |t.nodes| && t.nodes[i] == l.nodes[i]
              && LoadNeeded(w, l, i, k) == LoadNeeded(w, t, i, k + 1)
  {
  }

  lemma {:induction false} LoadNeededFinds(w: Wheel, l: Loading, entry: string, i: nat, k: nat)
    requires Consistent(w) && Under(w, l, entry, i, k) && LoadNeeded(w, l, i, k).1.None?
    ensures Under(w, LoadNeeded(w, l, i, k).0, entry, i, |NeededBy(w, l, i)|)
    decreases |NeededBy(w, l, i)| - k
  {
    if k < |NeededBy(w, l, i)| {
      var name := NeededBy(w, l, i)[k];
      LoadsNext(w, l, i, k);
      if Met(w, l, name) {
        NextName(w, l, i, k);
        LoadNeededFinds(w, l, entry, i, k + 1);
      } else {
        var dependency := First(w, SearchOf(w, l, i), name).value;
        FirstIs(w, SearchOf(w, l, i), name);
        BindKeepsUnder(w, l, entry, i, k, dependency);
        LoadNeededFinds(w, Bind(w, l, i, name, dependency), entry, i, k + 1);
      }
    }
  }

  lemma {:induction false} LoadRestFinds(w: Wheel, l: Loading, entry: string, i: nat)
    requires Consistent(w) && Reached(w, l, entry, i) && i < |l.nodes| && Under(w, l, entry, i, 0)
    requires LoadRest(w, l, entry, i).1.None?
    ensures Complete(w, LoadRest(w, l, entry, i).0, entry)
    decreases |w.elves.Keys - Members(l)|, |l.nodes| - i
  {
    var t := LoadNeeded(w, l, i, 0).0;
    LookAt(w, l, entry, i);
    LoadNeededFinds(w, l, entry, i, 0);
    assert NeededBy(w, t, i) == NeededBy(w, l, i);
    if i + 1 < |t.nodes| {
      NextMember(w, t, i);
      LoadRestFinds(w, t, entry, i + 1);
    } else {
      LastMember(w, t, i);
    }
  }

  lemma LastMember(w: Wheel, l: Loading, i: nat)
    requires Shaped(w, l) && i + 1 == |l.nodes| && Done(w, l, i, |NeededBy(w, l, i)|)
    ensures AllMet(w, l, |l.nodes|)
  {
    forall j: nat, name | j < |l.nodes| && name in NeededBy(w, l, j)
      ensures Met(w, l, name)
    {
      if j == i {
        var q :| 0 <= q < |NeededBy(w, l, i)| && NeededBy(w, l, i)[q] == name;
        assert Met(w, l, NeededBy(w, l, i)[q]);
      }
    }
  }

  // ----- Where there is a complete mapping, the load finds it -----

  /** `l` is the part of the complete mapping `all` that comes before the `k`-th name of member `i`. */
  ghost predicate PartOf(w: Wheel, l: Loading, all: Loading, i: nat, k: nat)
    requires Shaped(w, all)
  {
    && i < |l.nodes| <= |all.nodes| && l.nodes == all.nodes[..|l.nodes|]
    && k <= |NeededBy(w, all, i)|
    && (forall name :: name in l.bindings <==> name in all.bindings && NameBefore(w, all, name, i, k))
    && (forall name :: name in l.bindings ==> l.bindings[name] == all.bindings[name])
    && (forall name :: name in l.bindings ==> l.bindings[name].dependency in Members(l))
    && (forall j: nat :: 0 < j < |all.nodes| && MappedBefore(w, all, j, i, k) ==> j < |l.nodes|)
  }

  /** A need that is met already binds no name, and maps no member. */
  lemma BindsNothing(w: Wheel, all: Loading, i: nat, k: nat, next: nat, here: string)
    requires Shaped(w, all) && Bindings(w, all) && i < |all.nodes| && k < |NeededBy(w, all, i)| && next == k + 1
    requires here == NeededBy(w, all, i)[k]
    requires here in w.system || (here in all.bindings && NameBefore(w, all, here, i, k))
    ensures forall name :: name in all.bindings && NameBefore(w, all, name, i, next) ==> NameBefore(w, all, name, i, k)
  {
    forall name | name in all.bindings && NameBefore(w, all, name, i, next)
      ensures NameBefore(w, all, name, i, k)
    {
      assert BoundFirst(w, all, name);
    }
  }

  lemma MapsNothing(w: Wheel, all: Loading, i: nat, k: nat, next: nat, here: string)
    requires Shaped(w, all) && Bindings(w, all) && i < |all.nodes| && k < |NeededBy(w, all, i)| && next == k + 1
    requires forall j: nat :: 0 < j < |all.nodes| ==> Child(w, all, j)
    requires here == NeededBy(w, all, i)[k]
    requires here in w.system || (here in all.bindings && NameBefore(w, all, here, i, k))
    ensures forall j: nat :: 0 < j < |all.nodes| && MappedBefore(w, all, j, i, next) ==> MappedBefore(w, all, j, i, k)
  {
    forall j: nat | 0 < j < |all.nodes| && MappedBefore(w, all, j, i, next)
      ensures MappedBefore(w, all, j, i, k)
    {
      assert Child(w, all, j);
      assert BoundFirst(w, all, all.nodes[j].via);
    }
  }

  lemma PartSkips(w: Wheel, l: Loading, all: Loading, entry: string, i: nat, k: nat, next: nat)
    requires Complete(w, all, entry) && PartOf(w, l, all, i, k) && k < |NeededBy(w, all, i)| && next == k + 1
    requires var name := NeededBy(w, all, i)[k]; name in w.system || name in l.bindings
    ensures PartOf(w, l, all, i, next)
  {
    var here := NeededBy(w, all, i)[k];
    BindsNothing(w, all, i, k, next, here);
    MapsNothing(w, all, i, k, next, here);
    forall name
      ensures name in l.bindings <==> name in all.bindings && NameBefore(w, all, name, i, next)
    {
      assert name in l.bindings <==> name in all.bindings && NameBefore(w, all, name, i, k);
    }
    forall j: nat | 0 < j < |all.nodes| && MappedBefore(w, all, j, i, next)
      ensures j < |l.nodes|
    {
      assert MappedBefore(w, all, j, i, k);
    }
  }

  lemma {:induction false} FirstUnique(w: Wheel, search: seq<string>, name: string, dependency: string)
    requires IsFirstMatch(w, search, name, dependency)
    ensures First(w, search, name) == Some(dependency)
  {
    FirstIs(w, search, name);
    var k :| 0 <= k < |search| && w.join(search[k], name) in w.installed
      && w.installed[w.join(search[k], name)] == dependency
      && forall j :: 0 <= j < k ==> w.join(search[j], name) !in w.installed;
    var m :| 0 <= m < |search| && w.join(search[m], name) in w.installed
      && w.installed[w.join(search[m], name)] == First(w, search, name).value
      && forall j :: 0 <= j < m ==> w.join(search[j], name) !in w.installed;
    assert k == m;
  }

  /** A name that the part has not bound yet is bound exactly here. */
  lemma BoundHere(w: Wheel, l: Loading, all: Loading, entry: string, i: nat, k: nat)
    requires Complete(w, all, entry) && PartOf(w, l, all, i, k) && k < |NeededBy(w, all, i)|
    requires var name := NeededBy(w, all, i)[k]; name !in w.system && name !in l.bindings
    ensures var name := NeededBy(w, all, i)[k];
      && '/' !in name && name in all.bindings
      && all.bindings[name].binder == i && Place(w, all, i, name) == k
      && First(w, SearchOf(w, all, i), name) == Some(all.bindings[name].dependency)
  {
    var name := NeededBy(w, all, i)[k];
    assert Met(w, all, name);
    assert BoundFirst(w, all, name);
    assert !NameBefore(w, all, name, i, k);
    FirstUnique(w, SearchOf(w, all, i), name, all.bindings[name].dependency);
  }

  /** The member that is mapped for a need comes no later than any that earlier needs did not ask for. */
  lemma MappedNext(w: Wheel, all: Loading, i: nat, k: nat, m: nat, j: nat)
    requires MembersInOrder(w, all) && 0 < m < |all.nodes| && 0 < j < |all.nodes|
    requires all.nodes[j].parent == i && Place(w, all, i, all.nodes[j].via) == k
    requires !MappedBefore(w, all, m, i, k)
    ensures j <= m
  {
  }

  /** A member that no need before this one asked for, but that this need binds, is mapped for it. */
  lemma MappedFor(w: Wheel, all: Loading, entry: string, i: nat, k: nat, name: string, j: nat)
    requires Complete(w, all, entry) && 0 < j < |all.nodes|
    requires name in all.bindings && all.bindings[name] == Binding(all.nodes[j].member, i) && Place(w, all, i, name) == k
    requires !MappedBefore(w, all, j, i, k)
    ensures all.nodes[j] == Node(all.nodes[j].member, AncestorsOf(w, all, i), i, name)
    ensures Place(w, all, i, all.nodes[j].via) == k
  {
    assert BoundFirst(w, all, name);
    assert Child(w, all, j);
    assert !NameBefore(w, all, name, all.nodes[j].parent, Place(w, all, all.nodes[j].parent, all.nodes[j].via));
  }

  lemma NewIndex(l: Loading, all: Loading, member: string) returns (j: nat)
    requires |l.nodes| <= |all.nodes| && l.nodes == all.nodes[..|l.nodes|]
    requires member in Members(all) && member !in Members(l)
    ensures |l.nodes| <= j < |all.nodes| && all.nodes[j].member == member
  {
    j :| 0 <= j < |all.nodes| && all.nodes[j].member == member;
    assert forall q :: 0 <= q < |l.nodes| ==> all.nodes[q] == l.nodes[q] && l.nodes[q].member in Members(l);
  }

  /** What a name binds here is mapped next, if it is new. */
  lemma MappedHere(w: Wheel, l: Loading, all: Loading, entry: string, i: nat, k: nat, name: string)
    requires Complete(w, all, entry) && PartOf(w, l, all, i, k)
    requires name in all.bindings && all.bindings[name].binder == i && Place(w, all, i, name) == k
    requires all.bindings[name].dependency in Members(all) && all.bindings[name].dependency !in Members(l)
    ensures |l.nodes| < |all.nodes|
    ensures all.nodes[|l.nodes|] == Node(all.bindings[name].dependency, AncestorsOf(w, all, i), i, name)
  {
    var j := NewIndex(l, all, all.bindings[name].dependency);
    assert !MappedBefore(w, all, j, i, k) && !MappedBefore(w, all, |l.nodes|, i, k);
    MappedFor(w, all, entry, i, k, name, j);
    MappedNext(w, all, i, k, |l.nodes|, j);
  }

  lemma SamePart(w: Wheel, l: Loading, all: Loading, i: nat)
    requires Shaped(w, all) && i < |l.nodes| <= |all.nodes| && l.nodes == all.nodes[..|l.nodes|]
    ensures l.nodes[i].member in w.elves && NeededBy(w, l, i) == NeededBy(w, all, i)
    ensures SearchOf(w, l, i) == SearchOf(w, all, i) && AncestorsOf(w, l, i) == AncestorsOf(w, all, i)
  {
  }

  lemma OneMore(nodes: seq<Node>, all: seq<Node>, node: Node)
    requires |nodes| < |all| && nodes == all[..|nodes|] && all[|nodes|] == node
    ensures nodes + [node] == all[..|nodes| + 1]
  {
  }

  /** The members of a part stay a part when a name is bound. */
  lemma BoundNodes(w: Wheel, l: Loading, all: Loading, i: nat, name: string, dependency: string)
    requires Shaped(w, all) && i < |l.nodes| <= |all.nodes| && l.nodes == all.nodes[..|l.nodes|]
    requires l.nodes[i].member in w.elves
    requires dependency !in Members(l) ==>
      |l.nodes| < |all.nodes| && all.nodes[|l.nodes|] == Node(dependency, AncestorsOf(w, all, i), i, name)
    ensures var t := Bind(w, l, i, name, dependency);
      && |l.nodes| <= |t.nodes| <= |all.nodes| && t.nodes == all.nodes[..|t.nodes|]
      && Members(l) <= Members(t) && dependency in Members(t)
  {
    SamePart(w, l, all, i);
    if dependency !in Members(l) {
      OneMore(l.nodes, all.nodes, all.nodes[|l.nodes|]);
    }
    PartMembers(w, l, Bind(w, l, i, name, dependency), dependency);
  }

  lemma PartBinds(w: Wheel, l: Loading, all: Loading, entry: string, i: nat, k: nat, next: nat, name: string)
    requires Complete(w, all, entry) && PartOf(w, l, all, i, k) && k < |NeededBy(w, all, i)| && next == k + 1
    requires l.nodes[i].member in w.elves
    requires name == NeededBy(w, all, i)[k] && name !in w.system && name !in l.bindings && name in all.bindings
    ensures PartOf(w, Bind(w, l, i, name, all.bindings[name].dependency), all, i, next)
  {
    BoundHere(w, l, all, entry, i, k);
    if all.bindings[name].dependency !in Members(l) {
      assert BoundFirst(w, all, name);
      MappedHere(w, l, all, entry, i, k, name);
    }
    BoundNodes(w, l, all, i, name, all.bindings[name].dependency);
    var t := Bind(w, l, i, name, all.bindings[name].dependency);
    PartNames(w, all, i, k, next, name);
    PartNodes(w, t, all, i, k, next, name);
    BindsNext(w, l, t, all, i, k, next, name);
  }

  /** The conclusion of a binding, once its names and members are known. */
  lemma BindsNext(w: Wheel, l: Loading, t: Loading, all: Loading, i: nat, k: nat, next: nat, name: string)
    requires Shaped(w, all) && PartOf(w, l, all, i, k) && next <= |NeededBy(w, all, i)|
    requires name in all.bindings && t.bindings == l.bindings[name := all.bindings[name]]
    requires |l.nodes| <= |t.nodes| <= |all.nodes| && t.nodes == all.nodes[..|t.nodes|]
    requires Members(l) <= Members(t) && all.bindings[name].dependency in Members(t)
    requires forall other :: other in all.bindings ==>
      (NameBefore(w, all, other, i, next) <==> other == name || NameBefore(w, all, other, i, k))
    requires forall j: nat :: 0 < j < |all.nodes| && MappedBefore(w, all, j, i, next) ==>
      MappedBefore(w, all, j, i, k) || j < |t.nodes|
    ensures PartOf(w, t, all, i, next)
  {
    forall j: nat | 0 < j < |all.nodes| && MappedBefore(w, all, j, i, next)
      ensures j < |t.nodes|
    {
    }
  }

  lemma PartMembers(w: Wheel, l: Loading, t: Loading, dependency: string)
    requires |l.nodes| <= |t.nodes| && t.nodes[..|l.nodes|] == l.nodes
    requires dependency in Members(l) || (|t.nodes| > |l.nodes| && t.nodes[|l.nodes|].member == dependency)
    ensures Members(l) <= Members(t) && dependency in Members(t)
  {
    forall m | m in Members(l)
      ensures m in Members(t)
    {
      var j :| 0 <= j < |l.nodes| && l.nodes[j].member == m;
      assert t.nodes[j] == l.nodes[j];
    }
  }

  lemma PartNames(w: Wheel, all: Loading, i: nat, k: nat, next: nat, name: string)
    requires Shaped(w, all) && Bindings(w, all) && i < |all.nodes| && k < |NeededBy(w, all, i)| && next == k + 1
    requires name == NeededBy(w, all, i)[k] && name in all.bindings
    requires all.bindings[name].binder == i && Place(w, all, i, name) == k
    ensures forall other :: other in all.bindings ==>
      (NameBefore(w, all, other, i, next) <==> other == name || NameBefore(w, all, other, i, k))
  {
    forall other | other in all.bindings
      ensures NameBefore(w, all, other, i, next) <==> other == name || NameBefore(w, all, other, i, k)
    {
      assert BoundFirst(w, all, other);
    }
  }

  lemma PartNodes(w: Wheel, t: Loading, all: Loading, i: nat, k: nat, next: nat, name: string)
    requires Shaped(w, all) && i < |all.nodes| && k < |NeededBy(w, all, i)| && next == k + 1
    requires forall j: nat :: 0 < j < |all.nodes| ==> Child(w, all, j)
    requires name == NeededBy(w, all, i)[k] && name in all.bindings && all.bindings[name].dependency in Members(t)
    requires |t.nodes| <= |all.nodes| && t.nodes == all.nodes[..|t.nodes|]
    ensures forall j: nat :: 0 < j < |all.nodes| && MappedBefore(w, all, j, i, next) ==>
      MappedBefore(w, all, j, i, k) || j < |t.nodes|
  {
    var m :| 0 <= m < |t.nodes| && t.nodes[m].member == all.bindings[name].dependency;
    forall j: nat | 0 < j < |all.nodes| && MappedBefore(w, all, j, i, next)
      ensures MappedBefore(w, all, j, i, k) || j < |t.nodes|
    {
      assert Child(w, all, j);
      if all.nodes[j].parent == i && all.nodes[j].via == name {
        assert all.nodes[m].member == all.nodes[j].member;
      }
    }
  }

  /** One name of the loader, as long as it does not fail. */
  lemma LoadsOn(w: Wheel, l: Loading, i: nat, k: nat, name: string)
    requires i < |l.nodes| && l.nodes[i].member in w.elves && k < |NeededBy(w, l, i)| && name == NeededBy(w, l, i)[k]
    requires '/' !in name
    ensures Met(w, l, name) ==> LoadNeeded(w, l, i, k) == LoadNeeded(w, l, i, k + 1)
    ensures !Met(w, l, name) && First(w, SearchOf(w, l, i), name).Some? ==>
      var t := Bind(w, l, i, name, First(w, SearchOf(w, l, i), name).value);
      i < |t.nodes| && t.nodes[i] == l.nodes[i] && LoadNeeded(w, l, i, k) == LoadNeeded(w, t, i, k + 1)
  {
  }

  lemma {:induction false} LoadNeededFollows(w: Wheel, l: Loading, all: Loading, entry: string, i: nat, k: nat)
    requires Complete(w, all, entry) && PartOf(w, l, all, i, k)
    ensures l.nodes[i].member in w.elves && NeededBy(w, l, i) == NeededBy(w, all, i)
    ensures LoadNeeded(w, l, i, k).1.None?
    ensures PartOf(w, LoadNeeded(w, l, i, k).0, all, i, |NeededBy(w, all, i)|)
    decreases |NeededBy(w, all, i)| - k
  {
    SamePart(w, l, all, i);
    if k < |NeededBy(w, all, i)| {
      var name := NeededBy(w, all, i)[k];
      assert Met(w, all, name);
      LoadsOn(w, l, i, k, name);
      if name in w.system || name in l.bindings {
        PartSkips(w, l, all, entry, i, k, k + 1);
        LoadNeededFollows(w, l, all, entry, i, k + 1);
      } else {
        BoundHere(w, l, all, entry, i, k);
        PartBinds(w, l, all, entry, i, k, k + 1, name);
        LoadNeededFollows(w, Bind(w, l, i, name, all.bindings[name].dependency), all, entry, i, k + 1);
      }
    }
  }

  lemma PartMovesOn(w: Wheel, l: Loading, all: Loading, entry: string, i: nat, last: nat, next: nat)
    requires Complete(w, all, entry) && PartOf(w, l, all, i, last) && last == |NeededBy(w, all, i)|
    requires next == i + 1 < |l.nodes|
    ensures PartOf(w, l, all, next, 0)
  {
    forall name | name in all.bindings
      ensures NameBefore(w, all, name, next, 0) <==> NameBefore(w, all, name, i, last)
    {
      assert BoundFirst(w, all, name);
    }
    forall j: nat | 0 < j < |all.nodes|
      ensures MappedBefore(w, all, j, next, 0) <==> MappedBefore(w, all, j, i, last)
    {
      assert Child(w, all, j);
    }
  }

  /** One member of the loader: it does not fail, and the part moves on to the next member. */
  lemma FollowsOn(w: Wheel, l: Loading, all: Loading, entry: string, i: nat, next: nat)
    requires Complete(w, all, entry) && PartOf(w, l, all, i, 0) && next == i + 1
    ensures l.nodes[i].member in w.elves && LoadNeeded(w, l, i, 0).1.None?
    ensures var t := LoadNeeded(w, l, i, 0).0; next < |t.nodes| ==> PartOf(w, t, all, next, 0)
  {
    var t := LoadNeeded(w, l, i, 0).0;
    LoadNeededFollows(w, l, all, entry, i, 0);
    if next < |t.nodes| {
      PartMovesOn(w, t, all, entry, i, |NeededBy(w, all, i)|, next);
    }
  }

  lemma {:induction false} LoadRestFollows(w: Wheel, l: Loading, all: Loading, entry: string, i: nat)
    requires Consistent(w) && Complete(w, all, entry) && Reached(w, l, entry, i) && PartOf(w, l, all, i, 0)
    ensures LoadRest(w, l, entry, i).1.None?
    decreases |w.elves.Keys - Members(l)|, |l.nodes| - i
  {
    var t := LoadNeeded(w, l, i, 0).0;
    FollowsOn(w, l, all, entry, i, i + 1);
    LookAt(w, l, entry, i);
    if i + 1 < |t.nodes| {
      LoadRestFollows(w, t, all, entry, i + 1);
    }
  }

  /**
    A load succeeds if and only if the wheel admits a complete mapping from its
    entry: breadth first, each name bound by the first member that needs it to the
    first match there, members mapped in the order of those needs, and nothing
    left unmet. What it finds is one.
  */
  lemma LoadSucceedsExactlyWhen(w: Wheel, entry: string)
    requires Consistent(w) && entry in w.elves
    ensures Load(w, entry).1.None? <==> exists l :: Complete(w, l, entry)
    ensures Load(w, entry).1.None? ==> Complete(w, Load(w, entry).0, entry)
  {
    var start := Start(entry);
    if Load(w, entry).1.None? {
      LoadRestFinds(w, start, entry, 0);
    } else if all :| Complete(w, all, entry) {
      StartIsPart(w, all, entry);
      LoadRestFollows(w, start, all, entry, 0);
    }
  }

  lemma StartIsPart(w: Wheel, all: Loading, entry: string)
    requires Complete(w, all, entry)
    ensures PartOf(w, Start(entry), all, 0, 0)
  {
  }
}
