/**
  Where the dependency audit looks, told by the paths that the ELF files carry
  alone: along the chain of parents, or along RUNPATH. And which files it starts
  from.
*/
module DependencySearch {
  import opened Options
  import opened DependencyAudit
  import opened DependencyLoading

  // ----- Duplicate paths -----

  lemma UniqueOfNext(xs: seq<string>, x: string)
    ensures Unique(xs + [x]) == if x in Unique(xs) then Unique(xs) else Unique(xs) + [x]
  {
    assert (xs + [x])[..|xs|] == xs;
  }

  /** The paths that are kept are in the order of their first occurrences. */
  lemma {:induction false} UniqueKeepsOrder(xs: seq<string>, i: nat, j: nat)
    requires i < j < |Unique(xs)|
    ensures Unique(xs)[i] in xs && Unique(xs)[j] in xs
    ensures Position(xs, Unique(xs)[i]) < Position(xs, Unique(xs)[j])
  {
    UniqueIs(xs);
    if xs != [] {
      var before, x := xs[..|xs| - 1], xs[|xs| - 1];
      UniqueIs(before);
      assert forall k :: 0 <= k < |before| ==> xs[k] == before[k];
      if j < |Unique(before)| {
        UniqueKeepsOrder(before, i, j);
        SamePosition(before, xs, Unique(before)[i]);
        SamePosition(before, xs, Unique(before)[j]);
      } else {
        SamePosition(before, xs, Unique(before)[i]);
        assert x !in before;
      }
    }
  }

  lemma SamePosition(before: seq<string>, xs: seq<string>, x: string)
    requires |before| <= |xs| && xs[..|before|] == before && x in before
    ensures x in xs && Position(xs, x) == Position(before, x)
  {
    assert before[Position(before, x)] == xs[Position(before, x)];
    assert forall k :: 0 <= k < |before| ==> xs[k] == before[k];
  }

  lemma {:induction false} UniqueFlattens(xs: seq<string>, ys: seq<string>)
    ensures Unique(xs + Unique(ys)) == Unique(xs + ys)
  {
    if ys != [] {
      var before, y := ys[..|ys| - 1], ys[|ys| - 1];
      UniqueFlattens(xs, before);
      assert xs + ys == (xs + before) + [y];
      UniqueOfNext(xs + before, y);
      UniqueIs(xs + before);
      UniqueIs(before);
      if y !in Unique(before) {
        assert xs + Unique(ys) == (xs + Unique(before)) + [y];
        UniqueOfNext(xs + Unique(before), y);
      }
    }
  }

  lemma {:induction false} FirstOfNext(w: Wheel, xs: seq<string>, x: string, name: string)
    ensures First(w, xs + [x], name) == if First(w, xs, name).Some? then First(w, xs, name) else First(w, [x], name)
  {
    if xs == [] {
      assert xs + [x] == [x];
    } else {
      FirstOfNext(w, xs[1..], x, name);
      assert (xs + [x])[1..] == xs[1..] + [x];
    }
  }

  /** Looking in a path again finds nothing new. */
  lemma {:induction false} FirstOfUnique(w: Wheel, xs: seq<string>, name: string)
    ensures First(w, Unique(xs), name) == First(w, xs, name)
  {
    if xs != [] {
      var before, x := xs[..|xs| - 1], xs[|xs| - 1];
      FirstOfUnique(w, before, name);
      assert xs == before + [x];
      FirstOfNext(w, before, x, name);
      FirstOfNext(w, Unique(before), x, name);
      if x in Unique(before) {
        FirstIs(w, Unique(before), name);
      }
    }
  }

  // ----- The chain of parents -----

  predicate Parented(l: Loading) {
    forall i :: 0 < i < |l.nodes| ==> l.nodes[i].parent < i
  }

  /** The own paths of a member, then those of its parent, and so on up to the entry. */
  ghost function Chain(w: Wheel, l: Loading, i: nat): seq<string>
    requires Shaped(w, l) && Parented(l) && i < |l.nodes|
  {
    w.elves[l.nodes[i].member].rpaths + if i == 0 then [] else Chain(w, l, l.nodes[i].parent)
  }

  lemma {:induction false} InheritsChain(w: Wheel, l: Loading, i: nat)
    requires Shaped(w, l) && i < |l.nodes| && l.nodes[0].inherited == []
    requires forall j: nat :: 0 < j < |l.nodes| ==> Child(w, l, j)
    ensures Parented(l) && AncestorsOf(w, l, i) == Unique(Chain(w, l, i))
  {
    var own := w.elves[l.nodes[i].member].rpaths;
    forall j | 0 < j < |l.nodes|
      ensures l.nodes[j].parent < j
    {
      assert Child(w, l, j);
    }
    if i > 0 {
      assert Child(w, l, i);
      InheritsChain(w, l, l.nodes[i].parent);
      UniqueFlattens(own, Chain(w, l, l.nodes[i].parent));
    }
  }

  lemma FoundIsFirst(w: Wheel, paths: seq<string>, name: string, dependency: string)
    ensures IsFirstMatch(w, paths, name, dependency) <==> First(w, paths, name) == Some(dependency)
  {
    FirstIs(w, paths, name);
    if IsFirstMatch(w, paths, name, dependency) {
      var k: nat :| FoundAt(w, paths, name, dependency, k);
      assert !NoMatch(w, paths, name);
    }
  }

  /** Where a member looks: in RUNPATH if it has one, and else along its chain. */
  lemma SearchesAlong(w: Wheel, l: Loading, i: nat, name: string, dependency: string)
    requires Shaped(w, l) && i < |l.nodes| && l.nodes[0].inherited == []
    requires forall j: nat :: 0 < j < |l.nodes| ==> Child(w, l, j)
    ensures Parented(l)
    ensures var elf := w.elves[l.nodes[i].member];
      var paths := if elf.runpath.Some? then elf.runpath.value else Chain(w, l, i);
      && (IsFirstMatch(w, SearchOf(w, l, i), name, dependency) <==> IsFirstMatch(w, paths, name, dependency))
      && (NoMatch(w, SearchOf(w, l, i), name) <==> NoMatch(w, paths, name))
  {
    InheritsChain(w, l, i);
    var elf := w.elves[l.nodes[i].member];
    var paths := if elf.runpath.Some? then elf.runpath.value else Chain(w, l, i);
    FirstOfUnique(w, Chain(w, l, i), name);
    FoundIsFirst(w, SearchOf(w, l, i), name, dependency);
    FoundIsFirst(w, paths, name, dependency);
    FirstIs(w, SearchOf(w, l, i), name);
    FirstIs(w, paths, name);
  }

  // ----- What a load binds, and where it stops -----

  /**
    Each loaded name was found in the first path that holds it: of RUNPATH alone, if
    the member that needed it first has one; otherwise of that member's own paths,
    then its parent's, and so on up to the entry. Children are linked to the member
    through which they were found.
  */
  lemma BoundAlongChain(w: Wheel, entry: string, name: string) returns (k: nat)
    requires Consistent(w) && entry in w.elves && name in Load(w, entry).0.bindings
    ensures var l := Load(w, entry).0; var b := l.bindings[name];
      && Shaped(w, l) && Parented(l) && b.binder < |l.nodes|
      && var elf := w.elves[l.nodes[b.binder].member];
         var paths := if elf.runpath.Some? then elf.runpath.value else Chain(w, l, b.binder);
         && name in elf.needed && k < |paths| && w.join(paths[k], name) in w.installed
         && w.installed[w.join(paths[k], name)] == b.dependency
         && forall j :: 0 <= j < k ==> w.join(paths[j], name) !in w.installed
  {
    LoadMeets(w, entry);
    var l := Load(w, entry).0;
    var b := l.bindings[name];
    assert Resolved(w, l, name);
    SearchesAlong(w, l, b.binder, name, b.dependency);
    var elf := w.elves[l.nodes[b.binder].member];
    var paths := if elf.runpath.Some? then elf.runpath.value else Chain(w, l, b.binder);
    k :| FoundAt(w, paths, name, b.dependency, k);
  }

  /**
    A load that fails stops at a needed name that has a slash, or that none of
    those paths holds, is no system library, and has not been loaded.
  */
  lemma FailsAlongChain(w: Wheel, entry: string) returns (i: nat)
    requires Consistent(w) && entry in w.elves && Load(w, entry).1.Some?
    ensures var l := Load(w, entry).0; var failure := Load(w, entry).1.value;
      && Shaped(w, l) && Parented(l) && i < |l.nodes| && !failure.MissingCommand?
      && failure.member == l.nodes[i].member && failure.name in w.elves[failure.member].needed
      && (forall j, name :: 0 <= j < i && name in w.elves[l.nodes[j].member].needed ==>
            '/' !in name && (name in w.system || name in l.bindings))
      && (failure.SlashInName? <==> '/' in failure.name)
      && (failure.Undeclared? ==>
            var elf := w.elves[l.nodes[i].member];
            var paths := if elf.runpath.Some? then elf.runpath.value else Chain(w, l, i);
            && failure.name !in w.system && failure.name !in l.bindings
            && forall k :: 0 <= k < |paths| ==> w.join(paths[k], failure.name) !in w.installed)
  {
    LoadMeets(w, entry);
    var l := Load(w, entry).0;
    var failure := Load(w, entry).1.value;
    i :| 0 <= i < |l.nodes| && AllMet(w, l, i) && Fails(w, l, i, failure);
    SearchesAlong(w, l, i, failure.name, "");
    forall j, name | 0 <= j < i && name in w.elves[l.nodes[j].member].needed
      ensures '/' !in name && (name in w.system || name in l.bindings)
    {
      assert name in NeededBy(w, l, j) && Met(w, l, name);
    }
  }

  /** A name is bound by the first member that needs it, to the first match of its RUNPATH or chain. */
  ghost predicate FoundAlong(w: Wheel, l: Loading, name: string)
    requires Shaped(w, l) && Parented(l) && name in l.bindings
  {
    var b := l.bindings[name];
    && name !in w.system && b.binder < |l.nodes|
    && (exists i :: 0 <= i < |l.nodes| && l.nodes[i].member == b.dependency)
    && var elf := w.elves[l.nodes[b.binder].member];
       var paths := if elf.runpath.Some? then elf.runpath.value else Chain(w, l, b.binder);
       && name in elf.needed
       && (forall i :: 0 <= i < b.binder ==> name !in w.elves[l.nodes[i].member].needed)
       && IsFirstMatch(w, paths, name, b.dependency)
  }

  /** A member is linked to the parent that found it, and inherits that parent's chain, each path once. */
  ghost predicate Linked(w: Wheel, l: Loading, i: nat)
    requires Shaped(w, l) && Parented(l) && 0 < i < |l.nodes|
  {
    var x := l.nodes[i];
    && x.inherited == Unique(Chain(w, l, x.parent)) && x.via in l.bindings
    && l.bindings[x.via] == Binding(x.member, x.parent)
  }

  predicate NeedsMet(w: Wheel, l: Loading, elf: Elf) {
    forall name :: name in elf.needed ==> '/' !in name && (name in w.system || name in l.bindings)
  }

  /** A mapping from an entry in which every name is found along RUNPATH or the chain, and nothing is left unmet. */
  ghost predicate MappedAlong(w: Wheel, l: Loading, entry: string) {
    && Shaped(w, l) && Parented(l) && l.nodes[0] == Node(entry, [], 0, "")
    && (forall i: nat :: 0 < i < |l.nodes| ==> Linked(w, l, i))
    && (forall name :: name in l.bindings ==> FoundAlong(w, l, name))
    && InOrder(w, l)
    && forall i: nat :: i < |l.nodes| ==> NeedsMet(w, l, w.elves[l.nodes[i].member])
  }

  lemma MappedAlongIsComplete(w: Wheel, l: Loading, entry: string)
    requires MappedAlong(w, l, entry)
    ensures Complete(w, l, entry)
  {
    forall i: nat | 0 < i < |l.nodes|
      ensures Child(w, l, i)
    {
      assert Linked(w, l, i) && FoundAlong(w, l, l.nodes[i].via);
      InheritsUpTo(w, l, entry, l.nodes[i].parent);
    }
    forall name | name in l.bindings
      ensures BoundFirst(w, l, name)
    {
      assert FoundAlong(w, l, name);
      SearchesAlong(w, l, l.bindings[name].binder, name, l.bindings[name].dependency);
    }
    forall i: nat, name | i < |l.nodes| && name in NeededBy(w, l, i)
      ensures Met(w, l, name)
    {
      assert NeedsMet(w, l, w.elves[l.nodes[i].member]);
    }
  }

  lemma InheritsUpTo(w: Wheel, l: Loading, entry: string, i: nat)
    requires MappedAlong(w, l, entry) && i < |l.nodes|
    ensures AncestorsOf(w, l, i) == Unique(Chain(w, l, i))
  {
    if i > 0 {
      assert Linked(w, l, i);
      UniqueFlattens(w.elves[l.nodes[i].member].rpaths, Chain(w, l, l.nodes[i].parent));
    }
  }

  lemma CompleteInherits(w: Wheel, l: Loading, entry: string, i: nat)
    requires Complete(w, l, entry) && i < |l.nodes|
    ensures Parented(l)
    ensures i > 0 ==> Linked(w, l, i)
  {
    InheritsChain(w, l, 0);
    if i > 0 {
      assert Child(w, l, i);
      InheritsChain(w, l, l.nodes[i].parent);
    }
  }

  lemma CompleteFinds(w: Wheel, l: Loading, entry: string, name: string)
    requires Complete(w, l, entry) && name in l.bindings
    ensures Parented(l) && FoundAlong(w, l, name)
  {
    InheritsChain(w, l, 0);
    assert BoundFirst(w, l, name);
    var b := l.bindings[name];
    SearchesAlong(w, l, b.binder, name, b.dependency);
    assert forall i: nat :: i < b.binder ==> NeededBy(w, l, i) == w.elves[l.nodes[i].member].needed;
  }

  lemma CompleteMeets(w: Wheel, l: Loading, entry: string, i: nat)
    requires Complete(w, l, entry) && i < |l.nodes|
    ensures NeedsMet(w, l, w.elves[l.nodes[i].member])
  {
    forall name | name in w.elves[l.nodes[i].member].needed
      ensures '/' !in name && (name in w.system || name in l.bindings)
    {
      assert name in NeededBy(w, l, i) && Met(w, l, name);
    }
  }

  lemma CompleteIsMappedAlong(w: Wheel, l: Loading, entry: string)
    requires Complete(w, l, entry)
    ensures MappedAlong(w, l, entry)
  {
    CompleteInherits(w, l, entry, 0);
    assert forall i: nat :: 0 < i < |l.nodes| ==> Linked(w, l, i) by {
      forall i: nat | 0 < i < |l.nodes|
        ensures Linked(w, l, i)
      {
        CompleteInherits(w, l, entry, i);
      }
    }
    assert forall name :: name in l.bindings ==> FoundAlong(w, l, name) by {
      forall name | name in l.bindings
        ensures FoundAlong(w, l, name)
      {
        CompleteFinds(w, l, entry, name);
      }
    }
    assert forall i: nat :: i < |l.nodes| ==> NeedsMet(w, l, w.elves[l.nodes[i].member]) by {
      forall i: nat | i < |l.nodes|
        ensures NeedsMet(w, l, w.elves[l.nodes[i].member])
      {
        CompleteMeets(w, l, entry, i);
      }
    }
  }

  /** A load succeeds if and only if the wheel admits such a mapping, and then it finds one. */
  lemma LoadSucceedsAlongChain(w: Wheel, entry: string)
    requires Consistent(w) && entry in w.elves
    ensures Load(w, entry).1.None? <==> exists l :: MappedAlong(w, l, entry)
    ensures Load(w, entry).1.None? ==> MappedAlong(w, Load(w, entry).0, entry)
  {
    LoadSucceedsExactlyWhen(w, entry);
    if Load(w, entry).1.None? {
      CompleteIsMappedAlong(w, Load(w, entry).0, entry);
    }
    if l :| MappedAlong(w, l, entry) {
      MappedAlongIsComplete(w, l, entry);
    }
  }

  // ----- What the audit starts from -----

  predicate Before(w: Wheel, m: string, other: string) {
    m in w.members && other in w.members && Position(w.members, m) < Position(w.members, other)
  }

  /** Starts that a loop takes from its `i`-th turn on are members not yet passed, and in order. */
  ghost predicate InTurn(w: Wheel, commands: seq<string>, entries: bool, i: nat, checked: set<string>, m: string) {
    m in w.elves && m in w.members && i <= Position(w.members, m) && Selected(w, commands, entries, m, checked)
  }

  ghost predicate Follows(w: Wheel, entries: bool, m: string, next: string)
    requires Consistent(w) && m in w.elves
  {
    Before(w, m, next) && (!entries ==> next !in Mapped(w, m))
  }

  lemma {:induction false} StartsAre(w: Wheel, commands: seq<string>, entries: bool, i: nat, checked: set<string>)
    requires Consistent(w) && i <= |w.members|
    ensures var starts := Starts(w, commands, entries, i, checked);
      && InWheel(w, starts)
      && (forall k :: 0 <= k < |starts| ==> InTurn(w, commands, entries, i, checked, starts[k]))
      && (forall j, k :: 0 <= j < k < |starts| ==> Follows(w, entries, starts[j], starts[k]))
    decreases |w.members| - i
  {
    StartsAreInWheel(w, commands, entries, i, checked);
    if i < |w.members| {
      var m := w.members[i];
      assert m in w.members && Position(w.members, m) == i;
      var selected := Selected(w, commands, entries, m, checked);
      var now := if selected then checked + Mapped(w, m) else checked;
      StartsAre(w, commands, entries, i + 1, now);
      var rest, starts := Starts(w, commands, entries, i + 1, now), Starts(w, commands, entries, i, checked);
      forall other | InTurn(w, commands, entries, i + 1, now, other)
        ensures InTurn(w, commands, entries, i, checked, other)
        ensures selected ==> Follows(w, entries, m, other)
      {
      }
      if selected {
        assert starts == [m] + rest;
        assert InTurn(w, commands, entries, i, checked, m);
      }
    }
  }

  /** Commands, executables, and files whose name no ELF of the wheel needs. */
  predicate StartsALoad(w: Wheel, commands: seq<string>, m: string) {
    && m in w.elves
    && (m in commands || w.elves[m].interpreter || forall e :: e in w.elves ==> Basename(m) !in w.elves[e].needed)
  }

  lemma EntriesAre(w: Wheel, commands: seq<string>, m: string)
    requires Consistent(w)
    ensures m in Starts(w, commands, true, 0, {}) <==> StartsALoad(w, commands, m)
  {
    StartsAre(w, commands, true, 0, {});
    StartsReach(w, commands, true, 0, {});
    var entries := Starts(w, commands, true, 0, {});
    if m in w.elves {
      assert m in w.members;
      assert StartsALoad(w, commands, m) <==> IsEntry(w, commands, m);
      if m in entries {
        var k :| 0 <= k < |entries| && entries[k] == m;
        assert InTurn(w, commands, true, 0, {}, entries[k]);
      }
    }
  }

  /** The first `n` are in the order of the wheel, and so are the others; those were not mapped by a load before. */
  ghost predicate InSequence(w: Wheel, starts: seq<string>, n: nat)
    requires Consistent(w) && InWheel(w, starts)
  {
    forall j: nat, k: nat :: j < k < |starts| ==>
      && (k < n || n <= j ==> Before(w, starts[j], starts[k]))
      && (n <= k ==> starts[k] !in Mapped(w, starts[j]))
  }

  lemma NotMappedBefore(w: Wheel, entries: seq<string>, m: string, j: nat)
    requires Consistent(w) && InWheel(w, entries) && m !in AllMapped(w, entries) && j < |entries|
    ensures m !in Mapped(w, entries[j])
  {
    MappedByOne(w, entries, m);
  }

  lemma PairFollows(w: Wheel, entries: seq<string>, rest: seq<string>, j: nat, k: nat)
    requires Consistent(w) && InWheel(w, entries) && InWheel(w, rest) && InWheel(w, entries + rest)
    requires j < k < |entries| + |rest|
    requires k < |entries| ==> Follows(w, true, entries[j], entries[k])
    requires |entries| <= j ==> Follows(w, false, rest[j - |entries|], rest[k - |entries|])
    requires j < |entries| <= k ==> rest[k - |entries|] !in Mapped(w, entries[j])
    ensures var starts, n := entries + rest, |entries|;
      && (k < n || n <= j ==> Before(w, starts[j], starts[k]))
      && (n <= k ==> starts[k] !in Mapped(w, starts[j]))
  {
  }

  lemma StartsAreInSequence(w: Wheel, entries: seq<string>, rest: seq<string>)
    requires Consistent(w) && InWheel(w, entries) && InWheel(w, rest) && InWheel(w, entries + rest)
    requires forall j, k :: 0 <= j < k < |entries| ==> Follows(w, true, entries[j], entries[k])
    requires forall j, k :: 0 <= j < k < |rest| ==> Follows(w, false, rest[j], rest[k])
    requires forall j, k :: 0 <= j < |entries| && 0 <= k < |rest| ==> rest[k] !in Mapped(w, entries[j])
    ensures InSequence(w, entries + rest, |entries|)
  {
    forall j: nat, k: nat | j < k < |entries + rest|
      ensures var starts, n := entries + rest, |entries|;
        && (k < n || n <= j ==> Before(w, starts[j], starts[k]))
        && (n <= k ==> starts[k] !in Mapped(w, starts[j]))
    {
      PairFollows(w, entries, rest, j, k);
    }
  }

  lemma StartsInSequence(w: Wheel, commands: seq<string>)
    requires Consistent(w)
    ensures InSequence(w, AllStarts(w, commands), |Starts(w, commands, true, 0, {})|)
  {
    var entries := Starts(w, commands, true, 0, {});
    StartsAre(w, commands, true, 0, {});
    var rest := Starts(w, commands, false, 0, AllMapped(w, entries));
    StartsAre(w, commands, false, 0, AllMapped(w, entries));
    forall j: nat, k: nat | j < |entries| && k < |rest|
      ensures rest[k] !in Mapped(w, entries[j])
    {
      assert InTurn(w, commands, false, 0, AllMapped(w, entries), rest[k]);
      NotMappedBefore(w, entries, rest[k], j);
    }
    StartsAreInSequence(w, entries, rest);
  }

  /**
    The audit loads from the commands, the executables and the files whose name no
    ELF needs, in the order of the wheel; then, in that order, from each file that no
    load before has mapped.
  */
  lemma AuditStartsExactlyFrom(w: Wheel, commands: seq<string>) returns (n: nat)
    requires Consistent(w)
    ensures n <= |AllStarts(w, commands)| && InSequence(w, AllStarts(w, commands), n)
    ensures forall m :: m in AllStarts(w, commands)[..n] <==> StartsALoad(w, commands, m)
  {
    var entries := Starts(w, commands, true, 0, {});
    n := |entries|;
    assert AllStarts(w, commands)[..n] == entries;
    StartsInSequence(w, commands);
    forall m
      ensures m in entries <==> StartsALoad(w, commands, m)
    {
      EntriesAre(w, commands, m);
    }
  }
}
