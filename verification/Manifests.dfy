/** Python requirement manifests and their canonical form, from `src/worker_protocol.rs`. */
module Manifests {
  import opened Options

  datatype Manifest = Manifest(packages: seq<string>, pythonVersion: seq<string>, excludeNewer: Option<string>)

  const DEFAULT_PACKAGES: seq<string> := ["numpy", "pandas", "matplotlib", "plotnine"]

  // ----- Strings in the order of the sorted set -----

  predicate Less(a: string, b: string) {
    b != [] && (a == [] || a[0] < b[0] || (a[0] == b[0] && Less(a[1..], b[1..])))
  }

  /** The order of texts: the first character that differs decides, and a proper prefix comes first. */
  lemma {:induction false} LessMeans(a: string, b: string)
    ensures Less(a, b) <==>
      a < b || exists k :: 0 <= k < |a| && k < |b| && a[..k] == b[..k] && a[k] < b[k]
  {
    if a != [] && b != [] && a[0] == b[0] {
      var c, d := a[1..], b[1..];
      LessMeans(c, d);
      assert a == [a[0]] + c && b == [b[0]] + d;
      assert a < b <==> c < d;
      if k :| 0 <= k < |c| && k < |d| && c[..k] == d[..k] && c[k] < d[k] {
        assert a[..k + 1] == [a[0]] + c[..k] == b[..k + 1] && a[k + 1] < b[k + 1];
      }
      if k :| 0 <= k < |a| && k < |b| && a[..k] == b[..k] && a[k] < b[k] {
        assert k > 0 && c[..k - 1] == a[..k][1..] == b[..k][1..] == d[..k - 1];
        assert c[k - 1] < d[k - 1];
      }
    } else if a != [] && b != [] {
      assert a[..0] == b[..0];
      forall k | 0 < k < |a| && k < |b|
        ensures a[..k] != b[..k]
      {
        assert a[..k][0] == a[0] && b[..k][0] == b[0];
      }
    }
  }

  lemma {:induction false} LessTrichotomy(a: string, b: string)
    ensures Less(a, b) || a == b || Less(b, a)
    ensures !(Less(a, b) && Less(b, a)) && !Less(a, a)
  {
    if a != [] && b != [] && a[0] == b[0] {
      LessTrichotomy(a[1..], b[1..]);
      assert a == [a[0]] + a[1..] && b == [b[0]] + b[1..];
    }
    if a != [] {
      LessTrichotomy(a[1..], a[1..]);
    }
  }

  lemma {:induction false} LessTransitive(a: string, b: string, c: string)
    requires Less(a, b) && Less(b, c)
    ensures Less(a, c)
  {
    if a != [] && a[0] == b[0] == c[0] {
      LessTransitive(a[1..], b[1..], c[1..]);
    }
  }

  // ----- The sorted set -----

  function Elements(xs: seq<string>): set<string> {
    set x | x in xs
  }

  predicate Ascending(xs: seq<string>) {
    forall i, j :: 0 <= i < j < |xs| ==> Less(xs[i], xs[j])
  }

  function Insert(xs: seq<string>, x: string): seq<string> {
    if xs == [] || Less(x, xs[0]) then [x] + xs
    else if x == xs[0] then xs
    else [xs[0]] + Insert(xs[1..], x)
  }

  lemma {:induction false} InsertKeeps(xs: seq<string>, x: string)
    requires Ascending(xs)
    ensures Ascending(Insert(xs, x)) && forall y :: y in Insert(xs, x) <==> y == x || y in xs
  {
    if xs == [] {
    } else if Less(x, xs[0]) {
      forall i | 0 <= i < |xs| ensures Less(x, xs[i]) {
        if i > 0 {
          LessTransitive(x, xs[0], xs[i]);
        }
      }
    } else if x != xs[0] {
      LessTrichotomy(x, xs[0]);
      InsertKeeps(xs[1..], x);
      var rest := Insert(xs[1..], x);
      assert forall i :: 0 <= i < |rest| ==> rest[i] == x || rest[i] in xs[1..];
      assert xs == [xs[0]] + xs[1..];
    }
  }

  /** Collecting into a sorted set. */
  function Collect(xs: seq<string>): seq<string> {
    if xs == [] then [] else Insert(Collect(xs[..|xs| - 1]), xs[|xs| - 1])
  }

  lemma {:induction false} CollectIs(xs: seq<string>)
    ensures Ascending(Collect(xs)) && Elements(Collect(xs)) == Elements(xs)
  {
    if xs != [] {
      var before, last := xs[..|xs| - 1], xs[|xs| - 1];
      CollectIs(before);
      InsertKeeps(Collect(before), last);
      assert xs == before + [last];
      assert forall y :: y in Collect(before) <==> y in Elements(Collect(before));
      assert forall y :: y in before <==> y in Elements(before);
    }
  }

  /** Sorted and without duplicates, a sequence is determined by its elements. */
  lemma {:induction false} AscendingUnique(xs: seq<string>, ys: seq<string>)
    requires Ascending(xs) && Ascending(ys) && Elements(xs) == Elements(ys)
    ensures xs == ys
  {
    assert |xs| > 0 ==> xs[0] in Elements(xs) && xs[0] in ys;
    assert |ys| > 0 ==> ys[0] in Elements(ys) && ys[0] in xs;
    if xs != [] {
      SameLeast(xs, ys);
      SameLeast(ys, xs);
      LessTrichotomy(xs[0], ys[0]);
      RestElements(xs);
      RestElements(ys);
      AscendingUnique(xs[1..], ys[1..]);
    }
  }

  lemma SameLeast(xs: seq<string>, ys: seq<string>)
    requires xs != [] && ys != [] && Ascending(ys) && Elements(xs) == Elements(ys)
    ensures !Less(xs[0], ys[0])
  {
    assert xs[0] in Elements(ys);
    var i :| 0 <= i < |ys| && ys[i] == xs[0];
    LessTrichotomy(ys[0], ys[i]);
  }

  lemma RestElements(xs: seq<string>)
    requires xs != [] && Ascending(xs)
    ensures Elements(xs[1..]) == Elements(xs) - {xs[0]}
  {
    LessTrichotomy(xs[0], xs[0]);
    assert xs == [xs[0]] + xs[1..];
    assert forall i :: 1 <= i < |xs| ==> Less(xs[0], xs[i]);
    assert xs[0] !in xs[1..];
  }

  lemma CollectsAlike(xs: seq<string>, ys: seq<string>)
    ensures Collect(xs) == Collect(ys) <==> Elements(xs) == Elements(ys)
  {
    CollectIs(xs);
    CollectIs(ys);
    if Elements(xs) == Elements(ys) {
      AscendingUnique(Collect(xs), Collect(ys));
    }
  }

  // ----- The canonical form -----

  /** The elements that are in `chosen`, or those that are not, in their order. */
  function Filter(xs: seq<string>, chosen: seq<string>, keep: bool): seq<string> {
    if xs == [] then []
    else
      var last := xs[|xs| - 1];
      Filter(xs[..|xs| - 1], chosen, keep) + if (last in chosen) == keep then [last] else []
  }

  lemma {:induction false} FilterElements(xs: seq<string>, chosen: seq<string>, keep: bool)
    ensures forall y :: y in Filter(xs, chosen, keep) <==> y in xs && (y in chosen) == keep
  {
    if xs != [] {
      FilterElements(xs[..|xs| - 1], chosen, keep);
      assert xs == xs[..|xs| - 1] + [xs[|xs| - 1]];
    }
  }

  function Normalized(m: Manifest): Manifest {
    var packages := Collect(m.packages);
    Manifest(
      Filter(DEFAULT_PACKAGES, packages, true) + Filter(packages, DEFAULT_PACKAGES, false),
      Collect(m.pythonVersion),
      m.excludeNewer)
  }

  lemma NormalizedElements(m: Manifest)
    ensures Elements(Normalized(m).packages) == Elements(m.packages)
    ensures Elements(Normalized(m).pythonVersion) == Elements(m.pythonVersion)
  {
    var packages := Collect(m.packages);
    CollectIs(m.packages);
    CollectIs(m.pythonVersion);
    FilterElements(DEFAULT_PACKAGES, packages, true);
    FilterElements(packages, DEFAULT_PACKAGES, false);
    forall x ensures x in Elements(Normalized(m).packages) <==> x in Elements(m.packages) {
      assert x in packages <==> x in Elements(packages);
    }
  }

  /** Two manifests have one canonical form exactly when packages, versions and cutoff agree. */
  lemma NormalizedAlike(m: Manifest, n: Manifest)
    ensures Normalized(m) == Normalized(n) <==>
      && Elements(m.packages) == Elements(n.packages)
      && Elements(m.pythonVersion) == Elements(n.pythonVersion)
      && m.excludeNewer == n.excludeNewer
  {
    NormalizedElements(m);
    NormalizedElements(n);
    CollectsAlike(m.packages, n.packages);
    CollectsAlike(m.pythonVersion, n.pythonVersion);
  }

  lemma NormalizedIdempotent(m: Manifest)
    ensures Normalized(Normalized(m)) == Normalized(m)
  {
    NormalizedElements(m);
    NormalizedAlike(Normalized(m), m);
  }

  predicate Distinct(xs: seq<string>) {
    forall i, j :: 0 <= i < j < |xs| ==> xs[i] != xs[j]
  }

  lemma AscendingDistinct(xs: seq<string>)
    requires Ascending(xs)
    ensures Distinct(xs)
  {
    forall i, j | 0 <= i < j < |xs| ensures xs[i] != xs[j] {
      LessTrichotomy(xs[i], xs[j]);
    }
  }

  lemma {:induction false} FilterDistinct(xs: seq<string>, chosen: seq<string>, keep: bool)
    requires Distinct(xs)
    ensures Distinct(Filter(xs, chosen, keep))
  {
    if xs != [] {
      FilterDistinct(xs[..|xs| - 1], chosen, keep);
      FilterElements(xs[..|xs| - 1], chosen, keep);
    }
  }

  lemma {:induction false} FilterAscending(xs: seq<string>, chosen: seq<string>, keep: bool)
    requires Ascending(xs)
    ensures Ascending(Filter(xs, chosen, keep))
  {
    if xs != [] {
      var before := xs[..|xs| - 1];
      FilterAscending(before, chosen, keep);
      FilterElements(before, chosen, keep);
      var kept := Filter(before, chosen, keep);
      forall i | 0 <= i < |kept| ensures Less(kept[i], xs[|xs| - 1]) {
        assert kept[i] in before;
        var j :| 0 <= j < |before| && before[j] == kept[i];
      }
    }
  }

  /** The default packages come first, in their fixed order; the others follow in ascending order. */
  lemma NormalizedOrder(m: Manifest)
    ensures Distinct(Normalized(m).packages) && Ascending(Normalized(m).pythonVersion)
    ensures exists rest ::
      && Normalized(m).packages == Filter(["numpy", "pandas", "matplotlib", "plotnine"], m.packages, true) + rest
      && Ascending(rest)
      && forall x :: x in rest ==> x !in ["numpy", "pandas", "matplotlib", "plotnine"]
  {
    var packages := Collect(m.packages);
    var first, rest := Filter(DEFAULT_PACKAGES, packages, true), Filter(packages, DEFAULT_PACKAGES, false);
    CollectIs(m.packages);
    CollectIs(m.pythonVersion);
    FilterAscending(packages, DEFAULT_PACKAGES, false);
    FilterElements(packages, DEFAULT_PACKAGES, false);
    SameFilter(DEFAULT_PACKAGES, packages, m.packages);
    FilteredApart(packages);
    assert Normalized(m).packages == first + rest;
  }

  /** The defaults that are there and the other packages have nothing in common, and nothing twice. */
  lemma FilteredApart(packages: seq<string>)
    requires Ascending(packages)
    ensures Distinct(Filter(DEFAULT_PACKAGES, packages, true) + Filter(packages, DEFAULT_PACKAGES, false))
  {
    var first, rest := Filter(DEFAULT_PACKAGES, packages, true), Filter(packages, DEFAULT_PACKAGES, false);
    DefaultsDistinct();
    FilterAscending(packages, DEFAULT_PACKAGES, false);
    AscendingDistinct(rest);
    FilterDistinct(DEFAULT_PACKAGES, packages, true);
    FilterElements(DEFAULT_PACKAGES, packages, true);
    FilterElements(packages, DEFAULT_PACKAGES, false);
    DistinctApart(first, rest);
  }

  lemma DistinctApart(first: seq<string>, rest: seq<string>)
    requires Distinct(first) && Distinct(rest) && forall x :: x in first ==> x !in rest
    ensures Distinct(first + rest)
  {
    var all := first + rest;
    forall i, j | 0 <= i < j < |all|
      ensures all[i] != all[j]
    {
      if i < |first| <= j {
        assert first[i] in first && rest[j - |first|] in rest;
      }
    }
  }

  lemma {:induction false} SameFilter(xs: seq<string>, some: seq<string>, others: seq<string>)
    requires Elements(some) == Elements(others)
    ensures Filter(xs, some, true) == Filter(xs, others, true)
  {
    if xs != [] {
      SameFilter(xs[..|xs| - 1], some, others);
      assert xs[|xs| - 1] in Elements(some) <==> xs[|xs| - 1] in Elements(others);
    }
  }

  /** What `prepare_packages` makes of a manifest. */
  function Extended(m: Manifest, packages: seq<string>): Manifest {
    Normalized(m.(packages := m.packages + packages))
  }

  function Grown(m: Manifest, groups: seq<seq<string>>): Manifest {
    if groups == [] then Normalized(m) else Extended(Grown(m, groups[..|groups| - 1]), groups[|groups| - 1])
  }

  function All(groups: seq<seq<string>>): set<string> {
    if groups == [] then {} else All(groups[..|groups| - 1]) + Elements(groups[|groups| - 1])
  }

  lemma ExtendedElements(m: Manifest, packages: seq<string>)
    ensures Elements(Extended(m, packages).packages) == Elements(m.packages) + Elements(packages)
    ensures Elements(Extended(m, packages).pythonVersion) == Elements(m.pythonVersion)
    ensures Normalized(Extended(m, packages)) == Extended(m, packages)
  {
    NormalizedElements(m.(packages := m.packages + packages));
    NormalizedIdempotent(m.(packages := m.packages + packages));
    assert Elements(m.packages + packages) == Elements(m.packages) + Elements(packages);
  }

  lemma {:induction false} GrownElements(m: Manifest, groups: seq<seq<string>>)
    ensures Elements(Grown(m, groups).packages) == Elements(m.packages) + All(groups)
    ensures Elements(Grown(m, groups).pythonVersion) == Elements(m.pythonVersion)
    ensures Grown(m, groups).excludeNewer == m.excludeNewer
    ensures Normalized(Grown(m, groups)) == Grown(m, groups)
  {
    if groups == [] {
      NormalizedElements(m);
      NormalizedIdempotent(m);
    } else {
      GrownElements(m, groups[..|groups| - 1]);
      ExtendedElements(Grown(m, groups[..|groups| - 1]), groups[|groups| - 1]);
    }
  }

  /** Adding the same packages in any order and any grouping gives one manifest. */
  lemma GrownInAnyOrder(m: Manifest, groups: seq<seq<string>>, others: seq<seq<string>>)
    ensures Grown(m, groups) == Grown(m, others)
      <==> Elements(m.packages) + All(groups) == Elements(m.packages) + All(others)
  {
    GrownElements(m, groups);
    GrownElements(m, others);
    NormalizedAlike(Grown(m, groups), Grown(m, others));
  }

  // ----- The code: a sorted set, from which the defaults are removed -----

  method CollectSet(xs: seq<string>) returns (sorted: seq<string>)
    ensures sorted == Collect(xs)
  {
    sorted := [];
    for i := 0 to |xs|
      invariant sorted == Collect(xs[..i])
    {
      assert xs[..i + 1][..i] == xs[..i];
      sorted := Insert(sorted, xs[i]);
    }
    assert xs[..|xs|] == xs;
  }

  /** Removes an element of a sorted set, and says whether it was there. */
  method RemoveFrom(xs: seq<string>, x: string) returns (rest: seq<string>, removed: bool)
    ensures rest == Filter(xs, [x], false)
    ensures removed <==> x in xs
  {
    rest, removed := [], false;
    for i := 0 to |xs|
      invariant rest == Filter(xs[..i], [x], false)
      invariant removed <==> x in xs[..i]
    {
      assert xs[..i + 1][..i] == xs[..i];
      if xs[i] == x {
        removed := true;
      } else {
        rest := rest + [xs[i]];
      }
    }
    assert xs[..|xs|] == xs;
  }

  lemma {:induction false} FilterTwice(xs: seq<string>, first: seq<string>, x: string)
    ensures Filter(Filter(xs, first, false), [x], false) == Filter(xs, first + [x], false)
  {
    if xs != [] {
      var last := xs[|xs| - 1];
      FilterTwice(xs[..|xs| - 1], first, x);
      var inner := Filter(xs[..|xs| - 1], first, false);
      if last !in first {
        assert (inner + [last])[..|inner|] == inner;
      } else {
        assert inner + [] == inner;
      }
    }
  }

  lemma {:induction false} FilterNone(xs: seq<string>)
    ensures Filter(xs, [], false) == xs
  {
    if xs != [] {
      FilterNone(xs[..|xs| - 1]);
    }
  }

  /** One default more: it is kept if it is among all, and gone from the rest. */
  lemma TakenNext(all: seq<string>, defaults: seq<string>, i: nat)
    requires Distinct(defaults) && i < |defaults|
    ensures var rest := Filter(all, defaults[..i], false); var x := defaults[i];
      && (x in rest <==> x in all)
      && Filter(rest, [x], false) == Filter(all, defaults[..i + 1], false)
      && Filter(defaults[..i + 1], all, true) == Filter(defaults[..i], all, true) + if x in all then [x] else []
  {
    var before, x := defaults[..i], defaults[i];
    FilterElements(all, before, false);
    FilterTwice(all, before, x);
    assert defaults[..i + 1] == before + [x];
    assert (before + [x])[..i] == before;
    assert x !in before;
  }

  /** Takes out the defaults, in their order, and leaves the others. */
  method TakeDefaults(defaults: seq<string>, all: seq<string>) returns (kept: seq<string>, rest: seq<string>)
    requires Distinct(defaults)
    ensures kept == Filter(defaults, all, true) && rest == Filter(all, defaults, false)
  {
    rest, kept := all, [];
    FilterNone(all);
    for i := 0 to |defaults|
      invariant rest == Filter(all, defaults[..i], false)
      invariant kept == Filter(defaults[..i], all, true)
    {
      TakenNext(all, defaults, i);
      var removed: bool;
      rest, removed := RemoveFrom(rest, defaults[i]);
      if removed {
        kept := kept + [defaults[i]];
      }
    }
    assert defaults[..|defaults|] == defaults;
  }

  lemma DefaultsDistinct()
    ensures Distinct(DEFAULT_PACKAGES)
  {
    var defaults := DEFAULT_PACKAGES;
    assert defaults[0][0] == 'n' && defaults[1][1] == 'a' && defaults[2][0] == 'm' && defaults[3][1] == 'l';
    assert defaults[1][0] == 'p' && defaults[3][0] == 'p';
  }

  method Normalize(m: Manifest) returns (n: Manifest)
    ensures n == Normalized(m)
  {
    var packages := CollectSet(m.packages);
    DefaultsDistinct();
    var kept, rest := TakeDefaults(DEFAULT_PACKAGES, packages);
    var versions := CollectSet(m.pythonVersion);
    n := Manifest(kept + rest, versions, m.excludeNewer);
  }
}
