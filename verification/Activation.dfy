/**
  Activating another managed environment in the running interpreter:
  `_activate` and `prepare` of `src/python/environment.py`, and the pending,
  resolved and live candidates of `src/python/requirements.rs`.

  Site hooks, the resolver and the arrival of interrupts are parameters.
*/
module Activation {
  import opened Options
  import opened Manifests

  // ----- State -----

  datatype Selection = Selection(python: string, libpython: string)

  datatype Candidate = Candidate(selected: Selection, requirements: Manifest)

  datatype Environment = Environment(prefix: string, execPrefix: string, executable: string, sitePackages: string,
                                     pythonpath: seq<string>)

  datatype Identity = Identity(prefix: Option<string>, execPrefix: Option<string>, executable: Option<string>,
                               realPrefix: Option<string>)

  /** Environment variables; a value is the list of its parts between path separators. */
  type Variables = map<string, seq<string>>

  datatype State = State(
    // The interpreter.
    path: seq<string>,
    identity: Identity,
    variables: Variables,
    active: Environment,
    sitePaths: set<string>,
    // The native owner.
    live: Option<Candidate>,
    resolved: Option<Candidate>,
    activation: Option<Candidate>,
    published: Option<Environment>,
    selection: Selection)

  /** What the site hooks of the candidate leave behind, nested resolutions included. */
  datatype Hook = Hook(path: seq<string>, identity: Identity, variables: Variables, resolved: Option<Candidate>)

  datatype Raise = Error | KeyboardInterrupt

  /**
    Where an attempt is disturbed. `incompatible`: the check before any mutation
    raises. `stop`: something raises after that many mutations. `late`: an
    interrupt arrives while publication defers it. `unprotected`: one arrives
    after that and before the roll back defers it. `later`: while it does.
  */
  datatype Faults = Faults(incompatible: Option<Raise>, stop: Option<nat>, raised: Raise, late: bool,
                           unprotected: bool, later: bool)

  datatype Result = Prepared | Rejected | Failed | Interrupted

  // ----- The mutations -----

  const PATH := "PATH"
  const RESTORED_VARIABLES: seq<string> := ["PATH", "VIRTUAL_ENV", "VIRTUAL_ENV_PROMPT"]

  /** How many single mutations precede the publication. */
  const MUTATIONS: nat := 7

  function Without(parts: seq<string>, dropped: set<string>): seq<string> {
    if parts == [] then []
    else (if parts[0] in dropped then [] else [parts[0]]) + Without(parts[1..], dropped)
  }

  function PathParts(variables: Variables): seq<string> {
    if PATH in variables then variables[PATH] else [""]
  }

  /** The entries of the old environment, unless the new one has the same site packages. */
  function Previous(s: State, c: Environment): set<string> {
    if c.sitePackages != s.active.sitePackages then s.sitePaths else {}
  }

  /** Mutation number `k` of an attempt that started in `s`. */
  function Mutation(t: State, s: State, c: Environment, oldBin: string, hook: Hook, k: nat): State
    requires k < MUTATIONS
  {
    if k == 0 then t.(identity := t.identity.(prefix := Some(c.prefix)))
    else if k == 1 then t.(identity := t.identity.(execPrefix := Some(c.execPrefix)))
    else if k == 2 then t.(identity := t.identity.(executable := Some(c.executable)))
    else if k == 3 then t.(variables := t.variables[PATH := Without(PathParts(t.variables), {oldBin})])
    else if k == 4 then t.(path := Without(t.path, Previous(s, c)))
    else if k == 5 then
      t.(path := hook.path, identity := hook.identity, variables := hook.variables, resolved := hook.resolved)
    else t.(identity := t.identity.(realPrefix := s.identity.prefix))
  }

  function Mutated(s: State, c: Environment, oldBin: string, hook: Hook, n: nat): State
    requires n <= MUTATIONS
  {
    if n == 0 then s else Mutation(Mutated(s, c, oldBin, hook, n - 1), s, c, oldBin, hook, n - 1)
  }

  function Dotted(path: seq<string>): seq<string> {
    seq(|path|, i requires 0 <= i < |path| => if path[i] == "" then "." else path[i])
  }

  /** What the new environment added to the path, and what the old one keeps. */
  function Added(s: State, c: Environment, path: seq<string>): set<string> {
    (s.sitePaths - Previous(s, c)) + (Elements(path) - Elements(Without(s.path, Previous(s, c))))
  }

  // ----- Publication -----

  /** The candidate that `accept` finds for a manifest. */
  function Accepted(s: State, manifest: Manifest): Option<Candidate> {
    var normalized := Normalized(manifest);
    if s.resolved.Some? && s.resolved.value.requirements == normalized then s.resolved
    else if s.live.Some? && s.live.value.requirements == normalized then s.live
    else None
  }

  /** `publish_activation`; the Boolean says that it succeeded. */
  function Publish(s: State, c: Environment, manifest: Manifest): (State, bool) {
    if s.activation.None? then (s, false)
    else
      var pending := s.activation.value;
      var t := s.(activation := None);
      if pending.requirements != manifest then (t, false)
      else
        var u := t.(resolved := Some(pending));
        var accepted := Accepted(u, manifest);
        if accepted.None? then (u, false)
        else (u.(selection := accepted.value.selected, live := accepted, published := Some(c)), true)
  }

  // ----- One attempt -----

  function Restore(t: State, s: State, reset: Variables): State {
    t.(path := s.path, identity := s.identity, variables := RestoredVariables(reset, s.variables, |RESTORED_VARIABLES|))
  }

  /** The first `n` of the three variables get their old value, or disappear. */
  function RestoredVariables(reset: Variables, old_: Variables, n: nat): Variables
    requires n <= |RESTORED_VARIABLES|
  {
    if n == 0 then reset
    else
      var before := RestoredVariables(reset, old_, n - 1);
      var name := RESTORED_VARIABLES[n - 1];
      if name in old_ then before[name := old_[name]] else before - {name}
  }

  datatype Attempt = Attempt(environment: Environment, oldBin: string, hook: Hook, reset: Variables, faults: Faults)

  /** Something raises before the publication begins. */
  predicate Stops(f: Faults) {
    f.stop.Some? && f.stop.value <= MUTATIONS
  }

  /** The environment as the publication records it. */
  function Recorded(c: Environment, path: seq<string>): Environment {
    c.(pythonpath := Dotted(path))
  }

  /** `active` is `c`, with the module path of the moment. */
  ghost predicate IsRecorded(c: Environment, active: Environment) {
    exists path :: active == Recorded(c, path)
  }

  /** The `try` block: the state, whether it committed, and what it raises. */
  function Try(s: State, a: Attempt, manifest: Manifest): (State, bool, Option<Raise>) {
    if Stops(a.faults)
    then (Mutated(s, a.environment, a.oldBin, a.hook, a.faults.stop.value), false, Some(a.faults.raised))
    else
      var t := Mutated(s, a.environment, a.oldBin, a.hook, MUTATIONS);
      var c := Recorded(a.environment, t.path);
      var (u, ok) := Publish(t, c, manifest);
      var v := if ok then u.(active := c, sitePaths := Added(s, a.environment, t.path)) else u;
      (v, ok, if a.faults.late then Some(KeyboardInterrupt) else if ok then None else Some(Error))
  }

  function ResultOf(raised: Option<Raise>): Result {
    match raised
    case None => Prepared
    case Some(Error) => Failed
    case Some(KeyboardInterrupt) => Interrupted
  }

  /** `prepare` in Python. */
  function Prepare(s: State, a: Attempt, manifest: Manifest): (State, Result) {
    if a.faults.incompatible.Some?
    then (s, if a.faults.incompatible.value.Error? then Rejected else Interrupted)
    else
      var (t, committed, raised) := Try(s, a, manifest);
      if a.faults.unprotected then (t, Interrupted)
      else (if committed then t else Restore(t, s, a.reset), if a.faults.later then Interrupted else ResultOf(raised))
  }

  /** `activate` in Rust: the candidate is pending for the duration of `prepare`. */
  function Activate(s: State, candidate: Candidate, a: Attempt): (State, Result) {
    var (t, result) := Prepare(s.(activation := Some(candidate)), a, candidate.requirements);
    (t.(activation := None), result)
  }

  // ----- All or nothing -----

  predicate Canonical(m: Manifest) {
    Normalized(m) == m
  }

  /** The attempt gets through to its publication, and that finds a candidate. */
  predicate Commits(s: State, candidate: Candidate, a: Attempt) {
    && a.faults.incompatible.None? && !Stops(a.faults)
    && (Canonical(candidate.requirements)
        || (s.live.Some? && s.live.value.requirements == Normalized(candidate.requirements)))
  }

  /** Every view describes the candidate. */
  predicate Describes(t: State, candidate: Candidate, c: Environment) {
    && t.active == c && t.published == Some(c)
    && t.live == Some(candidate) && t.resolved == Some(candidate)
    && t.selection == candidate.selected
  }

  /** The variables that an attempt snapshots have the same values, absent ones included. */
  predicate SameVariables(after: Variables, before: Variables) {
    forall name :: name in ["PATH", "VIRTUAL_ENV", "VIRTUAL_ENV_PROMPT"] ==>
      (name in after <==> name in before) && (name in before ==> after[name] == before[name])
  }

  /** Every view and everything that was snapshotted is as it was. */
  predicate Unchanged(t: State, s: State) {
    && t.path == s.path && t.identity == s.identity && SameVariables(t.variables, s.variables)
    && t.active == s.active && t.sitePaths == s.sitePaths
    && t.live == s.live && t.published == s.published && t.selection == s.selection
  }

  lemma {:induction false} MutationsTouchOnly(s: State, c: Environment, oldBin: string, hook: Hook, n: nat)
    requires n <= MUTATIONS
    ensures var t := Mutated(s, c, oldBin, hook, n);
      && t.active == s.active && t.sitePaths == s.sitePaths && t.live == s.live
      && t.activation == s.activation && t.published == s.published && t.selection == s.selection
  {
    if n > 0 {
      MutationsTouchOnly(s, c, oldBin, hook, n - 1);
    }
  }

  lemma {:induction false} RestoringRestores(reset: Variables, old_: Variables, n: nat)
    requires n <= |RESTORED_VARIABLES|
    ensures forall i :: 0 <= i < n ==>
      var name := RESTORED_VARIABLES[i];
      var restored := RestoredVariables(reset, old_, n);
      (name in restored <==> name in old_) && (name in old_ ==> restored[name] == old_[name])
  {
    if n > 0 {
      RestoringRestores(reset, old_, n - 1);
    }
  }

  lemma RestoreUndoes(t: State, s: State, reset: Variables)
    requires t.active == s.active && t.sitePaths == s.sitePaths && t.live == s.live
    requires t.published == s.published && t.selection == s.selection
    ensures Unchanged(Restore(t, s, reset), s)
  {
    RestoringRestores(reset, s.variables, |RESTORED_VARIABLES|);
    forall name | name in RESTORED_VARIABLES
      ensures (name in Restore(t, s, reset).variables <==> name in s.variables)
        && (name in s.variables ==> Restore(t, s, reset).variables[name] == s.variables[name])
    {
      var i :| 0 <= i < |RESTORED_VARIABLES| && RESTORED_VARIABLES[i] == name;
    }
  }

  /** The `try` block commits exactly as predicted; otherwise only the snapshotted state differs. */
  lemma TryCommits(s: State, candidate: Candidate, a: Attempt)
    requires s.activation == Some(candidate) && a.faults.incompatible.None?
    ensures var (t, committed, raised) := Try(s, a, candidate.requirements);
      && (committed <==> Commits(s, candidate, a))
      && (raised.None? <==> committed && !a.faults.late)
      && (!committed ==>
            t.active == s.active && t.sitePaths == s.sitePaths && t.live == s.live
            && t.published == s.published && t.selection == s.selection)
  {
    if Stops(a.faults) {
      MutationsTouchOnly(s, a.environment, a.oldBin, a.hook, a.faults.stop.value);
    } else {
      MutationsTouchOnly(s, a.environment, a.oldBin, a.hook, MUTATIONS);
    }
  }

  /**
    All or nothing, whatever fails or interrupts and wherever: a committed
    attempt leaves the environment published, and every other attempt leaves
    everything as it was, unless an interrupt slips in before the roll back.
    Nothing stays pending.
  */
  lemma AllOrNothing(s: State, candidate: Candidate, a: Attempt)
    ensures var (t, result) := Activate(s, candidate, a);
      && t.activation.None?
      && (Commits(s, candidate, a) ==> t.published == Some(t.active) && IsRecorded(a.environment, t.active))
      && (!Commits(s, candidate, a) && !a.faults.unprotected ==> Unchanged(t, s))
      && (!Commits(s, candidate, a) ==>
            t.active == s.active && t.live == s.live && t.published == s.published && t.selection == s.selection)
  {
    var pending := s.(activation := Some(candidate));
    if a.faults.incompatible.None? {
      TryCommits(pending, candidate, a);
      var (t, committed, raised) := Try(pending, a, candidate.requirements);
      if committed {
        var path := Mutated(pending, a.environment, a.oldBin, a.hook, MUTATIONS).path;
        assert t.active == Recorded(a.environment, path);
      } else {
        RestoreUndoes(t, pending, a.reset);
      }
    }
  }

  /**
    What is reported. An attempt is rejected when it is incompatible, interrupted when
    an interrupt arrives anywhere, even after a commit, failed when something else
    raises or the publication finds no candidate, and prepared otherwise.
  */
  lemma ReportedExactlyWhen(s: State, candidate: Candidate, a: Attempt)
    ensures var (t, result) := Activate(s, candidate, a); var f := a.faults;
      var stopped := f.stop.Some? && f.stop.value <= 7;
      var wanted := Normalized(candidate.requirements);
      var accepted := candidate.requirements == wanted || (s.live.Some? && s.live.value.requirements == wanted);
      && (result.Rejected? <==> f.incompatible == Some(Error))
      && (result.Interrupted? <==>
            || f.incompatible == Some(KeyboardInterrupt)
            || (f.incompatible.None?
                && (f.unprotected || f.later || if stopped then f.raised.KeyboardInterrupt? else f.late)))
      && (result.Failed? <==>
            && f.incompatible.None? && !f.unprotected && !f.later
            && if stopped then f.raised.Error? else !f.late && !accepted)
      && (result.Prepared? <==>
            f.incompatible.None? && !stopped && accepted && !f.late && !f.unprotected && !f.later)
      && (f.incompatible.Some? ==> t == s.(activation := None))
  {
    if a.faults.incompatible.None? {
      TryCommits(s.(activation := Some(candidate)), candidate, a);
    }
  }

  /**
    A commit describes the pending candidate, even if a hook replaced `resolved`,
    exactly when its manifest is canonical. Otherwise the live candidate that has
    the canonical manifest is published in its place.
  */
  lemma CommitDescribesExactlyCanonical(s: State, candidate: Candidate, a: Attempt)
    requires Commits(s, candidate, a)
    ensures var t := Activate(s, candidate, a).0;
      && (Describes(t, candidate, t.active) <==> Canonical(candidate.requirements))
      && (!Canonical(candidate.requirements) ==> t.live == s.live)
  {
    var pending := s.(activation := Some(candidate));
    MutationsTouchOnly(pending, a.environment, a.oldBin, a.hook, MUTATIONS);
    NormalizedIdempotent(candidate.requirements);
  }

  /** A candidate that asks for one package twice: refused, or replaced by the live one that asks for it once. */
  lemma RepeatedPackageIsNotDescribed(s: State, candidate: Candidate, a: Attempt)
    requires candidate.requirements.packages == ["pandas", "pandas"]
    requires a.faults == Faults(None, None, Error, false, false, false)
    ensures var (t, result) := Activate(s, candidate, a);
      if s.live.Some? && s.live.value.requirements == Normalized(candidate.requirements)
      then result.Prepared? && t.live == s.live && !Describes(t, candidate, t.active)
      else result.Failed? && Unchanged(t, s)
  {
    NormalizedOrder(candidate.requirements);
    assert !Canonical(candidate.requirements) by {
      assert candidate.requirements.packages[0] == candidate.requirements.packages[1];
    }
    AllOrNothing(s, candidate, a);
    TryCommits(s.(activation := Some(candidate)), candidate, a);
    if Commits(s, candidate, a) {
      CommitDescribesExactlyCanonical(s, candidate, a);
    }
  }

  lemma {:induction false} WithoutIs(parts: seq<string>, dropped: set<string>)
    ensures forall x :: x in Without(parts, dropped) <==> x in parts && x !in dropped
  {
    if parts != [] {
      WithoutIs(parts[1..], dropped);
      assert parts == [parts[0]] + parts[1..];
    }
  }

  /**
    The site hooks observe the candidate: its identity is set, its executables
    are found without those of the old environment, and the entries of the old
    environment are gone from the path, unless both share their site packages.
  */
  lemma HooksObserveCandidate(s: State, c: Environment, oldBin: string, hook: Hook)
    ensures var t := Mutated(s, c, oldBin, hook, 5);
      && t.identity == Identity(Some(c.prefix), Some(c.execPrefix), Some(c.executable), s.identity.realPrefix)
      && PATH in t.variables
      && (forall bin :: bin in t.variables[PATH] <==> bin in PathParts(s.variables) && bin != oldBin)
      && (forall name :: name != PATH ==> (name in t.variables <==> name in s.variables))
      && (forall entry :: entry in t.path <==>
            entry in s.path && (c.sitePackages == s.active.sitePackages || entry !in s.sitePaths))
  {
    assert Mutated(s, c, oldBin, hook, 0) == s;
    var t1 := Mutated(s, c, oldBin, hook, 1);
    var t2 := Mutated(s, c, oldBin, hook, 2);
    var t3 := Mutated(s, c, oldBin, hook, 3);
    var t4 := Mutated(s, c, oldBin, hook, 4);
    assert t1 == Mutation(s, s, c, oldBin, hook, 0) && t2 == Mutation(t1, s, c, oldBin, hook, 1);
    assert t3 == Mutation(t2, s, c, oldBin, hook, 2) && t4 == Mutation(t3, s, c, oldBin, hook, 3);
    WithoutIs(PathParts(s.variables), {oldBin});
    WithoutIs(s.path, Previous(s, c));
  }

  /**
    A commit keeps what the hooks left, remembers where the old interpreter was,
    and tracks as its own exactly the path entries that the old environment
    keeps or that the hooks added.
  */
  lemma CommitTracksAdditions(s: State, candidate: Candidate, a: Attempt)
    requires Commits(s, candidate, a)
    ensures var t := Activate(s, candidate, a).0;
      && t.path == a.hook.path && t.variables == a.hook.variables
      && t.identity == a.hook.identity.(realPrefix := s.identity.prefix)
      && t.active == Recorded(a.environment, a.hook.path)
      && (forall entry :: entry in t.sitePaths <==>
            (if entry in s.sitePaths then a.environment.sitePackages == s.active.sitePackages
                || entry in a.hook.path
             else entry in a.hook.path && entry !in s.path))
  {
    var pending := s.(activation := Some(candidate));
    var t5 := Mutated(pending, a.environment, a.oldBin, a.hook, 5);
    var t6 := Mutated(pending, a.environment, a.oldBin, a.hook, 6);
    var t7 := Mutated(pending, a.environment, a.oldBin, a.hook, 7);
    assert t6 == Mutation(t5, pending, a.environment, a.oldBin, a.hook, 5);
    assert t7 == Mutation(t6, pending, a.environment, a.oldBin, a.hook, 6);
    MutationsTouchOnly(pending, a.environment, a.oldBin, a.hook, MUTATIONS);
    WithoutIs(s.path, Previous(s, a.environment));
    TryCommits(pending, candidate, a);
  }

  /** An interrupt during the publication is reported although the candidate is committed. */
  lemma InterruptedAfterCommit(s: State, candidate: Candidate, a: Attempt)
    requires Canonical(candidate.requirements) && a.faults == Faults(None, None, Error, true, false, false)
    ensures var (t, result) := Activate(s, candidate, a);
      result.Interrupted? && Describes(t, candidate, t.active)
  {
    CommitDescribesExactlyCanonical(s, candidate, a);
  }

  // ----- An interrupt before the roll back -----

  /** How many mutations an attempt makes. */
  function Reach(f: Faults): nat
    ensures Reach(f) <= MUTATIONS
  {
    if Stops(f) then f.stop.value else MUTATIONS
  }

  /** The first `n` mutations write what is there already; from the hooks on, what they leave behind decides. */
  predicate Harmless(s: State, a: Attempt, n: nat) {
    var c := a.environment;
    if n <= 5 then
      && (n >= 1 ==> s.identity.prefix == Some(c.prefix))
      && (n >= 2 ==> s.identity.execPrefix == Some(c.execPrefix))
      && (n >= 3 ==> s.identity.executable == Some(c.executable))
      && (n >= 4 ==> PATH in s.variables && a.oldBin !in s.variables[PATH])
      && (n >= 5 ==> forall entry :: entry in s.path ==> entry !in Previous(s, c))
    else
      && a.hook.path == s.path && SameVariables(a.hook.variables, s.variables)
      && s.identity == if n == 6 then a.hook.identity else a.hook.identity.(realPrefix := s.identity.prefix)
  }

  lemma {:induction false} WithoutNone(parts: seq<string>, dropped: set<string>)
    ensures |Without(parts, dropped)| <= |parts|
    ensures Without(parts, dropped) == parts <==> forall x :: x in parts ==> x !in dropped
  {
    if parts != [] {
      WithoutNone(parts[1..], dropped);
      assert parts == [parts[0]] + parts[1..];
      assert parts[0] !in dropped ==> Without(parts, dropped)[1..] == Without(parts[1..], dropped);
    }
  }

  /** The state after the mutations that come before the hooks. */
  lemma {:induction false} BeforeHooks(s: State, c: Environment, oldBin: string, hook: Hook, n: nat)
    requires n <= 5
    ensures Mutated(s, c, oldBin, hook, n) == s.(
      identity := s.identity.(
        prefix := if n >= 1 then Some(c.prefix) else s.identity.prefix,
        execPrefix := if n >= 2 then Some(c.execPrefix) else s.identity.execPrefix,
        executable := if n >= 3 then Some(c.executable) else s.identity.executable),
      variables :=
        if n >= 4 then s.variables[PATH := Without(PathParts(s.variables), {oldBin})] else s.variables,
      path := if n >= 5 then Without(s.path, Previous(s, c)) else s.path)
  {
    if n > 0 {
      BeforeHooks(s, c, oldBin, hook, n - 1);
    }
  }

  lemma MutationsHarmless(s: State, a: Attempt, n: nat)
    requires n <= MUTATIONS
    ensures Unchanged(Mutated(s, a.environment, a.oldBin, a.hook, n), s) <==> Harmless(s, a, n)
  {
    MutationsTouchOnly(s, a.environment, a.oldBin, a.hook, n);
    if n <= 5 {
      BeforeHooks(s, a.environment, a.oldBin, a.hook, n);
      WithoutNone(PathParts(s.variables), {a.oldBin});
      WithoutNone(s.path, Previous(s, a.environment));
      assert PATH in RESTORED_VARIABLES by { assert RESTORED_VARIABLES[0] == PATH; }
    } else {
      var t5 := Mutated(s, a.environment, a.oldBin, a.hook, 5);
      assert Mutated(s, a.environment, a.oldBin, a.hook, 6) == Mutation(t5, s, a.environment, a.oldBin, a.hook, 5);
    }
  }

  lemma {:induction false} MutatedWhilePending(s: State, pending: Option<Candidate>, a: Attempt, n: nat)
    requires n <= MUTATIONS
    ensures Mutated(s.(activation := pending), a.environment, a.oldBin, a.hook, n)
      == Mutated(s, a.environment, a.oldBin, a.hook, n).(activation := pending)
  {
    if n > 0 {
      MutatedWhilePending(s, pending, a, n - 1);
    }
  }

  /**
    The exact condition for an attempt that does not commit: it leaves everything
    as it was if and only if no interrupt slips in before the roll back, or the
    attempt was refused before its first mutation, or the mutations that it made
    were harmless.
  */
  lemma UnchangedExactlyWhen(s: State, candidate: Candidate, a: Attempt)
    requires !Commits(s, candidate, a)
    ensures Unchanged(Activate(s, candidate, a).0, s)
      <==> !a.faults.unprotected || a.faults.incompatible.Some? || Harmless(s, a, Reach(a.faults))
  {
    AllOrNothing(s, candidate, a);
    if a.faults.unprotected && a.faults.incompatible.None? {
      var n := Reach(a.faults);
      MutationsHarmless(s, a, n);
      MutatedWhilePending(s, Some(candidate), a, n);
      TryCommits(s.(activation := Some(candidate)), candidate, a);
      MutationsTouchOnly(s, a.environment, a.oldBin, a.hook, n);
    }
  }

  /** An interrupt between the failure and the roll back leaves the prefix of another environment behind. */
  lemma InterruptedBeforeRollBack(s: State, candidate: Candidate, a: Attempt)
    requires a.faults == Faults(None, Some(1), Error, false, true, false)
    requires s.identity.prefix != Some(a.environment.prefix)
    ensures var (t, result) := Activate(s, candidate, a);
      result.Interrupted? && !Unchanged(t, s) && t.active == s.active && t.live == s.live
  {
    AllOrNothing(s, candidate, a);
    UnchangedExactlyWhen(s, candidate, a);
  }

  // ----- Runs of package preparations -----

  /** `resolved` is what the resolver and the inspection return, or nothing if one of them fails. */
  datatype Preparation = Preparation(packages: seq<string>, resolved: Option<Selection>, attempt: Attempt)

  function Requested(s: State, p: Preparation): Manifest
    requires s.live.Some?
  {
    Extended(s.live.value.requirements, p.packages)
  }

  /** `prepare_packages` for a live interpreter, and `resolve_import` with one package. */
  function PreparePackages(s: State, p: Preparation): (State, Result)
    requires s.live.Some?
  {
    if p.resolved.None? || p.resolved.value.libpython != s.selection.libpython then (s, Rejected)
    else
      var candidate := Candidate(p.resolved.value, Requested(s, p));
      Activate(s.(resolved := Some(candidate)), candidate, p.attempt)
  }

  /** The preparation resolves, and its attempt commits. */
  predicate Succeeds(s: State, p: Preparation) {
    && p.resolved.Some? && p.resolved.value.libpython == s.selection.libpython
    && p.attempt.faults.incompatible.None? && !Stops(p.attempt.faults)
  }

  /** The interpreter and the native owner describe one environment, and nothing is pending. */
  predicate Agree(s: State) {
    && s.live.Some? && s.activation.None?
    && s.published == Some(s.active)
    && s.selection == s.live.value.selected
    && Canonical(s.live.value.requirements)
  }

  /**
    What a preparation reports: rejected when nothing was resolved or another Python
    library is needed, which changes nothing, or when it is incompatible; otherwise
    what its attempt meets on the way.
  */
  lemma PreparationReports(s: State, p: Preparation)
    requires s.live.Some?
    ensures var (t, result) := PreparePackages(s, p); var f := p.attempt.faults;
      var resolves := p.resolved.Some? && p.resolved.value.libpython == s.selection.libpython;
      var stopped := f.stop.Some? && f.stop.value <= 7;
      && (result.Rejected? <==> !resolves || f.incompatible == Some(Error))
      && (result.Interrupted? <==>
            && resolves
            && (|| f.incompatible == Some(KeyboardInterrupt)
                || (f.incompatible.None?
                    && (f.unprotected || f.later || if stopped then f.raised.KeyboardInterrupt? else f.late))))
      && (result.Failed? <==>
            && resolves && f.incompatible.None? && !f.unprotected && !f.later && stopped && f.raised.Error?)
      && (result.Prepared? <==>
            && resolves && f.incompatible.None? && !stopped && !f.late && !f.unprotected && !f.later)
      && (!resolves ==> t == s)
  {
    if p.resolved.Some? && p.resolved.value.libpython == s.selection.libpython {
      var candidate := Candidate(p.resolved.value, Requested(s, p));
      ExtendedElements(s.live.value.requirements, p.packages);
      ReportedExactlyWhen(s.(resolved := Some(candidate)), candidate, p.attempt);
    }
  }

  lemma PreparationKeepsAgreement(s: State, p: Preparation)
    requires Agree(s)
    ensures var t := PreparePackages(s, p).0;
      && Agree(t)
      && t.selection.libpython == s.selection.libpython
      && t.live == (if Succeeds(s, p) then Some(Candidate(p.resolved.value, Requested(s, p))) else s.live)
      && (Succeeds(s, p) ==> t.active == Recorded(p.attempt.environment, p.attempt.hook.path))
      && (!Succeeds(s, p) ==> t.active == s.active)
  {
    if p.resolved.Some? && p.resolved.value.libpython == s.selection.libpython {
      var candidate := Candidate(p.resolved.value, Requested(s, p));
      var u := s.(resolved := Some(candidate));
      ExtendedElements(s.live.value.requirements, p.packages);
      AllOrNothing(u, candidate, p.attempt);
      if Commits(u, candidate, p.attempt) {
        CommitDescribesExactlyCanonical(u, candidate, p.attempt);
        CommitTracksAdditions(u, candidate, p.attempt);
      }
    }
  }

  function Run(s: State, run: seq<Preparation>): State
    requires s.live.Some? && Agree(s)
    ensures Agree(Run(s, run))
  {
    if run == [] then s
    else
      var before := Run(s, run[..|run| - 1]);
      PreparationKeepsAgreement(before, run[|run| - 1]);
      PreparePackages(before, run[|run| - 1]).0
  }

  /** The package lists of the preparations that committed. */
  function Committed(s: State, run: seq<Preparation>): seq<seq<string>>
    requires Agree(s)
  {
    if run == [] then []
    else
      var last := run[|run| - 1];
      Committed(s, run[..|run| - 1])
        + if Succeeds(Run(s, run[..|run| - 1]), last) then [last.packages] else []
  }

  /**
    Over any run of preparations, whatever fails or is interrupted: both sides
    agree, and the live manifest is the initial one grown by exactly the
    committed package lists.
  */
  lemma {:induction false} LiveIsGrown(s: State, run: seq<Preparation>)
    requires Agree(s)
    ensures Agree(Run(s, run))
    ensures Run(s, run).live.value.requirements == Grown(s.live.value.requirements, Committed(s, run))
  {
    if run != [] {
      var before, last := run[..|run| - 1], run[|run| - 1];
      LiveIsGrown(s, before);
      PreparationKeepsAgreement(Run(s, before), last);
      var groups := Committed(s, before);
      assert (groups + [last.packages])[..|groups|] == groups;
      assert groups + [] == groups;
    }
  }

  /** No package is ever lost from the live manifest. */
  lemma PackagesStay(s: State, run: seq<Preparation>)
    requires Agree(s)
    ensures Elements(Run(s, run).live.value.requirements.packages)
      == Elements(s.live.value.requirements.packages) + All(Committed(s, run))
  {
    LiveIsGrown(s, run);
    GrownElements(s.live.value.requirements, Committed(s, run));
  }
}
