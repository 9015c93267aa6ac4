/**
  The activation as the sources run it: fields updated in place, early exits at
  every mutation, and the roll back in a `finally` block.
*/
module PythonEnvironment {
  import opened Options
  import opened Manifests
  import opened Activation

  class Interpreter {
    var path: seq<string>
    var identity: Identity
    var variables: Variables
    var active: Environment
    var sitePaths: set<string>
    var live: Option<Candidate>
    var resolved: Option<Candidate>
    var activation: Option<Candidate>
    var published: Option<Environment>
    var selection: Selection

    ghost function View(): State
      reads this
    {
      State(path, identity, variables, active, sitePaths, live, resolved, activation, published, selection)
    }

    constructor (path: seq<string>, identity: Identity, variables: Variables, active: Environment,
        sitePaths: set<string>, live: Candidate)
      ensures View() == State(path, identity, variables, active, sitePaths, Some(live), None, None, Some(active),
        live.selected)
    {
      this.path, this.identity, this.variables := path, identity, variables;
      this.active, this.sitePaths, this.published := active, sitePaths, Some(active);
      this.live, this.resolved, this.activation := Some(live), None, None;
      this.selection := live.selected;
    }

    /** The entries of a list that are not dropped. */
    method Keep(parts: seq<string>, dropped: set<string>) returns (kept: seq<string>)
      ensures kept == Without(parts, dropped)
    {
      kept := [];
      for i := 0 to |parts|
        invariant kept + Without(parts[i..], dropped) == Without(parts, dropped)
      {
        assert parts[i..] == [parts[i]] + parts[i + 1..];
        if parts[i] !in dropped {
          kept := kept + [parts[i]];
        }
      }
    }

    /** The mutations of the `try` block, up to `stop` of them. */
    method Mutate(c: Environment, oldBin: string, hook: Hook, stop: nat)
      modifies this
      ensures View() == Mutated(old(View()), c, oldBin, hook, if stop <= MUTATIONS then stop else MUTATIONS)
    {
      ghost var s := View();
      if stop == 0 {
        return;
      }
      var prefix := identity.prefix;
      identity := identity.(prefix := Some(c.prefix));
      assert View() == Mutation(Mutated(s, c, oldBin, hook, 0), s, c, oldBin, hook, 0);
      if stop == 1 {
        return;
      }
      identity := identity.(execPrefix := Some(c.execPrefix));
      assert View() == Mutated(s, c, oldBin, hook, 2);
      if stop == 2 {
        return;
      }
      identity := identity.(executable := Some(c.executable));
      assert View() == Mutated(s, c, oldBin, hook, 3);
      if stop == 3 {
        return;
      }
      MutateRest(c, oldBin, hook, stop, prefix, s);
    }

    method MutateRest(c: Environment, oldBin: string, hook: Hook, stop: nat, prefix: Option<string>, ghost s: State)
      requires stop > 3 && View() == Mutated(s, c, oldBin, hook, 3) && prefix == s.identity.prefix
      requires active == s.active && sitePaths == s.sitePaths
      modifies this
      ensures View() == Mutated(s, c, oldBin, hook, if stop <= MUTATIONS then stop else MUTATIONS)
    {
      var bins := if PATH in variables then variables[PATH] else [""];
      bins := Keep(bins, {oldBin});
      variables := variables[PATH := bins];
      assert View() == Mutated(s, c, oldBin, hook, 4);
      if stop == 4 {
        return;
      }
      var previous := if c.sitePackages != active.sitePackages then sitePaths else {};
      path := Keep(path, previous);
      assert View() == Mutated(s, c, oldBin, hook, 5);
      if stop == 5 {
        return;
      }
      path, identity, variables, resolved := hook.path, hook.identity, hook.variables, hook.resolved;
      assert View() == Mutated(s, c, oldBin, hook, 6);
      if stop == 6 {
        return;
      }
      identity := identity.(realPrefix := prefix);
    }

    /** `accept`: the resolved candidate if it has the manifest, else the live one. */
    method Accept(manifest: Manifest) returns (accepted: bool)
      modifies this`live, this`selection
      ensures accepted == Accepted(old(View()), manifest).Some?
      ensures accepted ==> live == Accepted(old(View()), manifest) && selection == live.value.selected
      ensures !accepted ==> live == old(live) && selection == old(selection)
    {
      var normalized := Normalize(manifest);
      var candidate: Option<Candidate> := None;
      if resolved.Some? && resolved.value.requirements == normalized {
        candidate := resolved;
      } else if live.Some? && live.value.requirements == normalized {
        candidate := live;
      }
      if candidate.None? {
        return false;
      }
      selection := candidate.value.selected;
      live := candidate;
      return true;
    }

    /** `publish_activation`. */
    method PublishActivation(c: Environment, manifest: Manifest) returns (ok: bool)
      modifies this
      ensures (View(), ok) == Publish(old(View()), c, manifest)
    {
      if activation.None? {
        return false;
      }
      var pending := activation.value;
      activation := None;
      if pending.requirements != manifest {
        return false;
      }
      resolved := Some(pending);
      ok := Accept(manifest);
      if ok {
        published := Some(c);
      }
    }

    /** The roll back of the `finally` block. */
    method RollBack(oldPath: seq<string>, oldIdentity: Identity, oldVariables: Variables, reset: Variables)
      modifies this`path, this`identity, this`variables
      ensures path == oldPath && identity == oldIdentity
      ensures variables == RestoredVariables(reset, oldVariables, |RESTORED_VARIABLES|)
    {
      path := oldPath;
      identity := oldIdentity;
      variables := reset;
      for i := 0 to |RESTORED_VARIABLES|
        invariant path == oldPath && identity == oldIdentity
        invariant variables == RestoredVariables(reset, oldVariables, i)
      {
        var name := RESTORED_VARIABLES[i];
        if name in oldVariables {
          variables := variables[name := oldVariables[name]];
        } else {
          variables := variables - {name};
        }
      }
    }

    /** The `try` block of `_activate`. */
    method TryActivate(a: Attempt, manifest: Manifest) returns (committed: bool, raised: Option<Raise>)
      modifies this
      ensures (View(), committed, raised) == Try(old(View()), a, manifest)
    {
      ghost var s := View();
      var before, sites := path, sitePaths;
      var previous := if a.environment.sitePackages != active.sitePackages then sitePaths else {};
      Mutate(a.environment, a.oldBin, a.hook, if a.faults.stop.Some? then a.faults.stop.value else MUTATIONS);
      if a.faults.stop.Some? && a.faults.stop.value <= MUTATIONS {
        return false, Some(a.faults.raised);
      }
      MutationsTouchOnly(s, a.environment, a.oldBin, a.hook, MUTATIONS);
      var retained := Keep(before, previous);
      var added := (sites - previous) + (Elements(path) - Elements(retained));
      var c := a.environment.(pythonpath := Dotted(path));
      committed := PublishActivation(c, manifest);
      if committed {
        active, sitePaths := c, added;
      }
      raised := if a.faults.late then Some(KeyboardInterrupt) else if committed then None else Some(Error);
    }

    method PrepareEnvironment(a: Attempt, manifest: Manifest) returns (result: Result)
      modifies this
      ensures (View(), result) == Prepare(old(View()), a, manifest)
    {
      if a.faults.incompatible.Some? {
        return if a.faults.incompatible.value.Error? then Rejected else Interrupted;
      }
      var oldPath, oldIdentity, oldVariables := path, identity, variables;
      var committed, raised := TryActivate(a, manifest);
      if a.faults.unprotected {
        return Interrupted;
      }
      if !committed {
        RollBack(oldPath, oldIdentity, oldVariables, a.reset);
      }
      result := if a.faults.later then Interrupted else ResultOf(raised);
    }

    method ActivateCandidate(candidate: Candidate, a: Attempt) returns (result: Result)
      requires activation.None?
      modifies this
      ensures (View(), result) == Activate(old(View()), candidate, a)
    {
      activation := Some(candidate);
      result := PrepareEnvironment(a, candidate.requirements);
      activation := None;
    }

    method PreparePackageList(p: Preparation) returns (result: Result)
      requires live.Some? && activation.None?
      modifies this
      ensures (View(), result) == PreparePackages(old(View()), p)
    {
      var requirements := live.value.requirements;
      requirements := Normalize(requirements.(packages := requirements.packages + p.packages));
      if p.resolved.None? {
        return Rejected;
      }
      var candidate := Candidate(p.resolved.value, requirements);
      if candidate.selected.libpython != selection.libpython {
        return Rejected;
      }
      resolved := Some(candidate);
      result := ActivateCandidate(candidate, p.attempt);
    }
  }
}
