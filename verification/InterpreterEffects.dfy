/**
  What each call of the interpreter lifecycle does, told by the record before it:
  when it succeeds, what it leaves, and which foreign calls it makes.
*/
module InterpreterEffects {
  import opened Options
  import opened InterpreterLifecycle

  /** The library as the call finds it, loading it first if nothing is loaded. */
  function Found(s: State, path: string): Library {
    if s.library.Some? then s.library.value
    else Library(path, if s.live then External else Uninitialized, None, {}, false)
  }

  // ----- Starting and attaching -----

  /** The call starts CPython: nothing runs, nothing was started before, and the selection is usable. */
  predicate Starts(s: State, a: Starting) {
    var found := Found(s, a.path);
    !s.live && found.path == a.path && found.interpreter.Uninitialized? && a.configures
  }

  /**
    Initialization succeeds exactly when the running interpreter takes or has this
    selection, or when CPython starts. It starts CPython exactly once when nothing
    runs and nothing was started before, and a start that does not get through
    leaves the library initializing for good.
  */
  lemma InitializeDecides(s: State, a: Starting)
    ensures var (t, outcome) := Initialize(s, a); var found := Found(s, a.path);
      && (outcome.Done? <==>
            && found.path == a.path && !found.interpreter.Initializing?
            && if s.live then (if found.configuration.Some? then found.configuration.value == a.selected else a.configures)
               else found.interpreter.Uninitialized? && a.configures && a.completes && a.accepts)
      && !outcome.Paused?
      && t.events == (if Starts(s, a) then s.events + [InitializeEx] else s.events)
      && t.live == (s.live || (Starts(s, a) && a.completes))
      && t.pendingRSql == s.pendingRSql && t.detached == s.detached
  {
    var loaded := EnsureLoaded(s, a.path);
    var found := Found(s, a.path);
    assert loaded == s.(library := Some(found));
    if Starts(s, a) {
      assert Initialize(s, a) == Start(loaded, found, a);
    } else if s.live && found.path == a.path && !found.interpreter.Initializing? {
      assert Initialize(s, a) == Attach(loaded, found, a);
    } else {
      assert Initialize(s, a) == (loaded, Failed);
    }
  }

  /** The record that it leaves: who owns the interpreter, and its configuration. */
  lemma InitializeLeaves(s: State, a: Starting)
    ensures var t := Initialize(s, a).0; var found := Found(s, a.path);
      && t.library.Some?
      && t.library.value == found.(
           interpreter :=
             if found.path != a.path then found.interpreter
             else if Starts(s, a) then (if a.completes && a.accepts then RustOwned(false) else Initializing)
             else if s.live && found.interpreter.Uninitialized? then External
             else found.interpreter,
           configuration :=
             if found.path != a.path || found.interpreter.Initializing? then found.configuration
             else if Starts(s, a) || (s.live && found.configuration.None? && a.configures) then Some(a.selected)
             else found.configuration)
  {
  }

  lemma LoadDecides(s: State, path: string)
    ensures var (t, outcome) := Load(s, path); var found := Found(s, path);
      && outcome == (if found.path == path && s.live then Done else Failed)
      && t == s.(library := Some(found.(interpreter :=
                   if outcome.Done? && found.interpreter.Uninitialized? then External else found.interpreter)))
  {
  }

  /** The main thread state is saved once, while our interpreter runs, and restored once. */
  lemma FinishDecides(s: State)
    ensures var (t, outcome) := FinishInitialization(s);
      && (outcome.Done? <==>
            && s.library.Some?
            && (|| s.library.value.interpreter.External? || s.library.value.interpreter == RustOwned(true)
                || (s.library.value.interpreter == RustOwned(false) && s.live)))
      && !outcome.Paused?
      && t == (if s.library.Some? && s.library.value.interpreter == RustOwned(false) && s.live
               then s.(library := Some(s.library.value.(interpreter := RustOwned(true))), detached := true,
                       events := s.events + [SaveThread])
               else s)
    ensures PrepareProcessExit(s)
      == if s.library.Some? && s.library.value.interpreter == RustOwned(true) && s.live
         then s.(library := Some(s.library.value.(interpreter := RustOwned(false))), detached := false,
                 events := s.events + [RestoreThread])
         else s
  {
  }

  // ----- Setup steps -----

  /** What a step that is not flagged yet leaves: it was attempted, and flagged if it is done. */
  function AfterStep(s: State, step: Setup, done: bool): State
    requires s.library.Some?
  {
    if done then s.(library := Some(s.library.value.(flags := s.library.value.flags + {step})),
                    events := s.events + [Attempted(step)] + [Flagged(step)])
    else s.(events := s.events + [Attempted(step)])
  }

  lemma StepDecides(s: State, step: Setup, answer: Outcome)
    requires s.library.Some?
    ensures step in s.library.value.flags ==> RunStep(s, step, answer) == (s, Done)
    ensures step !in s.library.value.flags ==>
      RunStep(s, step, answer)
      == (AfterStep(s, step, s.live && answer.Done?), if s.live then answer else Failed)
  {
  }

  /** The hooks of an external interpreter count as run, without running. */
  lemma SiteDecides(s: State, answer: Outcome)
    requires s.library.Some?
    ensures Site in s.library.value.flags ==> InitializeSite(s, answer) == (s, Done)
    ensures Site !in s.library.value.flags && s.library.value.interpreter.External? ==>
      InitializeSite(s, answer)
      == (s.(library := Some(s.library.value.(flags := s.library.value.flags + {Site})),
             events := s.events + [Flagged(Site)]), Done)
    ensures Site !in s.library.value.flags && !s.library.value.interpreter.External? ==>
      InitializeSite(s, answer)
      == (AfterStep(s, Site, s.live && answer.Done?), if s.live then answer else Failed)
  {
  }

  /** SQL is flagged after a pending choice was replayed, and not if the replay stops. */
  lemma SqlDecides(s: State, answer: Outcome, replay: Outcome)
    requires s.library.Some? && Sql !in s.library.value.flags
    ensures !s.live ==> InstallSql(s, answer, replay) == (AfterStep(s, Sql, false), Failed)
    ensures s.live && !answer.Done? ==> InstallSql(s, answer, replay) == (AfterStep(s, Sql, false), answer)
    ensures s.live && answer.Done? && !s.pendingRSql ==>
      InstallSql(s, answer, replay) == (AfterStep(s, Sql, true), Done)
    ensures s.live && answer.Done? && s.pendingRSql && !replay.Done? ==>
      InstallSql(s, answer, replay) == (AfterStep(s, Sql, false), replay)
    ensures s.live && answer.Done? && s.pendingRSql && replay.Done? ==>
      var (t, outcome) := InstallSql(s, answer, replay);
      && outcome.Done? && !t.pendingRSql
      && t.library == Some(s.library.value.(flags := s.library.value.flags + {Sql}))
      && t.events == s.events + [Attempted(Sql)] + [Replayed] + [Flagged(Sql)]
  {
  }

  /** Choosing R before SQL is installed is remembered; afterwards it is passed on. */
  lemma ChooseDecides(s: State, answer: Outcome)
    ensures var installed := s.library.Some? && Sql in s.library.value.flags;
      UseRSql(s, answer)
      == if installed then (s, if s.live then answer else Failed)
         else (s.(pendingRSql := true, events := s.events + [ChoseREarly]), Done)
  {
  }

  lemma EnvironmentDecides(s: State, answer: Outcome)
    requires s.library.Some? && EnvironmentSetup !in s.library.value.flags
    ensures s.library.value.configuration.None? ==> ConfigureEnvironment(s, answer) == (s, Failed)
    ensures s.library.value.configuration.Some? ==>
      ConfigureEnvironment(s, answer)
      == (AfterStep(s, EnvironmentSetup, s.live && answer.Done?), if s.live then answer else Failed)
  {
  }

  lemma MarkDecides(s: State)
    requires s.library.Some?
    ensures var flags := s.library.value.flags;
      var ready := Services in flags && Evaluator in flags && Site in flags && Sql in flags && EnvironmentSetup in flags;
      MarkConfigured(s)
      == if ready then (s.(library := Some(s.library.value.(configured := true))), Done) else (s, Failed)
  {
    var flags := s.library.value.flags;
    assert ALL_STEPS <= flags <==>
      Services in flags && Evaluator in flags && Site in flags && Sql in flags && EnvironmentSetup in flags;
  }

  /** Installing the services needs the running interpreter of this path, and is never a pause. */
  lemma ServicesDecide(s: State, path: string, answer: Outcome)
    ensures var (t, outcome) := InstallServices(s, path, answer); var found := Found(s, path);
      && (outcome.Done? <==> found.path == path && s.live && (Services in found.flags || answer.Done?))
      && !outcome.Paused? && t.library.Some?
      && t.library.value.flags == found.flags + (if outcome.Done? then {Services} else {})
  {
    LoadDecides(s, path);
    var (u, loaded) := Load(s, path);
    if loaded.Done? {
      StepDecides(u, Services, Completed(answer));
      assert Services in u.library.value.flags ==> u.library.value.flags + {Services} == u.library.value.flags;
    }
    assert Found(s, path).flags + {} == Found(s, path).flags;
  }

  // ----- The whole setup -----

  /** What the site hooks amount to: done for an external interpreter, or what they answer. */
  function SiteAnswer(library: Library, a: Answers): Outcome {
    if library.interpreter.External? || Site in library.flags then Done else a.site
  }

  function SqlAnswer(library: Library, pending: bool, a: Answers): Outcome {
    if Sql in library.flags then Done
    else if !a.sql.Done? then a.sql
    else if pending then a.replay else Done
  }

  predicate Passed(library: Library, step: Setup, answer: Outcome) {
    step in library.flags || answer.Done?
  }

  /** What the steps after the evaluator amount to. */
  function LaterAnswer(library: Library, pending: bool, a: Answers, rAvailable: bool, managed: bool): Outcome {
    if !SqlAnswer(library, pending, a).Done? then SqlAnswer(library, pending, a)
    else if !rAvailable && !a.nativeSql.Done? then Failed
    else if EnvironmentSetup !in library.flags && !(library.configuration.Some? && a.environment.Done?) then Failed
    else if !a.defaults.Done? then a.defaults
    else if !a.imports.Done? then a.imports
    else if managed then a.managedEnvironment else Done
  }

  /** A step leaves everything but its own flag and the log. */
  predicate Leaves(s: State, t: State, step: Setup, done: bool)
    requires s.library.Some?
  {
    && t.library == Some(s.library.value.(flags := s.library.value.flags + if done then {step} else {}))
    && t.live == s.live
  }

  lemma StepLeaves(s: State, step: Setup, answer: Outcome)
    requires s.library.Some? && s.live
    ensures var (t, outcome) := RunStep(s, step, answer);
      && outcome == (if step in s.library.value.flags then Done else answer)
      && Leaves(s, t, step, outcome.Done?) && t.pendingRSql == s.pendingRSql
  {
    if step in s.library.value.flags {
      assert s.library.value.flags + {step} == s.library.value.flags;
    } else {
      assert s.library.value.flags + {} == s.library.value.flags;
    }
  }

  lemma SiteLeaves(s: State, answer: Outcome)
    requires s.library.Some? && s.live
    ensures var (t, outcome) := InitializeSite(s, answer);
      && outcome == (if s.library.value.interpreter.External? || Site in s.library.value.flags then Done else answer)
      && Leaves(s, t, Site, outcome.Done?) && t.pendingRSql == s.pendingRSql
  {
    if !s.library.value.interpreter.External? || Site in s.library.value.flags {
      StepLeaves(s, Site, answer);
    }
  }

  lemma SqlLeaves(s: State, a: Answers)
    requires s.library.Some? && s.live
    ensures var (t, outcome) := InstallSql(s, a.sql, a.replay);
      && outcome == SqlAnswer(s.library.value, s.pendingRSql, a)
      && Leaves(s, t, Sql, outcome.Done?)
      && (t.pendingRSql <==> s.pendingRSql && (Sql in s.library.value.flags || !a.sql.Done? || !a.replay.Done?))
  {
    if Sql in s.library.value.flags {
      assert s.library.value.flags + {Sql} == s.library.value.flags;
    } else {
      SqlDecides(s, a.sql, a.replay);
      assert s.library.value.flags + {} == s.library.value.flags;
    }
  }

  lemma EnvironmentLeaves(s: State, answer: Outcome)
    requires s.library.Some? && s.live
    ensures var (t, outcome) := ConfigureEnvironment(s, answer); var library := s.library.value;
      && (outcome.Done? <==> EnvironmentSetup in library.flags || (library.configuration.Some? && answer.Done?))
      && Leaves(s, t, EnvironmentSetup, outcome.Done?) && t.pendingRSql == s.pendingRSql
  {
    if EnvironmentSetup in s.library.value.flags || s.library.value.configuration.Some? {
      StepLeaves(s, EnvironmentSetup, answer);
    } else {
      assert s.library.value.flags + {} == s.library.value.flags;
    }
  }

  /** Only services, site hooks and the evaluator that were reached and done are flagged. */
  function InstalledFlags(library: Library, a: Answers): set<Setup> {
    if !Passed(library, Services, a.services) then library.flags
    else
      var services := library.flags + {Services};
      var site := SiteAnswer(library, a);
      if site.Failed? then services
      else
        var hooks := services + if site.Done? then {Site} else {};
        if Passed(library, Evaluator, a.evaluator) then hooks + {Evaluator} else hooks
  }

  lemma InstallReports(s: State, a: Answers)
    requires s.library.Some? && s.live
    ensures var (t, outcome) := InstallRuntime(s, a); var library := s.library.value; var site := SiteAnswer(library, a);
      && outcome == (if !Passed(library, Services, a.services) || site.Failed? || !Passed(library, Evaluator, a.evaluator)
                     then Failed else site)
      && t.library == Some(library.(flags := InstalledFlags(library, a)))
      && t.live && t.pendingRSql == s.pendingRSql
  {
    StepLeaves(s, Services, Completed(a.services));
    var (s1, services) := RunStep(s, Services, Completed(a.services));
    SiteLeaves(s1, a.site);
    var (s2, site) := InitializeSite(s1, a.site);
    StepLeaves(s2, Evaluator, Completed(a.evaluator));
    assert s.library.value.flags + {} == s.library.value.flags;
    assert s2.library.value.flags + {} == s2.library.value.flags;
    assert s1.library.value.flags + {} == s1.library.value.flags;
  }

  lemma ConfigureReports(s: State, a: Answers, rAvailable: bool, managed: bool)
    requires s.library.Some? && s.live && {Services, Evaluator, Site} <= s.library.value.flags
    ensures var (t, outcome) := Configure(s, a, rAvailable, managed); var library := s.library.value;
      && outcome == LaterAnswer(library, s.pendingRSql, a, rAvailable, managed)
      && t.library.Some? && (t.library.value.configured <==> library.configured || outcome.Done?)
      && (Sql in t.library.value.flags <==> SqlAnswer(library, s.pendingRSql, a).Done?)
      && (t.pendingRSql <==> s.pendingRSql && (Sql in library.flags || !a.sql.Done? || !a.replay.Done?))
  {
    SqlLeaves(s, a);
    var (s1, sql) := InstallSql(s, a.sql, a.replay);
    EnvironmentLeaves(s1, a.environment);
    var (s2, environment) := ConfigureEnvironment(s1, a.environment);
    MarkDecides(s2);
  }

  /**
    What one call of setup reports, step by step. The evaluator is installed even
    after the site hooks were interrupted, and only then is the pause reported.
  */
  lemma SetupReports(s: State, path: string, a: Answers, rAvailable: bool, managed: bool)
    ensures var (t, outcome) := SetupRuntime(s, path, a, rAvailable, managed); var library := Found(s, path);
      && t.library.Some?
      && outcome ==
         if library.path != path || !s.live then Failed
         else if library.configured then Done
         else
           var attached := library.(interpreter :=
             if library.interpreter.Uninitialized? then External else library.interpreter);
           if !Passed(library, Services, a.services) then Failed
           else if SiteAnswer(attached, a).Failed? then Failed
           else if !Passed(library, Evaluator, a.evaluator) then Failed
           else if !SiteAnswer(attached, a).Done? then SiteAnswer(attached, a)
           else LaterAnswer(library, s.pendingRSql, a, rAvailable, managed)
  {
    LoadDecides(s, path);
    var (s0, loaded) := Load(s, path);
    if loaded.Done? && !s0.library.value.configured {
      InstallReports(s0, a);
      var (s1, installed) := InstallRuntime(s0, a);
      if installed.Done? {
        ConfigureReports(s1, a, rAvailable, managed);
      }
    }
  }

  // ----- When CPython is started -----

  /** This call is the start. */
  predicate IsStart(s: State, call: Call) {
    call.Initializes? && Starts(s, call.start)
  }

  lemma StepStartsNothing(s: State, step: Setup, answer: Outcome)
    requires s.library.Some?
    ensures InitializeEx in RunStep(s, step, answer).0.events <==> InitializeEx in s.events
    ensures InitializeEx in InitializeSite(s, answer).0.events <==> InitializeEx in s.events
    ensures InitializeEx in ConfigureEnvironment(s, answer).0.events <==> InitializeEx in s.events
    ensures RunStep(s, step, answer).0.library.Some? && InitializeSite(s, answer).0.library.Some?
  {
  }

  lemma SetupStartsNothing(s: State, path: string, a: Answers, rAvailable: bool, managed: bool)
    ensures InitializeEx in SetupRuntime(s, path, a, rAvailable, managed).0.events <==> InitializeEx in s.events
  {
    var s0 := Load(s, path).0;
    StepStartsNothing(s0, Services, Completed(a.services));
    var s1 := RunStep(s0, Services, Completed(a.services)).0;
    StepStartsNothing(s1, Site, a.site);
    var s2 := InitializeSite(s1, a.site).0;
    StepStartsNothing(s2, Evaluator, Completed(a.evaluator));
    var (installed, outcome) := InstallRuntime(s0, a);
    if outcome.Done? {
      ConfigureStartsNothing(installed, a, rAvailable, managed);
    }
  }

  lemma ConfigureStartsNothing(s: State, a: Answers, rAvailable: bool, managed: bool)
    requires s.library.Some?
    ensures InitializeEx in Configure(s, a, rAvailable, managed).0.events <==> InitializeEx in s.events
  {
    var s1 := InstallSql(s, a.sql, a.replay).0;
    StepStartsNothing(s1, EnvironmentSetup, a.environment);
  }

  lemma CallStarts(s: State, call: Call)
    ensures InitializeEx in Apply(s, call).events <==> InitializeEx in s.events || IsStart(s, call)
  {
    match call {
      case Initializes(a) => InitializeDecides(s, a);
      case SetsUp(path, answers, rAvailable, managed) => SetupStartsNothing(s, path, answers, rAvailable, managed);
      case InstallsServices(path, answer) => StepStartsNothing(Load(s, path).0, Services, Completed(answer));
      case _ =>
    }
  }

  /**
    Over any calls CPython is started, and then once, exactly if some call initializes
    an interpreter while none runs and none was started or taken over before.
  */
  lemma StartedExactlyWhen(live: bool, calls: seq<Call>)
    ensures Count(Run(Initial(live), calls).events, InitializeEx) <= 1
    ensures Count(Run(Initial(live), calls).events, InitializeEx) == 1 <==>
      exists i :: 0 <= i < |calls| && IsStart(Run(Initial(live), calls[..i]), calls[i])
  {
    StartedAtMostOnce(live, calls);
    RunStarts(Initial(live), calls);
    assert Count(Run(Initial(live), calls).events, InitializeEx) >= 1 <==>
      InitializeEx in Run(Initial(live), calls).events;
  }

  lemma {:induction false} RunStarts(s: State, calls: seq<Call>)
    ensures InitializeEx in Run(s, calls).events <==>
      InitializeEx in s.events || exists i :: 0 <= i < |calls| && IsStart(Run(s, calls[..i]), calls[i])
    decreases |calls|
  {
    if calls != [] {
      var t, rest := Apply(s, calls[0]), calls[1..];
      CallStarts(s, calls[0]);
      RunStarts(t, rest);
      assert Run(s, calls[..0]) == s;
      forall i | 0 <= i < |rest|
        ensures Run(s, calls[..i + 1]) == Run(t, rest[..i]) && calls[i + 1] == rest[i]
      {
        assert calls[..i + 1][1..] == rest[..i];
      }
      if i :| 0 <= i < |rest| && IsStart(Run(t, rest[..i]), rest[i]) {
        assert IsStart(Run(s, calls[..i + 1]), calls[i + 1]);
      }
      if i :| 0 < i < |calls| && IsStart(Run(s, calls[..i]), calls[i]) {
        var before := i - 1;
        assert calls[..before + 1] == calls[..i];
        assert IsStart(Run(t, rest[..before]), rest[before]);
      }
    }
  }
}
