/** The process-wide library record, updated in place by the setup calls. */
module PythonLibrary {
  import opened Options
  import opened InterpreterLifecycle

  class PythonSlot {
    var library: Option<Library>
    var pendingRSql: bool
    // What CPython itself knows, and the log of the calls into it.
    var live: bool
    ghost var detached: bool
    ghost var events: seq<Event>

    ghost function View(): State
      reads this
    {
      State(library, pendingRSql, live, detached, events)
    }

    constructor (live: bool)
      ensures View() == Initial(live)
    {
      library, pendingRSql, this.live := None, false, live;
      detached, events := false, [];
    }

    method EnsureLibrary(path: string)
      modifies this
      ensures View() == EnsureLoaded(old(View()), path)
    {
      if library.None? {
        library := Some(Library(path, if live then External else Uninitialized, None, {}, false));
      }
    }

    /** `with_library` and `attach`. */
    method AttachLibrary(path: string) returns (outcome: Outcome)
      modifies this
      ensures (View(), outcome) == Load(old(View()), path)
    {
      EnsureLibrary(path);
      if library.value.path != path || !live {
        return Failed;
      }
      if library.value.interpreter.Uninitialized? {
        library := Some(library.value.(interpreter := External));
      }
      return Done;
    }

    method InitializeInterpreter(a: Starting) returns (outcome: Outcome)
      modifies this
      ensures (View(), outcome) == Initialize(old(View()), a)
    {
      EnsureLibrary(a.path);
      if library.value.path != a.path {
        return Failed;
      }
      if library.value.interpreter.Initializing? {
        return Failed;
      }
      if live {
        if library.value.interpreter.Uninitialized? {
          library := Some(library.value.(interpreter := External));
        }
        if library.value.configuration.None? {
          if !a.configures {
            return Failed;
          }
          library := Some(library.value.(configuration := Some(a.selected)));
          return Done;
        }
        return if library.value.configuration.value == a.selected then Done else Failed;
      }
      match library.value.interpreter {
        case Uninitialized =>
        case _ => return Failed;
      }
      if !a.configures {
        return Failed;
      }
      library := Some(library.value.(configuration := Some(a.selected), interpreter := Initializing));
      events := events + [InitializeEx];
      live := a.completes;
      if !a.completes || !a.accepts {
        return Failed;
      }
      library := Some(library.value.(interpreter := RustOwned(false)));
      return Done;
    }

    method Finish() returns (outcome: Outcome)
      modifies this
      ensures (View(), outcome) == FinishInitialization(old(View()))
    {
      if library.None? {
        return Failed;
      }
      match library.value.interpreter {
        case Uninitialized => return Failed;
        case Initializing => return Failed;
        case External => return Done;
        case RustOwned(saved) =>
          if saved {
            return Done;
          }
      }
      if !live {
        return Failed;
      }
      events, detached := events + [SaveThread], true;
      library := Some(library.value.(interpreter := RustOwned(true)));
      return Done;
    }

    method PrepareExit()
      modifies this
      ensures View() == PrepareProcessExit(old(View()))
    {
      if library.None? || library.value.interpreter != RustOwned(true) || !live {
        return;
      }
      library := Some(library.value.(interpreter := RustOwned(false)));
      events, detached := events + [RestoreThread], false;
    }

    method SetFlag(step: Setup)
      requires library.Some?
      modifies this
      ensures View() == Flag(old(View()), step)
    {
      library := Some(library.value.(flags := library.value.flags + {step}));
      events := events + [Flagged(step)];
    }

    /** `install_services`, `install_runtime`, and the Python call of the other steps. */
    method RunSetup(step: Setup, answer: Outcome) returns (outcome: Outcome)
      requires library.Some?
      modifies this
      ensures (View(), outcome) == RunStep(old(View()), step, answer)
    {
      if step in library.value.flags {
        return Done;
      }
      events := events + [Attempted(step)];
      outcome := if live then answer else Failed;
      if outcome.Done? {
        SetFlag(step);
      }
    }

    method RunSite(answer: Outcome) returns (outcome: Outcome)
      requires library.Some?
      modifies this
      ensures (View(), outcome) == InitializeSite(old(View()), answer)
    {
      if library.value.interpreter.External? && Site !in library.value.flags {
        SetFlag(Site);
      }
      outcome := RunSetup(Site, answer);
    }

    method RunSql(answer: Outcome, replay: Outcome) returns (outcome: Outcome)
      requires library.Some?
      modifies this
      ensures (View(), outcome) == InstallSql(old(View()), answer, replay)
    {
      if Sql in library.value.flags {
        return Done;
      }
      events := events + [Attempted(Sql)];
      outcome := if live then answer else Failed;
      if !outcome.Done? {
        return;
      }
      if pendingRSql {
        if !replay.Done? {
          return replay;
        }
        pendingRSql := false;
        events := events + [Replayed];
      }
      SetFlag(Sql);
    }

    method RunEnvironment(answer: Outcome) returns (outcome: Outcome)
      requires library.Some?
      modifies this
      ensures (View(), outcome) == ConfigureEnvironment(old(View()), answer)
    {
      if EnvironmentSetup in library.value.flags {
        return Done;
      }
      if library.value.configuration.None? {
        return Failed;
      }
      outcome := RunSetup(EnvironmentSetup, answer);
    }

    method ChooseR(answer: Outcome) returns (outcome: Outcome)
      modifies this
      ensures (View(), outcome) == UseRSql(old(View()), answer)
    {
      if library.Some? && Sql in library.value.flags {
        return if live then answer else Failed;
      }
      pendingRSql := true;
      events := events + [ChoseREarly];
      return Done;
    }

    method RunInstall(a: Answers) returns (outcome: Outcome)
      requires library.Some?
      modifies this
      ensures (View(), outcome) == InstallRuntime(old(View()), a)
      ensures library.Some?
    {
      outcome := RunSetup(Services, Completed(a.services));
      if !outcome.Done? {
        return Failed;
      }
      var site := RunSite(a.site);
      if site.Failed? {
        return Failed;
      }
      outcome := RunSetup(Evaluator, Completed(a.evaluator));
      return if outcome.Done? then site else Failed;
    }

    method RunConfigure(a: Answers, rAvailable: bool, managed: bool) returns (outcome: Outcome)
      requires library.Some?
      modifies this
      ensures (View(), outcome) == Configure(old(View()), a, rAvailable, managed)
    {
      outcome := RunSql(a.sql, a.replay);
      if !outcome.Done? {
        return;
      }
      if !rAvailable && (!live || !a.nativeSql.Done?) {
        return Failed;
      }
      outcome := RunEnvironment(a.environment);
      if !outcome.Done? {
        return Failed;
      }
      outcome := if live then a.defaults else Failed;
      if !outcome.Done? {
        return;
      }
      outcome := if live then a.imports else Failed;
      if !outcome.Done? {
        return;
      }
      if managed {
        outcome := if live then a.managedEnvironment else Failed;
        if !outcome.Done? {
          return;
        }
      }
      outcome := Mark();
    }

    method Mark() returns (outcome: Outcome)
      requires library.Some?
      modifies this
      ensures (View(), outcome) == MarkConfigured(old(View()))
    {
      var flags := library.value.flags;
      if Services !in flags || Evaluator !in flags || Site !in flags || Sql !in flags || EnvironmentSetup !in flags {
        return Failed;
      }
      library := Some(library.value.(configured := true));
      return Done;
    }

    method Setup(path: string, a: Answers, rAvailable: bool, managed: bool) returns (outcome: Outcome)
      modifies this
      ensures (View(), outcome) == SetupRuntime(old(View()), path, a, rAvailable, managed)
    {
      outcome := AttachLibrary(path);
      if !outcome.Done? || library.value.configured {
        return;
      }
      outcome := RunInstall(a);
      if outcome.Done? {
        outcome := RunConfigure(a, rAvailable, managed);
      }
    }
  }
}
