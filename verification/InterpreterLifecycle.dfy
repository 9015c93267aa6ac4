/**
  The lifetime of the embedded CPython and its resumable setup:
  `src/python/library.rs` and `src/python/startup.rs`. All calls come from the
  interpreter thread. What a foreign call returns is a parameter, and a log
  records the foreign calls that matter.
*/
module InterpreterLifecycle {
  import opened Options

  // ----- State -----

  datatype Interpreter = Uninitialized | Initializing | External | RustOwned(saved: bool)

  datatype Setup = Services | Evaluator | Site | Sql | EnvironmentSetup

  datatype Library = Library(
    path: string,
    interpreter: Interpreter,
    configuration: Option<string>,
    flags: set<Setup>,
    configured: bool)

  /** `Attempted`: the step runs in Python. `Flagged`: it is recorded as complete. */
  datatype Event =
    | InitializeEx
    | SaveThread
    | RestoreThread
    | Attempted(step: Setup)
    | Flagged(step: Setup)
    | ChoseREarly
    | Replayed

  /** `live`: CPython says that it is initialized. `detached`: its main thread state is saved. */
  datatype State = State(library: Option<Library>, pendingRSql: bool, live: bool, detached: bool, events: seq<Event>)

  /** `Paused`: an exception is retained, and setup resumes at the next call. */
  datatype Outcome = Done | Paused | Failed

  function Initial(live: bool): State {
    State(None, false, live, false, [])
  }

  function Log(s: State, e: Event): State {
    s.(events := s.events + [e])
  }

  function Put(s: State, library: Library): State {
    s.(library := Some(library))
  }

  // ----- Loading, initializing, attaching and detaching -----

  function EnsureLoaded(s: State, path: string): State {
    if s.library.Some? then s
    else Put(s, Library(path, if s.live then External else Uninitialized, None, {}, false))
  }

  function Attached(library: Library): Library {
    library.(interpreter := if library.interpreter.Uninitialized? then External else library.interpreter)
  }

  /** `load`: attach to a running interpreter. */
  function Load(s: State, path: string): (State, Outcome) {
    var t := EnsureLoaded(s, path);
    var library := t.library.value;
    if library.path != path || !t.live then (t, Failed)
    else (Put(t, Attached(library)), Done)
  }

  /** `configures`: the configuration is valid. `completes`, `accepts`: CPython starts, and takes its arguments. */
  datatype Starting = Starting(path: string, selected: string, configures: bool, completes: bool, accepts: bool)

  function Attach(s: State, library: Library, a: Starting): (State, Outcome) {
    var attached := Attached(library);
    if attached.configuration.Some?
    then (Put(s, attached), if attached.configuration.value == a.selected then Done else Failed)
    else if a.configures then (Put(s, attached.(configuration := Some(a.selected))), Done)
    else (Put(s, attached), Failed)
  }

  /** `Py_InitializeEx`, after which the interpreter stays `Initializing` unless everything succeeds. */
  function Start(s: State, library: Library, a: Starting): (State, Outcome) {
    var t := Log(Put(s, library.(interpreter := Initializing, configuration := Some(a.selected))), InitializeEx);
    if !a.completes then (t, Failed)
    else if !a.accepts then (t.(live := true), Failed)
    else
      (Put(t, library.(interpreter := RustOwned(false), configuration := Some(a.selected))).(live := true), Done)
  }

  function Initialize(s: State, a: Starting): (State, Outcome) {
    var t := EnsureLoaded(s, a.path);
    var library := t.library.value;
    if library.path != a.path || library.interpreter.Initializing? then (t, Failed)
    else if t.live then Attach(t, library, a)
    else if !library.interpreter.Uninitialized? || !a.configures then (t, Failed)
    else Start(t, library, a)
  }

  function FinishInitialization(s: State): (State, Outcome) {
    if s.library.None? then (s, Failed)
    else
      match s.library.value.interpreter
      case Uninitialized => (s, Failed)
      case Initializing => (s, Failed)
      case External => (s, Done)
      case RustOwned(saved) =>
        if saved then (s, Done)
        else if !s.live then (s, Failed)
        else (Log(Put(s, s.library.value.(interpreter := RustOwned(true))), SaveThread).(detached := true), Done)
  }

  function PrepareProcessExit(s: State): State {
    if s.library.Some? && s.library.value.interpreter == RustOwned(true) && s.live
    then Log(Put(s, s.library.value.(interpreter := RustOwned(false))), RestoreThread).(detached := false)
    else s
  }

  // ----- Setup steps -----

  /** A foreign call needs a running interpreter. */
  function Called(s: State, outcome: Outcome): Outcome {
    if s.live then outcome else Failed
  }

  function Flag(s: State, step: Setup): State
    requires s.library.Some?
  {
    Log(Put(s, s.library.value.(flags := s.library.value.flags + {step})), Flagged(step))
  }

  /** A step that is skipped once flagged, and flagged once it is done. */
  function RunStep(s: State, step: Setup, outcome: Outcome): (State, Outcome)
    requires s.library.Some?
  {
    if step in s.library.value.flags then (s, Done)
    else
      var t := Log(s, Attempted(step));
      if Called(s, outcome).Done? then (Flag(t, step), Done) else (t, Called(s, outcome))
  }

  /** The site hooks of an interpreter that somebody else started have already run. */
  function InitializeSite(s: State, outcome: Outcome): (State, Outcome)
    requires s.library.Some?
  {
    if s.library.value.interpreter.External? && Site !in s.library.value.flags then (Flag(s, Site), Done)
    else RunStep(s, Site, outcome)
  }

  /** An early choice of R is replayed before the step is flagged. */
  function InstallSql(s: State, outcome: Outcome, replay: Outcome): (State, Outcome)
    requires s.library.Some?
  {
    if Sql in s.library.value.flags then (s, Done)
    else
      var t := Log(s, Attempted(Sql));
      if !Called(s, outcome).Done? then (t, Called(s, outcome))
      else if !t.pendingRSql then (Flag(t, Sql), Done)
      else if !replay.Done? then (t, replay)
      else (Flag(Log(t, Replayed).(pendingRSql := false), Sql), Done)
  }

  function ConfigureEnvironment(s: State, outcome: Outcome): (State, Outcome)
    requires s.library.Some?
  {
    if EnvironmentSetup in s.library.value.flags then (s, Done)
    else if s.library.value.configuration.None? then (s, Failed)
    else RunStep(s, EnvironmentSetup, outcome)
  }

  const ALL_STEPS: set<Setup> := {Services, Evaluator, Site, Sql, EnvironmentSetup}

  function MarkConfigured(s: State): (State, Outcome)
    requires s.library.Some?
  {
    if !(ALL_STEPS <= s.library.value.flags) then (s, Failed)
    else (Put(s, s.library.value.(configured := true)), Done)
  }

  function UseRSql(s: State, outcome: Outcome): (State, Outcome) {
    if s.library.Some? && Sql in s.library.value.flags then (s, Called(s, outcome))
    else (Log(s.(pendingRSql := true), ChoseREarly), Done)
  }

  /** What the foreign calls of one `setup_runtime` return. */
  datatype Answers = Answers(services: Outcome, site: Outcome, evaluator: Outcome, sql: Outcome, replay: Outcome,
                             nativeSql: Outcome, environment: Outcome, defaults: Outcome, imports: Outcome,
                             managedEnvironment: Outcome)

  /** Only a completed step reports success; a failure may not look like a pause. */
  function Completed(outcome: Outcome): Outcome {
    if outcome.Done? then Done else Failed
  }

  /** The steps that leave no flag: native SQL, module defaults, import policy, managed environment. */
  function Unflagged(s: State, a: Answers, managed: bool): Outcome {
    if !Called(s, a.defaults).Done? then Called(s, a.defaults)
    else if !Called(s, a.imports).Done? then Called(s, a.imports)
    else if managed then Called(s, a.managedEnvironment)
    else Done
  }

  /** Services, site hooks, evaluator: the evaluator is installed even if the hooks were interrupted. */
  function InstallRuntime(s: State, a: Answers): (State, Outcome)
    requires s.library.Some?
  {
    var (s1, services) := RunStep(s, Services, Completed(a.services));
    if !services.Done? then (s1, Failed)
    else
      var (s2, site) := InitializeSite(s1, a.site);
      if site.Failed? then (s2, Failed)
      else
        var (s3, evaluator) := RunStep(s2, Evaluator, Completed(a.evaluator));
        if !evaluator.Done? then (s3, Failed) else (s3, site)
  }

  function SetupRuntime(s: State, path: string, a: Answers, rAvailable: bool, managed: bool): (State, Outcome) {
    var (s0, loaded) := Load(s, path);
    if !loaded.Done? then (s0, Failed)
    else if s0.library.value.configured then (s0, Done)
    else
      var (s1, installed) := InstallRuntime(s0, a);
      if !installed.Done? then (s1, installed) else Configure(s1, a, rAvailable, managed)
  }

  /** The second half of `setup_runtime`. */
  function Configure(s: State, a: Answers, rAvailable: bool, managed: bool): (State, Outcome)
    requires s.library.Some?
  {
    var (s1, sql) := InstallSql(s, a.sql, a.replay);
    if !sql.Done? then (s1, sql)
    else if !rAvailable && !Called(s1, a.nativeSql).Done? then (s1, Failed)
    else
      var (s2, environment) := ConfigureEnvironment(s1, a.environment);
      if !environment.Done? then (s2, Failed)
      else
        var rest := Unflagged(s2, a, managed);
        if !rest.Done? then (s2, rest) else MarkConfigured(s2)
  }

  // ----- Calls and runs -----

  /** `Finalizes` and `Starts` are the doing of user code and of R. */
  datatype Call =
    | Loads(path: string)
    | Initializes(start: Starting)
    | SetsUp(path: string, answers: Answers, rAvailable: bool, managed: bool)
    | InstallsServices(path: string, answer: Outcome)
    | Finishes
    | PreparesExit
    | ChoosesR(answer: Outcome)
    | Finalizes
    | Starts

  /** The hook that installs the services may run again; then it only reasserts the interrupt handler. */
  function InstallServices(s: State, path: string, answer: Outcome): (State, Outcome) {
    var (t, loaded) := Load(s, path);
    if !loaded.Done? then (t, Failed) else RunStep(t, Services, Completed(answer))
  }

  function Apply(s: State, call: Call): State {
    match call
    case Loads(path) => Load(s, path).0
    case Initializes(start) => Initialize(s, start).0
    case SetsUp(path, answers, rAvailable, managed) => SetupRuntime(s, path, answers, rAvailable, managed).0
    case InstallsServices(path, answer) => InstallServices(s, path, answer).0
    case Finishes => FinishInitialization(s).0
    case PreparesExit => PrepareProcessExit(s)
    case ChoosesR(answer) => UseRSql(s, answer).0
    case Finalizes => s.(live := false)
    case Starts => s.(live := true)
  }

  function Run(s: State, calls: seq<Call>): State
    decreases |calls|
  {
    if calls == [] then s else Run(Apply(s, calls[0]), calls[1..])
  }

  // ----- What a log says -----

  /**
    `thread`: whether a save is open, if saves and restores take turns, beginning
    with a save. `repeated`: a flagged step ran or was flagged again.
  */
  datatype Summary = Summary(starts: nat, replays: nat, thread: Option<bool>, flagged: set<Setup>, repeated: bool,
                             chose: bool)

  function Next(r: Summary, e: Event): Summary {
    match e
    case InitializeEx => r.(starts := r.starts + 1)
    case Replayed => r.(replays := r.replays + 1)
    case SaveThread => r.(thread := if r.thread == Some(false) then Some(true) else None)
    case RestoreThread => r.(thread := if r.thread == Some(true) then Some(false) else None)
    case Attempted(step) => r.(repeated := r.repeated || step in r.flagged)
    case Flagged(step) => r.(repeated := r.repeated || step in r.flagged, flagged := r.flagged + {step})
    case ChoseREarly => r.(chose := true)
  }

  function Read(events: seq<Event>): Summary {
    if events == [] then Summary(0, 0, Some(false), {}, false, false)
    else Next(Read(events[..|events| - 1]), events[|events| - 1])
  }

  lemma Logged(events: seq<Event>, e: Event)
    ensures Read(events + [e]) == Next(Read(events), e)
  {
    assert (events + [e])[..|events|] == events;
  }

  function Count(events: seq<Event>, e: Event): nat {
    multiset(events)[e]
  }

  /** Once a step is flagged, it neither runs nor is flagged again. */
  predicate NeverRepeats(events: seq<Event>, step: Setup) {
    forall i, j :: 0 <= i < j < |events| && events[i] == Flagged(step) ==>
      events[j] != Attempted(step) && events[j] != Flagged(step)
  }

  lemma {:induction false} ReadMeans(events: seq<Event>)
    ensures var r := Read(events);
      && r.starts == Count(events, InitializeEx) && r.replays == Count(events, Replayed)
      && (r.chose <==> ChoseREarly in events)
      && (forall step :: step in r.flagged <==> Flagged(step) in events)
  {
    if events != [] {
      var before, last := events[..|events| - 1], events[|events| - 1];
      ReadMeans(before);
      assert events == before + [last];
    }
  }

  lemma {:induction false} NotRepeatedMeans(events: seq<Event>, step: Setup)
    requires !Read(events).repeated
    ensures NeverRepeats(events, step)
  {
    if events != [] {
      var before := events[..|events| - 1];
      NotRepeatedMeans(before, step);
      ReadMeans(before);
      assert forall i :: 0 <= i < |before| ==> events[i] == before[i] && events[i] in before;
    }
  }

  /** Detaching and attaching take turns: the threads' events are a save, a restore, a save, and so on. */
  function ThreadEvents(events: seq<Event>): seq<Event> {
    if events == [] then []
    else
      var last := events[|events| - 1];
      ThreadEvents(events[..|events| - 1]) + if last.SaveThread? || last.RestoreThread? then [last] else []
  }

  lemma {:induction false} ThreadsAlternate(events: seq<Event>)
    requires Read(events).thread.Some?
    ensures forall i :: 0 <= i < |ThreadEvents(events)| ==>
      ThreadEvents(events)[i] == if i % 2 == 0 then SaveThread else RestoreThread
    ensures Read(events).thread.value <==> |ThreadEvents(events)| % 2 == 1
  {
    if events != [] {
      ThreadsAlternate(events[..|events| - 1]);
    }
  }

  // ----- The invariant -----

  function Flags(s: State): set<Setup> {
    if s.library.None? then {} else s.library.value.flags
  }

  predicate Started(s: State) {
    s.library.Some? && (s.library.value.interpreter.Initializing? || s.library.value.interpreter.RustOwned?)
  }

  predicate Saved(s: State) {
    s.library.Some? && s.library.value.interpreter == RustOwned(true)
  }

  /**
    CPython was started exactly if the library says so. The thread state is saved
    exactly while detached. The flags are those logged, and none repeated. An
    early choice of R is pending until SQL is installed, and was replayed once then.
  */
  predicate Inv(s: State) {
    var r := Read(s.events);
    && r.starts == (if Started(s) then 1 else 0)
    && r.thread == Some(s.detached) && (s.detached <==> Saved(s))
    && r.flagged == Flags(s) && !r.repeated
    && (s.library.Some? && s.library.value.configured ==> ALL_STEPS <= Flags(s))
    && (s.pendingRSql <==> r.chose && Sql !in Flags(s))
    && r.replays == (if r.chose && Sql in Flags(s) then 1 else 0)
  }

  lemma InitialInv(live: bool)
    ensures Inv(Initial(live))
  {
  }

  // ----- Every call keeps the invariant -----

  /** What neither logs nor flags keeps the invariant. */
  lemma QuietKeeps(s: State, t: State)
    requires Inv(s) && t.events == s.events && t.pendingRSql == s.pendingRSql && t.detached == s.detached
    requires Flags(t) == Flags(s) && (Started(t) <==> Started(s))
    requires Saved(t) <==> Saved(s)
    requires t.library.Some? && t.library.value.configured ==> ALL_STEPS <= Flags(t)
    ensures Inv(t)
  {
  }

  lemma LoadedKeeps(s: State, path: string)
    requires Inv(s)
    ensures Inv(EnsureLoaded(s, path)) && Inv(Load(s, path).0)
  {
    var t := EnsureLoaded(s, path);
    QuietKeeps(s, t);
    QuietKeeps(t, Load(s, path).0);
  }

  lemma StartKeeps(s: State, a: Starting)
    requires Inv(s) && s.library.Some? && s.library.value.interpreter.Uninitialized?
    ensures Inv(Start(s, s.library.value, a).0)
  {
    var library := s.library.value;
    var t := Log(Put(s, library.(interpreter := Initializing, configuration := Some(a.selected))), InitializeEx);
    Logged(s.events, InitializeEx);
    assert Inv(t);
    QuietKeeps(t, Start(s, library, a).0);
  }

  lemma InitializeKeeps(s: State, a: Starting)
    requires Inv(s)
    ensures Inv(Initialize(s, a).0)
  {
    LoadedKeeps(s, a.path);
    var t := EnsureLoaded(s, a.path);
    var library := t.library.value;
    if library.path == a.path && !library.interpreter.Initializing? {
      if t.live {
        QuietKeeps(t, Attach(t, library, a).0);
      } else if library.interpreter.Uninitialized? && a.configures {
        StartKeeps(t, a);
      }
    }
  }

  lemma ThreadKeeps(s: State, t: State, e: Event)
    requires Inv(s) && e == if s.detached then RestoreThread else SaveThread
    requires s.library.Some? && s.library.value.interpreter == RustOwned(s.detached)
    requires t == Log(Put(s, s.library.value.(interpreter := RustOwned(!s.detached))), e).(detached := !s.detached)
    ensures Inv(t)
  {
    Logged(s.events, e);
  }

  lemma FinishKeeps(s: State)
    requires Inv(s)
    ensures Inv(FinishInitialization(s).0) && Inv(PrepareProcessExit(s))
  {
    if FinishInitialization(s).0 != s {
      ThreadKeeps(s, FinishInitialization(s).0, SaveThread);
    }
    if PrepareProcessExit(s) != s {
      ThreadKeeps(s, PrepareProcessExit(s), RestoreThread);
    }
  }

  lemma AttemptKeeps(s: State, step: Setup)
    requires Inv(s) && step !in Flags(s)
    ensures Inv(Log(s, Attempted(step)))
  {
    Logged(s.events, Attempted(step));
  }

  lemma FlagKeeps(s: State, step: Setup)
    requires Inv(s) && s.library.Some? && step !in Flags(s) && (step == Sql ==> !s.pendingRSql)
    ensures Inv(Flag(s, step))
  {
    Logged(s.events, Flagged(step));
  }

  lemma StepKeeps(s: State, step: Setup, outcome: Outcome)
    requires Inv(s) && s.library.Some? && step != Sql
    ensures Inv(RunStep(s, step, outcome).0) && RunStep(s, step, outcome).0.library.Some?
  {
    if step !in Flags(s) {
      AttemptKeeps(s, step);
      FlagKeeps(Log(s, Attempted(step)), step);
    }
  }

  lemma SiteKeeps(s: State, outcome: Outcome)
    requires Inv(s) && s.library.Some?
    ensures Inv(InitializeSite(s, outcome).0) && InitializeSite(s, outcome).0.library.Some?
  {
    if s.library.value.interpreter.External? && Site !in Flags(s) {
      FlagKeeps(s, Site);
    } else {
      StepKeeps(s, Site, outcome);
    }
  }

  /** The replay and the flag belong together. */
  lemma ReplayKeeps(s: State)
    requires Inv(s) && s.library.Some? && s.pendingRSql
    ensures Inv(Flag(Log(s, Replayed).(pendingRSql := false), Sql))
  {
    Logged(s.events, Replayed);
    Logged(s.events + [Replayed], Flagged(Sql));
  }

  lemma SqlKeeps(s: State, outcome: Outcome, replay: Outcome)
    requires Inv(s) && s.library.Some?
    ensures Inv(InstallSql(s, outcome, replay).0) && InstallSql(s, outcome, replay).0.library.Some?
  {
    if Sql !in Flags(s) {
      AttemptKeeps(s, Sql);
      var t := Log(s, Attempted(Sql));
      if t.pendingRSql {
        ReplayKeeps(t);
      } else {
        FlagKeeps(t, Sql);
      }
    }
  }

  lemma ChooseKeeps(s: State, outcome: Outcome)
    requires Inv(s)
    ensures Inv(UseRSql(s, outcome).0)
  {
    Logged(s.events, ChoseREarly);
  }

  lemma ConfigureKeeps(s: State, a: Answers, rAvailable: bool, managed: bool)
    requires Inv(s) && s.library.Some?
    ensures Inv(Configure(s, a, rAvailable, managed).0)
  {
    SqlKeeps(s, a.sql, a.replay);
    var s1 := InstallSql(s, a.sql, a.replay).0;
    StepKeeps(s1, EnvironmentSetup, a.environment);
    var s2 := ConfigureEnvironment(s1, a.environment).0;
    if ALL_STEPS <= Flags(s2) {
      QuietKeeps(s2, MarkConfigured(s2).0);
    }
  }

  lemma InstallKeeps(s: State, a: Answers)
    requires Inv(s) && s.library.Some?
    ensures Inv(InstallRuntime(s, a).0)
  {
    StepKeeps(s, Services, Completed(a.services));
    var s1 := RunStep(s, Services, Completed(a.services)).0;
    SiteKeeps(s1, a.site);
    var s2 := InitializeSite(s1, a.site).0;
    StepKeeps(s2, Evaluator, Completed(a.evaluator));
  }

  lemma SetupKeeps(s: State, path: string, a: Answers, rAvailable: bool, managed: bool)
    requires Inv(s)
    ensures Inv(SetupRuntime(s, path, a, rAvailable, managed).0)
  {
    LoadedKeeps(s, path);
    var s0 := Load(s, path).0;
    InstallKeeps(s0, a);
    var (s1, installed) := InstallRuntime(s0, a);
    if installed.Done? {
      ConfigureKeeps(s1, a, rAvailable, managed);
    }
  }

  lemma CallKeeps(s: State, call: Call)
    requires Inv(s)
    ensures Inv(Apply(s, call))
  {
    match call {
      case Loads(path) => LoadedKeeps(s, path);
      case Initializes(start) => InitializeKeeps(s, start);
      case SetsUp(path, answers, rAvailable, managed) => SetupKeeps(s, path, answers, rAvailable, managed);
      case InstallsServices(path, answer) =>
        LoadedKeeps(s, path);
        StepKeeps(Load(s, path).0, Services, Completed(answer));
      case Finishes => FinishKeeps(s);
      case PreparesExit => FinishKeeps(s);
      case ChoosesR(answer) => ChooseKeeps(s, answer);
      case Finalizes => QuietKeeps(s, Apply(s, call));
      case Starts => QuietKeeps(s, Apply(s, call));
    }
  }

  lemma {:induction false} RunKeeps(s: State, calls: seq<Call>)
    requires Inv(s)
    ensures Inv(Run(s, calls))
    decreases |calls|
  {
    if calls != [] {
      CallKeeps(s, calls[0]);
      RunKeeps(Apply(s, calls[0]), calls[1..]);
    }
  }

  // ----- What every run guarantees -----

  lemma Reached(live: bool, calls: seq<Call>)
    ensures Inv(Run(Initial(live), calls))
  {
    InitialInv(live);
    RunKeeps(Initial(live), calls);
  }

  /** CPython is started at most once, and never when somebody else owns it. */
  lemma StartedAtMostOnce(live: bool, calls: seq<Call>)
    ensures var s := Run(Initial(live), calls);
      && Count(s.events, InitializeEx) <= 1
      && (s.library.Some? && s.library.value.interpreter.External? ==> InitializeEx !in s.events)
  {
    Reached(live, calls);
    ReadMeans(Run(Initial(live), calls).events);
  }

  /** Detaching and attaching the main thread state take turns; it is saved exactly while detached. */
  lemma ThreadStateAlternates(live: bool, calls: seq<Call>)
    ensures var s := Run(Initial(live), calls);
      && (s.detached <==> Saved(s))
      && (s.detached <==> |ThreadEvents(s.events)| % 2 == 1)
      && forall i :: 0 <= i < |ThreadEvents(s.events)| ==>
        ThreadEvents(s.events)[i] == if i % 2 == 0 then SaveThread else RestoreThread
  {
    Reached(live, calls);
    ThreadsAlternate(Run(Initial(live), calls).events);
  }

  /** Resumed setup repeats no flagged step, and a configured runtime has every flag. */
  lemma SetupNeverRepeats(live: bool, calls: seq<Call>, step: Setup)
    ensures var s := Run(Initial(live), calls);
      && NeverRepeats(s.events, step)
      && (Flagged(step) in s.events <==> step in Flags(s))
      && (s.library.Some? && s.library.value.configured ==> step in Flags(s))
  {
    Reached(live, calls);
    ReadMeans(Run(Initial(live), calls).events);
    NotRepeatedMeans(Run(Initial(live), calls).events, step);
    assert step in ALL_STEPS;
  }

  /** An early choice of R for SQL is applied once, when SQL is installed, and not lost before. */
  lemma EarlyChoiceAppliedOnce(live: bool, calls: seq<Call>)
    ensures var s := Run(Initial(live), calls);
      && (ChoseREarly in s.events && Sql in Flags(s) ==> Count(s.events, Replayed) == 1 && !s.pendingRSql)
      && (ChoseREarly in s.events && Sql !in Flags(s) ==> s.pendingRSql && Count(s.events, Replayed) == 0)
      && (ChoseREarly !in s.events ==> Count(s.events, Replayed) == 0 && !s.pendingRSql)
  {
    Reached(live, calls);
    ReadMeans(Run(Initial(live), calls).events);
  }

  /** How ownership, the library and its flags may change: they only settle. */
  predicate Settles(s: State, t: State) {
    s.library.Some? ==>
      && t.library.Some? && t.library.value.path == s.library.value.path
      && s.library.value.flags <= t.library.value.flags
      && (s.library.value.configured ==> t.library.value.configured)
      && (s.library.value.interpreter.External? ==> t.library.value.interpreter.External?)
      && (s.library.value.interpreter.RustOwned? ==> t.library.value.interpreter.RustOwned?)
      && (s.library.value.interpreter.Initializing? ==> t.library.value.interpreter.Initializing?)
      && (s.library.value.configuration.Some? && !s.library.value.interpreter.Uninitialized? ==>
            t.library.value.configuration == s.library.value.configuration)
  }

  /** `t` differs from `s` in the flags of `steps`, in the log, and in what is pending. */
  predicate OnlyFlags(s: State, t: State, steps: set<Setup>) {
    && s.library.Some? && t.library.Some? && t.live == s.live
    && t.library.value == s.library.value.(flags := t.library.value.flags)
    && Flags(s) <= Flags(t) <= Flags(s) + steps
    && (Sql !in steps ==> t.pendingRSql == s.pendingRSql)
  }

  lemma StepOnlyFlags(s: State, step: Setup, outcome: Outcome)
    requires s.library.Some?
    ensures var (t, result) := RunStep(s, step, outcome);
      && OnlyFlags(s, t, {step})
      && (result.Done? <==> step in Flags(s) || (s.live && outcome.Done?))
      && (result.Done? ==> step in Flags(t))
  {
    if step !in Flags(s) {
      var t := Flag(Log(s, Attempted(step)), step);
      assert Flags(t) == Flags(s) + {step};
    }
  }

  lemma SiteOnlyFlags(s: State, outcome: Outcome)
    requires s.library.Some?
    ensures var (t, result) := InitializeSite(s, outcome);
      && OnlyFlags(s, t, {Site})
      && (result.Done? <==>
            s.library.value.interpreter.External? || Site in Flags(s) || (s.live && outcome.Done?))
      && (result.Done? ==> Site in Flags(t))
  {
  }

  lemma SqlOnlyFlags(s: State, outcome: Outcome, replay: Outcome)
    requires s.library.Some?
    ensures var (t, result) := InstallSql(s, outcome, replay);
      && OnlyFlags(s, t, {Sql})
      && (result.Done? <==> Sql in Flags(s) || (s.live && outcome.Done? && (s.pendingRSql ==> replay.Done?)))
      && (result.Done? ==> Sql in Flags(t))
  {
  }

  lemma EnvironmentOnlyFlags(s: State, outcome: Outcome)
    requires s.library.Some?
    ensures var (t, result) := ConfigureEnvironment(s, outcome);
      && OnlyFlags(s, t, {EnvironmentSetup})
      && (result.Done? <==>
            EnvironmentSetup in Flags(s) || (s.library.value.configuration.Some? && s.live && outcome.Done?))
      && (result.Done? ==> EnvironmentSetup in Flags(t))
  {
  }

  lemma ConfigureSettles(s: State, a: Answers, rAvailable: bool, managed: bool)
    requires s.library.Some?
    ensures Settles(s, Configure(s, a, rAvailable, managed).0)
  {
    SqlOnlyFlags(s, a.sql, a.replay);
    EnvironmentOnlyFlags(InstallSql(s, a.sql, a.replay).0, a.environment);
  }

  lemma InstallOnlyFlags(s: State, a: Answers)
    requires s.library.Some?
    ensures var (t, result) := InstallRuntime(s, a);
      && OnlyFlags(s, t, {Services, Evaluator, Site})
      && (result.Done? ==> {Services, Evaluator, Site} <= Flags(t))
      && (s.live ==>
            (result.Done? <==>
              && Passes(s, Services, a.services) && Passes(s, Evaluator, a.evaluator)
              && (s.library.value.interpreter.External? || Passes(s, Site, a.site))))
  {
    StepOnlyFlags(s, Services, Completed(a.services));
    var s1 := RunStep(s, Services, Completed(a.services)).0;
    SiteOnlyFlags(s1, a.site);
    var s2 := InitializeSite(s1, a.site).0;
    StepOnlyFlags(s2, Evaluator, Completed(a.evaluator));
  }

  lemma SetupSettles(s: State, path: string, a: Answers, rAvailable: bool, managed: bool)
    ensures Settles(s, SetupRuntime(s, path, a, rAvailable, managed).0)
  {
    var s0 := Load(s, path).0;
    InstallOnlyFlags(s0, a);
    ConfigureSettles(InstallRuntime(s0, a).0, a, rAvailable, managed);
  }

  lemma CallSettles(s: State, call: Call)
    ensures Settles(s, Apply(s, call))
  {
    if call.SetsUp? {
      SetupSettles(s, call.path, call.answers, call.rAvailable, call.managed);
    }
  }

  /** Ownership never changes once it is external, ours or stuck in initialization; no flag is cleared. */
  lemma {:induction false} OwnershipSettles(s: State, calls: seq<Call>)
    ensures Settles(s, Run(s, calls))
    decreases |calls|
  {
    if calls != [] {
      CallSettles(s, calls[0]);
      OwnershipSettles(Apply(s, calls[0]), calls[1..]);
    }
  }

  /** The step is flagged already, or its call succeeds. */
  predicate Passes(s: State, step: Setup, outcome: Outcome) {
    step in Flags(s) || outcome.Done?
  }

  /** What setup needs beyond a running interpreter at this path. */
  predicate Ready(s: State, a: Answers, rAvailable: bool, managed: bool)
    requires s.library.Some?
  {
    && Passes(s, Services, a.services) && Passes(s, Evaluator, a.evaluator)
    && (s.library.value.interpreter.External? || Passes(s, Site, a.site))
    && Passes(s, Sql, a.sql)
    && (s.pendingRSql && Sql !in Flags(s) ==> a.replay.Done?)
    && (rAvailable || a.nativeSql.Done?)
    && Passes(s, EnvironmentSetup, a.environment)
    && (EnvironmentSetup in Flags(s) || s.library.value.configuration.Some?)
    && a.defaults.Done? && a.imports.Done? && (managed ==> a.managedEnvironment.Done?)
  }

  lemma ConfigureCompletesExactlyWhen(s: State, a: Answers, rAvailable: bool, managed: bool)
    requires s.library.Some? && s.live && {Services, Evaluator, Site} <= Flags(s)
    ensures var (t, outcome) := Configure(s, a, rAvailable, managed);
      && (outcome.Done? <==> Ready(s, a, rAvailable, managed))
      && (outcome.Done? ==> t.library.value.configured)
  {
    SqlOnlyFlags(s, a.sql, a.replay);
    EnvironmentOnlyFlags(InstallSql(s, a.sql, a.replay).0, a.environment);
  }

  /** Setup completes exactly when nothing that is still missing fails; marking it configured never fails. */
  lemma SetupCompletesExactlyWhen(s: State, path: string, a: Answers, rAvailable: bool, managed: bool)
    ensures var (t, outcome) := SetupRuntime(s, path, a, rAvailable, managed);
      && (outcome.Done? <==>
            && Load(s, path).1.Done?
            && var u := Load(s, path).0; u.library.value.configured || Ready(u, a, rAvailable, managed))
      && (outcome.Done? ==> t.library.value.configured)
  {
    var (s0, loaded) := Load(s, path);
    if loaded.Done? && !s0.library.value.configured {
      InstallOnlyFlags(s0, a);
      var (s1, installed) := InstallRuntime(s0, a);
      if installed.Done? {
        ConfigureCompletesExactlyWhen(s1, a, rAvailable, managed);
      }
    }
  }
}
