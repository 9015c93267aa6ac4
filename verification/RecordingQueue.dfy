/**
  Ordered capture of `send` calls (`RecordingQueue` and the enrolment part of
  `ServerTransport::receive` in `src/server_transport.rs`): every capture waits
  for the one received before it, the backlog of unfinished calls is bounded,
  and closing the queue waits for everything that was enrolled.
*/
module RecordingQueueModel {
  import opened Options

  /** The bound of the transport backlog, applied to journal waits too. */
  const MAX_BACKLOG: nat := 64

  datatype Capture = Queued | Running | Ended

  /** One enrolled call: its capture task and whether its last owner has retired. */
  datatype Record = Record(predecessor: Option<nat>, capture: Capture, completed: bool)

  /** One call of `close_and_settle`: what it took under the lock and what it still awaits. */
  datatype Closer = Closer(tail: Option<nat>, rest: seq<nat>, first: bool)

  /** `began` is the order in which captures started to run. */
  datatype State = State(
    closed: bool,
    tail: Option<nat>,
    pending: seq<nat>,
    records: seq<Record>,
    began: seq<nat>,
    closers: seq<Closer>)

  function Initial(): State {
    State(false, None, [], [], [], [])
  }

  /** The pending calls that have not completed, in order. */
  function Retain(pending: seq<nat>, records: seq<Record>): seq<nat> {
    if pending == [] then []
    else
      var last := pending[|pending| - 1];
      Retain(pending[..|pending| - 1], records)
      + if last < |records| && !records[last].completed then [last] else []
  }

  /** The locked part of receiving one `send`; refused when closed or over the bound. */
  function Enroll(s: State): State {
    if s.closed then s
    else
      var pending := Retain(s.pending, s.records);
      if |pending| >= MAX_BACKLOG then s.(pending := pending)
      else
        var i := |s.records|;
        s.(pending := pending + [i],
           tail := Some(i),
           records := s.records + [Record(s.tail, Queued, false)])
  }

  /** The locked part of `close_and_settle`. */
  function Close(s: State): State {
    s.(closed := true, tail := None, pending := [],
       closers := s.closers + [Closer(s.tail, s.pending, !s.closed)])
  }

  function SetCapture(s: State, i: nat, capture: Capture): State
    requires i < |s.records|
  {
    s.(records := s.records[i := s.records[i].(capture := capture)])
  }

  datatype Step =
    | EnrollStep
    | BeginStep(i: nat)
    | EndStep(i: nat)
    | CompleteStep(i: nat)
    | CloseStep
    | AwaitTailStep(k: nat)
    | AwaitCompletionStep(k: nat)

  predicate HasEnded(s: State, i: nat) {
    i < |s.records| && s.records[i].capture == Ended
  }

  predicate Enabled(s: State, step: Step) {
    match step
    case EnrollStep => true
    case BeginStep(i) =>
      && i < |s.records| && s.records[i].capture == Queued
      && (s.records[i].predecessor.Some? ==> HasEnded(s, s.records[i].predecessor.value))
    case EndStep(i) => i < |s.records| && s.records[i].capture == Running
    case CompleteStep(i) => i < |s.records|
    case CloseStep => true
    case AwaitTailStep(k) =>
      k < |s.closers| && s.closers[k].tail.Some? && HasEnded(s, s.closers[k].tail.value)
    case AwaitCompletionStep(k) =>
      && k < |s.closers| && s.closers[k].tail.None? && s.closers[k].rest != []
      && s.closers[k].rest[0] < |s.records| && s.records[s.closers[k].rest[0]].completed
  }

  function Apply(s: State, step: Step): State
    requires Enabled(s, step)
  {
    match step
    case EnrollStep => Enroll(s)
    case BeginStep(i) => SetCapture(s, i, Running).(began := s.began + [i])
    case EndStep(i) => SetCapture(s, i, Ended)
    case CompleteStep(i) => s.(records := s.records[i := s.records[i].(completed := true)])
    case CloseStep => Close(s)
    case AwaitTailStep(k) => s.(closers := s.closers[k := s.closers[k].(tail := None)])
    case AwaitCompletionStep(k) => s.(closers := s.closers[k := s.closers[k].(rest := s.closers[k].rest[1..])])
  }

  // ----- Invariant -----

  function Unfinished(s: State): set<nat> {
    set i | 0 <= i < |s.records| && !s.records[i].completed
  }

  predicate Ascending(xs: seq<nat>, bound: nat) {
    && (forall i, j :: 0 <= i < j < |xs| ==> xs[i] < xs[j])
    && (forall i :: 0 <= i < |xs| ==> xs[i] < bound)
  }

  function Last(n: nat): Option<nat> {
    if n == 0 then None else Some(n - 1)
  }

  /** Records are linked in receive order and their captures run one at a time. */
  ghost predicate InOrder(s: State) {
    && (forall i :: 0 <= i < |s.records| ==> s.records[i].predecessor == Last(i))
    && (forall i, j :: 0 <= j < i < |s.records| && s.records[i].capture != Queued ==> s.records[j].capture == Ended)
    && (forall i :: 0 <= i < |s.records| ==> (s.records[i].capture != Queued <==> i < |s.began|))
    && |s.began| <= |s.records|
    && (forall i :: 0 <= i < |s.began| ==> s.began[i] == i)
  }

  /** The closer that closed the queue still awaits everything that has not ended. */
  ghost predicate AwaitsAll(s: State, closer: Closer) {
    && (closer.tail.Some? ==> closer.tail == Last(|s.records|))
    && (closer.tail.None? ==> forall i :: 0 <= i < |s.records| ==> s.records[i].capture == Ended)
    && (forall i :: 0 <= i < |s.records| && !s.records[i].completed ==> i in closer.rest)
  }

  ghost predicate Inv(s: State) {
    && InOrder(s)
    && Ascending(s.pending, |s.records|)
    && (!s.closed ==>
          && s.tail == Last(|s.records|)
          && |s.pending| <= MAX_BACKLOG
          && (forall i :: 0 <= i < |s.records| && !s.records[i].completed ==> i in s.pending)
          && s.closers == [])
    && (forall k :: 0 <= k < |s.closers| && s.closers[k].first ==> AwaitsAll(s, s.closers[k]))
    && |Unfinished(s)| <= MAX_BACKLOG
  }

  lemma {:induction false} RetainKeepsUnfinished(pending: seq<nat>, records: seq<Record>)
    requires Ascending(pending, |records|)
    ensures Ascending(Retain(pending, records), |records|)
    ensures |Retain(pending, records)| <= |pending|
    ensures forall i :: i in Retain(pending, records) <==> i in pending && !records[i].completed
  {
    if pending != [] {
      var front := pending[..|pending| - 1];
      RetainKeepsUnfinished(front, records);
      var last := pending[|pending| - 1];
      assert pending == front + [last];
      var kept := Retain(front, records);
      forall i | 0 <= i < |kept| ensures kept[i] < last {
        assert kept[i] in kept;
      }
    }
  }

  lemma {:induction false} FewElements(xs: seq<nat>, s: set<nat>)
    requires forall i :: i in s ==> i in xs
    ensures |s| <= |xs|
  {
    if xs == [] {
      assert s == {};
    } else {
      var last := xs[|xs| - 1];
      FewElements(xs[..|xs| - 1], s - {last});
      if last in s {
        assert |s - {last}| == |s| - 1;
      } else {
        assert s - {last} == s;
      }
    }
  }

  lemma FewerUnfinished(s: State, t: State)
    requires Unfinished(t) <= Unfinished(s)
    ensures |Unfinished(t)| <= |Unfinished(s)|
  {
    assert Unfinished(s) == Unfinished(t) + (Unfinished(s) - Unfinished(t));
  }

  /** The new record starts behind the tail, and the others are as they were. */
  lemma EnrolledInOrder(s: State)
    requires InOrder(s) && s.tail == Last(|s.records|)
    ensures InOrder(s.(records := s.records + [Record(s.tail, Queued, false)]))
  {
  }

  lemma EnrolledIsBounded(s: State, kept: seq<nat>)
    requires |kept| < MAX_BACKLOG
    requires forall i :: 0 <= i < |s.records| && !s.records[i].completed ==> i in kept
    ensures |Unfinished(s.(records := s.records + [Record(s.tail, Queued, false)]))| <= MAX_BACKLOG
  {
    var t := s.(records := s.records + [Record(s.tail, Queued, false)]);
    var pending := kept + [|s.records|];
    forall i | i in Unfinished(t) ensures i in pending {
      if i < |s.records| {
        assert i in kept;
      } else {
        assert pending[|kept|] == i;
      }
    }
    FewElements(pending, Unfinished(t));
  }

  lemma AppendAscends(kept: seq<nat>, n: nat)
    requires Ascending(kept, n)
    ensures Ascending(kept + [n], n + 1)
    ensures forall i :: i in kept ==> i in kept + [n]
    ensures n in kept + [n]
  {
    assert (kept + [n])[|kept|] == n;
  }

  lemma EnrollKeeps(s: State)
    requires Inv(s)
    ensures Inv(Enroll(s))
  {
    var kept := Retain(s.pending, s.records);
    RetainKeepsUnfinished(s.pending, s.records);
    if !s.closed && |kept| < MAX_BACKLOG {
      EnrolledInOrder(s);
      EnrolledIsBounded(s, kept);
      AcceptKeeps(s, kept);
    } else {
      FewerUnfinished(s, Enroll(s));
    }
  }

  lemma AcceptKeeps(s: State, kept: seq<nat>)
    requires !s.closed && s.closers == [] && |kept| < MAX_BACKLOG && Ascending(kept, |s.records|)
    requires forall i :: 0 <= i < |s.records| && !s.records[i].completed ==> i in kept
    requires InOrder(s.(records := s.records + [Record(s.tail, Queued, false)]))
    requires |Unfinished(s.(records := s.records + [Record(s.tail, Queued, false)]))| <= MAX_BACKLOG
    ensures Inv(s.(pending := kept + [|s.records|], tail := Some(|s.records|),
                   records := s.records + [Record(s.tail, Queued, false)]))
  {
    AppendAscends(kept, |s.records|);
    var t := s.(pending := kept + [|s.records|], tail := Some(|s.records|),
                records := s.records + [Record(s.tail, Queued, false)]);
    assert Unfinished(t) == Unfinished(s.(records := t.records));
  }

  /** A capture or a completion moves on, which no closer minds. */
  lemma MovedRecordKeeps(s: State, t: State)
    requires Inv(s) && InOrder(t) && |t.records| == |s.records|
    requires t == s.(records := t.records, began := t.began)
    requires forall i :: 0 <= i < |s.records| ==>
      && (s.records[i].completed ==> t.records[i].completed)
      && (s.records[i].capture == Ended ==> t.records[i].capture == Ended)
    ensures Inv(t)
  {
    FewerUnfinished(s, t);
    forall k | 0 <= k < |t.closers| && t.closers[k].first ensures AwaitsAll(t, t.closers[k]) {
      assert AwaitsAll(s, s.closers[k]);
    }
  }

  lemma RecordKeeps(s: State, step: Step)
    requires Inv(s) && Enabled(s, step) && (step.BeginStep? || step.EndStep? || step.CompleteStep?)
    ensures Inv(Apply(s, step))
  {
    MovedRecordKeeps(s, Apply(s, step));
  }

  lemma CloserKeeps(s: State, step: Step)
    requires Inv(s) && Enabled(s, step) && (step.CloseStep? || step.AwaitTailStep? || step.AwaitCompletionStep?)
    ensures Inv(Apply(s, step))
  {
    var t := Apply(s, step);
    FewerUnfinished(s, t);
    forall k | 0 <= k < |t.closers| && t.closers[k].first ensures AwaitsAll(t, t.closers[k]) {
      if k < |s.closers| {
        assert s.closers[k].first && AwaitsAll(s, s.closers[k]);
      }
    }
  }

  lemma StepKeeps(s: State, step: Step)
    requires Inv(s) && Enabled(s, step)
    ensures Inv(Apply(s, step))
  {
    match step
    case EnrollStep => EnrollKeeps(s);
    case BeginStep(_) => RecordKeeps(s, step);
    case EndStep(_) => RecordKeeps(s, step);
    case CompleteStep(_) => RecordKeeps(s, step);
    case _ => CloserKeeps(s, step);
  }

  // ----- Runs -----

  /** The state after `steps`, if each of them is enabled in its turn. */
  function Run(s: State, steps: seq<Step>): Option<State>
    decreases |steps|
  {
    if steps == [] then Some(s)
    else if !Enabled(s, steps[0]) then None
    else Run(Apply(s, steps[0]), steps[1..])
  }

  lemma {:induction false} RunKeeps(s: State, steps: seq<Step>)
    requires Inv(s) && Run(s, steps).Some?
    ensures Inv(Run(s, steps).value)
    decreases |steps|
  {
    if steps != [] {
      StepKeeps(s, steps[0]);
      RunKeeps(Apply(s, steps[0]), steps[1..]);
    }
  }

  lemma InitialInv()
    ensures Inv(Initial())
  {
    assert Unfinished(Initial()) == {};
  }

  /** On every run, captures start in receive order, each after all earlier ones have ended. */
  lemma CapturesRunInReceiveOrder(steps: seq<Step>, s: State)
    requires Run(Initial(), steps) == Some(s)
    ensures |s.began| <= |s.records|
    ensures forall i :: 0 <= i < |s.began| ==> s.began[i] == i
    ensures forall i, j :: 0 <= j < i < |s.records| && s.records[i].capture != Queued ==> s.records[j].capture == Ended
  {
    InitialInv();
    RunKeeps(Initial(), steps);
  }

  /** On every run at most 64 enrolled calls are unfinished. */
  lemma BacklogIsBounded(steps: seq<Step>, s: State)
    requires Run(Initial(), steps) == Some(s)
    ensures |Unfinished(s)| <= 64
  {
    InitialInv();
    RunKeeps(Initial(), steps);
  }

  lemma {:induction false} AsManyElements(xs: seq<nat>, s: set<nat>, bound: nat)
    requires Ascending(xs, bound) && forall i :: i in s <==> i in xs
    ensures |s| == |xs|
  {
    if xs == [] {
      assert s == {};
    } else {
      var before, last := xs[..|xs| - 1], xs[|xs| - 1];
      assert xs == before + [last] && last !in before;
      AsManyElements(before, s - {last}, bound);
    }
  }

  /** While the queue is open, what is retained is what is unfinished. */
  lemma RetainsUnfinished(s: State)
    requires Inv(s)
    ensures !s.closed ==> |Retain(s.pending, s.records)| == |Unfinished(s)|
  {
    if !s.closed {
      RetainKeepsUnfinished(s.pending, s.records);
      assert forall i :: i in s.pending ==> i < |s.records|;
      AsManyElements(Retain(s.pending, s.records), Unfinished(s), |s.records|);
    }
  }

  /**
    On every run a call is enrolled if and only if the queue is open and fewer
    than 64 calls are unfinished. It waits for the call enrolled before it.
  */
  lemma EnrollsExactlyWhen(steps: seq<Step>, s: State)
    requires Run(Initial(), steps) == Some(s)
    ensures var t := Apply(s, EnrollStep); var before := if s.records == [] then None else Some(|s.records| - 1);
      && t.records == (if !s.closed && |Unfinished(s)| < 64 then s.records + [Record(before, Queued, false)] else s.records)
      && t.closed == s.closed && t.closers == s.closers && t.began == s.began
  {
    InitialInv();
    RunKeeps(Initial(), steps);
    RetainsUnfinished(s);
  }

  /** Nothing is enrolled once the queue is closed, and it stays closed. */
  lemma {:induction false} NothingEnrolledAfterClose(s: State, steps: seq<Step>)
    requires s.closed && Run(s, steps).Some?
    ensures Run(s, steps).value.closed && |Run(s, steps).value.records| == |s.records|
    decreases |steps|
  {
    if steps != [] {
      NothingEnrolledAfterClose(Apply(s, steps[0]), steps[1..]);
    }
  }

  predicate MayReturn(closer: Closer) {
    closer.tail.None? && closer.rest == []
  }

  /** When the call that closed the queue returns, every capture and every owner is done. */
  lemma ClosingWaitsForEverything(steps: seq<Step>, s: State, k: nat)
    requires Run(Initial(), steps) == Some(s) && k < |s.closers|
    requires s.closers[k].first && MayReturn(s.closers[k])
    ensures forall i :: 0 <= i < |s.records| ==> s.records[i].capture == Ended && s.records[i].completed
  {
    InitialInv();
    RunKeeps(Initial(), steps);
    assert AwaitsAll(s, s.closers[k]);
  }

  predicate AllDone(s: State) {
    forall i :: 0 <= i < |s.records| ==> s.records[i].capture == Ended && s.records[i].completed
  }

  /** A closed queue is empty under the lock, and only the call that closed it found something to await. */
  ghost predicate OneCloserWaits(s: State) {
    && (s.closed ==> s.closers != [] && s.closers[0].first && s.tail.None? && s.pending == [])
    && (!s.closed ==> s.closers == [])
    && forall k :: 0 < k < |s.closers| ==> !s.closers[k].first && MayReturn(s.closers[k])
  }

  lemma {:induction false} OneCloserWaitsOnRuns(s: State, steps: seq<Step>)
    requires OneCloserWaits(s) && Run(s, steps).Some?
    ensures OneCloserWaits(Run(s, steps).value)
    decreases |steps|
  {
    if steps != [] {
      OneCloserWaitsOnRuns(Apply(s, steps[0]), steps[1..]);
    }
  }

  /**
    On every run, the first call of `close_and_settle` is the one that waits, and
    every other may return at once, whatever is still running.
  */
  lemma OnlyTheFirstCloserWaits(steps: seq<Step>, s: State)
    requires Run(Initial(), steps) == Some(s)
    ensures forall k :: 0 <= k < |s.closers| ==> (s.closers[k].first <==> k == 0)
    ensures forall k :: 0 < k < |s.closers| ==> MayReturn(s.closers[k])
  {
    OneCloserWaitsOnRuns(Initial(), steps);
  }

  lemma {:induction false} DoneStays(s: State, steps: seq<Step>)
    requires s.closed && AllDone(s) && Run(s, steps).Some?
    ensures AllDone(Run(s, steps).value)
    decreases |steps|
  {
    if steps != [] {
      DoneStays(Apply(s, steps[0]), steps[1..]);
    }
  }

  predicate Returns(s: State, k: nat) {
    k < |s.closers| && MayReturn(s.closers[k])
  }

  /** Whenever this closer returns, however the run goes on, everything enrolled is done. */
  ghost predicate ReturnMeansDone(s: State, k: nat) {
    forall later :: Run(s, later).Some? && Returns(Run(s, later).value, k) ==> AllDone(Run(s, later).value)
  }

  /**
    The exact condition: in every reachable state, the return of a new closer
    means that everything enrolled is done if and only if the queue was still
    open, or everything is done already.
  */
  lemma ReturnMeansDoneExactlyWhen(steps: seq<Step>, s: State)
    requires Run(Initial(), steps) == Some(s)
    ensures ReturnMeansDone(Apply(s, CloseStep), |s.closers|) <==> !s.closed || AllDone(s)
  {
    var t := Apply(s, CloseStep);
    InitialInv();
    RunKeeps(Initial(), steps);
    StepKeeps(s, CloseStep);
    OneCloserWaitsOnRuns(Initial(), steps);
    if s.closed && !AllDone(s) {
      assert Run(t, []) == Some(t) && Returns(t, |s.closers|) && !AllDone(t);
    } else {
      forall later | Run(t, later).Some? && Returns(Run(t, later).value, |s.closers|)
        ensures AllDone(Run(t, later).value)
      {
        if s.closed {
          DoneStays(t, later);
        } else {
          RunKeeps(t, later);
          OneCloserWaitsOnRuns(t, later);
          assert AwaitsAll(Run(t, later).value, Run(t, later).value.closers[0]);
        }
      }
    }
  }

  /** A second closer returns with a call enrolled whose capture has not begun. */
  lemma SecondCloserReturnsEarly()
    ensures var s := Run(Initial(), [EnrollStep, CloseStep]);
      && s.Some? && s.value.closed && s.value.records == [Record(None, Queued, false)]
      && Returns(Apply(s.value, CloseStep), 1) && !ReturnMeansDone(Apply(s.value, CloseStep), 1)
  {
    var steps := [EnrollStep, CloseStep];
    assert Retain([], []) == [];
    var s1 := Apply(Initial(), EnrollStep);
    var s := Apply(s1, CloseStep);
    assert steps[1..] == [CloseStep] && steps[1..][1..] == [];
    assert Run(s1, steps[1..]) == Run(s, []) == Some(s);
    ReturnMeansDoneExactlyWhen(steps, s);
    assert |s.closers| == 1 && !AllDone(s) by {
      assert s.records[0].capture == Queued;
    }
  }

  // ----- Everything settles -----

  /** What closers await are enrolled calls. */
  ghost predicate Known(s: State) {
    && (forall i :: 0 <= i < |s.pending| ==> s.pending[i] < |s.records|)
    && forall k, i :: 0 <= k < |s.closers| && 0 <= i < |s.closers[k].rest| ==> s.closers[k].rest[i] < |s.records|
  }

  lemma {:induction false} KnownOnRuns(s: State, steps: seq<Step>)
    requires Inv(s) && Known(s) && Run(s, steps).Some?
    ensures Inv(Run(s, steps).value) && Known(Run(s, steps).value)
    decreases |steps|
  {
    if steps != [] {
      StepKeeps(s, steps[0]);
      KnownOnRuns(Apply(s, steps[0]), steps[1..]);
    }
  }

  predicate SomeRunning(s: State) {
    exists i :: 0 <= i < |s.records| && s.records[i].capture == Running
  }

  /** The step that comes next if nothing new is enrolled: captures in order, completions, and then the closer. */
  ghost predicate Next(s: State, step: Step) {
    match step
    case EndStep(i) => Enabled(s, step)
    case BeginStep(i) => !SomeRunning(s) && i == |s.began| < |s.records|
    case CompleteStep(i) => !SomeRunning(s) && |s.began| == |s.records| && i in Unfinished(s)
    case AwaitTailStep(k) => AllDone(s) && k == 0 < |s.closers| && s.closers[0].tail.Some?
    case AwaitCompletionStep(k) =>
      AllDone(s) && k == 0 < |s.closers| && s.closers[0].tail.None? && s.closers[0].rest != []
    case _ => false
  }

  lemma NextIsEnabled(s: State, step: Step)
    requires Inv(s) && Known(s) && OneCloserWaits(s) && Next(s, step)
    ensures Enabled(s, step)
  {
    if step.AwaitTailStep? {
      assert AwaitsAll(s, s.closers[0]);
    }
  }

  /** How far a state is from being settled. */
  ghost function Distance(s: State): nat {
    (if |s.began| <= |s.records| then 2 * (|s.records| - |s.began|) else 0) + (if SomeRunning(s) then 1 else 0)
      + |Unfinished(s)|
      + if s.closers == [] then 0 else |s.closers[0].rest| + if s.closers[0].tail.Some? then 1 else 0
  }

  lemma CaptureIsCloser(s: State, step: Step)
    requires Inv(s) && Next(s, step) && Enabled(s, step) && (step.EndStep? || step.BeginStep?)
    ensures Distance(Apply(s, step)) < Distance(s)
  {
    assert Unfinished(Apply(s, step)) == Unfinished(s);
    if step.EndStep? {
      assert s.records[step.i].capture == Running;
    }
  }

  lemma CompletionIsCloser(s: State, i: nat)
    requires Inv(s) && Next(s, CompleteStep(i)) && Enabled(s, CompleteStep(i))
    ensures Distance(Apply(s, CompleteStep(i))) < Distance(s)
  {
    var t := Apply(s, CompleteStep(i));
    assert Unfinished(t) == Unfinished(s) - {i};
    assert forall j :: 0 <= j < |t.records| ==> t.records[j].capture == s.records[j].capture;
  }

  lemma NextIsCloser(s: State, step: Step)
    requires Inv(s) && Next(s, step) && Enabled(s, step)
    ensures Distance(Apply(s, step)) < Distance(s)
  {
    match step {
      case EndStep(_) => CaptureIsCloser(s, step);
      case BeginStep(_) => CaptureIsCloser(s, step);
      case CompleteStep(i) => CompletionIsCloser(s, i);
      case AwaitTailStep(_) =>
        assert Unfinished(Apply(s, step)) == Unfinished(s);
      case AwaitCompletionStep(_) =>
        assert Unfinished(Apply(s, step)) == Unfinished(s);
      case _ =>
    }
  }

  lemma NextExists(s: State) returns (step: Step)
    requires Inv(s) && OneCloserWaits(s) && !Settled(s)
    ensures Next(s, step)
  {
    if i :| 0 <= i < |s.records| && s.records[i].capture == Running {
      step := EndStep(i);
    } else if |s.began| < |s.records| {
      step := BeginStep(|s.began|);
    } else if i :| i in Unfinished(s) {
      step := CompleteStep(i);
    } else {
      forall i | 0 <= i < |s.records|
        ensures s.records[i].capture == Ended && s.records[i].completed
      {
        assert i < |s.began| && i !in Unfinished(s);
      }
      assert AllDone(s);
      step := if s.closers[0].tail.Some? then AwaitTailStep(0) else AwaitCompletionStep(0);
    }
  }

  ghost predicate Settled(s: State) {
    AllDone(s) && forall k :: 0 <= k < |s.closers| ==> MayReturn(s.closers[k])
  }

  lemma {:induction false} Settle(s: State) returns (steps: seq<Step>)
    requires Inv(s) && Known(s) && OneCloserWaits(s)
    ensures Run(s, steps).Some? && Settled(Run(s, steps).value)
    ensures EnrollStep !in steps && CloseStep !in steps
    decreases Distance(s)
  {
    if Settled(s) {
      steps := [];
    } else {
      var step := NextExists(s);
      NextIsEnabled(s, step);
      NextIsCloser(s, step);
      StepKeeps(s, step);
      KnownOnRuns(s, [step]);
      assert [step][1..] == [] && Run(s, [step]) == Some(Apply(s, step));
      OneCloserWaitsOnRuns(s, [step]);
      var rest := Settle(Apply(s, step));
      steps := [step] + rest;
      assert steps[1..] == rest;
    }
  }

  /**
    From every reachable state, every capture can run in its turn, every call can
    complete, and then every call of `close_and_settle` returns: nothing waits for
    something that cannot happen.
  */
  lemma EverythingSettles(before: seq<Step>, s: State) returns (steps: seq<Step>)
    requires Run(Initial(), before) == Some(s)
    ensures EnrollStep !in steps && CloseStep !in steps
    ensures Run(s, steps).Some? && Settled(Run(s, steps).value)
  {
    InitialInv();
    KnownOnRuns(Initial(), before);
    OneCloserWaitsOnRuns(Initial(), before);
    steps := Settle(s);
  }

  // ----- The queue as an object -----

  class RecordingQueue {
    var closed: bool
    var tail: Option<nat>
    var pending: seq<nat>
    // Every enrolled call, in receive order.
    var records: seq<Record>
    ghost var began: seq<nat>
    ghost var closers: seq<Closer>

    ghost function View(): State
      reads this
    {
      State(closed, tail, pending, records, began, closers)
    }

    constructor ()
      ensures View() == Initial() && Inv(View())
    {
      closed, tail, pending, records, began, closers := false, None, [], [], [], [];
      new;
      InitialInv();
    }

    /** Drops the completed calls from `pending`, in place and in order. */
    method RetainPending()
      requires Ascending(pending, |records|)
      modifies this`pending
      ensures pending == Retain(old(pending), records)
    {
      var kept: seq<nat> := [];
      for i := 0 to |pending|
        invariant kept == Retain(pending[..i], records)
      {
        if !records[pending[i]].completed {
          kept := kept + [pending[i]];
        }
        assert pending[..i + 1][..i] == pending[..i];
      }
      assert pending[..|pending|] == pending;
      pending := kept;
    }

    /** Enrols one received `send`; `None` means that the transport stops receiving. */
    method EnrollCall() returns (id: Option<nat>)
      requires Inv(View())
      modifies this
      ensures Inv(View()) && View() == Enroll(old(View()))
      ensures id.Some? ==> id.value == |old(records)| && |records| == id.value + 1
      ensures id.None? <==> old(closed) || |Unfinished(old(View()))| >= 64
      ensures records == if id.None? then old(records) else old(records) + [Record(old(tail), Queued, false)]
    {
      EnrollKeeps(View());
      RetainsUnfinished(View());
      if closed {
        return None;
      }
      RetainPending();
      if |pending| >= MAX_BACKLOG {
        return None;
      }
      id := Some(|records|);
      pending := pending + [id.value];
      records := records + [Record(tail, Queued, false)];
      tail := id;
    }

    /** Closes the queue and takes what the caller has to await. */
    method CloseQueue() returns (awaited: Closer)
      requires Inv(View())
      modifies this
      ensures Inv(View()) && View() == Close(old(View()))
      ensures closed && awaited == Closer(old(tail), old(pending), !old(closed))
      ensures closers == old(closers) + [awaited] && records == old(records)
    {
      CloserKeeps(View(), CloseStep);
      awaited := Closer(tail, pending, !closed);
      closed, tail, pending := true, None, [];
      closers := closers + [awaited];
    }
  }
}
