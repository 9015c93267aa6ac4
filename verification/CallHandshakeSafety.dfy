/** What every run of the interrupt handshake guarantees. */
module CallHandshakeSafety {
  import opened Options
  import opened CallHandshake

  lemma StepKeeps(s: State, move: Move)
    requires Inv(s) && Enabled(s, move)
    ensures Inv(Apply(s, move))
  {
    match move {
      case Sends(thread) => SendKeeps(s, thread, false, true);
      case SendsInterrupted(thread, queued) => SendKeeps(s, thread, true, queued);
      case Runs(ends) => RunKeeps(s, ends);
      case Connects =>
      case Closes =>
      case _ => MoveKeeps(s, move);
    }
  }

  lemma {:induction false} RunKeepsInv(s: State, moves: seq<Move>)
    requires Inv(s) && Legal(s, moves)
    ensures Inv(Run(s, moves))
    decreases |moves|
  {
    if moves != [] {
      StepKeeps(s, moves[0]);
      RunKeepsInv(Apply(s, moves[0]), moves[1..]);
    }
  }

  lemma Reached(moves: seq<Move>)
    requires Legal(Initial(), moves)
    ensures Inv(Run(Initial(), moves))
  {
    InitialInv();
    RunKeepsInv(Initial(), moves);
  }

  // ----- Retirement -----

  /**
    A finished request has a finished task, or was cancelled before it got one.
    Its future holds a result only if its task returned one, and a failure only
    if it raised one.
  */
  lemma FinishedMeansRetired(moves: seq<Move>, r: nat)
    requires Legal(Initial(), moves) && r < |Run(Initial(), moves).requests|
    ensures var x := Run(Initial(), moves).requests[r];
      && (x.finished ==> x.task.Done? || (x.task.NoTask? && x.future.Cancelled?))
      && (x.task.Live? ==> !x.finished)
      && (x.future.Result? ==> x.finished && x.task == Done(Returned))
      && (x.future.Failure? ==> x.finished && x.task == Done(Raised))
  {
    Reached(moves);
    var s := Run(Initial(), moves);
    assert Fits(Of(s.queue, r), s.requests[r]);
  }

  /** What no step changes about a request that exists. */
  ghost predicate Evolves(x: Request, y: Request) {
    && y.thread == x.thread
    && (x.interrupted ==> y.interrupted)
    && (x.finished ==> y.finished)
    && (!x.future.Pending? ==> y.future == x.future)
    && (x.task.NoTask? && x.future.Cancelled? ==> y.task.NoTask?)
    && (x.task.Done? ==> y.task == x.task)
    && (x.phase.Left? ==> y.phase.Left?)
  }

  lemma CallbackEvolves(kind: Kind, kinds: seq<Kind>, x: Request, ends: Option<Outcome>)
    requires Fits([kind] + kinds, x)
    ensures Evolves(x, RunCallback(kind, x, ends).0)
  {
    assert kind in [kind] + kinds by { assert ([kind] + kinds)[0] == kind; }
  }

  lemma StepEvolves(s: State, move: Move, r: nat)
    requires Inv(s) && Enabled(s, move) && r < |s.requests|
    ensures r < |Apply(s, move).requests| && Evolves(s.requests[r], Apply(s, move).requests[r])
  {
    assert Fits(Of(s.queue, r), s.requests[r]);
    if move.Runs? {
      Dequeue(s);
      if s.queue[0].request == r {
        CallbackEvolves(s.queue[0].kind, Of(s.queue[1..], r), s.requests[r], move.ends);
      }
    }
  }

  /**
    The future of a request resolves once, finished stays finished, and a request
    that was cancelled before its start never gets a task, so it is never sent.
  */
  lemma {:induction false} RequestsEvolve(s: State, moves: seq<Move>, r: nat)
    requires Inv(s) && Legal(s, moves) && r < |s.requests|
    ensures r < |Run(s, moves).requests|
    ensures Evolves(s.requests[r], Run(s, moves).requests[r])
    decreases |moves|
  {
    if moves != [] {
      StepKeeps(s, moves[0]);
      StepEvolves(s, moves[0], r);
      RequestsEvolve(Apply(s, moves[0]), moves[1..], r);
    }
  }

  /** The done callback never resolves a future that is already done. */
  lemma NoInvalidState(moves: seq<Move>)
    requires Legal(Initial(), moves) && Run(Initial(), moves).queue != []
    requires Run(Initial(), moves).queue[0].kind == Finish
    ensures var s := Run(Initial(), moves);
      && s.queue[0].request < |s.requests|
      && var x := s.requests[s.queue[0].request];
      && x.task.Done? && !x.finished && (x.future.Pending? || x.future.Cancelled?)
  {
    Reached(moves);
    var s := Run(Initial(), moves);
    Dequeue(s);
    var r := s.queue[0].request;
    assert Of(s.queue, r)[0] == Finish && Fits(Of(s.queue, r), s.requests[r]);
  }

  /** Interrupting before the start callback ran: finished at once, and never sent afterwards. */
  lemma InterruptedBeforeStartIsNeverSent(moves: seq<Move>, later: seq<Move>, r: nat)
    requires Legal(Initial(), moves) && Enabled(Run(Initial(), moves), Cancels(r))
    requires Run(Initial(), moves).requests[r].task.NoTask?
    requires Legal(Apply(Run(Initial(), moves), Cancels(r)), later)
    ensures Apply(Run(Initial(), moves), Cancels(r)).requests[r].finished
    ensures var t := Run(Apply(Run(Initial(), moves), Cancels(r)), later);
      r < |t.requests| && t.requests[r].task.NoTask? && t.requests[r].future.Cancelled?
  {
    Reached(moves);
    var s := Run(Initial(), moves);
    assert Fits(Of(s.queue, r), s.requests[r]);
    StepKeeps(s, Cancels(r));
    RequestsEvolve(Apply(s, Cancels(r)), later, r);
  }

  /**
    The cancellation of an abort is a second one: when it runs, the first is not
    queued any more, and what it woke has run.
  */
  lemma AbortCancelsAgain(moves: seq<Move>)
    requires Legal(Initial(), moves) && Run(Initial(), moves).queue != []
    requires Run(Initial(), moves).queue[0].kind == CancelAgain
    ensures var s := Run(Initial(), moves); var r := s.queue[0].request;
      && r < |s.requests|
      && Callback(r, Cancel) !in s.queue
      && (s.requests[r].task.Live? ==> !s.requests[r].task.cancelPending)
  {
    Reached(moves);
    var s := Run(Initial(), moves);
    var r := s.queue[0].request;
    var kinds := Of(s.queue, r);
    assert kinds[0] == CancelAgain && Fits(kinds, s.requests[r]);
    if Callback(r, Cancel) in s.queue {
      InQueue(s.queue, r, Cancel);
    }
    NotBehind(kinds, Step);
  }

  /** Nothing comes before the head. */
  lemma NotBehind(kinds: seq<Kind>, kind: Kind)
    requires kinds != []
    ensures kind in kinds ==> !Before(kinds, kind, kinds[0])
  {
  }

  lemma {:induction false} InQueue(queue: seq<Callback>, r: nat, kind: Kind)
    ensures Callback(r, kind) in queue <==> kind in Of(queue, r)
  {
    if queue != [] {
      InQueue(queue[1..], r, kind);
      assert queue == [queue[0]] + queue[1..];
    }
  }

  // ----- Interrupted requests and later sends -----

  /** The caller is still cleaning up, or the request has not finished. */
  predicate Owed(x: Request) {
    x.interrupted && (InProgress(x) || !x.finished)
  }

  /** Whatever is owed is the published cancellation, so it keeps the gate closed. */
  ghost predicate Guarded(s: State) {
    forall r: nat :: r < |s.requests| && Owed(s.requests[r]) ==> Published(s, r)
  }

  /** An interrupt is free when no other cancellation is owed, so it overwrites nothing that matters. */
  predicate Free(s: State, move: Move) {
    move.Interrupts? && s.cancellation.Some? && s.cancellation.value < |s.requests| ==>
      !Owed(s.requests[s.cancellation.value])
  }

  /** A legal run, from any thread, in which every interrupt is free. */
  predicate FreeRun(s: State, moves: seq<Move>)
    decreases |moves|
  {
    moves != [] ==> Enabled(s, moves[0]) && Free(s, moves[0]) && FreeRun(Apply(s, moves[0]), moves[1..])
  }

  /** The guard holds in every state that a run passes. */
  ghost predicate AlwaysGuarded(s: State, moves: seq<Move>)
    requires Legal(s, moves)
    decreases |moves|
  {
    Guarded(s) && (moves != [] ==> AlwaysGuarded(Apply(s, moves[0]), moves[1..]))
  }

  /** An interrupt keeps the guard exactly when it does not overwrite a cancellation that is still owed. */
  lemma PublishedExactlyWhenFree(s: State, r: nat)
    requires Inv(s) && Guarded(s) && Enabled(s, Interrupts(r))
    ensures Guarded(Apply(s, Interrupts(r))) <==> Free(s, Interrupts(r))
  {
    var t := Apply(s, Interrupts(r));
    assert Fits(Of(s.queue, r), s.requests[r]);
    if s.cancellation.Some? {
      var c := s.cancellation.value;
      assert c != r && t.requests[c] == s.requests[c];
    }
  }

  /** The callback of a request leaves the caller alone. */
  lemma CallbackIsTheLoops(kind: Kind, x: Request, ends: Option<Outcome>)
    ensures var y := RunCallback(kind, x, ends).0;
      && y.phase == x.phase && y.thread == x.thread && y.interrupted == x.interrupted
      && (x.finished ==> y.finished)
  {
  }

  lemma GuardedCallback(s: State, ends: Option<Outcome>)
    requires Guarded(s) && s.queue != [] && s.queue[0].request < |s.requests|
    ensures Guarded(RunNext(s, ends))
  {
    CallbackIsTheLoops(s.queue[0].kind, s.requests[s.queue[0].request], ends);
  }

  /** Settling withdraws the only cancellation that is owed. */
  lemma GuardedMove(s: State, move: Move)
    requires Inv(s) && Guarded(s) && OnRequest(move) && !move.Interrupts? && Enabled(s, move)
    ensures Guarded(Apply(s, move))
  {
    var x := s.requests[move.request];
    var y := Moved(x, move).0;
    assert Fits(Of(s.queue, move.request), x);
    assert Owed(y) ==> Owed(x);
    assert move.Settles? ==> Owed(x) && !Owed(y);
  }

  /** Every other step keeps the guard, whoever takes it. */
  lemma GuardedStep(s: State, move: Move)
    requires Inv(s) && Guarded(s) && Enabled(s, move) && Free(s, move)
    ensures Guarded(Apply(s, move))
  {
    match move {
      case Sends(_) =>
      case SendsInterrupted(_, _) =>
      case Runs(ends) => GuardedCallback(s, ends);
      case Interrupts(r) => PublishedExactlyWhenFree(s, r);
      case Connects =>
      case Closes =>
      case _ => GuardedMove(s, move);
    }
  }

  lemma {:induction false} FreeRunKeeps(s: State, moves: seq<Move>)
    requires Inv(s) && Guarded(s) && FreeRun(s, moves)
    ensures Legal(s, moves) && Inv(Run(s, moves)) && Guarded(Run(s, moves))
    decreases |moves|
  {
    if moves != [] {
      StepKeeps(s, moves[0]);
      GuardedStep(s, moves[0]);
      FreeRunKeeps(Apply(s, moves[0]), moves[1..]);
    }
  }

  /** The exact condition over runs: the guard holds all along if and only if every interrupt is free. */
  lemma {:induction false} GuardedExactlyOnFreeRuns(s: State, moves: seq<Move>)
    requires Inv(s) && Guarded(s) && Legal(s, moves)
    ensures AlwaysGuarded(s, moves) <==> FreeRun(s, moves)
    decreases |moves|
  {
    if moves != [] {
      var t := Apply(s, moves[0]);
      StepKeeps(s, moves[0]);
      if Free(s, moves[0]) {
        GuardedStep(s, moves[0]);
        GuardedExactlyOnFreeRuns(t, moves[1..]);
      } else {
        PublishedExactlyWhenFree(s, moves[0].request);
        assert !AlwaysGuarded(t, moves[1..]);
      }
    }
  }

  /**
    In every interleaving of free runs, whichever threads are interrupted:
    whenever a send is admitted or `close` completes, every interrupted request
    has finished and its caller is gone. That holds across failed cancellations,
    closing and reconnecting.
  */
  lemma NoSendDuringCancellation(moves: seq<Move>, move: Move, r: nat)
    requires FreeRun(Initial(), moves)
    requires Legal(Initial(), moves) && Enabled(Run(Initial(), moves), move)
    requires move.Sends? || move.SendsInterrupted? || move.Closes? || move.Connects?
    requires r < |Run(Initial(), moves).requests| && Run(Initial(), moves).requests[r].interrupted
    ensures var x := Run(Initial(), moves).requests[r]; x.finished && !InProgress(x)
  {
    InitialInv();
    FreeRunKeeps(Initial(), moves);
    var s := Run(Initial(), moves);
    assert !Owed(s.requests[r]);
  }

  // ----- Interrupts that reach the main thread only -----

  /** Python raises `KeyboardInterrupt` in the main thread. */
  const MAIN: nat := 0

  predicate ByMain(s: State, move: Move) {
    match move
    case SendsInterrupted(thread, _) => thread == MAIN
    case Interrupts(r) => r < |s.requests| && s.requests[r].thread == MAIN
    case _ => true
  }

  predicate MainRun(s: State, moves: seq<Move>)
    decreases |moves|
  {
    moves != [] ==> Enabled(s, moves[0]) && ByMain(s, moves[0]) && MainRun(Apply(s, moves[0]), moves[1..])
  }

  ghost predicate OnePerThread(s: State) {
    forall q: nat, r: nat :: q < r < |s.requests| && s.requests[q].thread == s.requests[r].thread ==>
      !InProgress(s.requests[q]) || !InProgress(s.requests[r])
  }

  /** Every thread is in one call, and while a cancellation is published the main thread waits in none. */
  ghost predicate OnlyMain(s: State) {
    && OnePerThread(s)
    && (s.cancellation.Some? ==>
          forall r: nat :: r < |s.requests| && s.requests[r].thread == MAIN ==> !s.requests[r].phase.Waiting?)
  }

  lemma MainCallbackKeeps(s: State, ends: Option<Outcome>)
    requires OnlyMain(s) && s.queue != [] && s.queue[0].request < |s.requests|
    ensures OnlyMain(RunNext(s, ends))
  {
    CallbackIsTheLoops(s.queue[0].kind, s.requests[s.queue[0].request], ends);
  }

  lemma MainMoveKeeps(s: State, move: Move)
    requires OnRequest(move) && OnlyMain(s) && ByMain(s, move)
    requires move.request < |s.requests| && Allowed(s.requests[move.request], move)
    ensures OnlyMain(MoveRequest(s, move))
  {
    var x := s.requests[move.request];
    var y := Moved(x, move).0;
    assert y.thread == x.thread && (InProgress(y) ==> InProgress(x)) && (y.phase.Waiting? ==> x.phase.Waiting?);
  }

  lemma MainSendKeeps(s: State, thread: nat, interrupted: bool, queued: bool)
    requires OnlyMain(s) && MaySend(s, thread) && (interrupted ==> thread == MAIN)
    ensures OnlyMain(Send(s, thread, interrupted, queued))
  {
  }

  lemma MainStepKeeps(s: State, move: Move)
    requires OnlyMain(s) && Enabled(s, move) && ByMain(s, move)
    ensures Free(s, move) && OnlyMain(Apply(s, move))
  {
    match move {
      case Sends(thread) => MainSendKeeps(s, thread, false, true);
      case SendsInterrupted(thread, queued) => MainSendKeeps(s, thread, true, queued);
      case Runs(ends) => MainCallbackKeeps(s, ends);
      case Connects =>
      case Closes =>
      case _ => MainMoveKeeps(s, move);
    }
  }

  lemma {:induction false} MainRunIsFree(s: State, moves: seq<Move>)
    requires OnlyMain(s) && MainRun(s, moves)
    ensures FreeRun(s, moves) && Legal(s, moves) && OnlyMain(Run(s, moves))
    decreases |moves|
  {
    if moves != [] {
      MainStepKeeps(s, moves[0]);
      MainRunIsFree(Apply(s, moves[0]), moves[1..]);
    }
  }

  /** With interrupts in the main thread only, as Python raises them, no send overtakes a cancellation. */
  lemma MainThreadNeverOvertakes(moves: seq<Move>, move: Move, r: nat)
    requires MainRun(Initial(), moves)
    requires Legal(Initial(), moves) && Enabled(Run(Initial(), moves), move)
    requires move.Sends? || move.SendsInterrupted? || move.Closes? || move.Connects?
    requires r < |Run(Initial(), moves).requests| && Run(Initial(), moves).requests[r].interrupted
    ensures var x := Run(Initial(), moves).requests[r]; x.finished && !InProgress(x)
  {
    MainRunIsFree(Initial(), moves);
    NoSendDuringCancellation(moves, move, r);
  }

  /** Two interrupted callers: the first to finish opens the gate for the other. */
  lemma TwoInterruptsOvertake()
    ensures exists moves: seq<Move> :: Legal(Initial(), moves) && var s := Run(Initial(), moves);
      Enabled(s, Sends(2)) && |s.requests| == 2 && s.requests[0].interrupted && !s.requests[0].finished
  {
    var moves := [Connects, Sends(0), Sends(1), Interrupts(0), Interrupts(1), Cancels(1), Settles(1)];
    var s3 := Apply(Apply(Apply(Initial(), Connects), Sends(0)), Sends(1));
    assert s3.requests == [NewRequest(0, false), NewRequest(1, false)];
    InterruptBoth(s3);
    var t := Run(s3, moves[3..]);
    Unfold(Apply(Apply(Initial(), Connects), Sends(0)), moves[2..], t);
    Unfold(Apply(Initial(), Connects), moves[1..], t);
    Unfold(Initial(), moves, t);
  }

  lemma InterruptBoth(s: State)
    requires s.requests == [NewRequest(0, false), NewRequest(1, false)]
    requires s.connected && !s.failed && s.cancellation.None?
    ensures var moves := [Interrupts(0), Interrupts(1), Cancels(1), Settles(1)];
      && Legal(s, moves)
      && var t := Run(s, moves);
      Enabled(t, Sends(2)) && |t.requests| == 2 && t.requests[0].interrupted && !t.requests[0].finished
  {
    var moves := [Interrupts(0), Interrupts(1), Cancels(1), Settles(1)];
    var s2 := Apply(Apply(s, Interrupts(0)), Interrupts(1));
    var s4 := Apply(Apply(s2, Cancels(1)), Settles(1));
    assert Replays(s4, [], s4);
    Unfold(Apply(s2, Cancels(1)), moves[3..], s4);
    Unfold(s2, moves[2..], s4);
    Unfold(Apply(s, Interrupts(0)), moves[1..], s4);
    Unfold(s, moves, s4);
  }

  ghost predicate Replays(s: State, moves: seq<Move>, t: State) {
    Legal(s, moves) && Run(s, moves) == t
  }

  lemma Unfold(s: State, moves: seq<Move>, t: State)
    requires moves != [] && Enabled(s, moves[0]) && Replays(Apply(s, moves[0]), moves[1..], t)
    ensures Replays(s, moves, t)
  {
  }
}
