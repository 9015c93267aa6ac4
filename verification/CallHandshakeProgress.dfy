/**
  What becomes of a connection whose cleanup was given up: when it can still be
  closed, and so used again, by continuations whose interrupts are free, and by
  any continuation at all.
*/
module CallHandshakeProgress {
  import opened Options
  import opened CallHandshake
  import opened CallHandshakeSafety

  // ----- Requests that nothing will finish -----

  /** No task, no start callback to create one, and not finished: only `cancel` can still finish it. */
  predicate Hopeless(kinds: seq<Kind>, x: Request) {
    x.task.NoTask? && !x.finished && Start !in kinds
  }

  /** The published cancellation is hopeless, and its caller is gone. */
  predicate Stranded(s: State, r: nat) {
    r < |s.requests| && Published(s, r) && Hopeless(Of(s.queue, r), s.requests[r]) && s.requests[r].phase.Left?
  }

  /** A call is in progress on an open connection, and only one that was interrupted before its start is hopeless. */
  ghost predicate Served(s: State) {
    forall r: nat :: r < |s.requests| ==>
      && (InProgress(s.requests[r]) ==> s.connected)
      && (Hopeless(Of(s.queue, r), s.requests[r]) ==> s.requests[r].phase in {Interrupted, Left})
  }

  /** The callbacks of another request are none of its business, and its own are appended. */
  lemma RunOf(s: State, ends: Option<Outcome>, r: nat)
    requires Inv(s) && Enabled(s, Runs(ends)) && r < |s.requests|
    ensures var q := s.queue[0].request;
      && (q != r ==> Of(RunNext(s, ends).queue, r) == Of(s.queue, r))
      && (q == r ==> Of(s.queue, r) == [s.queue[0].kind] + Of(s.queue[1..], r)
                     && Of(RunNext(s, ends).queue, r)
                        == Of(s.queue[1..], r) + RunCallback(s.queue[0].kind, s.requests[r], ends).1)
  {
    Dequeue(s);
    var q := s.queue[0].request;
    var (x, posted) := RunCallback(s.queue[0].kind, s.requests[q], ends);
    OfPosted(s.queue[1..], q, posted, r);
    assert q != r ==> [] + Of(s.queue[1..], r) == Of(s.queue[1..], r) == Of(s.queue[1..], r) + [];
  }

  lemma HopelessBeforeCallback(kind: Kind, kinds: seq<Kind>, x: Request, ends: Option<Outcome>)
    requires var (y, posted) := RunCallback(kind, x, ends); Hopeless(kinds + posted, y)
    ensures Hopeless([kind] + kinds, x)
  {
    var posted := RunCallback(kind, x, ends).1;
    assert forall k :: k in [kind] + kinds ==> k == kind || k in kinds;
    assert forall k :: k in kinds ==> k in kinds + posted;
  }

  lemma HopelessBeforeRun(s: State, ends: Option<Outcome>, r: nat)
    requires Inv(s) && Enabled(s, Runs(ends)) && r < |s.requests|
    requires Hopeless(Of(RunNext(s, ends).queue, r), RunNext(s, ends).requests[r])
    ensures Hopeless(Of(s.queue, r), s.requests[r])
  {
    RunOf(s, ends, r);
    if s.queue[0].request == r {
      HopelessBeforeCallback(s.queue[0].kind, Of(s.queue[1..], r), s.requests[r], ends);
    }
  }

  lemma HopelessBeforeMove(s: State, move: Move, r: nat)
    requires Inv(s) && OnRequest(move) && Enabled(s, move) && r < |s.requests|
    requires Hopeless(Of(Apply(s, move).queue, r), Apply(s, move).requests[r])
    ensures Hopeless(Of(s.queue, r), s.requests[r])
  {
    OfPosted(s.queue, move.request, Moved(s.requests[move.request], move).1, r);
  }

  /** No step makes a request hopeless. */
  lemma HopelessBefore(s: State, move: Move, r: nat)
    requires Inv(s) && Enabled(s, move) && r < |s.requests|
    requires Hopeless(Of(Apply(s, move).queue, r), Apply(s, move).requests[r])
    ensures Hopeless(Of(s.queue, r), s.requests[r])
  {
    match move {
      case Sends(_) => OfPosted(s.queue, |s.requests|, [Start], r);
      case SendsInterrupted(_, queued) => OfPosted(s.queue, |s.requests|, if queued then [Start] else [], r);
      case Runs(ends) => HopelessBeforeRun(s, ends, r);
      case Connects =>
      case Closes =>
      case _ => HopelessBeforeMove(s, move, r);
    }
  }

  /** Only an interrupt before the start is queued leaves a new request hopeless. */
  lemma NewIsServed(s: State, thread: nat, interrupted: bool, queued: bool)
    requires Inv(s) && (queued || interrupted)
    ensures var t := Send(s, thread, interrupted, queued); var r := |s.requests|;
      Hopeless(Of(t.queue, r), t.requests[r]) ==> t.requests[r].phase.Interrupted?
  {
    var r := |s.requests|;
    OfUnknown(s.queue, r);
    OfPosted(s.queue, r, if queued then [Start] else [], r);
    assert [] + [Start] == [Start];
  }

  lemma ServedStep(s: State, move: Move)
    requires Inv(s) && Served(s) && Enabled(s, move)
    ensures Served(Apply(s, move))
  {
    var t := Apply(s, move);
    forall r: nat | r < |t.requests|
      ensures InProgress(t.requests[r]) ==> t.connected
      ensures Hopeless(Of(t.queue, r), t.requests[r]) ==> t.requests[r].phase in {Interrupted, Left}
    {
      if r == |s.requests| {
        NewIsServed(s, move.thread, move.SendsInterrupted?, move.Sends? || move.queued);
      } else {
        StepEvolves(s, move, r);
        if Hopeless(Of(t.queue, r), t.requests[r]) {
          HopelessBefore(s, move, r);
        }
      }
    }
  }

  lemma {:induction false} RunServed(s: State, moves: seq<Move>)
    requires Inv(s) && Served(s) && Legal(s, moves)
    ensures Inv(Run(s, moves)) && Served(Run(s, moves))
    decreases |moves|
  {
    if moves != [] {
      StepKeeps(s, moves[0]);
      ServedStep(s, moves[0]);
      RunServed(Apply(s, moves[0]), moves[1..]);
    }
  }

  // ----- Stranded for ever -----

  lemma StrandedRun(s: State, ends: Option<Outcome>, r: nat)
    requires Inv(s) && Stranded(s, r) && Enabled(s, Runs(ends))
    ensures Stranded(RunNext(s, ends), r)
  {
    assert Fits(Of(s.queue, r), s.requests[r]);
    RunOf(s, ends, r);
    if s.queue[0].request == r {
      assert Of(s.queue, r)[0] == s.queue[0].kind;
      assert forall k :: k in Of(s.queue[1..], r) ==> k in Of(s.queue, r);
    }
  }

  lemma StrandedMove(s: State, move: Move, r: nat)
    requires Inv(s) && Guarded(s) && Stranded(s, r) && OnRequest(move) && Enabled(s, move) && Free(s, move)
    ensures Stranded(Apply(s, move), r)
  {
    var x := s.requests[move.request];
    assert Fits(Of(s.queue, r), s.requests[r]) && Owed(s.requests[r]);
    OfPosted(s.queue, move.request, Moved(x, move).1, r);
    assert Fits(Of(s.queue, move.request), x);
    assert !move.Settles? by {
      assert x.phase.Settling? ==> Owed(x);
    }
  }

  lemma StrandedStep(s: State, move: Move, r: nat)
    requires Inv(s) && Guarded(s) && Stranded(s, r) && Enabled(s, move) && Free(s, move)
    ensures Stranded(Apply(s, move), r)
  {
    if move.Runs? {
      StrandedRun(s, move.ends, r);
    } else if OnRequest(move) {
      StrandedMove(s, move, r);
    }
  }

  /** Whatever happens next, short of an interrupt that overwrites the cancellation: no send and no `close`. */
  lemma {:induction false} StrandedForever(s: State, moves: seq<Move>, r: nat)
    requires Inv(s) && Guarded(s) && Stranded(s, r) && FreeRun(s, moves)
    ensures Legal(s, moves) && Stranded(Run(s, moves), r)
    ensures !Enabled(Run(s, moves), Closes) && forall thread :: !Enabled(Run(s, moves), Sends(thread))
    decreases |moves|
  {
    if moves != [] {
      StepKeeps(s, moves[0]);
      GuardedStep(s, moves[0]);
      StrandedStep(s, moves[0], r);
      StrandedForever(Apply(s, moves[0]), moves[1..], r);
    }
  }

  // ----- Calm continuations: callers unwind, tasks return, nothing new begins -----

  predicate CalmMove(move: Move) {
    || move.Returns? || move.Cancels? || move.Posts? || move.Settles? || move.Wakes?
    || move == Runs(Some(Returned))
  }

  ghost predicate Calm(moves: seq<Move>) {
    forall i :: 0 <= i < |moves| ==> CalmMove(moves[i])
  }

  ghost predicate Leads(s: State, t: State) {
    exists moves :: Calm(moves) && Replays(s, moves, t)
  }

  lemma Stays(s: State)
    ensures Leads(s, s)
  {
    assert Calm([]) && Replays(s, [], s);
  }

  lemma {:induction false} ReplaysOn(s: State, moves: seq<Move>, t: State, more: seq<Move>, u: State)
    requires Replays(s, moves, t) && Replays(t, more, u)
    ensures Replays(s, moves + more, u)
    decreases |moves|
  {
    if moves == [] {
      assert moves + more == more;
    } else {
      assert (moves + more)[1..] == moves[1..] + more;
      ReplaysOn(Apply(s, moves[0]), moves[1..], t, more, u);
    }
  }

  lemma LeadsOn(s: State, t: State, u: State)
    requires Leads(s, t) && Leads(t, u)
    ensures Leads(s, u)
  {
    var moves :| Calm(moves) && Replays(s, moves, t);
    var more :| Calm(more) && Replays(t, more, u);
    ReplaysOn(s, moves, t, more, u);
    assert Calm(moves + more);
  }

  /** A state that some run reaches, with an open connection. */
  ghost predicate Open(s: State) {
    Inv(s) && Served(s) && s.connected
  }

  /** On the way to a close: the connection is open, and nothing is stranded. */
  ghost predicate Closable(s: State) {
    Open(s) && forall r: nat :: !Stranded(s, r)
  }

  lemma StrandedBefore(s: State, move: Move, r: nat)
    requires Inv(s) && Served(s) && CalmMove(move) && Enabled(s, move) && Stranded(Apply(s, move), r)
    ensures Stranded(s, r)
  {
    HopelessBefore(s, move, r);
    assert Fits(Of(s.queue, r), s.requests[r]);
  }

  lemma CalmStep(s: State, move: Move)
    requires Open(s) && CalmMove(move) && Enabled(s, move)
    ensures Open(Apply(s, move)) && Leads(s, Apply(s, move))
  {
    StepKeeps(s, move);
    ServedStep(s, move);
    Unfold(s, [move], Apply(s, move));
    assert Calm([move]);
  }

  lemma {:induction false} StrandedAllAlong(s: State, moves: seq<Move>, r: nat)
    requires Open(s) && Calm(moves) && Legal(s, moves) && Stranded(Run(s, moves), r)
    ensures Stranded(s, r)
    decreases |moves|
  {
    if moves != [] {
      assert CalmMove(moves[0]);
      CalmStep(s, moves[0]);
      StrandedAllAlong(Apply(s, moves[0]), moves[1..], r);
      StrandedBefore(s, moves[0], r);
    }
  }

  /** A calm run strands nothing. */
  lemma CalmStrandsNothing(s: State, t: State)
    requires Closable(s) && Leads(s, t)
    ensures forall r: nat :: !Stranded(t, r)
  {
    var moves :| Calm(moves) && Replays(s, moves, t);
    forall r: nat
      ensures !Stranded(t, r)
    {
      if Stranded(t, r) {
        StrandedAllAlong(s, moves, r);
      }
    }
  }

  /** The shared fields are as they were, the same calls are in progress, and the same calls wait. */
  predicate SameCalls(s: State, t: State) {
    && |t.requests| == |s.requests|
    && t.cancellation == s.cancellation && t.failed == s.failed && t.connected == s.connected
    && forall r :: 0 <= r < |s.requests| ==>
         && (InProgress(t.requests[r]) <==> InProgress(s.requests[r]))
         && (t.requests[r].phase.Waiting? <==> s.requests[r].phase.Waiting?)
         && t.requests[r].thread == s.requests[r].thread
         && t.requests[r].interrupted == s.requests[r].interrupted
  }

  /** A step of a cancellation leaves the other requests and the shared fields alone. */
  lemma CleanupFrame(s: State, move: Move)
    requires (move.Cancels? || move.Posts?) && Enabled(s, move)
    ensures SameCalls(s, Apply(s, move))
    ensures forall q :: 0 <= q < |s.requests| && q != move.request ==> Apply(s, move).requests[q] == s.requests[q]
    ensures move.Posts? ==> Apply(s, move).requests[move.request].phase.Settling?
    ensures move.Cancels? ==> Apply(s, move).requests[move.request].phase in {Posting, Settling}
  {
  }

  lemma Postpone(s: State, r: nat) returns (t: State)
    requires Open(s) && r < |s.requests| && !s.requests[r].phase.Interrupted?
    ensures Open(t) && Leads(s, t) && SameCalls(s, t) && t.requests[r].phase in {Waiting, Settling, Left}
    ensures forall q :: 0 <= q < |s.requests| && q != r ==> t.requests[q] == s.requests[q]
  {
    if s.requests[r].phase.Posting? {
      CalmStep(s, Posts(r));
      CleanupFrame(s, Posts(r));
      t := Apply(s, Posts(r));
    } else {
      Stays(s);
      t := s;
    }
  }

  /** A caller in the middle of a cancellation gets to where it waits for it. */
  lemma UnwindOne(s: State, r: nat) returns (t: State)
    requires Open(s) && r < |s.requests|
    ensures Open(t) && Leads(s, t) && SameCalls(s, t) && t.requests[r].phase in {Waiting, Settling, Left}
    ensures forall q :: 0 <= q < |s.requests| && q != r ==> t.requests[q] == s.requests[q]
  {
    if s.requests[r].phase.Interrupted? {
      var u := Apply(s, Cancels(r));
      CalmStep(s, Cancels(r));
      CleanupFrame(s, Cancels(r));
      t := Postpone(u, r);
      LeadsOn(s, u, t);
    } else {
      t := Postpone(s, r);
    }
  }

  lemma {:induction false} Unwound(s: State, k: nat) returns (t: State)
    requires Open(s) && k <= |s.requests|
    ensures Open(t) && Leads(s, t) && SameCalls(s, t)
    ensures forall r :: 0 <= r < k ==> t.requests[r].phase in {Waiting, Settling, Left}
    decreases k
  {
    if k == 0 {
      Stays(s);
      t := s;
    } else {
      var u := Unwound(s, k - 1);
      t := UnwindOne(u, k - 1);
      LeadsOn(s, u, t);
    }
  }

  // ----- The loop drains -----

  /** How many callbacks may still come of a callback, itself included. */
  function Weight(kind: Kind): nat {
    match kind
    case Finish => 1
    case Step => 2
    case Start => 3
    case Cancel => 3
    case CancelAgain => 3
    case Abort => 4
  }

  function Work(queue: seq<Callback>): nat {
    if queue == [] then 0 else Weight(queue[0].kind) + Work(queue[1..])
  }

  lemma {:induction false} WorkOfPosted(queue: seq<Callback>, r: nat, posted: seq<Kind>)
    ensures Work(Posted(queue, r, posted)) == Work(queue) + if posted == [] then 0 else Weight(posted[0])
  {
    if queue == [] {
      assert posted != [] ==> Posted(queue, r, posted)[1..] == [];
    } else if posted == [] {
      assert Posted(queue, r, posted) == queue;
    } else {
      assert Posted(queue, r, posted)[1..] == Posted(queue[1..], r, posted);
      WorkOfPosted(queue[1..], r, posted);
    }
  }

  lemma LessWork(s: State)
    requires Inv(s) && s.queue != []
    ensures Enabled(s, Runs(Some(Returned))) && Work(RunNext(s, Some(Returned)).queue) < Work(s.queue)
  {
    var r := s.queue[0].request;
    assert Known(s.queue, |s.requests|);
    WorkOfPosted(s.queue[1..], r, RunCallback(s.queue[0].kind, s.requests[r], Some(Returned)).1);
  }

  /** The callers stand where they stood. */
  predicate SameCallers(s: State, t: State) {
    SameCalls(s, t) && forall r :: 0 <= r < |s.requests| ==> t.requests[r].phase == s.requests[r].phase
  }

  lemma RunFrame(s: State, ends: Option<Outcome>)
    requires Enabled(s, Runs(ends))
    ensures SameCallers(s, RunNext(s, ends))
  {
    CallbackIsTheLoops(s.queue[0].kind, s.requests[s.queue[0].request], ends);
  }

  /** Every queue runs empty when the tasks return. */
  lemma {:induction false} Drained(s: State) returns (t: State)
    requires Open(s)
    ensures Open(t) && Leads(s, t) && SameCallers(s, t) && t.queue == []
    decreases Work(s.queue)
  {
    if s.queue == [] {
      Stays(s);
      t := s;
    } else {
      var u := Apply(s, Runs(Some(Returned)));
      LessWork(s);
      CalmStep(s, Runs(Some(Returned)));
      RunFrame(s, Some(Returned));
      t := Drained(u);
      LeadsOn(s, u, t);
    }
  }

  /** The same callers, and another state of one request only. */
  predicate SameBut(s: State, t: State, r: nat) {
    SameCallers(s, t) && forall q :: 0 <= q < |s.requests| && q != r ==> t.requests[q] == s.requests[q]
  }

  lemma WakesOne(s: State, r: nat)
    requires s.queue == [] && Enabled(s, Wakes(r))
    ensures var t := Apply(s, Wakes(r));
      SameBut(s, t, r) && t.queue == [Callback(r, Step)] && t.requests[r].task.Live?
  {
  }

  /** The step of a task that returns, and then its done callback. */
  lemma RunsOne(s: State, r: nat, kind: Kind)
    requires s.queue == [Callback(r, kind)] && r < |s.requests|
    requires (kind == Step && s.requests[r].task.Live?) || (kind == Finish && s.requests[r].task.Done?)
    ensures var t := RunNext(s, Some(Returned));
      && SameBut(s, t, r) && t.requests[r].task.Done?
      && t.queue == if kind == Step then [Callback(r, Finish)] else []
  {
    RunFrame(s, Some(Returned));
    assert s.queue[1..] == [];
  }

  lemma WokenCalmly(s: State, r: nat) returns (t: State)
    requires Open(s) && s.queue == [] && r < |s.requests| && s.requests[r].task.Live?
    ensures Open(t) && Leads(s, t) && SameBut(s, t, r)
    ensures t.queue == [Callback(r, Step)] && t.requests[r].task.Live?
  {
    assert Fits(Of(s.queue, r), s.requests[r]);
    CalmStep(s, Wakes(r));
    WakesOne(s, r);
    t := Apply(s, Wakes(r));
  }

  lemma RunsCalmly(s: State, r: nat, kind: Kind) returns (t: State)
    requires Open(s) && s.queue == [Callback(r, kind)] && r < |s.requests|
    requires (kind == Step && s.requests[r].task.Live?) || (kind == Finish && s.requests[r].task.Done?)
    ensures Open(t) && Leads(s, t) && SameBut(s, t, r) && t.requests[r].task.Done?
    ensures t.queue == if kind == Step then [Callback(r, Finish)] else []
  {
    CalmStep(s, Runs(Some(Returned)));
    RunsOne(s, r, kind);
    t := Apply(s, Runs(Some(Returned)));
  }

  /** A task that waits is woken and returns, and its request is finished. */
  lemma Retired(s: State, r: nat) returns (t: State)
    requires Open(s) && s.queue == [] && r < |s.requests| && s.requests[r].task.Live?
    ensures Open(t) && Leads(s, t) && SameBut(s, t, r) && t.queue == [] && t.requests[r].task.Done?
  {
    var s1 := WokenCalmly(s, r);
    var s2 := RunsCalmly(s1, r, Step);
    t := RunsCalmly(s2, r, Finish);
    LeadsOn(s, s1, s2);
    LeadsOn(s, s2, t);
  }

  lemma {:induction false} AllRetired(s: State, k: nat) returns (t: State)
    requires Open(s) && s.queue == [] && k <= |s.requests|
    ensures Open(t) && Leads(s, t) && SameCallers(s, t) && t.queue == []
    ensures forall r :: 0 <= r < k ==> !t.requests[r].task.Live?
    decreases k
  {
    if k == 0 {
      Stays(s);
      t := s;
    } else {
      t := AllRetired(s, k - 1);
      if t.requests[k - 1].task.Live? {
        var u := Retired(t, k - 1);
        LeadsOn(s, t, u);
        t := u;
      }
    }
  }

  /** An idle loop has finished every request but the hopeless ones. */
  lemma FinishedWhenIdle(s: State, r: nat)
    requires Open(s) && s.queue == [] && r < |s.requests| && !s.requests[r].task.Live?
    ensures s.requests[r].finished || Hopeless(Of(s.queue, r), s.requests[r])
    ensures s.requests[r].finished ==> !s.requests[r].future.Pending?
  {
    assert Fits(Of(s.queue, r), s.requests[r]);
  }

  /** Nothing runs, and every caller waits or has left. */
  ghost predicate Idle(s: State) {
    && s.queue == []
    && forall r :: 0 <= r < |s.requests| ==>
         !s.requests[r].task.Live? && s.requests[r].phase in {Waiting, Settling, Left}
  }

  lemma LeavingFrame(s: State, move: Move)
    requires Idle(s) && (move.Returns? || move.Settles?) && Enabled(s, move)
    ensures var t := Apply(s, move);
      && Idle(t) && |t.requests| == |s.requests| && t.failed == s.failed && t.connected == s.connected
      && !InProgress(t.requests[move.request]) && (move.Settles? ==> t.cancellation.None?)
      && forall q :: 0 <= q < |s.requests| && q != move.request ==> t.requests[q] == s.requests[q]
  {
  }

  /** When all is idle, a caller can return or settle. */
  lemma MayLeave(s: State, r: nat)
    requires Open(s) && Idle(s) && r < |s.requests| && InProgress(s.requests[r])
    ensures Enabled(s, if s.requests[r].phase.Waiting? then Returns(r) else Settles(r))
  {
    FinishedWhenIdle(s, r);
  }

  lemma LeaveOne(s: State, r: nat) returns (t: State)
    requires Open(s) && Idle(s) && r < |s.requests| && InProgress(s.requests[r])
    ensures Open(t) && Idle(t) && Leads(s, t) && |t.requests| == |s.requests| && !InProgress(t.requests[r])
    ensures forall q :: 0 <= q < |s.requests| && q != r ==> t.requests[q] == s.requests[q]
    ensures t.failed == s.failed && t.connected == s.connected
    ensures s.requests[r].phase.Settling? ==> t.cancellation.None?
  {
    var move := if s.requests[r].phase.Waiting? then Returns(r) else Settles(r);
    MayLeave(s, r);
    CalmStep(s, move);
    LeavingFrame(s, move);
    t := Apply(s, move);
  }

  lemma {:induction false} AllLeft(s: State, k: nat) returns (t: State)
    requires Open(s) && Idle(s) && k <= |s.requests|
    ensures Open(t) && Idle(t) && Leads(s, t) && |t.requests| == |s.requests|
    ensures forall r :: 0 <= r < k ==> !InProgress(t.requests[r])
    decreases k
  {
    if k == 0 {
      Stays(s);
      t := s;
    } else {
      t := AllLeft(s, k - 1);
      if InProgress(t.requests[k - 1]) {
        var u := LeaveOne(t, k - 1);
        LeadsOn(s, t, u);
        t := u;
      }
    }
  }

  /** Callers unwind, the loop drains, and the tasks return. */
  lemma CalmsDown(s: State) returns (t: State)
    requires Open(s)
    ensures Leads(s, t) && Open(t) && Idle(t) && SameCalls(s, t)
  {
    var n := |s.requests|;
    var s1 := Unwound(s, n);
    var s2 := Drained(s1);
    t := AllRetired(s2, n);
    LeadsOn(s, s1, s2);
    LeadsOn(s, s2, t);
  }

  /**
    From every open state without a stranded request, `close` completes at the end
    of a calm run, and the connection is then as good as new for every thread.
  */
  lemma CalmsToClose(s: State) returns (t: State)
    requires Closable(s)
    ensures Leads(s, t) && Enabled(t, Closes) && Enabled(Apply(t, Closes), Connects)
    ensures forall thread :: Enabled(Apply(Apply(t, Closes), Connects), Sends(thread))
  {
    var u := CalmsDown(s);
    t := AllLeft(u, |s.requests|);
    LeadsOn(s, u, t);
    CalmStrandsNothing(s, t);
    if t.cancellation.Some? {
      FinishedWhenIdle(t, t.cancellation.value);
      assert !Stranded(t, t.cancellation.value);
    }
  }

  // ----- When giving up strands the connection -----

  lemma {:induction false} CalmIsFree(s: State, moves: seq<Move>)
    requires Calm(moves) && Legal(s, moves)
    ensures FreeRun(s, moves) && MainRun(s, moves)
    decreases |moves|
  {
    if moves != [] {
      assert CalmMove(moves[0]);
      CalmIsFree(Apply(s, moves[0]), moves[1..]);
    }
  }

  /** Some free continuation lets `close` complete. */
  ghost predicate CanClose(s: State) {
    exists later :: FreeRun(s, later) && Legal(s, later) && Enabled(Run(s, later), Closes)
  }

  /** A free continuation of a guarded state closes an open connection if and only if no request is stranded. */
  lemma ClosesExactlyUnlessStranded(s: State)
    requires Inv(s) && Served(s) && Guarded(s) && s.connected
    ensures CanClose(s) <==> forall r: nat :: !Stranded(s, r)
  {
    if r: nat :| Stranded(s, r) {
      forall later | FreeRun(s, later)
        ensures Legal(s, later) && !Enabled(Run(s, later), Closes)
      {
        StrandedForever(s, later, r);
      }
    } else {
      CalmCloses(s);
    }
  }

  /** Giving up strands a request exactly when it has no task, no start callback, and was not cancelled in time. */
  lemma GivingUpStrands(s: State, r: nat)
    requires Inv(s) && Guarded(s) && Enabled(s, GivesUp(r))
    ensures Stranded(Apply(s, GivesUp(r)), r) <==> Hopeless(Of(s.queue, r), s.requests[r])
    ensures forall q: nat :: Stranded(Apply(s, GivesUp(r)), q) ==> q == r
  {
    assert Fits(Of(s.queue, r), s.requests[r]) && Owed(s.requests[r]);
    OfPosted(s.queue, r, [Abort], r);
  }

  lemma FromInitial(moves: seq<Move>)
    requires FreeRun(Initial(), moves)
    ensures Legal(Initial(), moves)
    ensures var s := Run(Initial(), moves); Inv(s) && Served(s) && Guarded(s)
  {
    InitialInv();
    FreeRunKeeps(Initial(), moves);
    RunServed(Initial(), moves);
  }

  lemma AbandonedIsClosable(moves: seq<Move>, r: nat)
    requires FreeRun(Initial(), moves) && Legal(Initial(), moves)
    requires Enabled(Run(Initial(), moves), GivesUp(r))
    ensures var s := Run(Initial(), moves); var t := Apply(s, GivesUp(r));
      && Inv(t) && Served(t) && Guarded(t) && t.connected
      && (Stranded(t, r) <==> Hopeless(Of(s.queue, r), s.requests[r]))
      && (Closable(t) <==> !Stranded(t, r))
  {
    FromInitial(moves);
    var s := Run(Initial(), moves);
    StepKeeps(s, GivesUp(r));
    ServedStep(s, GivesUp(r));
    GuardedStep(s, GivesUp(r));
    GivingUpStrands(s, r);
  }

  /**
    In every state that a free run reaches: after a cleanup is given up, some free
    continuation lets `close` complete, unless the interrupt came before the start
    callback was queued and the next one before the request was cancelled. Then
    no free continuation does, and none admits a send.
  */
  lemma AbandonedCleanupCloses(moves: seq<Move>, r: nat)
    requires FreeRun(Initial(), moves) && Legal(Initial(), moves)
    requires Enabled(Run(Initial(), moves), GivesUp(r))
    ensures var s := Run(Initial(), moves); var t := Apply(s, GivesUp(r));
      && (CanClose(t) <==> !Hopeless(Of(s.queue, r), s.requests[r]))
      && (Hopeless(Of(s.queue, r), s.requests[r]) ==> s.requests[r].phase.Interrupted?)
      && (!CanClose(t) ==>
            forall later, thread :: FreeRun(t, later) && Legal(t, later) ==> !Enabled(Run(t, later), Sends(thread)))
  {
    FromInitial(moves);
    AbandonedIsClosable(moves, r);
    var t := Apply(Run(Initial(), moves), GivesUp(r));
    ClosesExactlyUnlessStranded(t);
    if Stranded(t, r) {
      forall later | FreeRun(t, later) && Legal(t, later)
        ensures forall thread :: !Enabled(Run(t, later), Sends(thread))
      {
        StrandedForever(t, later, r);
      }
    }
  }

  ghost predicate CanCloseByMain(s: State) {
    exists later :: MainRun(s, later) && Legal(s, later) && Enabled(Run(s, later), Closes)
  }

  lemma CalmCloses(s: State)
    requires Closable(s)
    ensures CanClose(s) && CanCloseByMain(s)
  {
    var t := CalmsToClose(s);
    var later :| Calm(later) && Replays(s, later, t);
    CalmIsFree(s, later);
  }

  lemma ByMainIsFree(s: State)
    requires OnlyMain(s) && CanCloseByMain(s)
    ensures CanClose(s)
  {
    var later :| MainRun(s, later) && Legal(s, later) && Enabled(Run(s, later), Closes);
    MainRunIsFree(s, later);
  }

  /** The same where interrupts reach the main thread only. */
  lemma MainThreadCleanupCloses(moves: seq<Move>, r: nat)
    requires MainRun(Initial(), moves) && Legal(Initial(), moves)
    requires Enabled(Run(Initial(), moves), GivesUp(r))
    ensures var s := Run(Initial(), moves);
      CanCloseByMain(Apply(s, GivesUp(r))) <==> !Hopeless(Of(s.queue, r), s.requests[r])
  {
    MainRunIsFree(Initial(), moves);
    AbandonedCleanupCloses(moves, r);
    AbandonedIsClosable(moves, r);
    var s := Run(Initial(), moves);
    var t := Apply(s, GivesUp(r));
    MainStepKeeps(s, GivesUp(r));
    if CanClose(t) {
      CalmCloses(t);
    } else if CanCloseByMain(t) {
      ByMainIsFree(t);
    }
  }

  function StrandingMoves(): seq<Move> {
    [Connects, SendsInterrupted(MAIN, false), GivesUp(0)]
  }

  /** Two interrupts in a row are enough: one before the start is queued, and one before the request is cancelled. */
  lemma InterruptsBeforeStartAndCancelStrand()
    ensures MainRun(Initial(), StrandingMoves()) && Legal(Initial(), StrandingMoves())
    ensures !CanClose(Run(Initial(), StrandingMoves()))
  {
    var first := StrandingMoves()[..2];
    var s1 := Apply(Initial(), Connects);
    var s2 := Apply(s1, SendsInterrupted(MAIN, false));
    var s3 := Apply(s2, GivesUp(0));
    assert Replays(s3, [], s3) && MainRun(s3, []) && Replays(s2, [], s2) && FreeRun(s2, []);
    Unfold(s2, StrandingMoves()[2..], s3);
    assert MainRun(s2, StrandingMoves()[2..]);
    Unfold(s1, StrandingMoves()[1..], s3);
    assert MainRun(s1, StrandingMoves()[1..]);
    Unfold(Initial(), StrandingMoves(), s3);
    Unfold(s1, first[1..], s2);
    assert FreeRun(s1, first[1..]);
    Unfold(Initial(), first, s2);
    AbandonedCleanupCloses(first, 0);
  }

  // ----- Any continuation at all -----

  predicate NoneInProgress(s: State) {
    forall r :: 0 <= r < |s.requests| ==> !InProgress(s.requests[r])
  }

  /** Some continuation, whatever it interrupts, lets `close` complete. */
  ghost predicate CanEverClose(s: State) {
    exists later :: Legal(s, later) && Enabled(Run(s, later), Closes)
  }

  /** With no call in progress nobody is left to withdraw or overwrite the cancellation. */
  lemma DeadStep(s: State, move: Move, r: nat)
    requires Inv(s) && Stranded(s, r) && NoneInProgress(s) && Enabled(s, move)
    ensures Stranded(Apply(s, move), r) && NoneInProgress(Apply(s, move))
  {
    if move.Runs? {
      StrandedRun(s, move.ends, r);
      RunFrame(s, move.ends);
    } else {
      assert move.Wakes?;
      OfPosted(s.queue, move.request, [Step], r);
    }
  }

  lemma {:induction false} DeadForever(s: State, moves: seq<Move>, r: nat)
    requires Inv(s) && Stranded(s, r) && NoneInProgress(s) && Legal(s, moves)
    ensures !Enabled(Run(s, moves), Closes) && forall thread :: !Enabled(Run(s, moves), Sends(thread))
    decreases |moves|
  {
    if moves != [] {
      StepKeeps(s, moves[0]);
      DeadStep(s, moves[0], r);
      DeadForever(Apply(s, moves[0]), moves[1..], r);
    }
  }

  lemma LedToClose(s: State, t: State)
    requires Leads(s, t) && CanEverClose(t)
    ensures CanEverClose(s)
  {
    var moves :| Calm(moves) && Replays(s, moves, t);
    var later :| Legal(t, later) && Enabled(Run(t, later), Closes);
    ReplaysOn(s, moves, t, later, Run(t, later));
  }

  lemma MovedToClose(s: State, move: Move)
    requires Enabled(s, move) && CanEverClose(Apply(s, move))
    ensures CanEverClose(s)
  {
    var later :| Legal(Apply(s, move), later) && Enabled(Run(Apply(s, move), later), Closes);
    Unfold(s, [move] + later, Run(Apply(s, move), later));
  }

  /** A call in progress can still overwrite a stranded cancellation, or withdraw it. */
  lemma Rescued(s: State, q: nat)
    requires Open(s) && q < |s.requests| && InProgress(s.requests[q])
    ensures CanEverClose(s)
  {
    if s.requests[q].phase.Waiting? {
      InterruptedIsClosable(s, q);
      CalmCloses(Apply(s, Interrupts(q)));
      MovedToClose(s, Interrupts(q));
    } else {
      var u := CalmsDown(s);
      var t := LeaveOne(u, q);
      LeadsOn(s, u, t);
      CalmCloses(t);
      LedToClose(s, t);
    }
  }

  /**
    The exact condition over all continuations: an open connection can still be
    closed if and only if no request is stranded or some call is in progress.
  */
  lemma CanEverCloseExactlyWhen(s: State)
    requires Open(s)
    ensures CanEverClose(s) <==> (forall r: nat :: !Stranded(s, r)) || !NoneInProgress(s)
  {
    if q :| 0 <= q < |s.requests| && InProgress(s.requests[q]) {
      Rescued(s, q);
    } else if r: nat :| Stranded(s, r) {
      forall later | Legal(s, later)
        ensures !Enabled(Run(s, later), Closes)
      {
        DeadForever(s, later, r);
      }
    } else {
      CalmCloses(s);
    }
  }

  /** The published request, which is the one given up unless another interrupt overwrote it, is hopeless. */
  predicate PublishedIsHopeless(s: State) {
    s.cancellation.Some? && s.cancellation.value < |s.requests|
    && Hopeless(Of(s.queue, s.cancellation.value), s.requests[s.cancellation.value])
  }

  predicate OnlyCall(s: State, r: nat) {
    forall q :: 0 <= q < |s.requests| && q != r ==> !InProgress(s.requests[q])
  }

  lemma LastCallStrands(s: State, r: nat)
    requires Inv(s) && Enabled(s, GivesUp(r)) && OnlyCall(s, r)
    ensures var t := Apply(s, GivesUp(r));
      NoneInProgress(t) && (PublishedIsHopeless(s) <==> exists q: nat :: Stranded(t, q))
  {
    var t := Apply(s, GivesUp(r));
    if s.cancellation.Some? {
      var c := s.cancellation.value;
      OfPosted(s.queue, r, [Abort], c);
      assert PublishedIsHopeless(s) ==> Stranded(t, c);
    }
  }

  /**
    In every reachable state, whichever threads were interrupted: giving up ends
    the connection for good, for `close` as for sends, if and only if it was the
    only call in progress and the published request is hopeless.
  */
  lemma GivingUpEndsConnection(moves: seq<Move>, r: nat)
    requires Legal(Initial(), moves) && Enabled(Run(Initial(), moves), GivesUp(r))
    ensures var s := Run(Initial(), moves); var t := Apply(s, GivesUp(r));
      && (CanEverClose(t) <==> !(OnlyCall(s, r) && PublishedIsHopeless(s)))
      && (!CanEverClose(t) ==> forall later, thread :: Legal(t, later) ==> !Enabled(Run(t, later), Sends(thread)))
  {
    InitialInv();
    RunServed(Initial(), moves);
    var s := Run(Initial(), moves);
    var t := Apply(s, GivesUp(r));
    StepKeeps(s, GivesUp(r));
    ServedStep(s, GivesUp(r));
    CanEverCloseExactlyWhen(t);
    if OnlyCall(s, r) {
      LastCallStrands(s, r);
      if q: nat :| Stranded(t, q) {
        forall later | Legal(t, later)
          ensures forall thread :: !Enabled(Run(t, later), Sends(thread))
        {
          DeadForever(t, later, q);
        }
      }
    } else {
      var q :| 0 <= q < |s.requests| && q != r && InProgress(s.requests[q]);
      assert t.requests[q] == s.requests[q];
    }
  }

  // ----- When a send overtakes a cancellation -----

  /** An unfinished cancellation whose caller is gone has failed the connection. */
  ghost predicate Failing(s: State) {
    forall r: nat :: r < |s.requests| && Owed(s.requests[r]) && s.requests[r].phase.Left? ==> s.failed
  }

  lemma FailingCallback(s: State, ends: Option<Outcome>)
    requires Failing(s) && s.queue != [] && s.queue[0].request < |s.requests|
    ensures Failing(RunNext(s, ends))
  {
    CallbackIsTheLoops(s.queue[0].kind, s.requests[s.queue[0].request], ends);
  }

  lemma FailingStep(s: State, move: Move)
    requires Inv(s) && Guarded(s) && Failing(s) && Enabled(s, move)
    ensures Failing(Apply(s, move))
  {
    if move.Runs? {
      FailingCallback(s, move.ends);
    } else if OnRequest(move) {
      assert Fits(Of(s.queue, move.request), s.requests[move.request]);
    }
  }

  lemma {:induction false} FreeRunFails(s: State, moves: seq<Move>)
    requires Inv(s) && Guarded(s) && Failing(s) && FreeRun(s, moves)
    ensures Legal(s, moves) && Failing(Run(s, moves))
    decreases |moves|
  {
    if moves != [] {
      StepKeeps(s, moves[0]);
      GuardedStep(s, moves[0]);
      FailingStep(s, moves[0]);
      FreeRunFails(Apply(s, moves[0]), moves[1..]);
    }
  }

  /** A thread that is in no call. */
  lemma FreshThread(requests: seq<Request>) returns (thread: nat)
    ensures forall r :: 0 <= r < |requests| ==> requests[r].thread < thread
  {
    thread := 0;
    for k := 0 to |requests|
      invariant forall r :: 0 <= r < k ==> requests[r].thread < thread
    {
      if thread <= requests[k].thread {
        thread := requests[k].thread + 1;
      }
    }
  }

  /** Some continuation of free interrupts admits a send while an interrupted request is still owed. */
  ghost predicate CanOvertake(s: State) {
    exists later, thread, q: nat ::
      && FreeRun(s, later) && Legal(s, later) && Enabled(Run(s, later), Sends(thread))
      && q < |Run(s, later).requests| && Owed(Run(s, later).requests[q])
  }

  lemma InterruptedIsClosable(s: State, r: nat)
    requires Inv(s) && Served(s) && Enabled(s, Interrupts(r))
    ensures Closable(Apply(s, Interrupts(r)))
  {
    StepKeeps(s, Interrupts(r));
    ServedStep(s, Interrupts(r));
  }

  /** The interrupted caller settles first and opens the gate, with another caller still in its cleanup. */
  lemma SettlesFirst(s: State, r: nat, c: nat) returns (t: State)
    requires Closable(s) && !s.failed && r < |s.requests| && s.requests[r].phase.Interrupted?
    requires c < |s.requests| && c != r && InProgress(s.requests[c]) && s.requests[c].interrupted
    ensures Leads(s, t) && c < |t.requests| && Owed(t.requests[c])
    ensures exists thread :: Enabled(t, Sends(thread))
  {
    var u := CalmsDown(s);
    t := LeaveOne(u, r);
    LeadsOn(s, u, t);
    var thread := FreshThread(t.requests);
    assert Enabled(t, Sends(thread));
  }

  lemma FreeIsSafe(s: State, r: nat)
    requires Inv(s) && Guarded(s) && Enabled(s, Interrupts(r)) && Free(s, Interrupts(r))
    ensures !CanOvertake(Apply(s, Interrupts(r)))
  {
    var t := Apply(s, Interrupts(r));
    StepKeeps(s, Interrupts(r));
    GuardedStep(s, Interrupts(r));
    forall later | FreeRun(t, later)
      ensures Legal(t, later) && Guarded(Run(t, later))
    {
      FreeRunKeeps(t, later);
    }
  }

  lemma OverwritingOvertakes(s: State, r: nat)
    requires Inv(s) && Served(s) && Failing(s) && !s.failed
    requires Enabled(s, Interrupts(r)) && !Free(s, Interrupts(r))
    ensures CanOvertake(Apply(s, Interrupts(r)))
  {
    var t := Apply(s, Interrupts(r));
    var c := s.cancellation.value;
    assert Fits(Of(s.queue, r), s.requests[r]);
    InterruptedIsClosable(s, r);
    var u := SettlesFirst(t, r, c);
    var later :| Calm(later) && Replays(t, later, u);
    CalmIsFree(t, later);
  }

  /**
    The exact condition, over all states that a free run reaches with a connection
    that has not failed: after an interrupt, some continuation whose own interrupts
    are free admits a send while an interrupted request is still owed, if and only
    if that interrupt was not free.
  */
  lemma OvertakenExactlyUnlessFree(moves: seq<Move>, r: nat)
    requires FreeRun(Initial(), moves) && Legal(Initial(), moves)
    requires Enabled(Run(Initial(), moves), Interrupts(r)) && !Run(Initial(), moves).failed
    ensures var s := Run(Initial(), moves);
      CanOvertake(Apply(s, Interrupts(r))) <==> !Free(s, Interrupts(r))
  {
    FromInitial(moves);
    FreeRunFails(Initial(), moves);
    var s := Run(Initial(), moves);
    if Free(s, Interrupts(r)) {
      FreeIsSafe(s, r);
    } else {
      OverwritingOvertakes(s, r);
    }
  }
}
