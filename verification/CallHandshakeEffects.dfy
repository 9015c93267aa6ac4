/**
  What each step of the handshake does, told by the fields that it changes, and
  what a send that nobody interrupts comes to: the outcome of its task.
*/
module CallHandshakeEffects {
  import opened Options
  import opened CallHandshake
  import opened CallHandshakeSafety
  import opened CallHandshakeProgress

  // ----- The caller's steps -----

  /** The request `r` becomes `x`, at most one callback is queued, and nothing else changes. */
  predicate OnlyRequest(s: State, t: State, r: nat, x: Request, posted: seq<Kind>) {
    && r < |s.requests| && t.requests == s.requests[r := x] && t.connected == s.connected
    && t.queue == s.queue + seq(|posted|, i requires 0 <= i < |posted| => Callback(r, posted[i]))
  }

  /** A send queues its start; an interrupt that is already there publishes the request, whether or not it was queued. */
  lemma SendDecides(s: State, thread: nat, queued: bool)
    requires MaySend(s, thread)
    ensures var r := |s.requests|; var t := Apply(s, Sends(thread)); var u := Apply(s, SendsInterrupted(thread, queued));
      && t == s.(requests := t.requests, queue := s.queue + [Callback(r, Start)])
      && t.requests == s.requests + [Request(thread, Pending, false, NoTask, Waiting, false)]
      && u == s.(requests := u.requests, queue := u.queue, cancellation := Some(r))
      && u.requests == s.requests + [Request(thread, Pending, false, NoTask, Interrupted, true)]
      && u.queue == if queued then s.queue + [Callback(r, Start)] else s.queue
  {
  }

  /** A thread may send while the connection is open and sound, no cancellation is published, and it is in no other send. */
  lemma SendsExactlyWhen(s: State, thread: nat, queued: bool)
    ensures Enabled(s, Sends(thread)) <==>
      && s.connected && !s.failed && s.cancellation.None?
      && forall r :: 0 <= r < |s.requests| && s.requests[r].thread == thread ==> s.requests[r].phase.Left?
    ensures Enabled(s, SendsInterrupted(thread, queued)) <==> Enabled(s, Sends(thread))
  {
  }

  /** What a caller does before it cancels: it waits, is interrupted, or gets its result. */
  lemma WaitDecides(s: State, r: nat)
    ensures Enabled(s, Interrupts(r)) <==> r < |s.requests| && s.requests[r].phase.Waiting?
    ensures Enabled(s, Interrupts(r)) ==> var t := Apply(s, Interrupts(r));
      && OnlyRequest(s, t, r, s.requests[r].(phase := Interrupted, interrupted := true), [])
      && t.cancellation == Some(r) && t.failed == s.failed
    ensures Enabled(s, Returns(r)) <==>
      r < |s.requests| && s.requests[r].phase.Waiting? && !s.requests[r].future.Pending?
    ensures Enabled(s, Returns(r)) ==> var t := Apply(s, Returns(r));
      && OnlyRequest(s, t, r, s.requests[r].(phase := Left), [])
      && t.cancellation == s.cancellation && t.failed == s.failed
  {
  }

  /**
    Cancelling resolves a pending future under the lock. A request without a task
    is finished there and then; otherwise the cancellation of its task is queued next.
  */
  lemma CancelDecides(s: State, r: nat)
    ensures Enabled(s, Cancels(r)) <==> r < |s.requests| && s.requests[r].phase.Interrupted?
    ensures Enabled(s, Cancels(r)) ==> var t := Apply(s, Cancels(r)); var x := s.requests[r];
      && OnlyRequest(s, t, r, x.(future := if x.future.Pending? then Cancelled else x.future,
           finished := x.finished || x.task.NoTask?, phase := if x.task.NoTask? then Settling else Posting), [])
      && t.cancellation == s.cancellation && t.failed == s.failed
    ensures Enabled(s, Posts(r)) <==> r < |s.requests| && s.requests[r].phase.Posting?
    ensures Enabled(s, Posts(r)) ==> var t := Apply(s, Posts(r));
      && OnlyRequest(s, t, r, s.requests[r].(phase := Settling), [Cancel])
      && t.cancellation == s.cancellation && t.failed == s.failed
  {
  }

  /** A finished cleanup withdraws the cancellation; one that is given up fails the connection and queues the abort. */
  lemma CleanupDecides(s: State, r: nat)
    ensures Enabled(s, Settles(r)) <==> r < |s.requests| && s.requests[r].phase.Settling? && s.requests[r].finished
    ensures Enabled(s, Settles(r)) ==> var t := Apply(s, Settles(r));
      && OnlyRequest(s, t, r, s.requests[r].(phase := Left), []) && t.cancellation.None? && t.failed == s.failed
    ensures Enabled(s, GivesUp(r)) <==>
      r < |s.requests| && !s.requests[r].phase.Waiting? && !s.requests[r].phase.Left?
    ensures Enabled(s, GivesUp(r)) ==> var t := Apply(s, GivesUp(r));
      && OnlyRequest(s, t, r, s.requests[r].(phase := Left), [Abort])
      && t.cancellation == s.cancellation && t.failed
  {
  }

  /** A wake queues the step of a waiting task. */
  lemma WakeDecides(s: State, r: nat)
    ensures Enabled(s, Wakes(r)) <==> r < |s.requests| && s.requests[r].task.Live? && !s.requests[r].task.stepQueued
    ensures Enabled(s, Wakes(r)) ==> var t := Apply(s, Wakes(r));
      && OnlyRequest(s, t, r, s.requests[r].(task := s.requests[r].task.(stepQueued := true)), [Step])
      && t.cancellation == s.cancellation && t.failed == s.failed
  {
  }

  /**
    Connecting opens the connection, and closing resets it, once no send is in
    progress, what is published has finished, and the loop has nothing left to do.
  */
  lemma ConnectionDecides(s: State)
    ensures Enabled(s, Connects) <==> !s.failed && s.cancellation.None? && !s.connected
    ensures Enabled(s, Connects) ==> Apply(s, Connects) == s.(connected := true)
    ensures Enabled(s, Closes) <==>
      && s.connected && s.queue == []
      && (forall r :: 0 <= r < |s.requests| ==> s.requests[r].phase.Left? && !s.requests[r].task.Live?)
      && (s.cancellation.Some? ==> s.cancellation.value < |s.requests| && s.requests[s.cancellation.value].finished)
    ensures Enabled(s, Closes) ==>
      Apply(s, Closes) == s.(connected := false, cancellation := None, failed := false)
  {
  }

  // ----- The callbacks of the loop -----

  /** What the oldest callback makes of its request, and what it queues behind all others. */
  predicate Does(s: State, ends: Option<Outcome>, x: Request, posted: seq<Kind>)
    requires s.queue != [] && s.queue[0].request < |s.requests|
  {
    OnlyRequest(s.(queue := s.queue[1..]), Apply(s, Runs(ends)), s.queue[0].request, x, posted)
  }

  /** The start creates a task, unless the future was cancelled; then the request is finished without one. */
  lemma StartDecides(s: State, ends: Option<Outcome>)
    requires Enabled(s, Runs(ends)) && s.queue[0].kind == Start
    ensures var x := s.requests[s.queue[0].request];
      if x.future.Cancelled? then Does(s, ends, x.(finished := true), [])
      else Does(s, ends, x.(task := Live(true, false, false)), [Step])
  {
  }

  /** A task that is cancelled before it starts does not start; otherwise it waits again, or ends as it likes. */
  lemma StepDecides(s: State, ends: Option<Outcome>)
    requires Inv(s) && Enabled(s, Runs(ends)) && s.queue[0].kind == Step
    ensures var x := s.requests[s.queue[0].request];
      && x.task.Live?
      && if !x.task.started && (x.task.cancelPending || x.future.Cancelled?) then
           Does(s, ends, x.(task := Done(WasCancelled)), [Finish])
         else if ends.None? then Does(s, ends, x.(task := Live(false, false, true)), [])
         else Does(s, ends, x.(task := Done(ends.value)), [Finish])
  {
    HeadIn(s);
  }

  lemma HeadIn(s: State)
    requires Inv(s) && s.queue != []
    ensures s.queue[0].request < |s.requests|
    ensures s.queue[0].kind in Of(s.queue, s.queue[0].request)
    ensures Fits(Of(s.queue, s.queue[0].request), s.requests[s.queue[0].request])
  {
    Dequeue(s);
    assert Of(s.queue, s.queue[0].request)[0] == s.queue[0].kind;
  }

  /**
    The done callback gives a future that is still pending the outcome of the
    task, leaves one that was cancelled alone, and finishes the request.
  */
  lemma FinishDecides(s: State, ends: Option<Outcome>)
    requires Inv(s) && Enabled(s, Runs(ends)) && s.queue[0].kind == Finish
    ensures var x := s.requests[s.queue[0].request];
      && x.task.Done? && !x.finished && (x.future.Pending? || x.future.Cancelled?)
      && (x.future.Cancelled? || x.task.outcome.WasCancelled? ==>
            Does(s, ends, x.(future := Cancelled, finished := true), []))
      && (x.future.Pending? && x.task.outcome.Returned? ==> Does(s, ends, x.(future := Result, finished := true), []))
      && (x.future.Pending? && x.task.outcome.Raised? ==> Does(s, ends, x.(future := Failure, finished := true), []))
  {
    HeadIn(s);
  }

  /** A cancellation reaches every task that has not ended: it wakes a waiting one, and its next step delivers it. */
  lemma CancellationDecides(s: State, ends: Option<Outcome>)
    requires Enabled(s, Runs(ends)) && (s.queue[0].kind == Cancel || s.queue[0].kind == CancelAgain)
    ensures var x := s.requests[s.queue[0].request];
      if x.task.Live? then
        Does(s, ends, x.(task := Live(true, true, x.task.started)), if x.task.stepQueued then [] else [Step])
      else Does(s, ends, x, [])
  {
  }

  /** An abort queues one more cancellation, behind whatever the first one woke. */
  lemma AbortDecides(s: State, ends: Option<Outcome>)
    requires Enabled(s, Runs(ends)) && s.queue[0].kind == Abort
    ensures Does(s, ends, s.requests[s.queue[0].request], [CancelAgain])
  {
    assert s.requests[s.queue[0].request := s.requests[s.queue[0].request]] == s.requests;
  }

  // ----- A send that nobody interrupts -----

  /** A request that was never interrupted: nothing cancels it, and it ends with the outcome of its task. */
  predicate Undisturbed(kinds: seq<Kind>, x: Request) {
    !x.interrupted ==>
      && Cancel !in kinds && Abort !in kinds && CancelAgain !in kinds
      && !(x.task.Live? && x.task.cancelPending)
      && (x.future.Cancelled? ==> x.finished)
      && (x.finished ==> x.task.Done? && x.future == Answer(x.task.outcome))
  }

  /** What the caller of a send gets for each way in which its task can end. */
  function Answer(outcome: Outcome): Future {
    match outcome
    case Returned => Result
    case Raised => Failure
    case WasCancelled => Cancelled
  }

  ghost predicate AllUndisturbed(s: State) {
    forall r: nat :: r < |s.requests| ==> Undisturbed(Of(s.queue, r), s.requests[r])
  }

  lemma CallbackLeavesUndisturbed(kind: Kind, kinds: seq<Kind>, x: Request, ends: Option<Outcome>)
    requires Fits([kind] + kinds, x) && Undisturbed([kind] + kinds, x)
    ensures var (y, posted) := RunCallback(kind, x, ends); Undisturbed(kinds + posted, y)
  {
    RestOf(kind, kinds, x);
    var (y, posted) := RunCallback(kind, x, ends);
    assert kind in [kind] + kinds by { assert ([kind] + kinds)[0] == kind; }
    assert forall k :: k in kinds + posted <==> k in kinds || k in posted;
  }

  lemma MoveLeavesUndisturbed(kinds: seq<Kind>, x: Request, move: Move)
    requires Fits(kinds, x) && Undisturbed(kinds, x) && OnRequest(move) && Allowed(x, move)
    ensures var (y, posted) := Moved(x, move); Undisturbed(kinds + posted, y)
  {
    var posted := Moved(x, move).1;
    assert forall k :: k in kinds + posted <==> k in kinds || k in posted;
  }

  lemma RunLeavesUndisturbed(s: State, ends: Option<Outcome>)
    requires Inv(s) && AllUndisturbed(s) && Enabled(s, Runs(ends))
    ensures AllUndisturbed(Apply(s, Runs(ends)))
  {
    var t := Apply(s, Runs(ends));
    var q := s.queue[0].request;
    forall r: nat | r < |t.requests|
      ensures Undisturbed(Of(t.queue, r), t.requests[r])
    {
      RunOf(s, ends, r);
      assert Undisturbed(Of(s.queue, r), s.requests[r]) && Fits(Of(s.queue, r), s.requests[r]);
      if r == q {
        CallbackLeavesUndisturbed(s.queue[0].kind, Of(s.queue[1..], r), s.requests[r], ends);
      }
    }
  }

  lemma RequestLeavesUndisturbed(s: State, move: Move)
    requires Inv(s) && AllUndisturbed(s) && OnRequest(move) && Enabled(s, move)
    ensures AllUndisturbed(Apply(s, move))
  {
    var t := Apply(s, move);
    var q := move.request;
    forall r: nat | r < |t.requests|
      ensures Undisturbed(Of(t.queue, r), t.requests[r])
    {
      OfPosted(s.queue, q, Moved(s.requests[q], move).1, r);
      assert Undisturbed(Of(s.queue, r), s.requests[r]) && Fits(Of(s.queue, r), s.requests[r]);
      if r == q {
        MoveLeavesUndisturbed(Of(s.queue, r), s.requests[r], move);
      } else {
        assert Of(s.queue, r) + [] == Of(s.queue, r);
      }
    }
  }

  lemma SendLeavesUndisturbed(s: State, thread: nat, interrupted: bool, queued: bool)
    requires Inv(s) && AllUndisturbed(s)
    ensures AllUndisturbed(Send(s, thread, interrupted, queued))
  {
    var r := |s.requests|;
    var t := Send(s, thread, interrupted, queued);
    OfUnknown(s.queue, r);
    forall q: nat | q < |t.requests|
      ensures Undisturbed(Of(t.queue, q), t.requests[q])
    {
      OfPosted(s.queue, r, if queued then [Start] else [], q);
      assert q < r ==> Undisturbed(Of(s.queue, q), s.requests[q]);
      assert Of(s.queue, q) + [] == Of(s.queue, q);
      assert [] + [Start] == [Start];
    }
  }

  lemma StepLeavesUndisturbed(s: State, move: Move)
    requires Inv(s) && AllUndisturbed(s) && Enabled(s, move)
    ensures AllUndisturbed(Apply(s, move))
  {
    match move {
      case Sends(thread) => SendLeavesUndisturbed(s, thread, false, true);
      case SendsInterrupted(thread, queued) => SendLeavesUndisturbed(s, thread, true, queued);
      case Runs(ends) => RunLeavesUndisturbed(s, ends);
      case Connects =>
      case Closes =>
      case _ => RequestLeavesUndisturbed(s, move);
    }
  }

  lemma {:induction false} RunStaysUndisturbed(s: State, moves: seq<Move>)
    requires Inv(s) && AllUndisturbed(s) && Legal(s, moves)
    ensures AllUndisturbed(Run(s, moves))
    decreases |moves|
  {
    if moves != [] {
      StepKeeps(s, moves[0]);
      StepLeavesUndisturbed(s, moves[0]);
      RunStaysUndisturbed(Apply(s, moves[0]), moves[1..]);
    }
  }

  /**
    In every reachable state, a request that was not interrupted and has finished
    has the outcome of its task as its future: the result that it returned, the
    exception that it raised, or the cancellation that ended it. Its future is
    not resolved before.
  */
  lemma FinishedMeansAnswered(moves: seq<Move>, r: nat)
    requires Legal(Initial(), moves) && r < |Run(Initial(), moves).requests|
    requires !Run(Initial(), moves).requests[r].interrupted
    ensures var x := Run(Initial(), moves).requests[r];
      && (x.finished <==> !x.future.Pending?)
      && (x.finished && x.task == Done(Returned) ==> x.future.Result?)
      && (x.finished && x.task == Done(Raised) ==> x.future.Failure?)
      && (x.finished ==> x.task.Done?)
      && (x.future.Cancelled? ==> x.task == Done(WasCancelled))
  {
    Reached(moves);
    InitialInv();
    RunStaysUndisturbed(Initial(), moves);
    var s := Run(Initial(), moves);
    assert Fits(Of(s.queue, r), s.requests[r]) && Undisturbed(Of(s.queue, r), s.requests[r]);
  }

  /** It has not been interrupted, and if its task has ended, it returned. */
  predicate OnItsWay(s: State, r: nat) {
    && r < |s.requests| && !s.requests[r].interrupted
    && (s.requests[r].task.Done? ==> s.requests[r].task.outcome.Returned?)
  }

  lemma CalmKeepsOnItsWay(s: State, move: Move, r: nat)
    requires Inv(s) && AllUndisturbed(s) && CalmMove(move) && Enabled(s, move) && OnItsWay(s, r)
    ensures OnItsWay(Apply(s, move), r)
  {
    assert Undisturbed(Of(s.queue, r), s.requests[r]) && Fits(Of(s.queue, r), s.requests[r]);
    if move.Runs? && s.queue[0].request == r {
      HeadIn(s);
      CallbackIsTheLoops(s.queue[0].kind, s.requests[r], move.ends);
    }
  }

  lemma {:induction false} CalmRunKeepsOnItsWay(s: State, moves: seq<Move>, r: nat)
    requires Inv(s) && AllUndisturbed(s) && Calm(moves) && Legal(s, moves) && OnItsWay(s, r)
    ensures OnItsWay(Run(s, moves), r)
    decreases |moves|
  {
    if moves != [] {
      assert CalmMove(moves[0]);
      StepKeeps(s, moves[0]);
      StepLeavesUndisturbed(s, moves[0]);
      CalmKeepsOnItsWay(s, moves[0], r);
      CalmRunKeepsOnItsWay(Apply(s, moves[0]), moves[1..], r);
    }
  }

  /**
    In every reachable state, a send that waits uninterrupted can return: when the
    tasks return, the loop brings its result to the caller.
  */
  lemma SendReturnsItsResult(moves: seq<Move>, r: nat) returns (t: State)
    requires Legal(Initial(), moves) && OnItsWay(Run(Initial(), moves), r)
    requires Run(Initial(), moves).requests[r].phase.Waiting?
    ensures Leads(Run(Initial(), moves), t)
    ensures Enabled(t, Returns(r)) && t.requests[r].future.Result?
  {
    var s := Run(Initial(), moves);
    InitialInv();
    RunServed(Initial(), moves);
    RunStaysUndisturbed(Initial(), moves);
    t := CalmsDown(s);
    var calm :| Calm(calm) && Replays(s, calm, t);
    RunStaysUndisturbed(s, calm);
    CalmRunKeepsOnItsWay(s, calm, r);
    FinishedWhenIdle(t, r);
    assert Undisturbed(Of(t.queue, r), t.requests[r]);
  }
}
