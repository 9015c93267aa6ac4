/**
  `MCPConsole` and `_Request` of `python/mcp_console/_sync.py` as they update
  their fields in place. Each method is one section under the admission lock,
  or one callback of the event loop.
*/
module SyncConsole {
  import opened Options
  import opened CallHandshake

  /** What `_call_send` raises before it creates a request. */
  datatype Rejection = CleanupFailed | CleanupPending | NotConnected

  class MCPConsole {
    var requests: seq<Request>
    var queue: seq<Callback>
    var cancellation: Option<nat>
    var failed: bool
    var connected: bool

    ghost function View(): State
      reads this
    {
      State(requests, queue, cancellation, failed, connected)
    }

    constructor ()
      ensures View() == Initial()
    {
      requests, queue, cancellation, failed, connected := [], [], None, false, false;
    }

    method CallSoon(r: nat, kind: Kind)
      modifies this`queue
      ensures queue == Posted(old(queue), r, [kind])
    {
      queue := queue + [Callback(r, kind)];
    }

    /** `interrupted`: the interrupt arrives before the caller waits; `queued`: after the start was queued. */
    method CallSend(thread: nat, interrupted: bool, queued: bool) returns (rejected: Option<Rejection>)
      requires forall r :: 0 <= r < |requests| && requests[r].thread == thread ==> !InProgress(requests[r])
      requires !interrupted ==> queued
      modifies this
      ensures rejected.None? <==> MaySend(old(View()), thread)
      ensures rejected.None? ==> View() == Send(old(View()), thread, interrupted, queued)
      ensures rejected.Some? ==> View() == old(View())
      ensures rejected == Some(CleanupFailed) <==> old(failed)
      ensures rejected == Some(CleanupPending) <==> !old(failed) && old(cancellation).Some?
    {
      if failed {
        return Some(CleanupFailed);
      }
      if cancellation.Some? {
        return Some(CleanupPending);
      }
      if !connected {
        return Some(NotConnected);
      }
      var r := |requests|;
      requests := requests + [NewRequest(thread, interrupted)];
      if queued {
        CallSoon(r, Start);
      }
      if interrupted {
        cancellation := Some(r);
      }
      return None;
    }

    method InterruptWait(r: nat)
      requires Enabled(View(), Interrupts(r))
      modifies this
      ensures View() == Apply(old(View()), Interrupts(r))
    {
      requests := requests[r := requests[r].(phase := Interrupted, interrupted := true)];
      cancellation := Some(r);
    }

    method ReturnResult(r: nat) returns (future: Future)
      requires Enabled(View(), Returns(r))
      modifies this
      ensures View() == Apply(old(View()), Returns(r))
      ensures future == old(requests)[r].future && !future.Pending?
    {
      future := requests[r].future;
      requests := requests[r := requests[r].(phase := Left)];
    }

    /** The section of `_Request.cancel` under the lock; it returns early without a task. */
    method CancelUnderLock(r: nat)
      requires Enabled(View(), Cancels(r))
      modifies this
      ensures View() == Apply(old(View()), Cancels(r))
    {
      var x := requests[r];
      if x.future.Pending? {
        x := x.(future := Cancelled);
      }
      if x.task.NoTask? {
        x := x.(finished := true, phase := Settling);
      } else {
        x := x.(phase := Posting);
      }
      requests := requests[r := x];
    }

    method QueueCancel(r: nat)
      requires Enabled(View(), Posts(r))
      modifies this
      ensures View() == Apply(old(View()), Posts(r))
    {
      requests := requests[r := requests[r].(phase := Settling)];
      CallSoon(r, Cancel);
    }

    /** The `finally` block: `completed` says that the wait saw the request finish. */
    method EndCleanup(r: nat, completed: bool)
      requires Enabled(View(), if completed then Settles(r) else GivesUp(r))
      modifies this
      ensures View() == Apply(old(View()), if completed then Settles(r) else GivesUp(r))
    {
      requests := requests[r := requests[r].(phase := Left)];
      if completed {
        cancellation := None;
      } else {
        failed := true;
        CallSoon(r, Abort);
      }
    }

    /** `_start` under the lock. */
    method StartRequest(r: nat)
      requires r < |requests|
      modifies this
      ensures requests == old(requests)[r := StartTask(old(requests)[r]).0]
      ensures queue == Posted(old(queue), r, StartTask(old(requests)[r]).1)
      ensures unchanged(`cancellation, `failed, `connected)
    {
      if requests[r].future.Cancelled? {
        requests := requests[r := requests[r].(finished := true)];
        return;
      }
      requests := requests[r := requests[r].(task := Live(true, false, false))];
      CallSoon(r, Step);
    }

    /** `_finish` under the lock. */
    method FinishRequest(r: nat)
      requires r < |requests|
      modifies this`requests
      ensures requests == old(requests)[r := FinishTask(old(requests)[r]).0]
      ensures var x := old(requests)[r]; x.task == Done(Returned) && x.future.Pending? ==>
        requests[r].finished && requests[r].future.Result?
      ensures var x := old(requests)[r]; x.task == Done(Raised) && x.future.Pending? ==>
        requests[r].finished && requests[r].future.Failure?
    {
      var x := requests[r];
      if !x.task.Done? {
        return;
      }
      match x.task.outcome {
        case WasCancelled =>
          if x.future.Pending? {
            x := x.(future := Cancelled);
          }
        case Raised =>
          if !x.future.Cancelled? {
            x := x.(future := Failure);
          }
        case Returned =>
          if !x.future.Cancelled? {
            x := x.(future := Result);
          }
      }
      requests := requests[r := x.(finished := true)];
    }

    method CancelTaskOf(r: nat)
      requires r < |requests|
      modifies this
      ensures requests == old(requests)[r := CancelTask(old(requests)[r]).0]
      ensures queue == Posted(old(queue), r, CancelTask(old(requests)[r]).1)
      ensures unchanged(`cancellation, `failed, `connected)
    {
      var task := requests[r].task;
      if task.Live? {
        requests := requests[r := requests[r].(task := task.(stepQueued := true, cancelPending := true))];
        if !task.stepQueued {
          CallSoon(r, Step);
        }
      }
    }

    method StepTaskOf(r: nat, ends: Option<Outcome>)
      requires r < |requests|
      modifies this
      ensures requests == old(requests)[r := StepTask(old(requests)[r], ends).0]
      ensures queue == Posted(old(queue), r, StepTask(old(requests)[r], ends).1)
      ensures unchanged(`cancellation, `failed, `connected)
    {
      var x := requests[r];
      var outcome := ends;
      if x.task.Live? && !x.task.started && (x.task.cancelPending || x.future.Cancelled?) {
        outcome := Some(WasCancelled);
      }
      if outcome.None? {
        requests := requests[r := x.(task := Live(false, false, true))];
      } else {
        requests := requests[r := x.(task := Done(outcome.value))];
        CallSoon(r, Finish);
      }
    }

    /** The event loop takes its oldest callback. */
    method RunOldest(ends: Option<Outcome>)
      requires Enabled(View(), Runs(ends))
      modifies this
      ensures View() == Apply(old(View()), Runs(ends))
    {
      var r, kind := queue[0].request, queue[0].kind;
      queue := queue[1..];
      match kind {
        case Start => StartRequest(r);
        case Step => StepTaskOf(r, ends);
        case Finish => FinishRequest(r);
        case Cancel => CancelTaskOf(r);
        case CancelAgain => CancelTaskOf(r);
        case Abort => CallSoon(r, CancelAgain);
      }
    }

    method Connect() returns (rejected: Option<Rejection>)
      modifies this
      ensures rejected == Some(CleanupFailed) <==> old(failed)
      ensures rejected == Some(CleanupPending) <==> !old(failed) && old(cancellation).Some?
      ensures View() == if rejected.None? then old(View()).(connected := true) else old(View())
    {
      if failed {
        return Some(CleanupFailed);
      }
      if cancellation.Some? {
        return Some(CleanupPending);
      }
      connected := true;
      return None;
    }

    /** After the waits of `close`: no call is in progress and the loop is drained. */
    method Close() returns (closed: bool)
      requires Inv(View())
      requires connected ==> queue == [] && forall r :: 0 <= r < |requests| ==>
        !InProgress(requests[r]) && !requests[r].task.Live?
      modifies this
      ensures closed <==> MayClose(old(View()))
      ensures View() == if closed then Apply(old(View()), Closes) else old(View())
    {
      if !connected {
        return false;
      }
      if cancellation.Some? && !requests[cancellation.value].finished {
        return false;
      }
      connected, cancellation, failed := false, None, false;
      return true;
    }
  }
}
