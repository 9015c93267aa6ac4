/**
  The interrupt and cancel handshake of `python/mcp_console/_sync.py`: caller
  threads, the event loop with its FIFO of callbacks, and the fields that they
  share under the `_admission` condition. Every section that holds the condition
  is one step, and so is every callback of the loop.
*/
module CallHandshake {
  import opened Options

  // ----- State -----

  datatype Future = Pending | Cancelled | Result | Failure

  /** How an asyncio task ended. */
  datatype Outcome = Returned | Raised | WasCancelled

  /**
    `stepQueued`: the loop will run it. `cancelPending`: that run delivers a
    cancellation, however many were asked for. `started`: its coroutine has run.
  */
  datatype Task = NoTask | Live(stepQueued: bool, cancelPending: bool, started: bool) | Done(outcome: Outcome)

  /** Where the calling thread is: `Posting` is between the two halves of `cancel`. */
  datatype Phase = Waiting | Interrupted | Posting | Settling | Left

  datatype Request = Request(thread: nat, future: Future, finished: bool, task: Task, phase: Phase, interrupted: bool)

  /** `CancelAgain` is the cancellation that an abort queues behind itself. */
  datatype Kind = Start | Step | Finish | Cancel | Abort | CancelAgain

  datatype Callback = Callback(request: nat, kind: Kind)

  datatype State = State(
    requests: seq<Request>,
    queue: seq<Callback>,
    cancellation: Option<nat>,
    failed: bool,
    connected: bool)

  function Initial(): State {
    State([], [], None, false, false)
  }

  function Posted(queue: seq<Callback>, r: nat, kinds: seq<Kind>): seq<Callback> {
    queue + if kinds == [] then [] else [Callback(r, kinds[0])]
  }

  // ----- The caller's side -----

  predicate InProgress(x: Request) {
    !x.phase.Left?
  }

  /** `_call_send` gets past its three checks, and its thread is in no other call. */
  predicate MaySend(s: State, thread: nat) {
    && !s.failed && s.cancellation.None? && s.connected
    && forall r :: 0 <= r < |s.requests| && s.requests[r].thread == thread ==> !InProgress(s.requests[r])
  }

  /** Where an interrupt finds a call: its start may or may not be queued yet. */
  function NewRequest(thread: nat, interrupted: bool): Request {
    Request(thread, Pending, false, NoTask, if interrupted then Interrupted else Waiting, interrupted)
  }

  function Send(s: State, thread: nat, interrupted: bool, queued: bool): State {
    var r := |s.requests|;
    s.(requests := s.requests + [NewRequest(thread, interrupted)],
       queue := Posted(s.queue, r, if queued then [Start] else []),
       cancellation := if interrupted then Some(r) else s.cancellation)
  }

  /** `_Request.cancel` under the lock. */
  function CancelRequest(x: Request): Request {
    var future := if x.future.Pending? then Cancelled else x.future;
    if x.task.NoTask? then x.(future := future, finished := true, phase := Settling)
    else x.(future := future, phase := Posting)
  }

  // ----- The loop's side: what a callback makes of its request, and what it queues -----

  /** `Task.cancel`: wakes a waiting task; a task that will run anyway is only marked. */
  function CancelTask(x: Request): (Request, seq<Kind>) {
    if !x.task.Live? then (x, [])
    else if x.task.stepQueued then (x.(task := x.task.(cancelPending := true)), [])
    else (x.(task := x.task.(stepQueued := true, cancelPending := true)), [Step])
  }

  function StartTask(x: Request): (Request, seq<Kind>) {
    if x.future.Cancelled? then (x.(finished := true), [])
    else (x.(task := Live(true, false, false)), [Step])
  }

  /** An asyncio task waits again, or ends. One that is cancelled before it starts does not start. */
  function StepTask(x: Request, ends: Option<Outcome>): (Request, seq<Kind>) {
    if x.task.Live? && !x.task.started && (x.task.cancelPending || x.future.Cancelled?)
    then (x.(task := Done(WasCancelled)), [Finish])
    else if ends.None? then (x.(task := Live(false, false, true)), [])
    else (x.(task := Done(ends.value)), [Finish])
  }

  /** The future that the done callback of a task leaves behind. */
  function Resolved(future: Future, outcome: Outcome): Future {
    match outcome
    case WasCancelled => if future.Pending? then Cancelled else future
    case Returned => if future.Cancelled? then future else Result
    case Raised => if future.Cancelled? then future else Failure
  }

  function FinishTask(x: Request): (Request, seq<Kind>) {
    if !x.task.Done? then (x, [])
    else (x.(future := Resolved(x.future, x.task.outcome), finished := true), [])
  }

  function RunCallback(kind: Kind, x: Request, ends: Option<Outcome>): (Request, seq<Kind>) {
    match kind
    case Start => StartTask(x)
    case Step => StepTask(x, ends)
    case Finish => FinishTask(x)
    case Cancel => CancelTask(x)
    case CancelAgain => CancelTask(x)
    case Abort => (x, [CancelAgain])
  }

  /** The loop runs its oldest callback. */
  function RunNext(s: State, ends: Option<Outcome>): State
    requires s.queue != [] && s.queue[0].request < |s.requests|
  {
    var r := s.queue[0].request;
    var (x, posted) := RunCallback(s.queue[0].kind, s.requests[r], ends);
    s.(requests := s.requests[r := x], queue := Posted(s.queue[1..], r, posted))
  }

  // ----- Steps and runs -----

  datatype Move =
    | Sends(thread: nat)
    | SendsInterrupted(thread: nat, queued: bool)
    | Interrupts(request: nat)
    | Returns(request: nat)
    | Cancels(request: nat)
    | Posts(request: nat)
    | Settles(request: nat)
    | GivesUp(request: nat)
    | Wakes(request: nat)
    | Runs(ends: Option<Outcome>)
    | Connects
    | Closes

  /** The moves on a request that was sent before. */
  predicate OnRequest(move: Move) {
    || move.Interrupts? || move.Returns? || move.Cancels? || move.Posts?
    || move.Settles? || move.GivesUp? || move.Wakes?
  }

  predicate Published(s: State, r: nat) {
    s.cancellation == Some(r)
  }

  /** What `close` waits for, and the drained loop that leaving the portal waits for. */
  predicate MayClose(s: State) {
    && s.connected
    && (forall r :: 0 <= r < |s.requests| ==> !InProgress(s.requests[r]))
    && (s.cancellation.Some? ==>
          s.cancellation.value < |s.requests| && s.requests[s.cancellation.value].finished)
    && s.queue == []
    && (forall r :: 0 <= r < |s.requests| ==> !s.requests[r].task.Live?)
  }

  predicate Allowed(x: Request, move: Move)
    requires OnRequest(move)
  {
    match move
    case Interrupts(_) => x.phase.Waiting?
    case Returns(_) => x.phase.Waiting? && !x.future.Pending?
    case Cancels(_) => x.phase.Interrupted?
    case Posts(_) => x.phase.Posting?
    case Settles(_) => x.phase.Settling? && x.finished
    case GivesUp(_) => x.phase in {Interrupted, Posting, Settling}
    case Wakes(_) => x.task.Live? && !x.task.stepQueued
  }

  /** What a move makes of its request, and what it queues. */
  function Moved(x: Request, move: Move): (Request, seq<Kind>)
    requires OnRequest(move) && Allowed(x, move)
  {
    match move
    case Interrupts(_) => (x.(phase := Interrupted, interrupted := true), [])
    case Returns(_) => (x.(phase := Left), [])
    case Cancels(_) => (CancelRequest(x), [])
    case Posts(_) => (x.(phase := Settling), [Cancel])
    case Settles(_) => (x.(phase := Left), [])
    case GivesUp(_) => (x.(phase := Left), [Abort])
    case Wakes(_) => (x.(task := x.task.(stepQueued := true)), [Step])
  }

  /** Interrupting publishes the request; settling withdraws it; giving up fails the connection. */
  function MoveRequest(s: State, move: Move): State
    requires OnRequest(move) && move.request < |s.requests| && Allowed(s.requests[move.request], move)
  {
    var r := move.request;
    var (x, posted) := Moved(s.requests[r], move);
    s.(requests := s.requests[r := x],
       queue := Posted(s.queue, r, posted),
       cancellation := if move.Interrupts? then Some(r) else if move.Settles? then None else s.cancellation,
       failed := s.failed || move.GivesUp?)
  }

  predicate Enabled(s: State, move: Move) {
    match move
    case Sends(thread) => MaySend(s, thread)
    case SendsInterrupted(thread, _) => MaySend(s, thread)
    case Runs(_) => s.queue != [] && s.queue[0].request < |s.requests|
    case Connects => !s.failed && s.cancellation.None? && !s.connected
    case Closes => MayClose(s)
    case _ => move.request < |s.requests| && Allowed(s.requests[move.request], move)
  }

  function Apply(s: State, move: Move): State
    requires Enabled(s, move)
  {
    match move
    case Sends(thread) => Send(s, thread, false, true)
    case SendsInterrupted(thread, queued) => Send(s, thread, true, queued)
    case Runs(ends) => RunNext(s, ends)
    case Connects => s.(connected := true)
    case Closes => s.(connected := false, cancellation := None, failed := false)
    case _ => MoveRequest(s, move)
  }

  predicate Legal(s: State, moves: seq<Move>)
    decreases |moves|
  {
    moves != [] ==> Enabled(s, moves[0]) && Legal(Apply(s, moves[0]), moves[1..])
  }

  function Run(s: State, moves: seq<Move>): State
    requires Legal(s, moves)
    decreases |moves|
  {
    if moves == [] then s else Run(Apply(s, moves[0]), moves[1..])
  }

  // ----- The invariant, one request at a time -----

  /** The callbacks of one request, in queue order. */
  function Of(queue: seq<Callback>, r: nat): seq<Kind> {
    if queue == [] then []
    else (if queue[0].request == r then [queue[0].kind] else []) + Of(queue[1..], r)
  }

  lemma {:induction false} OfAppend(queue: seq<Callback>, c: Callback, r: nat)
    ensures Of(queue + [c], r) == Of(queue, r) + if c.request == r then [c.kind] else []
  {
    if queue == [] {
      assert queue + [c] == [c] && [c][1..] == [];
    } else {
      var rest := queue[1..];
      assert (queue + [c])[1..] == rest + [c] && (queue + [c])[0] == queue[0];
      OfAppend(rest, c, r);
      var more := if c.request == r then [c.kind] else [];
      var first := if queue[0].request == r then [queue[0].kind] else [];
      assert first + (Of(rest, r) + more) == (first + Of(rest, r)) + more;
    }
  }

  /** No callback is queued before its request exists. */
  ghost predicate Known(queue: seq<Callback>, n: nat) {
    forall i :: 0 <= i < |queue| ==> queue[i].request < n
  }

  lemma {:induction false} OfUnknown(queue: seq<Callback>, r: nat)
    requires Known(queue, r)
    ensures Of(queue, r) == []
  {
    if queue != [] {
      OfUnknown(queue[1..], r);
    }
  }

  predicate Distinct(kinds: seq<Kind>) {
    forall i, j :: 0 <= i < j < |kinds| ==> kinds[i] != kinds[j]
  }

  predicate Before(kinds: seq<Kind>, first: Kind, second: Kind) {
    forall i, j :: 0 <= i < |kinds| && 0 <= j < |kinds| && kinds[i] == first && kinds[j] == second ==> i < j
  }

  /** A task, its callbacks and its future agree. */
  predicate Retires(kinds: seq<Kind>, x: Request) {
    && (Start in kinds ==> x.task.NoTask?)
    && (Step in kinds <==> x.task.Live? && x.task.stepQueued)
    && (Finish in kinds <==> x.task.Done? && !x.finished)
    && (x.task.NoTask? && x.finished ==> x.future.Cancelled?)
    && (x.task.Live? ==> !x.finished)
    && (x.finished ==> !x.future.Pending?)
    && (!x.finished ==> x.future.Pending? || x.future.Cancelled?)
    && (x.future.Result? ==> x.task == Done(Returned))
    && (x.future.Failure? ==> x.task == Done(Raised))
  }

  /** The callbacks that the caller queues, in the order in which it queues them. */
  predicate CancelsInOrder(kinds: seq<Kind>, x: Request) {
    && (x.phase in {Interrupted, Posting, Settling} ==> x.interrupted)
    && (x.phase.Waiting? ==> !x.interrupted)
    && (Cancel in kinds ==> x.phase.Settling? || x.phase.Left?)
    && (x.phase.Posting? || Cancel in kinds ==> !x.task.NoTask?)
    && (Abort in kinds || CancelAgain in kinds ==> x.phase.Left?)
    && (Abort in kinds ==> CancelAgain !in kinds)
    && (CancelAgain in kinds ==> Cancel !in kinds)
    && Before(kinds, Cancel, Abort)
    && (x.task.Live? && x.task.cancelPending ==> x.task.stepQueued && Before(kinds, Step, CancelAgain))
  }

  ghost predicate Fits(kinds: seq<Kind>, x: Request) {
    Distinct(kinds) && Retires(kinds, x) && CancelsInOrder(kinds, x)
  }

  ghost predicate Inv(s: State) {
    && Known(s.queue, |s.requests|)
    && (forall r: nat :: r < |s.requests| ==> Fits(Of(s.queue, r), s.requests[r]))
    && (s.cancellation.Some? ==>
          s.cancellation.value < |s.requests| && s.requests[s.cancellation.value].interrupted)
  }

  lemma InitialInv()
    ensures Inv(Initial())
  {
  }

  /** A step that touches one request and queues at most one callback of it. */
  ghost predicate Touches(s: State, t: State, r: nat, posted: seq<Kind>) {
    && r < |s.requests| == |t.requests|
    && |posted| <= 1
    && (forall q: nat :: q < |s.requests| && q != r ==> t.requests[q] == s.requests[q])
    && t.queue == Posted(s.queue, r, posted)
  }

  lemma OfPosted(queue: seq<Callback>, r: nat, posted: seq<Kind>, q: nat)
    requires |posted| <= 1
    ensures Of(Posted(queue, r, posted), q) == Of(queue, q) + if q == r then posted else []
  {
    if posted != [] {
      OfAppend(queue, Callback(r, posted[0]), q);
      assert posted == [posted[0]];
    } else {
      assert Posted(queue, r, posted) == queue;
    }
  }

  lemma TouchKeeps(s: State, t: State, r: nat, posted: seq<Kind>)
    requires Known(s.queue, |s.requests|)
    requires forall q: nat :: q < |s.requests| && q != r ==> Fits(Of(s.queue, q), s.requests[q])
    requires Touches(s, t, r, posted)
    requires Fits(Of(s.queue, r) + posted, t.requests[r])
    ensures Known(t.queue, |t.requests|)
    ensures forall q: nat :: q < |t.requests| ==> Fits(Of(t.queue, q), t.requests[q])
  {
    forall q: nat | q < |t.requests|
      ensures Fits(Of(t.queue, q), t.requests[q])
    {
      OfPosted(s.queue, r, posted, q);
      assert Of(s.queue, q) + [] == Of(s.queue, q);
    }
  }

  // ----- Every step keeps the invariant -----

  lemma SendKeeps(s: State, thread: nat, interrupted: bool, queued: bool)
    requires Inv(s)
    ensures Inv(Send(s, thread, interrupted, queued))
  {
    var r := |s.requests|;
    var t := Send(s, thread, interrupted, queued);
    OfUnknown(s.queue, r);
    forall q: nat | q < |t.requests|
      ensures Fits(Of(t.queue, q), t.requests[q])
    {
      OfPosted(s.queue, r, if queued then [Start] else [], q);
      assert Of(s.queue, q) + [] == Of(s.queue, q);
      assert q == r ==> [] + [Start] == [Start];
    }
  }

  /** Queueing one more callback of a request. */
  lemma AppendKind(kinds: seq<Kind>, kind: Kind)
    requires Distinct(kinds) && kind !in kinds
    ensures Distinct(kinds + [kind])
    ensures forall k :: k in kinds + [kind] <==> k == kind || k in kinds
    ensures forall a, b :: a != b && Before(kinds, a, b) && (kind == a ==> b !in kinds) ==> Before(kinds + [kind], a, b)
  {
  }

  lemma MoveFits(kinds: seq<Kind>, x: Request, move: Move)
    requires Fits(kinds, x) && OnRequest(move) && Allowed(x, move)
    ensures var (y, posted) := Moved(x, move); |posted| <= 1 && Fits(kinds + posted, y)
  {
    var (y, posted) := Moved(x, move);
    if posted == [] {
      assert kinds + posted == kinds;
    } else {
      AppendKind(kinds, posted[0]);
      assert posted == [posted[0]];
    }
  }

  lemma MoveKeeps(s: State, move: Move)
    requires Inv(s) && OnRequest(move) && Enabled(s, move)
    ensures Inv(Apply(s, move))
  {
    var t := Apply(s, move);
    var r := move.request;
    MoveFits(Of(s.queue, r), s.requests[r], move);
    TouchKeeps(s, t, r, Moved(s.requests[r], move).1);
  }

  /** Taking the oldest callback off the queue. */
  lemma Dequeue(s: State)
    requires Inv(s) && s.queue != []
    ensures var r := s.queue[0].request; var t := s.(queue := s.queue[1..]);
      && Known(t.queue, |t.requests|)
      && Of(s.queue, r) == [s.queue[0].kind] + Of(t.queue, r)
      && forall q: nat :: q < |t.requests| && q != r ==> Fits(Of(t.queue, q), t.requests[q])
  {
    var r := s.queue[0].request;
    forall q: nat | q < |s.requests| && q != r
      ensures Fits(Of(s.queue[1..], q), s.requests[q])
    {
      assert [] + Of(s.queue[1..], q) == Of(s.queue[1..], q);
    }
  }

  /** The head of a queue without duplicates is gone from the rest. */
  lemma RestOf(kind: Kind, kinds: seq<Kind>, x: Request)
    requires Fits([kind] + kinds, x)
    ensures Distinct(kinds)
    ensures kind !in kinds
    ensures forall k :: k in [kind] + kinds <==> k == kind || k in kinds
    ensures forall a, b :: Before([kind] + kinds, a, b) ==> Before(kinds, a, b)
    ensures forall k :: k in kinds ==> !Before([kind] + kinds, k, kind)
  {
    var all := [kind] + kinds;
    assert forall i :: 0 <= i < |kinds| ==> kinds[i] == all[i + 1];
    assert all[0] == kind;
    forall k | k in kinds
      ensures !Before(all, k, kind)
    {
      var i :| 0 <= i < |kinds| && kinds[i] == k;
      assert all[i + 1] == k && all[0] == kind;
    }
  }

  lemma CallbackKeeps(kind: Kind, kinds: seq<Kind>, x: Request, ends: Option<Outcome>)
    requires Fits([kind] + kinds, x)
    ensures var (y, posted) := RunCallback(kind, x, ends);
      |posted| <= 1 && Fits(kinds + posted, y) && y.interrupted == x.interrupted
  {
    RestOf(kind, kinds, x);
    var (y, posted) := RunCallback(kind, x, ends);
    assert kinds + [] == kinds;
    assert kind in [kind] + kinds by { assert ([kind] + kinds)[0] == kind; }
  }

  lemma RunKeeps(s: State, ends: Option<Outcome>)
    requires Inv(s) && Enabled(s, Runs(ends))
    ensures Inv(Apply(s, Runs(ends)))
  {
    Dequeue(s);
    var r := s.queue[0].request;
    var t := s.(queue := s.queue[1..]);
    CallbackKeeps(s.queue[0].kind, Of(t.queue, r), s.requests[r], ends);
    var (x, posted) := RunCallback(s.queue[0].kind, s.requests[r], ends);
    TouchKeeps(t, Apply(s, Runs(ends)), r, posted);
  }
}
