/**
  Progress of the admission protocol: with nothing active and nothing being
  written, the oldest waiting reservation can always be served, and serving one
  after another drains the whole chain.
*/
module DeliveryProgress {
  import opened Options
  import opened DeliveryModel
  import opened DeliveryInvariant
  import opened DeliverySteps
  import opened DeliverySafety

  /** The transport is open and idle: no active call and no unsettled write. */
  ghost predicate Idle(s: State) {
    !s.closed && s.active == map[] && s.pendingWrites == 0
  }

  /** Steps of the handler of admission `a`, and of nobody else. */
  predicate WaitStepOf(step: Step, a: nat) {
    match step
    case CheckStep(b) => a == b
    case StartWaitStep(b) => a == b
    case AdvanceStep(b) => a == b
    case ClearLinkStep(b) => a == b
    case GateStep(b) => a == b
    case DropAdmissionStep(b) => a == b
    case UnregisterStep(b) => a == b
    case _ => false
  }

  /** What handlers and their response writes do; no cancellation, no closing, no new request. */
  predicate HandlerStep(step: Step) {
    match step
    case ReserveStep(_) => false
    case CancelStep(_) => false
    case CloseStep => false
    case DropNodeStep(_) => false
    case RespondStep(_, source) => source.Some?
    case _ => true
  }

  ghost predicate HandlerRun(s: State, steps: seq<Step>, t: State)
    requires Inv(s)
  {
    Run(s, steps) == Some(t) && forall i :: 0 <= i < |steps| ==> HandlerStep(steps[i])
  }

  lemma HandlerRunAppend(s: State, xs: seq<Step>, t: State, ys: seq<Step>, u: State)
    requires Inv(s) && HandlerRun(s, xs, t) && HandlerRun(t, ys, u)
    ensures HandlerRun(s, xs + ys, u)
  {
    RunAppend(s, xs, ys);
  }

  lemma HandlerRunOne(s: State, step: Step)
    requires Inv(s) && Enabled(s, step) && HandlerStep(step)
    ensures HandlerRun(s, [step], Next(s, step))
  {
    assert [step][1..] == [];
  }

  // ----- Reaching the gate -----

  /** Only the phase of `a` and the link of its own node differ. */
  predicate AtGate(s: State, t: State, a: nat)
    requires a < |s.admissions| && s.admissions[a].node.Some? && s.admissions[a].node.value < |s.nodes|
  {
    var n := s.admissions[a].node.value;
    t == s.(nodes := s.nodes[n := s.nodes[n].(predecessor := None)],
            admissions := s.admissions[a := s.admissions[a].(phase := Gated)])
  }

  /** The admission owns its place and everything behind its node has settled. */
  ghost predicate Ready(s: State, a: nat) {
    && Inv(s) && !s.closed
    && a < |s.admissions| && s.admissions[a].node.Some? && OwnsPending(s, a)
    && AllSettledBehind(s.nodes, s.admissions[a].node.value)
  }

  function Rank(p: Phase): nat {
    match p
    case Checking => 4
    case Starting => 3
    case Watching(_) => 2
    case Clearing => 1
    case _ => 0
  }

  function Cursor(p: Phase): nat {
    if p.Watching? then p.cursor else 0
  }

  /** The one step the handler of `a` takes next on its way to the gate. */
  function WaitStep(p: Phase, a: nat): Step
    requires InWait(p)
  {
    match p
    case Checking => CheckStep(a)
    case Starting => StartWaitStep(a)
    case Watching(_) => AdvanceStep(a)
    case _ => ClearLinkStep(a)
  }

  /** `t` is one step of `a` closer to the gate than `s`, and nothing else has changed. */
  ghost predicate Closer(s: State, t: State, a: nat)
    requires a < |s.admissions| && s.admissions[a].node.Some? && s.admissions[a].node.value < |s.nodes|
  {
    && a < |t.admissions| && t.admissions[a].node == s.admissions[a].node
    && (Rank(t.admissions[a].phase) < Rank(s.admissions[a].phase)
        || (Rank(t.admissions[a].phase) == Rank(s.admissions[a].phase)
            && Cursor(t.admissions[a].phase) < Cursor(s.admissions[a].phase)))
    && (AtGate(s, t, a)
        || (t == SetPhase(s, a, t.admissions[a].phase)
            && (t.admissions[a].phase.Gated? || InWait(t.admissions[a].phase))))
  }

  lemma CheckIsCloser(s: State, a: nat)
    requires Ready(s, a) && s.admissions[a].phase.Checking?
    ensures Closer(s, Check(s, a), a)
  {
  }

  lemma StartIsCloser(s: State, a: nat)
    requires Ready(s, a) && s.admissions[a].phase.Starting?
    ensures Closer(s, StartWait(s, a), a)
  {
  }

  lemma AdvanceIsCloser(s: State, a: nat)
    requires Ready(s, a) && s.admissions[a].phase.Watching?
    ensures Closer(s, Advance(s, a), a)
  {
    assert Knows(s.nodes, s.admissions[a]);
  }

  lemma ClearIsCloser(s: State, a: nat)
    requires Ready(s, a) && s.admissions[a].phase.Clearing?
    ensures Closer(s, ClearLink(s, a), a) && AtGate(s, ClearLink(s, a), a)
  {
  }

  /** That step succeeds and gets closer to the gate. */
  lemma WaitStepAdvances(s: State, a: nat)
    requires Ready(s, a) && InWait(s.admissions[a].phase)
    ensures Enabled(s, WaitStep(s.admissions[a].phase, a))
    ensures Closer(s, Next(s, WaitStep(s.admissions[a].phase, a)), a)
  {
    match s.admissions[a].phase
    case Checking => CheckIsCloser(s, a);
    case Starting => StartIsCloser(s, a);
    case Watching(_) => AdvanceIsCloser(s, a);
    case _ => ClearIsCloser(s, a);
  }

  /** What is settled behind a node stays settled when the admission moves on. */
  lemma CloserIsReady(s: State, t: State, a: nat)
    requires Ready(s, a) && Inv(t) && Closer(s, t, a)
    ensures Ready(t, a)
  {
    if !AtGate(s, t, a) {
      assert t.nodes == s.nodes;
    } else {
      assert Behind(t.nodes, s.admissions[a].node.value) == {};
    }
  }

  /** Setting a phase on the way does not change what arriving at the gate means. */
  lemma AtGateSkips(s: State, t: State, u: State, a: nat)
    requires a < |s.admissions| && s.admissions[a].node.Some? && s.admissions[a].node.value < |s.nodes|
    requires a < |t.admissions| && t == SetPhase(s, a, t.admissions[a].phase) && AtGate(t, u, a)
    ensures AtGate(s, u, a)
  {
  }

  lemma GatedIsAtGate(s: State, a: nat)
    requires Inv(s) && a < |s.admissions| && s.admissions[a].node.Some? && s.admissions[a].phase.Gated?
    ensures AtGate(s, s, a)
  {
    assert Knows(s.nodes, s.admissions[a]);
    var n := s.admissions[a].node.value;
    assert s.nodes[n := s.nodes[n].(predecessor := None)] == s.nodes;
    assert s.admissions[a := s.admissions[a].(phase := Gated)] == s.admissions;
  }

  lemma CloserToGate(s: State, t: State, u: State, a: nat)
    requires a < |s.admissions| && s.admissions[a].node.Some? && s.admissions[a].node.value < |s.nodes|
    requires Closer(s, t, a) && s.admissions[a].node.value < |t.nodes| && AtGate(t, u, a)
    ensures AtGate(s, u, a)
  {
    if AtGate(s, t, a) {
      AtGateTwice(s, t, u, a);
    } else {
      AtGateSkips(s, t, u, a);
    }
  }

  ghost predicate WaitRun(s: State, steps: seq<Step>, t: State, a: nat)
    requires Inv(s)
  {
    Run(s, steps) == Some(t) && forall i :: 0 <= i < |steps| ==> WaitStepOf(steps[i], a)
  }

  lemma WaitRunCons(s: State, step: Step, steps: seq<Step>, t: State, a: nat)
    requires Inv(s) && Enabled(s, step) && WaitStepOf(step, a) && WaitRun(Next(s, step), steps, t, a)
    ensures WaitRun(s, [step] + steps, t, a)
  {
    var all := [step] + steps;
    assert all[1..] == steps;
    assert forall i :: 0 <= i < |all| ==> all[i] == if i == 0 then step else steps[i - 1];
  }

  /** The handler of a ready admission reaches the gate on its own. */
  lemma {:induction false} ReachGate(s: State, a: nat) returns (steps: seq<Step>, t: State)
    requires Ready(s, a) && (InWait(s.admissions[a].phase) || s.admissions[a].phase.Gated?)
    ensures WaitRun(s, steps, t, a) && AtGate(s, t, a)
    decreases Rank(s.admissions[a].phase), Cursor(s.admissions[a].phase)
  {
    if s.admissions[a].phase.Gated? {
      GatedIsAtGate(s, a);
      steps, t := [], s;
    } else {
      var step := WaitStep(s.admissions[a].phase, a);
      WaitStepAdvances(s, a);
      var next := Next(s, step);
      CloserIsReady(s, next, a);
      steps, t := ReachGate(next, a);
      CloserToGate(s, next, t, a);
      WaitRunCons(s, step, steps, t, a);
      steps := [step] + steps;
    }
  }

  lemma AtGateTwice(s: State, t: State, u: State, a: nat)
    requires a < |s.admissions| && s.admissions[a].node.Some? && s.admissions[a].node.value < |s.nodes|
    requires AtGate(s, t, a) && t.admissions[a].node == s.admissions[a].node && AtGate(t, u, a)
    ensures AtGate(s, u, a)
  {
    assert t.nodes[s.admissions[a].node.value].predecessor.None?;
    assert u.nodes == t.nodes;
    assert u.admissions == t.admissions;
  }

  // ----- Serving one reservation -----

  /** Call `c` of request `id` is the only one, and only `writes` writes are open. */
  ghost predicate Serving(u: State, id: RequestId, c: nat, finished: bool, writes: nat) {
    && !u.closed && u.active == map[id := c] && u.pendingWrites == writes
    && c < |u.calls| && u.calls[c].requestId == id && u.calls[c].active
    && u.calls[c].operationFinished == finished
    && u.calls[c].operation == (if finished then Completed else Running)
    && !u.calls[c].answered
  }

  lemma AdmitIdle(s: State, a: nat)
    requires Inv(s) && Idle(s) && Enabled(s, GateStep(a)) && OwnsPending(s, a) && s.admissions[a].node.Some?
    ensures var u := Gate(s, a);
      var n := s.admissions[a].node.value;
      && n < |s.nodes|
      && u.nodes == s.nodes[n := s.nodes[n].(state := Admitted)]
      && u.pending == s.pending - {s.admissions[a].requestId}
      && u.admissions == s.admissions[a := s.admissions[a].(node := None, phase := Returned(|s.calls|))]
      && Serving(u, s.admissions[a].requestId, |s.calls|, false, 0)
      && u.calls[|s.calls|].admission == Some(n)
  {
    GateIsInstall(s, a);
  }

  /** Nodes, admissions and pending entries stay as they are. */
  predicate SameQueue(s: State, t: State) {
    t.nodes == s.nodes && t.admissions == s.admissions && t.pending == s.pending
  }

  lemma CompleteServing(s: State, id: RequestId, c: nat)
    requires Inv(s) && Serving(s, id, c, false, 0)
    ensures var u := Complete(s, c);
      SameQueue(s, u) && Serving(u, id, c, true, 0) && u.calls[c].admission == s.calls[c].admission
  {
  }

  lemma RespondServing(s: State, id: RequestId, c: nat)
    requires Inv(s) && Serving(s, id, c, true, 0)
    ensures Enabled(s, RespondStep(id, Some(c)))
    ensures var u := Respond(s, id, Some(c));
      && SameQueue(s, u) && !u.closed && u.active == s.active && u.pendingWrites == 1
      && u.writes == s.writes + [Write(id, c, Writing)]
      && c < |u.calls| && u.calls[c].requestId == id && u.calls[c].admission == s.calls[c].admission
  {
  }

  lemma TakeServing(s: State, id: RequestId, c: nat, w: nat, n: nat)
    requires Inv(s) && s.active == map[id := c] && c < |s.calls| && s.calls[c].requestId == id
    requires w < |s.writes| && s.writes[w].phase.Writing? && s.writes[w].call == c
    requires s.calls[c].admission == Some(n) && n < |s.nodes| && s.nodes[n].state == Admitted
    ensures var u := TakeDelivery(s, w, Delivered);
      && u.nodes == s.nodes[n := s.nodes[n].(state := Finished)]
      && u.admissions == s.admissions && u.pending == s.pending && u.closed == s.closed
      && u.active == map[] && u.pendingWrites == s.pendingWrites
      && |u.writes| == |s.writes| && u.writes[w].phase.Taken?
  {
  }

  lemma SettleServing(s: State, w: nat)
    requires Inv(s) && w < |s.writes| && s.writes[w].phase.Taken? && s.pendingWrites == 1
    requires s.active == map[] && !s.closed
    ensures var u := ApplyDelivery(s, w);
      && w < |u.writes| && u.writes[w].phase.Acknowledged? && u.pendingWrites == 1
      && SameQueue(s, SettleWrite(u, w)) && Idle(SettleWrite(u, w))
  {
  }

  /** The reservation of `a` ends in state `state`, and the others are where they were. */
  predicate Ended(s: State, t: State, a: nat, state: NodeState)
    requires a < |s.admissions| && s.admissions[a].node.Some? && s.admissions[a].node.value < |s.nodes|
  {
    var n := s.admissions[a].node.value;
    && |t.nodes| == |s.nodes| && t.nodes[n].state == state
    && (forall m :: 0 <= m < |s.nodes| && m != n ==> t.nodes[m].state == s.nodes[m].state)
    && |t.admissions| == |s.admissions|
    && (forall b :: 0 <= b < |s.admissions| && b != a ==> t.admissions[b] == s.admissions[b])
    && (t.pending == s.pending || (OwnsPending(s, a) && t.pending == s.pending - {s.admissions[a].requestId}))
  }

  /** The admission, the operation, and the response write of the call admitted at the gate. */
  lemma ServeAtGate(s: State, a: nat) returns (steps: seq<Step>, t: State)
    requires Inv(s) && Idle(s) && Enabled(s, GateStep(a)) && OwnsPending(s, a)
    requires s.admissions[a].node.Some? && s.admissions[a].node.value < |s.nodes|
    ensures HandlerRun(s, steps, t) && Inv(t) && Idle(t) && Ended(s, t, a, Finished)
  {
    var id, c, n := s.admissions[a].requestId, |s.calls|, s.admissions[a].node.value;
    AdmitIdle(s, a);
    var u1 := Next(s, GateStep(a));
    HandlerRunOne(s, GateStep(a));
    var rest;
    rest, t := ServeCall(u1, id, c, n);
    HandlerRunAppend(s, [GateStep(a)], u1, rest, t);
    ServedEnds(s, u1, t, a);
    steps := [GateStep(a)] + rest;
  }

  lemma ServedEnds(s: State, u: State, t: State, a: nat)
    requires a < |s.admissions| && s.admissions[a].node.Some? && s.admissions[a].node.value < |s.nodes|
    requires OwnsPending(s, a)
    requires
      var n := s.admissions[a].node.value;
      && u.nodes == s.nodes[n := s.nodes[n].(state := Admitted)]
      && u.pending == s.pending - {s.admissions[a].requestId}
      && u.admissions == s.admissions[a := s.admissions[a].(node := None, phase := Returned(|s.calls|))]
      && t.nodes == u.nodes[n := u.nodes[n].(state := Finished)]
      && t.admissions == u.admissions && t.pending == u.pending
    ensures Ended(s, t, a, Finished)
  {
  }

  lemma ServeCall(s: State, id: RequestId, c: nat, n: nat) returns (steps: seq<Step>, t: State)
    requires Inv(s) && Serving(s, id, c, false, 0) && s.calls[c].admission == Some(n)
    requires n < |s.nodes| && s.nodes[n].state == Admitted
    ensures HandlerRun(s, steps, t) && Inv(t) && Idle(t)
    ensures t.nodes == s.nodes[n := s.nodes[n].(state := Finished)]
    ensures t.admissions == s.admissions && t.pending == s.pending
  {
    CompleteServing(s, id, c);
    var u2 := Next(s, CompleteStep(c));
    HandlerRunOne(s, CompleteStep(c));
    RespondServing(u2, id, c);
    var u3 := Next(u2, RespondStep(id, Some(c)));
    HandlerRunOne(u2, RespondStep(id, Some(c)));
    HandlerRunAppend(s, [CompleteStep(c)], u2, [RespondStep(id, Some(c))], u3);
    var w := |u2.writes|;
    var rest;
    rest, t := ServeWrite(u3, id, c, w, n);
    HandlerRunAppend(s, [CompleteStep(c)] + [RespondStep(id, Some(c))], u3, rest, t);
    steps := [CompleteStep(c)] + [RespondStep(id, Some(c))] + rest;
  }

  lemma ServeWrite(s: State, id: RequestId, c: nat, w: nat, n: nat) returns (steps: seq<Step>, t: State)
    requires Inv(s) && !s.closed && s.active == map[id := c] && c < |s.calls| && s.calls[c].requestId == id
    requires w < |s.writes| && s.writes[w].phase.Writing? && s.writes[w].call == c && s.pendingWrites == 1
    requires s.calls[c].admission == Some(n) && n < |s.nodes| && s.nodes[n].state == Admitted
    ensures HandlerRun(s, steps, t) && Inv(t) && Idle(t)
    ensures t.nodes == s.nodes[n := s.nodes[n].(state := Finished)]
    ensures t.admissions == s.admissions && t.pending == s.pending
  {
    TakeServing(s, id, c, w, n);
    var u4 := Next(s, TakeDeliveryStep(w, Delivered));
    HandlerRunOne(s, TakeDeliveryStep(w, Delivered));
    SettleServing(u4, w);
    var u5 := Next(u4, ApplyDeliveryStep(w));
    HandlerRunOne(u4, ApplyDeliveryStep(w));
    t := Next(u5, SettleWriteStep(w));
    HandlerRunOne(u5, SettleWriteStep(w));
    HandlerRunAppend(s, [TakeDeliveryStep(w, Delivered)], u4, [ApplyDeliveryStep(w)], u5);
    HandlerRunAppend(s, [TakeDeliveryStep(w, Delivered)] + [ApplyDeliveryStep(w)], u5, [SettleWriteStep(w)], t);
    steps := [TakeDeliveryStep(w, Delivered)] + [ApplyDeliveryStep(w)] + [SettleWriteStep(w)];
  }

  lemma DropEnds(s: State, a: nat)
    requires Inv(s) && Idle(s) && a < |s.admissions| && s.admissions[a].node.Some?
    ensures s.admissions[a].node.value < |s.nodes|
    ensures Enabled(s, DropAdmissionStep(a))
    ensures var t := DropAdmission(s, a);
      && Idle(t) && Enabled(t, UnregisterStep(a)) && OwnsPending(t, a) == OwnsPending(s, a)
      && Ended(s, t, a, Skipped)
  {
  }

  lemma UnregisterEnds(s: State, t: State, a: nat)
    requires a < |s.admissions| && s.admissions[a].node.Some? && s.admissions[a].node.value < |s.nodes|
    requires WellFormed(t) && a < |t.admissions| && Idle(t) && !OwnsPending(t, a) && Ended(s, t, a, Skipped)
    ensures Idle(Unregister(t, a)) && Ended(s, Unregister(t, a), a, Skipped)
  {
  }

  /** A reservation that lost its place is skipped by its own drop. */
  lemma SkipOne(s: State, a: nat) returns (steps: seq<Step>, t: State)
    requires Inv(s) && Idle(s) && a < |s.admissions| && s.admissions[a].node.Some? && !OwnsPending(s, a)
    ensures HandlerRun(s, steps, t) && Inv(t) && Idle(t)
    ensures s.admissions[a].node.value < |s.nodes| && Ended(s, t, a, Skipped)
  {
    DropEnds(s, a);
    var u := Next(s, DropAdmissionStep(a));
    HandlerRunOne(s, DropAdmissionStep(a));
    UnregisterEnds(s, u, a);
    t := Next(u, UnregisterStep(a));
    HandlerRunOne(u, UnregisterStep(a));
    HandlerRunAppend(s, [DropAdmissionStep(a)], u, [UnregisterStep(a)], t);
    steps := [DropAdmissionStep(a)] + [UnregisterStep(a)];
  }

  lemma NothingAdmittedWhenIdle(s: State)
    requires Inv(s) && Idle(s)
    ensures forall n :: 0 <= n < |s.nodes| ==> s.nodes[n].state != Admitted
  {
    assert forall c :: 0 <= c < |s.calls| ==> !IsCurrent(s.active, s.calls, c);
  }

  /** Nothing behind the oldest waiting node of an idle transport still has to settle. */
  lemma OldestIsReady(s: State, n: nat)
    requires Inv(s) && Idle(s) && n < |s.nodes| && s.nodes[n].state == Waiting
    requires forall m :: 0 <= m < n ==> s.nodes[m].state != Waiting
    ensures AllSettledBehind(s.nodes, n)
  {
    NothingAdmittedWhenIdle(s);
  }

  lemma AtGateIsIdle(s: State, t: State, a: nat)
    requires a < |s.admissions| && s.admissions[a].node.Some? && s.admissions[a].node.value < |s.nodes|
    requires AtGate(s, t, a)
    ensures Idle(s) ==> Idle(t)
    ensures a < |t.admissions| && OwnsPending(t, a) == OwnsPending(s, a) && t.admissions[a].node == s.admissions[a].node
    ensures forall u, state :: Ended(t, u, a, state) ==> Ended(s, u, a, state)
  {
  }

  lemma WaitRunIsHandlerRun(s: State, steps: seq<Step>, t: State, a: nat)
    requires Inv(s) && WaitRun(s, steps, t, a)
    ensures HandlerRun(s, steps, t)
  {
  }

  lemma OwnerMayWait(s: State, a: nat)
    requires Inv(s) && a < |s.admissions| && s.admissions[a].node.Some? && OwnsPending(s, a)
    ensures InWait(s.admissions[a].phase) || s.admissions[a].phase.Gated?
  {
  }

  /**
    The oldest waiting reservation of an idle transport can always be served: if
    it still owns its place its call is admitted, answered and settled, and
    otherwise it is skipped. Handlers alone do that, and the transport is idle again.
  */
  lemma ServeOldest(s: State, n: nat) returns (steps: seq<Step>, t: State)
    requires Inv(s) && Idle(s) && n < |s.nodes| && s.nodes[n].state == Waiting
    requires forall m :: 0 <= m < n ==> s.nodes[m].state != Waiting
    ensures HandlerRun(s, steps, t) && Inv(t) && Idle(t)
    ensures s.nodes[n].owner < |s.admissions| && s.admissions[s.nodes[n].owner].node == Some(n)
    ensures Ended(s, t, s.nodes[n].owner, if OwnsPending(s, s.nodes[n].owner) then Finished else Skipped)
  {
    var a := s.nodes[n].owner;
    if OwnsPending(s, a) {
      OldestIsReady(s, n);
      OwnerMayWait(s, a);
      var gate;
      steps, gate := ReachGate(s, a);
      WaitRunIsHandlerRun(s, steps, gate, a);
      AtGateIsIdle(s, gate, a);
      var rest;
      rest, t := ServeAtGate(gate, a);
      HandlerRunAppend(s, steps, gate, rest, t);
      steps := steps + rest;
    } else {
      steps, t := SkipOne(s, a);
    }
  }

  // ----- Draining -----

  /** The node of every reservation that owned its place has finished; the rest were skipped. */
  ghost predicate Drained(s: State, t: State) {
    && |t.nodes| == |s.nodes|
    && forall n :: 0 <= n < |s.nodes| ==>
      t.nodes[n].state ==
        if s.nodes[n].state != Waiting then s.nodes[n].state
        else if s.nodes[n].owner < |s.admissions| && OwnsPending(s, s.nodes[n].owner) then Finished
        else Skipped
  }

  lemma DrainStep(s: State, t: State, u: State, a: nat)
    requires Inv(s) && Inv(t) && a < |s.admissions| && s.admissions[a].node.Some? && s.admissions[a].node.value < |s.nodes|
    requires Ended(s, t, a, if OwnsPending(s, a) then Finished else Skipped) && Drained(t, u)
    ensures Drained(s, u)
  {
    forall n | 0 <= n < |s.nodes| && s.nodes[n].state == Waiting && s.nodes[n].owner != a
      ensures t.nodes[n].state == Waiting && t.nodes[n].owner == s.nodes[n].owner
      ensures OwnsPending(s, s.nodes[n].owner) == OwnsPending(t, s.nodes[n].owner)
    {
      var b := s.nodes[n].owner;
      assert s.admissions[b].node == Some(n);
      assert n != s.admissions[a].node.value;
      assert t.admissions[b] == s.admissions[b];
    }
  }

  lemma WaitingShrinks(s: State, t: State, a: nat, state: NodeState)
    requires a < |s.admissions| && s.admissions[a].node.Some? && s.admissions[a].node.value < |s.nodes|
    requires Ended(s, t, a, state) && state != Waiting
    requires s.nodes[s.admissions[a].node.value].state == Waiting
    ensures WaitingNodes(t.nodes) == WaitingNodes(s.nodes) - {s.admissions[a].node.value}
  {
  }

  lemma {:induction false} Oldest(nodes: seq<Node>, n: nat) returns (oldest: nat)
    requires n < |nodes| && nodes[n].state == Waiting
    ensures oldest < |nodes| && nodes[oldest].state == Waiting
    ensures forall m :: 0 <= m < oldest ==> nodes[m].state != Waiting
  {
    if m :| 0 <= m < n && nodes[m].state == Waiting {
      oldest := Oldest(nodes, m);
    } else {
      oldest := n;
    }
  }

  /**
    Progress. From every reachable idle state, a finite run of handler steps
    empties the whole chain. Every reservation that was not cancelled ends up
    admitted, answered and finished; every other one is skipped.
  */
  lemma {:induction false} ChainDrains(s: State) returns (steps: seq<Step>, t: State)
    requires Inv(s) && Idle(s)
    ensures HandlerRun(s, steps, t) && Inv(t) && Idle(t) && Drained(s, t)
    ensures WaitingNodes(t.nodes) == {}
    decreases |WaitingNodes(s.nodes)|
  {
    if WaitingNodes(s.nodes) == {} {
      steps, t := [], s;
      assert forall n :: 0 <= n < |s.nodes| ==> (s.nodes[n].state == Waiting <==> n in WaitingNodes(s.nodes));
    } else {
      var some :| some in WaitingNodes(s.nodes);
      var n := Oldest(s.nodes, some);
      var a := s.nodes[n].owner;
      var next, rest;
      steps, next := ServeOldest(s, n);
      WaitingShrinks(s, next, a, if OwnsPending(s, a) then Finished else Skipped);
      assert n in WaitingNodes(s.nodes);
      rest, t := ChainDrains(next);
      DrainStep(s, next, t, a);
      HandlerRunAppend(s, steps, next, rest, t);
      steps := steps + rest;
    }
  }

  // ----- Who holds an admitted node -----

  /** A node is admitted exactly when the current call of some request holds it. */
  lemma AdmittedIffHeldByActiveCall(s: State, n: nat)
    requires Reachable(s) && n < |s.nodes|
    ensures s.nodes[n].state == Admitted
      <==> exists id :: id in s.active && s.active[id] < |s.calls| && s.calls[s.active[id]].admission == Some(n)
  {
    ReachableInv(s);
    if s.nodes[n].state == Admitted {
      var c :| 0 <= c < |s.calls| && s.calls[c].admission == Some(n);
      assert IsCurrent(s.active, s.calls, c);
      var id := s.calls[c].requestId;
      assert id in s.active && s.active[id] == c;
    }
  }
}
