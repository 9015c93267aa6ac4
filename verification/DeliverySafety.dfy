/**
  What holds over whole runs of the admission protocol: order, node slots, the
  settlement of deliveries, stale actors, and the response gate.
*/
module DeliverySafety {
  import opened Options
  import opened DeliveryModel
  import opened DeliveryInvariant
  import opened DeliverySteps

  /** The state after an enabled step. */
  ghost function Next(s: State, step: Step): (t: State)
    requires Inv(s) && Enabled(s, step)
    ensures Inv(t)
  {
    StepKeeps(s, step);
    Apply(s, step)
  }

  /** The state after `steps`, if each of them is enabled in its turn. */
  ghost function Run(s: State, steps: seq<Step>): (r: Option<State>)
    requires Inv(s)
    ensures r.Some? ==> Inv(r.value)
    decreases |steps|
  {
    if steps == [] then Some(s)
    else if !Enabled(s, steps[0]) then None
    else Run(Next(s, steps[0]), steps[1..])
  }

  ghost predicate Reachable(s: State) {
    InitialInv();
    exists steps: seq<Step> :: Run(Initial(), steps) == Some(s)
  }

  lemma ReachableInv(s: State)
    requires Reachable(s)
    ensures Inv(s)
  {
    InitialInv();
    var steps: seq<Step> :| Run(Initial(), steps) == Some(s);
  }


  lemma {:induction false} RunAppend(s: State, xs: seq<Step>, ys: seq<Step>)
    requires Inv(s) && Run(s, xs).Some?
    ensures Run(s, xs + ys) == Run(Run(s, xs).value, ys)
    decreases |xs|
  {
    if xs == [] {
      assert xs + ys == ys;
    } else {
      var zs := xs + ys;
      assert zs[0] == xs[0] && zs[1..] == xs[1..] + ys;
      RunAppend(Next(s, xs[0]), xs[1..], ys);
    }
  }

  /** A run continued by one step. */
  lemma Extend(s: State, steps: seq<Step>, t: State, step: Step)
    requires Inv(s) && Run(s, steps) == Some(t) && Enabled(t, step)
    ensures Run(s, steps + [step]) == Some(Next(t, step))
  {
    RunAppend(s, steps, [step]);
    assert [step][1..] == [];
  }

  // ----- What no step takes back -----

  predicate Follows(x: NodeState, y: NodeState) {
    x == y || x == Waiting || (x == Admitted && y == Finished)
  }

  /** Nodes only move forward, and what was recorded at a reservation stays. */
  ghost predicate Grows(s: State, t: State) {
    && |s.nodes| <= |t.nodes| && |s.ahead| == |s.nodes| && |t.ahead| == |t.nodes|
    && (forall n :: 0 <= n < |s.nodes| ==>
          && Follows(s.nodes[n].state, t.nodes[n].state)
          && t.nodes[n].owner == s.nodes[n].owner
          && t.ahead[n] == s.ahead[n])
    && s.settled <= t.settled
    && s.deliveries <= t.deliveries
    && |s.calls| <= |t.calls|
    && (forall c :: 0 <= c < |s.calls| ==>
          && t.calls[c].requestId == s.calls[c].requestId
          && (!s.calls[c].operation.Running? ==> t.calls[c].operation == s.calls[c].operation))
    && |s.writes| <= |t.writes|
    && (forall w :: 0 <= w < |s.writes| ==> t.writes[w].call == s.writes[w].call)
  }

  lemma GrowsTransitive(s: State, t: State, u: State)
    requires Grows(s, t) && Grows(t, u)
    ensures Grows(s, u)
  {
  }

  lemma AbandonGrows(s: State, c: nat)
    requires WellFormed(s) && c < |s.calls|
    ensures Grows(s, AbandonCall(s, c))
  {
    AbandonCallIs(s, c);
  }

  lemma TakeReservationGrows(s: State, a: nat)
    requires WellFormed(s) && a < |s.admissions|
    ensures Grows(s, TakeReservation(s, a))
  {
  }

  lemma StartCallGrows(s: State, id: RequestId, admission: Option<nat>)
    requires WellFormed(s) && NodeIndex(admission, s.nodes)
    ensures Grows(s, StartCall(s, id, admission))
  {
    var started := s.(
      calls := s.calls + [Call(id, true, false, None, admission, Running, false, false)],
      active := s.active[id := |s.calls|]);
    assert WellFormed(started);
    if id in s.active {
      AbandonGrows(started, s.active[id]);
      GrowsTransitive(s, started, AbandonCall(started, s.active[id]));
    }
  }

  lemma GateGrows(s: State, a: nat)
    requires WellFormed(s) && a < |s.admissions|
    ensures Grows(s, Gate(s, a))
  {
    if !s.closed && OwnsPending(s, a) && (s.admissions[a].node.None? || !ResponseGateActive(s)) {
      AdmitGrows(s, a);
    }
  }

  lemma AdmitGrows(s: State, a: nat)
    requires WellFormed(s) && a < |s.admissions|
    ensures WellFormed(TakeReservation(s, a))
    ensures Grows(s, StartCall(TakeReservation(s, a), s.admissions[a].requestId, s.admissions[a].node))
  {
    TakeReservationGrows(s, a);
    var taken := TakeReservation(s, a);
    assert WellFormed(taken);
    StartCallGrows(taken, s.admissions[a].requestId, s.admissions[a].node);
    GrowsTransitive(s, taken, StartCall(taken, s.admissions[a].requestId, s.admissions[a].node));
  }

  lemma OperationGrows(s: State, c: nat, operation: Operation)
    requires WellFormed(s) && c < |s.calls| && s.calls[c].operation.Running?
    ensures var t := s.(calls := s.calls[c := s.calls[c].(operation := operation)]);
      WellFormed(t) && Grows(s, t) && Grows(s, AbandonCall(t, c))
  {
    var t := s.(calls := s.calls[c := s.calls[c].(operation := operation)]);
    assert WellFormed(t);
    AbandonGrows(t, c);
    GrowsTransitive(s, t, AbandonCall(t, c));
  }

  lemma FinishAdmissionGrows(s: State, c: nat)
    requires WellFormed(s) && c < |s.calls|
    ensures Grows(s, FinishAdmission(s, c))
  {
  }

  lemma CancelGrows(s: State, id: RequestId)
    requires WellFormed(s)
    ensures Grows(s, Cancel(s, id))
  {
    if id !in s.pending && id in s.active {
      var c := s.active[id];
      var t := s.(calls := s.calls[c := s.calls[c].(active := false, delivery := None)],
                  outbox := s.outbox + Hand(s.calls[c].delivery));
      assert WellFormed(t);
      FinishAdmissionGrows(t, c);
      GrowsTransitive(s, t, FinishAdmission(t, c));
    }
  }

  lemma TakeDeliveryGrows(s: State, w: nat, outcome: Outcome)
    requires WellFormed(s) && w < |s.writes|
    ensures Grows(s, TakeDelivery(s, w, outcome))
  {
    var c := s.writes[w].call;
    if Current(s, c) {
      FinishAdmissionGrows(Retire(s, c), c);
    }
  }

  lemma ReserveGrows(s: State, id: RequestId)
    requires WellFormed(s)
    ensures Grows(s, Reserve(s, id))
  {
  }

  lemma CloseGrows(s: State)
    requires WellFormed(s)
    ensures Grows(s, Close(s))
  {
  }

  predicate WriteStep(step: Step) {
    step.RespondStep? || step.TakeDeliveryStep? || step.ApplyDeliveryStep? || step.SettleWriteStep?
  }

  lemma AdmissionStepGrows(s: State, step: Step)
    requires WellFormed(s) && Enabled(s, step) && CountersHold(s, step) && AdmissionStep(step)
    ensures Grows(s, Apply(s, step))
  {
    match step
    case ReserveStep(id) => ReserveGrows(s, id);
    case GateStep(a) => GateGrows(s, a);
    case DropAdmissionStep(a) =>
    case UnregisterStep(a) =>
    case DropNodeStep(n) =>
    case _ => WaitStepGrows(s, step);
  }

  lemma WaitStepGrows(s: State, step: Step)
    requires WellFormed(s) && Enabled(s, step)
    requires step.CheckStep? || step.StartWaitStep? || step.AdvanceStep? || step.RestartStep? || step.ClearLinkStep?
    ensures Grows(s, Apply(s, step))
  {
  }

  lemma WriteStepGrows(s: State, step: Step)
    requires WellFormed(s) && Enabled(s, step) && CountersHold(s, step) && WriteStep(step)
    ensures Grows(s, Apply(s, step))
  {
    match step
    case RespondStep(id, source) => RespondGrows(s, id, source);
    case TakeDeliveryStep(w, outcome) => TakeDeliveryGrows(s, w, outcome);
    case ApplyDeliveryStep(w) =>
    case SettleWriteStep(w) =>
  }

  lemma RespondGrows(s: State, id: RequestId, source: Option<nat>)
    requires WellFormed(s) && Enabled(s, RespondStep(id, source))
    ensures Grows(s, Respond(s, id, source))
  {
  }

  lemma CallStepGrows(s: State, step: Step)
    requires WellFormed(s) && Enabled(s, step) && CountersHold(s, step) && !AdmissionStep(step) && !WriteStep(step)
    ensures Grows(s, Apply(s, step))
  {
    match step
    case CompleteStep(c) => OperationGrows(s, c, Completed);
    case DropOperationStep(c) => OperationGrows(s, c, Dropped);
    case CancelStep(id) => CancelGrows(s, id);
    case CloseStep => CloseGrows(s);
    case RegisterStep(c) => RegisterGrows(s, c);
    case SettleUnclaimedStep(_) =>
  }

  lemma RegisterGrows(s: State, c: nat)
    requires WellFormed(s) && c < |s.calls|
    ensures Grows(s, Register(s, c))
  {
  }

  lemma ApplyGrows(s: State, step: Step)
    requires WellFormed(s) && Enabled(s, step) && CountersHold(s, step)
    ensures Grows(s, Apply(s, step))
  {
    if AdmissionStep(step) {
      AdmissionStepGrows(s, step);
    } else if WriteStep(step) {
      WriteStepGrows(s, step);
    } else {
      CallStepGrows(s, step);
    }
  }

  lemma StepGrows(s: State, step: Step)
    requires Inv(s) && Enabled(s, step)
    ensures Grows(s, Next(s, step))
  {
    StepKeeps(s, step);
    ApplyGrows(s, step);
  }

  lemma {:induction false} RunGrows(s: State, steps: seq<Step>)
    requires Inv(s) && Run(s, steps).Some?
    ensures Grows(s, Run(s, steps).value)
    decreases |steps|
  {
    if steps != [] {
      var t := Next(s, steps[0]);
      StepGrows(s, steps[0]);
      RunGrows(t, steps[1..]);
      GrowsTransitive(s, t, Run(t, steps[1..]).value);
    }
  }

  // ----- Order -----

  /**
    While the transport is open every waiting node is on the chain from the
    tail, and nothing at all lies behind a node that was ever admitted.
  */
  lemma WaitingNodesAreOnTheTail(s: State)
    requires Reachable(s)
    ensures WellFormed(s)
    ensures !s.closed ==> forall n :: 0 <= n < |s.nodes| && s.nodes[n].state == Waiting ==>
              OnTail(s.nodes, s.admissionTail, n)
    ensures forall n :: 0 <= n < |s.nodes| && (s.nodes[n].state == Admitted || s.nodes[n].state == Finished) ==>
              Behind(s.nodes, n) == {}
  {
    ReachableInv(s);
  }

  /** Abandoning a call, like starting one, admits no node. */
  ghost predicate NoneAdmitted(nodes: seq<Node>, nodes': seq<Node>) {
    && |nodes| <= |nodes'|
    && forall n :: 0 <= n < |nodes| && nodes[n].state != Admitted ==> nodes'[n].state != Admitted
  }

  lemma StartCallAdmitsNone(s: State, id: RequestId, admission: Option<nat>)
    requires WellFormed(s) && NodeIndex(admission, s.nodes)
    ensures NoneAdmitted(s.nodes, StartCall(s, id, admission).nodes)
  {
    var started := s.(
      calls := s.calls + [Call(id, true, false, None, admission, Running, false, false)],
      active := s.active[id := |s.calls|]);
    assert WellFormed(started);
    if id in s.active {
      AbandonCallIs(started, s.active[id]);
    }
  }

  lemma GateAdmitsItsOwn(s: State, a: nat, n: nat)
    requires WellFormed(s) && a < |s.admissions| && n < |s.nodes| && s.nodes[n].state != Admitted
    requires n < |Gate(s, a).nodes| && Gate(s, a).nodes[n].state == Admitted
    ensures s.admissions[a].node == Some(n) && !ResponseGateActive(s)
  {
    var taken := TakeReservation(s, a);
    assert WellFormed(taken);
    StartCallAdmitsNone(taken, s.admissions[a].requestId, s.admissions[a].node);
  }

  lemma EndingAdmitsNone(s: State, c: nat, operation: Operation)
    requires WellFormed(s) && c < |s.calls|
    ensures var t := s.(calls := s.calls[c := s.calls[c].(operation := operation)]);
      WellFormed(t) && NoneAdmitted(s.nodes, AbandonCall(t, c).nodes)
  {
    var t := s.(calls := s.calls[c := s.calls[c].(operation := operation)]);
    assert WellFormed(t);
    AbandonCallIs(t, c);
  }

  lemma CancelAdmitsNone(s: State, id: RequestId)
    requires WellFormed(s)
    ensures NoneAdmitted(s.nodes, Cancel(s, id).nodes)
  {
  }

  lemma AdmissionStepsAdmitNone(s: State, step: Step)
    requires WellFormed(s) && Enabled(s, step) && AdmissionStep(step) && !step.GateStep? && CountersHold(s, step)
    ensures NoneAdmitted(s.nodes, Apply(s, step).nodes)
  {
    match step
    case ReserveStep(id) =>
    case CheckStep(a) =>
    case StartWaitStep(a) =>
    case AdvanceStep(a) =>
    case RestartStep(a) =>
    case ClearLinkStep(a) =>
    case DropAdmissionStep(a) =>
    case UnregisterStep(a) =>
    case DropNodeStep(n) =>
  }

  lemma TakingAdmitsNone(s: State, w: nat, outcome: Outcome)
    requires WellFormed(s) && w < |s.writes|
    ensures NoneAdmitted(s.nodes, TakeDelivery(s, w, outcome).nodes)
  {
  }

  lemma ClosingAdmitsNone(s: State)
    requires WellFormed(s)
    ensures NoneAdmitted(s.nodes, Close(s).nodes)
  {
  }

  lemma CallStepsAdmitNone(s: State, step: Step)
    requires WellFormed(s) && Enabled(s, step) && !AdmissionStep(step) && CountersHold(s, step)
    ensures NoneAdmitted(s.nodes, Apply(s, step).nodes)
  {
    match step
    case CompleteStep(c) => EndingAdmitsNone(s, c, Completed);
    case DropOperationStep(c) => EndingAdmitsNone(s, c, Dropped);
    case CancelStep(id) => CancelAdmitsNone(s, id);
    case CloseStep => ClosingAdmitsNone(s);
    case TakeDeliveryStep(w, outcome) => TakingAdmitsNone(s, w, outcome);
    case _ =>
  }

  /** Only the gate admits a node: while it is open, and for the admission that owns the node. */
  lemma OnlyTheGateAdmits(s: State, step: Step, n: nat)
    requires Inv(s) && Enabled(s, step) && n < |s.nodes| && s.nodes[n].state != Admitted
    requires n < |Next(s, step).nodes| && Next(s, step).nodes[n].state == Admitted
    ensures step.GateStep? && s.admissions[step.a].node == Some(n) && s.nodes[n].predecessor.None?
    ensures !ResponseGateActive(s)
  {
    StepKeeps(s, step);
    if step.GateStep? {
      GateAdmitsItsOwn(s, step.a, n);
      assert Knows(s.nodes, s.admissions[step.a]);
    } else if AdmissionStep(step) {
      AdmissionStepsAdmitNone(s, step);
    } else {
      CallStepsAdmitNone(s, step);
    }
  }

  /** Whatever was ahead of a node with no link left has settled. */
  lemma UnlinkedIsClear(s: State, n: nat)
    requires Inv(s) && n < |s.nodes| && s.nodes[n].state == Waiting && s.nodes[n].predecessor.None?
    ensures forall m :: m in s.ahead[n] ==> m < n && SettledNode(s.nodes[m])
  {
    assert Behind(s.nodes, n) == {};
  }

  /**
    No overtaking. Let a reservation be queued in state `before`. Whenever its
    node is admitted later, every node that was waiting in `before` has been
    finished or skipped by then, whatever was cancelled or dropped in between.
  */
  lemma NoOvertaking(before: State, id: RequestId, steps: seq<Step>, s: State, step: Step)
    requires Reachable(before) && Inv(before) && |Next(before, ReserveStep(id)).nodes| > |before.nodes|
    requires Run(Next(before, ReserveStep(id)), steps) == Some(s)
    requires Enabled(s, step) && |before.nodes| < |s.nodes| && |before.nodes| < |Next(s, step).nodes|
    requires s.nodes[|before.nodes|].state != Admitted
    requires Next(s, step).nodes[|before.nodes|].state == Admitted
    ensures forall m :: m in WaitingNodes(before.nodes) ==> m < |s.nodes| && SettledNode(s.nodes[m])
  {
    var n := |before.nodes|;
    QueueRecords(before, id);
    RunGrows(Next(before, ReserveStep(id)), steps);
    OnlyTheGateAdmits(s, step, n);
    SlotIsWaiting(s, step.a);
    UnlinkedIsClear(s, n);
  }

  lemma QueueRecords(s: State, id: RequestId)
    requires Inv(s) && |Next(s, ReserveStep(id)).nodes| > |s.nodes|
    ensures |s.nodes| < |Next(s, ReserveStep(id)).ahead|
    ensures Next(s, ReserveStep(id)).ahead[|s.nodes|] == WaitingNodes(s.nodes)
  {
  }

  lemma SlotIsWaiting(s: State, a: nat)
    requires Inv(s) && a < |s.admissions| && s.admissions[a].node.Some?
    ensures s.admissions[a].node.value < |s.nodes| && s.nodes[s.admissions[a].node.value].state == Waiting
  {
  }

  // ----- Node slots -----

  /** The nodes that a root leads to. */
  ghost predicate ReachedNode(s: State, n: nat)
    requires Linked(s.nodes)
  {
    exists r: nat :: r < |s.nodes| && Root(s, r) && (r == n || n in Behind(s.nodes, r))
  }

  lemma {:induction false} BehindIsLive(nodes: seq<Node>, live: set<nat>, n: nat, m: nat)
    requires Linked(nodes) && n < |nodes| && n in live && m in Behind(nodes, n)
    requires forall k :: 0 <= k < |nodes| && k in live && nodes[k].predecessor.Some? ==> nodes[k].predecessor.value in live
    ensures m in live
  {
    var p := nodes[n].predecessor.value;
    if m != p {
      BehindIsLive(nodes, live, p, m);
    }
  }

  /** No node that could be reached is ever dropped, and the bound holds on every run. */
  lemma SlotsBounded(s: State)
    requires Reachable(s)
    ensures WellFormed(s)
    ensures s.admissionCount == |s.live| <= 64
    ensures forall n: nat :: ReachedNode(s, n) ==> n in s.live
  {
    ReachableInv(s);
    forall n: nat | ReachedNode(s, n) ensures n in s.live {
      var r: nat :| r < |s.nodes| && Root(s, r) && (r == n || n in Behind(s.nodes, r));
      assert r in s.live;
      if n in Behind(s.nodes, r) {
        BehindIsLive(s.nodes, s.live, r, n);
      }
    }
  }

  ghost predicate NoDropIsDue(s: State) {
    forall n :: n in s.live ==> Referenced(s, n)
  }

  lemma {:induction false} SuccessorReached(s: State, n: nat)
    requires Inv(s) && NoDropIsDue(s) && n in s.live
    ensures ReachedNode(s, n)
    decreases |s.nodes| - n
  {
    if Root(s, n) {
      assert n < |s.nodes|;
    } else {
      var m :| m in s.live && m < |s.nodes| && s.nodes[m].predecessor == Some(n);
      SuccessorReached(s, m);
      var r: nat :| r < |s.nodes| && Root(s, r) && (r == m || m in Behind(s.nodes, r));
      if m in Behind(s.nodes, r) {
        BehindTransitive(s.nodes, r, m);
      }
      assert n in Behind(s.nodes, m);
    }
  }

  /**
    Slot conservation. Once every drop that is due has run, the counter is the
    number of nodes reachable from the tail, live admissions and live calls
    through retained links.
  */
  lemma SlotsAreReachableNodes(s: State)
    requires Reachable(s) && NoDropIsDue(s)
    ensures WellFormed(s)
    ensures forall n: nat :: n in s.live <==> ReachedNode(s, n)
    ensures s.admissionCount == |set n: nat | n < |s.nodes| && ReachedNode(s, n)|
  {
    ReachableInv(s);
    SlotsBounded(s);
    forall n: nat | n in s.live ensures ReachedNode(s, n) {
      SuccessorReached(s, n);
    }
    assert s.live == set n: nat | n < |s.nodes| && ReachedNode(s, n);
  }

  /** With no admission left and no active call, no slot stays occupied. */
  lemma SlotsAreReturned(s: State)
    requires Reachable(s) && NoDropIsDue(s)
    requires forall a :: 0 <= a < |s.admissions| ==> s.admissions[a].phase.Gone?
    requires s.active == map[]
    ensures s.admissionCount == 0
  {
    ReachableInv(s);
    SlotsAreReachableNodes(s);
    forall n: nat | n < |s.nodes| ensures !Root(s, n) {
      assert forall c :: 0 <= c < |s.calls| ==> !IsCurrent(s.active, s.calls, c);
    }
    assert s.live == {};
  }

  // ----- Settlement -----

  lemma {:induction false} SettledTwice(settled: seq<Settlement>, i: nat, j: nat)
    requires i < j < |settled| && settled[i].delivery == settled[j].delivery
    ensures TimesSettled(settled, settled[i].delivery) >= 2
  {
    var last := |settled| - 1;
    if j < last {
      SettledTwice(settled[..last], i, j);
    } else {
      SettledOnce(settled[..last], i);
    }
  }

  lemma {:induction false} SettledOnce(settled: seq<Settlement>, i: nat)
    requires i < |settled|
    ensures TimesSettled(settled, settled[i].delivery) >= 1
  {
    if i < |settled| - 1 {
      SettledOnce(settled[..|settled| - 1], i);
    }
  }

  lemma {:induction false} SettledSomewhere(settled: seq<Settlement>, d: nat)
    requires TimesSettled(settled, d) > 0
    ensures exists i :: 0 <= i < |settled| && settled[i].delivery == d
  {
    var last := |settled| - 1;
    if settled[last].delivery != d {
      SettledSomewhere(settled[..last], d);
      var i :| 0 <= i < last && settled[..last][i].delivery == d;
      assert settled[i].delivery == d;
    }
  }

  lemma {:induction false} NothingHeld(calls: seq<Call>, d: nat)
    requires forall c :: 0 <= c < |calls| ==> calls[c].delivery.None?
    ensures Held(calls, d) == 0
  {
    if calls != [] {
      NothingHeld(calls[..|calls| - 1], d);
    }
  }

  lemma {:induction false} NothingTaken(writes: seq<Write>, d: nat)
    requires forall w :: 0 <= w < |writes| ==> !writes[w].phase.Taken?
    ensures TakenBy(writes, d) == 0
  {
    if writes != [] {
      NothingTaken(writes[..|writes| - 1], d);
    }
  }

  /**
    On every run a delivery is settled at most once, only if it was registered,
    and a call that is not in `active` holds none.
  */
  lemma SettledAtMostOnce(s: State)
    requires Reachable(s)
    ensures forall i, j :: 0 <= i < j < |s.settled| ==> s.settled[i].delivery != s.settled[j].delivery
    ensures forall i :: 0 <= i < |s.settled| ==> s.settled[i].delivery < s.deliveries
    ensures forall c :: 0 <= c < |s.calls| && s.calls[c].delivery.Some? ==> Current(s, c)
  {
    ReachableInv(s);
    forall i, j | 0 <= i < j < |s.settled| ensures s.settled[i].delivery != s.settled[j].delivery {
      var d := s.settled[i].delivery;
      assert Places(s.calls, s.outbox, s.writes, s.settled, d) <= 1;
      if s.settled[i].delivery == s.settled[j].delivery {
        SettledTwice(s.settled, i, j);
      }
    }
    forall i | 0 <= i < |s.settled| ensures s.settled[i].delivery < s.deliveries {
      var d := s.settled[i].delivery;
      SettledOnce(s.settled, i);
      assert Places(s.calls, s.outbox, s.writes, s.settled, d) == One(d < s.deliveries);
    }
    assert forall c :: 0 <= c < |s.calls| ==> Current(s, c) == IsCurrent(s.active, s.calls, c);
  }

  /**
    Once the calls are gone and nobody is about to settle anything, every
    registered delivery has been settled, and exactly once.
  */
  lemma SettledExactlyOnce(s: State, d: nat)
    requires Reachable(s) && d < s.deliveries
    requires s.active == map[] && s.outbox == multiset{}
    requires forall w :: 0 <= w < |s.writes| ==> !s.writes[w].phase.Taken?
    ensures exists i :: 0 <= i < |s.settled| && s.settled[i].delivery == d
    ensures TimesSettled(s.settled, d) == 1
  {
    ReachableInv(s);
    assert forall c :: 0 <= c < |s.calls| ==> !IsCurrent(s.active, s.calls, c);
    NothingHeld(s.calls, d);
    NothingTaken(s.writes, d);
    assert Places(s.calls, s.outbox, s.writes, s.settled, d) == One(d < s.deliveries);
    SettledSomewhere(s.settled, d);
  }

  /** What has been settled stays settled the same way on every continuation. */
  lemma SettlementsAreFinal(s: State, steps: seq<Step>, i: nat)
    requires Inv(s) && Run(s, steps).Some? && i < |s.settled|
    ensures i < |Run(s, steps).value.settled| && Run(s, steps).value.settled[i] == s.settled[i]
  {
    RunGrows(s, steps);
  }

  // ----- Stale actors -----

  /** The current reservations and calls, which a stale actor must leave alone. */
  ghost predicate SameCurrent(s: State, t: State) {
    && t.pending == s.pending
    && t.active == s.active
    && |t.calls| == |s.calls|
    && (forall id :: id in s.active ==> s.active[id] < |s.calls| && t.calls[s.active[id]] == s.calls[s.active[id]])
    && (forall id :: id in s.pending ==> s.pending[id] < |s.admissions| && s.pending[id] < |t.admissions|
                                           && t.admissions[s.pending[id]] == s.admissions[s.pending[id]])
    && t.settled == s.settled && t.outbox == s.outbox
  }

  /** A step taken for a reservation or a call that is no longer the current one of its request. */
  predicate StaleStep(s: State, step: Step)
    requires Enabled(s, step) && WellFormed(s)
  {
    match step
    case DropAdmissionStep(a) => !OwnsPending(s, a)
    case UnregisterStep(a) => !OwnsPending(s, a)
    case CheckStep(a) => !OwnsPending(s, a)
    case GateStep(a) => !OwnsPending(s, a)
    case CompleteStep(c) => !Current(s, c)
    case DropOperationStep(c) => !Current(s, c)
    case TakeDeliveryStep(w, _) => !Current(s, s.writes[w].call)
    case _ => false
  }

  lemma StaleAdmission(s: State, step: Step)
    requires Inv(s) && Enabled(s, step) && StaleStep(s, step) && AdmissionStep(step)
    ensures CountersHold(s, step) && SameCurrent(s, Apply(s, step))
  {
  }

  lemma StaleCall(s: State, step: Step)
    requires Inv(s) && Enabled(s, step) && StaleStep(s, step) && !AdmissionStep(step)
    ensures CountersHold(s, step) && SameCurrent(s, Apply(s, step))
  {
  }

  /** Stale admissions, operations and writes change nothing that is current. */
  lemma StaleStepsChangeNothingCurrent(s: State, step: Step)
    requires Reachable(s) && Inv(s) && Enabled(s, step) && StaleStep(s, step)
    ensures SameCurrent(s, Next(s, step))
  {
    if AdmissionStep(step) {
      StaleAdmission(s, step);
    } else {
      StaleCall(s, step);
    }
  }

  // ----- The response gate -----

  /** The number of pending writes is the number of write guards that have not settled. */
  lemma PendingWritesCountsGuards(s: State)
    requires Reachable(s)
    ensures s.pendingWrites == OpenWrites(s.writes)
    ensures forall w :: 0 <= w < |s.writes| && s.writes[w].phase != WritePhase.Settled ==> s.pendingWrites > 0
  {
    ReachableInv(s);
    forall w | 0 <= w < |s.writes| && s.writes[w].phase != WritePhase.Settled ensures s.pendingWrites > 0 {
      OpenWriteCounts(s.writes, w);
    }
  }

  ghost predicate OwnWriteOpen(s: State, c: nat) {
    exists w :: 0 <= w < |s.writes| && s.writes[w].call == c && s.writes[w].phase != WritePhase.Settled
  }

  /** The call has completed and the acknowledgment of its own write is still to be applied. */
  ghost predicate AwaitsAcknowledgment(s: State, c: nat) {
    && c < |s.calls|
    && s.calls[c].operation.Completed?
    && (Current(s, c) || OwnWriteOpen(s, c))
  }

  lemma AwaitingClosesTheGate(s: State, c: nat)
    requires Inv(s) && AwaitsAcknowledgment(s, c)
    ensures ResponseGateActive(s)
  {
    if Current(s, c) {
      var id := s.calls[c].requestId;
      assert IsCurrent(s.active, s.calls, c);
      assert id in s.active && BlocksNewAdmissions(s.calls[s.active[id]]);
    } else {
      var w :| 0 <= w < |s.writes| && s.writes[w].call == c && s.writes[w].phase != WritePhase.Settled;
      OpenWriteCounts(s.writes, w);
    }
  }

  /** The steps that end the wait for the acknowledgment of call `c`. */
  predicate Releases(s: State, step: Step, c: nat)
    requires c < |s.calls| && WellFormed(s) && Enabled(s, step)
  {
    match step
    case SettleWriteStep(w) => s.writes[w].call == c
    case CancelStep(id) => id == s.calls[c].requestId
    case GateStep(a) => s.admissions[a].requestId == s.calls[c].requestId
    case CloseStep => true
    case _ => false
  }

  lemma OwnWriteStays(s: State, t: State, c: nat)
    requires OwnWriteOpen(s, c) && |s.writes| <= |t.writes|
    requires forall w :: 0 <= w < |s.writes| && s.writes[w].call == c && s.writes[w].phase != WritePhase.Settled ==>
               t.writes[w].call == c && t.writes[w].phase != WritePhase.Settled
    ensures OwnWriteOpen(t, c)
  {
    var w :| 0 <= w < |s.writes| && s.writes[w].call == c && s.writes[w].phase != WritePhase.Settled;
    assert t.writes[w].call == c;
  }

  lemma AwaitingPersistsInWrites(s: State, step: Step, c: nat)
    requires WellFormed(s) && Enabled(s, step) && CountersHold(s, step) && OwnWriteOpen(s, c)
    requires c < |s.calls| && !Releases(s, step, c)
    ensures OwnWriteOpen(Apply(s, step), c)
  {
    ApplyGrows(s, step);
    WritesMoveOn(s, step);
    OwnWriteStays(s, Apply(s, step), c);
  }

  lemma EndingLeavesWrites(s: State, c: nat, operation: Operation)
    requires WellFormed(s) && c < |s.calls|
    ensures var t := s.(calls := s.calls[c := s.calls[c].(operation := operation)]);
      WellFormed(t) && AbandonCall(t, c).writes == s.writes
  {
    assert WellFormed(s.(calls := s.calls[c := s.calls[c].(operation := operation)]));
  }

  lemma AdmissionStepsLeaveWrites(s: State, step: Step)
    requires WellFormed(s) && Enabled(s, step) && CountersHold(s, step) && AdmissionStep(step)
    ensures Apply(s, step).writes == s.writes
  {
    match step
    case ReserveStep(id) =>
    case CheckStep(a) =>
    case StartWaitStep(a) =>
    case AdvanceStep(a) =>
    case RestartStep(a) =>
    case ClearLinkStep(a) =>
    case DropAdmissionStep(a) =>
    case UnregisterStep(a) =>
    case DropNodeStep(n) =>
    case GateStep(a) =>
  }

  lemma CallStepsLeaveWrites(s: State, step: Step)
    requires WellFormed(s) && Enabled(s, step) && CountersHold(s, step) && !AdmissionStep(step) && !WriteStep(step)
    ensures Apply(s, step).writes == s.writes
  {
    match step
    case CompleteStep(c) => EndingLeavesWrites(s, c, Completed);
    case DropOperationStep(c) => EndingLeavesWrites(s, c, Dropped);
    case _ =>
  }

  /** Only its own settlement settles a write. */
  lemma WritesMoveOn(s: State, step: Step)
    requires WellFormed(s) && Enabled(s, step) && CountersHold(s, step)
    ensures |s.writes| <= |Apply(s, step).writes|
    ensures forall w :: 0 <= w < |s.writes| && s.writes[w].phase != WritePhase.Settled && step != SettleWriteStep(w) ==>
              Apply(s, step).writes[w].phase != WritePhase.Settled
  {
    if AdmissionStep(step) {
      AdmissionStepsLeaveWrites(s, step);
    } else if !WriteStep(step) {
      CallStepsLeaveWrites(s, step);
    } else {
      WriteStepsMoveOn(s, step);
    }
  }

  ghost predicate MovesOn(writes: seq<Write>, writes': seq<Write>, settled: Option<nat>) {
    && |writes| <= |writes'|
    && forall w :: 0 <= w < |writes| && writes[w].phase != WritePhase.Settled && settled != Some(w) ==>
         writes'[w].phase != WritePhase.Settled
  }

  lemma TakeMovesOn(s: State, w: nat, outcome: Outcome)
    requires WellFormed(s) && w < |s.writes| && s.writes[w].phase.Writing?
    ensures MovesOn(s.writes, TakeDelivery(s, w, outcome).writes, None)
  {
  }

  lemma RespondMovesOn(s: State, id: RequestId, source: Option<nat>)
    requires WellFormed(s) && (source.Some? ==> source.value < |s.calls|)
    ensures MovesOn(s.writes, Respond(s, id, source).writes, None)
  {
  }

  lemma WriteStepsMoveOn(s: State, step: Step)
    requires WellFormed(s) && Enabled(s, step) && CountersHold(s, step) && WriteStep(step)
    ensures MovesOn(s.writes, Apply(s, step).writes, if step.SettleWriteStep? then Some(step.w) else None)
  {
    match step
    case RespondStep(id, source) => RespondMovesOn(s, id, source);
    case TakeDeliveryStep(w, outcome) => TakeMovesOn(s, w, outcome);
    case ApplyDeliveryStep(w) =>
    case SettleWriteStep(w) =>
  }

  lemma StartCallLeavesOthers(s: State, id: RequestId, admission: Option<nat>)
    requires WellFormed(s) && NodeIndex(admission, s.nodes)
    ensures StartCall(s, id, admission).active == s.active[id := |s.calls|]
  {
  }

  lemma GateLeavesOthersCurrent(s: State, a: nat, c: nat)
    requires WellFormed(s) && a < |s.admissions| && c < |s.calls| && Current(s, c)
    requires s.admissions[a].requestId != s.calls[c].requestId
    ensures c < |Gate(s, a).calls| && Current(Gate(s, a), c)
  {
    GateGrows(s, a);
    var taken := TakeReservation(s, a);
    assert WellFormed(taken);
    StartCallLeavesOthers(taken, s.admissions[a].requestId, s.admissions[a].node);
  }

  lemma EndingLeavesOthersCurrent(s: State, b: nat, operation: Operation, c: nat)
    requires WellFormed(s) && b < |s.calls| && c < |s.calls| && c != b && Current(s, c)
    ensures var t := s.(calls := s.calls[b := s.calls[b].(operation := operation)]);
      && WellFormed(t)
      && (Current(t, b) ==> Current(Retire(AbandonCall(t, b), b), c))
  {
    var t := s.(calls := s.calls[b := s.calls[b].(operation := operation)]);
    assert WellFormed(t);
    AbandonCallIs(t, b);
  }

  /** A completed current call stays current until something releases it or its write takes it. */
  lemma CurrentPersists(s: State, step: Step, c: nat)
    requires WellFormed(s) && Enabled(s, step) && CountersHold(s, step)
    requires c < |s.calls| && Current(s, c) && s.calls[c].operation.Completed?
    requires !Releases(s, step, c)
    requires !(step.TakeDeliveryStep? && s.writes[step.w].call == c)
    ensures c < |Apply(s, step).calls| && Current(Apply(s, step), c)
  {
    ApplyGrows(s, step);
    match step
    case GateStep(a) => GateLeavesOthersCurrent(s, a, c);
    case CompleteStep(b) => EndingLeavesOthersCurrent(s, b, Completed, c);
    case DropOperationStep(b) => EndingLeavesOthersCurrent(s, b, Dropped, c);
    case CancelStep(id) => CancelLeavesOthersCurrent(s, id, c);
    case RegisterStep(b) => AnswersLeaveCurrent(s, step, c);
    case RespondStep(id, source) => AnswersLeaveCurrent(s, step, c);
    case TakeDeliveryStep(w, outcome) => TakeLeavesOthersCurrent(s, w, outcome, c);
    case _ => OtherStepsLeaveCurrent(s, step);
  }

  lemma AnswersLeaveCurrent(s: State, step: Step, c: nat)
    requires WellFormed(s) && Enabled(s, step) && (step.RegisterStep? || step.RespondStep?)
    requires c < |s.calls| && Current(s, c)
    ensures c < |Apply(s, step).calls| && Current(Apply(s, step), c)
  {
  }

  lemma CancelLeavesOthersCurrent(s: State, id: RequestId, c: nat)
    requires WellFormed(s) && c < |s.calls| && Current(s, c) && id != s.calls[c].requestId
    ensures c < |Cancel(s, id).calls| && Current(Cancel(s, id), c)
  {
  }

  lemma OtherStepsLeaveCurrent(s: State, step: Step)
    requires WellFormed(s) && Enabled(s, step) && CountersHold(s, step)
    requires AdmissionStep(step) || step.ApplyDeliveryStep? || step.SettleWriteStep? || step.SettleUnclaimedStep?
    requires !step.GateStep?
    ensures Apply(s, step).active == s.active && Apply(s, step).calls == s.calls
  {
    match step
    case ReserveStep(id) => ReserveLeavesCalls(s, id);
    case DropAdmissionStep(a) =>
    case UnregisterStep(a) =>
    case DropNodeStep(n) =>
    case ApplyDeliveryStep(w) =>
    case SettleWriteStep(w) =>
    case SettleUnclaimedStep(d) =>
    case _ => WaitStepLeavesCalls(s, step);
  }

  lemma WaitStepLeavesCalls(s: State, step: Step)
    requires WellFormed(s) && Enabled(s, step)
    requires step.CheckStep? || step.StartWaitStep? || step.AdvanceStep? || step.RestartStep? || step.ClearLinkStep?
    ensures Apply(s, step).active == s.active && Apply(s, step).calls == s.calls
  {
  }

  lemma ReserveLeavesCalls(s: State, id: RequestId)
    requires WellFormed(s)
    ensures Reserve(s, id).active == s.active && Reserve(s, id).calls == s.calls
  {
  }

  lemma TakeLeavesOthersCurrent(s: State, w: nat, outcome: Outcome, c: nat)
    requires WellFormed(s) && w < |s.writes| && c < |s.calls| && Current(s, c) && s.writes[w].call != c
    ensures c < |TakeDelivery(s, w, outcome).calls| && Current(TakeDelivery(s, w, outcome), c)
  {
  }

  /** Nothing but its own acknowledgment, a cancellation, a replacement or closing releases a call. */
  lemma AwaitingPersists(s: State, step: Step, c: nat)
    requires Inv(s) && Enabled(s, step) && AwaitsAcknowledgment(s, c) && !Releases(s, step, c)
    ensures AwaitsAcknowledgment(Next(s, step), c)
  {
    StepKeeps(s, step);
    ApplyGrows(s, step);
    if OwnWriteOpen(s, c) {
      AwaitingPersistsInWrites(s, step, c);
    } else if step.TakeDeliveryStep? && s.writes[step.w].call == c {
      assert false;
    } else {
      CurrentPersists(s, step, c);
    }
  }

  /** Whether some step of a run releases call `c`. */
  ghost predicate ReleasedDuring(s: State, steps: seq<Step>, c: nat)
    requires Inv(s) && c < |s.calls| && Run(s, steps).Some?
    decreases |steps|
  {
    steps != [] && (
      StepGrows(s, steps[0]);
      Releases(s, steps[0], c) || ReleasedDuring(Next(s, steps[0]), steps[1..], c))
  }

  lemma {:induction false} AwaitingPersistsAlong(s: State, steps: seq<Step>, c: nat)
    requires Inv(s) && AwaitsAcknowledgment(s, c) && Run(s, steps).Some?
    requires !ReleasedDuring(s, steps, c)
    ensures AwaitsAcknowledgment(Run(s, steps).value, c)
    decreases |steps|
  {
    if steps != [] {
      AwaitingPersists(s, steps[0], c);
      AwaitingPersistsAlong(Next(s, steps[0]), steps[1..], c);
    }
  }

  /**
    Closed gate. From the normal completion of a current call on, no queued call
    is admitted until the acknowledgment of its own write has been applied, or
    the call is cancelled or replaced, or the transport closes.
  */
  lemma NoAdmissionBeforeAcknowledgment(
    s: State, c: nat, completed: State, steps: seq<Step>, t: State, step: Step, n: nat)
    requires Reachable(s) && Inv(s) && Enabled(s, CompleteStep(c)) && Current(s, c) && s.calls[c].active
    requires completed == Next(s, CompleteStep(c)) && c < |completed.calls|
    requires Run(completed, steps) == Some(t) && !ReleasedDuring(completed, steps, c)
    requires Enabled(t, step) && n < |t.nodes| && t.nodes[n].state != Admitted
    ensures n < |Next(t, step).nodes| && Next(t, step).nodes[n].state != Admitted
  {
    StepGrows(t, step);
    AwaitingPersistsAlong(completed, steps, c);
    AwaitingClosesTheGate(t, c);
    if Next(t, step).nodes[n].state == Admitted {
      OnlyTheGateAdmits(t, step, n);
    }
  }
}
