/** How a delivery is settled is decided when it leaves its call. */
module DeliveryOutcomes {
  import opened Options
  import opened DeliveryModel
  import opened DeliveryInvariant
  import opened DeliverySteps
  import opened DeliverySafety

  // ----- What is handed out stays handed out -----

  /** What was handed out to be settled, and what writes took, is still there. */
  ghost predicate HandsOn(s: State, t: State) {
    && s.outbox <= t.outbox
    && |s.writes| <= |t.writes|
    && forall w :: 0 <= w < |s.writes| && s.writes[w].phase.Taken? ==> t.writes[w].phase == s.writes[w].phase
  }

  lemma StartCallHandsOn(s: State, id: RequestId, admission: Option<nat>)
    requires WellFormed(s) && NodeIndex(admission, s.nodes)
    ensures HandsOn(s, StartCall(s, id, admission))
  {
    var started := s.(
      calls := s.calls + [Call(id, true, false, None, admission, Running, false, false)],
      active := s.active[id := |s.calls|]);
    assert WellFormed(started);
    if id in s.active {
      AbandonCallIs(started, s.active[id]);
    }
  }

  lemma GateHandsOn(s: State, a: nat)
    requires WellFormed(s) && a < |s.admissions|
    ensures HandsOn(s, Gate(s, a))
  {
    if !s.closed && OwnsPending(s, a) && (s.admissions[a].node.None? || !ResponseGateActive(s)) {
      var taken := TakeReservation(s, a);
      assert WellFormed(taken);
      StartCallHandsOn(taken, s.admissions[a].requestId, s.admissions[a].node);
    }
  }

  lemma OperationHandsOn(s: State, c: nat, operation: Operation)
    requires WellFormed(s) && c < |s.calls|
    ensures var t := s.(calls := s.calls[c := s.calls[c].(operation := operation)]);
      WellFormed(t) && HandsOn(s, t) && HandsOn(s, AbandonCall(t, c))
  {
    var t := s.(calls := s.calls[c := s.calls[c].(operation := operation)]);
    assert WellFormed(t);
    AbandonCallIs(t, c);
  }

  lemma CompleteHandsOn(s: State, c: nat)
    requires WellFormed(s) && Enabled(s, CompleteStep(c))
    ensures HandsOn(s, Complete(s, c))
  {
    OperationHandsOn(s, c, Completed);
  }

  lemma DropOperationHandsOn(s: State, c: nat)
    requires WellFormed(s) && Enabled(s, DropOperationStep(c))
    ensures HandsOn(s, DropOperation(s, c))
  {
    OperationHandsOn(s, c, Dropped);
  }

  lemma CancelCallHandsOn(s: State, c: nat)
    requires WellFormed(s) && c < |s.calls|
    ensures HandsOn(s, CancelCall(s, c))
  {
  }

  lemma CancelHandsOn(s: State, id: RequestId)
    requires WellFormed(s)
    ensures HandsOn(s, Cancel(s, id))
  {
    if id !in s.pending && id in s.active {
      CancelCallHandsOn(s, s.active[id]);
    }
  }

  lemma TakeHandsOn(s: State, w: nat, outcome: Outcome)
    requires WellFormed(s) && Enabled(s, TakeDeliveryStep(w, outcome))
    ensures HandsOn(s, TakeDelivery(s, w, outcome))
  {
  }

  lemma CloseHandsOn(s: State)
    ensures HandsOn(s, Close(s))
  {
  }

  lemma RespondHandsOn(s: State, id: RequestId, source: Option<nat>)
    requires WellFormed(s) && Enabled(s, RespondStep(id, source))
    ensures HandsOn(s, Respond(s, id, source))
  {
  }

  lemma RegisterHandsOn(s: State, c: nat)
    requires WellFormed(s) && c < |s.calls|
    ensures HandsOn(s, Register(s, c))
  {
  }

  lemma ReserveHandsOn(s: State, id: RequestId)
    requires WellFormed(s)
    ensures HandsOn(s, Reserve(s, id))
  {
  }

  lemma AdmissionStepHandsOn(s: State, step: Step)
    requires WellFormed(s) && Enabled(s, step) && CountersHold(s, step) && AdmissionStep(step)
    ensures HandsOn(s, Apply(s, step))
  {
    match step
    case ReserveStep(id) => ReserveHandsOn(s, id);
    case GateStep(a) => GateHandsOn(s, a);
    case DropAdmissionStep(a) =>
    case UnregisterStep(a) =>
    case DropNodeStep(n) =>
    case CheckStep(a) =>
    case StartWaitStep(a) =>
    case AdvanceStep(a) =>
    case RestartStep(a) =>
    case ClearLinkStep(a) =>
  }

  lemma OtherStepHandsOn(s: State, step: Step)
    requires WellFormed(s) && Enabled(s, step) && CountersHold(s, step) && !AdmissionStep(step)
    requires !step.SettleUnclaimedStep? && !step.ApplyDeliveryStep?
    ensures HandsOn(s, Apply(s, step))
  {
    match step
    case CompleteStep(c) => CompleteHandsOn(s, c);
    case DropOperationStep(c) => DropOperationHandsOn(s, c);
    case CancelStep(id) => CancelHandsOn(s, id);
    case CloseStep => CloseHandsOn(s);
    case RegisterStep(c) => RegisterHandsOn(s, c);
    case RespondStep(id, source) => RespondHandsOn(s, id, source);
    case TakeDeliveryStep(w, outcome) => TakeHandsOn(s, w, outcome);
    case SettleWriteStep(w) =>
  }

  // ----- From handing out to settling -----

  /** To be settled as unclaimed, or settled so. */
  ghost predicate GivenUp(s: State, d: nat) {
    d in s.outbox || Settlement(d, Outcome.Unclaimed) in s.settled
  }

  /** Taken by a write with an outcome, or settled with it. */
  ghost predicate TakenAs(s: State, d: nat, outcome: Outcome) {
    || (exists w :: 0 <= w < |s.writes| && s.writes[w].phase == Taken(Some(d), outcome))
    || Settlement(d, outcome) in s.settled
  }

  lemma SettledStays(s: State, step: Step, x: Settlement)
    requires Inv(s) && Enabled(s, step) && x in s.settled
    ensures x in Next(s, step).settled
  {
    StepGrows(s, step);
    var i :| 0 <= i < |s.settled| && s.settled[i] == x;
    assert Next(s, step).settled[i] == x;
  }

  lemma StepHandsOn(s: State, step: Step)
    requires Inv(s) && Enabled(s, step) && !step.SettleUnclaimedStep? && !step.ApplyDeliveryStep?
    ensures HandsOn(s, Next(s, step))
  {
    StepKeeps(s, step);
    if AdmissionStep(step) {
      AdmissionStepHandsOn(s, step);
    } else {
      OtherStepHandsOn(s, step);
    }
  }

  lemma GivenUpStays(s: State, step: Step, d: nat)
    requires Inv(s) && Enabled(s, step) && GivenUp(s, d)
    ensures GivenUp(Next(s, step), d)
  {
    if Settlement(d, Outcome.Unclaimed) in s.settled {
      SettledStays(s, step, Settlement(d, Outcome.Unclaimed));
    } else if !step.SettleUnclaimedStep? && !step.ApplyDeliveryStep? {
      StepHandsOn(s, step);
    } else {
      StepKeeps(s, step);
      SettlingMovesOn(s, step, d);
    }
  }

  /** The two settling steps. */
  lemma SettlingMovesOn(s: State, step: Step, d: nat)
    requires WellFormed(s) && Enabled(s, step) && CountersHold(s, step)
    requires step.SettleUnclaimedStep? || step.ApplyDeliveryStep?
    ensures d in s.outbox ==> GivenUp(Apply(s, step), d)
    ensures forall w, outcome :: 0 <= w < |s.writes| && s.writes[w].phase == Taken(Some(d), outcome) ==>
      TakenAs(Apply(s, step), d, outcome)
  {
    var t := Apply(s, step);
    forall w, outcome | 0 <= w < |s.writes| && s.writes[w].phase == Taken(Some(d), outcome)
      ensures TakenAs(t, d, outcome)
    {
      if step == ApplyDeliveryStep(w) {
        assert t.settled[|s.settled|] == Settlement(d, outcome);
      } else {
        assert t.writes[w].phase == Taken(Some(d), outcome);
      }
    }
    if step == SettleUnclaimedStep(d) {
      assert t.settled[|s.settled|] == Settlement(d, Outcome.Unclaimed);
    }
  }

  lemma TakenAsStays(s: State, step: Step, d: nat, outcome: Outcome)
    requires Inv(s) && Enabled(s, step) && TakenAs(s, d, outcome)
    ensures TakenAs(Next(s, step), d, outcome)
  {
    if Settlement(d, outcome) in s.settled {
      SettledStays(s, step, Settlement(d, outcome));
    } else if !step.SettleUnclaimedStep? && !step.ApplyDeliveryStep? {
      StepHandsOn(s, step);
    } else {
      StepKeeps(s, step);
      SettlingMovesOn(s, step, d);
    }
  }

  lemma {:induction false} GivenUpStaysAlong(s: State, steps: seq<Step>, d: nat)
    requires Inv(s) && Run(s, steps).Some? && GivenUp(s, d)
    ensures GivenUp(Run(s, steps).value, d)
    decreases |steps|
  {
    if steps != [] {
      GivenUpStays(s, steps[0], d);
      GivenUpStaysAlong(Next(s, steps[0]), steps[1..], d);
    }
  }

  lemma {:induction false} TakenAsStaysAlong(s: State, steps: seq<Step>, d: nat, outcome: Outcome)
    requires Inv(s) && Run(s, steps).Some? && TakenAs(s, d, outcome)
    ensures TakenAs(Run(s, steps).value, d, outcome)
    decreases |steps|
  {
    if steps != [] {
      TakenAsStays(s, steps[0], d, outcome);
      TakenAsStaysAlong(Next(s, steps[0]), steps[1..], d, outcome);
    }
  }

  // ----- Settled deliveries are nowhere else -----

  lemma {:induction false} TakenCounts(writes: seq<Write>, w: nat, d: nat)
    requires w < |writes| && InWrite(writes[w], d)
    ensures TakenBy(writes, d) >= 1
  {
    if w < |writes| - 1 {
      TakenCounts(writes[..|writes| - 1], w, d);
    }
  }

  lemma SettledIsNowhereElse(s: State, i: nat)
    requires Conserved(s) && i < |s.settled|
    ensures s.settled[i].delivery !in s.outbox
    ensures forall w :: 0 <= w < |s.writes| ==> !InWrite(s.writes[w], s.settled[i].delivery)
  {
    var d := s.settled[i].delivery;
    SettledOnce(s.settled, i);
    assert Places(s.calls, s.outbox, s.writes, s.settled, d) <= 1;
    forall w | 0 <= w < |s.writes|
      ensures !InWrite(s.writes[w], d)
    {
      if InWrite(s.writes[w], d) {
        TakenCounts(s.writes, w, d);
      }
    }
  }

  /** One that was handed out by cancelling, replacing, dropping or closing is settled as unclaimed. */
  lemma HandedOutIsUnclaimed(s: State, steps: seq<Step>, d: nat, i: nat)
    requires Reachable(s) && Inv(s) && d in s.outbox && Run(s, steps).Some?
    requires i < |Run(s, steps).value.settled| && Run(s, steps).value.settled[i].delivery == d
    ensures Run(s, steps).value.settled[i].outcome == Outcome.Unclaimed
  {
    var t := Run(s, steps).value;
    GivenUpStaysAlong(s, steps, d);
    SettledIsNowhereElse(t, i);
    var j :| 0 <= j < |t.settled| && t.settled[j] == Settlement(d, Outcome.Unclaimed);
    SameSettlement(t, i, j);
  }

  /** One that a write took is settled with the outcome of that write. */
  lemma TakenIsSettledSo(s: State, steps: seq<Step>, w: nat, d: nat, outcome: Outcome, i: nat)
    requires Reachable(s) && Inv(s) && w < |s.writes| && s.writes[w].phase == Taken(Some(d), outcome)
    requires Run(s, steps).Some?
    requires i < |Run(s, steps).value.settled| && Run(s, steps).value.settled[i].delivery == d
    ensures Run(s, steps).value.settled[i].outcome == outcome
  {
    var t := Run(s, steps).value;
    TakenAsStaysAlong(s, steps, d, outcome);
    SettledIsNowhereElse(t, i);
    var j :| 0 <= j < |t.settled| && t.settled[j] == Settlement(d, outcome);
    SameSettlement(t, i, j);
  }

  lemma SameSettlement(s: State, i: nat, j: nat)
    requires Conserved(s) && i < |s.settled| && j < |s.settled|
    requires s.settled[i].delivery == s.settled[j].delivery
    ensures i == j
  {
    var d := s.settled[i].delivery;
    assert Places(s.calls, s.outbox, s.writes, s.settled, d) <= 1;
    if i < j {
      SettledTwice(s.settled, i, j);
    } else if j < i {
      SettledTwice(s.settled, j, i);
    }
  }
}
