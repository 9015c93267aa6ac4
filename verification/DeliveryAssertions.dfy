/**
  The assertions of the protocol. All but one hold on every run. The assertion
  in `begin_write` needs what JSON-RPC 2.0 asks of a client: that the id of a
  request is not used again before its response (sections 4 and 5).
*/
module DeliveryAssertions {
  import opened Options
  import opened DeliveryModel
  import opened DeliveryInvariant
  import opened DeliverySteps
  import opened DeliverySafety

  /** The two assertions of `register`, which a current call that was not cancelled gets to. */
  predicate RegisterAsserts(s: State, c: nat)
    requires c < |s.calls|
  {
    Current(s, c) && s.calls[c].active ==> !s.calls[c].operationFinished && s.calls[c].delivery.None?
  }

  /** What a handler owes: one delivery at most, and only while it holds its operation guard. */
  predicate MayRegister(call: Call) {
    call.operation.Running? && !call.registered
  }

  lemma RegistryDecides(s: State, c: nat)
    requires Registry(s.active, s.calls) && c < |s.calls|
    ensures !RegisterAsserts(s, c) <==> Current(s, c) && s.calls[c].active && !MayRegister(s.calls[c])
    ensures MayRegister(s.calls[c]) <==> Enabled(s, RegisterStep(c))
  {
    assert IsCurrent(s.active, s.calls, c) == Current(s, c);
  }

  lemma ReachableRegistry(s: State)
    requires Reachable(s)
    ensures Registry(s.active, s.calls)
  {
    ReachableInv(s);
  }

  /**
    A registration fails an assertion exactly when the handler breaks this rule
    for a call that is current and was not cancelled. For any other call a second
    or late delivery is handed back.
  */
  lemma RegisterPanicsIff(s: State, c: nat)
    requires Reachable(s) && c < |s.calls|
    ensures !RegisterAsserts(s, c) <==> Current(s, c) && s.calls[c].active && !MayRegister(s.calls[c])
    ensures MayRegister(s.calls[c]) <==> Enabled(s, RegisterStep(c))
  {
    ReachableRegistry(s);
    RegistryDecides(s, c);
  }

  /** An operation completes only once, and then the delivery it hands out is none. */
  lemma CompleteAssertionHolds(s: State, c: nat)
    requires Reachable(s) && Enabled(s, CompleteStep(c)) && Current(s, c)
    ensures !s.calls[c].operationFinished
    ensures !s.calls[c].active ==> s.calls[c].delivery.None?
  {
    ReachableInv(s);
    assert IsCurrent(s.active, s.calls, c);
  }

  /** Neither counter is zero when it is decremented. */
  lemma CounterAssertionsHold(s: State, step: Step)
    requires Reachable(s) && Enabled(s, step)
    ensures step.SettleWriteStep? ==> s.pendingWrites > 0
    ensures step.DropNodeStep? ==> s.admissionCount > 0
  {
    ReachableInv(s);
    StepKeeps(s, step);
  }

  // ----- The assertion in `begin_write` -----

  /** A response panics exactly when the current call for its id is still running. */
  lemma RespondPanicsIff(s: State, id: RequestId, source: Option<nat>)
    requires Reachable(s) && Inv(s) && Enabled(s, RespondStep(id, source))
    ensures Next(s, RespondStep(id, source)).panics > s.panics
      <==> id in s.active && s.calls[s.active[id]].operation.Running?
  {
    if id in s.active {
      assert IsCurrent(s.active, s.calls, s.active[id]);
    }
  }

  predicate Unanswered(s: State, c: nat) {
    c < |s.calls| && !s.calls[c].answered
  }

  predicate Outstanding(s: State, a: nat) {
    a < |s.admissions| && BeforeAdmission(s.admissions[a].phase)
  }

  /**
    The client's side of JSON-RPC: a request id is reserved only when no earlier
    request with that id is outstanding, and a response that belongs to no call
    answers no id that a call still has to answer.
  */
  ghost predicate Disciplined(s: State, step: Step) {
    match step
    case ReserveStep(id) =>
      && (forall a: nat :: Outstanding(s, a) ==> s.admissions[a].requestId != id)
      && (forall c: nat :: Unanswered(s, c) ==> s.calls[c].requestId != id)
    case RespondStep(id, source) =>
      source.None? ==> forall c: nat :: Unanswered(s, c) ==> s.calls[c].requestId != id
    case _ => true
  }

  /** At most one request per id waits for an answer, and no panic has happened. */
  ghost predicate OneRequestPerId(s: State) {
    && (forall a: nat, b: nat :: Outstanding(s, a) && Outstanding(s, b) && a != b ==>
          s.admissions[a].requestId != s.admissions[b].requestId)
    && (forall a: nat, c: nat :: Outstanding(s, a) && Unanswered(s, c) ==>
          s.admissions[a].requestId != s.calls[c].requestId)
    && (forall c: nat, d: nat :: Unanswered(s, c) && Unanswered(s, d) && c != d ==>
          s.calls[c].requestId != s.calls[d].requestId)
    && (forall c :: 0 <= c < |s.calls| && s.calls[c].answered ==> !s.calls[c].operation.Running?)
    && s.panics == 0
  }

  /** Requests are answered and admissions end, but neither is taken back or added. */
  ghost predicate OnlyProgress(s: State, t: State) {
    && |t.admissions| == |s.admissions|
    && (forall a :: 0 <= a < |s.admissions| ==>
          && t.admissions[a].requestId == s.admissions[a].requestId
          && (BeforeAdmission(t.admissions[a].phase) ==> BeforeAdmission(s.admissions[a].phase)))
    && |t.calls| == |s.calls|
    && (forall c :: 0 <= c < |s.calls| ==>
          && t.calls[c].requestId == s.calls[c].requestId
          && (s.calls[c].answered ==> t.calls[c].answered && !t.calls[c].operation.Running?)
          && (t.calls[c].answered ==> s.calls[c].answered || !t.calls[c].operation.Running?))
  }

  lemma ProgressKeeps(s: State, t: State)
    requires OneRequestPerId(s) && OnlyProgress(s, t) && t.panics == 0
    ensures OneRequestPerId(t)
  {
    assert forall a: nat :: Outstanding(t, a) ==> Outstanding(s, a);
    assert forall c: nat :: Unanswered(t, c) ==> Unanswered(s, c);
  }

  /** The admissions and calls that existed before, with the same flags. */
  ghost predicate Untouched(s: State, t: State) {
    && t.panics == s.panics
    && |t.calls| == |s.calls|
    && (forall c :: 0 <= c < |s.calls| ==>
          && t.calls[c].requestId == s.calls[c].requestId
          && t.calls[c].answered == s.calls[c].answered
          && (t.calls[c].operation.Running? ==> s.calls[c].operation.Running?))
  }

  lemma AbandonTouchesNoAnswer(s: State, c: nat)
    requires WellFormed(s) && c < |s.calls|
    ensures Untouched(s, AbandonCall(s, c)) && AbandonCall(s, c).admissions == s.admissions
  {
    AbandonCallIs(s, c);
  }

  lemma AdmitsOne(s: State, a: nat)
    requires Inv(s) && Enabled(s, GateStep(a)) && !s.closed && OwnsPending(s, a) && OneRequestPerId(s)
    requires s.admissions[a].node.None? || !ResponseGateActive(s)
    ensures OneRequestPerId(Gate(s, a))
  {
    GateIsInstall(s, a);
    var id := s.admissions[a].requestId;
    var u := Displace(s, id);
    if id in s.active {
      AbandonTouchesNoAnswer(s, s.active[id]);
    }
    InstallOne(s, u, a);
  }

  lemma InstallOne(s: State, u: State, a: nat)
    requires OneRequestPerId(s) && a < |s.admissions| && BeforeAdmission(s.admissions[a].phase)
    requires Untouched(s, u) && u.admissions == s.admissions
    requires NodeIndex(u.admissions[a].node, u.nodes)
    ensures OneRequestPerId(Install(u, a))
  {
    var t := Install(u, a);
    assert Outstanding(s, a);
    forall b: nat | Outstanding(t, b) ensures Outstanding(s, b) && b != a {}
    forall c: nat | Unanswered(t, c) && c < |s.calls| ensures Unanswered(s, c) {}
  }

  lemma ReservesOne(s: State, id: RequestId)
    requires WellFormed(s) && OneRequestPerId(s) && Disciplined(s, ReserveStep(id))
    ensures OneRequestPerId(Reserve(s, id))
  {
    var t := Reserve(s, id);
    if t.admissions == s.admissions {
      SettlingKeepsOne(s, t);
    } else {
      AddKeepsOne(s, t, id, t.admissions[|s.admissions|]);
    }
  }

  lemma AddKeepsOne(s: State, t: State, id: RequestId, admission: Admission)
    requires OneRequestPerId(s) && Disciplined(s, ReserveStep(id)) && admission.requestId == id
    requires t.calls == s.calls && t.panics == s.panics && t.admissions == s.admissions + [admission]
    ensures OneRequestPerId(t)
  {
    forall c: nat | Unanswered(t, c) ensures Unanswered(s, c) {}
    forall a: nat | Outstanding(t, a) && a < |s.admissions| ensures Outstanding(s, a) {}
  }

  /** A disciplined response finds the operation of the current call over. */
  lemma RespondsAfterOperation(s: State, id: RequestId, source: Option<nat>)
    requires Inv(s) && OneRequestPerId(s) && Enabled(s, RespondStep(id, source))
    requires Disciplined(s, RespondStep(id, source)) && id in s.active
    ensures !s.calls[s.active[id]].operation.Running? && s.calls[s.active[id]].operationFinished
  {
    var c := s.active[id];
    assert IsCurrent(s.active, s.calls, c);
    assert source.None? ==> !Unanswered(s, c);
    assert source.Some? && Unanswered(s, c) ==> source.value == c;
  }

  lemma RespondsToOne(s: State, id: RequestId, source: Option<nat>)
    requires Inv(s) && OneRequestPerId(s) && Enabled(s, RespondStep(id, source))
    requires Disciplined(s, RespondStep(id, source))
    ensures OneRequestPerId(Respond(s, id, source))
  {
    if id in s.active {
      RespondsAfterOperation(s, id, source);
    }
    ProgressKeeps(s, Respond(s, id, source));
  }

  /** One admission moves on; nothing about calls or panics changes. */
  lemma AdmissionKeepsOne(s: State, t: State, a: nat, admission: Admission)
    requires OneRequestPerId(s) && a < |s.admissions|
    requires t.calls == s.calls && t.panics == s.panics && t.admissions == s.admissions[a := admission]
    requires admission.requestId == s.admissions[a].requestId
    requires BeforeAdmission(admission.phase) ==> BeforeAdmission(s.admissions[a].phase)
    ensures OneRequestPerId(t)
  {
    ProgressKeeps(s, t);
  }

  lemma WaitStepKeepsOne(s: State, step: Step)
    requires WellFormed(s) && OneRequestPerId(s) && Enabled(s, step)
    requires step.CheckStep? || step.StartWaitStep? || step.AdvanceStep? || step.RestartStep? || step.ClearLinkStep?
    ensures OneRequestPerId(Apply(s, step))
  {
    var t := Apply(s, step);
    AdmissionKeepsOne(s, t, step.a, t.admissions[step.a]);
  }

  lemma GateKeepsOne(s: State, a: nat)
    requires Inv(s) && OneRequestPerId(s) && Enabled(s, GateStep(a))
    ensures OneRequestPerId(Gate(s, a))
  {
    if !s.closed && OwnsPending(s, a) && (s.admissions[a].node.None? || !ResponseGateActive(s)) {
      AdmitsOne(s, a);
    } else {
      ProgressKeeps(s, Gate(s, a));
    }
  }

  lemma EndsOne(s: State, c: nat, operation: Operation)
    requires Inv(s) && OneRequestPerId(s) && c < |s.calls| && s.calls[c].operation.Running? && !operation.Running?
    ensures var t := s.(calls := s.calls[c := s.calls[c].(operation := operation)]);
      && WellFormed(t) && OnlyProgress(s, t)
      && OnlyProgress(s, Retire(AbandonCall(t, c), c)) && AbandonCall(t, c).panics == s.panics
  {
    var t := s.(calls := s.calls[c := s.calls[c].(operation := operation)]);
    assert WellFormed(t);
    AbandonCallIs(t, c);
  }

  lemma CompleteKeepsOne(s: State, c: nat)
    requires Inv(s) && OneRequestPerId(s) && Enabled(s, CompleteStep(c))
    ensures OneRequestPerId(Complete(s, c))
  {
    EndsOne(s, c, Completed);
    ProgressKeeps(s, Complete(s, c));
  }

  lemma DropOperationKeepsOne(s: State, c: nat)
    requires Inv(s) && OneRequestPerId(s) && Enabled(s, DropOperationStep(c))
    ensures OneRequestPerId(DropOperation(s, c))
  {
    EndsOne(s, c, Dropped);
    ProgressKeeps(s, DropOperation(s, c));
  }

  lemma CancelKeepsOne(s: State, id: RequestId)
    requires WellFormed(s) && OneRequestPerId(s)
    ensures OneRequestPerId(Cancel(s, id))
  {
    if id !in s.pending && id in s.active {
      CancelCallOnlyProgresses(s, s.active[id]);
    }
    ProgressKeeps(s, Cancel(s, id));
  }

  lemma CancelCallOnlyProgresses(s: State, c: nat)
    requires WellFormed(s) && OneRequestPerId(s) && c < |s.calls|
    ensures OnlyProgress(s, CancelCall(s, c)) && CancelCall(s, c).panics == s.panics
  {
    var t := s.(calls := s.calls[c := s.calls[c].(active := false, delivery := None)],
                outbox := s.outbox + Hand(s.calls[c].delivery));
    assert WellFormed(t) && OnlyProgress(s, t);
    FinishingOnlyProgresses(t, c);
  }

  lemma FinishingOnlyProgresses(s: State, c: nat)
    requires WellFormed(s) && c < |s.calls|
    requires forall d :: 0 <= d < |s.calls| && s.calls[d].answered ==> !s.calls[d].operation.Running?
    ensures OnlyProgress(s, Retire(FinishAdmission(s, c), c))
  {
  }

  lemma TakeKeepsOne(s: State, w: nat, outcome: Outcome)
    requires WellFormed(s) && OneRequestPerId(s) && w < |s.writes|
    ensures OneRequestPerId(TakeDelivery(s, w, outcome))
  {
    ProgressKeeps(s, TakeDelivery(s, w, outcome));
  }

  lemma CloseKeepsOne(s: State)
    requires OneRequestPerId(s)
    ensures OneRequestPerId(Close(s))
  {
    ProgressKeeps(s, Close(s));
  }

  lemma DropKeepsOne(s: State, a: nat)
    requires WellFormed(s) && OneRequestPerId(s) && Enabled(s, DropAdmissionStep(a))
    ensures OneRequestPerId(DropAdmission(s, a))
  {
    AdmissionKeepsOne(s, DropAdmission(s, a), a, DropAdmission(s, a).admissions[a]);
  }

  lemma UnregisterKeepsOne(s: State, a: nat)
    requires WellFormed(s) && OneRequestPerId(s) && a < |s.admissions|
    ensures OneRequestPerId(Unregister(s, a))
  {
    AdmissionKeepsOne(s, Unregister(s, a), a, Unregister(s, a).admissions[a]);
  }

  lemma RegisterKeepsOne(s: State, c: nat)
    requires OneRequestPerId(s) && c < |s.calls|
    ensures OneRequestPerId(Register(s, c))
  {
    ProgressKeeps(s, Register(s, c));
  }

  lemma SettlingKeepsOne(s: State, t: State)
    requires OneRequestPerId(s) && t.admissions == s.admissions && t.calls == s.calls && t.panics == s.panics
    ensures OneRequestPerId(t)
  {
    ProgressKeeps(s, t);
  }

  lemma CallStepKeepsOne(s: State, step: Step)
    requires Inv(s) && OneRequestPerId(s) && Enabled(s, step) && Disciplined(s, step) && !AdmissionStep(step)
    ensures OneRequestPerId(Next(s, step))
  {
    match step
    case CompleteStep(c) => CompleteKeepsOne(s, c);
    case DropOperationStep(c) => DropOperationKeepsOne(s, c);
    case CancelStep(id) => CancelKeepsOne(s, id);
    case CloseStep => CloseKeepsOne(s);
    case RespondStep(id, source) => RespondsToOne(s, id, source);
    case TakeDeliveryStep(w, outcome) => TakeKeepsOne(s, w, outcome);
    case RegisterStep(c) => RegisterKeepsOne(s, c);
    case ApplyDeliveryStep(w) => SettlingKeepsOne(s, ApplyDelivery(s, w));
    case SettleWriteStep(w) => StepKeeps(s, step); SettlingKeepsOne(s, SettleWrite(s, w));
    case SettleUnclaimedStep(d) => SettlingKeepsOne(s, SettleUnclaimed(s, d));
  }

  lemma StepKeepsOne(s: State, step: Step)
    requires Inv(s) && OneRequestPerId(s) && Enabled(s, step) && Disciplined(s, step)
    ensures OneRequestPerId(Next(s, step))
  {
    if !AdmissionStep(step) {
      CallStepKeepsOne(s, step);
    } else {
      match step
      case ReserveStep(id) => ReservesOne(s, id);
      case GateStep(a) => GateKeepsOne(s, a);
      case DropAdmissionStep(a) => DropKeepsOne(s, a);
      case UnregisterStep(a) => UnregisterKeepsOne(s, a);
      case DropNodeStep(n) => StepKeeps(s, step); SettlingKeepsOne(s, DropNode(s, n));
      case _ => WaitStepKeepsOne(s, step);
    }
  }

  ghost predicate DisciplinedRun(s: State, steps: seq<Step>)
    requires Inv(s) && Run(s, steps).Some?
    decreases |steps|
  {
    steps == [] || (Disciplined(s, steps[0]) && DisciplinedRun(Next(s, steps[0]), steps[1..]))
  }

  lemma {:induction false} DisciplinedRunKeepsOne(s: State, steps: seq<Step>)
    requires Inv(s) && OneRequestPerId(s) && Run(s, steps).Some? && DisciplinedRun(s, steps)
    ensures OneRequestPerId(Run(s, steps).value)
    decreases |steps|
  {
    if steps != [] {
      StepKeepsOne(s, steps[0]);
      DisciplinedRunKeepsOne(Next(s, steps[0]), steps[1..]);
    }
  }

  lemma InitialOne()
    ensures OneRequestPerId(Initial())
  {
  }

  /** With a client that does not reuse outstanding ids, `begin_write` never panics. */
  lemma DisciplinedClientsNeverPanic(start: State, steps: seq<Step>)
    requires start == Initial() && Inv(start) && Run(start, steps).Some? && DisciplinedRun(start, steps)
    ensures Run(start, steps).value.panics == 0
  {
    InitialOne();
    DisciplinedRunKeepsOne(start, steps);
  }

  const ONE := Number(1)

  /** A running call for request 1 without a node of its own. */
  const FIRST := Call(ONE, true, false, None, None, Running, false, false)

  /** One request is admitted, a second one with the same id replaces it, and the first answers. */
  function Replay(k: nat): State
    requires k <= 6
  {
    var s := Initial();
    match k
    case 0 => s
    case 1 => s.(pending := map[ONE := 0], admissions := [Admission(ONE, None, Gated)])
    case 2 => s.(admissions := [Admission(ONE, None, Returned(0))], calls := [FIRST], active := map[ONE := 0])
    case 3 => s.(admissions := [Admission(ONE, None, Returned(0)), Admission(ONE, None, Gated)],
                 pending := map[ONE := 1], calls := [FIRST], active := map[ONE := 0])
    case 4 => s.(admissions := [Admission(ONE, None, Returned(0)), Admission(ONE, None, Returned(1))],
                 calls := [Abandoned(FIRST), FIRST], active := map[ONE := 1])
    case 5 => Replay(4).(calls := [Abandoned(FIRST).(operation := Completed), FIRST])
    case _ => Replay(4).(calls := [Abandoned(FIRST).(operation := Completed, answered := true), FIRST], panics := 1)
  }

  function ReplayStep(k: nat): Step {
    match k
    case 0 => ReserveStep(ONE)
    case 1 => GateStep(0)
    case 2 => ReserveStep(ONE)
    case 3 => GateStep(1)
    case 4 => CompleteStep(0)
    case _ => RespondStep(ONE, Some(0))
  }

  lemma ReplayReserves(k: nat)
    requires k == 0 || k == 2
    ensures WellFormed(Replay(k)) && Reserve(Replay(k), ONE) == Replay(k + 1)
  {
    assert ActivePoints(Replay(2).active, Replay(2).calls);
    assert !ResponseGateActive(Replay(2));
  }

  lemma ReplayAdmits()
    ensures WellFormed(Replay(1)) && Gate(Replay(1), 0) == Replay(2)
  {
    assert TakeReservation(Replay(1), 0).pending == map[];
  }

  lemma ReplayReplaces()
    ensures WellFormed(Replay(3)) && Gate(Replay(3), 1) == Replay(4)
  {
    var s := TakeReservation(Replay(3), 1);
    assert s.pending == map[];
    assert s.admissions == Replay(4).admissions;
    var started := s.(calls := s.calls + [FIRST], active := s.active[ONE := 1]);
    assert WellFormed(started);
    AbandonCallIs(started, 0);
    assert started.calls[0 := Abandoned(started.calls[0])] == Replay(4).calls;
    assert AbandonCall(started, 0) == Replay(4);
  }

  lemma ReplayAnswers()
    ensures WellFormed(Replay(4)) && Complete(Replay(4), 0) == Replay(5)
    ensures WellFormed(Replay(5)) && Respond(Replay(5), ONE, Some(0)) == Replay(6)
  {
    assert Complete(Replay(4), 0).calls == Replay(5).calls;
    assert Respond(Replay(5), ONE, Some(0)).calls == Replay(6).calls;
  }

  lemma ReplayMoves(k: nat)
    requires k < 6
    ensures WellFormed(Replay(k)) && Enabled(Replay(k), ReplayStep(k)) && CountersHold(Replay(k), ReplayStep(k))
    ensures Apply(Replay(k), ReplayStep(k)) == Replay(k + 1)
  {
    match k
    case 0 => ReplayReserves(0);
    case 1 => ReplayAdmits();
    case 2 => ReplayReserves(2);
    case 3 => ReplayReplaces();
    case _ => ReplayAnswers();
  }

  lemma ExtendTo(start: State, steps: seq<Step>, s: State, step: Step, t: State)
    requires Inv(start) && Run(start, steps) == Some(s)
    requires Enabled(s, step) && WellFormed(s) && CountersHold(s, step) && Apply(s, step) == t
    ensures Run(start, steps + [step]) == Some(t)
  {
    Extend(start, steps, s, step);
  }

  lemma {:induction false} ReplayRuns(start: State, k: nat) returns (steps: seq<Step>)
    requires start == Initial() && Inv(start) && k <= 6
    ensures Run(start, steps) == Some(Replay(k)) && (k == 6 ==> Replay(k).panics == 1)
  {
    if k == 0 {
      steps := [];
    } else {
      var before := ReplayRuns(start, k - 1);
      ReplayMoves(k - 1);
      ExtendTo(start, before, Replay(k - 1), ReplayStep(k - 1), Replay(k));
      steps := before + [ReplayStep(k - 1)];
    }
  }

  /**
    Without that promise it does: the second of two calls with one id is still
    running when the first one's handler answers.
  */
  lemma ReusedIdPanics(start: State) returns (steps: seq<Step>)
    requires start == Initial() && Inv(start)
    ensures Run(start, steps).Some? && Run(start, steps).value.panics == 1
  {
    steps := ReplayRuns(start, 6);
  }
}
