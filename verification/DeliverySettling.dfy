/**
  From every open state that a run reaches, and not only from idle ones, handler
  steps alone settle every write, end every call and empty the whole chain.
*/
module DeliverySettling {
  import opened Options
  import opened DeliveryModel
  import opened DeliveryInvariant
  import opened DeliverySteps
  import opened DeliverySafety
  import opened DeliveryProgress

  // ----- An answered call that is still current has a write ahead of it -----

  ghost predicate WriteAhead(s: State, c: nat) {
    exists w :: 0 <= w < |s.writes| && s.writes[w].call == c && s.writes[w].phase.Writing?
  }

  ghost predicate IsAnswered(s: State, c: nat) {
    c < |s.calls| && Current(s, c) && s.calls[c].answered
  }

  ghost predicate AnswersAreWritten(s: State) {
    forall c: nat :: IsAnswered(s, c) ==> WriteAhead(s, c)
  }

  /** No call becomes current again, and none is answered. */
  ghost predicate AnswersNone(s: State, t: State) {
    forall c: nat :: IsAnswered(t, c) ==> IsAnswered(s, c)
  }

  lemma AnswersNoneTwice(s: State, t: State, u: State)
    requires AnswersNone(s, t) && AnswersNone(t, u)
    ensures AnswersNone(s, u)
  {
  }

  lemma DisplaceAnswersNone(s: State, id: RequestId)
    requires WellFormed(s)
    ensures AnswersNone(s, Displace(s, id))
  {
    if id in s.active {
      AbandonCallIs(s, s.active[id]);
    }
  }

  lemma InstallAnswersNone(s: State, a: nat)
    requires a < |s.admissions| && NodeIndex(s.admissions[a].node, s.nodes) && WellFormed(Install(s, a))
    ensures AnswersNone(s, Prune(Install(s, a)))
  {
  }

  lemma AdmitAnswersNone(s: State, a: nat)
    requires Inv(s) && Enabled(s, GateStep(a)) && !s.closed && OwnsPending(s, a)
    requires s.admissions[a].node.None? || !ResponseGateActive(s)
    ensures AnswersNone(s, Gate(s, a))
  {
    var u := Displace(s, s.admissions[a].requestId);
    GateIsInstall(s, a);
    DisplaceAnswersNone(s, s.admissions[a].requestId);
    InstallAnswersNone(u, a);
    AnswersNoneTwice(s, u, Gate(s, a));
  }

  lemma GateAnswersNone(s: State, a: nat)
    requires Inv(s) && Enabled(s, GateStep(a))
    ensures AnswersNone(s, Gate(s, a))
  {
    if !s.closed && OwnsPending(s, a) && (s.admissions[a].node.None? || !ResponseGateActive(s)) {
      AdmitAnswersNone(s, a);
    }
  }

  lemma EndAnswersNone(s: State, c: nat, operation: Operation)
    requires WellFormed(s) && c < |s.calls|
    ensures var t := s.(calls := s.calls[c := s.calls[c].(operation := operation)]);
      WellFormed(t) && AnswersNone(s, t) && AnswersNone(s, Retire(AbandonCall(t, c), c))
  {
    var t := s.(calls := s.calls[c := s.calls[c].(operation := operation)]);
    assert WellFormed(t);
    AbandonCallIs(t, c);
  }

  lemma CompleteAnswersNone(s: State, c: nat)
    requires WellFormed(s) && c < |s.calls|
    ensures AnswersNone(s, Complete(s, c))
  {
    EndAnswersNone(s, c, Completed);
  }

  lemma DropAnswersNone(s: State, c: nat)
    requires WellFormed(s) && c < |s.calls|
    ensures AnswersNone(s, DropOperation(s, c))
  {
    EndAnswersNone(s, c, Dropped);
  }

  lemma CancelAnswersNone(s: State, id: RequestId)
    requires WellFormed(s)
    ensures AnswersNone(s, Cancel(s, id))
  {
  }

  lemma RegisterAnswersNone(s: State, c: nat)
    requires c < |s.calls|
    ensures AnswersNone(s, Register(s, c))
  {
  }

  lemma OthersAnswerNone(s: State, step: Step)
    requires WellFormed(s) && Enabled(s, step) && CountersHold(s, step)
    requires AdmissionStep(step) || step.ApplyDeliveryStep? || step.SettleWriteStep? || step.SettleUnclaimedStep?
    requires !step.GateStep?
    ensures AnswersNone(s, Apply(s, step))
  {
    OtherStepsLeaveCurrent(s, step);
  }

  lemma CallsAnswerNone(s: State, step: Step)
    requires WellFormed(s) && Enabled(s, step) && CountersHold(s, step)
    requires step.CompleteStep? || step.DropOperationStep? || step.CancelStep? || step.RegisterStep? || step.CloseStep?
    ensures AnswersNone(s, Apply(s, step))
  {
    match step
    case CompleteStep(c) => CompleteAnswersNone(s, c);
    case DropOperationStep(c) => DropAnswersNone(s, c);
    case CancelStep(id) => CancelAnswersNone(s, id);
    case RegisterStep(c) => RegisterAnswersNone(s, c);
    case CloseStep =>
  }

  lemma StepAnswersNone(s: State, step: Step)
    requires Inv(s) && Enabled(s, step) && CountersHold(s, step) && !step.RespondStep? && !step.TakeDeliveryStep?
    ensures AnswersNone(s, Apply(s, step))
  {
    if step.GateStep? {
      GateAnswersNone(s, step.a);
    } else if AdmissionStep(step) || step.ApplyDeliveryStep? || step.SettleWriteStep? || step.SettleUnclaimedStep? {
      OthersAnswerNone(s, step);
    } else {
      CallsAnswerNone(s, step);
    }
  }

  lemma StepKeepsWriting(s: State, step: Step, w: nat)
    requires WellFormed(s) && Enabled(s, step) && CountersHold(s, step)
    requires !step.RespondStep? && !step.TakeDeliveryStep?
    requires w < |s.writes| && s.writes[w].phase.Writing?
    ensures w < |Apply(s, step).writes| && Apply(s, step).writes[w] == s.writes[w]
  {
    if AdmissionStep(step) {
      AdmissionStepsLeaveWrites(s, step);
    } else if !WriteStep(step) {
      CallStepsLeaveWrites(s, step);
    }
  }

  lemma StillWritten(s: State, t: State, c: nat, w: nat)
    requires w < |s.writes| && s.writes[w].call == c && s.writes[w].phase.Writing?
    requires w < |t.writes| && t.writes[w] == s.writes[w]
    ensures WriteAhead(t, c)
  {
  }

  /** The handler's answer for a call that is still current is written. */
  lemma RespondWrites(s: State, id: RequestId, source: Option<nat>)
    requires Registry(s.active, s.calls) && AnswersAreWritten(s) && Enabled(s, RespondStep(id, source))
    ensures AnswersAreWritten(Respond(s, id, source))
  {
    var t := Respond(s, id, source);
    forall c: nat | IsAnswered(t, c)
      ensures WriteAhead(t, c)
    {
      if s.calls[c].answered {
        assert IsAnswered(s, c);
        var w :| 0 <= w < |s.writes| && s.writes[w].call == c && s.writes[w].phase.Writing?;
        StillWritten(s, t, c, w);
      } else {
        assert IsCurrent(s.active, s.calls, c);
        assert t.writes[|s.writes|].call == c && t.writes[|s.writes|].phase.Writing?;
      }
    }
  }

  /** The calls are as they were, except for their delivery, their flag and their node. */
  predicate SameHandlers(s: State, t: State) {
    && |t.calls| == |s.calls|
    && forall b :: 0 <= b < |s.calls| ==>
         && t.calls[b].requestId == s.calls[b].requestId
         && t.calls[b].answered == s.calls[b].answered
         && t.calls[b].operation == s.calls[b].operation
  }

  lemma EndWrittenIs(s: State, c: nat)
    requires WellFormed(s) && c < |s.calls|
    ensures var t := EndWritten(s, c);
      && WellFormed(t) && SameHandlers(s, t) && t.writes == s.writes && t.pendingWrites == s.pendingWrites
      && t.active == s.active - {s.calls[c].requestId}
      && t.nodes == Finishing(s.nodes, s.calls[c].admission)
      && t.pending == s.pending && t.admissions == s.admissions && t.closed == s.closed
  {
    assert WellFormed(Retire(s, c));
  }

  lemma TakeIs(s: State, w: nat, outcome: Outcome)
    requires WellFormed(s) && w < |s.writes| && s.writes[w].phase.Writing?
    ensures var t := TakeDelivery(s, w, outcome); var c := s.writes[w].call;
      && t.writes == s.writes[w := t.writes[w]] && t.writes[w].call == c && t.writes[w].phase.Taken?
      && SameHandlers(s, t) && t.pendingWrites == s.pendingWrites
      && t.active == (if Current(s, c) then s.active - {s.calls[c].requestId} else s.active)
      && t.nodes == (if Current(s, c) then Finishing(s.nodes, s.calls[c].admission) else s.nodes)
      && t.pending == s.pending && t.admissions == s.admissions && t.closed == s.closed
  {
    if Current(s, s.writes[w].call) {
      EndWrittenIs(s, s.writes[w].call);
    }
  }

  /** Taking a delivery ends the call that it was written for. */
  lemma TakeWrites(s: State, w: nat, outcome: Outcome)
    requires WellFormed(s) && AnswersAreWritten(s) && w < |s.writes| && s.writes[w].phase.Writing?
    ensures AnswersAreWritten(TakeDelivery(s, w, outcome))
  {
    var t := TakeDelivery(s, w, outcome);
    TakeIs(s, w, outcome);
    forall c: nat | IsAnswered(t, c)
      ensures WriteAhead(t, c)
    {
      assert IsAnswered(s, c) && s.writes[w].call != c;
      var v :| 0 <= v < |s.writes| && s.writes[v].call == c && s.writes[v].phase.Writing?;
      StillWritten(s, t, c, v);
    }
  }

  lemma OtherWrites(s: State, step: Step)
    requires Inv(s) && AnswersAreWritten(s) && Enabled(s, step) && CountersHold(s, step)
    requires !step.RespondStep? && !step.TakeDeliveryStep?
    ensures AnswersAreWritten(Apply(s, step))
  {
    var t := Apply(s, step);
    StepAnswersNone(s, step);
    forall c: nat | IsAnswered(t, c)
      ensures WriteAhead(t, c)
    {
      assert IsAnswered(s, c);
      var w :| 0 <= w < |s.writes| && s.writes[w].call == c && s.writes[w].phase.Writing?;
      StepKeepsWriting(s, step, w);
      StillWritten(s, t, c, w);
    }
  }

  lemma StepWrites(s: State, step: Step)
    requires Inv(s) && AnswersAreWritten(s) && Enabled(s, step) && CountersHold(s, step)
    ensures AnswersAreWritten(Apply(s, step))
  {
    match step
    case RespondStep(id, source) => RespondWrites(s, id, source);
    case TakeDeliveryStep(w, outcome) => TakeWrites(s, w, outcome);
    case _ => OtherWrites(s, step);
  }

  lemma {:induction false} RunWrites(s: State, steps: seq<Step>)
    requires Inv(s) && AnswersAreWritten(s) && Run(s, steps).Some?
    ensures AnswersAreWritten(Run(s, steps).value)
    decreases |steps|
  {
    if steps != [] {
      StepKeeps(s, steps[0]);
      StepWrites(s, steps[0]);
      RunWrites(Next(s, steps[0]), steps[1..]);
    }
  }

  /** On every run, an answered call that is still current has a write that nothing has taken from yet. */
  lemma AnsweredCallsHaveWrites(s: State, c: nat)
    requires Reachable(s) && c < |s.calls| && Current(s, c) && s.calls[c].answered
    ensures exists w :: 0 <= w < |s.writes| && s.writes[w].call == c && s.writes[w].phase.Writing?
  {
    InitialInv();
    var steps: seq<Step> :| Run(Initial(), steps) == Some(s);
    RunWrites(Initial(), steps);
    assert IsAnswered(s, c);
  }

  // ----- What settling and answering leave alone -----

  /** Reservations keep their place; an admitted node may finish. */
  ghost predicate QueueStays(s: State, t: State) {
    && t.pending == s.pending && t.admissions == s.admissions && t.closed == s.closed
    && |t.nodes| == |s.nodes|
    && forall n :: 0 <= n < |s.nodes| ==>
         && t.nodes[n].owner == s.nodes[n].owner
         && (t.nodes[n].state == s.nodes[n].state || (s.nodes[n].state == Admitted && t.nodes[n].state == Finished))
  }

  /** No call becomes current, and no answer is taken back. */
  ghost predicate CallsStay(s: State, t: State) {
    && |t.calls| == |s.calls|
    && (forall id :: id in t.active ==> id in s.active && t.active[id] == s.active[id])
    && forall c :: 0 <= c < |s.calls| ==>
         t.calls[c].requestId == s.calls[c].requestId && (s.calls[c].answered ==> t.calls[c].answered)
  }

  ghost predicate CarriesOn(s: State, t: State) {
    QueueStays(s, t) && CallsStay(s, t)
  }

  lemma CarriesOnTwice(s: State, t: State, u: State)
    requires CarriesOn(s, t) && CarriesOn(t, u)
    ensures CarriesOn(s, u)
  {
  }

  lemma FinishingStays(s: State, t: State, admission: Option<nat>)
    requires NodeIndex(admission, s.nodes) && t.nodes == Finishing(s.nodes, admission)
    requires t.pending == s.pending && t.admissions == s.admissions && t.closed == s.closed
    ensures QueueStays(s, t)
  {
  }

  lemma TakeCarriesOn(s: State, w: nat, outcome: Outcome)
    requires WellFormed(s) && w < |s.writes| && s.writes[w].phase.Writing?
    ensures CarriesOn(s, TakeDelivery(s, w, outcome))
  {
    TakeIs(s, w, outcome);
    FinishingStays(s, TakeDelivery(s, w, outcome),
      if Current(s, s.writes[w].call) then s.calls[s.writes[w].call].admission else None);
  }

  // ----- Settling every write -----

  function Left(phase: WritePhase): nat {
    match phase
    case Writing => 3
    case Taken(_, _) => 2
    case Acknowledged => 1
    case Settled => 0
  }

  /** How many steps the writes are away from being settled. */
  function WorkLeft(writes: seq<Write>): nat {
    if writes == [] then 0 else WorkLeft(writes[..|writes| - 1]) + Left(writes[|writes| - 1].phase)
  }

  lemma {:induction false} WorkUpdate(writes: seq<Write>, w: nat, write: Write)
    requires w < |writes|
    ensures WorkLeft(writes[w := write]) == WorkLeft(writes) - Left(writes[w].phase) + Left(write.phase)
  {
    var last := |writes| - 1;
    if w < last {
      WorkUpdate(writes[..last], w, write);
      assert writes[w := write][..last] == writes[..last][w := write];
    } else {
      assert writes[w := write][..last] == writes[..last];
    }
  }

  ghost predicate AllSettled(s: State) {
    forall w :: 0 <= w < |s.writes| ==> s.writes[w].phase == WritePhase.Settled
  }

  lemma {:induction false} NoneOpen(writes: seq<Write>)
    requires forall w :: 0 <= w < |writes| ==> writes[w].phase == WritePhase.Settled
    ensures OpenWrites(writes) == 0
  {
    if writes != [] {
      NoneOpen(writes[..|writes| - 1]);
    }
  }

  /** An open state that some run reaches. */
  ghost predicate Steady(s: State) {
    Inv(s) && AnswersAreWritten(s) && !s.closed
  }

  /** One step of a handler or of its write. */
  lemma Onward(s: State, step: Step)
    requires Steady(s) && Enabled(s, step) && HandlerStep(step)
    ensures CountersHold(s, step) && Inv(Apply(s, step)) && AnswersAreWritten(Apply(s, step))
    ensures HandlerRun(s, [step], Apply(s, step))
  {
    StepKeeps(s, step);
    StepWrites(s, step);
    HandlerRunOne(s, step);
  }

  /** What the next section of a write does to the write, and to nothing else that matters. */
  function NextSection(writes: seq<Write>, w: nat): Step
    requires w < |writes| && writes[w].phase != WritePhase.Settled
  {
    match writes[w].phase
    case Writing => TakeDeliveryStep(w, Delivered)
    case Taken(_, _) => ApplyDeliveryStep(w)
    case Acknowledged => SettleWriteStep(w)
  }

  lemma SectionCarriesOn(s: State, w: nat)
    requires WellFormed(s) && w < |s.writes| && s.writes[w].phase != WritePhase.Settled
    requires CountersHold(s, NextSection(s.writes, w))
    ensures Enabled(s, NextSection(s.writes, w))
    ensures var t := Apply(s, NextSection(s.writes, w));
      && CarriesOn(s, t) && t.closed == s.closed
      && |t.writes| == |s.writes| && t.writes == s.writes[w := t.writes[w]]
      && Left(t.writes[w].phase) < Left(s.writes[w].phase)
  {
    if s.writes[w].phase.Writing? {
      TakeCarriesOn(s, w, Delivered);
      TakeIs(s, w, Delivered);
    }
  }

  lemma SettleSection(s: State, w: nat) returns (t: State)
    requires Steady(s) && w < |s.writes| && s.writes[w].phase != WritePhase.Settled
    ensures HandlerRun(s, [NextSection(s.writes, w)], t) && Steady(t) && CarriesOn(s, t)
    ensures WorkLeft(t.writes) < WorkLeft(s.writes)
  {
    var step := NextSection(s.writes, w);
    Onward(s, step);
    SectionCarriesOn(s, w);
    t := Apply(s, step);
    WorkUpdate(s.writes, w, t.writes[w]);
  }

  /** Every open write can be taken from, acknowledged and settled. */
  lemma {:induction false} SettleWrites(s: State) returns (steps: seq<Step>, t: State)
    requires Steady(s)
    ensures HandlerRun(s, steps, t) && Steady(t) && CarriesOn(s, t) && AllSettled(t)
    decreases WorkLeft(s.writes)
  {
    if w: nat :| w < |s.writes| && s.writes[w].phase != WritePhase.Settled {
      var u := SettleSection(s, w);
      var rest;
      rest, t := SettleWrites(u);
      CarriesOnTwice(s, u, t);
      HandlerRunAppend(s, [NextSection(s.writes, w)], u, rest, t);
      steps := [NextSection(s.writes, w)] + rest;
    } else {
      steps, t := [], s;
    }
  }

  // ----- Ending every call -----

  /** Once every write has settled, what is current has not been answered. */
  lemma SettledIsUnanswered(s: State, c: nat)
    requires AnswersAreWritten(s) && AllSettled(s) && c < |s.calls| && Current(s, c)
    ensures !s.calls[c].answered
  {
    assert IsAnswered(s, c) ==> WriteAhead(s, c);
  }

  /** Completing marks a live call finished, and ends a cancelled one. */
  lemma CompleteCarriesOn(s: State, c: nat)
    requires WellFormed(s) && c < |s.calls| && Current(s, c)
    ensures var t := Complete(s, c);
      && CarriesOn(s, t) && t.writes == s.writes
      && t.active == (if s.calls[c].active then s.active else s.active - {s.calls[c].requestId})
      && t.calls[c].operation.Completed? && t.calls[c].operationFinished && t.calls[c].answered == s.calls[c].answered
  {
    var t := s.(calls := s.calls[c := s.calls[c].(operation := Completed)]);
    assert WellFormed(t);
    if !s.calls[c].active {
      AbandonCallIs(t, c);
      FinishingStays(s, Complete(s, c), s.calls[c].admission);
    }
  }

  lemma RespondCarriesOn(s: State, c: nat)
    requires WellFormed(s) && c < |s.calls| && Current(s, c) && s.calls[c].operationFinished
    ensures var t := Respond(s, s.calls[c].requestId, Some(c));
      CarriesOn(s, t) && t.active == s.active && t.calls[c].answered
  {
  }

  /** A finished call is answered, and its write is settled. */
  lemma AnswerCall(s: State, c: nat) returns (steps: seq<Step>, t: State)
    requires Steady(s) && AllSettled(s) && c < |s.calls| && Current(s, c) && s.calls[c].operation.Completed?
    ensures HandlerRun(s, steps, t) && Steady(t) && CarriesOn(s, t) && AllSettled(t)
    ensures s.calls[c].requestId !in t.active
  {
    var id := s.calls[c].requestId;
    var step := RespondStep(id, Some(c));
    SettledIsUnanswered(s, c);
    assert IsCurrent(s.active, s.calls, c);
    Onward(s, step);
    RespondCarriesOn(s, c);
    var u := Apply(s, step);
    var rest;
    rest, t := SettleWrites(u);
    CarriesOnTwice(s, u, t);
    HandlerRunAppend(s, [step], u, rest, t);
    steps := [step] + rest;
    AnsweredIsGone(u, t, c);
  }

  lemma AnsweredIsGone(u: State, t: State, c: nat)
    requires CarriesOn(u, t) && AnswersAreWritten(t) && AllSettled(t)
    requires c < |u.calls| && Current(u, c) && u.calls[c].answered
    ensures u.calls[c].requestId !in t.active
  {
    if u.calls[c].requestId in t.active {
      SettledIsUnanswered(t, c);
    }
  }

  lemma EndOneCall(s: State, c: nat) returns (steps: seq<Step>, t: State)
    requires Steady(s) && AllSettled(s) && c < |s.calls| && Current(s, c)
    ensures HandlerRun(s, steps, t) && Steady(t) && CarriesOn(s, t) && AllSettled(t)
    ensures s.calls[c].requestId !in t.active
  {
    assert IsCurrent(s.active, s.calls, c);
    if s.calls[c].operation.Completed? {
      steps, t := AnswerCall(s, c);
    } else {
      var step := CompleteStep(c);
      Onward(s, step);
      CompleteCarriesOn(s, c);
      var u := Apply(s, step);
      if s.calls[c].active {
        var rest;
        rest, t := AnswerCall(u, c);
        CarriesOnTwice(s, u, t);
        HandlerRunAppend(s, [step], u, rest, t);
        steps := [step] + rest;
      } else {
        steps, t := [step], u;
      }
    }
  }

  lemma FewerActive(s: State, t: State, id: RequestId)
    requires CallsStay(s, t) && id in s.active && id !in t.active
    ensures |t.active.Keys| < |s.active.Keys|
  {
    assert t.active.Keys <= s.active.Keys - {id};
    Subset(t.active.Keys, s.active.Keys - {id});
  }

  lemma Subset(a: set<RequestId>, b: set<RequestId>)
    requires a <= b
    ensures |a| <= |b|
  {
    assert b == a + (b - a);
  }

  lemma {:induction false} EndCalls(s: State) returns (steps: seq<Step>, t: State)
    requires Steady(s) && AllSettled(s)
    ensures HandlerRun(s, steps, t) && Steady(t) && CarriesOn(s, t) && AllSettled(t) && t.active == map[]
    decreases |s.active.Keys|
  {
    if s.active == map[] {
      steps, t := [], s;
    } else {
      var id :| id in s.active;
      assert ActivePoints(s.active, s.calls);
      var first, rest, u;
      first, u := EndOneCall(s, s.active[id]);
      FewerActive(s, u, id);
      rest, t := EndCalls(u);
      CarriesOnTwice(s, u, t);
      HandlerRunAppend(s, first, u, rest, t);
      steps := first + rest;
    }
  }

  /** Handlers and their writes can bring every open state to rest. */
  lemma ComesToRest(s: State) returns (steps: seq<Step>, t: State)
    requires Steady(s)
    ensures HandlerRun(s, steps, t) && Inv(t) && Idle(t) && QueueStays(s, t)
  {
    var first, rest, u;
    first, u := SettleWrites(s);
    rest, t := EndCalls(u);
    CarriesOnTwice(s, u, t);
    HandlerRunAppend(s, first, u, rest, t);
    steps := first + rest;
    NoneOpen(t.writes);
  }

  // ----- Draining from anywhere -----

  /** A waiting reservation that still owned its place has finished, and any other was skipped. */
  ghost predicate AllServed(s: State, t: State) {
    && |t.nodes| == |s.nodes|
    && forall n :: 0 <= n < |s.nodes| ==>
         && (t.nodes[n].state == Finished || t.nodes[n].state == Skipped)
         && (s.nodes[n].state == Waiting ==>
               (t.nodes[n].state == Finished <==>
                  s.nodes[n].owner < |s.admissions| && OwnsPending(s, s.nodes[n].owner)))
  }

  lemma RestThenDrained(s: State, u: State, t: State)
    requires QueueStays(s, u) && Drained(u, t) && WaitingNodes(t.nodes) == {}
    requires forall n :: 0 <= n < |u.nodes| ==> u.nodes[n].state != Admitted
    ensures AllServed(s, t)
  {
    forall n | 0 <= n < |t.nodes|
      ensures t.nodes[n].state != Waiting
    {
      assert n !in WaitingNodes(t.nodes);
    }
  }

  /**
    Progress from every reachable open state, with any calls running or cancelled
    and any writes under way: a finite run of handler steps settles every write,
    ends every call and empties the chain. Every reservation that was not
    cancelled is admitted, answered and finished; every other one is skipped.
  */
  lemma EverythingDrains(s: State) returns (steps: seq<Step>, t: State)
    requires Reachable(s) && Inv(s) && !s.closed
    ensures HandlerRun(s, steps, t) && Inv(t) && Idle(t) && AllServed(s, t)
  {
    InitialInv();
    var before: seq<Step> :| Run(Initial(), before) == Some(s);
    RunWrites(Initial(), before);
    var first, rest, u;
    first, u := ComesToRest(s);
    rest, t := ChainDrains(u);
    NothingAdmittedWhenIdle(u);
    RestThenDrained(s, u, t);
    HandlerRunAppend(s, first, u, rest, t);
    steps := first + rest;
  }
}
