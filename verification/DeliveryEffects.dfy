/**
  What each locked section changes and what it leaves alone, told by the fields
  of the state and by what calls and writes have done so far, and what follows
  for a request that was cancelled.
*/
module DeliveryEffects {
  import opened Options
  import opened DeliveryModel
  import opened DeliveryInvariant
  import opened DeliverySteps
  import opened DeliverySafety
  import opened DeliveryOutcomes

  // ----- When the gate is closed -----

  /** A call answered, promised a delivery, or was queued and then cancelled while it ran. */
  predicate HoldsBack(call: Call) {
    || call.operation.Completed?
    || (call.registered && call.active)
    || (call.admission.Some? && !call.active)
  }

  /** A response is under way, or a current call holds the next ones back. */
  ghost predicate HeldBack(s: State) {
    || (exists w :: 0 <= w < |s.writes| && s.writes[w].phase != WritePhase.Settled)
    || (exists c :: 0 <= c < |s.calls| && IsCurrent(s.active, s.calls, c) && HoldsBack(s.calls[c]))
  }

  lemma {:induction false} SomeOpen(writes: seq<Write>)
    requires OpenWrites(writes) > 0
    ensures exists w :: 0 <= w < |writes| && writes[w].phase != WritePhase.Settled
  {
    var last := |writes| - 1;
    if writes[last].phase == WritePhase.Settled {
      SomeOpen(writes[..last]);
      var w :| 0 <= w < last && writes[..last][w].phase != WritePhase.Settled;
      assert writes[w] == writes[..last][w];
    }
  }

  lemma BlocksExactlyWhen(active: map<RequestId, nat>, calls: seq<Call>, c: nat)
    requires Registry(active, calls) && c < |calls| && IsCurrent(active, calls, c)
    ensures BlocksNewAdmissions(calls[c]) <==> HoldsBack(calls[c])
  {
  }

  lemma CallsHoldBack(s: State)
    requires Registry(s.active, s.calls)
    ensures (exists id :: id in s.active && BlocksNewAdmissions(s.calls[s.active[id]]))
      <==> exists c :: 0 <= c < |s.calls| && IsCurrent(s.active, s.calls, c) && HoldsBack(s.calls[c])
  {
    forall id | id in s.active && BlocksNewAdmissions(s.calls[s.active[id]])
      ensures IsCurrent(s.active, s.calls, s.active[id]) && HoldsBack(s.calls[s.active[id]])
    {
      BlocksExactlyWhen(s.active, s.calls, s.active[id]);
    }
    forall c | 0 <= c < |s.calls| && IsCurrent(s.active, s.calls, c) && HoldsBack(s.calls[c])
      ensures s.calls[c].requestId in s.active && BlocksNewAdmissions(s.calls[s.active[s.calls[c].requestId]])
    {
      BlocksExactlyWhen(s.active, s.calls, c);
    }
  }

  /** The response gate is closed exactly then. */
  lemma GateClosedExactlyWhen(s: State)
    requires Registry(s.active, s.calls) && s.pendingWrites == OpenWrites(s.writes)
    ensures ResponseGateActive(s) <==> HeldBack(s)
  {
    CallsHoldBack(s);
    if s.pendingWrites > 0 {
      SomeOpen(s.writes);
    }
    if w :| 0 <= w < |s.writes| && s.writes[w].phase != WritePhase.Settled {
      OpenWriteCounts(s.writes, w);
    }
  }

  // ----- Reserving -----

  /** The reservation that was made last and still waits. */
  ghost predicate IsYoungest(nodes: seq<Node>, n: Option<nat>) {
    if n.None? then forall m :: 0 <= m < |nodes| ==> nodes[m].state != Waiting
    else
      && n.value < |nodes| && nodes[n.value].state == Waiting
      && forall m :: n.value < m < |nodes| ==> nodes[m].state != Waiting
  }

  lemma TailIsYoungest(s: State)
    requires Inv(s) && !s.closed
    ensures IsYoungest(s.nodes, LastWaiting(s.nodes, s.admissionTail))
  {
    PruneKeeps(s);
    LastWaitingIsWaiting(s.nodes, s.admissionTail);
    var tail := LastWaiting(s.nodes, s.admissionTail);
    forall m | 0 <= m < |s.nodes| && s.nodes[m].state == Waiting
      ensures tail.Some? && m <= tail.value
    {
      assert OnTail(s.nodes, tail, m);
    }
  }

  /** Calls, writes and deliveries are as they were. */
  predicate SameCalls(s: State, t: State) {
    && t.active == s.active && t.calls == s.calls && t.writes == s.writes && t.pendingWrites == s.pendingWrites
    && t.outbox == s.outbox && t.settled == s.settled && t.deliveries == s.deliveries && t.closed == s.closed
  }

  /** No reservation was made, and none was changed. */
  predicate SameReservations(s: State, t: State) {
    t.nodes == s.nodes && t.live == s.live && t.admissions == s.admissions && t.pending == s.pending
  }

  /**
    A reservation gets a place in the queue exactly while something holds it back
    or another one waits, behind the one that waits last; 64 undropped places
    are the most. Otherwise it may start without one.
  */
  ghost predicate Reserves(s: State, t: State, id: RequestId) {
    var a, n := |s.admissions|, |s.nodes|;
    && SameCalls(s, t)
    && if s.closed then SameReservations(s, t)
       else if !HeldBack(s) && IsYoungest(s.nodes, None) then
         && t.nodes == s.nodes && t.live == s.live
         && t.admissions == s.admissions + [Admission(id, None, Gated)] && t.pending == s.pending[id := a]
       else if |s.live| >= 64 then SameReservations(s, t)
       else
         && |t.nodes| == n + 1 && t.nodes[..n] == s.nodes && t.live == s.live + {n}
         && t.nodes[n].state == Waiting && t.nodes[n].owner == a && IsYoungest(s.nodes, t.nodes[n].predecessor)
         && t.admissions == s.admissions + [Admission(id, Some(n), Checking)] && t.pending == s.pending[id := a]
  }

  lemma ReserveIs(s: State, id: RequestId)
    requires WellFormed(s) && s.admissionCount == |s.live| && (ResponseGateActive(s) <==> HeldBack(s))
    requires !s.closed ==> IsYoungest(s.nodes, LastWaiting(s.nodes, s.admissionTail))
    ensures Reserves(s, Reserve(s, id), id)
  {
  }

  lemma ReserveDecides(s: State, id: RequestId)
    requires Inv(s)
    ensures Reserves(s, Apply(s, ReserveStep(id)), id)
  {
    GateClosedExactlyWhen(s);
    if !s.closed {
      TailIsYoungest(s);
    }
    ReserveIs(s, id);
  }

  // ----- Checking and admitting -----

  predicate Owns(s: State, a: nat)
    requires a < |s.admissions|
  {
    s.admissions[a].requestId in s.pending && s.pending[s.admissions[a].requestId] == a
  }

  /** The reservation `a` is in another phase, and nothing else has changed. */
  predicate OnlyPhase(s: State, t: State, a: nat, phase: Phase)
    requires a < |s.admissions|
  {
    t == s.(admissions := s.admissions[a := Admission(s.admissions[a].requestId, s.admissions[a].node, phase)])
  }

  /** A reservation is refused because the transport closed, or else because it was cancelled. */
  lemma CheckDecides(s: State, a: nat)
    requires Inv(s) && Enabled(s, CheckStep(a))
    ensures OnlyPhase(s, Apply(s, CheckStep(a)), a,
      if s.closed then Refused(Closed) else if !Owns(s, a) then Refused(Cancelled) else Starting)
  {
  }

  /** The steps of the wait: read the link, look at the node under the cursor, look again, and clear the link. */
  lemma WaitDecides(s: State, a: nat)
    requires Inv(s) && a < |s.admissions|
    ensures Enabled(s, RestartStep(a)) ==> OnlyPhase(s, Apply(s, RestartStep(a)), a, Checking)
    ensures Enabled(s, StartWaitStep(a)) ==>
      var n := s.admissions[a].node;
      && n.Some? && n.value < |s.nodes|
      && OnlyPhase(s, Apply(s, StartWaitStep(a)), a,
           if s.nodes[n.value].predecessor.Some? then Watching(s.nodes[n.value].predecessor.value) else Gated)
    ensures Enabled(s, AdvanceStep(a)) ==>
      var t := Apply(s, AdvanceStep(a)); var cursor := s.admissions[a].phase.cursor;
      && cursor < |s.nodes|
      && if s.nodes[cursor].state == Waiting || s.nodes[cursor].state == Admitted then t == s
         else if s.nodes[cursor].state == Skipped && s.nodes[cursor].predecessor.Some? then
           OnlyPhase(s, t, a, Watching(s.nodes[cursor].predecessor.value))
         else OnlyPhase(s, t, a, Clearing)
    ensures Enabled(s, ClearLinkStep(a)) ==>
      var t := Apply(s, ClearLinkStep(a)); var n := s.admissions[a].node;
      && n.Some? && n.value < |s.nodes|
      && OnlyPhase(s.(nodes := s.nodes[n.value := s.nodes[n.value].(predecessor := None)]), t, a, Gated)
  {
  }

  /** The call `c` is over: it is inactive, has no delivery and no place, and its place is finished. */
  predicate Ends(s: State, t: State, c: nat)
    requires c < |s.calls|
  {
    && c < |t.calls|
    && !t.calls[c].active && t.calls[c].delivery.None? && t.calls[c].admission.None?
    && t.calls[c].requestId == s.calls[c].requestId && t.calls[c].registered == s.calls[c].registered
    && t.calls[c].answered == s.calls[c].answered
    && t.outbox == s.outbox + Hand(s.calls[c].delivery)
  }

  /** Places are as they were, but the one that call `c` held is finished. */
  predicate Vacates(nodes: seq<Node>, after: seq<Node>, place: Option<nat>) {
    && |after| == |nodes|
    && forall n :: 0 <= n < |nodes| ==>
         after[n] == if place == Some(n) then nodes[n].(state := Finished) else nodes[n]
  }

  predicate OtherCallsStay(s: State, t: State, c: nat) {
    |s.calls| <= |t.calls| && forall b :: 0 <= b < |s.calls| && b != c ==> t.calls[b] == s.calls[b]
  }

  /** Admitted: it leaves `pending`, its call is current, and what was current for its id is over. */
  ghost predicate Admits(s: State, t: State, a: nat)
    requires a < |s.admissions|
  {
    var x, c := s.admissions[a], |s.calls|;
    && t.pending == s.pending - {x.requestId} && t.active == s.active[x.requestId := c]
    && t.admissions == s.admissions[a := Admission(x.requestId, None, Returned(c))]
    && |t.calls| == c + 1 && t.calls[c] == Call(x.requestId, true, false, None, x.node, Running, false, false)
    && |t.nodes| == |s.nodes| && (x.node.Some? && x.node.value < |s.nodes| ==> t.nodes[x.node.value].state == Admitted)
    && t.writes == s.writes && t.pendingWrites == s.pendingWrites && t.settled == s.settled && t.closed == s.closed
    && (if x.requestId in s.active && s.active[x.requestId] < c
        then Ends(s, t, s.active[x.requestId]) && OtherCallsStay(s, t, s.active[x.requestId])
        else t.outbox == s.outbox && OtherCallsStay(s, t, c))
  }

  /** What was current for an id is over. */
  predicate Displaced(s: State, u: State, id: RequestId) {
    && |u.calls| == |s.calls| && |u.nodes| == |s.nodes|
    && u.pending == s.pending && u.admissions == s.admissions && u.active == s.active - {id}
    && u.writes == s.writes && u.pendingWrites == s.pendingWrites && u.settled == s.settled && u.closed == s.closed
    && (forall n :: 0 <= n < |s.nodes| && s.nodes[n].state == Waiting ==> u.nodes[n].state == Waiting)
    && (if id in s.active && s.active[id] < |s.calls| then Ends(s, u, s.active[id]) && OtherCallsStay(s, u, s.active[id])
        else u.outbox == s.outbox && u.calls == s.calls)
  }

  lemma DisplaceIs(s: State, id: RequestId)
    requires WellFormed(s)
    ensures Displaced(s, Displace(s, id), id)
  {
    if id in s.active {
      AbandonCallIs(s, s.active[id]);
    }
  }

  /** A new call is current, and the place of its reservation is admitted. */
  predicate Installed(u: State, t: State, a: nat)
    requires a < |u.admissions|
  {
    var x := u.admissions[a];
    && t.calls == u.calls + [Call(x.requestId, true, false, None, x.node, Running, false, false)]
    && t.pending == u.pending - {x.requestId} && t.active == u.active[x.requestId := |u.calls|]
    && t.admissions == u.admissions[a := Admission(x.requestId, None, Returned(|u.calls|))]
    && |t.nodes| == |u.nodes| && (x.node.Some? && x.node.value < |u.nodes| ==> t.nodes[x.node.value].state == Admitted)
    && t.writes == u.writes && t.pendingWrites == u.pendingWrites && t.settled == u.settled && t.closed == u.closed
    && t.outbox == u.outbox
  }

  lemma InstallIs(u: State, a: nat)
    requires a < |u.admissions| && NodeIndex(u.admissions[a].node, u.nodes) && WellFormed(Install(u, a))
    requires u.admissions[a].node.Some? ==> u.nodes[u.admissions[a].node.value].state == Waiting
    ensures Installed(u, Prune(Install(u, a)), a)
  {
  }

  lemma OwnPlaceWaits(s: State, a: nat)
    requires Inv(s) && a < |s.admissions|
    ensures NodeIndex(s.admissions[a].node, s.nodes)
    ensures s.admissions[a].node.Some? ==> s.nodes[s.admissions[a].node.value].state == Waiting
  {
  }

  lemma EndsBefore(s: State, u: State, t: State, c: nat)
    requires c < |s.calls| == |u.calls| <= |t.calls| && Ends(s, u, c) && OtherCallsStay(s, u, c)
    requires t.calls[..|u.calls|] == u.calls && t.outbox == u.outbox
    ensures Ends(s, t, c) && OtherCallsStay(s, t, c)
  {
    assert forall b :: 0 <= b < |u.calls| ==> t.calls[b] == t.calls[..|u.calls|][b];
  }

  lemma DisplacedThenInstalled(s: State, u: State, t: State, a: nat)
    requires a < |s.admissions| && Displaced(s, u, s.admissions[a].requestId) && Installed(u, t, a)
    ensures Admits(s, t, a)
  {
    var id := s.admissions[a].requestId;
    assert t.active == s.active[id := |s.calls|];
    assert t.calls[..|u.calls|] == u.calls;
    if id in s.active && s.active[id] < |s.calls| {
      EndsBefore(s, u, t, s.active[id]);
    }
  }

  lemma AdmitsInstalled(s: State, a: nat)
    requires Inv(s) && Enabled(s, GateStep(a)) && !s.closed && Owns(s, a)
    requires s.admissions[a].node.None? || !ResponseGateActive(s)
    ensures Admits(s, Gate(s, a), a)
  {
    var u := Displace(s, s.admissions[a].requestId);
    GateIsInstall(s, a);
    OwnPlaceWaits(s, a);
    DisplaceIs(s, s.admissions[a].requestId);
    InstallIs(u, a);
    DisplacedThenInstalled(s, u, Gate(s, a), a);
  }

  /**
    At the gate a reservation is refused, waits, or is admitted; one without a
    place waits for nothing, and one with a place while something holds it back.
  */
  lemma GateDecides(s: State, a: nat)
    requires Inv(s) && Enabled(s, GateStep(a))
    ensures var t := Apply(s, GateStep(a));
      if s.closed then OnlyPhase(s, t, a, Refused(Closed))
      else if !Owns(s, a) then OnlyPhase(s, t, a, Refused(Cancelled))
      else if s.admissions[a].node.Some? && HeldBack(s) then t == s
      else Admits(s, t, a)
  {
    GateClosedExactlyWhen(s);
    if !s.closed && Owns(s, a) && (s.admissions[a].node.None? || !ResponseGateActive(s)) {
      AdmitsInstalled(s, a);
    }
  }

  /** A reservation that is dropped gives up its place if it still waits there, and then its entry. */
  lemma DropDecides(s: State, a: nat)
    requires Inv(s) && Enabled(s, DropAdmissionStep(a))
    ensures var t := Apply(s, DropAdmissionStep(a)); var x := s.admissions[a];
      && t == s.(nodes := t.nodes, admissions := s.admissions[a := Admission(x.requestId, None, Unregistering)])
      && |t.nodes| == |s.nodes|
      && forall n :: 0 <= n < |s.nodes| ==>
           t.nodes[n] == if x.node == Some(n) then s.nodes[n].(state := Skipped) else s.nodes[n]
  {
  }

  lemma UnregisterDecides(s: State, a: nat)
    requires Inv(s) && Enabled(s, UnregisterStep(a))
    ensures var t := Apply(s, UnregisterStep(a)); var x := s.admissions[a];
      && t == s.(pending := t.pending, admissionTail := t.admissionTail,
                 admissions := s.admissions[a := Admission(x.requestId, x.node, Gone)])
      && t.pending == if Owns(s, a) then s.pending - {x.requestId} else s.pending
  {
  }

  // ----- What a handler does -----

  /** A delivery goes to the current call of its handler, or is handed back if that call is over or cancelled. */
  lemma RegisterDecides(s: State, c: nat)
    requires Inv(s) && Enabled(s, RegisterStep(c))
    ensures var t := Apply(s, RegisterStep(c)); var taken := IsCurrent(s.active, s.calls, c) && s.calls[c].active;
      && t == s.(calls := t.calls, outbox := t.outbox, deliveries := s.deliveries + 1)
      && |t.calls| == |s.calls| && OtherCallsStay(s, t, c)
      && t.calls[c] == s.calls[c].(registered := true,
           delivery := if taken then Some(s.deliveries) else s.calls[c].delivery)
      && t.outbox == if taken then s.outbox else s.outbox + multiset{s.deliveries}
  {
  }

  /** Everything but calls, places, deliveries to settle, and the tail. */
  predicate OnlyCall(s: State, t: State, c: nat) {
    && t.pending == s.pending && t.admissions == s.admissions && t.closed == s.closed && t.live == s.live
    && t.writes == s.writes && t.pendingWrites == s.pendingWrites && t.settled == s.settled
    && t.deliveries == s.deliveries && |t.calls| == |s.calls| && OtherCallsStay(s, t, c)
  }

  lemma EndingIs(s: State, c: nat, operation: Operation)
    requires Inv(s) && c < |s.calls| && IsCurrent(s.active, s.calls, c)
    ensures var t := s.(calls := s.calls[c := s.calls[c].(operation := operation)]);
      && WellFormed(t)
      && var u := Prune(Retire(AbandonCall(t, c), c));
      && OnlyCall(s, u, c) && Ends(s, u, c) && u.calls[c].operation == operation
      && u.active == s.active - {s.calls[c].requestId} && Vacates(s.nodes, u.nodes, s.calls[c].admission)
  {
    var t := s.(calls := s.calls[c := s.calls[c].(operation := operation)]);
    assert WellFormed(t);
    AbandonCallIs(t, c);
  }

  /** Only the call's own flag changes. */
  predicate OnlyOperation(s: State, t: State, c: nat, operation: Operation, finished: bool)
    requires c < |s.calls|
  {
    && OnlyCall(s, t, c) && t.active == s.active && t.nodes == s.nodes && t.outbox == s.outbox
    && t.calls[c] == s.calls[c].(operation := operation, operationFinished := s.calls[c].operationFinished || finished)
  }

  /** Completing leaves a current call waiting for its response, and ends one that was cancelled. */
  lemma CompleteDecides(s: State, c: nat)
    requires Inv(s) && Enabled(s, CompleteStep(c))
    ensures var t := Apply(s, CompleteStep(c));
      if !IsCurrent(s.active, s.calls, c) then OnlyOperation(s, t, c, Completed, false)
      else if s.calls[c].active then OnlyOperation(s, t, c, Completed, true)
      else
        && OnlyCall(s, t, c) && Ends(s, t, c) && t.calls[c].operation.Completed?
        && t.active == s.active - {s.calls[c].requestId} && Vacates(s.nodes, t.nodes, s.calls[c].admission)
  {
    var t := s.(calls := s.calls[c := s.calls[c].(operation := Completed)]);
    assert WellFormed(t);
    if IsCurrent(s.active, s.calls, c) && !s.calls[c].active {
      EndingIs(s, c, Completed);
    }
  }

  /** An operation that is dropped ends its call. */
  lemma DropOperationDecides(s: State, c: nat)
    requires Inv(s) && Enabled(s, DropOperationStep(c))
    ensures var t := Apply(s, DropOperationStep(c));
      if !IsCurrent(s.active, s.calls, c) then OnlyOperation(s, t, c, Dropped, false)
      else
        && OnlyCall(s, t, c) && Ends(s, t, c) && t.calls[c].operation.Dropped?
        && t.active == s.active - {s.calls[c].requestId} && Vacates(s.nodes, t.nodes, s.calls[c].admission)
  {
    if IsCurrent(s.active, s.calls, c) {
      EndingIs(s, c, Dropped);
    }
  }

  // ----- Cancelling -----

  /** Nothing but `pending`, the tail, and what a current call holds. */
  predicate OnlyCancels(s: State, t: State) {
    && t.admissions == s.admissions && t.writes == s.writes && t.pendingWrites == s.pendingWrites
    && t.settled == s.settled && t.deliveries == s.deliveries && t.closed == s.closed && t.live == s.live
  }

  /** The call is inactive and its delivery is handed out; it stays current exactly as long as its operation runs. */
  ghost predicate CancelsCall(s: State, t: State, c: nat)
    requires c < |s.calls|
  {
    var running := s.calls[c].operation.Running?;
    && |t.calls| == |s.calls| && OtherCallsStay(s, t, c)
    && !t.calls[c].active && t.calls[c].delivery.None? && t.outbox == s.outbox + Hand(s.calls[c].delivery)
    && t.calls[c].requestId == s.calls[c].requestId && t.calls[c].operation == s.calls[c].operation
    && t.calls[c].registered == s.calls[c].registered && t.calls[c].answered == s.calls[c].answered
    && t.calls[c].admission == (if running then s.calls[c].admission else None)
    && t.active == (if running then s.active else s.active - {s.calls[c].requestId})
    && Vacates(s.nodes, t.nodes, if running then None else s.calls[c].admission)
  }

  lemma CancelCallIs(s: State, c: nat, call: Call)
    requires WellFormed(s) && c < |s.calls|
    requires call == s.calls[c].(active := false, delivery := None,
      admission := if s.calls[c].operationFinished then None else s.calls[c].admission)
    ensures CancelCall(s, c) == s.(
      calls := s.calls[c := call],
      outbox := s.outbox + Hand(s.calls[c].delivery),
      active := if s.calls[c].operationFinished then s.active - {s.calls[c].requestId} else s.active,
      nodes := if s.calls[c].operationFinished then Finishing(s.nodes, s.calls[c].admission) else s.nodes)
  {
  }

  lemma CancelCallDecides(s: State, c: nat)
    requires WellFormed(s) && Registry(s.active, s.calls) && c < |s.calls| && IsCurrent(s.active, s.calls, c)
    requires s.calls[c].admission.Some? ==> s.nodes[s.calls[c].admission.value].state == Admitted
    ensures var t := CancelCall(s, c);
      OnlyCancels(s, t) && t.pending == s.pending && CancelsCall(s, t, c)
  {
    CancelCallIs(s, c, s.calls[c].(active := false, delivery := None,
      admission := if s.calls[c].operationFinished then None else s.calls[c].admission));
  }

  lemma CurrentPlaceIsAdmitted(s: State, c: nat)
    requires Inv(s) && c < |s.calls|
    ensures WellFormed(s) && Registry(s.active, s.calls) && NodeIndex(s.calls[c].admission, s.nodes)
    ensures s.calls[c].admission.Some? ==> s.nodes[s.calls[c].admission.value].state == Admitted
  {
  }

  /**
    Cancelling takes a pending reservation out, and nothing else. Without one it
    ends or marks the current call, and without either it does nothing.
  */
  lemma CancelDecides(s: State, id: RequestId)
    requires Inv(s)
    ensures var t := Apply(s, CancelStep(id));
      && OnlyCancels(s, t)
      && t.pending == s.pending - {id}
      && if id !in s.pending && id in s.active then s.active[id] < |s.calls| && CancelsCall(s, t, s.active[id])
         else t.calls == s.calls && t.active == s.active && t.outbox == s.outbox && t.nodes == s.nodes
  {
    if id !in s.pending && id in s.active {
      var c := s.active[id];
      assert IsCurrent(s.active, s.calls, c);
      CurrentPlaceIsAdmitted(s, c);
      CancelCallDecides(s, c);
    }
  }

  // ----- Closing -----

  /** A current call holds delivery `d`. */
  ghost predicate HeldByCurrent(s: State, d: nat) {
    exists c :: 0 <= c < |s.calls| && IsCurrent(s.active, s.calls, c) && s.calls[c].delivery == Some(d)
  }

  lemma {:induction false} HeldByMembers(calls: seq<Call>, members: set<nat>, d: nat)
    ensures d in HeldBy(calls, members) <==> exists c :: 0 <= c < |calls| && c in members && calls[c].delivery == Some(d)
  {
    if calls != [] {
      var last := |calls| - 1;
      HeldByMembers(calls[..last], members, d);
      assert forall c :: 0 <= c < last ==> calls[..last][c] == calls[c];
    }
  }

  lemma CurrentIsMember(s: State, c: nat)
    requires ActivePoints(s.active, s.calls) && c < |s.calls|
    ensures c in s.active.Values <==> IsCurrent(s.active, s.calls, c)
  {
    if c in s.active.Values {
      var id :| id in s.active && s.active[id] == c;
    }
  }

  /** Closing leaves nothing current or pending, ends what was current, and hands every held delivery out. */
  lemma CloseDecides(s: State)
    requires Inv(s)
    ensures var t := Apply(s, CloseStep);
      && t.closed && t.active == map[] && t.pending == map[] && t.admissionTail.None?
      && t.admissions == s.admissions && t.writes == s.writes && t.pendingWrites == s.pendingWrites
      && t.settled == s.settled && t.live == s.live && |t.calls| == |s.calls|
      && (forall c :: 0 <= c < |s.calls| ==>
            if IsCurrent(s.active, s.calls, c) then
              && !t.calls[c].active && t.calls[c].delivery.None? && t.calls[c].admission.None?
              && t.calls[c].operation == s.calls[c].operation
            else t.calls[c] == s.calls[c])
      && (forall d: nat :: d in t.outbox <==> d in s.outbox || HeldByCurrent(s, d))
  {
    var t := Close(s);
    forall c: nat | c < |s.calls|
      ensures c in s.active.Values <==> IsCurrent(s.active, s.calls, c)
    {
      CurrentIsMember(s, c);
    }
    forall d: nat
      ensures d in t.outbox <==> d in s.outbox || HeldByCurrent(s, d)
    {
      HeldByMembers(s.calls, s.active.Values, d);
    }
  }

  // ----- Writing a response -----

  /**
    A response for an id is written, for the current call of that id if there is
    one; it panics while that call still runs.
  */
  predicate Responds(s: State, t: State, id: RequestId, source: Option<nat>) {
    && t == s.(calls := t.calls, writes := t.writes, pendingWrites := t.pendingWrites, panics := t.panics)
    && |t.calls| == |s.calls|
    && (forall c :: 0 <= c < |s.calls| ==>
          t.calls[c] == if source == Some(c) then s.calls[c].(answered := true) else s.calls[c])
    && if id !in s.active then t.writes == s.writes && t.pendingWrites == s.pendingWrites && t.panics == s.panics
       else if s.active[id] < |s.calls| && s.calls[s.active[id]].operation.Running? then
         t.writes == s.writes && t.pendingWrites == s.pendingWrites && t.panics == s.panics + 1
       else t.writes == s.writes + [Write(id, s.active[id], Writing)] && t.pendingWrites == s.pendingWrites + 1
            && t.panics == s.panics
  }

  lemma RespondIs(s: State, id: RequestId, source: Option<nat>)
    requires Registry(s.active, s.calls) && (source.Some? ==> source.value < |s.calls|)
    ensures Responds(s, Respond(s, id, source), id, source)
  {
    if id in s.active {
      assert IsCurrent(s.active, s.calls, s.active[id]);
    }
  }

  lemma RespondDecides(s: State, id: RequestId, source: Option<nat>)
    requires Inv(s) && Enabled(s, RespondStep(id, source))
    ensures Responds(s, Apply(s, RespondStep(id, source)), id, source)
  {
    RespondIs(s, id, source);
  }

  /** The end of a write takes the delivery of the call it was written for, if that is still current, and ends it. */
  lemma TakeDecides(s: State, w: nat, outcome: Outcome)
    requires Inv(s) && Enabled(s, TakeDeliveryStep(w, outcome))
    ensures var t := Apply(s, TakeDeliveryStep(w, outcome)); var c := s.writes[w].call;
      && c < |s.calls| && t.outbox == s.outbox && t.settled == s.settled && t.pendingWrites == s.pendingWrites
      && t.pending == s.pending && t.admissions == s.admissions && t.closed == s.closed && t.live == s.live
      && if IsCurrent(s.active, s.calls, c) then
           && t.writes == s.writes[w := s.writes[w].(phase := Taken(s.calls[c].delivery, outcome))]
           && t.active == s.active - {s.calls[c].requestId}
           && |t.calls| == |s.calls| && OtherCallsStay(s, t, c)
           && !t.calls[c].active && t.calls[c].delivery.None? && t.calls[c].admission.None?
           && Vacates(s.nodes, t.nodes, s.calls[c].admission)
         else
           && t.writes == s.writes[w := s.writes[w].(phase := Taken(None, outcome))]
           && t.active == s.active && t.calls == s.calls && t.nodes == s.nodes
  {
    var c := s.writes[w].call;
    CurrentPlaceIsAdmitted(s, c);
    if IsCurrent(s.active, s.calls, c) {
      EndWrittenDecides(s, c);
    }
  }

  lemma EndWrittenDecides(s: State, c: nat)
    requires WellFormed(s) && c < |s.calls|
    requires s.calls[c].admission.Some? ==> s.nodes[s.calls[c].admission.value].state == Admitted
    ensures var t := EndWritten(s, c);
      && WellFormed(t)
      && t.outbox == s.outbox && t.settled == s.settled && t.writes == s.writes && t.pendingWrites == s.pendingWrites
      && t.pending == s.pending && t.admissions == s.admissions && t.closed == s.closed && t.live == s.live
      && t.active == s.active - {s.calls[c].requestId}
      && |t.calls| == |s.calls| && OtherCallsStay(s, t, c)
      && !t.calls[c].active && t.calls[c].delivery.None? && t.calls[c].admission.None?
      && Vacates(s.nodes, t.nodes, s.calls[c].admission)
  {
    assert WellFormed(Retire(s, c));
  }

  /** What was taken is settled with its outcome, and then the write is no longer counted. */
  lemma AcknowledgeDecides(s: State, w: nat)
    requires Inv(s) && Enabled(s, ApplyDeliveryStep(w))
    ensures var t := Apply(s, ApplyDeliveryStep(w)); var x := s.writes[w].phase;
      && t == s.(writes := s.writes[w := s.writes[w].(phase := Acknowledged)], settled := t.settled)
      && t.settled == if x.delivery.Some? then s.settled + [Settlement(x.delivery.value, x.outcome)] else s.settled
  {
  }

  lemma SettleDecides(s: State, w: nat)
    requires Inv(s) && Enabled(s, SettleWriteStep(w))
    ensures s.pendingWrites > 0
    ensures Apply(s, SettleWriteStep(w)) == s.(writes := s.writes[w := s.writes[w].(phase := WritePhase.Settled)],
                                               pendingWrites := s.pendingWrites - 1)
  {
    OpenWriteCounts(s.writes, w);
  }

  /** A delivery that was handed out is settled as unclaimed. */
  lemma HandBackDecides(s: State, d: nat)
    requires Inv(s) && Enabled(s, SettleUnclaimedStep(d))
    ensures Apply(s, SettleUnclaimedStep(d))
      == s.(outbox := s.outbox - multiset{d}, settled := s.settled + [Settlement(d, Outcome.Unclaimed)])
  {
  }

  /** A place that nothing refers to is given back. */
  lemma ReleaseDecides(s: State, n: nat)
    requires Inv(s) && Enabled(s, DropNodeStep(n))
    ensures s.admissionCount > 0
    ensures Apply(s, DropNodeStep(n)) == s.(live := s.live - {n}, admissionCount := s.admissionCount - 1)
  {
    DropNodeKeeps(s, n);
  }

  // ----- What a cancellation means for the rest of the run -----

  /** Entries of `pending` are only removed, except for a new one of a new reservation. */
  ghost predicate PendingShrinks(s: State, t: State) {
    forall id :: id in t.pending ==>
      t.pending[id] == |s.admissions| || (id in s.pending && t.pending[id] == s.pending[id])
  }

  /** No reservation but `a` is admitted. */
  ghost predicate NoneReturns(s: State, t: State, a: nat) {
    && |s.admissions| <= |t.admissions|
    && forall b :: 0 <= b < |s.admissions| ==>
         && t.admissions[b].requestId == s.admissions[b].requestId
         && (b != a && t.admissions[b].phase.Returned? ==> s.admissions[b].phase.Returned?)
  }

  lemma GateShrinks(s: State, a: nat)
    requires Inv(s) && Enabled(s, GateStep(a))
    ensures PendingShrinks(s, Gate(s, a)) && NoneReturns(s, Gate(s, a), a)
    ensures Gate(s, a).admissions[a].phase.Returned? ==> Owns(s, a)
  {
    GateDecides(s, a);
  }

  lemma WaitShrinks(s: State, step: Step)
    requires WellFormed(s) && Enabled(s, step)
    requires step.CheckStep? || step.StartWaitStep? || step.AdvanceStep? || step.RestartStep? || step.ClearLinkStep?
    ensures PendingShrinks(s, Apply(s, step)) && NoneReturns(s, Apply(s, step), |s.admissions|)
  {
  }

  lemma PlaceShrinks(s: State, step: Step)
    requires Inv(s) && Enabled(s, step) && CountersHold(s, step)
    requires step.ReserveStep? || step.DropAdmissionStep? || step.UnregisterStep? || step.DropNodeStep?
    ensures PendingShrinks(s, Apply(s, step)) && NoneReturns(s, Apply(s, step), |s.admissions|)
  {
    match step
    case ReserveStep(id) => ReserveDecides(s, id);
    case DropAdmissionStep(a) => DropDecides(s, a);
    case UnregisterStep(a) => UnregisterDecides(s, a);
    case DropNodeStep(n) =>
  }

  lemma CallShrinks(s: State, step: Step)
    requires Inv(s) && Enabled(s, step) && CountersHold(s, step) && !AdmissionStep(step)
    ensures PendingShrinks(s, Apply(s, step)) && NoneReturns(s, Apply(s, step), |s.admissions|)
  {
    match step
    case CompleteStep(c) => CompleteDecides(s, c);
    case DropOperationStep(c) => DropOperationDecides(s, c);
    case CancelStep(id) => CancelDecides(s, id);
    case CloseStep => CloseDecides(s);
    case RegisterStep(c) => RegisterDecides(s, c);
    case RespondStep(id, source) => RespondDecides(s, id, source);
    case TakeDeliveryStep(w, outcome) => TakeDecides(s, w, outcome);
    case ApplyDeliveryStep(w) =>
    case SettleWriteStep(w) =>
    case SettleUnclaimedStep(d) =>
  }

  /** The reservation lost its entry before it was admitted. */
  predicate Lost(s: State, a: nat) {
    a < |s.admissions| && !Owns(s, a) && !s.admissions[a].phase.Returned?
  }

  lemma LostStays(s: State, step: Step, a: nat)
    requires Inv(s) && Enabled(s, step) && Lost(s, a)
    ensures Lost(Next(s, step), a)
  {
    StepKeeps(s, step);
    if step.GateStep? {
      GateShrinks(s, step.a);
    } else if step.ReserveStep? || step.DropAdmissionStep? || step.UnregisterStep? || step.DropNodeStep? {
      PlaceShrinks(s, step);
    } else if AdmissionStep(step) {
      WaitShrinks(s, step);
    } else {
      CallShrinks(s, step);
    }
  }

  lemma {:induction false} LostForever(s: State, steps: seq<Step>, a: nat)
    requires Inv(s) && Run(s, steps).Some? && Lost(s, a)
    ensures Lost(Run(s, steps).value, a)
    decreases |steps|
  {
    if steps != [] {
      LostStays(s, steps[0], a);
      LostForever(Next(s, steps[0]), steps[1..], a);
    }
  }

  lemma CancelLoses(s: State, id: RequestId)
    requires Inv(s) && id in s.pending
    ensures Lost(Cancel(s, id), s.pending[id])
  {
    CancelDecides(s, id);
  }

  /** A reservation that was cancelled is never admitted, whatever happens next. */
  lemma CancelledIsNeverAdmitted(s: State, id: RequestId, steps: seq<Step>)
    requires Reachable(s) && Inv(s) && id in s.pending && Run(Next(s, CancelStep(id)), steps).Some?
    ensures var t := Run(Next(s, CancelStep(id)), steps).value;
      s.pending[id] < |t.admissions| && !t.admissions[s.pending[id]].phase.Returned?
  {
    CancelLoses(s, id);
    LostForever(Next(s, CancelStep(id)), steps, s.pending[id]);
  }

  // ----- A cancelled call -----

  predicate Inactive(s: State, c: nat) {
    c < |s.calls| && !s.calls[c].active
  }

  lemma InactiveAtGate(s: State, a: nat, c: nat)
    requires Inv(s) && Enabled(s, GateStep(a)) && Inactive(s, c)
    ensures Inactive(Gate(s, a), c)
  {
    GateDecides(s, a);
  }

  lemma InactiveInHandlers(s: State, step: Step, c: nat)
    requires Inv(s) && Enabled(s, step) && Inactive(s, c)
    requires step.CompleteStep? || step.DropOperationStep? || step.CancelStep? || step.CloseStep? || step.RegisterStep?
    ensures Inactive(Apply(s, step), c)
  {
    match step
    case CompleteStep(b) => CompleteDecides(s, b);
    case DropOperationStep(b) => DropOperationDecides(s, b);
    case CancelStep(id) => CancelDecides(s, id);
    case CloseStep => CloseDecides(s);
    case RegisterStep(b) => RegisterDecides(s, b);
  }

  lemma InactiveInWrites(s: State, w: nat, outcome: Outcome, c: nat)
    requires Inv(s) && Enabled(s, TakeDeliveryStep(w, outcome)) && Inactive(s, c)
    ensures Inactive(Apply(s, TakeDeliveryStep(w, outcome)), c)
  {
    TakeDecides(s, w, outcome);
  }

  lemma InactiveInResponses(s: State, id: RequestId, source: Option<nat>, c: nat)
    requires Inv(s) && Enabled(s, RespondStep(id, source)) && Inactive(s, c)
    ensures Inactive(Apply(s, RespondStep(id, source)), c)
  {
    RespondDecides(s, id, source);
  }

  lemma InactiveStays(s: State, step: Step, c: nat)
    requires Inv(s) && Enabled(s, step) && Inactive(s, c)
    ensures Inactive(Next(s, step), c)
  {
    StepKeeps(s, step);
    if step.GateStep? {
      InactiveAtGate(s, step.a, c);
    } else if step.RespondStep? {
      InactiveInResponses(s, step.id, step.source, c);
    } else if step.TakeDeliveryStep? {
      InactiveInWrites(s, step.w, step.outcome, c);
    } else if AdmissionStep(step) || WriteStep(step) || step.SettleUnclaimedStep? {
      OtherStepsLeaveCurrent(s, step);
    } else {
      InactiveInHandlers(s, step, c);
    }
  }

  lemma {:induction false} InactiveForever(s: State, steps: seq<Step>, c: nat)
    requires Inv(s) && Run(s, steps).Some? && Inactive(s, c)
    ensures Inactive(Run(s, steps).value, c)
    decreases |steps|
  {
    if steps != [] {
      InactiveStays(s, steps[0], c);
      InactiveForever(Next(s, steps[0]), steps[1..], c);
    }
  }

  lemma CancelEnds(s: State, id: RequestId)
    requires Inv(s) && id !in s.pending && id in s.active
    ensures Inactive(Cancel(s, id), s.active[id])
  {
    CancelDecides(s, id);
  }

  /** What the handler of a cancelled call registers, however late, is handed back. */
  lemma LateDeliveryIsHandedBack(s: State, id: RequestId, steps: seq<Step>, c: nat)
    requires Reachable(s) && Inv(s) && id !in s.pending && id in s.active && c == s.active[id]
    requires Run(Next(s, CancelStep(id)), steps).Some?
    requires Enabled(Run(Next(s, CancelStep(id)), steps).value, RegisterStep(c))
    ensures var u := Run(Next(s, CancelStep(id)), steps).value; u.deliveries in Next(u, RegisterStep(c)).outbox
  {
    CancelEnds(s, id);
    InactiveForever(Next(s, CancelStep(id)), steps, c);
    RegisterDecides(Run(Next(s, CancelStep(id)), steps).value, c);
  }

  lemma ReachableOn(s: State, steps: seq<Step>)
    requires Reachable(s) && Inv(s) && Run(s, steps).Some?
    ensures Reachable(Run(s, steps).value)
  {
    InitialInv();
    var before: seq<Step> :| Run(Initial(), before) == Some(s);
    RunAppend(Initial(), before, steps);
  }

  lemma ReachableNext(s: State, step: Step)
    requires Reachable(s) && Inv(s) && Enabled(s, step)
    ensures Reachable(Next(s, step))
  {
    assert [step][1..] == [];
    assert Run(s, [step]) == Some(Next(s, step));
    ReachableOn(s, [step]);
  }

  /**
    A cancelled call delivers nothing: whatever its handler registers afterwards,
    if it is settled, is settled as unclaimed.
  */
  lemma LateDeliveryIsUnclaimed(s: State, id: RequestId, steps: seq<Step>, c: nat, u: State, later: seq<Step>, i: nat)
    requires Reachable(s) && Inv(s) && id !in s.pending && id in s.active && c == s.active[id]
    requires Run(Next(s, CancelStep(id)), steps) == Some(u) && Inv(u) && Enabled(u, RegisterStep(c))
    requires Run(Next(u, RegisterStep(c)), later).Some?
    requires i < |Run(Next(u, RegisterStep(c)), later).value.settled|
    requires Run(Next(u, RegisterStep(c)), later).value.settled[i].delivery == u.deliveries
    ensures Run(Next(u, RegisterStep(c)), later).value.settled[i].outcome == Outcome.Unclaimed
  {
    LateDeliveryIsHandedBack(s, id, steps, c);
    ReachableNext(s, CancelStep(id));
    ReachableOn(Next(s, CancelStep(id)), steps);
    ReachableNext(u, RegisterStep(c));
    HandedOutIsUnclaimed(Next(u, RegisterStep(c)), later, u.deliveries, i);
  }

  /** And what it held when it was cancelled is settled as unclaimed, too. */
  lemma HeldDeliveryIsUnclaimed(s: State, id: RequestId, d: nat, later: seq<Step>, i: nat)
    requires Reachable(s) && Inv(s) && id !in s.pending && id in s.active && s.active[id] < |s.calls|
    requires s.calls[s.active[id]].delivery == Some(d)
    requires Run(Next(s, CancelStep(id)), later).Some?
    requires i < |Run(Next(s, CancelStep(id)), later).value.settled|
    requires Run(Next(s, CancelStep(id)), later).value.settled[i].delivery == d
    ensures Run(Next(s, CancelStep(id)), later).value.settled[i].outcome == Outcome.Unclaimed
  {
    CancelDecides(s, id);
    ReachableNext(s, CancelStep(id));
    HandedOutIsUnclaimed(Next(s, CancelStep(id)), later, d, i);
  }
}
