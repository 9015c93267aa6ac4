/**
  `ResponseDeliveries` as the source runs it: one object whose fields the locked
  sections update in place. Each section is proved to change the object as the
  function of the same step of the protocol model says. That those steps keep
  `Valid` is proved about the model, in `DeliverySteps.StepKeeps`.
*/
module ResponseDeliveriesState {
  import opened Options
  import opened DeliveryModel
  import opened DeliveryInvariant
  import opened DeliverySteps

  class ResponseDeliveries {
    var active: map<RequestId, nat>
    var pending: map<RequestId, nat>
    var pendingWrites: nat
    var admissionTail: Option<nat>
    var closed: bool
    var admissionCount: nat
    // The objects behind the `Arc`s, in the order of their creation.
    var nodes: seq<Node>
    var admissions: seq<Admission>
    var calls: seq<Call>
    var writes: seq<Write>
    var registered: nat
    // Bookkeeping that the program does not keep.
    ghost var live: set<nat>
    ghost var ahead: seq<set<nat>>
    ghost var outbox: multiset<nat>
    ghost var settled: seq<Settlement>
    ghost var panics: nat

    ghost function View(): State
      reads this
    {
      State(active, pending, pendingWrites, admissionTail, closed, admissionCount, live, nodes, ahead,
            admissions, calls, writes, registered, outbox, settled, panics)
    }

    ghost predicate Valid()
      reads this
    {
      Inv(View())
    }

    constructor ()
      ensures Valid() && View() == Initial()
    {
      active, pending, pendingWrites, admissionTail, closed := map[], map[], 0, None, false;
      admissionCount, nodes, admissions, calls, writes, registered := 0, [], [], [], [], 0;
      live, ahead, outbox, settled, panics := {}, [], multiset{}, [], 0;
      new;
      InitialInv();
    }

    /** Walks from the tail through skipped nodes to the last waiting one. */
    method PruneAdmissionTail()
      requires WellFormed(View())
      modifies this`admissionTail
      ensures View() == Prune(old(View()))
    {
      var current := admissionTail;
      while current.Some? && nodes[current.value].state == Skipped
        invariant NodeIndex(current, nodes)
        invariant LastWaiting(nodes, current) == LastWaiting(nodes, admissionTail)
        decreases if current.Some? then current.value + 1 else 0
      {
        current := nodes[current.value].predecessor;
      }
      admissionTail := if current.Some? && nodes[current.value].state == Waiting then current else None;
    }

    method GateIsActive() returns (blocked: bool)
      requires ActivePoints(active, calls)
      ensures blocked == ResponseGateActive(View())
    {
      if pendingWrites > 0 {
        return true;
      }
      var rest := active.Keys;
      while rest != {}
        invariant rest <= active.Keys
        invariant forall id :: id in active && id !in rest ==> !BlocksNewAdmissions(calls[active[id]])
        decreases |rest|
      {
        var id :| id in rest;
        if BlocksNewAdmissions(calls[active[id]]) {
          return true;
        }
        rest := rest - {id};
      }
      return false;
    }

    method FinishAdmissionOf(c: nat)
      requires WellFormed(View()) && c < |calls|
      modifies this`nodes, this`calls
      ensures View() == FinishAdmission(old(View()), c)
    {
      var admission := calls[c].admission;
      if admission.Some? {
        calls := calls[c := calls[c].(admission := None)];
        if nodes[admission.value].state == Admitted {
          nodes := nodes[admission.value := nodes[admission.value].(state := Finished)];
        }
      }
    }

    method Abandon(c: nat) returns (delivery: Option<nat>)
      requires WellFormed(View()) && c < |calls|
      modifies this`nodes, this`calls, this`outbox
      ensures View() == AbandonCall(old(View()), c)
      ensures delivery == old(calls[c].delivery)
    {
      delivery := calls[c].delivery;
      calls := calls[c := calls[c].(active := false, operationFinished := true, delivery := None)];
      FinishAdmissionOf(c);
      outbox := outbox + Hand(delivery);
      AbandonCallIs(old(View()), c);
      assert calls == old(calls)[c := Abandoned(old(calls[c]))];
      assert nodes == Finishing(old(nodes), old(calls[c].admission));
    }

    /** Reserves transport order; `None` when the transport is closed or the backlog is full. */
    method Reserve(id: RequestId) returns (token: Option<nat>)
      requires WellFormed(View())
      modifies this
      ensures View() == DeliveryModel.Reserve(old(View()), id)
      ensures token.Some? <==> |admissions| == |old(admissions)| + 1
      ensures token.Some? ==> token.value == |old(admissions)|
      ensures token.None? ==> closed || admissionCount >= MAX_RESPONSE_GATED_CALLS
    {
      PruneAdmissionTail();
      if closed {
        return None;
      }
      var gated := GateIsActive();
      gated := gated || admissionTail.Some?;
      if gated && admissionCount >= MAX_RESPONSE_GATED_CALLS {
        return None;
      }
      token := Some(|admissions|);
      if gated {
        Enqueue(id);
      } else {
        admissions := admissions + [Admission(id, None, Gated)];
        pending := pending[id := token.value];
      }
    }

    /** Puts a reservation behind the current tail. */
    method Enqueue(id: RequestId)
      modifies this
      ensures View() == Queue(old(View()), id)
    {
      LinkNode();
      AddPending(id, |nodes| - 1);
    }

    /** The new node of the reservation that is about to be added. */
    method LinkNode()
      modifies this`nodes, this`ahead, this`live, this`admissionCount, this`admissionTail
      ensures nodes == old(nodes) + [Node(Waiting, old(admissionTail), |admissions|)]
      ensures ahead == old(ahead) + [WaitingNodes(old(nodes))] && live == old(live) + {|old(nodes)|}
      ensures admissionCount == old(admissionCount) + 1 && admissionTail == Some(|old(nodes)|)
    {
      var n := |nodes|;
      ahead, live := ahead + [WaitingNodes(nodes)], live + {n};
      nodes := nodes + [Node(Waiting, admissionTail, |admissions|)];
      admissionCount, admissionTail := admissionCount + 1, Some(n);
    }

    method AddPending(id: RequestId, node: nat)
      modifies this`pending, this`admissions
      ensures View() == AddReservation(old(View()), id, Some(node))
    {
      pending := pending[id := |admissions|];
      admissions := admissions + [Admission(id, Some(node), Checking)];
    }

    /** The locked part of the second loop of `admit`; returns the replaced delivery. */
    method TryAdmit(a: nat) returns (admitted: bool, replaced: Option<nat>)
      requires WellFormed(View()) && Enabled(View(), GateStep(a))
      modifies this
      ensures View() == Gate(old(View()), a)
      ensures admitted <==> admissions[a].phase.Returned?
    {
      admitted, replaced := false, None;
      var admission := admissions[a];
      if closed {
        admissions := admissions[a := admission.(phase := Refused(Refusal.Closed))];
        return;
      }
      if !(admission.requestId in pending && pending[admission.requestId] == a) {
        admissions := admissions[a := admission.(phase := Refused(Cancelled))];
        return;
      }
      var blocked := GateIsActive();
      if admission.node.Some? && blocked {
        return;
      }
      admitted := true;
      replaced := Admit(a);
    }

    method Admit(a: nat) returns (replaced: Option<nat>)
      requires WellFormed(View()) && a < |admissions|
      modifies this
      ensures WellFormed(TakeReservation(old(View()), a))
      ensures View() == StartCall(TakeReservation(old(View()), a), old(admissions[a].requestId), old(admissions[a].node))
    {
      var admission := admissions[a];
      TakePlace(a);
      replaced := StartCallFor(admission.requestId, admission.node);
    }

    /** The admission leaves `pending` and gives up its node, which is now admitted. */
    method TakePlace(a: nat)
      requires WellFormed(View()) && a < |admissions|
      modifies this`pending, this`nodes, this`admissions
      ensures WellFormed(View()) && View() == TakeReservation(old(View()), a)
    {
      var admission := admissions[a];
      pending := pending - {admission.requestId};
      if admission.node.Some? && nodes[admission.node.value].state == Waiting {
        nodes := nodes[admission.node.value := nodes[admission.node.value].(state := Admitted)];
      }
      admissions := admissions[a := admission.(node := None, phase := Returned(|calls|))];
    }

    /** Makes a new call current, abandoning the one it replaces. */
    method StartCallFor(id: RequestId, admission: Option<nat>) returns (replaced: Option<nat>)
      requires WellFormed(View()) && NodeIndex(admission, nodes)
      modifies this
      ensures View() == StartCall(old(View()), id, admission)
    {
      var previous := if id in active then Some(active[id]) else None;
      var c := |calls|;
      calls := calls + [Call(id, true, false, None, admission, Running, false, false)];
      active := active[id := c];
      assert WellFormed(View());
      replaced := None;
      if previous.Some? {
        replaced := Abandon(previous.value);
      }
      PruneAdmissionTail();
    }

    method CancelRequest(id: RequestId) returns (delivery: Option<nat>)
      requires WellFormed(View())
      modifies this
      ensures View() == Cancel(old(View()), id)
      ensures outbox == old(outbox) + Hand(delivery)
    {
      delivery := None;
      if id in pending {
        pending := pending - {id};
      } else if id in active {
        delivery := CancelCurrent(active[id]);
      }
      PruneAdmissionTail();
    }

    method CancelCurrent(c: nat) returns (delivery: Option<nat>)
      requires WellFormed(View()) && c < |calls|
      modifies this
      ensures WellFormed(View()) && View() == CancelCall(old(View()), c)
      ensures outbox == old(outbox) + Hand(delivery)
    {
      delivery := calls[c].delivery;
      var finished := calls[c].operationFinished;
      calls := calls[c := calls[c].(active := false, delivery := None)];
      outbox := outbox + Hand(delivery);
      assert WellFormed(View());
      if finished {
        FinishAdmissionOf(c);
        active := active - {calls[c].requestId};
      }
    }

    /** Attaches a new delivery to the current call, or returns it as rejected. */
    method RegisterDelivery(c: nat) returns (delivery: nat, rejected: bool)
      requires WellFormed(View()) && Enabled(View(), RegisterStep(c))
      modifies this
      ensures View() == Register(old(View()), c)
      ensures delivery == old(registered)
      ensures rejected <==> !(Current(old(View()), c) && old(calls[c].active))
    {
      delivery := registered;
      registered := registered + 1;
      var id := calls[c].requestId;
      rejected := !(id in active && active[id] == c && calls[c].active);
      if rejected {
        calls := calls[c := calls[c].(registered := true)];
        outbox := outbox + multiset{delivery};
      } else {
        calls := calls[c := calls[c].(delivery := Some(delivery), registered := true)];
      }
    }

    /** The handler gives up its operation guard, normally or by dropping it. */
    method FinishOperation(c: nat, completed: bool) returns (delivery: Option<nat>)
      requires WellFormed(View()) && Enabled(View(), CompleteStep(c))
      modifies this
      ensures View() == if completed then Complete(old(View()), c) else DropOperation(old(View()), c)
    {
      delivery := None;
      var id := calls[c].requestId;
      MarkOperation(c, completed);
      if !(id in active && active[id] == c) {
        return;
      }
      if completed && calls[c].active {
        MarkFinished(c);
      } else {
        delivery := EndCurrent(c);
      }
    }

    method MarkOperation(c: nat, completed: bool)
      requires WellFormed(View()) && c < |calls|
      modifies this`calls
      ensures WellFormed(View())
      ensures View() == old(View()).(
        calls := old(calls)[c := old(calls[c]).(operation := if completed then Completed else Dropped)])
    {
      calls := calls[c := calls[c].(operation := if completed then Completed else Dropped)];
    }

    method MarkFinished(c: nat)
      requires WellFormed(View()) && c < |calls|
      modifies this
      ensures WellFormed(old(View()).(calls := old(calls)[c := old(calls[c]).(operationFinished := true)]))
      ensures View() == Prune(old(View()).(calls := old(calls)[c := old(calls[c]).(operationFinished := true)]))
    {
      calls := calls[c := calls[c].(operationFinished := true)];
      assert WellFormed(View());
      PruneAdmissionTail();
    }

    method EndCurrent(c: nat) returns (delivery: Option<nat>)
      requires WellFormed(View()) && c < |calls|
      modifies this
      ensures WellFormed(Retire(AbandonCall(old(View()), c), c))
      ensures View() == Prune(Retire(AbandonCall(old(View()), c), c))
    {
      var id := calls[c].requestId;
      delivery := Abandon(c);
      active := active - {id};
      assert WellFormed(View());
      PruneAdmissionTail();
    }

    /** Registers the write of a response; the precondition is what `begin_write` asserts. */
    method BeginWrite(id: RequestId) returns (write: Option<nat>)
      requires WellFormed(View()) && (id in active ==> calls[active[id]].operationFinished)
      modifies this
      ensures View() == Respond(old(View()), id, None)
      ensures write.Some? <==> id in old(active)
    {
      if id !in active {
        return None;
      }
      write := Some(|writes|);
      writes := writes + [Write(id, active[id], Writing)];
      pendingWrites := pendingWrites + 1;
    }

    /** The first locked section of finishing a write. */
    method TakeWriteDelivery(w: nat, outcome: Outcome) returns (delivery: Option<nat>)
      requires WellFormed(View()) && Enabled(View(), TakeDeliveryStep(w, outcome))
      modifies this
      ensures View() == TakeDelivery(old(View()), w, outcome)
      ensures w < |writes| && writes[w].phase == Taken(delivery, outcome)
    {
      var c := writes[w].call;
      delivery := None;
      if writes[w].requestId in active && active[writes[w].requestId] == c {
        delivery := TakeFrom(c);
        PruneAdmissionTail();
      }
      writes := writes[w := writes[w].(phase := Taken(delivery, outcome))];
    }

    /** Ends the current call whose response was written. */
    method TakeFrom(c: nat) returns (delivery: Option<nat>)
      requires WellFormed(View()) && c < |calls|
      modifies this
      ensures WellFormed(EndWritten(old(View()), c)) && View() == EndWritten(old(View()), c)
      ensures delivery == old(calls[c].delivery)
    {
      active := active - {calls[c].requestId};
      assert WellFormed(View());
      delivery := calls[c].delivery;
      FinishAdmissionOf(c);
      calls := calls[c := calls[c].(active := false, delivery := None)];
    }

    /** The second locked section of finishing a write; its assertion holds. */
    method SettleWriteGuard(w: nat)
      requires Valid() && Enabled(View(), SettleWriteStep(w))
      modifies this
      ensures old(pendingWrites) > 0 && View() == SettleWrite(old(View()), w)
    {
      OpenGuardCounts(View(), w);
      pendingWrites := pendingWrites - 1;
      writes := writes[w := writes[w].(phase := WritePhase.Settled)];
    }

    method UnregisterPending(a: nat)
      requires WellFormed(View()) && Enabled(View(), UnregisterStep(a))
      modifies this
      ensures View() == Unregister(old(View()), a)
    {
      var id := admissions[a].requestId;
      if id in pending && pending[id] == a {
        pending := pending - {id};
      }
      PruneAdmissionTail();
      admissions := admissions[a := admissions[a].(phase := Gone)];
    }

    /** Closes the transport and abandons every active call, one after another. */
    method CloseTransport()
      requires WellFormed(View())
      modifies this
      ensures View() == Close(old(View()))
    {
      ghost var s := View();
      DrainCalls();
      assert View() == s.(calls := calls, nodes := nodes, outbox := outbox);
      closed, active, pending, admissionTail := true, map[], map[], None;
    }

    method DrainCalls()
      requires ActivePoints(active, calls) && CallsPoint(calls, nodes)
      modifies this`calls, this`nodes, this`outbox
      ensures calls == AbandonAll(old(calls), active.Values)
      ensures nodes == FinishHeld(old(nodes), old(calls), active.Values)
      ensures outbox == old(outbox) + HeldBy(old(calls), active.Values)
    {
      var rest := active.Keys;
      ghost var done: set<nat> := {};
      AbandonNone(nodes, calls);
      while rest != {}
        invariant rest <= active.Keys
        invariant done == set id | id in active && id !in rest :: active[id]
        invariant calls == AbandonAll(old(calls), done)
        invariant nodes == FinishHeld(old(nodes), old(calls), done)
        invariant outbox == old(outbox) + HeldBy(old(calls), done)
        decreases |rest|
      {
        var id :| id in rest;
        var c := active[id];
        assert c !in done;
        AbandonOneMore(old(nodes), old(calls), done, c);
        AbandonDrained(c);
        done := done + {c};
        rest := rest - {id};
      }
      assert done == active.Values;
    }

    method AbandonDrained(c: nat)
      requires c < |calls| && NodeIndex(calls[c].admission, nodes)
      modifies this`calls, this`nodes, this`outbox
      ensures calls == old(calls)[c := Abandoned(old(calls[c]))]
      ensures nodes == Finishing(old(nodes), old(calls[c].admission))
      ensures outbox == old(outbox) + Hand(old(calls[c].delivery))
    {
      var admission := calls[c].admission;
      outbox := outbox + Hand(calls[c].delivery);
      calls := calls[c := Abandoned(calls[c])];
      if admission.Some? && nodes[admission.value].state == Admitted {
        nodes := nodes[admission.value := nodes[admission.value].(state := Finished)];
      }
    }
  }

  /** An acknowledged write has not settled, so it is still counted. */
  lemma OpenGuardCounts(s: State, w: nat)
    requires Inv(s) && Enabled(s, SettleWriteStep(w))
    ensures s.pendingWrites > 0
  {
    SettleWriteKeeps(s, w);
  }

  lemma AbandonNone(nodes: seq<Node>, calls: seq<Call>)
    ensures AbandonAll(calls, {}) == calls
    ensures FinishHeld(nodes, calls, {}) == nodes
    ensures HeldBy(calls, {}) == multiset{}
  {
    if calls != [] {
      AbandonNone(nodes, calls[..|calls| - 1]);
    }
  }

  /** One call more is abandoned: its own flags, its node, and its delivery. */
  lemma AbandonOneMore(nodes: seq<Node>, calls: seq<Call>, done: set<nat>, c: nat)
    requires CallsPoint(calls, nodes) && c < |calls| && c !in done
    ensures AbandonAll(calls, done)[c] == calls[c]
    ensures AbandonAll(calls, done + {c}) == AbandonAll(calls, done)[c := Abandoned(calls[c])]
    ensures HeldBy(calls, done + {c}) == HeldBy(calls, done) + Hand(calls[c].delivery)
    ensures FinishHeld(nodes, calls, done + {c}) == Finishing(FinishHeld(nodes, calls, done), calls[c].admission)
  {
    HeldByOneMore(calls, done, c);
    forall n: nat ensures HeldNode(calls, done + {c}, n) == (HeldNode(calls, done, n) || calls[c].admission == Some(n)) {
      if calls[c].admission == Some(n) {
        assert c in done + {c};
      }
    }
  }

  lemma {:induction false} HeldByOneMore(calls: seq<Call>, done: set<nat>, c: nat)
    requires c < |calls| && c !in done
    ensures HeldBy(calls, done + {c}) == HeldBy(calls, done) + Hand(calls[c].delivery)
  {
    var before, last := calls[..|calls| - 1], |calls| - 1;
    if c < last {
      HeldByOneMore(before, done, c);
      HeldByNext(calls, before, done, c);
    } else {
      HeldByBeyond(before, done, c);
    }
  }

  lemma HeldByNext(calls: seq<Call>, before: seq<Call>, done: set<nat>, c: nat)
    requires calls != [] && before == calls[..|calls| - 1] && c < |before|
    requires HeldBy(before, done + {c}) == HeldBy(before, done) + Hand(before[c].delivery)
    ensures HeldBy(calls, done + {c}) == HeldBy(calls, done) + Hand(calls[c].delivery)
  {
    var last := |calls| - 1;
    assert last in done + {c} <==> last in done;
    Swap(HeldBy(before, done), Hand(calls[c].delivery),
      if last in done then Hand(calls[last].delivery) else multiset{});
  }

  lemma Swap(x: multiset<nat>, y: multiset<nat>, z: multiset<nat>)
    ensures x + y + z == x + z + y
  {
  }

  lemma {:induction false} HeldByBeyond(calls: seq<Call>, done: set<nat>, c: nat)
    requires c >= |calls|
    ensures HeldBy(calls, done + {c}) == HeldBy(calls, done)
  {
    if calls != [] {
      HeldByBeyond(calls[..|calls| - 1], done, c);
    }
  }
}
