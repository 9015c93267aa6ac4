/** Every step of the admission protocol keeps its invariant. */
module DeliverySteps {
  import opened Options
  import opened DeliveryModel
  import opened DeliveryInvariant

  // ----- Admissions -----

  lemma SetPhaseKeeps(s: State, a: nat, p: Phase)
    requires Inv(s) && a < |s.admissions|
    requires BeforeAdmission(s.admissions[a].phase) && BeforeAdmission(p)
    requires InWait(p) ==> s.admissions[a].node.Some?
    requires p.Watching? ==> p.cursor < |s.nodes|
    requires p.Refused? ==> s.closed || !OwnsPending(s, a)
    requires Knows(s.nodes, s.admissions[a].(phase := p))
    ensures Inv(SetPhase(s, a, p))
  {
  }

  lemma CheckKeeps(s: State, a: nat)
    requires Inv(s) && Enabled(s, CheckStep(a))
    ensures Inv(Check(s, a))
  {
    SetPhaseKeeps(s, a, Check(s, a).admissions[a].phase);
  }

  lemma StartWaitKeeps(s: State, a: nat)
    requires Inv(s) && Enabled(s, StartWaitStep(a))
    ensures Inv(StartWait(s, a))
  {
    SetPhaseKeeps(s, a, StartWait(s, a).admissions[a].phase);
  }

  lemma AdvanceKnows(nodes: seq<Node>, n: nat, cursor: nat)
    requires Linked(nodes) && n < |nodes| && cursor in Behind(nodes, n) && SettledNode(nodes[cursor])
    requires nodes[cursor].state == Finished ==> nodes[cursor].predecessor.None?
    requires forall m :: m in Behind(nodes, n) && m > cursor ==> SettledNode(nodes[m])
    ensures nodes[cursor].predecessor.None? ==> AllSettledBehind(nodes, n)
    ensures nodes[cursor].predecessor.Some? ==>
      var p := nodes[cursor].predecessor.value;
      p in Behind(nodes, n) && forall m :: m in Behind(nodes, n) && m > p ==> SettledNode(nodes[m])
  {
    BehindTransitive(nodes, n, cursor);
    forall m | m in Behind(nodes, n) && m < cursor
      ensures m in Behind(nodes, cursor)
      ensures nodes[cursor].predecessor.Some? && m <= nodes[cursor].predecessor.value
    {
      BehindIsAChain(nodes, n, cursor, m);
    }
  }

  lemma AdvanceKeeps(s: State, a: nat)
    requires Inv(s) && Enabled(s, AdvanceStep(a))
    ensures Inv(Advance(s, a))
  {
    assert Knows(s.nodes, s.admissions[a]);
    if SettledNode(s.nodes[s.admissions[a].phase.cursor]) {
      AdvanceKnows(s.nodes, s.admissions[a].node.value, s.admissions[a].phase.cursor);
      SetPhaseKeeps(s, a, Advance(s, a).admissions[a].phase);
    }
  }

  lemma RestartKeeps(s: State, a: nat)
    requires Inv(s) && Enabled(s, RestartStep(a))
    ensures Inv(SetPhase(s, a, Checking))
  {
    SetPhaseKeeps(s, a, Checking);
  }

  lemma {:induction false} BehindUntouched(nodes: seq<Node>, k: nat, n: nat)
    requires Linked(nodes) && k < |nodes| && n < |nodes| && n != k && k !in Behind(nodes, n)
    ensures Linked(nodes[k := nodes[k].(predecessor := None)])
    ensures Behind(nodes[k := nodes[k].(predecessor := None)], n) == Behind(nodes, n)
  {
    if nodes[n].predecessor.Some? {
      BehindUntouched(nodes, k, nodes[n].predecessor.value);
    }
  }

  /** A cursor never loses its place when somebody else's link is cleared. */
  lemma ClearLinkCursor(nodes: seq<Node>, k: nat, n: nat, cursor: nat)
    requires Linked(nodes) && k < |nodes| && n < |nodes| && n != k
    requires nodes[k].state == Waiting
    requires cursor in Behind(nodes, n)
    requires forall m :: m in Behind(nodes, n) && m > cursor ==> SettledNode(nodes[m])
    ensures Linked(nodes[k := nodes[k].(predecessor := None)])
    ensures cursor in Behind(nodes[k := nodes[k].(predecessor := None)], n)
  {
    BehindCleared(nodes, k, n);
    if cursor in Behind(nodes, k) && k !in Behind(nodes, n) {
      BehindUntouched(nodes, k, n);
    }
  }

  /** Clearing the link of a waiting node whose predecessors have settled. */
  lemma ClearLinkLinks(nodes: seq<Node>, ahead: seq<set<nat>>, admissions: seq<Admission>, a: nat)
    requires Slots(nodes, admissions) && Links(nodes, admissions) && Ordered(nodes, ahead)
    requires a < |admissions| && admissions[a].phase.Clearing? && admissions[a].node.Some?
    ensures var n := admissions[a].node.value;
      var nodes' := nodes[n := nodes[n].(predecessor := None)];
      && Links(nodes', admissions[a := admissions[a].(phase := Gated)])
      && Ordered(nodes', ahead)
      && forall tail :: NodeIndex(tail, nodes) && TailReaches(nodes, tail) ==> TailReaches(nodes', tail)
  {
    var n := admissions[a].node.value;
    var nodes' := nodes[n := nodes[n].(predecessor := None)];
    var admissions' := admissions[a := admissions[a].(phase := Gated)];
    assert Knows(nodes, admissions[a]);
    assert Linked(nodes');
    forall m | 0 <= m < |nodes|
      ensures Behind(nodes, m) - Behind(nodes, n) <= Behind(nodes', m) <= Behind(nodes, m)
    {
      BehindCleared(nodes, n, m);
    }
    forall b | 0 <= b < |admissions'| ensures Knows(nodes', admissions'[b]) {
      assert Knows(nodes, admissions[b]);
      if b != a && admissions[b].node.Some? && admissions[b].phase.Watching? {
        ClearLinkCursor(nodes, n, admissions[b].node.value, admissions[b].phase.cursor);
      }
    }
    forall tail | NodeIndex(tail, nodes) && TailReaches(nodes, tail) ensures TailReaches(nodes', tail) {
      forall m | 0 <= m < |nodes'| && nodes'[m].state == Waiting ensures OnTail(nodes', tail, m) {
        assert OnTail(nodes, tail, m);
      }
    }
  }

  lemma ClearLinkSlots(nodes: seq<Node>, admissions: seq<Admission>, calls: seq<Call>, a: nat)
    requires Slots(nodes, admissions) && Holders(nodes, calls)
    requires a < |admissions| && admissions[a].phase.Clearing? && admissions[a].node.Some?
    ensures var n := admissions[a].node.value;
      var nodes' := nodes[n := nodes[n].(predecessor := None)];
      && Slots(nodes', admissions[a := admissions[a].(phase := Gated)])
      && Holders(nodes', calls)
  {
  }

  /** A step of one admission that only touches nodes and itself. */
  lemma ChainKeeps(s: State, t: State)
    requires Inv(s)
    requires t == s.(nodes := t.nodes, admissions := t.admissions)
    requires Chain(t.nodes, t.ahead, t.admissions, t.calls)
    requires !s.closed ==> TailReaches(t.nodes, s.admissionTail)
    requires TailHeld(t.nodes, t.admissions, s.admissionTail)
    requires |t.nodes| == |s.nodes| && |t.admissions| == |s.admissions|
    requires forall a :: 0 <= a < |s.admissions| ==>
      && t.admissions[a].requestId == s.admissions[a].requestId
      && (t.admissions[a].node.Some? ==> t.admissions[a].node == s.admissions[a].node)
      && (MayOwnPending(s.admissions[a].phase) ==> MayOwnPending(t.admissions[a].phase))
    requires forall n :: 0 <= n < |s.nodes| && t.nodes[n].predecessor.Some? ==>
      t.nodes[n].predecessor == s.nodes[n].predecessor
    ensures Inv(t)
  {
  }

  lemma ClearLinkKeeps(s: State, a: nat)
    requires Inv(s) && Enabled(s, ClearLinkStep(a))
    ensures Inv(ClearLink(s, a))
  {
    var t := ClearLink(s, a);
    ClearLinkLinks(s.nodes, s.ahead, s.admissions, a);
    ClearLinkSlots(s.nodes, s.admissions, s.calls, a);
    ChainKeeps(s, t);
  }

  lemma DropSlots(nodes: seq<Node>, admissions: seq<Admission>, calls: seq<Call>, a: nat)
    requires Slots(nodes, admissions) && Holders(nodes, calls) && a < |admissions| && admissions[a].node.Some?
    ensures var n := admissions[a].node.value;
      var nodes' := Transition(nodes, n, Waiting, Skipped);
      && Slots(nodes', admissions[a := admissions[a].(node := None, phase := Unregistering)])
      && Holders(nodes', calls)
  {
  }

  /** An admission without a node knows nothing, so only the others matter. */
  lemma ForgetKeepsLinks(nodes: seq<Node>, admissions: seq<Admission>, a: nat, admission: Admission)
    requires Links(nodes, admissions) && a < |admissions| && admission.node.None?
    ensures Links(nodes, admissions[a := admission])
  {
    var admissions' := admissions[a := admission];
    forall b | 0 <= b < |admissions'| ensures Knows(nodes, admissions'[b]) {
      assert Knows(nodes, admissions[b]);
    }
  }

  lemma DropAdmissionKeeps(s: State, a: nat)
    requires Inv(s) && Enabled(s, DropAdmissionStep(a))
    ensures Inv(DropAdmission(s, a))
  {
    var t := DropAdmission(s, a);
    StateChangeKeeps(s.nodes, t.nodes, s.ahead, s.admissions);
    ForgetKeepsLinks(t.nodes, s.admissions, a, t.admissions[a]);
    if s.admissions[a].node.Some? {
      DropSlots(s.nodes, s.admissions, s.calls, a);
    }
    ChainKeeps(s, t);
  }

  lemma UnpendKeeps(s: State, id: RequestId)
    requires Inv(s)
    ensures Inv(s.(pending := s.pending - {id}))
  {
  }

  lemma GoneKeeps(s: State, a: nat)
    requires Inv(s) && a < |s.admissions| && s.admissions[a].phase.Unregistering? && !OwnsPending(s, a)
    requires s.admissionTail.Some? ==> s.nodes[s.admissionTail.value].state == Waiting
    ensures Inv(SetPhase(s, a, Gone))
  {
    ForgetKeepsLinks(s.nodes, s.admissions, a, s.admissions[a].(phase := Gone));
  }

  lemma UnregisterKeeps(s: State, a: nat)
    requires Inv(s) && Enabled(s, UnregisterStep(a))
    ensures Inv(Unregister(s, a))
  {
    if OwnsPending(s, a) {
      UnpendKeeps(s, s.admissions[a].requestId);
      PruneKeeps(s.(pending := s.pending - {s.admissions[a].requestId}));
      GoneKeeps(Prune(s.(pending := s.pending - {s.admissions[a].requestId})), a);
    } else {
      PruneKeeps(s);
      GoneKeeps(Prune(s), a);
    }
  }

  lemma AddReservationKeeps(s: State, id: RequestId)
    requires Inv(s) && !s.closed
    ensures Inv(AddReservation(s, id, None))
  {
    var t := AddReservation(s, id, None);
    forall b | 0 <= b < |t.admissions| ensures Knows(t.nodes, t.admissions[b]) {
      if b < |s.admissions| {
        assert Knows(s.nodes, s.admissions[b]);
      }
    }
  }

  /** A new node behind the pruned tail has everything that waits behind itself. */
  lemma QueueLinks(nodes: seq<Node>, ahead: seq<set<nat>>, admissions: seq<Admission>, tail: Option<nat>, x: Admission)
    requires Links(nodes, admissions) && Ordered(nodes, ahead) && NodeIndex(tail, nodes) && TailReaches(nodes, tail)
    requires forall a :: 0 <= a < |admissions| ==> NodeIndex(admissions[a].node, nodes)
    requires x.phase.Checking?
    ensures var nodes' := nodes + [Node(Waiting, tail, |admissions|)];
      && Links(nodes', admissions + [x])
      && Ordered(nodes', ahead + [WaitingNodes(nodes)])
      && TailReaches(nodes', Some(|nodes|))
  {
    var n := |nodes|;
    var nodes' := nodes + [Node(Waiting, tail, |admissions|)];
    assert Linked(nodes');
    BehindSameLinksAll(nodes, nodes');
    forall m | 0 <= m < n && nodes[m].state == Waiting ensures m in Behind(nodes', n) {
      assert OnTail(nodes, tail, m);
    }
    forall b | 0 <= b < |admissions + [x]| ensures Knows(nodes', (admissions + [x])[b]) {
      if b < |admissions| {
        assert Knows(nodes, admissions[b]);
      }
    }
  }

  lemma QueueSlots(nodes: seq<Node>, admissions: seq<Admission>, calls: seq<Call>, tail: Option<nat>, id: RequestId)
    requires Slots(nodes, admissions) && Holders(nodes, calls)
    ensures var nodes' := nodes + [Node(Waiting, tail, |admissions|)];
      && Slots(nodes', admissions + [Admission(id, Some(|nodes|), Checking)])
      && Holders(nodes', calls)
  {
  }

  lemma QueueKeeps(s: State, id: RequestId)
    requires Inv(s) && !s.closed && s.admissionCount < MAX_RESPONSE_GATED_CALLS
    ensures Inv(Queue(s, id))
  {
    var t := Queue(s, id);
    QueueLinks(s.nodes, s.ahead, s.admissions, s.admissionTail, t.admissions[|s.admissions|]);
    QueueSlots(s.nodes, s.admissions, s.calls, s.admissionTail, id);
    assert Chain(t.nodes, t.ahead, t.admissions, t.calls);
    assert t.live - {|s.nodes|} == s.live;
  }

  lemma ReserveKeeps(before: State, id: RequestId)
    requires Inv(before)
    ensures Inv(Reserve(before, id))
  {
    PruneKeeps(before);
    var s := Prune(before);
    if !s.closed && !ReservationGateActive(s) {
      AddReservationKeeps(s, id);
    } else if !s.closed && s.admissionCount < MAX_RESPONSE_GATED_CALLS {
      QueueKeeps(s, id);
      assert Reserve(before, id) == Queue(s, id);
    }
  }

  // ----- Calls -----

  /** The nodes after call `c` has finished its admission. */
  function Finishing(nodes: seq<Node>, admission: Option<nat>): seq<Node>
    requires NodeIndex(admission, nodes)
  {
    if admission.Some? then Transition(nodes, admission.value, Admitted, Finished) else nodes
  }

  lemma FinishHolders(nodes: seq<Node>, calls: seq<Call>, c: nat, call: Call)
    requires Holders(nodes, calls) && c < |calls| && call.admission.None?
    ensures Holders(Finishing(nodes, calls[c].admission), calls[c := call])
  {
    var nodes' := Finishing(nodes, calls[c].admission);
    var calls' := calls[c := call];
    forall n | 0 <= n < |nodes'| && nodes'[n].state == Admitted ensures HolderOf(calls', n) {
      var d :| 0 <= d < |calls| && calls[d].admission == Some(n);
      assert calls'[d].admission == Some(n);
    }
  }

  lemma FinishChain(s: State, c: nat, call: Call)
    requires Chain(s.nodes, s.ahead, s.admissions, s.calls) && c < |s.calls| && call.admission.None?
    ensures Chain(Finishing(s.nodes, s.calls[c].admission), s.ahead, s.admissions, s.calls[c := call])
    ensures forall tail :: NodeIndex(tail, s.nodes) && TailReaches(s.nodes, tail) ==>
              TailReaches(Finishing(s.nodes, s.calls[c].admission), tail)
  {
    var nodes' := Finishing(s.nodes, s.calls[c].admission);
    FinishHolders(s.nodes, s.calls, c, call);
    StateChangeKeeps(s.nodes, nodes', s.ahead, s.admissions);
    assert Slots(nodes', s.admissions);
  }

  /** Replacing a call by one with the same admission changes nothing about nodes. */
  lemma SameAdmissionHolders(nodes: seq<Node>, calls: seq<Call>, c: nat, call: Call)
    requires Holders(nodes, calls) && c < |calls| && call.admission == calls[c].admission
    ensures Holders(nodes, calls[c := call])
  {
    var calls' := calls[c := call];
    forall n | 0 <= n < |nodes| && nodes[n].state == Admitted ensures HolderOf(calls', n) {
      var d :| 0 <= d < |calls| && calls[d].admission == Some(n);
      assert calls'[d].admission == Some(n);
    }
  }

  /** The registry entry of a call, given whether it is current. */
  predicate Entry(current: bool, call: Call) {
    if current then
      && (call.operationFinished <==> call.operation.Completed?)
      && (!call.operationFinished ==> call.operation.Running?)
      && (call.operationFinished ==> call.active)
      && (call.delivery.Some? <==> call.active && call.registered)
    else
      !call.active && call.delivery.None? && call.admission.None?
  }

  lemma RegistryUpdate(active: map<RequestId, nat>, calls: seq<Call>, c: nat, call: Call)
    requires Registry(active, calls) && c < |calls| && call.requestId == calls[c].requestId
    requires Entry(IsCurrent(active, calls, c), call)
    ensures Registry(active, calls[c := call])
  {
  }

  lemma RegistryRetire(active: map<RequestId, nat>, calls: seq<Call>, c: nat, call: Call)
    requires Registry(active, calls) && c < |calls| && call.requestId == calls[c].requestId
    requires IsCurrent(active, calls, c) && Entry(false, call)
    ensures Registry(active - {call.requestId}, calls[c := call])
  {
    var active' := active - {call.requestId};
    var calls' := calls[c := call];
    forall d | 0 <= d < |calls'| && d != c ensures IsCurrent(active', calls', d) == IsCurrent(active, calls, d) {
      assert calls'[d] == calls[d];
    }
  }

  lemma RegistryInstall(active: map<RequestId, nat>, calls: seq<Call>, call: Call)
    requires Registry(active, calls) && call.requestId !in active && Entry(true, call)
    ensures Registry(active[call.requestId := |calls|], calls + [call])
  {
    var active' := active[call.requestId := |calls|];
    var calls' := calls + [call];
    forall d | 0 <= d < |calls| ensures IsCurrent(active', calls', d) == IsCurrent(active, calls, d) {
      assert calls'[d] == calls[d];
    }
  }

  /** Core of the state after call `c` becomes `call`, with deliveries moved to `outbox`. */
  lemma CallChangeKeeps(s: State, t: State, c: nat, call: Call)
    requires Core(s) && c < |s.calls|
    requires call.requestId == s.calls[c].requestId
    requires t == s.(calls := s.calls[c := call], nodes := t.nodes, active := t.active, outbox := t.outbox, deliveries := t.deliveries)
    requires
      || (call.admission == s.calls[c].admission && t.nodes == s.nodes)
      || (call.admission.None? && t.nodes == Finishing(s.nodes, s.calls[c].admission))
    requires s.closed ==> t.active == map[]
    requires Registry(t.active, t.calls)
    requires forall d: nat ::
      One(call.delivery == Some(d)) + t.outbox[d] + One(d < s.deliveries)
      == One(s.calls[c].delivery == Some(d)) + s.outbox[d] + One(d < t.deliveries)
    ensures Core(t)
  {
    if call.admission == s.calls[c].admission && t.nodes == s.nodes {
      SameAdmissionHolders(s.nodes, s.calls, c, call);
    } else {
      FinishChain(s, c, call);
    }
    forall d: nat ensures Places(t.calls, t.outbox, t.writes, t.settled, d) == One(d < t.deliveries) {
      HeldUpdate(s.calls, c, call, d);
      assert Places(s.calls, s.outbox, s.writes, s.settled, d) == One(d < s.deliveries);
    }
  }

  lemma AbandonCallIs(s: State, c: nat)
    requires WellFormed(s) && c < |s.calls|
    ensures AbandonCall(s, c) == s.(
      nodes := Finishing(s.nodes, s.calls[c].admission),
      calls := s.calls[c := Abandoned(s.calls[c])],
      outbox := s.outbox + Hand(s.calls[c].delivery))
  {
  }

  lemma EndCallRegistry(s: State, c: nat, operation: Operation)
    requires Registry(s.active, s.calls) && c < |s.calls| && Current(s, c)
    ensures Registry(s.active - {s.calls[c].requestId},
      s.calls[c := Abandoned(s.calls[c].(operation := operation))])
  {
    RegistryRetire(s.active, s.calls, c, Abandoned(s.calls[c].(operation := operation)));
  }

  /** The state in which call `c` has been abandoned and taken out of `active`. */
  lemma EndCallKeeps(s: State, c: nat, operation: Operation)
    requires Core(s) && WellFormed(s) && c < |s.calls| && Current(s, c)
    ensures var t := s.(calls := s.calls[c := s.calls[c].(operation := operation)]);
      WellFormed(t) && Core(Retire(AbandonCall(t, c), c))
  {
    var t := s.(calls := s.calls[c := s.calls[c].(operation := operation)]);
    assert WellFormed(t);
    AbandonCallIs(t, c);
    EndCallRegistry(s, c, operation);
    var call := Abandoned(s.calls[c].(operation := operation));
    assert t.calls[c := call] == s.calls[c := call];
    CallChangeKeeps(s, Retire(AbandonCall(t, c), c), c, call);
  }

  lemma RegisterRegistry(s: State, c: nat)
    requires Inv(s) && Enabled(s, RegisterStep(c))
    ensures Registry(s.active, Register(s, c).calls)
  {
    RegistryUpdate(s.active, s.calls, c, Register(s, c).calls[c]);
  }

  lemma RegisterKeeps(s: State, c: nat)
    requires Inv(s) && Enabled(s, RegisterStep(c))
    ensures Inv(Register(s, c))
  {
    var t := Register(s, c);
    RegisterRegistry(s, c);
    assert s.calls[c].delivery.None?;
    CallChangeKeeps(s, t, c, t.calls[c]);
  }

  /** Changing only how far the handler has come. */
  lemma HandlerKeeps(s: State, c: nat, call: Call)
    requires Inv(s) && c < |s.calls|
    requires call.requestId == s.calls[c].requestId && call.admission == s.calls[c].admission
    requires call.delivery == s.calls[c].delivery
    requires Entry(IsCurrent(s.active, s.calls, c), call)
    ensures Inv(s.(calls := s.calls[c := call]))
  {
    RegistryUpdate(s.active, s.calls, c, call);
    CallChangeKeeps(s, s.(calls := s.calls[c := call]), c, call);
  }

  lemma CompleteKeeps(s: State, c: nat)
    requires Inv(s) && Enabled(s, CompleteStep(c))
    ensures Inv(Complete(s, c))
  {
    var t := s.(calls := s.calls[c := s.calls[c].(operation := Completed)]);
    assert WellFormed(t);
    if !Current(t, c) {
      HandlerKeeps(s, c, t.calls[c]);
    } else if s.calls[c].active {
      var r := t.(calls := t.calls[c := t.calls[c].(operationFinished := true)]);
      assert r.calls == s.calls[c := r.calls[c]];
      HandlerKeeps(s, c, r.calls[c]);
      PruneKeeps(r);
    } else {
      EndCallKeeps(s, c, Completed);
      PruneKeeps(Retire(AbandonCall(t, c), c));
    }
  }

  lemma DropOperationKeeps(s: State, c: nat)
    requires Inv(s) && Enabled(s, DropOperationStep(c))
    ensures Inv(DropOperation(s, c))
  {
    var t := s.(calls := s.calls[c := s.calls[c].(operation := Dropped)]);
    assert WellFormed(t);
    if Current(t, c) {
      EndCallKeeps(s, c, Dropped);
      PruneKeeps(Retire(AbandonCall(t, c), c));
    } else {
      HandlerKeeps(s, c, t.calls[c]);
    }
  }

  lemma CancelCallKeeps(s: State, c: nat)
    requires Inv(s) && c < |s.calls| && Current(s, c)
    ensures Core(CancelCall(s, c))
  {
    var t := CancelCall(s, c);
    var call := t.calls[c];
    assert t.calls == s.calls[c := call];
    CancelCallRegistry(s, c);
    if s.calls[c].operationFinished {
      assert call.admission.None? && t.nodes == Finishing(s.nodes, s.calls[c].admission);
    } else {
      assert call.admission == s.calls[c].admission && t.nodes == s.nodes;
    }
    CallChangeKeeps(s, t, c, call);
  }

  lemma CancelCallRegistry(s: State, c: nat)
    requires Inv(s) && c < |s.calls| && Current(s, c)
    ensures Registry(CancelCall(s, c).active, CancelCall(s, c).calls)
  {
    var t := CancelCall(s, c);
    assert t.calls == s.calls[c := t.calls[c]];
    if s.calls[c].operationFinished {
      RegistryRetire(s.active, s.calls, c, t.calls[c]);
    } else {
      RegistryUpdate(s.active, s.calls, c, t.calls[c]);
    }
  }

  lemma CancelKeeps(s: State, id: RequestId)
    requires Inv(s)
    ensures Inv(Cancel(s, id))
  {
    if id in s.pending {
      UnpendKeeps(s, id);
      PruneKeeps(s.(pending := s.pending - {id}));
    } else if id in s.active {
      CancelCallKeeps(s, s.active[id]);
      PruneKeeps(CancelCall(s, s.active[id]));
    } else {
      PruneKeeps(s);
    }
  }

  // ----- Admission -----

  /** The call that was current for `id` is over. */
  function Displace(s: State, id: RequestId): State
    requires WellFormed(s)
  {
    if id in s.active then Retire(AbandonCall(s, s.active[id]), s.active[id]) else s
  }

  /** The admission `a` takes its place as the current call of its request. */
  function Install(s: State, a: nat): State
    requires a < |s.admissions| && NodeIndex(s.admissions[a].node, s.nodes)
  {
    var admission := s.admissions[a];
    var c := |s.calls|;
    s.(pending := s.pending - {admission.requestId},
       nodes := if admission.node.Some?
                then Transition(s.nodes, admission.node.value, Waiting, Admitted) else s.nodes,
       admissions := s.admissions[a := admission.(node := None, phase := Returned(c))],
       calls := s.calls + [Call(admission.requestId, true, false, None, admission.node, Running, false, false)],
       active := s.active[admission.requestId := c])
  }

  /** Admitting one node and finishing another commute. */
  lemma AdmitFinishCommute(nodes: seq<Node>, n: nat, admission: Option<nat>)
    requires n < |nodes| && nodes[n].state == Waiting && NodeIndex(admission, nodes)
    requires admission.Some? ==> nodes[admission.value].state == Admitted
    ensures Finishing(Transition(nodes, n, Waiting, Admitted), admission)
         == Transition(Finishing(nodes, admission), n, Waiting, Admitted)
  {
  }

  function Started(s: State, a: nat): State
    requires WellFormed(s) && a < |s.admissions|
  {
    var admission := s.admissions[a];
    var taken := TakeReservation(s, a);
    taken.(calls := taken.calls + [Call(admission.requestId, true, false, None, admission.node, Running, false, false)],
           active := taken.active[admission.requestId := |s.calls|])
  }

  lemma StartedWellFormed(s: State, a: nat)
    requires WellFormed(s) && a < |s.admissions|
    ensures WellFormed(Started(s, a))
  {
  }

  /** Abandoning the old call after or before the new one is in place comes to the same. */
  lemma DisplaceCommutes(s: State, a: nat, r: nat)
    requires WellFormed(s) && a < |s.admissions| && r < |s.calls|
    requires s.admissions[a].requestId in s.active && s.active[s.admissions[a].requestId] == r
    requires s.admissions[a].node.Some? ==> s.nodes[s.admissions[a].node.value].state == Waiting
    requires s.calls[r].admission.Some? ==> s.nodes[s.calls[r].admission.value].state == Admitted
    ensures WellFormed(Started(s, a))
    ensures AbandonCall(Started(s, a), r) == Install(Retire(AbandonCall(s, r), r), a)
  {
    StartedWellFormed(s, a);
    AbandonCallIs(s, r);
    AbandonCallIs(Started(s, a), r);
    var id := s.admissions[a].requestId;
    if s.admissions[a].node.Some? {
      AdmitFinishCommute(s.nodes, s.admissions[a].node.value, s.calls[r].admission);
    }
    GateCalls(s.calls, r, Started(s, a).calls[|s.calls|]);
    assert (s.active - {id})[id := |s.calls|] == s.active[id := |s.calls|];
  }

  /** `Gate` puts the new call in place before it abandons the old one; the order is immaterial. */
  lemma GateIsInstall(s: State, a: nat)
    requires Inv(s) && Enabled(s, GateStep(a)) && !s.closed && OwnsPending(s, a)
    requires s.admissions[a].node.None? || !ResponseGateActive(s)
    ensures
      var u := Displace(s, s.admissions[a].requestId);
      WellFormed(Install(u, a)) && Gate(s, a) == Prune(Install(u, a))
  {
    var id := s.admissions[a].requestId;
    StartedWellFormed(s, a);
    if id in s.active {
      DisplaceCommutes(s, a, s.active[id]);
    }
  }

  lemma GateCalls(calls: seq<Call>, r: nat, call: Call)
    requires r < |calls|
    ensures (calls + [call])[r := Abandoned((calls + [call])[r])] == calls[r := Abandoned(calls[r])] + [call]
  {
  }

  lemma InstallHolders(nodes: seq<Node>, calls: seq<Call>, node: Option<nat>, call: Call)
    requires Holders(nodes, calls) && call.admission == node
    requires node.Some? ==> node.value < |nodes| && nodes[node.value].state == Waiting
    ensures Holders(if node.Some? then Transition(nodes, node.value, Waiting, Admitted) else nodes, calls + [call])
  {
    var nodes' := if node.Some? then Transition(nodes, node.value, Waiting, Admitted) else nodes;
    var calls' := calls + [call];
    forall n | 0 <= n < |nodes'| && nodes'[n].state == Admitted ensures HolderOf(calls', n) {
      if node == Some(n) {
        assert calls'[|calls|].admission == Some(n);
      } else {
        var d :| 0 <= d < |calls| && calls[d].admission == Some(n);
        assert calls'[d].admission == Some(n);
      }
    }
  }

  lemma InstallSlots(nodes: seq<Node>, admissions: seq<Admission>, a: nat, admission: Admission)
    requires Slots(nodes, admissions) && a < |admissions| && admission.node.None?
    ensures Slots(
      if admissions[a].node.Some? then Transition(nodes, admissions[a].node.value, Waiting, Admitted) else nodes,
      admissions[a := admission])
  {
  }

  lemma InstallChain(s: State, a: nat)
    requires Core(s) && a < |s.admissions| && s.admissions[a].phase.Gated?
    ensures var t := Install(s, a);
      && Chain(t.nodes, t.ahead, t.admissions, t.calls)
      && (!s.closed ==> TailReaches(t.nodes, s.admissionTail))
  {
    var t := Install(s, a);
    assert Knows(s.nodes, s.admissions[a]);
    StateChangeKeeps(s.nodes, t.nodes, s.ahead, s.admissions);
    ForgetKeepsLinks(t.nodes, s.admissions, a, t.admissions[a]);
    InstallHolders(s.nodes, s.calls, s.admissions[a].node, t.calls[|s.calls|]);
    InstallSlots(s.nodes, s.admissions, a, t.admissions[a]);
  }

  lemma InstallPending(s: State, a: nat)
    requires Core(s) && a < |s.admissions| && OwnsPending(s, a)
    ensures PendingPoints(Install(s, a).pending, Install(s, a).admissions)
  {
  }

  lemma InstallKeeps(s: State, a: nat)
    requires Core(s) && a < |s.admissions| && s.admissions[a].phase.Gated?
    requires !s.closed && OwnsPending(s, a) && s.admissions[a].requestId !in s.active
    ensures Core(Install(s, a))
  {
    var t := Install(s, a);
    InstallChain(s, a);
    RegistryInstall(s.active, s.calls, t.calls[|s.calls|]);
    InstallPending(s, a);
    forall d: nat ensures Places(t.calls, t.outbox, t.writes, t.settled, d) == One(d < t.deliveries) {
      HeldAppend(s.calls, t.calls[|s.calls|], d);
      assert Places(s.calls, s.outbox, s.writes, s.settled, d) == One(d < s.deliveries);
    }
  }

  lemma DisplaceKeeps(s: State, id: RequestId)
    requires Inv(s)
    ensures Core(Displace(s, id)) && id !in Displace(s, id).active
  {
    if id in s.active {
      var r := s.active[id];
      assert s.(calls := s.calls[r := s.calls[r].(operation := s.calls[r].operation)]) == s;
      EndCallKeeps(s, r, s.calls[r].operation);
    }
  }

  lemma GateAdmitsKeeps(s: State, a: nat)
    requires Inv(s) && Enabled(s, GateStep(a)) && !s.closed && OwnsPending(s, a)
    requires s.admissions[a].node.None? || !ResponseGateActive(s)
    ensures Inv(Gate(s, a))
  {
    var u := Displace(s, s.admissions[a].requestId);
    GateIsInstall(s, a);
    DisplaceKeeps(s, s.admissions[a].requestId);
    InstallKeeps(u, a);
    PruneKeeps(Install(u, a));
  }

  lemma GateKeeps(s: State, a: nat)
    requires Inv(s) && Enabled(s, GateStep(a))
    ensures Inv(Gate(s, a))
  {
    if s.closed || !OwnsPending(s, a) {
      SetPhaseKeeps(s, a, Refused(if s.closed then Closed else Cancelled));
    } else if s.admissions[a].node.None? || !ResponseGateActive(s) {
      GateAdmitsKeeps(s, a);
    }
  }

  // ----- Closing -----

  lemma CloseNodes(s: State)
    requires Inv(s)
    ensures forall n :: 0 <= n < |s.nodes| ==>
      Close(s).nodes[n] == if s.nodes[n].state == Admitted then s.nodes[n].(state := Finished) else s.nodes[n]
  {
    forall n | 0 <= n < |s.nodes| && s.nodes[n].state == Admitted
      ensures HeldNode(s.calls, s.active.Values, n)
    {
      var c :| 0 <= c < |s.calls| && s.calls[c].admission == Some(n);
      assert IsCurrent(s.active, s.calls, c);
      assert s.active[s.calls[c].requestId] in s.active.Values;
    }
  }

  lemma {:induction false} CloseHands(calls: seq<Call>, members: set<nat>, d: nat)
    requires forall c :: 0 <= c < |calls| && c !in members ==> calls[c].delivery.None?
    ensures HeldBy(calls, members)[d] == Held(calls, d)
    ensures Held(AbandonAll(calls, members), d) == 0
  {
    if calls != [] {
      var last := |calls| - 1;
      CloseHands(calls[..last], members, d);
      assert AbandonAll(calls, members)[..last] == AbandonAll(calls[..last], members);
    }
  }

  lemma CloseRegistry(s: State)
    requires Inv(s)
    ensures forall c :: 0 <= c < |s.calls| && c !in s.active.Values ==>
      !s.calls[c].active && s.calls[c].delivery.None? && s.calls[c].admission.None?
  {
    forall c | 0 <= c < |s.calls| && c !in s.active.Values ensures !IsCurrent(s.active, s.calls, c) {
      var id := s.calls[c].requestId;
      assert id in s.active ==> s.active[id] in s.active.Values;
    }
  }

  lemma CloseChain(s: State)
    requires Inv(s)
    ensures Chain(Close(s).nodes, s.ahead, s.admissions, Close(s).calls)
  {
    var t := Close(s);
    CloseNodes(s);
    CloseRegistry(s);
    StateChangeKeeps(s.nodes, t.nodes, s.ahead, s.admissions);
    assert forall c :: 0 <= c < |t.calls| ==> t.calls[c].admission.None?;
    assert Holders(t.nodes, t.calls);
  }

  lemma CloseKeeps(s: State)
    requires Inv(s)
    ensures Inv(Close(s))
  {
    var t := Close(s);
    CloseRegistry(s);
    CloseChain(s);
    forall d: nat ensures Places(t.calls, t.outbox, t.writes, t.settled, d) == One(d < t.deliveries) {
      CloseHands(s.calls, s.active.Values, d);
      assert Places(s.calls, s.outbox, s.writes, s.settled, d) == One(d < s.deliveries);
    }
  }

  // ----- Writes and settlements -----

  lemma AnswerKeeps(s: State, c: nat)
    requires Inv(s) && c < |s.calls|
    ensures Inv(s.(calls := s.calls[c := s.calls[c].(answered := true)]))
  {
    HandlerKeeps(s, c, s.calls[c].(answered := true));
  }

  lemma RespondKeeps(s: State, id: RequestId, source: Option<nat>)
    requires Inv(s) && Enabled(s, RespondStep(id, source))
    ensures Inv(Respond(s, id, source))
  {
    var t := if source.Some?
             then s.(calls := s.calls[source.value := s.calls[source.value].(answered := true)]) else s;
    if source.Some? {
      AnswerKeeps(s, source.value);
    }
    if id in s.active && s.calls[s.active[id]].operationFinished {
      BeginWriteKeeps(t, id);
    }
  }

  lemma BeginWriteKeeps(s: State, id: RequestId)
    requires Inv(s) && id in s.active
    ensures Inv(s.(writes := s.writes + [Write(id, s.active[id], Writing)], pendingWrites := s.pendingWrites + 1))
  {
    var write := Write(id, s.active[id], Writing);
    WriteAppend(s.writes, write, 0);
    BeginWriteConserves(s, write);
  }

  lemma BeginWriteConserves(s: State, write: Write)
    requires Conserved(s) && write.phase.Writing?
    ensures Conserved(s.(writes := s.writes + [write], pendingWrites := s.pendingWrites + 1))
  {
    forall d: nat ensures Places(s.calls, s.outbox, s.writes + [write], s.settled, d) == One(d < s.deliveries) {
      WriteAppend(s.writes, write, d);
      assert Places(s.calls, s.outbox, s.writes, s.settled, d) == One(d < s.deliveries);
    }
  }

  /** A write changes phase and the deliveries move with it. */
  lemma WritePhaseKeeps(s: State, t: State, w: nat, phase: WritePhase)
    requires Inv(s) && w < |s.writes|
    requires t == SetWrite(s.(settled := t.settled, pendingWrites := t.pendingWrites), w, phase)
    requires t.pendingWrites + Open(s.writes[w]) == s.pendingWrites + One(phase != WritePhase.Settled)
    requires forall d: nat ::
      One(phase.Taken? && phase.delivery == Some(d)) + TimesSettled(t.settled, d)
      == One(InWrite(s.writes[w], d)) + TimesSettled(s.settled, d)
    ensures Inv(t)
  {
    forall d: nat ensures Places(t.calls, t.outbox, t.writes, t.settled, d) == One(d < t.deliveries) {
      TakenUpdate(s.writes, w, t.writes[w], d);
      assert Places(s.calls, s.outbox, s.writes, s.settled, d) == One(d < s.deliveries);
    }
    OpenUpdate(s.writes, w, t.writes[w]);
  }

  lemma ApplyDeliveryKeeps(s: State, w: nat)
    requires Inv(s) && Enabled(s, ApplyDeliveryStep(w))
    ensures Inv(ApplyDelivery(s, w))
  {
    var t := ApplyDelivery(s, w);
    var phase := s.writes[w].phase;
    if phase.delivery.Some? {
      forall d: nat
        ensures TimesSettled(t.settled, d) == TimesSettled(s.settled, d) + One(phase.delivery.value == d)
      {
        SettledAppend(s.settled, Settlement(phase.delivery.value, phase.outcome), d);
      }
    }
    WritePhaseKeeps(s, t, w, Acknowledged);
  }

  lemma {:induction false} OpenWriteCounts(writes: seq<Write>, w: nat)
    requires w < |writes| && writes[w].phase != WritePhase.Settled
    ensures OpenWrites(writes) > 0
  {
    if w < |writes| - 1 {
      OpenWriteCounts(writes[..|writes| - 1], w);
    }
  }

  lemma SettleWriteKeeps(s: State, w: nat)
    requires Inv(s) && Enabled(s, SettleWriteStep(w))
    ensures s.pendingWrites > 0 && Inv(SettleWrite(s, w))
  {
    OpenWriteCounts(s.writes, w);
    WritePhaseKeeps(s, SettleWrite(s, w), w, WritePhase.Settled);
  }

  /** The call of write `w` is over and its delivery is, for the moment, in the outbox. */
  function Released(s: State, c: nat): State
    requires WellFormed(s) && c < |s.calls|
  {
    var r := FinishAdmission(Retire(s, c), c);
    r.(calls := r.calls[c := r.calls[c].(active := false, delivery := None)],
       outbox := s.outbox + Hand(s.calls[c].delivery))
  }

  lemma ReleasedKeeps(s: State, c: nat)
    requires Inv(s) && c < |s.calls| && Current(s, c)
    ensures Core(Released(s, c)) && WellFormed(Released(s, c))
  {
    var t := Released(s, c);
    assert t.calls == s.calls[c := t.calls[c]];
    TakeRegistry(s, c);
    CallChangeKeeps(s, t, c, t.calls[c]);
  }

  /** Moving a delivery from the outbox into a write. */
  lemma PickUpKeeps(s: State, outbox: multiset<nat>, w: nat, delivery: Option<nat>, outcome: Outcome)
    requires Inv(s) && w < |s.writes| && s.writes[w].phase.Writing? && s.outbox == outbox + Hand(delivery)
    ensures Inv(SetWrite(s.(outbox := outbox), w, Taken(delivery, outcome)))
  {
    var u := SetWrite(s.(outbox := outbox), w, Taken(delivery, outcome));
    forall d: nat ensures Places(u.calls, u.outbox, u.writes, u.settled, d) == One(d < u.deliveries) {
      TakenUpdate(s.writes, w, u.writes[w], d);
      assert Places(s.calls, s.outbox, s.writes, s.settled, d) == One(d < s.deliveries);
    }
    OpenUpdate(s.writes, w, u.writes[w]);
  }

  /** Taking a delivery out of the current call into write `w`. */
  lemma TakeCurrentKeeps(s: State, w: nat, outcome: Outcome)
    requires Inv(s) && Enabled(s, TakeDeliveryStep(w, outcome)) && Current(s, s.writes[w].call)
    ensures Inv(TakeDelivery(s, w, outcome))
  {
    var c := s.writes[w].call;
    ReleasedKeeps(s, c);
    PruneKeeps(Released(s, c));
    PickUpKeeps(Prune(Released(s, c)), s.outbox, w, s.calls[c].delivery, outcome);
    assert TakeDelivery(s, w, outcome)
        == SetWrite(Prune(Released(s, c)).(outbox := s.outbox), w, Taken(s.calls[c].delivery, outcome));
  }

  lemma TakeRegistry(s: State, c: nat)
    requires Inv(s) && c < |s.calls| && Current(s, c)
    ensures Registry(s.active - {s.calls[c].requestId},
      s.calls[c := s.calls[c].(admission := None, active := false, delivery := None)])
  {
    RegistryRetire(s.active, s.calls, c, s.calls[c].(admission := None, active := false, delivery := None));
  }

  lemma TakeDeliveryKeeps(s: State, w: nat, outcome: Outcome)
    requires Inv(s) && Enabled(s, TakeDeliveryStep(w, outcome))
    ensures Inv(TakeDelivery(s, w, outcome))
  {
    if Current(s, s.writes[w].call) {
      TakeCurrentKeeps(s, w, outcome);
    } else {
      WritePhaseKeeps(s, TakeDelivery(s, w, outcome), w, Taken(None, outcome));
    }
  }

  lemma SettleUnclaimedKeeps(s: State, d: nat)
    requires Inv(s) && Enabled(s, SettleUnclaimedStep(d))
    ensures Inv(SettleUnclaimed(s, d))
  {
    var t := SettleUnclaimed(s, d);
    forall e: nat ensures Places(t.calls, t.outbox, t.writes, t.settled, e) == One(e < t.deliveries) {
      SettledAppend(s.settled, Settlement(d, Unclaimed), e);
      assert Places(s.calls, s.outbox, s.writes, s.settled, e) == One(e < s.deliveries);
    }
  }

  lemma DropNodeKeeps(s: State, n: nat)
    requires Inv(s) && Enabled(s, DropNodeStep(n))
    ensures s.admissionCount > 0 && Inv(DropNode(s, n))
  {
  }

  // ----- All steps -----

  predicate AdmissionStep(step: Step) {
    || step.ReserveStep? || step.CheckStep? || step.StartWaitStep? || step.AdvanceStep? || step.RestartStep?
    || step.ClearLinkStep? || step.GateStep? || step.DropAdmissionStep? || step.UnregisterStep? || step.DropNodeStep?
  }

  lemma AdmissionStepKeeps(s: State, step: Step)
    requires Inv(s) && Enabled(s, step) && AdmissionStep(step)
    ensures CountersHold(s, step) && Inv(Apply(s, step))
  {
    match step
    case ReserveStep(id) => ReserveKeeps(s, id);
    case CheckStep(a) => CheckKeeps(s, a);
    case StartWaitStep(a) => StartWaitKeeps(s, a);
    case AdvanceStep(a) => AdvanceKeeps(s, a);
    case RestartStep(a) => RestartKeeps(s, a);
    case ClearLinkStep(a) => ClearLinkKeeps(s, a);
    case GateStep(a) => GateKeeps(s, a);
    case DropAdmissionStep(a) => DropAdmissionKeeps(s, a);
    case UnregisterStep(a) => UnregisterKeeps(s, a);
    case DropNodeStep(n) => DropNodeKeeps(s, n);
  }

  lemma CallStepKeeps(s: State, step: Step)
    requires Inv(s) && Enabled(s, step) && !AdmissionStep(step)
    ensures CountersHold(s, step) && Inv(Apply(s, step))
  {
    match step
    case RegisterStep(c) => RegisterKeeps(s, c);
    case CompleteStep(c) => CompleteKeeps(s, c);
    case DropOperationStep(c) => DropOperationKeeps(s, c);
    case CancelStep(id) => CancelKeeps(s, id);
    case CloseStep => CloseKeeps(s);
    case RespondStep(id, source) => RespondKeeps(s, id, source);
    case TakeDeliveryStep(w, outcome) => TakeDeliveryKeeps(s, w, outcome);
    case ApplyDeliveryStep(w) => ApplyDeliveryKeeps(s, w);
    case SettleWriteStep(w) => SettleWriteKeeps(s, w);
    case SettleUnclaimedStep(d) => SettleUnclaimedKeeps(s, d);
  }

  /** No counter underflows, and every step keeps the invariant. */
  lemma StepKeeps(s: State, step: Step)
    requires Inv(s) && Enabled(s, step)
    ensures CountersHold(s, step) && Inv(Apply(s, step))
  {
    if AdmissionStep(step) {
      AdmissionStepKeeps(s, step);
    } else {
      CallStepKeeps(s, step);
    }
  }
}
