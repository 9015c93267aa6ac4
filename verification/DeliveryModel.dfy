/**
  The response-delivery admission protocol of `src/server_transport.rs`, as a
  state machine. Every section that runs under the state lock is one step, and
  so is every unlocked access to a shared admission node.

  `Arc`s become indices: nodes, admissions, calls and writes are numbered in the
  order in which they are created. An admission's index is its token.
*/
module DeliveryModel {
  import opened Options

  /** The bound on response-gated calls. */
  const MAX_RESPONSE_GATED_CALLS: nat := 64

  datatype RequestId = Number(number: int) | Text(text: string)

  datatype NodeState = Waiting | Admitted | Finished | Skipped

  /** One link of the wire-order chain; `owner` is the admission that reserved it. */
  datatype Node = Node(state: NodeState, predecessor: Option<nat>, owner: nat)

  datatype Refusal = Cancelled | Closed

  /** Where the future returned by `admit` stands, and then where its drop stands. */
  datatype Phase =
    | Checking                 // about to check `closed` and `pending` under the lock
    | Starting                 // about to read its node's predecessor
    | Watching(cursor: nat)    // waiting for the node under the cursor
    | Clearing                 // its predecessors have settled; the link is still set
    | Gated                    // waiting for the response gate
    | Refused(reason: Refusal)
    | Returned(call: nat)
    | Unregistering            // node skipped, `pending` not yet cleaned up
    | Gone

  datatype Admission = Admission(requestId: RequestId, node: Option<nat>, phase: Phase)

  /** The handler's operation guard: still held, completed, or dropped without completion. */
  datatype Operation = Running | Completed | Dropped

  /** `operation`, `registered` and `answered` record what the handler has done so far. */
  datatype Call = Call(
    requestId: RequestId,
    active: bool,
    operationFinished: bool,
    delivery: Option<nat>,
    admission: Option<nat>,
    operation: Operation,
    registered: bool,
    answered: bool)

  datatype Outcome = Delivered | Unclaimed

  datatype WritePhase =
    | Writing
    | Taken(delivery: Option<nat>, outcome: Outcome)
    | Acknowledged
    | Settled

  datatype Write = Write(requestId: RequestId, call: nat, phase: WritePhase)

  datatype Settlement = Settlement(delivery: nat, outcome: Outcome)

  /**
    `live` are the nodes that have not been dropped. `ahead[n]` is what was
    waiting when node `n` was reserved. `outbox` are the deliveries handed out
    under the lock that some thread still has to settle as unclaimed.
  */
  datatype State = State(
    active: map<RequestId, nat>,
    pending: map<RequestId, nat>,
    pendingWrites: nat,
    admissionTail: Option<nat>,
    closed: bool,
    admissionCount: nat,
    live: set<nat>,
    nodes: seq<Node>,
    ahead: seq<set<nat>>,
    admissions: seq<Admission>,
    calls: seq<Call>,
    writes: seq<Write>,
    deliveries: nat,
    outbox: multiset<nat>,
    settled: seq<Settlement>,
    panics: nat)

  function Initial(): State {
    State(map[], map[], 0, None, false, 0, {}, [], [], [], [], [], 0, multiset{}, [], 0)
  }

  // ----- Well-formedness: every index points at something -----

  predicate NodeIndex(o: Option<nat>, nodes: seq<Node>) {
    o.Some? ==> o.value < |nodes|
  }

  predicate Linked(nodes: seq<Node>) {
    forall n :: 0 <= n < |nodes| && nodes[n].predecessor.Some? ==> nodes[n].predecessor.value < n
  }

  predicate AdmissionsPoint(admissions: seq<Admission>, nodes: seq<Node>) {
    forall a :: 0 <= a < |admissions| ==>
      && NodeIndex(admissions[a].node, nodes)
      && (admissions[a].phase.Watching? ==> admissions[a].phase.cursor < |nodes|)
      && (InWait(admissions[a].phase) ==> admissions[a].node.Some?)
  }

  /** Phases that only an admission with a node of its own goes through. */
  predicate InWait(p: Phase) {
    p.Checking? || p.Starting? || p.Watching? || p.Clearing?
  }

  predicate CallsPoint(calls: seq<Call>, nodes: seq<Node>) {
    forall c :: 0 <= c < |calls| ==> NodeIndex(calls[c].admission, nodes)
  }

  predicate ActivePoints(active: map<RequestId, nat>, calls: seq<Call>) {
    forall id :: id in active ==> active[id] < |calls| && calls[active[id]].requestId == id
  }

  predicate WritesPoint(writes: seq<Write>, calls: seq<Call>) {
    forall w :: 0 <= w < |writes| ==>
      writes[w].call < |calls| && calls[writes[w].call].requestId == writes[w].requestId
  }

  predicate WellFormed(s: State) {
    && Linked(s.nodes)
    && |s.ahead| == |s.nodes|
    && NodeIndex(s.admissionTail, s.nodes)
    && AdmissionsPoint(s.admissions, s.nodes)
    && CallsPoint(s.calls, s.nodes)
    && ActivePoints(s.active, s.calls)
    && WritesPoint(s.writes, s.calls)
  }

  // ----- Nodes -----

  /** The last waiting node at or behind `tail`, looking through skipped nodes only. */
  function LastWaiting(nodes: seq<Node>, tail: Option<nat>): (r: Option<nat>)
    requires Linked(nodes) && NodeIndex(tail, nodes)
    ensures NodeIndex(r, nodes)
    decreases if tail.Some? then tail.value + 1 else 0
  {
    match tail
    case None => None
    case Some(n) =>
      match nodes[n].state
      case Waiting => tail
      case Admitted => None
      case Finished => None
      case Skipped => LastWaiting(nodes, nodes[n].predecessor)
  }

  /** Compare-and-exchange on one node's state. */
  function Transition(nodes: seq<Node>, n: nat, expected: NodeState, next: NodeState): seq<Node>
    requires n < |nodes|
  {
    if nodes[n].state == expected then nodes[n := nodes[n].(state := next)] else nodes
  }

  function WaitingNodes(nodes: seq<Node>): set<nat> {
    set n | 0 <= n < |nodes| && nodes[n].state == Waiting
  }

  function Prune(s: State): State
    requires WellFormed(s)
  {
    s.(admissionTail := LastWaiting(s.nodes, s.admissionTail))
  }

  // ----- The gate -----

  predicate BlocksNewAdmissions(call: Call) {
    call.operationFinished || call.delivery.Some? || (call.admission.Some? && !call.active)
  }

  predicate ResponseGateActive(s: State)
    requires ActivePoints(s.active, s.calls)
  {
    s.pendingWrites > 0
    || exists id | id in s.active :: BlocksNewAdmissions(s.calls[s.active[id]])
  }

  predicate ReservationGateActive(s: State)
    requires ActivePoints(s.active, s.calls)
  {
    ResponseGateActive(s) || s.admissionTail.Some?
  }

  // ----- Calls -----

  function Hand(delivery: Option<nat>): multiset<nat> {
    if delivery.Some? then multiset{delivery.value} else multiset{}
  }

  /** Whether the call `c` is the current one for its request. */
  predicate Current(s: State, c: nat)
    requires c < |s.calls|
  {
    s.calls[c].requestId in s.active && s.active[s.calls[c].requestId] == c
  }

  function FinishAdmission(s: State, c: nat): (r: State)
    requires WellFormed(s) && c < |s.calls|
    ensures WellFormed(r) && |r.calls| == |s.calls|
  {
    match s.calls[c].admission
    case None => s
    case Some(n) =>
      s.(nodes := Transition(s.nodes, n, Admitted, Finished),
         calls := s.calls[c := s.calls[c].(admission := None)])
  }

  /** Ends a call and hands its delivery out to be settled as unclaimed. */
  function AbandonCall(s: State, c: nat): (r: State)
    requires WellFormed(s) && c < |s.calls|
    ensures WellFormed(r) && |r.calls| == |s.calls|
  {
    var t := FinishAdmission(s, c);
    t.(calls := t.calls[c := t.calls[c].(active := false, operationFinished := true, delivery := None)],
       outbox := t.outbox + Hand(s.calls[c].delivery))
  }

  function StartCall(s: State, id: RequestId, admission: Option<nat>): State
    requires WellFormed(s) && NodeIndex(admission, s.nodes)
  {
    var c := |s.calls|;
    var call := Call(id, true, false, None, admission, Running, false, false);
    var started := s.(calls := s.calls + [call], active := s.active[id := c]);
    Prune(if id in s.active then AbandonCall(started, s.active[id]) else started)
  }

  // ----- Reservation and admission -----

  function AddReservation(s: State, id: RequestId, node: Option<nat>): State {
    var phase := if node.Some? then Checking else Gated;
    s.(pending := s.pending[id := |s.admissions|],
       admissions := s.admissions + [Admission(id, node, phase)])
  }

  /** Reserves a place behind the current tail. */
  function Queue(s: State, id: RequestId): State {
    var n := |s.nodes|;
    AddReservation(s.(
      nodes := s.nodes + [Node(Waiting, s.admissionTail, |s.admissions|)],
      ahead := s.ahead + [WaitingNodes(s.nodes)],
      live := s.live + {n},
      admissionCount := s.admissionCount + 1,
      admissionTail := Some(n)), id, Some(n))
  }

  function Reserve(before: State, id: RequestId): State
    requires WellFormed(before)
  {
    var s := Prune(before);
    if s.closed then s
    else if !ReservationGateActive(s) then AddReservation(s, id, None)
    else if s.admissionCount >= MAX_RESPONSE_GATED_CALLS then s
    else Queue(s, id)
  }

  predicate OwnsPending(s: State, a: nat)
    requires a < |s.admissions|
  {
    s.admissions[a].requestId in s.pending && s.pending[s.admissions[a].requestId] == a
  }

  function SetPhase(s: State, a: nat, phase: Phase): State
    requires a < |s.admissions|
  {
    s.(admissions := s.admissions[a := s.admissions[a].(phase := phase)])
  }

  function Check(s: State, a: nat): State
    requires a < |s.admissions|
  {
    if s.closed then SetPhase(s, a, Refused(Closed))
    else if !OwnsPending(s, a) then SetPhase(s, a, Refused(Cancelled))
    else SetPhase(s, a, Starting)
  }

  function StartWait(s: State, a: nat): State
    requires a < |s.admissions|
    requires s.admissions[a].node.Some? && s.admissions[a].node.value < |s.nodes|
  {
    match s.nodes[s.admissions[a].node.value].predecessor
    case None => SetPhase(s, a, Gated)
    case Some(p) => SetPhase(s, a, Watching(p))
  }

  function Advance(s: State, a: nat): State
    requires a < |s.admissions|
    requires s.admissions[a].phase.Watching? && s.admissions[a].phase.cursor < |s.nodes|
  {
    var node := s.nodes[s.admissions[a].phase.cursor];
    match node.state
    case Waiting => s
    case Admitted => s
    case Finished => SetPhase(s, a, Clearing)
    case Skipped =>
      match node.predecessor
      case None => SetPhase(s, a, Clearing)
      case Some(p) => SetPhase(s, a, Watching(p))
  }

  function ClearLink(s: State, a: nat): State
    requires a < |s.admissions|
    requires s.admissions[a].node.Some? && s.admissions[a].node.value < |s.nodes|
  {
    var n := s.admissions[a].node.value;
    SetPhase(s.(nodes := s.nodes[n := s.nodes[n].(predecessor := None)]), a, Gated)
  }

  /** The locked part of the second loop of `admit`. */
  function Gate(s: State, a: nat): State
    requires WellFormed(s) && a < |s.admissions|
  {
    var admission := s.admissions[a];
    if s.closed then SetPhase(s, a, Refused(Closed))
    else if !OwnsPending(s, a) then SetPhase(s, a, Refused(Cancelled))
    else if admission.node.Some? && ResponseGateActive(s) then s
    else
      StartCall(TakeReservation(s, a), admission.requestId, admission.node)
  }

  function TakeReservation(s: State, a: nat): State
    requires WellFormed(s) && a < |s.admissions|
  {
    var admission := s.admissions[a];
    s.(pending := s.pending - {admission.requestId},
       nodes := if admission.node.Some?
                then Transition(s.nodes, admission.node.value, Waiting, Admitted) else s.nodes,
       admissions := s.admissions[a := admission.(node := None, phase := Returned(|s.calls|))])
  }

  /** The unlocked first half of dropping an admission. */
  function DropAdmission(s: State, a: nat): State
    requires WellFormed(s) && a < |s.admissions|
  {
    var admission := s.admissions[a];
    s.(nodes := if admission.node.Some?
                then Transition(s.nodes, admission.node.value, Waiting, Skipped) else s.nodes,
       admissions := s.admissions[a := admission.(node := None, phase := Unregistering)])
  }

  function Unregister(s: State, a: nat): State
    requires WellFormed(s) && a < |s.admissions|
  {
    var t := if OwnsPending(s, a) then s.(pending := s.pending - {s.admissions[a].requestId}) else s;
    SetPhase(Prune(t), a, Gone)
  }

  // ----- Operations, cancellation, closing -----

  function Register(s: State, c: nat): State
    requires c < |s.calls|
  {
    var d := s.deliveries;
    var t := s.(deliveries := d + 1);
    if Current(s, c) && s.calls[c].active
    then t.(calls := s.calls[c := s.calls[c].(delivery := Some(d), registered := true)])
    else t.(calls := s.calls[c := s.calls[c].(registered := true)], outbox := s.outbox + multiset{d})
  }

  function Retire(s: State, c: nat): State
    requires c < |s.calls|
  {
    s.(active := s.active - {s.calls[c].requestId})
  }

  function Complete(s: State, c: nat): State
    requires WellFormed(s) && c < |s.calls|
  {
    var t := s.(calls := s.calls[c := s.calls[c].(operation := Completed)]);
    if !Current(t, c) then t
    else if t.calls[c].active then
      Prune(t.(calls := t.calls[c := t.calls[c].(operationFinished := true)]))
    else
      Prune(Retire(AbandonCall(t, c), c))
  }

  function DropOperation(s: State, c: nat): State
    requires WellFormed(s) && c < |s.calls|
  {
    var t := s.(calls := s.calls[c := s.calls[c].(operation := Dropped)]);
    if Current(t, c) then Prune(Retire(AbandonCall(t, c), c)) else t
  }

  function CancelCall(s: State, c: nat): State
    requires WellFormed(s) && c < |s.calls|
  {
    var t := s.(calls := s.calls[c := s.calls[c].(active := false, delivery := None)],
                outbox := s.outbox + Hand(s.calls[c].delivery));
    if s.calls[c].operationFinished then Retire(FinishAdmission(t, c), c) else t
  }

  function Cancel(s: State, id: RequestId): State
    requires WellFormed(s)
  {
    Prune(if id in s.pending then s.(pending := s.pending - {id})
          else if id in s.active then CancelCall(s, s.active[id])
          else s)
  }

  /** The deliveries held by the calls among `members`. */
  function HeldBy(calls: seq<Call>, members: set<nat>): multiset<nat> {
    if calls == [] then multiset{}
    else
      var last := |calls| - 1;
      HeldBy(calls[..last], members)
      + if last in members then Hand(calls[last].delivery) else multiset{}
  }

  function Abandoned(call: Call): Call {
    call.(active := false, operationFinished := true, delivery := None, admission := None)
  }

  predicate HeldNode(calls: seq<Call>, members: set<nat>, n: nat) {
    exists c | c in members :: c < |calls| && calls[c].admission == Some(n)
  }

  function AbandonAll(calls: seq<Call>, members: set<nat>): seq<Call> {
    seq(|calls|, c requires 0 <= c < |calls| => if c in members then Abandoned(calls[c]) else calls[c])
  }

  function FinishHeld(nodes: seq<Node>, calls: seq<Call>, members: set<nat>): seq<Node> {
    seq(|nodes|, n requires 0 <= n < |nodes| =>
      if HeldNode(calls, members, n) && nodes[n].state == Admitted
      then nodes[n].(state := Finished) else nodes[n])
  }

  function Close(s: State): State {
    var members := s.active.Values;
    s.(closed := true,
       active := map[],
       pending := map[],
       admissionTail := None,
       calls := AbandonAll(s.calls, members),
       nodes := FinishHeld(s.nodes, s.calls, members),
       outbox := s.outbox + HeldBy(s.calls, members))
  }

  // ----- Response writes -----

  /**
    A response for request `id` is assembled. `source` is the call whose handler
    produced it, or `None` for a response that belongs to no call. The assertion
    in `begin_write` panics, leaving the protocol state as it was, when the
    current call for `id` is still running.
  */
  function Respond(s: State, id: RequestId, source: Option<nat>): State
    requires ActivePoints(s.active, s.calls)
    requires source.Some? ==> source.value < |s.calls|
  {
    var t := if source.Some?
             then s.(calls := s.calls[source.value := s.calls[source.value].(answered := true)]) else s;
    if id !in s.active then t
    else if !s.calls[s.active[id]].operationFinished then t.(panics := s.panics + 1)
    else t.(writes := s.writes + [Write(id, s.active[id], Writing)], pendingWrites := s.pendingWrites + 1)
  }

  function SetWrite(s: State, w: nat, phase: WritePhase): State
    requires w < |s.writes|
  {
    s.(writes := s.writes[w := s.writes[w].(phase := phase)])
  }

  /** The current call whose response was written is over. */
  function EndWritten(s: State, c: nat): State
    requires WellFormed(s) && c < |s.calls|
  {
    var t := FinishAdmission(Retire(s, c), c);
    t.(calls := t.calls[c := t.calls[c].(active := false, delivery := None)])
  }

  function TakeDelivery(s: State, w: nat, outcome: Outcome): State
    requires WellFormed(s) && w < |s.writes|
  {
    var c := s.writes[w].call;
    if !Current(s, c) then SetWrite(s, w, Taken(None, outcome))
    else SetWrite(Prune(EndWritten(s, c)), w, Taken(s.calls[c].delivery, outcome))
  }

  function ApplyDelivery(s: State, w: nat): State
    requires w < |s.writes| && s.writes[w].phase.Taken?
  {
    var phase := s.writes[w].phase;
    var t := SetWrite(s, w, Acknowledged);
    if phase.delivery.Some?
    then t.(settled := s.settled + [Settlement(phase.delivery.value, phase.outcome)]) else t
  }

  function SettleWrite(s: State, w: nat): State
    requires w < |s.writes| && s.pendingWrites > 0
  {
    SetWrite(s.(pendingWrites := s.pendingWrites - 1), w, WritePhase.Settled)
  }

  function SettleUnclaimed(s: State, d: nat): State {
    s.(outbox := s.outbox - multiset{d}, settled := s.settled + [Settlement(d, Unclaimed)])
  }

  // ----- Node reference counting -----

  /** A strong reference other than a transient local keeps node `n` alive. */
  predicate Root(s: State, n: nat) {
    || s.admissionTail == Some(n)
    || (exists a | 0 <= a < |s.admissions| :: s.admissions[a].node == Some(n))
    || (exists c | 0 <= c < |s.calls| :: s.calls[c].admission == Some(n))
  }

  predicate Referenced(s: State, n: nat) {
    Root(s, n) || exists m | m in s.live :: m < |s.nodes| && s.nodes[m].predecessor == Some(n)
  }

  function DropNode(s: State, n: nat): State
    requires s.admissionCount > 0
  {
    s.(live := s.live - {n}, admissionCount := s.admissionCount - 1)
  }

  // ----- Steps -----

  datatype Step =
    | ReserveStep(id: RequestId)
    | CheckStep(a: nat)
    | StartWaitStep(a: nat)
    | AdvanceStep(a: nat)
    | RestartStep(a: nat)
    | ClearLinkStep(a: nat)
    | GateStep(a: nat)
    | DropAdmissionStep(a: nat)
    | UnregisterStep(a: nat)
    | RegisterStep(c: nat)
    | CompleteStep(c: nat)
    | DropOperationStep(c: nat)
    | CancelStep(id: RequestId)
    | CloseStep
    | RespondStep(id: RequestId, source: Option<nat>)
    | TakeDeliveryStep(w: nat, outcome: Outcome)
    | ApplyDeliveryStep(w: nat)
    | SettleWriteStep(w: nat)
    | SettleUnclaimedStep(d: nat)
    | DropNodeStep(n: nat)

  /**
    When a step can happen. The guards on register, complete and respond state
    what a handler does: it registers at most one delivery and only before it
    gives up its operation guard, and it answers once, after that.
  */
  predicate Enabled(s: State, step: Step) {
    match step
    case ReserveStep(_) => true
    case CheckStep(a) => a < |s.admissions| && s.admissions[a].phase.Checking?
    case StartWaitStep(a) => a < |s.admissions| && s.admissions[a].phase.Starting?
    case AdvanceStep(a) => a < |s.admissions| && s.admissions[a].phase.Watching?
    case RestartStep(a) => a < |s.admissions| && s.admissions[a].phase.Watching?
    case ClearLinkStep(a) => a < |s.admissions| && s.admissions[a].phase.Clearing?
    case GateStep(a) => a < |s.admissions| && s.admissions[a].phase.Gated?
    case DropAdmissionStep(a) => a < |s.admissions| && !s.admissions[a].phase.Unregistering? && !s.admissions[a].phase.Gone?
    case UnregisterStep(a) => a < |s.admissions| && s.admissions[a].phase.Unregistering?
    case RegisterStep(c) => c < |s.calls| && s.calls[c].operation.Running? && !s.calls[c].registered
    case CompleteStep(c) => c < |s.calls| && s.calls[c].operation.Running?
    case DropOperationStep(c) => c < |s.calls| && s.calls[c].operation.Running?
    case CancelStep(_) => true
    case CloseStep => true
    case RespondStep(id, source) =>
      source.Some? ==>
        && source.value < |s.calls|
        && s.calls[source.value].requestId == id
        && !s.calls[source.value].operation.Running?
        && !s.calls[source.value].answered
    case TakeDeliveryStep(w, _) => w < |s.writes| && s.writes[w].phase.Writing?
    case ApplyDeliveryStep(w) => w < |s.writes| && s.writes[w].phase.Taken?
    case SettleWriteStep(w) => w < |s.writes| && s.writes[w].phase.Acknowledged?
    case SettleUnclaimedStep(d) => d in s.outbox
    case DropNodeStep(n) => n in s.live && !Referenced(s, n)
  }

  /** The two counters that a step decrements are positive whenever it does so. */
  predicate CountersHold(s: State, step: Step) {
    && (step.SettleWriteStep? ==> s.pendingWrites > 0)
    && (step.DropNodeStep? ==> s.admissionCount > 0)
  }

  function Apply(s: State, step: Step): State
    requires WellFormed(s) && Enabled(s, step) && CountersHold(s, step)
  {
    match step
    case ReserveStep(id) => Reserve(s, id)
    case CheckStep(a) => Check(s, a)
    case StartWaitStep(a) => StartWait(s, a)
    case AdvanceStep(a) => Advance(s, a)
    case RestartStep(a) => SetPhase(s, a, Checking)
    case ClearLinkStep(a) => ClearLink(s, a)
    case GateStep(a) => Gate(s, a)
    case DropAdmissionStep(a) => DropAdmission(s, a)
    case UnregisterStep(a) => Unregister(s, a)
    case RegisterStep(c) => Register(s, c)
    case CompleteStep(c) => Complete(s, c)
    case DropOperationStep(c) => DropOperation(s, c)
    case CancelStep(id) => Cancel(s, id)
    case CloseStep => Close(s)
    case RespondStep(id, source) => Respond(s, id, source)
    case TakeDeliveryStep(w, outcome) => TakeDelivery(s, w, outcome)
    case ApplyDeliveryStep(w) => ApplyDelivery(s, w)
    case SettleWriteStep(w) => SettleWrite(s, w)
    case SettleUnclaimedStep(d) => SettleUnclaimed(s, d)
    case DropNodeStep(n) => DropNode(s, n)
  }
}
