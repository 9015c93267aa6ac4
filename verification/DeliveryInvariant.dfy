/**
  The invariant of the admission protocol, split by the parts of the state it
  speaks about, and the lemmas that the parts need.
*/
module DeliveryInvariant {
  import opened Options
  import opened DeliveryModel

  // ----- The chain behind a node -----

  /** The nodes reached from `n` by following predecessor links. */
  function Behind(nodes: seq<Node>, n: nat): (r: set<nat>)
    requires Linked(nodes) && n < |nodes|
    ensures forall m :: m in r ==> m < n
  {
    match nodes[n].predecessor
    case None => {}
    case Some(p) => {p} + Behind(nodes, p)
  }

  predicate SettledNode(node: Node) {
    node.state == Finished || node.state == Skipped
  }

  ghost predicate AllSettledBehind(nodes: seq<Node>, n: nat)
    requires Linked(nodes) && n < |nodes|
  {
    forall m :: m in Behind(nodes, n) ==> SettledNode(nodes[m])
  }

  ghost predicate SameLinks(nodes: seq<Node>, nodes': seq<Node>) {
    && |nodes| <= |nodes'|
    && forall n :: 0 <= n < |nodes| ==> nodes'[n].predecessor == nodes[n].predecessor
  }

  lemma {:induction false} BehindSameLinks(nodes: seq<Node>, nodes': seq<Node>, n: nat)
    requires Linked(nodes) && Linked(nodes') && SameLinks(nodes, nodes') && n < |nodes|
    ensures Behind(nodes', n) == Behind(nodes, n)
  {
    if nodes[n].predecessor.Some? {
      BehindSameLinks(nodes, nodes', nodes[n].predecessor.value);
    }
  }

  lemma BehindSameLinksAll(nodes: seq<Node>, nodes': seq<Node>)
    requires Linked(nodes) && Linked(nodes') && SameLinks(nodes, nodes')
    ensures forall n :: 0 <= n < |nodes| ==> Behind(nodes', n) == Behind(nodes, n)
  {
    forall n | 0 <= n < |nodes| ensures Behind(nodes', n) == Behind(nodes, n) {
      BehindSameLinks(nodes, nodes', n);
    }
  }

  lemma {:induction false} BehindTransitive(nodes: seq<Node>, n: nat, m: nat)
    requires Linked(nodes) && n < |nodes| && m in Behind(nodes, n)
    ensures Behind(nodes, m) <= Behind(nodes, n)
  {
    var p := nodes[n].predecessor.value;
    if m != p {
      BehindTransitive(nodes, p, m);
    }
  }

  /** Clearing one link only loses what was behind it. */
  lemma {:induction false} BehindCleared(nodes: seq<Node>, k: nat, n: nat)
    requires Linked(nodes) && k < |nodes| && n < |nodes|
    ensures Linked(nodes[k := nodes[k].(predecessor := None)])
    ensures Behind(nodes, n) - Behind(nodes, k)
         <= Behind(nodes[k := nodes[k].(predecessor := None)], n)
         <= Behind(nodes, n)
  {
    if n != k && nodes[n].predecessor.Some? {
      BehindCleared(nodes, k, nodes[n].predecessor.value);
    }
  }

  /** Nodes from `n` down to `m`: on the chain, in an order that only falls. */
  lemma {:induction false} BehindIsAChain(nodes: seq<Node>, n: nat, x: nat, y: nat)
    requires Linked(nodes) && n < |nodes|
    requires x in Behind(nodes, n) && y in Behind(nodes, n) && y < x
    ensures y in Behind(nodes, x)
  {
    var p := nodes[n].predecessor.value;
    if x != p {
      BehindIsAChain(nodes, p, x, y);
    }
  }

  // ----- The parts of the invariant -----

  predicate BeforeAdmission(p: Phase) {
    InWait(p) || p.Gated? || p.Refused?
  }

  /** An admission's slot holds a node exactly while that node is waiting. */
  ghost predicate Slots(nodes: seq<Node>, admissions: seq<Admission>) {
    && (forall a :: 0 <= a < |admissions| && admissions[a].node.Some? ==>
          && admissions[a].node.value < |nodes|
          && nodes[admissions[a].node.value].state == Waiting
          && nodes[admissions[a].node.value].owner == a
          && BeforeAdmission(admissions[a].phase))
    && (forall n :: 0 <= n < |nodes| && nodes[n].state == Waiting ==>
          && nodes[n].owner < |admissions|
          && admissions[nodes[n].owner].node == Some(n))
  }

  predicate IsCurrent(active: map<RequestId, nat>, calls: seq<Call>, c: nat)
    requires c < |calls|
  {
    calls[c].requestId in active && active[calls[c].requestId] == c
  }

  /** What a call outside `active` no longer has, and how the flags of the others agree. */
  ghost predicate Registry(active: map<RequestId, nat>, calls: seq<Call>) {
    && ActivePoints(active, calls)
    && forall c :: 0 <= c < |calls| ==>
      if IsCurrent(active, calls, c) then
        && (calls[c].operationFinished <==> calls[c].operation.Completed?)
        && (!calls[c].operationFinished ==> calls[c].operation.Running?)
        && (calls[c].operationFinished ==> calls[c].active)
        && (calls[c].delivery.Some? <==> calls[c].active && calls[c].registered)
      else
        !calls[c].active && calls[c].delivery.None? && calls[c].admission.None?
  }

  ghost predicate HolderOf(calls: seq<Call>, n: nat) {
    exists c :: 0 <= c < |calls| && calls[c].admission == Some(n)
  }

  /** A node is admitted exactly when a call holds it, and then only one call does. */
  ghost predicate Holders(nodes: seq<Node>, calls: seq<Call>) {
    && (forall c :: 0 <= c < |calls| && calls[c].admission.Some? ==>
          calls[c].admission.value < |nodes| && nodes[calls[c].admission.value].state == Admitted)
    && (forall n :: 0 <= n < |nodes| && nodes[n].state == Admitted ==> HolderOf(calls, n))
    && (forall c, d :: 0 <= c < d < |calls| && calls[c].admission.Some? ==>
          calls[c].admission != calls[d].admission)
  }

  /** What an admission knows about its own node in each phase. */
  ghost predicate Knows(nodes: seq<Node>, admission: Admission)
    requires Linked(nodes)
  {
    admission.node.Some? && admission.node.value < |nodes| ==>
      var n := admission.node.value;
      match admission.phase
      case Watching(cursor) =>
        && cursor in Behind(nodes, n)
        && forall m :: m in Behind(nodes, n) && m > cursor ==> SettledNode(nodes[m])
      case Clearing => AllSettledBehind(nodes, n)
      case Gated => nodes[n].predecessor.None?
      case _ => true
  }

  ghost predicate Links(nodes: seq<Node>, admissions: seq<Admission>) {
    && Linked(nodes)
    && (forall n :: 0 <= n < |nodes| && (nodes[n].state == Admitted || nodes[n].state == Finished) ==>
          nodes[n].predecessor.None?)
    && (forall a :: 0 <= a < |admissions| ==> Knows(nodes, admissions[a]))
  }

  /** Whatever was waiting when `n` was reserved has settled or is still behind it. */
  ghost predicate Ordered(nodes: seq<Node>, ahead: seq<set<nat>>)
    requires Linked(nodes)
  {
    && |ahead| == |nodes|
    && (forall n, m :: 0 <= n < |nodes| && m in ahead[n] ==> m < n)
    && (forall n, m :: 0 <= n < |nodes| && nodes[n].state == Waiting && m in ahead[n] ==>
          SettledNode(nodes[m]) || m in Behind(nodes, n))
  }

  /** Node `n` is the tail or behind it. */
  ghost predicate OnTail(nodes: seq<Node>, tail: Option<nat>, n: nat)
    requires Linked(nodes) && NodeIndex(tail, nodes)
  {
    tail.Some? && (n == tail.value || n in Behind(nodes, tail.value))
  }

  ghost predicate TailReaches(nodes: seq<Node>, tail: Option<nat>)
    requires Linked(nodes) && NodeIndex(tail, nodes)
  {
    forall n :: 0 <= n < |nodes| && nodes[n].state == Waiting ==> OnTail(nodes, tail, n)
  }

  /** The tail is waiting, or its admission is between its skip and its clean-up. */
  ghost predicate TailHeld(nodes: seq<Node>, admissions: seq<Admission>, tail: Option<nat>) {
    tail.Some? ==>
      && tail.value < |nodes|
      && (nodes[tail.value].state == Waiting
          || (nodes[tail.value].state == Skipped
              && nodes[tail.value].owner < |admissions|
              && admissions[nodes[tail.value].owner].phase.Unregistering?))
  }

  /** A refused admission has lost its place, so a pending entry is never its own. */
  predicate MayOwnPending(p: Phase) {
    InWait(p) || p.Gated? || p.Unregistering?
  }

  ghost predicate PendingPoints(pending: map<RequestId, nat>, admissions: seq<Admission>) {
    forall id :: id in pending ==>
      && pending[id] < |admissions|
      && admissions[pending[id]].requestId == id
      && MayOwnPending(admissions[pending[id]].phase)
  }

  ghost predicate ClosedEmpty(s: State) {
    s.closed ==> s.active == map[] && s.pending == map[] && s.admissionTail.None?
  }

  // ----- The delivery ledger -----

  function One(b: bool): nat {
    if b then 1 else 0
  }

  /** How many calls hold delivery `d`. */
  function Held(calls: seq<Call>, d: nat): nat {
    if calls == [] then 0
    else Held(calls[..|calls| - 1], d) + One(calls[|calls| - 1].delivery == Some(d))
  }

  predicate InWrite(write: Write, d: nat) {
    write.phase.Taken? && write.phase.delivery == Some(d)
  }

  /** How many writes have taken delivery `d` without settling it yet. */
  function TakenBy(writes: seq<Write>, d: nat): nat {
    if writes == [] then 0
    else TakenBy(writes[..|writes| - 1], d) + One(InWrite(writes[|writes| - 1], d))
  }

  /** How often delivery `d` has been settled. */
  function TimesSettled(settled: seq<Settlement>, d: nat): nat {
    if settled == [] then 0
    else TimesSettled(settled[..|settled| - 1], d) + One(settled[|settled| - 1].delivery == d)
  }

  /** In how many places delivery `d` is. */
  function Places(calls: seq<Call>, outbox: multiset<nat>, writes: seq<Write>, settled: seq<Settlement>, d: nat): nat {
    Held(calls, d) + outbox[d] + TakenBy(writes, d) + TimesSettled(settled, d)
  }

  /** Every registered delivery is in exactly one place. */
  ghost predicate Conserved(s: State) {
    forall d: nat :: Places(s.calls, s.outbox, s.writes, s.settled, d) == One(d < s.deliveries)
  }

  function Open(write: Write): nat {
    One(write.phase != WritePhase.Settled)
  }

  /** How many writes have not settled yet. */
  function OpenWrites(writes: seq<Write>): nat {
    if writes == [] then 0
    else OpenWrites(writes[..|writes| - 1]) + Open(writes[|writes| - 1])
  }

  // ----- Node lifetimes -----

  /** Only nodes that exist are live, and everything reachable is. */
  ghost predicate Lifetimes(s: State) {
    && (forall n :: n in s.live ==> n < |s.nodes|)
    && (s.admissionTail.Some? ==> s.admissionTail.value in s.live)
    && (forall a :: 0 <= a < |s.admissions| && s.admissions[a].node.Some? ==> s.admissions[a].node.value in s.live)
    && (forall c :: 0 <= c < |s.calls| && s.calls[c].admission.Some? ==> s.calls[c].admission.value in s.live)
    && (forall n :: 0 <= n < |s.nodes| && n in s.live && s.nodes[n].predecessor.Some? ==>
          s.nodes[n].predecessor.value in s.live)
  }

  ghost predicate Counted(s: State) {
    s.admissionCount == |s.live| <= MAX_RESPONSE_GATED_CALLS
  }

  /** The parts about nodes and the order among them. */
  ghost predicate Chain(nodes: seq<Node>, ahead: seq<set<nat>>, admissions: seq<Admission>, calls: seq<Call>) {
    && AdmissionsPoint(admissions, nodes)
    && CallsPoint(calls, nodes)
    && Slots(nodes, admissions)
    && Holders(nodes, calls)
    && Links(nodes, admissions)
    && Ordered(nodes, ahead)
  }

  /** The invariant, up to a tail that still has to be pruned. */
  ghost predicate Core(s: State) {
    && Chain(s.nodes, s.ahead, s.admissions, s.calls)
    && NodeIndex(s.admissionTail, s.nodes)
    && (!s.closed ==> TailReaches(s.nodes, s.admissionTail))
    && Registry(s.active, s.calls)
    && WritesPoint(s.writes, s.calls)
    && PendingPoints(s.pending, s.admissions)
    && ClosedEmpty(s)
    && Conserved(s)
    && s.pendingWrites == OpenWrites(s.writes)
    && Lifetimes(s)
    && Counted(s)
  }

  /** The protocol invariant. */
  ghost predicate Inv(s: State)
    ensures Inv(s) ==> WellFormed(s)
  {
    Core(s) && TailHeld(s.nodes, s.admissions, s.admissionTail)
  }

  lemma InitialInv()
    ensures Inv(Initial())
  {
  }

  // ----- Pruning -----

  lemma {:induction false} LastWaitingReaches(nodes: seq<Node>, tail: Option<nat>, n: nat)
    requires Linked(nodes) && NodeIndex(tail, nodes) && n < |nodes|
    requires forall m :: 0 <= m < |nodes| && (nodes[m].state == Admitted || nodes[m].state == Finished) ==>
               nodes[m].predecessor.None?
    requires nodes[n].state == Waiting && OnTail(nodes, tail, n)
    ensures OnTail(nodes, LastWaiting(nodes, tail), n)
    decreases if tail.Some? then tail.value + 1 else 0
  {
    if nodes[tail.value].state == Skipped {
      LastWaitingReaches(nodes, nodes[tail.value].predecessor, n);
    }
  }

  lemma {:induction false} LastWaitingIsWaiting(nodes: seq<Node>, tail: Option<nat>)
    requires Linked(nodes) && NodeIndex(tail, nodes)
    ensures LastWaiting(nodes, tail).Some? ==> nodes[LastWaiting(nodes, tail).value].state == Waiting
    decreases if tail.Some? then tail.value + 1 else 0
  {
    if tail.Some? && nodes[tail.value].state == Skipped {
      LastWaitingIsWaiting(nodes, nodes[tail.value].predecessor);
    }
  }

  lemma {:induction false} LastWaitingIsLive(nodes: seq<Node>, tail: Option<nat>, live: set<nat>)
    requires Linked(nodes) && NodeIndex(tail, nodes)
    requires tail.Some? ==> tail.value in live
    requires forall n :: 0 <= n < |nodes| && n in live && nodes[n].predecessor.Some? ==>
               nodes[n].predecessor.value in live
    ensures LastWaiting(nodes, tail).Some? ==> LastWaiting(nodes, tail).value in live
    decreases if tail.Some? then tail.value + 1 else 0
  {
    if tail.Some? && nodes[tail.value].state == Skipped {
      LastWaitingIsLive(nodes, nodes[tail.value].predecessor, live);
    }
  }

  lemma PruneKeeps(s: State)
    requires Core(s)
    ensures WellFormed(s) && Inv(Prune(s))
    ensures Prune(s).admissionTail.Some? ==> s.nodes[Prune(s).admissionTail.value].state == Waiting
  {
    LastWaitingIsWaiting(s.nodes, s.admissionTail);
    LastWaitingIsLive(s.nodes, s.admissionTail, s.live);
    if !s.closed {
      forall n | 0 <= n < |s.nodes| && s.nodes[n].state == Waiting
        ensures OnTail(s.nodes, LastWaiting(s.nodes, s.admissionTail), n)
      {
        LastWaitingReaches(s.nodes, s.admissionTail, n);
      }
    }
  }

  // ----- One node changes state -----

  /**
    Changing a node's state keeps the chain facts when no node stops being
    settled. `Slots` and `Holders` are the caller's business.
  */
  lemma StateChangeKeeps(nodes: seq<Node>, nodes': seq<Node>, ahead: seq<set<nat>>, admissions: seq<Admission>)
    requires Links(nodes, admissions) && Ordered(nodes, ahead)
    requires |nodes'| == |nodes| && SameLinks(nodes, nodes')
    requires forall n :: 0 <= n < |nodes| && SettledNode(nodes[n]) ==> SettledNode(nodes'[n])
    requires forall n :: 0 <= n < |nodes| && nodes'[n].state == Waiting ==> nodes[n].state == Waiting
    requires forall n :: 0 <= n < |nodes| && (nodes'[n].state == Admitted || nodes'[n].state == Finished) ==>
               nodes[n].predecessor.None?
    ensures Links(nodes', admissions) && Ordered(nodes', ahead)
    ensures forall tail :: NodeIndex(tail, nodes) && TailReaches(nodes, tail) ==> TailReaches(nodes', tail)
  {
    assert Linked(nodes');
    BehindSameLinksAll(nodes, nodes');
    forall a | 0 <= a < |admissions| ensures Knows(nodes', admissions[a]) {
      assert Knows(nodes, admissions[a]);
    }
    forall tail | NodeIndex(tail, nodes) && TailReaches(nodes, tail) ensures TailReaches(nodes', tail) {
      forall n | 0 <= n < |nodes'| && nodes'[n].state == Waiting ensures OnTail(nodes', tail, n) {
        assert OnTail(nodes, tail, n);
      }
    }
  }

  // ----- Sums over sequences -----

  lemma {:induction false} HeldUpdate(calls: seq<Call>, c: nat, call: Call, d: nat)
    requires c < |calls|
    ensures Held(calls[c := call], d) + One(calls[c].delivery == Some(d)) == Held(calls, d) + One(call.delivery == Some(d))
  {
    var last := |calls| - 1;
    if c < last {
      HeldUpdate(calls[..last], c, call, d);
      assert calls[c := call][..last] == calls[..last][c := call];
    } else {
      assert calls[c := call][..last] == calls[..last];
    }
  }

  lemma HeldAppend(calls: seq<Call>, call: Call, d: nat)
    ensures Held(calls + [call], d) == Held(calls, d) + One(call.delivery == Some(d))
  {
    assert (calls + [call])[..|calls|] == calls;
  }

  lemma {:induction false} TakenUpdate(writes: seq<Write>, w: nat, write: Write, d: nat)
    requires w < |writes|
    ensures TakenBy(writes[w := write], d) + One(InWrite(writes[w], d)) == TakenBy(writes, d) + One(InWrite(write, d))
  {
    var last := |writes| - 1;
    if w < last {
      TakenUpdate(writes[..last], w, write, d);
      assert writes[w := write][..last] == writes[..last][w := write];
    } else {
      assert writes[w := write][..last] == writes[..last];
    }
  }

  lemma {:induction false} OpenUpdate(writes: seq<Write>, w: nat, write: Write)
    requires w < |writes|
    ensures OpenWrites(writes[w := write]) + Open(writes[w]) == OpenWrites(writes) + Open(write)
  {
    var last := |writes| - 1;
    if w < last {
      OpenUpdate(writes[..last], w, write);
      assert writes[w := write][..last] == writes[..last][w := write];
    } else {
      assert writes[w := write][..last] == writes[..last];
    }
  }

  lemma WriteAppend(writes: seq<Write>, write: Write, d: nat)
    requires write.phase.Writing?
    ensures TakenBy(writes + [write], d) == TakenBy(writes, d)
    ensures OpenWrites(writes + [write]) == OpenWrites(writes) + 1
  {
    assert (writes + [write])[..|writes|] == writes;
  }

  lemma SettledAppend(settled: seq<Settlement>, x: Settlement, d: nat)
    ensures TimesSettled(settled + [x], d) == TimesSettled(settled, d) + One(x.delivery == d)
  {
    assert (settled + [x])[..|settled|] == settled;
  }
}
