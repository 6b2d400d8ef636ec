/** What every reachable state of the bridge satisfies. */
module BridgeInvariants {
  import opened Results
  import opened Sequences
  import opened Queues
  import opened Lifecycle
  import opened Bridge

  // ---------------------------------------------------------------- vocabulary

  function Ids(rs: seq<Request>): set<Id> {
    if rs == [] then {} else {rs[0].id} + Ids(rs[1..])
  }

  ghost predicate Distinct(rs: seq<Request>) {
    rs == [] || (rs[0].id !in Ids(rs[1..]) && Distinct(rs[1..]))
  }

  /** The request the worker is responsible for. */
  function Held(w: WorkerPc): Option<Request> {
    if w.Waiting? || w.Exited? then None else Some(w.request)
  }

  /** The request the worker may still hand to the transport. */
  function Pending(w: WorkerPc): seq<Request> {
    if w.Popped? || w.Lookup? || w.TestStop? || w.TestGeneration? || w.Activate? || w.Execute? then [w.request] else []
  }

  /** The identifier an unfinished `enqueue` has put into the known set. */
  function MidKnown(e: EnginePc): set<Id> {
    if e.Register? || e.Push? || e.Unregister? || e.Forget? then {e.request.id} else {}
  }

  /** The identifier an unfinished `enqueue` has registered. */
  function MidRegistered(e: EnginePc): set<Id> {
    if e.Push? || e.Unregister? then {e.request.id} else {}
  }

  /** `cancelGeneration` has stopped generation `g` and not yet moved past it. */
  predicate Cancelling(e: EnginePc, g: nat) {
    (e.GenerationOutbound? || e.GenerationInbound? || e.GenerationInterrupt? || e.GenerationBump?) && e.target == g
  }

  /** Publications of one sort for one request. */
  function Count(ps: seq<Publication>, id: Id, cancellation: bool): nat {
    if ps == [] then 0
    else
      (if ps[0].result.request == id && ps[0].cancellation == cancellation then 1 else 0)
      + Count(ps[1..], id, cancellation)
  }

  /** Cancelled results published for `id`, or already owed by one of the two threads. */
  function Claims(s: State, id: Id): nat {
    Count(s.published, id, true)
    + (if s.engine.CancelPush? && s.engine.request.id == id then 1 else 0)
    + (if s.worker.PushCancel? && s.worker.request.id == id then 1 else 0)
  }

  /**
    How much of the window the trace has seen for `id`, in this order: the worker samples "not stopped", `cancel` stops
    the request, `cancel` enters it into the ledger, the worker erases the active entry.
   */
  function Window(trace: seq<Event>, id: Id): nat {
    if trace == [] then 0
    else
      var w := Window(trace[..|trace| - 1], id);
      var e := trace[|trace| - 1];
      if w == 0 && e == Sampled(id, false) then 1
      else if w == 1 && e == CancelStopped(id) then 2
      else if w == 2 && e == CancelLedgered(id) then 3
      else if w == 3 && e == Erased(id) then 4
      else w
  }

  /** An accepted request the result belongs to. */
  ghost predicate From(accepted: seq<Request>, result: InboundResult) {
    exists r :: r in accepted && r.id == result.request && r.generation == result.generation
  }

  // ---------------------------------------------------------------- the invariant, by topic

  ghost predicate Phases(s: State) {
    && (s.halted ==> s.engine.Idle? || s.engine.PollDrain? || s.engine.PollFilter? || InHalt(s.engine))
    && (InHalt(s.engine) ==> s.halted)
    && (s.engine.Insert? || s.engine.Register? || s.engine.Push? || s.engine.Unregister? || s.engine.Forget? ==>
          s.engine.request.generation == s.generation && IsCanonicalUuid(s.engine.request.id))
    && (InCancelGeneration(s.engine) && !s.engine.GenerationCheck? ==> s.engine.target == s.generation)
    && (s.worker.Exited? ==> s.halted)
    && (s.outbound.closed ==> s.halted)
    && (s.engine.HaltClearInbound? || s.engine.HaltCloseInbound? || s.engine.HaltTables? ==> s.worker.Exited?)
    && (s.halted && !InHalt(s.engine) ==> s.worker.Exited? && s.inbound.Items() == [])
    && (s.engine.HaltCloseInbound? || s.engine.HaltTables? ==> s.inbound.Items() == [])
    && WithinCapacity(s.outbound, OUTBOUND_CAPACITY, RESERVED_CONTROL) && s.outbound.controls == []
    && WithinCapacity(s.inbound, INBOUND_CAPACITY, RESERVED_CONTROL)
  }

  ghost predicate Tables(s: State) {
    && (!s.halted ==> s.known == Ids(s.accepted) + MidKnown(s.engine))
    && MidKnown(s.engine) !! Ids(s.accepted)
    && s.active == (if s.worker.Execute? || s.worker.Sample? || s.worker.Erase?
                    then map[s.worker.request.id := s.worker.request] else map[])
  }

  ghost predicate Order(s: State) {
    && Subsequence(s.executed + Pending(s.worker) + s.outbound.normals, s.accepted)
    && Distinct(s.accepted)
    && Distinct(s.outbound.normals)
    && (forall r :: r in s.outbound.normals ==> r in s.accepted)
    && (Held(s.worker).Some? ==>
          Held(s.worker).value in s.accepted && Held(s.worker).value.id !in Ids(s.outbound.normals))
  }

  ghost predicate Generations(s: State) {
    && (forall r :: r in s.accepted ==> r.generation <= s.generation)
    && (!s.halted ==> forall r :: r in s.outbound.normals ==> r.generation == s.generation)
    && (s.engine.GenerationInbound? || s.engine.GenerationInterrupt? || s.engine.GenerationBump? ==>
        s.outbound.normals == [])
  }

  ghost predicate Registered(s: State, id: Id, generation: nat) {
    id in s.registry.entries && s.registry.entries[id].generation == generation
  }

  /** The token the worker holds is the one registered for its request. */
  ghost predicate TokenHeld(s: State) {
    && (Held(s.worker).Some? ==> Registered(s, Held(s.worker).value.id, Held(s.worker).value.generation))
    && (s.worker.TestStop? ==> s.worker.token == Some(s.registry.entries[s.worker.request.id].source))
    && (s.worker.TestGeneration? || s.worker.Activate? || s.worker.Execute? || s.worker.Sample? ==>
          s.worker.source == s.registry.entries[s.worker.request.id].source)
  }

  ghost predicate Accounted(s: State, id: Id)
    requires id in s.registry.entries
  {
    || id in Ids(s.outbound.normals)
    || (Held(s.worker).Some? && Held(s.worker).value.id == id)
    || id in MidRegistered(s.engine)
    || (s.registry.Stopped(id)
        && (s.registry.entries[id].generation < s.generation
            || Cancelling(s.engine, s.registry.entries[id].generation)))
  }

  /** Who may be registered, and who has to be. */
  ghost predicate Entries(s: State) {
    && s.registry.Consistent()
    && s.registry.entries.Keys <= Ids(s.accepted) + MidRegistered(s.engine)
    && (forall id :: id in s.registry.entries ==> s.registry.entries[id].generation <= s.generation)
    && (forall r :: r in s.outbound.normals ==> Registered(s, r.id, r.generation))
    && (s.engine.Push? || s.engine.Unregister? ==> Registered(s, s.engine.request.id, s.engine.request.generation))
  }

  ghost predicate AllAccounted(s: State) {
    !s.halted ==> forall id :: id in s.registry.entries ==> Accounted(s, id)
  }

  /** What the engine has stopped stays stopped. */
  ghost predicate StopsHold(s: State) {
    && (s.engine.CancelLedger? && s.engine.id in s.registry.entries ==> s.registry.Stopped(s.engine.id))
    && (InCancelGeneration(s.engine) && !s.engine.GenerationCheck? && !s.engine.GenerationStop? ==>
          forall id :: id in s.registry.entries && s.registry.entries[id].generation == s.generation ==>
            s.registry.Stopped(id))
  }

  ghost predicate Accounting(s: State) {
    Entries(s) && TokenHeld(s) && AllAccounted(s) && StopsHold(s)
  }

  /** Nothing has been published, owed or observed for this identifier. */
  ghost predicate Fresh(s: State, id: Id) {
    Claims(s, id) == 0 && Count(s.published, id, false) == 0 && id !in s.ledger && Window(s.trace, id) == 0
  }

  /** The worker holds a request it has not started, cancelled or refused. */
  predicate Unstarted(w: WorkerPc) {
    w.Popped? || w.Lookup? || w.TestStop? || w.ClaimCancel? || w.TestGeneration? || w.Activate?
  }

  /** From activation to the decision what to publish. */
  predicate Running(w: WorkerPc) {
    w.Execute? || AfterExecute(w)
  }

  ghost predicate RunningInv(s: State)
    requires Running(s.worker)
  {
    var id := s.worker.request.id;
    var w := s.worker;
    && Count(s.published, id, false) == 0
    && Claims(s, id) == (if id in s.ledger then 1 else 0)
    && (s.engine == CancelLedger(id) || id in s.ledger ==> id in s.registry.entries && s.registry.Stopped(id))
    && (w.Execute? || w.Sample? || ((w.Erase? || w.Decide?) && w.sampled) ==> Window(s.trace, id) == 0)
    && (w.Erase? && !w.sampled ==>
          && (Window(s.trace, id) == 1 || Window(s.trace, id) == 2 || Window(s.trace, id) == 3)
          && (Window(s.trace, id) == 3 <==> id in s.ledger)
          && (Window(s.trace, id) == 2 <==> s.engine == CancelLedger(id)))
    && ((w.Decide? && !w.sampled) || w.Fallback? || w.PushOutcome? ==>
          && Window(s.trace, id) != 3
          && (Window(s.trace, id) == 4 <==> id in s.ledger))
    && (w.Erase? || w.Decide? ==> (w.sampled ==> id in s.registry.entries && s.registry.Stopped(id)))
    && (w.Decide? ==> (w.already <==> id in s.ledger))
    && (w.PushOutcome? ==> w.result.request == id && w.result.generation == w.request.generation)
  }

  ghost predicate Settled(s: State, id: Id) {
    && Claims(s, id) <= 1
    && Count(s.published, id, false) <= 1
    && (Count(s.published, id, false) == 1 ==> (Claims(s, id) == 1 <==> Window(s.trace, id) == 4))
  }

  ghost predicate Untouched(s: State, id: Id) {
    id !in Ids(s.accepted) || id in Ids(s.outbound.normals) || (Unstarted(s.worker) && s.worker.request.id == id)
  }

  ghost predicate Publications(s: State) {
    && (forall id :: Untouched(s, id) ==> Fresh(s, id))
    && (forall id :: Settled(s, id))
    && (Running(s.worker) ==> RunningInv(s))
    && (s.worker.PushCancel? ==> Count(s.published, s.worker.request.id, false) == 0)
    && (s.engine.CancelPush? ==> From(s.accepted, CancelledResult(s.engine.request)))
  }

  /** Every accepted request of the live generation is waiting, held, or has a result. */
  ghost predicate Answered(s: State, r: Request) {
    || r.id in Ids(s.outbound.normals)
    || (Held(s.worker).Some? && Held(s.worker).value.id == r.id && !s.worker.Complete?)
    || Claims(s, r.id) + Count(s.published, r.id, false) >= 1
    || r.generation < s.generation
    || Cancelling(s.engine, r.generation)
  }

  ghost predicate NothingLost(s: State) {
    !s.halted ==> forall r :: r in s.accepted ==> Answered(s, r)
  }

  /** What is on its way to `poll`, or already delivered, was published and belongs to an accepted request. */
  function InTransit(s: State): seq<Publication> {
    s.polled + (if s.engine.PollFilter? then s.engine.items else []) + s.inbound.Items()
  }

  ghost predicate Delivery(s: State) {
    && (forall id, c :: Count(InTransit(s), id, c) <= Count(s.published, id, c))
    && (forall p :: p in s.published ==> From(s.accepted, p.result))
    && (forall p :: p in InTransit(s) ==> p in s.published)
  }

  ghost predicate Inv(s: State) {
    && Phases(s)
    && Tables(s)
    && Order(s)
    && Generations(s)
    && Accounting(s)
    && Publications(s)
    && NothingLost(s)
    && Delivery(s)
  }

  // ---------------------------------------------------------------- facts about the vocabulary

  lemma {:induction false} IdsOf(rs: seq<Request>)
    ensures forall r :: r in rs ==> r.id in Ids(rs)
  {
    if rs != [] {
      IdsOf(rs[1..]);
      assert rs == [rs[0]] + rs[1..];
    }
  }

  lemma {:induction false} IdWitness(rs: seq<Request>, id: Id) returns (r: Request)
    requires id in Ids(rs)
    ensures r in rs && r.id == id
  {
    if rs[0].id == id {
      r := rs[0];
    } else {
      r := IdWitness(rs[1..], id);
    }
  }

  lemma {:induction false} IdsAppend(a: seq<Request>, b: seq<Request>)
    ensures Ids(a + b) == Ids(a) + Ids(b)
  {
    if a == [] {
      assert a + b == b;
    } else {
      assert (a + b)[1..] == a[1..] + b;
      IdsAppend(a[1..], b);
    }
  }

  lemma {:induction false} DistinctAppend(a: seq<Request>, r: Request)
    requires Distinct(a) && r.id !in Ids(a)
    ensures Distinct(a + [r])
  {
    if a != [] {
      assert (a + [r])[1..] == a[1..] + [r];
      DistinctAppend(a[1..], r);
      IdsAppend(a[1..], [r]);
    }
  }

  lemma {:induction false} SameId(rs: seq<Request>, a: Request, b: Request)
    requires Distinct(rs) && a in rs && b in rs && a.id == b.id
    ensures a == b
  {
    IdsOf(rs[1..]);
    assert rs == [rs[0]] + rs[1..];
    if a in rs[1..] && b in rs[1..] {
      SameId(rs[1..], a, b);
    }
  }

  lemma {:induction false} SubsequenceDistinct(a: seq<Request>, b: seq<Request>)
    requires Subsequence(a, b) && Distinct(b)
    ensures Distinct(a) && Ids(a) <= Ids(b)
    decreases |b|
  {
    if a != [] {
      if a[0] == b[0] && Subsequence(a[1..], b[1..]) {
        SubsequenceDistinct(a[1..], b[1..]);
      } else {
        SubsequenceDistinct(a, b[1..]);
      }
    }
  }

  lemma {:induction false} DistinctSuffix(a: seq<Request>, b: seq<Request>)
    requires Distinct(a + b)
    ensures Distinct(a) && Distinct(b) && Ids(a) !! Ids(b)
  {
    if a == [] {
      assert a + b == b;
    } else {
      assert (a + b)[1..] == a[1..] + b;
      DistinctSuffix(a[1..], b);
      IdsAppend(a[1..], b);
    }
  }

  lemma {:induction false} FilterIds(rs: seq<Request>, keep: Request -> bool)
    ensures Ids(Filter(rs, keep)) <= Ids(rs)
    ensures Distinct(rs) ==> Distinct(Filter(rs, keep))
  {
    if rs != [] {
      FilterIds(rs[1..], keep);
    }
  }

  lemma {:induction false} CountAppend(a: seq<Publication>, b: seq<Publication>, id: Id, c: bool)
    ensures Count(a + b, id, c) == Count(a, id, c) + Count(b, id, c)
  {
    if a == [] {
      assert a + b == b;
    } else {
      assert (a + b)[1..] == a[1..] + b;
      CountAppend(a[1..], b, id, c);
    }
  }

  lemma {:induction false} CountFilter(ps: seq<Publication>, keep: Publication -> bool, id: Id, c: bool)
    ensures Count(Filter(ps, keep), id, c) <= Count(ps, id, c)
  {
    if ps != [] {
      CountFilter(ps[1..], keep, id, c);
    }
  }

  lemma {:induction false} CountAbsent(ps: seq<Publication>, id: Id, c: bool)
    requires forall p :: p in ps ==> p.result.request != id
    ensures Count(ps, id, c) == 0
  {
    if ps != [] {
      CountAbsent(ps[1..], id, c);
    }
  }

  lemma WindowStep(trace: seq<Event>, e: Event, id: Id)
    ensures Window(trace + [e], id) ==
            var w := Window(trace, id);
            if w == 0 && e == Sampled(id, false) then 1
            else if w == 1 && e == CancelStopped(id) then 2
            else if w == 2 && e == CancelLedgered(id) then 3
            else if w == 3 && e == Erased(id) then 4
            else w
  {
    assert (trace + [e])[..|trace|] == trace;
  }

  lemma CanonicalNotEmpty(s: string)
    requires IsCanonicalUuid(s)
    ensures s != ""
  {
  }

  lemma StopEffect(r: Registry, ids: set<Id>)
    requires r.Consistent() && ids <= r.entries.Keys
    ensures r.Stop(ids).Consistent() && r.Stop(ids).entries == r.entries
    ensures forall id :: id in r.entries ==> (r.Stop(ids).Stopped(id) <==> r.Stopped(id) || id in ids)
    ensures r.requested <= r.Stop(ids).requested
  {
  }
}
