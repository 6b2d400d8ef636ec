/** Every step of the worker keeps the invariant. */
module BridgeWorker {
  import opened Results
  import opened Sequences
  import opened Queues
  import opened Lifecycle
  import opened Bridge
  import opened BridgeInvariants
  import opened BridgeSteps

  // ---------------------------------------------------------------- taking a request

  /** The worker pops the oldest queued request. */
  ghost predicate Takes(s: State, s': State) {
    && s.worker.Waiting? && s.outbound.normals != [] && s.outbound.controls == []
    && s' == s.(outbound := s'.outbound, worker := Popped(s.outbound.normals[0]))
    && s'.outbound == Lanes([], s.outbound.normals[1..], s.outbound.closed)
  }

  lemma TakeOrder(s: State, s': State)
    requires Order(s) && Takes(s, s')
    ensures Order(s')
  {
    var all := s.outbound.normals;
    assert s.executed + [] + all == s.executed + [all[0]] + all[1..];
    assert all == [all[0]] + all[1..];
  }

  lemma TakeAccounting(s: State, s': State)
    requires Accounting(s) && Takes(s, s')
    ensures Accounting(s')
  {
    forall id | id in s'.registry.entries && !s'.halted ensures Accounted(s', id) {
      assert Accounted(s, id);
    }
  }

  lemma TakePublications(s: State, s': State)
    requires Publications(s) && Takes(s, s')
    ensures Publications(s')
  {
    forall id | Untouched(s', id) ensures Fresh(s', id) {
      assert Untouched(s, id);
    }
    forall id ensures Settled(s', id) {
      assert Settled(s, id);
    }
  }

  lemma TakeNothingLost(s: State, s': State)
    requires NothingLost(s) && Takes(s, s')
    ensures NothingLost(s')
  {
    forall r | r in s'.accepted && !s'.halted ensures Answered(s', r) {
      assert Answered(s, r);
    }
  }

  lemma TakeRest(s: State, s': State)
    requires Phases(s) && Tables(s) && Generations(s) && Takes(s, s')
    ensures Phases(s') && Tables(s') && Generations(s')
  {
  }

  lemma TakeDelivery(s: State, s': State)
    requires Delivery(s) && Takes(s, s')
    ensures Delivery(s')
  {
    assert InTransit(s') == InTransit(s);
  }

  lemma KeepsTake(s: State, s': State)
    requires Inv(s) && Takes(s, s')
    ensures Inv(s')
  {
    hide Phases, Tables, Order, Generations, Accounting, Publications, NothingLost, Delivery;
    TakeRest(s, s');
    TakeOrder(s, s');
    TakeAccounting(s, s');
    TakePublications(s, s');
    TakeNothingLost(s, s');
    TakeDelivery(s, s');
  }

  // ---------------------------------------------------------------- moving on with the same request

  /** The worker changes its counter, and at most the ledger, the active table and the trace, keeping its request. */
  ghost predicate Moves(s: State, s': State) {
    && Held(s.worker).Some? && Held(s'.worker) == Held(s.worker)
    && (Pending(s'.worker) == Pending(s.worker) || Pending(s'.worker) == [])
    && s' == s.(worker := s'.worker, ledger := s'.ledger, active := s'.active, trace := s'.trace)
  }

  lemma MoveOrder(s: State, s': State)
    requires Order(s) && Moves(s, s')
    ensures Order(s')
  {
    if Pending(s'.worker) != Pending(s.worker) {
      var rest := s.outbound.normals;
      DropMiddle(s.executed, s.worker.request, rest);
      assert s.executed + [] + rest == s.executed + rest;
      SubsequenceTrans(s.executed + rest, s.executed + [s.worker.request] + rest, s.accepted);
    }
  }

  lemma MoveAccounting(s: State, s': State)
    requires Accounting(s) && Moves(s, s') && TokenHeld(s')
    ensures Accounting(s')
  {
    forall id | id in s'.registry.entries && !s'.halted ensures Accounted(s', id) {
      assert Accounted(s, id);
    }
  }

  lemma MoveNothingLost(s: State, s': State)
    requires NothingLost(s) && Moves(s, s')
    requires !s.worker.PushCancel? && !s.worker.Complete?
    requires s'.worker.Complete? && !s'.halted ==> Answered(s', s'.worker.request)
    requires Held(s.worker).value in s.accepted && Distinct(s.accepted)
    ensures NothingLost(s')
  {
    forall r | r in s'.accepted && !s'.halted ensures Answered(s', r) {
      assert Answered(s, r);
      if r.id == s.worker.request.id {
        SameId(s.accepted, r, s.worker.request);
      }
    }
  }

  lemma MoveDelivery(s: State, s': State)
    requires Delivery(s) && Moves(s, s')
    ensures Delivery(s')
  {
    assert InTransit(s') == InTransit(s);
  }

  lemma MoveRest(s: State, s': State)
    requires Phases(s) && Generations(s) && Moves(s, s')
    ensures Phases(s') && Generations(s')
  {
  }

  /** All but what is specific to one step: the tables, the token and the publications. */
  lemma KeepsMove(s: State, s': State)
    requires Inv(s) && Moves(s, s') && Tables(s') && TokenHeld(s') && Publications(s')
    requires !s.worker.PushCancel? && !s.worker.Complete?
    requires s'.worker.Complete? && !s'.halted ==> Answered(s', s'.worker.request)
    ensures Inv(s')
  {
    HeldAccepted(s);
    hide Phases, Tables, Order, Generations, Accounting, Publications, NothingLost, Delivery, TokenHeld, Distinct,
         Answered;
    MoveRest(s, s');
    MoveOrder(s, s');
    MoveAccounting(s, s');
    MoveNothingLost(s, s');
    MoveDelivery(s, s');
  }

  lemma HeldAccepted(s: State)
    requires Order(s)
    ensures Distinct(s.accepted)
    ensures Held(s.worker).Some? ==> Held(s.worker).value in s.accepted
                                     && Held(s.worker).value.id !in Ids(s.outbound.normals)
  {
  }

  // ---------------------------------------------------------------- publications, one identifier at a time

  lemma PrepareOne(s: State, s': State, id: Id)
    requires Settled(s, id) && (Untouched(s, id) ==> Fresh(s, id)) && Moves(s, s')
    requires s'.trace == s.trace && s'.ledger == s.ledger
    requires Unstarted(s.worker) && !s'.worker.PushCancel?
    ensures Settled(s', id) && (Untouched(s', id) ==> Fresh(s', id))
  {
  }

  lemma PreparePublications(s: State, s': State)
    requires Publications(s) && Moves(s, s') && s'.trace == s.trace && s'.ledger == s.ledger
    requires Unstarted(s.worker) && !s'.worker.PushCancel? && !Running(s'.worker)
    ensures Publications(s')
  {
    hide Settled, Fresh, Untouched;
    forall id ensures Settled(s', id) && (Untouched(s', id) ==> Fresh(s', id)) {
      PrepareOne(s, s', id);
    }
  }

  lemma ActivatePublications(s: State, s': State)
    requires Publications(s) && Moves(s, s') && s'.trace == s.trace && s'.ledger == s.ledger
    requires s.worker.Activate? && s'.worker.Execute?
    requires s.engine.CancelLedger? && s.engine.id in s.registry.entries ==> s.registry.Stopped(s.engine.id)
    requires s.worker.request.id in s.registry.entries
    ensures Publications(s')
  {
    hide Settled, Fresh, Untouched, RunningInv;
    forall id ensures Settled(s', id) && (Untouched(s', id) ==> Fresh(s', id)) {
      PrepareOne(s, s', id);
    }
    ActivateRunning(s, s');
  }

  lemma ActivateRunning(s: State, s': State)
    requires Publications(s) && Moves(s, s') && s'.trace == s.trace && s'.ledger == s.ledger
    requires s.worker.Activate? && s'.worker.Execute?
    requires s.engine.CancelLedger? && s.engine.id in s.registry.entries ==> s.registry.Stopped(s.engine.id)
    requires s.worker.request.id in s.registry.entries
    ensures RunningInv(s')
  {
    assert Untouched(s, s.worker.request.id);
    assert Fresh(s, s.worker.request.id);
  }

  lemma ClaimOne(s: State, s': State, id: Id)
    requires Settled(s, id) && (Untouched(s, id) ==> Fresh(s, id)) && Moves(s, s')
    requires s.worker.ClaimCancel? && s'.worker.PushCancel?
    requires s'.trace == s.trace && s'.ledger == s.ledger + {s.worker.request.id}
    requires s.worker.request.id in Ids(s.accepted) && s.worker.request.id !in Ids(s.outbound.normals)
    ensures Settled(s', id) && (Untouched(s', id) ==> Fresh(s', id))
  {
    assert Unstarted(s.worker);
  }

  lemma ClaimPublications(s: State, s': State)
    requires Publications(s) && Moves(s, s') && s.worker.ClaimCancel? && s'.worker.PushCancel?
    requires s'.trace == s.trace && s'.ledger == s.ledger + {s.worker.request.id}
    requires s.worker.request.id in Ids(s.accepted) && s.worker.request.id !in Ids(s.outbound.normals)
    ensures Publications(s')
  {
    assert Fresh(s, s.worker.request.id) by {
      assert Untouched(s, s.worker.request.id);
    }
    hide Settled, Untouched;
    forall id ensures Settled(s', id) && (Untouched(s', id) ==> Fresh(s', id)) {
      ClaimOne(s, s', id);
    }
  }

  // ---------------------------------------------------------------- sampling, erasing, deciding

  /** A running request stays running: other identifiers see only an event that is not theirs. */
  lemma RunOne(s: State, s': State, e: Event, id: Id)
    requires Settled(s, id) && (Untouched(s, id) ==> Fresh(s, id)) && Moves(s, s') && s'.ledger == s.ledger
    requires Running(s.worker) && !s'.worker.PushCancel? && !Unstarted(s'.worker)
    requires s'.trace == s.trace || (s'.trace == s.trace + [e] && e.id == s.worker.request.id)
    requires id != s.worker.request.id || s'.trace == s.trace || Count(s.published, id, false) == 0
    requires s.worker.request.id in Ids(s.accepted) && s.worker.request.id !in Ids(s.outbound.normals)
    ensures Settled(s', id) && (Untouched(s', id) ==> Fresh(s', id))
  {
    if s'.trace == s.trace + [e] {
      WindowStep(s.trace, e, id);
    }
  }

  lemma RunPublications(s: State, s': State, e: Event)
    requires Publications(s) && Moves(s, s') && s'.ledger == s.ledger
    requires Running(s.worker) && !s'.worker.PushCancel? && !Unstarted(s'.worker)
    requires s'.trace == s.trace || (s'.trace == s.trace + [e] && e.id == s.worker.request.id)
    requires s.worker.request.id in Ids(s.accepted) && s.worker.request.id !in Ids(s.outbound.normals)
    requires Running(s'.worker) ==> RunningInv(s')
    ensures Publications(s')
  {
    assert Count(s.published, s.worker.request.id, false) == 0;
    hide Settled, Fresh, Untouched, RunningInv;
    forall id ensures Settled(s', id) && (Untouched(s', id) ==> Fresh(s', id)) {
      RunOne(s, s', e, id);
    }
  }

  lemma SampleRunning(s: State, s': State)
    requires s.worker.Sample? && RunningInv(s) && Moves(s, s') && s'.ledger == s.ledger
    requires Registered(s, s.worker.request.id, s.worker.request.generation)
    requires s.worker.source == s.registry.entries[s.worker.request.id].source
    requires s'.worker == Erase(s.worker.request, s.worker.response, s.worker.source in s.registry.requested)
    requires s'.trace == s.trace + [Sampled(s.worker.request.id, s.worker.source in s.registry.requested)]
    ensures RunningInv(s')
  {
    WindowStep(s.trace, Sampled(s.worker.request.id, s.worker.source in s.registry.requested), s.worker.request.id);
  }

  lemma EraseRunning(s: State, s': State)
    requires s.worker.Erase? && RunningInv(s) && Moves(s, s') && s'.ledger == s.ledger
    requires s'.worker == Decide(s.worker.request, s.worker.response, s.worker.sampled, s.worker.request.id in s.ledger)
    requires s'.trace == s.trace + [Erased(s.worker.request.id)]
    ensures RunningInv(s')
  {
    WindowStep(s.trace, Erased(s.worker.request.id), s.worker.request.id);
  }

  lemma DecideRunning(s: State, s': State)
    requires (s.worker.Decide? && !s.worker.sampled) || s.worker.Fallback?
    requires RunningInv(s) && Moves(s, s') && s'.ledger == s.ledger && s'.trace == s.trace
    requires s'.worker.Fallback? || s'.worker.PushOutcome?
    requires s'.worker.PushOutcome? ==>
               s'.worker.result.request == s.worker.request.id
               && s'.worker.result.generation == s.worker.request.generation
    ensures RunningInv(s')
  {
  }

  lemma OwePublications(s: State, s': State)
    requires Publications(s) && Moves(s, s') && s'.ledger == s.ledger && s'.trace == s.trace
    requires s.worker.Decide? && s.worker.sampled && !s.worker.already && s'.worker.PushCancel?
    requires s.worker.request.id in Ids(s.accepted) && s.worker.request.id !in Ids(s.outbound.normals)
    ensures Publications(s')
  {
    forall id ensures Settled(s', id) && (Untouched(s', id) ==> Fresh(s', id)) {
      assert Settled(s, id) && (Untouched(s, id) ==> Fresh(s, id));
    }
  }

  // ---------------------------------------------------------------- publishing

  /** The worker publishes one result for its request and is left with completing it. */
  ghost predicate Publishes(s: State, s': State, result: InboundResult, cancellation: bool) {
    && (s.worker.PushCancel? || s.worker.PushOutcome?) && cancellation == s.worker.PushCancel?
    && result.request == s.worker.request.id && result.generation == s.worker.request.generation
    && s' == Publish(s, result, cancellation).(worker := Complete(s.worker.request))
  }

  lemma PublishPhases(s: State, s': State, result: InboundResult, cancellation: bool)
    requires Phases(s) && Publishes(s, s', result, cancellation)
    ensures Phases(s')
  {
  }

  /** What publishing leaves alone. */
  lemma PublishFrame(s: State, s': State, result: InboundResult, cancellation: bool)
    requires Publishes(s, s', result, cancellation)
    ensures s'.halted == s.halted && s'.generation == s.generation && s'.known == s.known && s'.active == s.active
    ensures s'.ledger == s.ledger && s'.registry == s.registry && s'.outbound == s.outbound && s'.engine == s.engine
    ensures s'.accepted == s.accepted && s'.executed == s.executed && s'.polled == s.polled && s'.trace == s.trace
    ensures s'.worker == Complete(s.worker.request) && Held(s'.worker) == Held(s.worker)
    ensures Pending(s'.worker) == Pending(s.worker) == []
  {
  }

  lemma PublishTables(s: State, s': State, result: InboundResult, cancellation: bool)
    requires Tables(s) && Order(s) && Generations(s) && Publishes(s, s', result, cancellation)
    ensures Tables(s') && Order(s') && Generations(s')
  {
    PublishFrame(s, s', result, cancellation);
    hide Publish, Ids, Distinct, Subsequence;
  }

  lemma PublishAccounting(s: State, s': State, result: InboundResult, cancellation: bool)
    requires Accounting(s) && Publishes(s, s', result, cancellation)
    ensures Accounting(s')
  {
    PublishFrame(s, s', result, cancellation);
    hide Publishes, Publish, Ids;
    forall id | id in s'.registry.entries && !s'.halted ensures Accounted(s', id) {
      assert Accounted(s, id);
    }
  }

  lemma PublishOne(s: State, s': State, result: InboundResult, cancellation: bool, id: Id)
    requires Settled(s, id) && (Untouched(s, id) ==> Fresh(s, id)) && Publishes(s, s', result, cancellation)
    requires s.worker.PushOutcome? ==> RunningInv(s)
    requires s.worker.PushCancel? ==> Count(s.published, s.worker.request.id, false) == 0
    requires s.worker.request.id in Ids(s.accepted) && s.worker.request.id !in Ids(s.outbound.normals)
    ensures Settled(s', id) && (Untouched(s', id) ==> Fresh(s', id))
  {
    PublishCount(s, result, cancellation, id, true);
    PublishCount(s, result, cancellation, id, false);
  }

  lemma PublishPublications(s: State, s': State, result: InboundResult, cancellation: bool)
    requires Publications(s) && Publishes(s, s', result, cancellation)
    requires s.worker.request.id in Ids(s.accepted) && s.worker.request.id !in Ids(s.outbound.normals)
    ensures Publications(s')
  {
    hide Settled, Fresh, Untouched, RunningInv;
    forall id ensures Settled(s', id) && (Untouched(s', id) ==> Fresh(s', id)) {
      PublishOne(s, s', result, cancellation, id);
    }
  }

  lemma PublishNothingLost(s: State, s': State, result: InboundResult, cancellation: bool)
    requires NothingLost(s) && Publishes(s, s', result, cancellation)
    ensures NothingLost(s')
  {
    forall r | r in s'.accepted && !s'.halted ensures Answered(s', r) {
      assert Answered(s, r);
      PublishCount(s, result, cancellation, r.id, true);
      PublishCount(s, result, cancellation, r.id, false);
    }
  }

  lemma KeepsPublish(s: State, s': State, result: InboundResult, cancellation: bool)
    requires Inv(s) && Publishes(s, s', result, cancellation)
    ensures Inv(s')
  {
    HeldAccepted(s);
    IdsOf(s.accepted);
    assert From(s.accepted, result);
    hide Phases, Tables, Order, Generations, Accounting, Publications, NothingLost, Delivery;
    PublishPhases(s, s', result, cancellation);
    PublishTables(s, s', result, cancellation);
    PublishAccounting(s, s', result, cancellation);
    PublishPublications(s, s', result, cancellation);
    PublishNothingLost(s, s', result, cancellation);
    PublishDelivery(s, s', result, cancellation);
  }

  // ---------------------------------------------------------------- executing, completing, leaving

  lemma ExecuteOrder(s: State, response: Result<InboundResult>)
    requires Order(s) && s.worker.Execute?
    ensures Order(StepExecute(s, response))
  {
    var s' := StepExecute(s, response);
    assert s'.executed + [] + s'.outbound.normals == s.executed + [s.worker.request] + s.outbound.normals;
  }

  lemma ExecuteRest(s: State, response: Result<InboundResult>)
    requires Phases(s) && Tables(s) && Generations(s) && s.worker.Execute?
    ensures Phases(StepExecute(s, response)) && Tables(StepExecute(s, response))
    ensures Generations(StepExecute(s, response))
  {
  }

  lemma ExecuteAccounting(s: State, response: Result<InboundResult>)
    requires Accounting(s) && s.worker.Execute?
    ensures Accounting(StepExecute(s, response))
  {
    var s' := StepExecute(s, response);
    forall id | id in s'.registry.entries && !s'.halted ensures Accounted(s', id) {
      assert Accounted(s, id);
    }
  }

  lemma ExecutePublications(s: State, response: Result<InboundResult>)
    requires Publications(s) && s.worker.Execute?
    ensures Publications(StepExecute(s, response))
  {
    var s' := StepExecute(s, response);
    forall id ensures Settled(s', id) && (Untouched(s', id) ==> Fresh(s', id)) {
      assert Settled(s, id) && (Untouched(s, id) ==> Fresh(s, id));
    }
  }

  lemma ExecuteTail(s: State, response: Result<InboundResult>)
    requires NothingLost(s) && Delivery(s) && s.worker.Execute?
    ensures NothingLost(StepExecute(s, response)) && Delivery(StepExecute(s, response))
  {
    var s' := StepExecute(s, response);
    assert InTransit(s') == InTransit(s);
    forall r | r in s'.accepted && !s'.halted ensures Answered(s', r) {
      assert Answered(s, r);
    }
  }

  lemma KeepsExecute(s: State, response: Result<InboundResult>)
    requires Inv(s) && s.worker.Execute?
    ensures Inv(StepExecute(s, response))
  {
    hide Phases, Tables, Order, Generations, Accounting, Publications, NothingLost, Delivery;
    ExecuteRest(s, response);
    ExecuteOrder(s, response);
    ExecuteAccounting(s, response);
    ExecutePublications(s, response);
    ExecuteTail(s, response);
  }

  /** The worker drops its request: completed, or abandoned because the bridge is halted. */
  ghost predicate Leaves(s: State, s': State) {
    || (s.worker.Complete? && s' == s.(registry := s.registry.Complete(s.worker.request.id), worker := Waiting))
    || ((s.worker.Popped? || (s.worker.Waiting? && s.outbound.normals == [])) && s.halted && s' == s.(worker := Exited))
  }

  lemma LeaveRest(s: State, s': State)
    requires Phases(s) && Tables(s) && Generations(s) && Leaves(s, s')
    ensures Phases(s') && Tables(s') && Generations(s')
  {
  }

  lemma LeaveOrder(s: State, s': State)
    requires Order(s) && Leaves(s, s')
    ensures Order(s')
  {
    if s.worker.Popped? {
      var rest := s.outbound.normals;
      DropMiddle(s.executed, s.worker.request, rest);
      assert s.executed + [] + rest == s.executed + rest;
      SubsequenceTrans(s.executed + rest, s.executed + [s.worker.request] + rest, s.accepted);
    }
  }

  lemma LeaveEntries(s: State, s': State)
    requires Entries(s) && TokenHeld(s) && StopsHold(s) && Leaves(s, s')
    requires Held(s.worker).Some? ==> Held(s.worker).value.id !in Ids(s.outbound.normals)
                                      && Held(s.worker).value.id !in MidRegistered(s.engine)
    requires forall r :: r in s.outbound.normals ==> r.id in Ids(s.outbound.normals)
    ensures Entries(s') && TokenHeld(s') && StopsHold(s')
  {
    hide Ids;
  }

  lemma LeaveAccounting(s: State, s': State)
    requires Accounting(s) && Leaves(s, s')
    requires Held(s.worker).Some? ==> Held(s.worker).value.id !in Ids(s.outbound.normals)
                                      && Held(s.worker).value.id !in MidRegistered(s.engine)
    requires forall r :: r in s.outbound.normals ==> r.id in Ids(s.outbound.normals)
    ensures Accounting(s')
  {
    assert s.registry.Consistent();
    hide Entries, TokenHeld, StopsHold, Accounted, Ids;
    LeaveEntries(s, s');
    if !s'.halted {
      forall id | id in s'.registry.entries ensures Accounted(s', id) {
        LeaveAccounted(s, s', id);
      }
    }
  }

  lemma LeaveAccounted(s: State, s': State, id: Id)
    requires Leaves(s, s') && id in s'.registry.entries && !s'.halted
    requires id in s.registry.entries && Accounted(s, id)
    requires s.registry.Consistent()
    ensures Accounted(s', id)
  {
    hide Ids;
  }

  lemma LeavePublications(s: State, s': State)
    requires Publications(s) && Leaves(s, s')
    ensures Publications(s')
  {
    forall id ensures Settled(s', id) && (Untouched(s', id) ==> Fresh(s', id)) {
      assert Settled(s, id) && (Untouched(s, id) ==> Fresh(s, id));
    }
  }

  lemma LeaveTail(s: State, s': State)
    requires NothingLost(s) && Delivery(s) && Leaves(s, s')
    ensures NothingLost(s') && Delivery(s')
  {
    assert InTransit(s') == InTransit(s);
    forall r | r in s'.accepted && !s'.halted ensures Answered(s', r) {
      assert Answered(s, r);
    }
  }

  lemma LeaveKnows(s: State)
    requires Tables(s) && Order(s)
    ensures Held(s.worker).Some? ==> Held(s.worker).value.id !in MidRegistered(s.engine)
  {
    IdsOf(s.accepted);
  }

  lemma KeepsLeave(s: State, s': State)
    requires Inv(s) && Leaves(s, s')
    ensures Inv(s')
  {
    IdsOf(s.outbound.normals);
    HeldAccepted(s);
    LeaveKnows(s);
    hide Phases, Tables, Order, Generations, Accounting, Publications, NothingLost, Delivery;
    LeaveRest(s, s');
    LeaveOrder(s, s');
    LeaveAccounting(s, s');
    LeavePublications(s, s');
    LeaveTail(s, s');
  }

  // ---------------------------------------------------------------- all worker steps

  /** A step that keeps the worker's request, for the steps before and after `execute`. */
  lemma BeforeMoves(s: State)
    requires s.worker.Lookup? || s.worker.TestStop? || (s.worker.Popped? && !s.halted) || s.worker.ClaimCancel?
             || s.worker.TestGeneration? || s.worker.Activate?
    ensures var s' := StepBeforeExecute(s);
            && Moves(s, s') && s'.trace == s.trace && (s.worker.ClaimCancel? || s'.ledger == s.ledger)
            && s'.worker.request == s.worker.request && !AfterExecute(s'.worker)
            && (s'.worker.Execute? ==> s.worker.Activate?) && (s'.worker.PushCancel? ==> s.worker.ClaimCancel?)
            && (s'.worker.Complete? ==> s.worker.TestGeneration? || s.worker.ClaimCancel?)
            && (s.worker.Activate? ==> s'.worker.Execute?)
  {
  }

  lemma AfterMoves(s: State)
    requires s.worker.Sample? || s.worker.Erase? || s.worker.Decide? || s.worker.Fallback?
    ensures var s' := StepAfterExecute(s);
            && Moves(s, s') && s'.ledger == s.ledger && s'.worker.request == s.worker.request
            && (s'.worker.Complete? ==> s.worker.Decide? || s.worker.Fallback?)
  {
  }

  lemma KeepsPreparing(s: State)
    requires Inv(s) && (s.worker.Lookup? || s.worker.TestStop? || (s.worker.Popped? && !s.halted))
    ensures Inv(StepBeforeExecute(s))
  {
    AccountingToken(s);
    hide Phases, Tables, Order, Generations, Accounting, Publications, NothingLost, Delivery, TokenHeld;
    hide Moves, Ids, Answered;
    var s' := StepBeforeExecute(s);
    BeforeMoves(s);
    PreparingTables(s);
    hide StepBeforeExecute;
    PreparePublications(s, s');
    KeepsMove(s, s');
  }

  lemma PreparingTables(s: State)
    requires Phases(s) && Tables(s) && TokenHeld(s)
    requires s.worker.Lookup? || s.worker.TestStop? || (s.worker.Popped? && !s.halted)
    ensures Tables(StepBeforeExecute(s)) && TokenHeld(StepBeforeExecute(s))
  {
  }

  lemma TestGenerationFacts(s: State)
    requires Tables(s) && TokenHeld(s) && Generations(s) && s.worker.TestGeneration? && s.worker.request in s.accepted
    ensures Tables(StepBeforeExecute(s)) && TokenHeld(StepBeforeExecute(s))
    ensures StepBeforeExecute(s).worker.Complete? ==> Answered(StepBeforeExecute(s), s.worker.request)
  {
    hide Ids;
  }

  lemma KeepsTestGeneration(s: State)
    requires Inv(s) && s.worker.TestGeneration?
    ensures Inv(StepBeforeExecute(s))
  {
    AccountingToken(s);
    hide Phases, Tables, Order, Generations, Accounting, Publications, NothingLost, Delivery, TokenHeld, Answered;
    var s' := StepBeforeExecute(s);
    HeldAccepted(s);
    BeforeMoves(s);
    TestGenerationFacts(s);
    hide StepBeforeExecute, Moves, Ids;
    PreparePublications(s, s');
    KeepsMove(s, s');
  }

  lemma ActivateFacts(s: State)
    requires Tables(s) && TokenHeld(s) && StopsHold(s) && s.worker.Activate?
    ensures Tables(StepBeforeExecute(s)) && TokenHeld(StepBeforeExecute(s)) && s.worker.request.id in s.registry.entries
    ensures s.engine.CancelLedger? && s.engine.id in s.registry.entries ==> s.registry.Stopped(s.engine.id)
  {
  }

  lemma KeepsActivate(s: State)
    requires Inv(s) && s.worker.Activate?
    ensures Inv(StepBeforeExecute(s))
  {
    AccountingToken(s);
    hide Phases, Tables, Order, Generations, Accounting, Publications, NothingLost, Delivery, TokenHeld, StopsHold;
    var s' := StepBeforeExecute(s);
    BeforeMoves(s);
    ActivateFacts(s);
    hide StepBeforeExecute, Moves, Ids, Answered;
    ActivatePublications(s, s');
    KeepsMove(s, s');
  }

  lemma ClaimFacts(s: State)
    requires Tables(s) && TokenHeld(s) && Publications(s) && s.worker.ClaimCancel?
    ensures StepBeforeExecute(s).worker == PushCancel(s.worker.request)
    ensures Tables(StepBeforeExecute(s)) && TokenHeld(StepBeforeExecute(s))
  {
    assert Fresh(s, s.worker.request.id) by {
      assert Untouched(s, s.worker.request.id);
    }
  }

  lemma KeepsClaim(s: State)
    requires Inv(s) && s.worker.ClaimCancel?
    ensures Inv(StepBeforeExecute(s))
  {
    hide Phases, Tables, Order, Generations, Publications, NothingLost, Delivery, TokenHeld;
    var s' := StepBeforeExecute(s);
    AccountingToken(s);
    hide Accounting;
    IdsOf(s.accepted);
    HeldAccepted(s);
    ClaimFacts(s);
    ClaimPublications(s, s');
    KeepsMove(s, s');
  }

  lemma SampleEraseFacts(s: State)
    requires Tables(s) && TokenHeld(s) && (s.worker.Sample? || s.worker.Erase?)
    ensures Tables(StepAfterExecute(s)) && TokenHeld(StepAfterExecute(s))
    ensures s.worker.Sample? ==> Registered(s, s.worker.request.id, s.worker.request.generation)
                                 && s.worker.source == s.registry.entries[s.worker.request.id].source
  {
  }

  lemma RunningHolds(s: State)
    requires Publications(s) && Running(s.worker)
    ensures RunningInv(s)
  {
  }

  lemma SampleErasePublications(s: State)
    requires Publications(s) && TokenHeld(s) && Tables(s) && (s.worker.Sample? || s.worker.Erase?)
    requires s.worker.request.id in Ids(s.accepted) && s.worker.request.id !in Ids(s.outbound.normals)
    ensures Publications(StepAfterExecute(s))
  {
    SampleEraseFacts(s);
    RunningHolds(s);
    hide Publications, TokenHeld, Tables, RunningInv, Ids;
    var s' := StepAfterExecute(s);
    if s.worker.Sample? {
      SampleRunning(s, s');
      RunPublications(s, s', Sampled(s.worker.request.id, s.worker.source in s.registry.requested));
    } else {
      EraseRunning(s, s');
      RunPublications(s, s', Erased(s.worker.request.id));
    }
  }

  lemma KeepsSampleErase(s: State)
    requires Inv(s) && (s.worker.Sample? || s.worker.Erase?)
    ensures Inv(StepAfterExecute(s))
  {
    AccountingToken(s);
    hide Phases, Tables, Order, Generations, Accounting, Publications, NothingLost, Delivery, TokenHeld, Ids;
    IdsOf(s.accepted);
    HeldAccepted(s);
    AfterMoves(s);
    SampleEraseFacts(s);
    SampleErasePublications(s);
    hide StepAfterExecute, Moves, Answered;
    KeepsMove(s, StepAfterExecute(s));
  }

  lemma AccountingToken(s: State)
    requires Accounting(s)
    ensures TokenHeld(s) && Entries(s) && StopsHold(s)
  {
  }

  lemma DecideFacts(s: State)
    requires Tables(s) && TokenHeld(s) && Publications(s) && Generations(s) && (s.worker.Decide? || s.worker.Fallback?)
    requires s.worker.request in s.accepted
    ensures Tables(StepAfterExecute(s)) && TokenHeld(StepAfterExecute(s)) && RunningInv(s)
    ensures StepAfterExecute(s).worker.Complete? ==> Answered(StepAfterExecute(s), s.worker.request)
  {
  }

  lemma DecidePublications(s: State)
    requires (s.worker.Decide? || s.worker.Fallback?) && Publications(s) && RunningInv(s)
    requires s.worker.request.id in Ids(s.accepted) && s.worker.request.id !in Ids(s.outbound.normals)
    ensures Publications(StepAfterExecute(s))
  {
    hide Publications, RunningInv, Ids;
    var s' := StepAfterExecute(s);
    if s'.worker.PushCancel? {
      OwePublications(s, s');
    } else {
      if !s'.worker.Complete? {
        DecideRunning(s, s');
      }
      RunPublications(s, s', Erased(s.worker.request.id));
    }
  }

  lemma KeepsDecide(s: State)
    requires Inv(s) && (s.worker.Decide? || s.worker.Fallback?)
    ensures Inv(StepAfterExecute(s))
  {
    AccountingToken(s);
    hide Phases, Tables, Order, Generations, Accounting, Publications, NothingLost, Delivery, RunningInv, TokenHeld,
         Answered, Ids;
    IdsOf(s.accepted);
    HeldAccepted(s);
    AfterMoves(s);
    DecideFacts(s);
    DecidePublications(s);
    hide StepAfterExecute, Moves;
    KeepsMove(s, StepAfterExecute(s));
  }

  lemma WaitingQueue(s: State)
    requires Phases(s) && s.worker.Waiting?
    ensures s.outbound.controls == [] && s.outbound.Items() == s.outbound.normals
    ensures s.outbound.closed ==> s.halted
    ensures s.outbound.normals != [] ==> Takes(s, StepBeforeExecute(s))
    ensures s.outbound.normals == [] && s.outbound.closed ==> Leaves(s, StepBeforeExecute(s))
    ensures s.outbound.normals == [] && !s.outbound.closed ==> StepBeforeExecute(s) == s
  {
    assert [] + s.outbound.normals == s.outbound.normals;
  }

  lemma OutcomeNames(s: State)
    requires Publications(s) && s.worker.PushOutcome?
    ensures s.worker.result.request == s.worker.request.id && s.worker.result.generation == s.worker.request.generation
  {
  }

  lemma KeepsWorker(s: State)
    requires Inv(s) && !s.worker.Execute? && !s.worker.Exited?
    ensures Inv(StepWorker(s))
  {
    hide Phases, Tables, Order, Generations, Accounting, Publications, NothingLost, Delivery;
    var s' := StepWorker(s);
    match s.worker {
      case Waiting =>
        WaitingQueue(s);
        if s.outbound.normals != [] {
          KeepsTake(s, s');
        } else if s.outbound.closed {
          KeepsLeave(s, s');
        }
      case Popped(_) =>
        if s.halted {
          KeepsLeave(s, s');
        } else {
          KeepsPreparing(s);
        }
      case Lookup(_) => KeepsPreparing(s);
      case TestStop(_, _) => KeepsPreparing(s);
      case ClaimCancel(_) => KeepsClaim(s);
      case PushCancel(request) => KeepsPublish(s, s', CancelledResult(request), true);
      case TestGeneration(_, _) => KeepsTestGeneration(s);
      case Activate(_, _) => KeepsActivate(s);
      case Sample(_, _, _) => KeepsSampleErase(s);
      case Erase(_, _, _) => KeepsSampleErase(s);
      case Decide(_, _, _, _) => KeepsDecide(s);
      case Fallback(_, _) => KeepsDecide(s);
      case PushOutcome(_, result) =>
        OutcomeNames(s);
        KeepsPublish(s, s', result, false);
      case Complete(_) => KeepsLeave(s, s');
    }
  }
}
