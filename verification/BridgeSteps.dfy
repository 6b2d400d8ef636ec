/** Every step of either thread keeps the invariant. */
module BridgeSteps {
  import opened Results
  import opened Sequences
  import opened Queues
  import opened Lifecycle
  import opened Bridge
  import opened BridgeInvariants

  // ---------------------------------------------------------------- frames

  /** A step of the engine that publishes nothing, owes nothing and observes nothing. */
  ghost predicate Quiet(s: State, s': State) {
    && s'.published == s.published && s'.trace == s.trace && s'.accepted == s.accepted && s'.worker == s.worker
    && (s'.ledger == s.ledger || (s'.ledger == {} && s.worker.Exited?))
    && !s.engine.CancelPush? && !s'.engine.CancelPush?
    && !s.engine.CancelLedger? && !s'.engine.CancelLedger?
    && Ids(s'.outbound.normals) <= Ids(s.outbound.normals)
    && (Running(s.worker) && s.worker.request.id in s.registry.entries ==>
          && s.worker.request.id in s'.registry.entries
          && (s.registry.Stopped(s.worker.request.id) ==> s'.registry.Stopped(s.worker.request.id)))
  }

  lemma QuietPublications(s: State, s': State)
    requires Publications(s) && Quiet(s, s')
    ensures Publications(s')
  {
    forall id | Untouched(s', id) ensures Fresh(s', id) {
      assert Untouched(s, id);
      assert Fresh(s, id);
    }
    forall id ensures Settled(s', id) {
      assert Settled(s, id);
    }
  }

  lemma QuietAnswered(s: State, s': State)
    requires NothingLost(s) && s.halted == s'.halted
    requires s'.published == s.published && s'.accepted == s.accepted && s'.worker == s.worker
    requires s'.generation == s.generation && s'.outbound == s.outbound
    requires !s.engine.CancelPush? && !s'.engine.CancelPush?
    requires InCancelGeneration(s.engine) ==> s'.engine == s.engine
    ensures NothingLost(s')
  {
    if !s'.halted {
      forall r | r in s'.accepted ensures Answered(s', r) {
        assert Answered(s, r);
      }
    }
  }

  lemma SameAccounting(s: State, s': State)
    requires Accounting(s) && s'.registry == s.registry && s'.outbound == s.outbound && s'.worker == s.worker
    requires s'.accepted == s.accepted && s'.generation == s.generation && (s'.halted || !s.halted)
    requires MidRegistered(s.engine) <= MidRegistered(s'.engine)
    requires s'.engine.CancelLedger? ==> s.engine == s'.engine
    requires s'.engine.Push? || s'.engine.Unregister? ==>
               Registered(s', s'.engine.request.id, s'.engine.request.generation)
    requires forall g :: Cancelling(s.engine, g) ==> Cancelling(s'.engine, g)
    requires InCancelGeneration(s'.engine) && !s'.engine.GenerationCheck? && !s'.engine.GenerationStop? ==>
               InCancelGeneration(s.engine) && !s.engine.GenerationCheck? && !s.engine.GenerationStop?
    ensures Accounting(s')
  {
    if !s'.halted {
      forall id | id in s'.registry.entries ensures Accounted(s', id) {
        assert Accounted(s, id);
      }
    }
  }

  lemma SameOrder(s: State, s': State)
    requires Order(s) && s'.executed == s.executed && s'.worker == s.worker
    requires s'.outbound.normals == s.outbound.normals && s'.accepted == s.accepted
    ensures Order(s')
  {
  }

  lemma SameGenerations(s: State, s': State)
    requires Generations(s) && s'.accepted == s.accepted && s'.generation == s.generation && s'.outbound == s.outbound
    requires s'.halted || !s.halted
    requires s'.engine.GenerationInbound? || s'.engine.GenerationInterrupt? || s'.engine.GenerationBump? ==>
               s.engine.GenerationInbound? || s.engine.GenerationInterrupt? || s.engine.GenerationBump?
    ensures Generations(s')
  {
  }

  lemma SameDelivery(s: State, s': State)
    requires Delivery(s) && s'.accepted == s.accepted && s'.published == s.published
    requires s'.polled == s.polled && s'.inbound.Items() == s.inbound.Items()
    requires !s.engine.PollFilter? && !s'.engine.PollFilter?
    ensures Delivery(s')
  {
    assert InTransit(s') == InTransit(s);
  }

  // ---------------------------------------------------------------- calls

  lemma BeginPhasesAndTables(s: State, call: Call)
    requires Phases(s) && Tables(s) && s.engine.Idle?
    ensures Phases(BeginCall(s, call)) && Tables(BeginCall(s, call))
  {
  }

  lemma KeepsBegin(s: State, call: Call)
    requires Inv(s) && s.engine.Idle?
    ensures Inv(BeginCall(s, call))
  {
    hide Phases, Tables, Order, Generations, Accounting, Publications, NothingLost, Delivery;
    var s' := BeginCall(s, call);
    BeginPhasesAndTables(s, call);
    SameOrder(s, s');
    SameGenerations(s, s');
    SameAccounting(s, s');
    QuietPublications(s, s');
    BeginNothingLost(s, call);
    SameDelivery(s, s');
  }

  lemma BeginNothingLost(s: State, call: Call)
    requires NothingLost(s) && s.engine.Idle?
    ensures NothingLost(BeginCall(s, call))
  {
    var s' := BeginCall(s, call);
    if !s'.halted {
      hide NothingLost;
      QuietAnswered(s, s');
    }
  }

  // ---------------------------------------------------------------- poll

  lemma PollPhases(s: State)
    requires Phases(s) && (s.engine.PollDrain? || s.engine.PollFilter?)
    ensures Phases(StepPoll(s))
  {
  }

  lemma DrainDelivery(s: State)
    requires Delivery(s) && s.engine.PollDrain?
    ensures Delivery(StepPoll(s))
  {
    DrainTransit(s);
    hide InTransit, Count, From, StepPoll;
  }

  /** Draining moves results along and changes no result. */
  lemma DrainTransit(s: State)
    requires s.engine.PollDrain?
    ensures InTransit(StepPoll(s)) == InTransit(s) && StepPoll(s).dropped == s.dropped
    ensures StepPoll(s).published == s.published && StepPoll(s).worker == s.worker
    ensures StepPoll(s).accepted == s.accepted && StepPoll(s).inbound.closed == s.inbound.closed
    ensures StepPoll(s).engine.PollFilter? && StepPoll(s).generation == s.generation && StepPoll(s).halted == s.halted
  {
    var items := s.inbound.Items();
    var n := if s.engine.maximum < |items| then s.engine.maximum else |items|;
    var rest := StepPoll(s).inbound.Items();
    assert rest == items[n..] && StepPoll(s).engine == PollFilter(items[..n]) && StepPoll(s).polled == s.polled;
    hide StepPoll;
    assert items[..n] + items[n..] == items;
    assert s.polled + items[..n] + items[n..] == s.polled + [] + items;
  }

  lemma FilterDelivery(s: State)
    requires Delivery(s) && s.engine.PollFilter?
    ensures Delivery(StepPoll(s))
  {
    var s' := StepPoll(s);
    var keep := (p: Publication) => p.result.generation == s.generation;
    var kept := Filter(s.engine.items, keep);
    var waiting := s.inbound.Items();
    assert InTransit(s') == s.polled + kept + waiting by {
      assert s.polled + kept + [] + waiting == s.polled + kept + waiting;
    }
    forall id, c ensures Count(InTransit(s'), id, c) <= Count(s'.published, id, c) {
      FilterTransitCount(s.polled, s.engine.items, waiting, keep, id, c);
      assert Count(InTransit(s), id, c) <= Count(s.published, id, c);
    }
    forall p | p in InTransit(s') ensures p in s'.published {
      assert p in InTransit(s);
    }
  }

  lemma FilterTransitCount(a: seq<Publication>, b: seq<Publication>, c: seq<Publication>, keep: Publication -> bool,
                           id: Id, sort: bool)
    ensures Count(a + Filter(b, keep) + c, id, sort) <= Count(a + b + c, id, sort)
  {
    CountAppend(a + b, c, id, sort);
    CountAppend(a, b, id, sort);
    CountAppend(a + Filter(b, keep), c, id, sort);
    CountAppend(a, Filter(b, keep), id, sort);
    CountFilter(b, keep, id, sort);
  }

  lemma KeepsPoll(s: State)
    requires Inv(s) && (s.engine.PollDrain? || s.engine.PollFilter?)
    ensures Inv(StepPoll(s))
  {
    var s' := StepPoll(s);
    if s.engine.PollDrain? {
      DrainDelivery(s);
    } else {
      FilterDelivery(s);
    }
    PollPhases(s);
    PollTables(s);
    hide Phases, Tables, Order, Generations, Accounting, Publications, NothingLost, Delivery;
    SameOrder(s, s');
    SameGenerations(s, s');
    SameAccounting(s, s');
    QuietPublications(s, s');
    QuietAnswered(s, s');
  }

  lemma PollTables(s: State)
    requires Tables(s) && (s.engine.PollDrain? || s.engine.PollFilter?)
    ensures Tables(StepPoll(s))
  {
  }

  // ---------------------------------------------------------------- halt

  lemma HaltPhasesAndTables(s: State)
    requires Phases(s) && Tables(s) && InHalt(s.engine) && (s.engine.HaltJoin? ==> s.worker.Exited?)
    ensures Phases(StepHalt(s)) && Tables(StepHalt(s)) && NothingLost(StepHalt(s))
  {
    hide Ids, Answered;
  }

  lemma HaltFrame(s: State)
    requires InHalt(s.engine)
    ensures var s' := StepHalt(s);
            && s'.worker == s.worker && s'.accepted == s.accepted && s'.halted == s.halted
            && s'.generation >= s.generation && s'.outbound.normals == s.outbound.normals
            && s'.registry == (if s.engine.HaltStop? then s.registry.Stop(s.registry.entries.Keys) else s.registry)
            && (InHalt(s'.engine) || s'.engine.Idle?)
  {
  }

  lemma HaltEntries(s: State)
    requires Entries(s) && InHalt(s.engine)
    ensures Entries(StepHalt(s))
  {
    HaltFrame(s);
    StopEffect(s.registry, s.registry.entries.Keys);
    hide StepHalt, Ids;
  }

  lemma HaltTokens(s: State)
    requires TokenHeld(s) && InHalt(s.engine)
    ensures TokenHeld(StepHalt(s)) && StopsHold(StepHalt(s))
  {
    HaltFrame(s);
    hide StepHalt;
  }

  lemma HaltStops(s: State)
    requires Entries(s) && InHalt(s.engine)
    ensures forall id :: id in s.registry.entries ==>
              id in StepHalt(s).registry.entries && (s.registry.Stopped(id) ==> StepHalt(s).registry.Stopped(id))
  {
    HaltFrame(s);
    hide StepHalt, Ids;
    StopEffect(s.registry, s.registry.entries.Keys);
  }

  lemma HaltAccounting(s: State)
    requires Accounting(s) && InHalt(s.engine) && s.halted
    ensures Accounting(StepHalt(s))
    ensures forall id :: id in s.registry.entries ==>
              id in StepHalt(s).registry.entries && (s.registry.Stopped(id) ==> StepHalt(s).registry.Stopped(id))
  {
    hide Entries, TokenHeld, StopsHold;
    HaltEntries(s);
    HaltTokens(s);
    HaltStops(s);
    HaltFrame(s);
    hide StepHalt;
  }

  lemma HaltGenerations(s: State)
    requires Generations(s) && InHalt(s.engine) && s.halted
    ensures Generations(StepHalt(s))
  {
  }

  lemma HaltDelivery(s: State)
    requires Delivery(s) && InHalt(s.engine)
    ensures Delivery(StepHalt(s))
  {
    var s' := StepHalt(s);
    if s.engine.HaltClearInbound? {
      assert InTransit(s) == s.polled + s.inbound.Items() && InTransit(s') == s.polled by {
        assert s.polled + [] == s.polled;
      }
      forall id, c ensures Count(InTransit(s'), id, c) <= Count(s'.published, id, c) {
        CountAppend(s.polled, s.inbound.Items(), id, c);
        assert Count(InTransit(s), id, c) <= Count(s.published, id, c);
      }
      forall p | p in InTransit(s') ensures p in s'.published {
        assert p in InTransit(s);
      }
    } else {
      hide Delivery;
      SameDelivery(s, s');
    }
  }

  lemma KeepsHalt(s: State)
    requires Inv(s) && InHalt(s.engine) && (s.engine.HaltJoin? ==> s.worker.Exited?)
    ensures Inv(StepHalt(s))
  {
    HaltingFacts(s);
    hide Phases, Tables, Order, Generations, Accounting, Publications, NothingLost, Delivery, Quiet;
    HaltPhasesAndTables(s);
    HaltKeepsOrder(s);
    HaltGenerations(s);
    HaltAccounting(s);
    HaltQuiet(s);
    QuietPublications(s, StepHalt(s));
    HaltDelivery(s);
  }

  lemma HaltingFacts(s: State)
    requires Phases(s) && InHalt(s.engine)
    ensures s.halted && (s.engine.HaltTables? ==> s.worker.Exited?)
  {
  }

  lemma HaltKeepsOrder(s: State)
    requires Order(s) && InHalt(s.engine)
    ensures Order(StepHalt(s))
  {
    hide Order;
    SameOrder(s, StepHalt(s));
  }

  lemma HaltQuiet(s: State)
    requires InHalt(s.engine) && (s.engine.HaltTables? ==> s.worker.Exited?)
    requires forall id :: id in s.registry.entries ==>
               id in StepHalt(s).registry.entries && (s.registry.Stopped(id) ==> StepHalt(s).registry.Stopped(id))
    ensures Quiet(s, StepHalt(s))
  {
    hide Ids;
  }

  // ---------------------------------------------------------------- enqueue

  lemma EnqueuePhases(s: State)
    requires Phases(s) && InEnqueue(s.engine)
    ensures Phases(StepEnqueue(s))
  {
  }

  lemma EnqueueTables(s: State)
    requires Tables(s) && !s.halted && InEnqueue(s.engine)
    ensures Tables(StepEnqueue(s))
  {
    IdsAppend(s.accepted, [s.engine.request]);
    assert Ids([s.engine.request]) == {s.engine.request.id};
    hide Ids;
    EnqueueFrame(s);
    hide StepEnqueue;
  }

  /** What one step of `enqueue` does to the tables. */
  lemma EnqueueFrame(s: State)
    requires InEnqueue(s.engine)
    ensures var s' := StepEnqueue(s);
            && s'.worker == s.worker && s'.active == s.active && s'.halted == s.halted
            && (s'.engine.Idle? || (InEnqueue(s'.engine) && s'.engine.request == s.engine.request))
            && (if s.engine.Push? && s'.engine.Idle? then s'.accepted == s.accepted + [s.engine.request]
                else s'.accepted == s.accepted)
            && s'.known == (if s.engine.Insert? && s'.engine.Register? then s.known + {s.engine.request.id}
                            else if s.engine.Forget? then s.known - {s.engine.request.id} else s.known)
            && (s.engine.Validate? ==> s'.engine.Idle? || s'.engine.Insert?)
            && (s.engine.Insert? ==> if s.engine.request.id in s.known then s'.engine.Idle? else s'.engine.Register?)
            && (s.engine.Register? ==> s'.engine.Push? || s'.engine.Forget?)
            && (s.engine.Push? ==> s'.engine.Idle? || s'.engine.Unregister?)
            && (s.engine.Unregister? ==> s'.engine.Forget?) && (s.engine.Forget? ==> s'.engine.Idle?)
  {
    hide Refusal, IsCanonicalUuid;
  }

  lemma EnqueueGenerations(s: State)
    requires Generations(s) && Phases(s) && InEnqueue(s.engine)
    ensures Generations(StepEnqueue(s))
  {
  }

  /** A successful push appends the request to the queue and to the accepted history. */
  ghost predicate Admits(s: State, s': State, r: Request) {
    && s'.accepted == s.accepted + [r] && s'.outbound.normals == s.outbound.normals + [r]
    && s'.worker == s.worker && s'.executed == s.executed && s'.registry == s.registry
    && s'.published == s.published && s'.trace == s.trace && s'.ledger == s.ledger
    && s'.generation == s.generation && s'.halted == s.halted
    && s.engine.Push? && s.engine.request == r && s'.engine.Idle?
  }

  lemma AdmitOrder(s: State, s': State, r: Request)
    requires Order(s) && Admits(s, s', r) && r.id !in Ids(s.accepted)
    ensures Order(s')
  {
    var ahead := s.executed + Pending(s.worker) + s.outbound.normals;
    SubsequenceRefl([r]);
    SubsequenceConcat(ahead, s.accepted, [r], [r]);
    assert ahead + [r] == s'.executed + Pending(s'.worker) + s'.outbound.normals;
    DistinctAppend(s.accepted, r);
    NormalsAccepted(s);
    DistinctAppend(s.outbound.normals, r);
    IdsAppend(s.outbound.normals, [r]);
    IdsOf(s.accepted);
  }

  /** Identifiers waiting in the outbound queue were accepted. */
  lemma NormalsAccepted(s: State)
    requires Order(s)
    ensures Ids(s.outbound.normals) <= Ids(s.accepted)
  {
    forall id | id in Ids(s.outbound.normals) ensures id in Ids(s.accepted) {
      var r := IdWitness(s.outbound.normals, id);
      IdsOf(s.accepted);
    }
  }

  lemma AdmitAccounting(s: State, s': State, r: Request)
    requires Accounting(s) && Admits(s, s', r)
    ensures Accounting(s')
  {
    IdsAppend(s.accepted, [r]);
    IdsAppend(s.outbound.normals, [r]);
    assert Ids([r]) == {r.id};
    forall id | id in s'.registry.entries && !s'.halted ensures Accounted(s', id) {
      assert Accounted(s, id);
    }
  }

  lemma AdmitPublications(s: State, s': State, r: Request)
    requires Publications(s) && Admits(s, s', r) && r.id !in Ids(s.accepted)
    requires Running(s.worker) ==> s.worker.request.id != r.id
    ensures Publications(s')
  {
    IdsAppend(s.accepted, [r]);
    IdsAppend(s.outbound.normals, [r]);
    assert Ids([r]) == {r.id};
    forall id | Untouched(s', id) ensures Fresh(s', id) {
      assert Untouched(s, id);
      assert Fresh(s, id);
    }
    forall id ensures Settled(s', id) {
      assert Settled(s, id);
    }
  }

  lemma AdmitNothingLost(s: State, s': State, r: Request)
    requires NothingLost(s) && Admits(s, s', r)
    ensures NothingLost(s')
  {
    IdsAppend(s.outbound.normals, [r]);
    assert Ids([r]) == {r.id};
    forall q | q in s'.accepted && !s'.halted ensures Answered(s', q) {
      if q in s.accepted {
        assert Answered(s, q);
      }
    }
  }

  lemma FromMore(accepted: seq<Request>, more: seq<Request>, result: InboundResult)
    requires From(accepted, result)
    ensures From(accepted + more, result)
  {
    var r :| r in accepted && r.id == result.request && r.generation == result.generation;
    assert r in accepted + more;
  }

  lemma AdmitDelivery(s: State, s': State, r: Request)
    requires Delivery(s) && s'.accepted == s.accepted + [r] && s'.published == s.published
    requires s'.polled == s.polled && s'.inbound == s.inbound && !s.engine.PollFilter? && !s'.engine.PollFilter?
    ensures Delivery(s')
  {
    assert InTransit(s') == InTransit(s);
    forall p | p in s'.published ensures From(s'.accepted, p.result) {
      FromMore(s.accepted, [r], p.result);
    }
  }

  /** Registration uses an identifier no queued or held request has. */
  lemma RegisterAccounting(s: State, s': State, r: Request)
    requires Accounting(s) && s.engine.Register? && s'.engine == Push(r) && r.generation <= s.generation
    requires r.id !in Ids(s.accepted) && s'.registry == s.registry.Register(r.id, r.generation)
    requires s'.outbound == s.outbound && s'.worker == s.worker && s'.accepted == s.accepted
    requires s'.generation == s.generation && s'.halted == s.halted
    requires forall q :: q in s.outbound.normals ==> q.id in Ids(s.accepted)
    requires Held(s.worker).Some? ==> Held(s.worker).value.id in Ids(s.accepted)
    ensures Accounting(s')
  {
    assert r.id !in s.registry.entries;
    assert s'.registry.Consistent();
    forall id | id in s'.registry.entries && !s'.halted ensures Accounted(s', id) {
      if id != r.id {
        assert Accounted(s, id);
      }
    }
  }

  /** A refused push takes the registration back and touches no other entry. */
  lemma UnregisterAccounting(s: State, s': State, r: Request)
    requires Accounting(s) && s.engine.Unregister? && s.engine.request == r && s'.engine.Forget?
    requires r.id !in Ids(s.accepted) && s'.registry == s.registry.Complete(r.id)
    requires s'.outbound == s.outbound && s'.worker == s.worker && s'.accepted == s.accepted
    requires s'.generation == s.generation && s'.halted == s.halted
    requires forall q :: q in s.outbound.normals ==> q.id in Ids(s.accepted)
    requires Held(s.worker).Some? ==> Held(s.worker).value.id in Ids(s.accepted)
    ensures Accounting(s')
  {
    UnregisterEntries(s, s', r);
    hide Entries, TokenHeld, StopsHold;
    forall id | id in s'.registry.entries && !s'.halted ensures Accounted(s', id) {
      assert Accounted(s, id);
    }
  }

  lemma UnregisterEntries(s: State, s': State, r: Request)
    requires Entries(s) && TokenHeld(s) && StopsHold(s) && s.engine.Unregister? && s.engine.request == r
    requires s'.engine.Forget? && r.id !in Ids(s.accepted) && s'.registry == s.registry.Complete(r.id)
    requires s'.outbound == s.outbound && s'.worker == s.worker && s'.accepted == s.accepted
    requires s'.generation == s.generation
    requires forall q :: q in s.outbound.normals ==> q.id in Ids(s.accepted)
    requires Held(s.worker).Some? ==> Held(s.worker).value.id in Ids(s.accepted)
    ensures Entries(s') && TokenHeld(s') && StopsHold(s')
  {
    hide Ids;
  }

  /** What the protocol knows about the identifier an `enqueue` is working on. */
  ghost predicate EnqueueFacts(s: State)
    requires InEnqueue(s.engine)
  {
    var r := s.engine.request;
    && !s.halted && s.outbound.controls == []
    && (s.engine.Register? || s.engine.Push? || s.engine.Unregister? ==> r.id !in Ids(s.accepted))
    && (s.engine.Register? ==> r.id != "" && r.id !in s.registry.entries && r.generation <= s.generation)
    && (s.engine.Push? ==> Registered(s, r.id, r.generation))
    && (forall q :: q in s.outbound.normals ==> q.id in Ids(s.accepted))
    && (Held(s.worker).Some? ==> Held(s.worker).value.id in Ids(s.accepted))
  }

  lemma EnqueueKnows(s: State)
    requires Phases(s) && Tables(s) && Order(s) && Accounting(s) && InEnqueue(s.engine)
    ensures EnqueueFacts(s)
  {
    IdsOf(s.accepted);
    if s.engine.Register? {
      CanonicalNotEmpty(s.engine.request.id);
    }
  }

  lemma OtherEnqueueAccounting(s: State)
    requires Accounting(s) && InEnqueue(s.engine) && EnqueueFacts(s)
    requires s.engine.Push? ==> !StepEnqueue(s).engine.Idle?
    ensures Accounting(StepEnqueue(s))
  {
    hide Accounting;
    var s' := StepEnqueue(s);
    if s.engine.Register? {
      RegisterAccounting(s, s', s.engine.request);
    } else if s.engine.Unregister? {
      UnregisterAccounting(s, s', s.engine.request);
    } else {
      SameAccounting(s, s');
    }
  }

  lemma OtherEnqueueRest(s: State)
    requires Order(s) && Publications(s) && NothingLost(s) && Delivery(s) && InEnqueue(s.engine) && EnqueueFacts(s)
    requires s.engine.Push? ==> !StepEnqueue(s).engine.Idle?
    ensures Order(StepEnqueue(s)) && Publications(StepEnqueue(s))
    ensures NothingLost(StepEnqueue(s)) && Delivery(StepEnqueue(s))
  {
    hide Order, Publications, NothingLost, Delivery;
    var s' := StepEnqueue(s);
    SameOrder(s, s');
    QuietPublications(s, s');
    QuietAnswered(s, s');
    SameDelivery(s, s');
  }

  lemma KeepsEnqueue(s: State)
    requires Inv(s) && InEnqueue(s.engine)
    ensures Inv(StepEnqueue(s))
  {
    hide Phases, Tables, Order, Generations, Accounting, Publications, NothingLost, Delivery;
    var s' := StepEnqueue(s);
    EnqueueKnows(s);
    EnqueuePhases(s);
    EnqueueTables(s);
    EnqueueGenerations(s);
    if s.engine.Push? && s'.engine.Idle? {
      AdmitOrder(s, s', s.engine.request);
      AdmitAccounting(s, s', s.engine.request);
      AdmitPublications(s, s', s.engine.request);
      AdmitNothingLost(s, s', s.engine.request);
      AdmitDelivery(s, s', s.engine.request);
    } else {
      OtherEnqueueAccounting(s);
      OtherEnqueueRest(s);
    }
  }

  // ---------------------------------------------------------------- cancelGeneration

  lemma GenerationPhases(s: State)
    requires Phases(s) && InCancelGeneration(s.engine)
    ensures Phases(StepCancelGeneration(s))
  {
  }

  lemma GenerationTables(s: State)
    requires Tables(s) && InCancelGeneration(s.engine)
    ensures Tables(StepCancelGeneration(s))
  {
    hide Ids;
  }

  lemma GenerationGenerations(s: State)
    requires Generations(s) && !s.halted && InCancelGeneration(s.engine)
    requires !s.engine.GenerationCheck? ==> s.engine.target == s.generation
    ensures Generations(StepCancelGeneration(s))
  {
    if s.engine.GenerationOutbound? {
      var keep := (r: Request) => r.generation != s.engine.target;
      FilterNone(s.outbound.normals, keep);
    }
  }

  lemma GenerationRuns(s: State)
    requires Phases(s) && InCancelGeneration(s.engine)
    ensures !s.halted && (!s.engine.GenerationCheck? ==> s.engine.target == s.generation)
  {
  }

  lemma GenerationOrder(s: State)
    requires Order(s) && InCancelGeneration(s.engine)
    ensures Order(StepCancelGeneration(s))
    ensures Ids(StepCancelGeneration(s).outbound.normals) <= Ids(s.outbound.normals)
  {
    var s' := StepCancelGeneration(s);
    if s.engine.GenerationOutbound? {
      var keep := (r: Request) => r.generation != s.engine.target;
      FilterIds(s.outbound.normals, keep);
      FilterSubsequence(s.outbound.normals, keep);
      var ahead := s.executed + Pending(s.worker);
      SubsequenceRefl(ahead);
      SubsequenceConcat(ahead, ahead, s'.outbound.normals, s.outbound.normals);
      SubsequenceTrans(ahead + s'.outbound.normals, ahead + s.outbound.normals, s.accepted);
    } else {
      hide Order;
      SameOrder(s, s');
    }
  }

  /** `cancelGeneration` registers nothing and stops exactly the entries of its generation. */
  lemma GenerationFrame(s: State)
    requires InCancelGeneration(s.engine)
    ensures var s' := StepCancelGeneration(s);
            && s'.worker == s.worker && s'.accepted == s.accepted && s'.halted == s.halted
            && s'.generation == (if s.engine.GenerationBump? then s.generation + 1 else s.generation)
            && s'.registry == (if s.engine.GenerationStop?
                               then s.registry.Stop(s.registry.OfGeneration(s.engine.target))
                               else s.registry)
            && (if s.engine.GenerationOutbound?
                then s'.outbound == s.outbound.Keep((r: Request) => r.generation != s.engine.target)
                else s'.outbound == s.outbound)
            && (s'.engine.Idle? || (InCancelGeneration(s'.engine) && s'.engine.target == s.engine.target))
            && !s'.engine.GenerationCheck?
            && (s'.engine.GenerationStop? ==> s.engine.GenerationCheck?)
            && (s.engine.GenerationStop? ==> s'.engine.GenerationOutbound?)
            && (s.engine.GenerationOutbound? ==> s'.engine.GenerationInbound?)
            && (s'.engine.Idle? ==> s.engine.GenerationBump? || s.engine.GenerationCheck?)
  {
  }

  lemma GenerationEntries(s: State)
    requires Entries(s) && InCancelGeneration(s.engine)
    ensures Entries(StepCancelGeneration(s))
    ensures forall id :: id in s.registry.entries ==>
              id in StepCancelGeneration(s).registry.entries
              && (s.registry.Stopped(id) ==> StepCancelGeneration(s).registry.Stopped(id))
  {
    GenerationFrame(s);
    StopEffect(s.registry, s.registry.OfGeneration(s.engine.target));
    hide StepCancelGeneration, Ids;
  }

  lemma GenerationTokens(s: State)
    requires TokenHeld(s) && InCancelGeneration(s.engine)
    ensures TokenHeld(StepCancelGeneration(s))
  {
    GenerationFrame(s);
    hide StepCancelGeneration;
  }

  lemma GenerationStops(s: State)
    requires Entries(s) && StopsHold(s) && InCancelGeneration(s.engine)
    requires !s.engine.GenerationCheck? ==> s.engine.target == s.generation
    ensures StopsHold(StepCancelGeneration(s))
  {
    GenerationFrame(s);
    StopEffect(s.registry, s.registry.OfGeneration(s.engine.target));
    hide StepCancelGeneration, Ids;
  }

  lemma GenerationAccounted(s: State, id: Id)
    requires Entries(s) && StopsHold(s) && InCancelGeneration(s.engine) && id in s.registry.entries && Accounted(s, id)
    requires forall r :: r in s.outbound.normals && !s.engine.GenerationCheck? ==> r.generation == s.engine.target
    requires !s.engine.GenerationCheck? ==> s.engine.target == s.generation
    requires id in StepCancelGeneration(s).registry.entries
    requires s.registry.Stopped(id) ==> StepCancelGeneration(s).registry.Stopped(id)
    ensures Accounted(StepCancelGeneration(s), id)
  {
    if s.engine.GenerationOutbound? && id in Ids(s.outbound.normals) {
      var r := IdWitness(s.outbound.normals, id);
      assert Registered(s, r.id, r.generation);
    }
    GenerationFrame(s);
    hide StepCancelGeneration, Ids;
  }

  lemma GenerationAccounting(s: State)
    requires Accounting(s) && Phases(s) && Generations(s) && InCancelGeneration(s.engine)
    ensures Accounting(StepCancelGeneration(s))
    ensures forall id :: id in s.registry.entries ==>
              id in StepCancelGeneration(s).registry.entries
              && (s.registry.Stopped(id) ==> StepCancelGeneration(s).registry.Stopped(id))
  {
    GenerationRuns(s);
    GenerationFrame(s);
    assert forall r :: r in s.outbound.normals ==> r.generation == s.generation;
    hide StepCancelGeneration, Phases, Generations, Entries, TokenHeld, StopsHold, Accounted;
    GenerationEntries(s);
    GenerationTokens(s);
    GenerationStops(s);
    forall id | id in s.registry.entries ensures Accounted(StepCancelGeneration(s), id) {
      GenerationAccounted(s, id);
    }
  }

  lemma GenerationNothingLost(s: State)
    requires NothingLost(s) && Phases(s) && Generations(s) && InCancelGeneration(s.engine)
    requires Order(s)
    ensures NothingLost(StepCancelGeneration(s))
  {
    var s' := StepCancelGeneration(s);
    forall r | r in s'.accepted ensures Answered(s', r) {
      assert Answered(s, r);
      if s.engine.GenerationOutbound? && r.id in Ids(s.outbound.normals) {
        var q := IdWitness(s.outbound.normals, r.id);
        SameId(s.accepted, q, r);
      }
    }
  }

  /** Filtering what waits in the inbound queue. */
  lemma KeepDelivery(s: State, s': State, keep: Publication -> bool)
    requires Delivery(s) && s'.accepted == s.accepted && s'.published == s.published && s'.polled == s.polled
    requires !s.engine.PollFilter? && !s'.engine.PollFilter? && s'.inbound == s.inbound.Keep(keep)
    ensures Delivery(s')
  {
    var before, after := s.inbound.Items(), s'.inbound.Items();
    FilterConcat(s.inbound.controls, s.inbound.normals, keep);
    assert after == Filter(before, keep);
    assert s.polled + [] == s.polled && s.polled + before + [] == s.polled + before
           && s.polled + after + [] == s.polled + after;
    forall id, c ensures Count(InTransit(s'), id, c) <= Count(s'.published, id, c) {
      FilterTransitCount(s.polled, before, [], keep, id, c);
      assert Count(InTransit(s), id, c) <= Count(s.published, id, c);
    }
    forall p | p in InTransit(s') ensures p in s'.published {
      assert p in InTransit(s);
    }
  }

  lemma GenerationDelivery(s: State)
    requires Delivery(s) && InCancelGeneration(s.engine)
    ensures Delivery(StepCancelGeneration(s))
  {
    hide Delivery;
    var s' := StepCancelGeneration(s);
    if s.engine.GenerationInbound? {
      KeepDelivery(s, s', (p: Publication) => p.result.generation != s.engine.target);
    } else {
      SameDelivery(s, s');
    }
  }

  lemma KeepsCancelGeneration(s: State)
    requires Inv(s) && InCancelGeneration(s.engine)
    ensures Inv(StepCancelGeneration(s))
  {
    var s' := StepCancelGeneration(s);
    hide Phases, Tables, Order, Generations, Accounting, Publications, NothingLost, Delivery;
    GenerationRuns(s);
    GenerationPhases(s);
    GenerationTables(s);
    GenerationGenerations(s);
    GenerationOrder(s);
    GenerationAccounting(s);
    QuietPublications(s, s');
    GenerationNothingLost(s);
    GenerationDelivery(s);
  }

  // ---------------------------------------------------------------- cancel

  lemma CancelPhases(s: State)
    requires Phases(s) && InCancel(s.engine)
    ensures Phases(StepCancel(s))
  {
  }

  lemma CancelTables(s: State)
    requires Tables(s) && InCancel(s.engine)
    ensures Tables(StepCancel(s))
  {
    CancelFrame(s);
    hide StepCancel, Ids;
  }

  /** The first step of `cancel` stops one entry. */
  lemma StopAccounting(s: State, s': State)
    requires Accounting(s) && s.engine.CancelStop? && s'.engine == CancelLedger(s.engine.id)
    requires s.engine.id in s.registry.entries && s'.registry == s.registry.Stop({s.engine.id})
    requires s'.worker == s.worker && s'.accepted == s.accepted && s'.outbound == s.outbound
    requires s'.generation == s.generation && s'.halted == s.halted
    ensures Accounting(s')
  {
    StopEffect(s.registry, {s.engine.id});
    hide Ids;
    assert Entries(s') && TokenHeld(s') && StopsHold(s');
    hide Entries, TokenHeld, StopsHold;
    forall id | id in s'.registry.entries && !s'.halted ensures Accounted(s', id) {
      assert Accounted(s, id);
    }
    hide Accounted;
  }

  lemma CancelAccounting(s: State)
    requires Accounting(s) && InCancel(s.engine)
    ensures Accounting(StepCancel(s))
  {
    hide Accounting;
    var s' := StepCancel(s);
    CancelFrame(s);
    hide StepCancel;
    if s'.engine.CancelLedger? {
      StopAccounting(s, s');
    } else {
      SameAccounting(s, s');
    }
  }

  /** What `cancel` does to the registry and leaves alone elsewhere. */
  lemma CancelFrame(s: State)
    requires InCancel(s.engine)
    ensures var s' := StepCancel(s);
            && s'.worker == s.worker && s'.accepted == s.accepted && s'.outbound == s.outbound
            && s'.generation == s.generation && s'.halted == s.halted && s'.known == s.known
            && s'.active == s.active && s'.executed == s.executed
            && (s'.engine.Idle? || s'.engine.CancelLedger? || s'.engine.CancelPush?)
            && (if s'.engine.CancelLedger?
                then s.engine == CancelStop(s'.engine.id) && s'.registry == s.registry.Stop({s.engine.id})
                     && s.engine.id in s.registry.entries
                else s'.registry == s.registry)
  {
  }

  lemma StopRunning(s: State, s': State)
    requires Running(s.worker) && RunningInv(s) && s.engine.CancelStop?
    requires s.engine.id in s.registry.entries && !s.registry.Stopped(s.engine.id)
    requires s'.engine == CancelLedger(s.engine.id) && s'.trace == s.trace + [CancelStopped(s.engine.id)]
    requires s'.worker == s.worker && s'.published == s.published && s'.ledger == s.ledger
    requires s'.registry.entries == s.registry.entries && s.registry.requested <= s'.registry.requested
    requires s'.registry.Stopped(s.engine.id)
    ensures RunningInv(s')
  {
    WindowStep(s.trace, CancelStopped(s.engine.id), s.worker.request.id);
  }

  lemma StopOne(s: State, s': State, id: Id)
    requires Settled(s, id) && (Untouched(s, id) ==> Fresh(s, id)) && s.engine.CancelStop? && s'.engine.CancelLedger?
    requires s'.trace == s.trace + [CancelStopped(s.engine.id)] && s'.worker == s.worker
    requires s'.published == s.published && s'.ledger == s.ledger && s'.accepted == s.accepted
    requires s'.outbound == s.outbound
    ensures Settled(s', id) && (Untouched(s', id) ==> Fresh(s', id))
  {
    WindowStep(s.trace, CancelStopped(s.engine.id), id);
  }

  lemma StopPublications(s: State, s': State)
    requires Publications(s) && s.engine.CancelStop? && s'.engine == CancelLedger(s.engine.id)
    requires s.engine.id in s.registry.entries && !s.registry.Stopped(s.engine.id)
    requires s'.trace == s.trace + [CancelStopped(s.engine.id)] && s'.worker == s.worker
    requires s'.published == s.published && s'.ledger == s.ledger && s'.accepted == s.accepted
    requires s'.outbound == s.outbound
    requires s'.registry.entries == s.registry.entries && s.registry.requested <= s'.registry.requested
    requires s'.registry.Stopped(s.engine.id)
    ensures Publications(s')
  {
    hide Settled, Fresh, Untouched, RunningInv;
    forall id ensures Settled(s', id) && (Untouched(s', id) ==> Fresh(s', id)) {
      StopOne(s, s', id);
    }
    if Running(s.worker) {
      StopRunning(s, s');
    }
  }

  lemma LedgerPublications(s: State)
    requires Publications(s) && Tables(s) && s.engine.CancelLedger? && StepCancel(s).engine.CancelPush?
    requires forall r :: r in s.accepted ==> r.id in Ids(s.accepted)
    requires Held(s.worker).Some? ==> Held(s.worker).value in s.accepted
                                      && Held(s.worker).value.id !in Ids(s.outbound.normals)
    ensures Publications(StepCancel(s))
  {
    var s' := StepCancel(s);
    var held := s.worker.request;
    assert held.id == s.engine.id && s'.engine.request == held;
    WindowStep(s.trace, CancelLedgered(held.id), held.id);
    forall id | Untouched(s', id) ensures Fresh(s', id) {
      assert Untouched(s, id);
      WindowStep(s.trace, CancelLedgered(held.id), id);
    }
    forall id ensures Settled(s', id) {
      assert Settled(s, id);
      WindowStep(s.trace, CancelLedgered(held.id), id);
    }
    assert From(s'.accepted, CancelledResult(held));
  }

  lemma NoLedgerPublications(s: State)
    requires Publications(s) && Tables(s) && (s.engine.CancelLedger? || s.engine.CancelStop?)
    requires StepCancel(s).engine.Idle?
    ensures Publications(StepCancel(s))
  {
    var s' := StepCancel(s);
    forall id | Untouched(s', id) ensures Fresh(s', id) {
      assert Untouched(s, id);
    }
    forall id ensures Settled(s', id) {
      assert Settled(s, id);
    }
  }

  /** A thread that owed a cancelled result publishes it. */
  lemma PublishCount(s: State, result: InboundResult, cancellation: bool, id: Id, c: bool)
    ensures Count(Publish(s, result, cancellation).published, id, c)
            == Count(s.published, id, c) + (if result.request == id && cancellation == c then 1 else 0)
  {
    CountAppend(s.published, [Publication(result, cancellation)], id, c);
  }

  /** What waits before and after a result is published. */
  lemma PublishItems(s: State, s': State, result: InboundResult, cancellation: bool) returns (ahead: seq<Publication>)
    requires s'.polled == s.polled && s'.inbound == Publish(s, result, cancellation).inbound
    requires (s'.engine == s.engine) || (!s.engine.PollFilter? && !s'.engine.PollFilter?)
    ensures InTransit(s) == ahead + s.inbound.Items() && InTransit(s') == ahead + s'.inbound.Items()
    ensures var p, before, after := Publication(result, cancellation), s.inbound.Items(), s'.inbound.Items();
            after == before || after == [p] + before || after == before + [p]
  {
    ahead := s.polled + (if s.engine.PollFilter? then s.engine.items else []);
  }

  lemma CountOneMore(ahead: seq<Publication>, before: seq<Publication>, after: seq<Publication>, p: Publication, id: Id,
                     c: bool)
    requires after == before || after == [p] + before || after == before + [p]
    ensures Count(ahead + after, id, c)
            <= Count(ahead + before, id, c) + (if p.result.request == id && p.cancellation == c then 1 else 0)
  {
    CountAppend(ahead, before, id, c);
    CountAppend(ahead, after, id, c);
    CountAppend([p], before, id, c);
    CountAppend(before, [p], id, c);
    assert Count([p], id, c) == if p.result.request == id && p.cancellation == c then 1 else 0;
  }

  lemma PublishDelivery(s: State, s': State, result: InboundResult, cancellation: bool)
    requires Delivery(s) && From(s.accepted, result) && s'.accepted == s.accepted && s'.polled == s.polled
    requires s'.published == Publish(s, result, cancellation).published
    requires s'.inbound == Publish(s, result, cancellation).inbound
    requires (s'.engine == s.engine) || (!s.engine.PollFilter? && !s'.engine.PollFilter?)
    ensures Delivery(s')
  {
    var ahead := PublishItems(s, s', result, cancellation);
    var p, before, after := Publication(result, cancellation), s.inbound.Items(), s'.inbound.Items();
    assert s'.published == s.published + [p];
    hide InTransit, From;
    forall id, c ensures Count(InTransit(s'), id, c) <= Count(s'.published, id, c) {
      PublishCount(s, result, cancellation, id, c);
      CountOneMore(ahead, before, after, p, id, c);
      assert Count(InTransit(s), id, c) <= Count(s.published, id, c);
    }
    hide Count, Publish;
    forall q | q in InTransit(s') ensures q in s'.published {
      assert q in InTransit(s) || q == p;
    }
  }

  lemma PushPublications(s: State)
    requires Publications(s) && s.engine.CancelPush?
    ensures Publications(StepCancel(s))
  {
    var s' := StepCancel(s);
    PushFrame(s);
    hide Settled, Fresh, Untouched, RunningInv, Claims, Count, StepCancel, From;
    forall id ensures Settled(s', id) && (Untouched(s', id) ==> Fresh(s', id)) {
      PushClaims(s, id);
      PushOne(s, s', id);
    }
    if Running(s.worker) {
      PushClaims(s, s.worker.request.id);
      PushRunning(s, s');
    }
    if s.worker.PushCancel? {
      PushClaims(s, s.worker.request.id);
    }
  }

  /** What publishing leaves alone. */
  lemma PushFrame(s: State)
    requires s.engine.CancelPush?
    ensures var s' := StepCancel(s);
            && s'.engine.Idle? && s'.worker == s.worker && s'.ledger == s.ledger && s'.trace == s.trace
            && s'.accepted == s.accepted && s'.outbound == s.outbound && s'.registry == s.registry
  {
  }

  /** The claim is kept: it was owed and is now published. */
  lemma PushClaims(s: State, id: Id)
    requires s.engine.CancelPush?
    ensures Claims(StepCancel(s), id) == Claims(s, id)
    ensures Count(StepCancel(s).published, id, false) == Count(s.published, id, false)
  {
    PublishCount(s, CancelledResult(s.engine.request), true, id, true);
    PublishCount(s, CancelledResult(s.engine.request), true, id, false);
  }

  lemma PushOne(s: State, s': State, id: Id)
    requires Settled(s, id) && (Untouched(s, id) ==> Fresh(s, id)) && s'.worker == s.worker && s'.ledger == s.ledger
    requires s'.trace == s.trace && s'.accepted == s.accepted && s'.outbound == s.outbound
    requires Claims(s', id) == Claims(s, id) && Count(s'.published, id, false) == Count(s.published, id, false)
    ensures Settled(s', id) && (Untouched(s', id) ==> Fresh(s', id))
  {
    hide Claims, Count, Ids, Window;
  }

  lemma PushRunning(s: State, s': State)
    requires Running(s.worker) && RunningInv(s) && s.engine.CancelPush? && s'.engine.Idle? && s'.worker == s.worker
    requires s'.ledger == s.ledger && s'.trace == s.trace && s'.registry == s.registry
    requires Claims(s', s.worker.request.id) == Claims(s, s.worker.request.id)
    requires Count(s'.published, s.worker.request.id, false) == Count(s.published, s.worker.request.id, false)
    ensures RunningInv(s')
  {
    hide Claims, Count, Window;
  }

  lemma CancelNothingLost(s: State)
    requires NothingLost(s) && InCancel(s.engine)
    requires s.engine.CancelPush? ==> !s.halted
    ensures NothingLost(StepCancel(s))
  {
    var s' := StepCancel(s);
    assert s'.accepted == s.accepted && s'.halted == s.halted;
    forall r | r in s'.accepted && !s'.halted ensures Answered(s', r) {
      CancelAnswered(s, r);
    }
    hide Answered, StepCancel;
  }

  lemma CancelAnswered(s: State, r: Request)
    requires Answered(s, r) && InCancel(s.engine)
    ensures Answered(StepCancel(s), r)
  {
    if s.engine.CancelPush? {
      PublishCount(s, CancelledResult(s.engine.request), true, r.id, true);
      PublishCount(s, CancelledResult(s.engine.request), true, r.id, false);
    }
    hide Count, Ids;
  }

  lemma CancelDelivery(s: State)
    requires Delivery(s) && InCancel(s.engine)
    requires s.engine.CancelPush? ==> From(s.accepted, CancelledResult(s.engine.request))
    ensures Delivery(StepCancel(s))
  {
    hide Delivery;
    var s' := StepCancel(s);
    if s.engine.CancelPush? {
      PublishDelivery(s, s', CancelledResult(s.engine.request), true);
    } else {
      SameDelivery(s, s');
    }
  }

  lemma CancelPublications(s: State)
    requires Publications(s) && Tables(s) && InCancel(s.engine) && s.registry.Consistent()
    requires forall r :: r in s.accepted ==> r.id in Ids(s.accepted)
    requires Held(s.worker).Some? ==> Held(s.worker).value in s.accepted
                                      && Held(s.worker).value.id !in Ids(s.outbound.normals)
    ensures Publications(StepCancel(s))
  {
    hide Publications, Tables, Held;
    var s' := StepCancel(s);
    if s.engine.CancelPush? {
      PushPublications(s);
    } else if s'.engine.CancelPush? {
      LedgerPublications(s);
    } else if s'.engine.CancelLedger? {
      StopEffect(s.registry, {s.engine.id});
      StopPublications(s, s');
    } else {
      NoLedgerPublications(s);
    }
  }

  lemma CancelKeepsOrder(s: State)
    requires Order(s) && Generations(s) && InCancel(s.engine)
    ensures Order(StepCancel(s)) && Generations(StepCancel(s))
  {
    hide Order, Generations;
    CancelFrame(s);
    hide StepCancel;
    SameOrder(s, StepCancel(s));
    SameGenerations(s, StepCancel(s));
  }

  lemma KeepsCancel(s: State)
    requires Inv(s) && InCancel(s.engine)
    ensures Inv(StepCancel(s))
  {
    hide Phases, Tables, Order, Generations, Accounting, Publications, NothingLost, Delivery, StepCancel, InCancel, Ids,
         Held, From;
    IdsOf(s.accepted);
    CancelFacts(s);
    CancelPhases(s);
    CancelTables(s);
    CancelKeepsOrder(s);
    CancelAccounting(s);
    CancelPublications(s);
    CancelNothingLost(s);
    CancelDelivery(s);
  }

  lemma CancelFacts(s: State)
    requires Phases(s) && Order(s) && Accounting(s) && Publications(s) && InCancel(s.engine)
    ensures !s.halted && s.registry.Consistent()
    ensures Held(s.worker).Some? ==> Held(s.worker).value in s.accepted
                                     && Held(s.worker).value.id !in Ids(s.outbound.normals)
    ensures s.engine.CancelPush? ==> From(s.accepted, CancelledResult(s.engine.request))
  {
  }
}
