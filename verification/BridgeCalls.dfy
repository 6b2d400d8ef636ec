/** What each engine call returns and does, whatever the worker does meanwhile. */
module BridgeCalls {
  import opened Results
  import opened Sequences
  import opened Queues
  import opened Lifecycle
  import opened Bridge
  import opened BridgeInvariants
  import opened BridgeSteps
  import opened BridgeWorker
  import opened BridgeTheorems
  import BridgeDelivery

  // ---------------------------------------------------------------- enqueue

  /** Why `enqueue` must refuse a request before it gets to the queue, if it must; in this order. */
  function Objection(s0: State, request: Request, payloadValid: bool): Option<ErrorCode> {
    if s0.halted then Some(Stopped)
    else if !IsCanonicalUuid(request.id) then Some(InvalidArgument)
    else if request.generation != s0.generation then Some(StaleGeneration)
    else if !SessionOk(request) || !payloadValid then Some(InvalidArgument)
    else if request.id in s0.known then Some(DuplicateConflict)
    else None
  }

  /** The room that `enqueue` leaves for control items. */
  const OUTBOUND_LIMIT: nat := 28

  /** How far an `enqueue` that began in `s0` has come. */
  ghost predicate Enqueuing(s0: State, request: Request, payloadValid: bool, s: State) {
    && s.generation == s0.generation && s.halted == s0.halted
    && (InEnqueue(s.engine) ==>
          && s.engine.request == request && !s0.halted
          && s.accepted == s0.accepted && s.known == s0.known + MidKnown(s.engine)
          && |s.outbound.normals| <= |s0.outbound.normals|)
    && match s.engine
       case Validate(_, valid) => valid == payloadValid
       case Insert(_) => IsCanonicalUuid(request.id) && request.generation == s0.generation && SessionOk(request)
                         && payloadValid
       case Register(_) => Objection(s0, request, payloadValid).None?
       case Push(_) => Objection(s0, request, payloadValid).None?
       case Unregister(_, error) =>
         Objection(s0, request, payloadValid).None? && error == QueueFull
         && |s0.outbound.normals| >= OUTBOUND_LIMIT
       case Forget(_, error) =>
         Objection(s0, request, payloadValid).None? && error == QueueFull
         && |s0.outbound.normals| >= OUTBOUND_LIMIT
       case Idle =>
         if Objection(s0, request, payloadValid).Some?
         then s.returned == Refused(Objection(s0, request, payloadValid).value) && s.known == s0.known
              && s.accepted == s0.accepted
         else
           || (s.returned == Accepted(request.id) && s.known == s0.known + {request.id}
               && s.accepted == s0.accepted + [request])
           || (s.returned == Refused(QueueFull) && s.known == s0.known && s.accepted == s0.accepted
               && |s0.outbound.normals| >= OUTBOUND_LIMIT)
       case _ => false
  }

  lemma EnqueuingBegins(s0: State, request: Request, payloadValid: bool)
    requires s0.engine.Idle?
    ensures Enqueuing(s0, request, payloadValid, BeginCall(s0, Enqueue(request, payloadValid)))
  {
  }

  lemma EnqueuingEngine(s0: State, request: Request, payloadValid: bool, s: State)
    requires Enqueuing(s0, request, payloadValid, s) && InEnqueue(s.engine)
    requires s.engine.Register? ==> s.engine.request.id !in s.registry.entries && s.engine.request.id != ""
    requires s.outbound.controls == [] && !s.outbound.closed
    requires MidKnown(s.engine) !! s0.known
    ensures Enqueuing(s0, request, payloadValid, StepEnqueue(s))
    ensures MidKnown(StepEnqueue(s).engine) !! s0.known || StepEnqueue(s).engine.Idle?
  {
    hide IsCanonicalUuid, SessionOk;
  }

  lemma EnqueuingWorker(s0: State, request: Request, payloadValid: bool, s: State, s': State)
    requires Enqueuing(s0, request, payloadValid, s)
    requires s'.engine == s.engine && s'.returned == s.returned && s'.generation == s.generation
    requires s'.halted == s.halted && s'.accepted == s.accepted && s'.known == s.known
    requires |s'.outbound.normals| <= |s.outbound.normals|
    ensures Enqueuing(s0, request, payloadValid, s')
  {
    hide IsCanonicalUuid, SessionOk, Objection;
  }

  lemma EnqueuingFacts(s0: State, request: Request, payloadValid: bool, s: State)
    requires Inv(s) && Enqueuing(s0, request, payloadValid, s) && InEnqueue(s.engine)
    requires s0.halted || s0.known == Ids(s0.accepted)
    ensures s.engine.Register? ==> s.engine.request.id !in s.registry.entries && s.engine.request.id != ""
    ensures s.outbound.controls == [] && !s.outbound.closed && MidKnown(s.engine) !! s0.known
  {
    assert Phases(s) && Tables(s);
    EnqueueKnows(s);
    hide Inv, Order, Generations, Accounting, Publications, NothingLost, Delivery, Objection;
  }

  lemma EnqueuingStep(s0: State, request: Request, payloadValid: bool, s: State, a: Action)
    requires Inv(s) && Enqueuing(s0, request, payloadValid, s) && InEnqueue(s.engine) && Enabled(s, a)
    requires s0.halted || s0.known == Ids(s0.accepted)
    ensures Enqueuing(s0, request, payloadValid, Step(s, a))
  {
    EnqueuingFacts(s0, request, payloadValid, s);
    hide Inv, Enqueuing, StepEnqueue, StepWorker;
    match a {
      case Engine => EnqueuingEngine(s0, request, payloadValid, s);
      case Worker =>
        WorkerFrame(s);
        EnqueuingWorker(s0, request, payloadValid, s, StepWorker(s));
      case Respond(response) => EnqueuingWorker(s0, request, payloadValid, s, StepExecute(s, response));
      case Begin(_) =>
    }
  }

  lemma {:induction false} EnqueuingRun(s0: State, request: Request, payloadValid: bool, s: State, run: seq<Action>)
    requires Inv(s) && Enqueuing(s0, request, payloadValid, s) && Possible(s, run) && InsideEnqueue(s, run)
    requires s0.halted || s0.known == Ids(s0.accepted)
    ensures Enqueuing(s0, request, payloadValid, Execution(s, run))
    decreases |run|
  {
    hide Inv, Enqueuing, Objection;
    if run != [] {
      EnqueuingStep(s0, request, payloadValid, s, run[0]);
      StepInv(s, run[0]);
      EnqueuingRun(s0, request, payloadValid, Step(s, run[0]), run[1..]);
    }
  }

  lemma KnownAtRest(s: State)
    requires Inv(s) && s.engine.Idle?
    ensures s.halted || s.known == Ids(s.accepted)
  {
    assert Tables(s);
  }

  /**
    What `enqueue` answers, whatever the worker does meanwhile: the first objection there is, in the order of the
    source, and otherwise acceptance, except that a queue that held 28 or more requests at the start may refuse.
   */
  lemma EnqueueExact(s0: State, request: Request, payloadValid: bool, run: seq<Action>)
    requires Reachable(s0) && s0.engine.Idle?
    requires Possible(BeginCall(s0, Enqueue(request, payloadValid)), run)
    requires InsideEnqueue(BeginCall(s0, Enqueue(request, payloadValid)), run)
    requires Execution(BeginCall(s0, Enqueue(request, payloadValid)), run).engine.Idle?
    ensures var s, objection := Execution(BeginCall(s0, Enqueue(request, payloadValid)), run),
                                Objection(s0, request, payloadValid);
            if objection.Some? then s.returned == Refused(objection.value) && s.accepted == s0.accepted
            else if |s0.outbound.normals| < OUTBOUND_LIMIT || s.returned.Accepted?
            then s.returned == Accepted(request.id) && s.accepted == s0.accepted + [request]
                 && s.known == s0.known + {request.id}
            else s.returned == Refused(QueueFull) && s.accepted == s0.accepted
  {
    var s := BeginCall(s0, Enqueue(request, payloadValid));
    EnqueuingBegins(s0, request, payloadValid);
    hide Enqueuing, Inv, Reachable, Possible, Execution, InsideEnqueue, Objection, BeginCall;
    ReachableInv(s0);
    KeepsBegin(s0, Enqueue(request, payloadValid));
    KnownAtRest(s0);
    EnqueuingRun(s0, request, payloadValid, s, run);
    EnqueuingMeans(s0, request, payloadValid, Execution(s, run));
  }

  lemma EnqueuingMeans(s0: State, request: Request, payloadValid: bool, s: State)
    requires Enqueuing(s0, request, payloadValid, s) && s.engine.Idle?
    ensures var objection := Objection(s0, request, payloadValid);
            if objection.Some? then s.returned == Refused(objection.value) && s.accepted == s0.accepted
            else if |s0.outbound.normals| < OUTBOUND_LIMIT || s.returned.Accepted?
            then s.returned == Accepted(request.id) && s.accepted == s0.accepted + [request]
                 && s.known == s0.known + {request.id}
            else s.returned == Refused(QueueFull) && s.accepted == s0.accepted
  {
    hide Objection;
  }

  // ---------------------------------------------------------------- poll

  /** Actions of the worker and the transport only. */
  predicate WorkerOnly(run: seq<Action>) {
    forall i :: 0 <= i < |run| ==> run[i].Worker? || run[i].Respond?
  }

  lemma {:induction false} WorkerRun(s: State, run: seq<Action>)
    requires Inv(s) && Possible(s, run) && WorkerOnly(run)
    ensures var s' := Execution(s, run);
            && Inv(s') && s'.engine == s.engine && s'.generation == s.generation && s'.polled == s.polled
            && s'.halted == s.halted
    decreases |run|
  {
    hide Inv;
    if run != [] {
      assert run[0].Worker? || run[0].Respond?;
      OutboundPlain(s);
      if run[0].Worker? {
        WorkerFrame(s);
      }
      StepInv(s, run[0]);
      assert WorkerOnly(run[1..]) by {
        assert forall i :: 0 <= i < |run[1..]| ==> run[1..][i] == run[i + 1];
      }
      hide StepWorker;
      WorkerRun(Step(s, run[0]), run[1..]);
    }
  }

  lemma OutboundPlain(s: State)
    requires Inv(s)
    ensures s.outbound.controls == []
  {
    assert Phases(s);
  }

  /** The results `poll` takes when it comes to the inbound queue: the first ones, as many as asked for. */
  function Taken(s: State, maximum: nat): seq<Publication> {
    var items := s.inbound.Items();
    if maximum < |items| then items[..maximum] else items
  }

  /**
    `poll` takes the first results that wait when it comes to the inbound queue, as many as asked for, and returns those
    of the current generation in order; what it does not take stays.
   */
  lemma PollExact(s0: State, maximum: nat, before: seq<Action>, after: seq<Action>)
    requires Reachable(s0) && s0.engine.Idle?
    requires Possible(BeginCall(s0, Poll(maximum)), before) && WorkerOnly(before)
    requires var d := Execution(BeginCall(s0, Poll(maximum)), before);
             Enabled(d, Engine) && Possible(Step(d, Engine), after) && WorkerOnly(after)
    ensures var d := Execution(BeginCall(s0, Poll(maximum)), before);
            var e := Execution(Step(d, Engine), after);
            var kept := Filter(Taken(d, maximum), (p: Publication) => p.result.generation == s0.generation);
            && Taken(d, maximum) + Step(d, Engine).inbound.Items() == d.inbound.Items()
            && Enabled(e, Engine) && Step(e, Engine).engine.Idle?
            && Step(e, Engine).returned == Polled(kept) && Step(e, Engine).polled == s0.polled + kept
  {
    hide *;
    var s1 := BeginCall(s0, Poll(maximum));
    PollBegins(s0, maximum);
    ReachableInv(s0);
    KeepsBegin(s0, Poll(maximum));
    WorkerRun(s1, before);
    var d := Execution(s1, before);
    StepInv(d, Engine);
    PollDrains(d, maximum);
    WorkerRun(Step(d, Engine), after);
    PollFilters(Execution(Step(d, Engine), after), Taken(d, maximum));
  }

  lemma PollBegins(s0: State, maximum: nat)
    requires s0.engine.Idle?
    ensures var s1 := BeginCall(s0, Poll(maximum));
            && s1.engine == PollDrain(if maximum < 128 then maximum else 128)
            && s1.generation == s0.generation && s1.polled == s0.polled
  {
  }

  lemma PollDrains(d: State, maximum: nat)
    requires Inv(d) && d.engine == PollDrain(if maximum < 128 then maximum else 128)
    ensures Enabled(d, Engine) && Step(d, Engine).engine == PollFilter(Taken(d, maximum))
    ensures Step(d, Engine).generation == d.generation && Step(d, Engine).polled == d.polled
    ensures Taken(d, maximum) + Step(d, Engine).inbound.Items() == d.inbound.Items()
  {
    InboundFits(d);
    hide Inv;
    var items := d.inbound.Items();
    var n := if maximum < |items| then maximum else |items|;
    assert items[..|items|] == items;
    assert Step(d, Engine).engine == PollFilter(items[..n]) && Step(d, Engine).inbound == d.inbound.DropFront(n);
    DropFrontItems(d.inbound, n);
    hide StepEngine;
  }

  lemma InboundFits(d: State)
    requires Inv(d)
    ensures |d.inbound.Items()| <= 128
  {
    assert Phases(d);
  }

  lemma DropFrontItems(l: Lanes<Publication>, n: nat)
    requires n <= |l.Items()|
    ensures l.Items()[..n] + l.DropFront(n).Items() == l.Items()
  {
  }

  lemma PollFilters(e: State, taken: seq<Publication>)
    requires e.engine == PollFilter(taken)
    ensures var kept := Filter(taken, (p: Publication) => p.result.generation == e.generation);
            && Enabled(e, Engine) && Step(e, Engine).engine.Idle?
            && Step(e, Engine).returned == Polled(kept) && Step(e, Engine).polled == e.polled + kept
  {
  }

  // ---------------------------------------------------------------- cancel

  lemma RegistryConsistent(s: State)
    requires Reachable(s)
    ensures s.registry.Consistent()
  {
    ReachableInv(s);
    assert Accounting(s);
    hide Reachable, Phases, Tables, Order, Generations, Publications, NothingLost, Delivery;
  }

  /** `cancel` succeeds exactly if the request is registered and not stopped, and stops that request alone. */
  lemma CancelExact(s: State)
    requires Reachable(s) && s.engine.CancelStop?
    ensures var s' := Step(s, Engine);
            && s'.registry.entries == s.registry.entries
            && (forall id :: id in s.registry.entries ==>
                  (s'.registry.Stopped(id) <==> s.registry.Stopped(id) || id == s.engine.id))
            && if s.engine.id in s.registry.entries && !s.registry.Stopped(s.engine.id)
               then s'.engine == CancelLedger(s.engine.id)
               else s'.engine.Idle? && s'.returned == Refused(InvalidArgument)
  {
    RegistryConsistent(s);
    hide Reachable;
    if s.engine.id in s.registry.entries {
      StopEffect(s.registry, {s.engine.id});
    }
  }

  // ---------------------------------------------------------------- cancelGeneration

  /** `cancelGeneration` is refused exactly if the generation is not the current one. */
  lemma CancelGenerationRefused(s: State)
    requires s.engine.GenerationCheck?
    ensures var s' := Step(s, Engine);
            if s.engine.target == s.generation then s'.engine == GenerationStop(s.engine.target)
            else s'.engine.Idle? && s'.returned == Refused(StaleGeneration)
  {
  }

  /** Of the results that wait, those of the generation go, and the others stay in order. */
  lemma CancelGenerationErases(s: State)
    requires s.engine.GenerationInbound?
    ensures var s' := Step(s, Engine);
            && (forall p :: p in s'.inbound.Items() ==> p.result.generation != s.engine.target)
            && Subsequence(s'.inbound.Items(), s.inbound.Items())
            && (forall p: Publication :: p.result.generation != s.engine.target ==>
                  multiset(s'.inbound.Items())[p] == multiset(s.inbound.Items())[p])
  {
    var keep := (p: Publication) => p.result.generation != s.engine.target;
    var a, b := s.inbound.controls, s.inbound.normals;
    ErasedItems(s, keep);
    FilterSubsequence(a, keep);
    FilterSubsequence(b, keep);
    hide *;
    SubsequenceConcat(Filter(a, keep), a, Filter(b, keep), b);
    forall p: Publication | p.result.generation != s.engine.target
      ensures multiset(Filter(a, keep) + Filter(b, keep))[p] == multiset(a + b)[p]
    {
      BridgeDelivery.FilterBag(a, keep, p);
      BridgeDelivery.FilterBag(b, keep, p);
    }
  }

  lemma ErasedItems(s: State, keep: Publication -> bool)
    requires s.engine.GenerationInbound?
    requires keep == ((p: Publication) => p.result.generation != s.engine.target)
    ensures s.inbound.Items() == s.inbound.controls + s.inbound.normals
    ensures Step(s, Engine).inbound.Items() == Filter(s.inbound.controls, keep) + Filter(s.inbound.normals, keep)
    ensures forall p :: p in Step(s, Engine).inbound.Items() ==> p.result.generation != s.engine.target
  {
    FilterSubsequence(s.inbound.controls, keep);
    FilterSubsequence(s.inbound.normals, keep);
    hide Filter, Subsequence;
  }

  /**
    When it returns the next generation, everything registered for the old one is stopped and nothing of it is
    queued.
   */
  lemma CancelGenerationEnds(s: State)
    requires Reachable(s) && s.engine.GenerationBump?
    ensures s.outbound.Items() == []
    ensures forall id :: id in s.registry.entries && s.registry.entries[id].generation == s.engine.target ==>
              s.registry.Stopped(id)
    ensures Step(s, Engine).returned == NewGeneration(s.engine.target + 1)
    ensures Step(s, Engine).generation == s.engine.target + 1
  {
    ReachableInv(s);
    assert Accounting(s);
    hide Inv, Reachable, Phases, Generations, Accounting, StopsHold;
    LeftGeneration(s);
  }

  lemma LeftGeneration(s: State)
    requires Phases(s) && Generations(s) && StopsHold(s) && s.engine.GenerationBump?
    ensures s.engine.target == s.generation && s.outbound.Items() == []
    ensures forall id :: id in s.registry.entries && s.registry.entries[id].generation == s.engine.target ==>
              s.registry.Stopped(id)
  {
  }

  // ---------------------------------------------------------------- halt

  /** What each step of `halt` leaves behind it. */
  ghost predicate Halting(s: State) {
    && (s.halted && !s.engine.HaltBump? && !s.engine.HaltStop? ==>
          forall id :: id in s.registry.entries ==> s.registry.Stopped(id))
    && (&& s.halted && !s.engine.HaltBump? && !s.engine.HaltStop? && !s.engine.HaltInterrupt?
        && !s.engine.HaltCloseOutbound?
        ==> s.outbound.closed)
    && (s.engine.HaltTables? || (s.halted && !InHalt(s.engine)) ==> s.inbound.closed)
    && (s.halted && !InHalt(s.engine) ==> s.known == {} && s.active == map[] && s.ledger == {})
    && (s.halted && !s.engine.HaltBump? ==> forall r :: r in s.accepted ==> r.generation < s.generation)
  }

  lemma HaltingEngine(s: State)
    requires Phases(s) && Halting(s) && s.registry.Consistent() && !s.engine.Idle?
    requires forall r :: r in s.accepted ==> r.generation <= s.generation
    ensures Halting(StepEngine(s))
  {
    if InHalt(s.engine) {
      HaltingHalt(s);
    } else {
      HaltingOthers(s);
    }
    hide Phases, Halting, StepHalt, StepEnqueue, StepPoll, StepCancel, StepCancelGeneration;
  }

  lemma HaltingHalt(s: State)
    requires Phases(s) && Halting(s) && s.registry.Consistent() && InHalt(s.engine)
    requires forall r :: r in s.accepted ==> r.generation <= s.generation
    ensures Halting(StepHalt(s))
  {
    if s.engine.HaltStop? {
      StopEffect(s.registry, s.registry.entries.Keys);
    }
  }

  /** A call other than `halt` makes a step only before `halt`, or is a poll. */
  lemma HaltingOthers(s: State)
    requires Phases(s) && Halting(s) && !s.engine.Idle? && !InHalt(s.engine)
    ensures Halting(StepEngine(s))
  {
    if s.halted {
      assert Halting(StepPoll(s));
    } else {
      NotHalted(s);
      hide Halting, StepEngine;
      BeforeHalt(StepEngine(s));
    }
  }

  lemma NotHalted(s: State)
    requires !s.halted && !s.engine.Idle? && !InHalt(s.engine)
    ensures !StepEngine(s).halted && !StepEngine(s).engine.HaltTables?
  {
  }

  lemma BeforeHalt(s: State)
    requires !s.halted && !s.engine.HaltTables?
    ensures Halting(s)
  {
  }

  lemma HaltingWorker(s: State)
    requires Phases(s) && Halting(s) && !s.worker.Execute? && !s.worker.Exited?
    ensures Halting(StepWorker(s))
  {
  }

  lemma HaltingStep(s: State, a: Action)
    requires Inv(s) && Halting(s) && Enabled(s, a)
    ensures Halting(Step(s, a))
  {
    assert Phases(s) && Accounting(s);
    assert s.registry.Consistent() && Generations(s);
    hide Inv, Phases, Halting, StepEngine, StepWorker, Accounting, BeginCall, StepExecute;
    match a {
      case Engine => HaltingEngine(s);
      case Worker => HaltingWorker(s);
      case Begin(call) => HaltingBegin(s, call);
      case Respond(response) => HaltingRespond(s, response);
    }
  }

  lemma HaltingBegin(s: State, call: Call)
    requires Halting(s) && s.engine.Idle?
    ensures Halting(BeginCall(s, call))
  {
  }

  lemma HaltingRespond(s: State, response: Result<InboundResult>)
    requires Halting(s) && s.worker.Execute?
    ensures Halting(StepExecute(s, response))
  {
  }

  lemma {:induction false} HaltingRun(s: State, run: seq<Action>)
    requires Inv(s) && Halting(s) && Possible(s, run)
    ensures Halting(Execution(s, run))
    decreases |run|
  {
    hide Inv, Halting;
    if run != [] {
      HaltingStep(s, run[0]);
      StepInv(s, run[0]);
      HaltingRun(Step(s, run[0]), run[1..]);
    }
  }

  lemma ReachableHalting(s: State)
    requires Reachable(s)
    ensures Halting(s)
  {
    var g: nat, run: seq<Action> :| Possible(Start(g), run) && Execution(Start(g), run) == s;
    assert Halting(Start(g));
    StartInv(g);
    hide Inv, Halting, Possible, Execution, Start;
    HaltingRun(Start(g), run);
  }

  /** After `halt` both queues are closed, nothing waits in the inbound one, every request is stopped, no table has an
      entry, every accepted request is of a generation that was left, and the worker is gone. */
  lemma HaltEnds(s: State)
    requires Reachable(s) && s.halted && !InHalt(s.engine)
    ensures s.outbound.closed && s.inbound.closed && s.inbound.Items() == [] && s.worker.Exited?
    ensures forall id :: id in s.registry.entries ==> s.registry.Stopped(id)
    ensures s.known == {} && s.active == map[] && s.ledger == {}
    ensures forall r :: r in s.accepted ==> r.generation < s.generation
  {
    ReachableHalting(s);
    ReachableInv(s);
    assert Phases(s);
  }

  /** How many steps the worker can still make once it is to stop. */
  function StepsLeft(w: WorkerPc): nat {
    match w
    case Exited => 0
    case Popped(_) => 1
    case Waiting => 2
    case Complete(_) => 3
    case PushCancel(_) => 4
    case PushOutcome(_, _) => 4
    case ClaimCancel(_) => 5
    case Fallback(_, _) => 5
    case Decide(_, _, _, _) => 6
    case Erase(_, _, _) => 7
    case Sample(_, _, _) => 8
    case Execute(_, _) => 9
    case Activate(_, _) => 10
    case TestGeneration(_, _) => 11
    case TestStop(_, _) => 12
    case Lookup(_) => 13
  }

  lemma StopsSooner(s: State, a: Action)
    requires Phases(s) && s.halted && s.outbound.closed && Enabled(s, a) && (a.Worker? || a.Respond?)
    ensures StepsLeft(Step(s, a).worker) < StepsLeft(s.worker)
  {
    if a.Worker? {
      hide StepBeforeExecute, StepAfterExecute, StepsLeft, Phases;
      if AfterExecute(s.worker) {
        AfterSooner(s);
      } else {
        BeforeSooner(s);
      }
    }
  }

  lemma AfterSooner(s: State)
    requires AfterExecute(s.worker)
    ensures StepsLeft(StepAfterExecute(s).worker) < StepsLeft(s.worker)
  {
    hide Correlated, FailureResult;
  }

  lemma BeforeSooner(s: State)
    requires s.halted && s.outbound.closed && !s.worker.Execute? && !s.worker.Exited? && !AfterExecute(s.worker)
    ensures StepsLeft(StepBeforeExecute(s).worker) < StepsLeft(s.worker)
  {
  }

  lemma JoiningStep(s: State, a: Action)
    requires Inv(s) && Halting(s) && s.engine.HaltJoin? && Enabled(s, a) && (a.Worker? || a.Respond?)
    ensures StepsLeft(Step(s, a).worker) < StepsLeft(s.worker) && Step(s, a).engine == s.engine
  {
    assert Phases(s);
    OutboundPlain(s);
    hide Inv, Tables, Order, Generations, Accounting, Publications, NothingLost, Delivery;
    StopsSooner(s, a);
    if a.Worker? {
      WorkerFrame(s);
    }
  }

  lemma {:induction false} JoiningRun(s: State, run: seq<Action>)
    requires Inv(s) && Halting(s) && s.engine.HaltJoin? && Possible(s, run) && WorkerOnly(run)
    ensures |run| <= StepsLeft(s.worker)
    decreases |run|
  {
    hide Inv, Halting, StepsLeft;
    if run != [] {
      assert run[0].Worker? || run[0].Respond?;
      JoiningStep(s, run[0]);
      HaltingStep(s, run[0]);
      StepInv(s, run[0]);
      assert forall i :: 0 <= i < |run[1..]| ==> run[1..][i] == run[i + 1];
      JoiningRun(Step(s, run[0]), run[1..]);
    }
  }

  /** `halt` cannot hang on the worker: while it waits the worker can move, and it is gone after at most 13 steps. */
  lemma HaltReturns(s: State, run: seq<Action>)
    requires Reachable(s) && s.engine.HaltJoin?
    requires Possible(s, run) && WorkerOnly(run)
    ensures |run| <= 13
    ensures Enabled(Execution(s, run), Engine)
            || exists a: Action :: (a.Worker? || a.Respond?) && Enabled(Execution(s, run), a)
  {
    hide Inv, Halting, Reachable, Possible, Execution, Enabled;
    ReachableInv(s);
    ReachableHalting(s);
    JoiningRun(s, run);
    WorkerRun(s, run);
    SomeoneMoves(Execution(s, run));
  }

  lemma SomeoneMoves(t: State)
    requires t.engine.HaltJoin?
    ensures Enabled(t, Engine) || exists a: Action :: (a.Worker? || a.Respond?) && Enabled(t, a)
  {
    if t.worker.Execute? {
      assert Enabled(t, Respond(Err(TransportFailure)));
    } else if !t.worker.Exited? {
      assert Enabled(t, Worker);
    }
  }
}
