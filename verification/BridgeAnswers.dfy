/** What becomes of the transport's answers, and who gets a cancelled result. */
module BridgeAnswers {
  import opened Results
  import opened Sequences
  import opened Queues
  import opened Lifecycle
  import opened Bridge
  import opened BridgeInvariants
  import opened BridgeSteps
  import opened BridgeTheorems
  import opened BridgeDelivery

  // ---------------------------------------------------------------- what a request is due

  /** The answer names the request, its session and its generation; an init request without a session is given one. */
  predicate Agrees(request: Request, answer: InboundResult) {
    && answer.request == request.id && answer.generation == request.generation
    && (|| answer.session == request.session
        || (request.kind.Init? && request.session == "" && IsCanonicalUuid(answer.session)))
  }

  /** The answer itself if it agrees with the request, and the request's failure otherwise. */
  function Due(request: Request, answer: Result<InboundResult>): InboundResult {
    if answer.Ok? && Agrees(request, answer.value) then answer.value
    else InboundResult(request.id, request.session, request.generation,
                       Failure(if answer.Ok? then TransportFailure else answer.error))
  }

  /** The result is what one executed request was due for the answer it got. */
  ghost predicate Answers(s: State, result: InboundResult) {
    exists i :: 0 <= i < |s.executed| && i < |s.answers|
                && s.executed[i].id == result.request && result == Due(s.executed[i], s.answers[i])
  }

  /** The worker has executed its request last, and got `answer`. */
  ghost predicate Latest(s: State, request: Request) {
    s.executed != [] && |s.answers| == |s.executed| && s.executed[|s.executed| - 1] == request
  }

  function LatestAnswer(s: State): Result<InboundResult>
    requires s.answers != []
  {
    s.answers[|s.answers| - 1]
  }

  /** What the worker is about to publish is what its request is due. */
  ghost predicate InHand(s: State) {
    && |s.answers| == |s.executed|
    && (AfterExecute(s.worker) ==> Latest(s, s.worker.request))
    && (s.worker.Sample? || s.worker.Erase? || s.worker.Decide? ==> s.worker.response == LatestAnswer(s))
    && (s.worker.Fallback? ==>
          FailureResult(s.worker.request, s.worker.error) == Due(s.worker.request, LatestAnswer(s))
          || s.worker.request.generation < s.generation)
    && (s.worker.PushOutcome? ==> s.worker.result == Due(s.worker.request, LatestAnswer(s)))
  }

  /** Accepted requests name themselves and their sessions properly. */
  ghost predicate WellFormed(s: State) {
    && (forall r :: r in s.accepted ==> IsCanonicalUuid(r.id) && SessionOk(r))
    && (s.engine.Insert? || s.engine.Register? || s.engine.Push? ==>
          IsCanonicalUuid(s.engine.request.id) && SessionOk(s.engine.request))
  }

  ghost predicate OutcomesDue(s: State) {
    forall p :: p in s.published && !p.cancellation ==> Answers(s, p.result)
  }

  // ---------------------------------------------------------------- the engine changes none of this

  predicate WorkerLeft(s: State, s': State) {
    && s'.worker == s.worker && s'.executed == s.executed && s'.answers == s.answers
    && s'.generation >= s.generation
  }

  lemma EnqueueFrame(s: State)
    requires InEnqueue(s.engine)
    ensures WorkerLeft(s, StepEnqueue(s))
  {
    hide IsCanonicalUuid, SessionOk, Refusal;
  }

  lemma OthersFrame(s: State)
    ensures s.engine.PollDrain? || s.engine.PollFilter? ==> WorkerLeft(s, StepPoll(s))
    ensures InCancel(s.engine) ==> WorkerLeft(s, StepCancel(s))
    ensures InCancelGeneration(s.engine) ==> WorkerLeft(s, StepCancelGeneration(s))
    ensures InHalt(s.engine) ==> WorkerLeft(s, StepHalt(s))
  {
    hide Refusal;
  }

  lemma EngineFrame(s: State)
    requires !s.engine.Idle?
    ensures WorkerLeft(s, StepEngine(s))
  {
    if InEnqueue(s.engine) {
      EnqueueFrame(s);
    } else {
      OthersFrame(s);
    }
    hide WorkerLeft, StepEnqueue, StepPoll, StepCancel, StepCancelGeneration, StepHalt;
  }

  lemma EngineInHand(s: State, s': State)
    requires InHand(s) && s'.worker == s.worker && s'.executed == s.executed && s'.answers == s.answers
    requires s'.generation >= s.generation
    ensures InHand(s')
  {
  }

  lemma AnswersMore(s: State, s': State, result: InboundResult)
    requires Answers(s, result) && s.executed <= s'.executed && s.answers <= s'.answers
    ensures Answers(s', result)
  {
    var i :| 0 <= i < |s.executed| && i < |s.answers|
             && s.executed[i].id == result.request && result == Due(s.executed[i], s.answers[i]);
    assert s'.executed[i] == s.executed[i] && s'.answers[i] == s.answers[i];
  }

  // ---------------------------------------------------------------- worker steps

  /** The source's test accepts an answer exactly if it agrees, for a request that was accepted. */
  lemma CorrelatedMeans(request: Request, response: InboundResult)
    requires IsCanonicalUuid(request.id) && SessionOk(request)
    ensures Correlated(request, response) <==> Agrees(request, response)
  {
    hide IsCanonicalUuid;
  }

  lemma SampleInHand(s: State)
    requires InHand(s) && (s.worker.Sample? || s.worker.Erase?)
    ensures InHand(StepAfterExecute(s))
  {
    hide Due;
  }

  lemma DecideInHand(s: State)
    requires InHand(s) && s.worker.Decide? && IsCanonicalUuid(s.worker.request.id) && SessionOk(s.worker.request)
    requires s.worker.request.generation <= s.generation
    ensures InHand(StepAfterExecute(s))
  {
    if s.worker.response.Ok? {
      CorrelatedMeans(s.worker.request, s.worker.response.value);
    }
    hide Correlated, IsCanonicalUuid, SessionOk;
  }

  lemma FallbackInHand(s: State)
    requires InHand(s) && s.worker.Fallback?
    ensures InHand(StepAfterExecute(s))
  {
    hide Due;
  }

  lemma PushInHand(s: State)
    requires InHand(s) && s.worker.PushOutcome?
    ensures InHand(StepAfterExecute(s))
  {
    hide Due;
  }

  lemma BeforeInHand(s: State)
    requires InHand(s) && !s.worker.Execute? && !s.worker.Exited? && !AfterExecute(s.worker)
    ensures InHand(StepBeforeExecute(s))
  {
    hide Due;
  }

  lemma ExecuteInHand(s: State, response: Result<InboundResult>)
    requires InHand(s) && s.worker.Execute?
    ensures InHand(StepExecute(s, response))
  {
    hide Due;
  }

  lemma HeldFacts(s: State)
    requires Inv(s) && WellFormed(s) && Held(s.worker).Some?
    ensures IsCanonicalUuid(s.worker.request.id) && SessionOk(s.worker.request)
    ensures s.worker.request.generation <= s.generation
  {
    assert Order(s) && Generations(s);
    hide Inv, Phases, Tables, Accounting, Publications, NothingLost, Delivery, IsCanonicalUuid, SessionOk;
  }

  lemma StepInHand(s: State, a: Action)
    requires Inv(s) && WellFormed(s) && InHand(s) && Enabled(s, a)
    ensures InHand(Step(s, a))
  {
    hide Inv, WellFormed, InHand, StepEngine, StepBeforeExecute, StepAfterExecute, StepExecute;
    match a {
      case Begin(call) => EngineInHand(s, BeginCall(s, call));
      case Engine =>
        EngineFrame(s);
        EngineInHand(s, StepEngine(s));
      case Respond(response) => ExecuteInHand(s, response);
      case Worker =>
        if !AfterExecute(s.worker) {
          BeforeInHand(s);
        } else if s.worker.Sample? || s.worker.Erase? {
          SampleInHand(s);
        } else if s.worker.Decide? {
          HeldFacts(s);
          DecideInHand(s);
        } else if s.worker.Fallback? {
          FallbackInHand(s);
        } else {
          PushInHand(s);
        }
    }
  }

  lemma StepWellFormed(s: State, a: Action)
    requires WellFormed(s) && Enabled(s, a)
    ensures WellFormed(Step(s, a))
  {
    hide IsCanonicalUuid, SessionOk;
    match a {
      case Engine => EngineWellFormed(s);
      case Worker => WorkerAccepts(s);
      case _ =>
    }
  }

  lemma WorkerAccepts(s: State)
    requires !s.worker.Execute? && !s.worker.Exited?
    ensures StepWorker(s).accepted == s.accepted && StepWorker(s).engine == s.engine
  {
  }

  predicate Enqueueing(e: EnginePc) {
    e.Insert? || e.Register? || e.Push?
  }

  /** The request in `enqueue` has passed its checks, and is the only one that can become accepted. */
  ghost predicate Accepting(s: State, s': State) {
    && (s'.accepted == s.accepted || (s.engine.Push? && s'.accepted == s.accepted + [s.engine.request]))
    && (Enqueueing(s'.engine) ==>
          && (s.engine.Validate? || Enqueueing(s.engine)) && s'.engine.request == s.engine.request
          && (s.engine.Validate? ==> IsCanonicalUuid(s.engine.request.id) && SessionOk(s.engine.request)))
  }

  lemma EnqueueAccepts(s: State)
    requires InEnqueue(s.engine)
    ensures Accepting(s, StepEnqueue(s))
  {
    hide IsCanonicalUuid, SessionOk, Refusal;
  }

  lemma OthersAccept(s: State)
    ensures s.engine.PollDrain? || s.engine.PollFilter? ==> Accepting(s, StepPoll(s))
    ensures InCancel(s.engine) ==> Accepting(s, StepCancel(s))
    ensures InCancelGeneration(s.engine) ==> Accepting(s, StepCancelGeneration(s))
    ensures InHalt(s.engine) ==> Accepting(s, StepHalt(s))
  {
    hide IsCanonicalUuid, SessionOk;
  }

  lemma EngineWellFormed(s: State)
    requires WellFormed(s) && !s.engine.Idle?
    ensures WellFormed(StepEngine(s))
  {
    if InEnqueue(s.engine) {
      EnqueueAccepts(s);
    } else {
      OthersAccept(s);
    }
    assert Accepting(s, StepEngine(s)) by {
      hide Accepting, StepEnqueue, StepPoll, StepCancel, StepCancelGeneration, StepHalt, WellFormed;
    }
    hide IsCanonicalUuid, SessionOk, StepEngine;
  }

  /** The two histories grow by one entry together, and only when `execute` returns. */
  lemma StepExecutes(s: State, a: Action)
    requires Enabled(s, a)
    ensures s.executed <= Step(s, a).executed && s.answers <= Step(s, a).answers
  {
    match a {
      case Engine => EngineFrame(s);
      case Worker => WorkerExecutes(s);
      case _ =>
    }
  }

  lemma WorkerExecutes(s: State)
    requires !s.worker.Execute? && !s.worker.Exited?
    ensures StepWorker(s).executed == s.executed && StepWorker(s).answers == s.answers
  {
  }

  lemma PushesDue(s: State)
    requires InHand(s) && s.worker.PushOutcome?
    ensures Answers(s, s.worker.result)
  {
    var n := |s.executed| - 1;
    assert s.executed[n] == s.worker.request && s.worker.result == Due(s.executed[n], s.answers[n]);
    DueNames(s.executed[n], s.answers[n]);
  }

  lemma DueNames(request: Request, answer: Result<InboundResult>)
    ensures Due(request, answer).request == request.id && Due(request, answer).generation == request.generation
  {
  }

  lemma StepOutcomes(s: State, a: Action)
    requires Phases(s) && Conserved(s) && InHand(s) && OutcomesDue(s) && Enabled(s, a)
    ensures OutcomesDue(Step(s, a))
  {
    if Handed(s, a).Some? {
      WriterFindsQueueOpen(s, a);
    }
    StepHands(s, a);
    StepExecutes(s, a);
    hide Phases, Conserved, InHand, Step, Enabled;
    forall p | p in Step(s, a).published && !p.cancellation ensures Answers(Step(s, a), p.result) {
      if p in s.published {
        AnswersMore(s, Step(s, a), p.result);
      } else {
        PushesDue(s);
        AnswersMore(s, Step(s, a), p.result);
      }
    }
  }

  // ---------------------------------------------------------------- cancellations are asked for

  /** Somebody has asked for the end of this request: `cancel`, `cancelGeneration` or `halt`. */
  ghost predicate Asked(s: State, id: Id, generation: nat) {
    CancelStopped(id) in s.trace || generation < s.generation || Cancelling(s.engine, generation) || s.halted
  }

  ghost predicate StoppedAsked(s: State) {
    forall id :: id in s.registry.entries && s.registry.Stopped(id) ==> Asked(s, id, s.registry.entries[id].generation)
  }

  /** So is every cancelled result that one of the threads is about to publish. */
  ghost predicate HandAsked(s: State) {
    && (s.worker.ClaimCancel? || s.worker.PushCancel? || ((s.worker.Erase? || s.worker.Decide?) && s.worker.sampled) ==>
          Asked(s, s.worker.request.id, s.worker.request.generation))
    && (s.engine.CancelLedger? ==> CancelStopped(s.engine.id) in s.trace)
    && (s.engine.CancelPush? ==> CancelStopped(s.engine.request.id) in s.trace)
  }

  ghost predicate CancelsAsked(s: State) {
    forall p :: p in s.published && p.cancellation ==>
      && p.result.kind == Cancelled && From(s.accepted, p.result)
      && Asked(s, p.result.request, p.result.generation)
  }

  /** Once asked for, always asked for. */
  ghost predicate Remembers(s: State, s': State) {
    && s.trace <= s'.trace && s.generation <= s'.generation && (s.halted ==> s'.halted)
    && (forall g: nat :: Cancelling(s.engine, g) ==> Cancelling(s'.engine, g) || g < s'.generation)
  }

  lemma AskedStays(s: State, s': State, id: Id, generation: nat)
    requires Asked(s, id, generation) && Remembers(s, s')
    ensures Asked(s', id, generation)
  {
    if CancelStopped(id) in s.trace {
      assert s'.trace == s.trace + s'.trace[|s.trace|..];
    }
  }

  lemma EngineRemembers(s: State)
    requires Phases(s) && !s.engine.Idle?
    ensures Remembers(s, StepEngine(s))
  {
  }

  lemma WorkerRemembers(s: State)
    requires !s.worker.Execute? && !s.worker.Exited?
    ensures Remembers(s, StepWorker(s))
  {
  }

  lemma StepRemembers(s: State, a: Action)
    requires Phases(s) && Enabled(s, a)
    ensures Remembers(s, Step(s, a))
  {
    hide StepEngine, StepWorker;
    match a {
      case Engine =>
        EngineRemembers(s);
      case Worker =>
        hide Phases;
        WorkerRemembers(s);
      case _ =>
    }
  }

  /** Registry steps: what is stopped afterwards was stopped before, or has just been asked for. */
  lemma EngineStops(s: State, id: Id)
    requires Entries(s) && StoppedAsked(s) && Phases(s) && !s.engine.Idle?
    requires id in StepEngine(s).registry.entries && StepEngine(s).registry.Stopped(id)
    ensures Asked(StepEngine(s), id, StepEngine(s).registry.entries[id].generation)
  {
    var s' := StepEngine(s);
    EngineRemembers(s);
    EngineStopsFrame(s, id);
    hide StepEngine, Phases, Remembers, Asked, Entries;
    if StoppedBefore(s, s', id) {
      AskedStays(s, s', id, s.registry.entries[id].generation);
    }
  }

  /** The entry was stopped already, as it is now. */
  ghost predicate StoppedBefore(s: State, s': State, id: Id)
    requires id in s'.registry.entries
  {
    id in s.registry.entries && s.registry.Stopped(id) && s.registry.entries[id] == s'.registry.entries[id]
  }

  lemma EnqueueStops(s: State, id: Id)
    requires s.registry.Consistent() && InEnqueue(s.engine)
    requires id in StepEnqueue(s).registry.entries && StepEnqueue(s).registry.Stopped(id)
    ensures StoppedBefore(s, StepEnqueue(s), id)
  {
    hide Refusal, IsCanonicalUuid, SessionOk;
  }

  lemma CancelStops(s: State, id: Id)
    requires s.registry.Consistent() && InCancel(s.engine)
    requires id in StepCancel(s).registry.entries && StepCancel(s).registry.Stopped(id)
    ensures StoppedBefore(s, StepCancel(s), id) || CancelStopped(id) in StepCancel(s).trace
  {
    if s.engine.CancelStop? && s.engine.id in s.registry.entries {
      StopEffect(s.registry, {s.engine.id});
    }
  }

  lemma CancelGenerationStops(s: State, id: Id)
    requires s.registry.Consistent() && InCancelGeneration(s.engine)
    requires id in StepCancelGeneration(s).registry.entries && StepCancelGeneration(s).registry.Stopped(id)
    ensures var s' := StepCancelGeneration(s);
            StoppedBefore(s, s', id) || Cancelling(s'.engine, s'.registry.entries[id].generation)
  {
    StopEffect(s.registry, s.registry.OfGeneration(s.engine.target));
    GenerationFrame(s);
    hide StepCancelGeneration;
  }

  lemma OtherStops(s: State)
    requires s.engine.PollDrain? || s.engine.PollFilter?
    ensures StepPoll(s).registry == s.registry
  {
  }

  lemma EngineStopsFrame(s: State, id: Id)
    requires Entries(s) && Phases(s) && !s.engine.Idle?
    requires id in StepEngine(s).registry.entries && StepEngine(s).registry.Stopped(id)
    ensures Asked(StepEngine(s), id, StepEngine(s).registry.entries[id].generation)
            || StoppedBefore(s, StepEngine(s), id)
  {
    assert s.registry.Consistent() && (InHalt(s.engine) ==> s.halted);
    hide Entries, Phases, StepEnqueue, StepPoll, StepCancel, StepCancelGeneration, StepHalt;
    if InEnqueue(s.engine) {
      EnqueueStops(s, id);
    } else if s.engine.PollDrain? || s.engine.PollFilter? {
      OtherStops(s);
    } else if InCancel(s.engine) {
      CancelStops(s, id);
    } else if InCancelGeneration(s.engine) {
      CancelGenerationStops(s, id);
    } else {
      HaltFrame(s);
    }
  }

  lemma WorkerStopsFrame(s: State)
    requires !s.worker.Execute? && !s.worker.Exited?
    ensures StepWorker(s).registry.requested == s.registry.requested
    ensures forall id :: id in StepWorker(s).registry.entries ==>
              id in s.registry.entries && s.registry.entries[id] == StepWorker(s).registry.entries[id]
  {
  }

  lemma StepStoppedAsked(s: State, a: Action)
    requires Phases(s) && Entries(s) && StoppedAsked(s) && Enabled(s, a)
    ensures StoppedAsked(Step(s, a))
  {
    StepRemembers(s, a);
    var s' := Step(s, a);
    hide Phases, Remembers, Asked, StepEngine, StepWorker;
    forall id | id in s'.registry.entries && s'.registry.Stopped(id)
      ensures Asked(s', id, s'.registry.entries[id].generation)
    {
      if a.Engine? {
        EngineStops(s, id);
      } else {
        if a.Worker? {
          WorkerStopsFrame(s);
        }
        assert id in s.registry.entries && s.registry.Stopped(id);
        AskedStays(s, s', id, s.registry.entries[id].generation);
      }
    }
  }

  lemma EngineHandAsked(s: State)
    requires Phases(s) && Tables(s) && HandAsked(s) && !s.engine.Idle?
    ensures HandAsked(StepEngine(s))
  {
    EngineRemembers(s);
    EngineFrame(s);
    EngineAsks(s);
    hide StepEngine, Phases, Tables, Remembers, Asked;
    if s.worker.Exited? || s.worker.Waiting? {
    } else if Asked(s, s.worker.request.id, s.worker.request.generation) {
      AskedStays(s, StepEngine(s), s.worker.request.id, s.worker.request.generation);
    }
  }

  lemma EngineAsks(s: State)
    requires Tables(s) && HandAsked(s) && !s.engine.Idle?
    ensures StepEngine(s).engine.CancelLedger? ==> CancelStopped(StepEngine(s).engine.id) in StepEngine(s).trace
    ensures StepEngine(s).engine.CancelPush? ==> CancelStopped(StepEngine(s).engine.request.id) in StepEngine(s).trace
  {
    hide Tables, HandAsked, StepCancel;
    if InCancel(s.engine) {
      CancelAsks(s);
    } else {
      NobodyAsks(s);
    }
  }

  lemma CancelAsks(s: State)
    requires Tables(s) && HandAsked(s) && InCancel(s.engine)
    ensures StepCancel(s).engine.CancelLedger? ==> CancelStopped(StepCancel(s).engine.id) in StepCancel(s).trace
    ensures StepCancel(s).engine.CancelPush? ==> CancelStopped(StepCancel(s).engine.request.id) in StepCancel(s).trace
  {
    hide Ids;
  }

  lemma NobodyAsks(s: State)
    requires !s.engine.Idle? && !InCancel(s.engine)
    ensures !StepEngine(s).engine.CancelLedger? && !StepEngine(s).engine.CancelPush?
  {
  }

  lemma BeforeHandAsked(s: State)
    requires TokenHeld(s) && StoppedAsked(s) && HandAsked(s)
    requires !s.worker.Execute? && !s.worker.Exited? && !AfterExecute(s.worker)
    ensures HandAsked(StepBeforeExecute(s))
  {
  }

  lemma AfterHandAsked(s: State)
    requires TokenHeld(s) && StoppedAsked(s) && HandAsked(s) && AfterExecute(s.worker)
    ensures HandAsked(StepAfterExecute(s))
  {
  }

  lemma BeginHandAsked(s: State, call: Call)
    requires HandAsked(s) && s.engine.Idle?
    ensures HandAsked(BeginCall(s, call))
  {
  }

  lemma ExecuteHandAsked(s: State, response: Result<InboundResult>)
    requires HandAsked(s) && s.worker.Execute?
    ensures HandAsked(StepExecute(s, response))
  {
  }

  lemma StepHandAsked(s: State, a: Action)
    requires Phases(s) && Tables(s) && TokenHeld(s) && StoppedAsked(s) && HandAsked(s) && Enabled(s, a)
    ensures HandAsked(Step(s, a))
  {
    hide Phases, Tables, TokenHeld, StoppedAsked, HandAsked, BeginCall, StepEngine, StepBeforeExecute, StepAfterExecute,
         StepExecute;
    match a {
      case Begin(call) => BeginHandAsked(s, call);
      case Engine => EngineHandAsked(s);
      case Respond(response) => ExecuteHandAsked(s, response);
      case Worker =>
        if AfterExecute(s.worker) {
          AfterHandAsked(s);
        } else {
          BeforeHandAsked(s);
        }
    }
  }

  /** A thread that hands over a cancelled result was asked to. */
  lemma HandsAsked(s: State, a: Action)
    requires Inv(s) && HandAsked(s) && Enabled(s, a) && Handed(s, a).Some? && Handed(s, a).value.cancellation
    ensures var r := Handed(s, a).value.result;
            r.kind == Cancelled && From(s.accepted, r) && Asked(s, r.request, r.generation)
  {
    if a.Engine? {
      assert Publications(s);
    } else {
      HeldAcceptedRequest(s);
    }
  }

  lemma HeldAcceptedRequest(s: State)
    requires Inv(s) && Held(s.worker).Some?
    ensures s.worker.request in s.accepted && s.worker.request.generation <= s.generation
  {
    assert Order(s) && Generations(s);
  }

  lemma AcceptedGrows(s: State, a: Action)
    requires Enabled(s, a)
    ensures s.accepted <= Step(s, a).accepted
  {
    if a.Worker? {
      WorkerAccepts(s);
    }
  }

  lemma StepCancelsAsked(s: State, a: Action)
    requires Inv(s) && Conserved(s) && HandAsked(s) && CancelsAsked(s) && Enabled(s, a)
    ensures CancelsAsked(Step(s, a))
  {
    hide Inv, Phases, Tables, Entries, TokenHeld, Conserved, HandAsked, Step, Enabled, Handed, Remembers, Asked, From;
    var s' := Step(s, a);
    InvPhases(s);
    if Handed(s, a).Some? {
      WriterFindsQueueOpen(s, a);
      if Handed(s, a).value.cancellation {
        HandsAsked(s, a);
      }
    }
    StepHands(s, a);
    StepRemembers(s, a);
    AcceptedGrows(s, a);
    forall p | p in s'.published && p.cancellation
      ensures p.result.kind == Cancelled && From(s'.accepted, p.result)
              && Asked(s', p.result.request, p.result.generation)
    {
      assert p in s.published || Handed(s, a) == Some(p);
      AskedStays(s, s', p.result.request, p.result.generation);
      FromMore(s.accepted, s'.accepted[|s.accepted|..], p.result);
      assert s.accepted + s'.accepted[|s.accepted|..] == s'.accepted;
    }
  }

  lemma InvPhases(s: State)
    requires Inv(s)
    ensures Phases(s) && Tables(s) && Entries(s) && TokenHeld(s)
  {
    assert Accounting(s);
  }

  // ---------------------------------------------------------------- runs

  ghost predicate Truthful(s: State) {
    && InHand(s) && WellFormed(s) && OutcomesDue(s)
    && StoppedAsked(s) && HandAsked(s) && CancelsAsked(s)
  }

  lemma StartTruthful(g: nat)
    ensures Truthful(Start(g))
  {
  }

  lemma StepTruthful(s: State, a: Action)
    requires Inv(s) && Conserved(s) && Truthful(s) && Enabled(s, a)
    ensures Truthful(Step(s, a))
  {
    InvPhases(s);
    hide Inv, Conserved, InHand, WellFormed, OutcomesDue, StoppedAsked, HandAsked, CancelsAsked, Phases, Tables,
         Entries, TokenHeld, Step, Enabled;
    StepInHand(s, a);
    StepWellFormed(s, a);
    StepOutcomes(s, a);
    StepStoppedAsked(s, a);
    StepHandAsked(s, a);
    StepCancelsAsked(s, a);
  }

  lemma {:induction false} RunTruthful(s: State, run: seq<Action>)
    requires Inv(s) && Conserved(s) && Truthful(s) && Possible(s, run)
    ensures Truthful(Execution(s, run))
    decreases |run|
  {
    hide Inv, Conserved, Truthful;
    if run != [] {
      StepTruthful(s, run[0]);
      StepConserved(s, run[0]);
      StepInv(s, run[0]);
      RunTruthful(Step(s, run[0]), run[1..]);
    }
  }

  lemma ReachableTruthful(s: State)
    requires Reachable(s)
    ensures Truthful(s)
  {
    var g: nat, run: seq<Action> :| Possible(Start(g), run) && Execution(Start(g), run) == s;
    hide Inv, Conserved, Truthful, Possible, Execution, Start;
    StartInv(g);
    StartConserved(g);
    StartTruthful(g);
    RunTruthful(Start(g), run);
  }

  // ---------------------------------------------------------------- the theorems

  /**
    Every result published for an executed request is what the transport answered to that request, if the answer agrees
    with the request in identifier, session and generation, and otherwise the request's failure with the reason. No
    request has two answers.
   */
  lemma PublishedIsAnswer(s: State, p: Publication)
    requires Reachable(s) && p in s.published && !p.cancellation
    ensures |s.answers| == |s.executed| && Distinct(s.executed)
    ensures exists i :: 0 <= i < |s.executed| && s.executed[i].id == p.result.request
                        && p.result == Due(s.executed[i], s.answers[i])
  {
    ReachableTruthful(s);
    ExecutedOnceInOrder(s);
    hide Reachable, Due, Distinct;
    assert Answers(s, p.result);
  }

  /** No request gets a cancelled result that `cancel`, `cancelGeneration` or `halt` was not asked for. */
  lemma CancelledOnlyIfAsked(s: State, p: Publication)
    requires Reachable(s) && p in s.published && p.cancellation
    ensures p.result.kind == Cancelled
    ensures exists r :: r in s.accepted && r.id == p.result.request && r.generation == p.result.generation
    ensures || CancelStopped(p.result.request) in s.trace || p.result.generation < s.generation
            || Cancelling(s.engine, p.result.generation) || s.halted
  {
    ReachableTruthful(s);
    hide Reachable;
    assert From(s.accepted, p.result);
  }

  /**
    The answer gets through: once the worker is done with an executed request of the live generation that nobody
    cancelled, the result it is due has been polled, is on its way, or met a full inbound queue.
   */
  lemma AnswerDelivered(s: State, i: nat)
    requires Reachable(s) && !s.halted && !InCancelGeneration(s.engine) && i < |s.executed| == |s.answers|
    requires s.executed[i].generation == s.generation && CancelStopped(s.executed[i].id) !in s.trace
    requires Held(s.worker).Some? && !s.worker.Complete? ==> s.worker.request.id != s.executed[i].id
    ensures var p := Publication(Due(s.executed[i], s.answers[i]), false); p in InTransit(s) || p in s.dropped
  {
    var r := s.executed[i];
    ExecutedAccepted(s, i);
    WaitsHeldOrHandedOver(s, r);
    NotCancelled(s, r);
    var p := OutcomeOf(s.published, r.id);
    PublishedIsAnswer(s, p);
    hide Due, InTransit;
    var j :| 0 <= j < |s.executed| && s.executed[j].id == p.result.request
             && p.result == Due(s.executed[j], s.answers[j]);
    DistinctAt(s.executed, i, j);
    DueNames(s.executed[i], s.answers[i]);
    EveryResultKeptOrDropped(s, p);
  }

  lemma ExecutedAccepted(s: State, i: nat)
    requires Reachable(s) && i < |s.executed|
    ensures s.executed[i] in s.accepted && s.executed[i].id !in Ids(s.outbound.normals)
  {
    ReachableInv(s);
    assert Order(s);
    hide Inv, Reachable;
    var tail := Pending(s.worker) + s.outbound.normals;
    assert s.executed + Pending(s.worker) + s.outbound.normals == s.executed + tail;
    SubsequenceDistinct(s.executed + tail, s.accepted);
    SubsequenceMembers(s.executed + tail, s.accepted);
    DistinctSuffix(s.executed, tail);
    IdsAppend(Pending(s.worker), s.outbound.normals);
    IdsOf(s.executed);
    assert s.executed[i] in s.executed + tail;
  }

  lemma NotCancelled(s: State, r: Request)
    requires Reachable(s) && !s.halted && !InCancelGeneration(s.engine) && r in s.accepted
    requires r.generation == s.generation && CancelStopped(r.id) !in s.trace
    requires Held(s.worker).Some? && !s.worker.Complete? ==> s.worker.request.id != r.id
    ensures Claims(s, r.id) == 0
  {
    ReachableTruthful(s);
    ReachableInv(s);
    if Count(s.published, r.id, true) > 0 {
      var p := CancellationOf(s.published, r.id);
      ResultGeneration(s, r, p);
      CancelledOnlyIfAsked(s, p);
    }
  }

  lemma {:induction false} OutcomeOf(ps: seq<Publication>, id: Id) returns (p: Publication)
    requires Count(ps, id, false) >= 1
    ensures p in ps && p.result.request == id && !p.cancellation
  {
    if ps[0].result.request == id && !ps[0].cancellation {
      p := ps[0];
    } else {
      p := OutcomeOf(ps[1..], id);
    }
  }

  lemma {:induction false} CancellationOf(ps: seq<Publication>, id: Id) returns (p: Publication)
    requires Count(ps, id, true) >= 1
    ensures p in ps && p.result.request == id && p.cancellation
  {
    if ps[0].result.request == id && ps[0].cancellation {
      p := ps[0];
    } else {
      p := CancellationOf(ps[1..], id);
    }
  }

  lemma {:induction false} DistinctAt(rs: seq<Request>, i: nat, j: nat)
    requires Distinct(rs) && i < |rs| && j < |rs| && rs[i].id == rs[j].id
    ensures i == j
  {
    IdsOf(rs[1..]);
    if i > 0 && j > 0 {
      DistinctAt(rs[1..], i - 1, j - 1);
    }
  }
}
