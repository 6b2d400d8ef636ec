/**
  The bridge as a concurrent protocol. One engine thread runs `enqueue`, `poll`, `cancel`, `cancelGeneration` and
  `halt`; one worker runs `workerLoop`. Every lock region and every atomic access is one step, and steps of the two
  threads interleave freely. The transport answers anything.
 */
module Bridge {
  import opened Results
  import opened Queues
  import opened Lifecycle

  const OUTBOUND_CAPACITY: nat := 32
  const INBOUND_CAPACITY: nat := 128
  const RESERVED_CONTROL: nat := 4

  // ---------------------------------------------------------------- messages

  datatype RequestKind = Init | Health | OtherKind

  datatype Request = Request(id: Id, session: string, generation: nat, kind: RequestKind)

  datatype ResponseKind = Cancelled | Failure(error: ErrorCode) | Payload(body: string)

  datatype InboundResult = InboundResult(request: Id, session: string, generation: nat, kind: ResponseKind)

  predicate IsCanonicalUuid(s: string) {
    |s| == 36 && forall i :: 0 <= i < 36 ==>
      if i == 8 || i == 13 || i == 18 || i == 23 then s[i] == '-' else '0' <= s[i] <= '9' || 'a' <= s[i] <= 'f'
  }

  /** The response names this request, its session and its generation. */
  predicate Correlated(request: Request, response: InboundResult) {
    && response.request == request.id
    && (response.session == request.session
        || (request.kind == Init && request.session == "" && IsCanonicalUuid(response.session)))
    && response.generation == request.generation
    && IsCanonicalUuid(response.request)
    && (request.session == "" || IsCanonicalUuid(response.session))
  }

  function CancelledResult(request: Request): InboundResult {
    InboundResult(request.id, request.session, request.generation, Cancelled)
  }

  function FailureResult(request: Request, error: ErrorCode): InboundResult {
    InboundResult(request.id, request.session, request.generation, Failure(error))
  }

  /** Only a health or init request may do without a session. */
  predicate SessionOk(request: Request) {
    IsCanonicalUuid(request.session) || (request.session == "" && (request.kind.Health? || request.kind.Init?))
  }

  // ---------------------------------------------------------------- program counters

  /** The engine thread's next step; each counter names the access it is about to make. */
  datatype EnginePc =
    | Idle
    // enqueue
    | Validate(request: Request, payloadValid: bool)
    | Insert(request: Request)
    | Register(request: Request)
    | Push(request: Request)
    | Unregister(request: Request, error: ErrorCode)
    | Forget(request: Request, error: ErrorCode)
    // poll
    | PollDrain(maximum: nat)
    | PollFilter(items: seq<Publication>)
    // cancel
    | CancelStop(id: Id)
    | CancelLedger(id: Id)
    | CancelPush(request: Request)
    // cancelGeneration
    | GenerationCheck(target: nat)
    | GenerationStop(target: nat)
    | GenerationOutbound(target: nat)
    | GenerationInbound(target: nat)
    | GenerationInterrupt(target: nat)
    | GenerationBump(target: nat)
    // halt
    | HaltBump
    | HaltStop
    | HaltInterrupt
    | HaltCloseOutbound
    | HaltJoin
    | HaltClearInbound
    | HaltCloseInbound
    | HaltTables

  predicate InEnqueue(e: EnginePc) {
    e.Validate? || e.Insert? || e.Register? || e.Push? || e.Unregister? || e.Forget?
  }

  predicate InCancel(e: EnginePc) {
    e.CancelStop? || e.CancelLedger? || e.CancelPush?
  }

  predicate InCancelGeneration(e: EnginePc) {
    e.GenerationCheck? || e.GenerationStop? || e.GenerationOutbound? || e.GenerationInbound?
    || e.GenerationInterrupt? || e.GenerationBump?
  }

  predicate InHalt(e: EnginePc) {
    e.HaltBump? || e.HaltStop? || e.HaltInterrupt? || e.HaltCloseOutbound? || e.HaltJoin?
    || e.HaltClearInbound? || e.HaltCloseInbound? || e.HaltTables?
  }

  /** The worker's next step. `source` is the token it holds. */
  datatype WorkerPc =
    | Waiting
    | Popped(request: Request)
    | Lookup(request: Request)
    | TestStop(request: Request, token: Option<nat>)
    | ClaimCancel(request: Request)
    | PushCancel(request: Request)
    | TestGeneration(request: Request, source: nat)
    | Activate(request: Request, source: nat)
    | Execute(request: Request, source: nat)
    | Sample(request: Request, source: nat, response: Result<InboundResult>)
    | Erase(request: Request, response: Result<InboundResult>, sampled: bool)
    | Decide(request: Request, response: Result<InboundResult>, sampled: bool, already: bool)
    | Fallback(request: Request, error: ErrorCode)
    | PushOutcome(request: Request, result: InboundResult)
    | Complete(request: Request)
    | Exited

  predicate AfterExecute(w: WorkerPc) {
    w.Sample? || w.Erase? || w.Decide? || w.Fallback? || w.PushOutcome?
  }

  /** What the last engine call returned. */
  datatype Returned =
    | Nothing
    | Accepted(id: Id)
    | Polled(items: seq<Publication>)
    | Done
    | NewGeneration(generation: nat)
    | Refused(error: ErrorCode)

  datatype Call =
    | Enqueue(request: Request, payloadValid: bool)
    | Poll(maximum: nat)
    | Cancel(id: Id)
    | CancelGeneration(target: nat)
    | Halt

  // ---------------------------------------------------------------- state

  /** A result on its way to `poll`; the flag is history and says whether `publishCancelled` made it. */
  datatype Publication = Publication(result: InboundResult, cancellation: bool)

  /** The moments that decide whether a request gets a second result. */
  datatype Event =
    | Sampled(id: Id, stopped: bool)   // the worker read the stop flag after `execute`
    | CancelStopped(id: Id)            // `cancel` was first to request the stop
    | CancelLedgered(id: Id)           // `cancel` found the active entry and entered the ledger
    | Erased(id: Id)                   // the worker erased the active entry

  datatype State = State(
    halted: bool,
    generation: nat,
    known: set<Id>,
    active: map<Id, Request>,
    ledger: set<Id>,
    registry: Registry,
    outbound: Lanes<Request>,
    inbound: Lanes<Publication>,
    engine: EnginePc,
    worker: WorkerPc,
    returned: Returned,
    // history, read by no step
    accepted: seq<Request>,
    executed: seq<Request>,
    answers: seq<Result<InboundResult>>,
    published: seq<Publication>,
    dropped: seq<Publication>,
    polled: seq<Publication>,
    trace: seq<Event>)

  function Start(initialGeneration: nat): State {
    State(false, initialGeneration, {}, map[], {}, EMPTY_REGISTRY, Lanes([], [], false), Lanes([], [], false),
          Idle, Waiting, Nothing, [], [], [], [], [], [], [])
  }

  /**
    `publishCancelled` and the worker's pushes. `published` records what is handed to the inbound queue; what the
    queue refuses is gone, as the source ignores the refusal, and `dropped` records that too.
   */
  function Publish(s: State, result: InboundResult, cancellation: bool): State {
    var p := Publication(result, cancellation);
    if Refusal(s.inbound, INBOUND_CAPACITY, RESERVED_CONTROL, cancellation).None?
    then s.(inbound := s.inbound.Push(p, cancellation), published := s.published + [p])
    else s.(published := s.published + [p], dropped := s.dropped + [p])
  }

  // ---------------------------------------------------------------- engine steps

  function Return(s: State, r: Returned): State {
    s.(engine := Idle, returned := r)
  }

  /** A call's first atomic access: the load (or exchange) of the halted flag. */
  function BeginCall(s: State, call: Call): State {
    match call
    case Enqueue(request, payloadValid) =>
      if s.halted then Return(s, Refused(Stopped)) else s.(engine := Validate(request, payloadValid))
    case Poll(maximum) =>
      s.(engine := PollDrain(if maximum < INBOUND_CAPACITY then maximum else INBOUND_CAPACITY))
    case Cancel(id) =>
      if s.halted then Return(s, Refused(Stopped)) else s.(engine := CancelStop(id))
    case CancelGeneration(target) =>
      if s.halted then Return(s, Refused(Stopped)) else s.(engine := GenerationCheck(target))
    case Halt =>
      if s.halted then Return(s, Done) else s.(halted := true, engine := HaltBump)
  }

  function StepEnqueue(s: State): State
    requires InEnqueue(s.engine)
  {
    var request := s.engine.request;
    match s.engine
    case Validate(_, payloadValid) =>
      if !IsCanonicalUuid(request.id) then Return(s, Refused(InvalidArgument))
      else if request.generation != s.generation then Return(s, Refused(StaleGeneration))
      else if !SessionOk(request) || !payloadValid then Return(s, Refused(InvalidArgument))
      else s.(engine := Insert(request))
    case Insert(_) =>
      if request.id in s.known then Return(s, Refused(DuplicateConflict))
      else s.(known := s.known + {request.id}, engine := Register(request))
    case Register(_) =>
      if request.id == "" then s.(engine := Forget(request, InvalidArgument))
      else if request.id in s.registry.entries then s.(engine := Forget(request, DuplicateConflict))
      else s.(registry := s.registry.Register(request.id, request.generation), engine := Push(request))
    case Push(_) =>
      (match Refusal(s.outbound, OUTBOUND_CAPACITY, RESERVED_CONTROL, false)
       case None =>
         Return(s.(outbound := s.outbound.Push(request, false), accepted := s.accepted + [request]),
                Accepted(request.id))
       case Some(error) => s.(engine := Unregister(request, error)))
    case Unregister(_, error) =>
      s.(registry := s.registry.Complete(request.id),
         engine := Forget(request, error))
    case Forget(_, error) =>
      Return(s.(known := s.known - {request.id}), Refused(error))
  }

  function StepPoll(s: State): State
    requires s.engine.PollDrain? || s.engine.PollFilter?
  {
    match s.engine
    case PollDrain(maximum) =>
      var size := |s.inbound.Items()|;
      var n := if maximum < size then maximum else size;
      s.(inbound := s.inbound.DropFront(n), engine := PollFilter(s.inbound.Items()[..n]))
    case PollFilter(items) =>
      var kept := Sequences.Filter(items, (p: Publication) => p.result.generation == s.generation);
      Return(s.(polled := s.polled + kept), Polled(kept))
  }

  function StepCancel(s: State): State
    requires InCancel(s.engine)
  {
    match s.engine
    case CancelStop(id) =>
      if id in s.registry.entries && !s.registry.Stopped(id) then
        s.(registry := s.registry.Stop({id}), engine := CancelLedger(id), trace := s.trace + [CancelStopped(id)])
      else Return(s, Refused(InvalidArgument))
    case CancelLedger(id) =>
      if id in s.active && id !in s.ledger then
        s.(ledger := s.ledger + {id}, engine := CancelPush(s.active[id]), trace := s.trace + [CancelLedgered(id)])
      else Return(s, Done)
    case CancelPush(request) =>
      Return(Publish(s, CancelledResult(request), true), Done)
  }

  function StepCancelGeneration(s: State): State
    requires InCancelGeneration(s.engine)
  {
    var target := s.engine.target;
    match s.engine
    case GenerationCheck(_) =>
      if target != s.generation then Return(s, Refused(StaleGeneration)) else s.(engine := GenerationStop(target))
    case GenerationStop(_) =>
      s.(registry := s.registry.Stop(s.registry.OfGeneration(target)), engine := GenerationOutbound(target))
    case GenerationOutbound(_) =>
      s.(outbound := s.outbound.Keep((r: Request) => r.generation != target), engine := GenerationInbound(target))
    case GenerationInbound(_) =>
      s.(inbound := s.inbound.Keep((p: Publication) => p.result.generation != target),
         engine := GenerationInterrupt(target))
    case GenerationInterrupt(_) => s.(engine := GenerationBump(target))
    case GenerationBump(_) =>
      Return(s.(generation := s.generation + 1), NewGeneration(s.generation + 1))
  }

  function StepHalt(s: State): State
    requires InHalt(s.engine)
  {
    match s.engine
    case HaltBump => s.(generation := s.generation + 1, engine := HaltStop)
    case HaltStop => s.(registry := s.registry.Stop(s.registry.entries.Keys), engine := HaltInterrupt)
    case HaltInterrupt => s.(engine := HaltCloseOutbound)
    case HaltCloseOutbound => s.(outbound := s.outbound.(closed := true), engine := HaltJoin)
    case HaltJoin => s.(engine := HaltClearInbound)
    case HaltClearInbound => s.(inbound := Lanes([], [], s.inbound.closed), engine := HaltCloseInbound)
    case HaltCloseInbound => s.(inbound := s.inbound.(closed := true), engine := HaltTables)
    case HaltTables => Return(s.(known := {}, active := map[], ledger := {}), Done)
  }

  // ---------------------------------------------------------------- worker steps

  /** Taking, looking up and refusing a request, up to the call of `execute`. */
  function StepBeforeExecute(s: State): State
    requires !s.worker.Execute? && !s.worker.Exited? && !AfterExecute(s.worker)
  {
    match s.worker
    case Waiting =>
      var items := s.outbound.Items();
      if items != [] then s.(outbound := s.outbound.DropFront(1), worker := Popped(items[0]))
      else if s.outbound.closed then s.(worker := Exited)
      else s
    case Popped(request) =>
      s.(worker := if s.halted then Exited else Lookup(request))
    case Lookup(request) =>
      s.(worker := TestStop(request, if request.id in s.registry.entries
                                     then Some(s.registry.entries[request.id].source) else None))
    case TestStop(request, token) =>
      s.(worker := if token.None? || token.value in s.registry.requested
                   then ClaimCancel(request) else TestGeneration(request, token.value))
    case ClaimCancel(request) =>
      s.(ledger := s.ledger + {request.id},
         worker := if request.id in s.ledger then Complete(request) else PushCancel(request))
    case PushCancel(request) =>
      Publish(s, CancelledResult(request), true).(worker := Complete(request))
    case TestGeneration(request, source) =>
      s.(worker := if request.generation == s.generation then Activate(request, source) else Complete(request))
    case Activate(request, source) =>
      s.(active := if request.id in s.active then s.active else s.active[request.id := request],
         worker := Execute(request, source))
    case Complete(request) =>
      s.(registry := s.registry.Complete(request.id), worker := Waiting)
  }

  /** `execute` returned: record that the transport saw the request, and what it answered. */
  function StepExecute(s: State, response: Result<InboundResult>): State
    requires s.worker.Execute?
  {
    s.(executed := s.executed + [s.worker.request], answers := s.answers + [response],
       worker := Sample(s.worker.request, s.worker.source, response))
  }

  /** Sampling the stop flag, erasing the active entry and choosing what to publish. */
  function StepAfterExecute(s: State): State
    requires AfterExecute(s.worker)
  {
    match s.worker
    case Sample(request, source, response) =>
      var stopped := source in s.registry.requested;
      s.(worker := Erase(request, response, stopped), trace := s.trace + [Sampled(request.id, stopped)])
    case Erase(request, response, sampled) =>
      s.(active := s.active - {request.id}, trace := s.trace + [Erased(request.id)],
         worker := Decide(request, response, sampled, request.id in s.ledger))
    case Decide(request, response, sampled, already) =>
      s.(worker :=
           if sampled && !already then PushCancel(request)
           else if sampled then Complete(request)
           else if response.Ok? && Correlated(request, response.value) && response.value.generation == s.generation
             then PushOutcome(request, response.value)
           else Fallback(request, if response.Ok? then TransportFailure else response.error))
    case Fallback(request, error) =>
      s.(worker := if request.generation == s.generation
                   then PushOutcome(request, FailureResult(request, error)) else Complete(request))
    case PushOutcome(request, result) =>
      Publish(s, result, false).(worker := Complete(request))
  }

  // ---------------------------------------------------------------- runs

  datatype Action =
    | Begin(call: Call)
    | Engine
    | Worker
    | Respond(response: Result<InboundResult>)

  predicate Enabled(s: State, a: Action) {
    match a
    case Begin(_) => s.engine.Idle?
    case Engine => !s.engine.Idle? && (s.engine.HaltJoin? ==> s.worker.Exited?)
    case Worker => !s.worker.Execute? && !s.worker.Exited?
    case Respond(_) => s.worker.Execute?
  }

  function StepEngine(s: State): State
    requires !s.engine.Idle?
  {
    if InEnqueue(s.engine) then StepEnqueue(s)
    else if s.engine.PollDrain? || s.engine.PollFilter? then StepPoll(s)
    else if InCancel(s.engine) then StepCancel(s)
    else if InCancelGeneration(s.engine) then StepCancelGeneration(s)
    else StepHalt(s)
  }

  function StepWorker(s: State): State
    requires !s.worker.Execute? && !s.worker.Exited?
  {
    if AfterExecute(s.worker) then StepAfterExecute(s) else StepBeforeExecute(s)
  }

  function Step(s: State, a: Action): State
    requires Enabled(s, a)
  {
    match a
    case Begin(call) => BeginCall(s, call)
    case Engine => StepEngine(s)
    case Worker => StepWorker(s)
    case Respond(response) => StepExecute(s, response)
  }

  /** `run` is a possible interleaving from `s`. */
  ghost predicate Possible(s: State, run: seq<Action>)
    decreases |run|
  {
    run == [] || (Enabled(s, run[0]) && Possible(Step(s, run[0]), run[1..]))
  }

  function Execution(s: State, run: seq<Action>): State
    requires Possible(s, run)
    decreases |run|
  {
    if run == [] then s else Execution(Step(s, run[0]), run[1..])
  }

  ghost predicate Reachable(s: State) {
    exists g: nat, run: seq<Action> :: Possible(Start(g), run) && Execution(Start(g), run) == s
  }
}
