/** Which requests the transport is never asked any more: those stopped, and those of a generation that was left. */
module BridgeFences {
  import opened Results
  import opened Sequences
  import opened Queues
  import opened Lifecycle
  import opened Bridge
  import opened BridgeInvariants
  import opened BridgeSteps
  import opened BridgeWorker
  import opened BridgeTheorems
  import BridgeAnswers

  /** Nothing can keep the worker from handing its request to the transport any more. */
  predicate Committed(w: WorkerPc) {
    w.Activate? || w.Execute?
  }

  /** Every request executed since the first `n` is of generation `g` or later, or is the one excepted. */
  predicate Newer(executed: seq<Request>, n: nat, g: nat, except: Option<Request>) {
    forall i :: n <= i < |executed| ==> executed[i].generation >= g || Some(executed[i]) == except
  }

  predicate Left(s: State, n: nat, g: nat, except: Option<Request>) {
    && s.generation >= g && Newer(s.executed, n, g, except)
    && (Committed(s.worker) ==> s.worker.request.generation >= g || Some(s.worker.request) == except)
  }

  lemma BeforeKeeps(s: State)
    requires !s.worker.Execute? && !s.worker.Exited? && !AfterExecute(s.worker)
    ensures var t := StepBeforeExecute(s);
            && t.executed == s.executed && t.generation == s.generation
            && (Committed(t.worker) ==>
                  && (Committed(s.worker) || s.worker.TestGeneration?) && t.worker.request == s.worker.request
                  && (s.worker.TestGeneration? ==> s.worker.request.generation == s.generation))
  {
  }

  lemma AfterKeeps(s: State)
    requires AfterExecute(s.worker)
    ensures var t := StepAfterExecute(s);
            t.executed == s.executed && t.generation == s.generation && !Committed(t.worker)
  {
  }

  lemma LeftStep(s: State, a: Action, n: nat, g: nat, except: Option<Request>)
    requires Enabled(s, a) && Left(s, n, g, except)
    ensures Left(Step(s, a), n, g, except)
  {
    hide StepEngine, StepBeforeExecute, StepAfterExecute;
    match a {
      case Engine => BridgeAnswers.EngineFrame(s);
      case Worker =>
        if AfterExecute(s.worker) {
          AfterKeeps(s);
        } else {
          BeforeKeeps(s);
        }
      case _ =>
    }
  }

  lemma {:induction false} LeftRun(s: State, run: seq<Action>, n: nat, g: nat, except: Option<Request>)
    requires Possible(s, run) && Left(s, n, g, except)
    ensures Left(Execution(s, run), n, g, except)
    decreases |run|
  {
    hide Left;
    if run != [] {
      LeftStep(s, run[0], n, g, except);
      LeftRun(Step(s, run[0]), run[1..], n, g, except);
    }
  }

  /**
    Once a generation is left, the transport is asked for no request of it, whatever interleaving follows, except
    for the one the worker had already tested against it.
   */
  lemma StaleNeverExecuted(s: State, run: seq<Action>, i: nat)
    requires Possible(s, run) && |s.executed| <= i < |Execution(s, run).executed|
    ensures var r := Execution(s, run).executed[i];
            r.generation >= s.generation || ((s.worker.Activate? || s.worker.Execute?) && r == s.worker.request)
  {
    var except := if Committed(s.worker) then Some(s.worker.request) else None;
    LeftRun(s, run, |s.executed|, s.generation, except);
    hide Execution, Possible;
  }

  // ---------------------------------------------------------------- stopped requests

  /** An accepted request is stopped, or its registration gone, and the worker is not past the test of its token. */
  ghost predicate Barred(s: State, n: nat, id: Id) {
    && id in Ids(s.accepted)
    && (id in s.registry.entries ==> s.registry.Stopped(id))
    && !((s.worker.TestGeneration? || Committed(s.worker)) && s.worker.request.id == id)
    && forall i :: n <= i < |s.executed| ==> s.executed[i].id != id
  }

  /** A registered stop is never taken back, and a new registration is of the request in `enqueue`. */
  lemma EngineStops(s: State, id: Id)
    requires !s.engine.Idle? && s.registry.Consistent()
    requires id in s.registry.entries ==> s.registry.Stopped(id)
    requires s.engine.Register? ==> s.engine.request.id != id
    ensures var t := StepEngine(s);
            id in t.registry.entries ==> t.registry.Stopped(id)
  {
    if InEnqueue(s.engine) {
      EnqueueStops(s, id);
    } else {
      OthersStop(s, id);
    }
    hide StepEnqueue, StepPoll, StepCancel, StepCancelGeneration, StepHalt;
  }

  lemma EnqueueStops(s: State, id: Id)
    requires InEnqueue(s.engine)
    requires id in s.registry.entries ==> s.registry.Stopped(id)
    requires s.engine.Register? ==> s.engine.request.id != id
    ensures var t := StepEnqueue(s);
            id in t.registry.entries ==> t.registry.Stopped(id)
  {
    hide IsCanonicalUuid, SessionOk, Refusal;
  }

  /** The other calls only stop more. */
  lemma OthersStop(s: State, id: Id)
    requires id in s.registry.entries ==> s.registry.Stopped(id)
    ensures s.engine.PollDrain? || s.engine.PollFilter? ==> StepPoll(s).registry == s.registry
    ensures InCancel(s.engine) ==> StopsMore(s, StepCancel(s), id)
    ensures InCancelGeneration(s.engine) ==> StopsMore(s, StepCancelGeneration(s), id)
    ensures InHalt(s.engine) ==> StopsMore(s, StepHalt(s), id)
  {
    hide Refusal;
  }

  predicate StopsMore(s: State, t: State, id: Id) {
    && t.registry.entries.Keys == s.registry.entries.Keys
    && (id in t.registry.entries ==> t.registry.Stopped(id))
  }

  lemma BeforeStops(s: State, id: Id)
    requires !s.worker.Execute? && !s.worker.Exited? && !AfterExecute(s.worker)
    requires id in s.registry.entries ==> s.registry.Stopped(id)
    requires s.worker.TestStop? && s.worker.request.id == id ==>
               id in s.registry.entries && s.worker.token == Some(s.registry.entries[id].source)
    requires !((s.worker.TestGeneration? || Committed(s.worker)) && s.worker.request.id == id)
    ensures var t := StepBeforeExecute(s);
            && (id in t.registry.entries ==> t.registry.Stopped(id)) && t.accepted == s.accepted
            && !((t.worker.TestGeneration? || Committed(t.worker)) && t.worker.request.id == id)
  {
  }

  lemma AfterStops(s: State)
    requires AfterExecute(s.worker)
    ensures var t := StepAfterExecute(s);
            t.registry == s.registry && t.accepted == s.accepted && !t.worker.TestGeneration?
  {
  }

  lemma IdsGrow(a: seq<Request>, b: seq<Request>)
    requires a <= b
    ensures Ids(a) <= Ids(b)
  {
    IdsAppend(a, b[|a|..]);
    assert a + b[|a|..] == b;
  }

  /** What the invariant says of an accepted identifier. */
  lemma BarredFacts(s: State, id: Id)
    requires Inv(s) && id in Ids(s.accepted)
    ensures s.registry.Consistent()
    ensures s.engine.Register? ==> s.engine.request.id != id
    ensures s.worker.TestStop? && s.worker.request.id == id ==>
              id in s.registry.entries && s.worker.token == Some(s.registry.entries[id].source)
  {
    assert Tables(s) && TokenHeld(s) && Entries(s);
    hide Inv, Phases, Order, Generations, Publications, NothingLost, Delivery, Ids;
    if s.engine.Register? {
      assert s.engine.request.id in MidKnown(s.engine);
    }
  }

  lemma BarredStep(s: State, a: Action, n: nat, id: Id)
    requires Inv(s) && Enabled(s, a) && Barred(s, n, id)
    ensures Barred(Step(s, a), n, id)
  {
    BarredFacts(s, id);
    BridgeAnswers.AcceptedGrows(s, a);
    IdsGrow(s.accepted, Step(s, a).accepted);
    hide Inv, Ids, Barred, StepEngine, StepWorker, BeginCall, StepExecute;
    match a {
      case Engine => BarredEngine(s, n, id);
      case Worker => BarredWorker(s, n, id);
      case Begin(call) => BarredBegin(s, call, n, id);
      case Respond(response) => BarredRespond(s, response, n, id);
    }
  }

  lemma BarredEngine(s: State, n: nat, id: Id)
    requires Barred(s, n, id) && !s.engine.Idle? && s.registry.Consistent() && id in Ids(StepEngine(s).accepted)
    requires s.engine.Register? ==> s.engine.request.id != id
    ensures Barred(StepEngine(s), n, id)
  {
    BridgeAnswers.EngineFrame(s);
    EngineStops(s, id);
    hide Ids, StepEngine;
  }

  lemma BarredBegin(s: State, call: Call, n: nat, id: Id)
    requires Barred(s, n, id) && s.engine.Idle?
    ensures Barred(BeginCall(s, call), n, id)
  {
    hide Ids;
  }

  lemma BarredRespond(s: State, response: Result<InboundResult>, n: nat, id: Id)
    requires Barred(s, n, id) && s.worker.Execute?
    ensures Barred(StepExecute(s, response), n, id)
  {
    hide Ids;
  }

  lemma BarredWorker(s: State, n: nat, id: Id)
    requires Barred(s, n, id) && !s.worker.Execute? && !s.worker.Exited?
    requires s.worker.TestStop? && s.worker.request.id == id ==>
               id in s.registry.entries && s.worker.token == Some(s.registry.entries[id].source)
    ensures Barred(StepWorker(s), n, id)
  {
    hide Ids, StepBeforeExecute, StepAfterExecute;
    if AfterExecute(s.worker) {
      AfterKeeps(s);
      AfterStops(s);
    } else {
      BeforeKeeps(s);
      BeforeStops(s, id);
    }
  }

  lemma {:induction false} BarredRun(s: State, run: seq<Action>, n: nat, id: Id)
    requires Inv(s) && Possible(s, run) && Barred(s, n, id)
    ensures Barred(Execution(s, run), n, id)
    decreases |run|
  {
    hide Barred, Inv;
    if run != [] {
      BarredStep(s, run[0], n, id);
      StepInv(s, run[0]);
      BarredRun(Step(s, run[0]), run[1..], n, id);
    }
  }

  lemma HeldIsOther(s: State, request: Request)
    requires Inv(s) && request in s.accepted
    ensures request.id in Ids(s.accepted)
    ensures Held(s.worker).Some? && Held(s.worker).value.id == request.id ==> Held(s.worker).value == request
  {
    IdsOf(s.accepted);
    assert Order(s);
    hide Inv, Phases, Tables, Generations, Accounting, Publications, NothingLost, Delivery, Ids, Distinct, Subsequence;
    if Held(s.worker).Some? && Held(s.worker).value.id == request.id {
      SameRequest(s.accepted, request, Held(s.worker).value);
    }
  }

  /**
    Once an accepted request is stopped, the transport is never asked for it, whatever interleaving follows, unless the
    worker had already tested its token.
   */
  lemma StoppedNeverExecuted(s: State, run: seq<Action>, request: Request, i: nat)
    requires Reachable(s) && Possible(s, run) && request in s.accepted
    requires request.id in s.registry.entries && s.registry.Stopped(request.id)
    requires !((s.worker.TestGeneration? || s.worker.Activate? || s.worker.Execute?) && s.worker.request == request)
    requires |s.executed| <= i < |Execution(s, run).executed|
    ensures Execution(s, run).executed[i].id != request.id
  {
    ReachableInv(s);
    HeldIsOther(s, request);
    hide Inv, Execution, Possible, Reachable;
    BarredRun(s, run, |s.executed|, request.id);
  }

  lemma {:induction false} SameRequest(rs: seq<Request>, a: Request, b: Request)
    requires Distinct(rs) && a in rs && b in rs && a.id == b.id
    ensures a == b
  {
    IdsOf(rs[1..]);
    assert rs == [rs[0]] + rs[1..];
    if a != rs[0] && b != rs[0] {
      SameRequest(rs[1..], a, b);
    }
  }
}
