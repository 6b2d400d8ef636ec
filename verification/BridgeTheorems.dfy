/** What the invariant says about every run of the bridge. */
module BridgeTheorems {
  import opened Results
  import opened Sequences
  import opened Queues
  import opened Lifecycle
  import opened Bridge
  import opened BridgeInvariants
  import opened BridgeSteps
  import opened BridgeWorker

  // ---------------------------------------------------------------- the invariant over runs

  lemma StartInv(g: nat)
    ensures Inv(Start(g))
  {
  }

  lemma StepInv(s: State, a: Action)
    requires Inv(s) && Enabled(s, a)
    ensures Inv(Step(s, a))
  {
    hide Inv;
    match a {
      case Begin(call) => KeepsBegin(s, call);
      case Engine =>
        if InEnqueue(s.engine) {
          KeepsEnqueue(s);
        } else if s.engine.PollDrain? || s.engine.PollFilter? {
          KeepsPoll(s);
        } else if InCancel(s.engine) {
          KeepsCancel(s);
        } else if InCancelGeneration(s.engine) {
          KeepsCancelGeneration(s);
        } else {
          KeepsHalt(s);
        }
      case Worker => KeepsWorker(s);
      case Respond(response) => KeepsExecute(s, response);
    }
  }

  /** Every interleaving, of any length, keeps the invariant. */
  lemma {:induction false} RunInv(s: State, run: seq<Action>)
    requires Inv(s) && Possible(s, run)
    ensures Inv(Execution(s, run))
    decreases |run|
  {
    hide Inv;
    if run != [] {
      StepInv(s, run[0]);
      RunInv(Step(s, run[0]), run[1..]);
    }
  }

  lemma ReachableInv(s: State)
    requires Reachable(s)
    ensures Inv(s)
  {
    var g: nat, run: seq<Action> :| Possible(Start(g), run) && Execution(Start(g), run) == s;
    StartInv(g);
    RunInv(Start(g), run);
  }

  // ---------------------------------------------------------------- reachable states

  lemma {:induction false} PossibleAppend(s: State, run: seq<Action>, a: Action)
    requires Possible(s, run) && Enabled(Execution(s, run), a)
    ensures Possible(s, run + [a]) && Execution(s, run + [a]) == Step(Execution(s, run), a)
    decreases |run|
  {
    if run == [] {
      assert run + [a] == [a];
      assert [a][1..] == [];
      assert Execution(Step(s, a), []) == Step(s, a);
    } else {
      assert (run + [a])[1..] == run[1..] + [a];
      PossibleAppend(Step(s, run[0]), run[1..], a);
    }
  }

  lemma ReachableStep(s: State, a: Action)
    requires Reachable(s) && Enabled(s, a)
    ensures Reachable(Step(s, a))
  {
    var g: nat, run: seq<Action> :| Possible(Start(g), run) && Execution(Start(g), run) == s;
    PossibleAppend(Start(g), run, a);
  }

  lemma StartReachable(g: nat)
    ensures Reachable(Start(g))
  {
    assert Possible(Start(g), []) && Execution(Start(g), []) == Start(g);
  }

  lemma {:induction false} ReachableRun(s: State, run: seq<Action>)
    requires Reachable(s) && Possible(s, run)
    ensures Reachable(Execution(s, run))
    decreases |run|
  {
    hide Reachable;
    if run != [] {
      ReachableStep(s, run[0]);
      ReachableRun(Step(s, run[0]), run[1..]);
    }
  }

  // ---------------------------------------------------------------- results per request

  lemma CountParts(s: State, id: Id, c: bool)
    requires Delivery(s)
    ensures Count(s.polled, id, c) <= Count(s.published, id, c)
  {
    var middle := if s.engine.PollFilter? then s.engine.items else [];
    CountAppend(s.polled + middle, s.inbound.Items(), id, c);
    CountAppend(s.polled, middle, id, c);
    assert Count(InTransit(s), id, c) <= Count(s.published, id, c);
  }

  /** No request is answered twice with the same sort of result, however the threads interleave. */
  lemma AtMostOneOfEachSort(s: State, id: Id)
    requires Reachable(s)
    ensures Count(s.published, id, true) <= 1 && Count(s.published, id, false) <= 1
    ensures Count(s.polled, id, true) <= 1 && Count(s.polled, id, false) <= 1
  {
    ReachableInv(s);
    assert Settled(s, id);
    CountParts(s, id, true);
    CountParts(s, id, false);
  }

  /** `cancel` stopped the request and entered the ledger after the worker's stop sample and before its erase. */
  ghost predicate CancelledInsideWindow(trace: seq<Event>, id: Id) {
    exists i, j, k, l :: 0 <= i < j < k < l < |trace| && trace[i] == Sampled(id, false)
                         && trace[j] == CancelStopped(id) && trace[k] == CancelLedgered(id) && trace[l] == Erased(id)
  }

  lemma {:induction false} WindowMonotone(trace: seq<Event>, id: Id, m: nat, n: nat)
    requires m <= n <= |trace|
    ensures Window(trace[..m], id) <= Window(trace[..n], id)
    decreases n
  {
    if m < n {
      WindowMonotone(trace, id, m, n - 1);
      assert trace[..n][..n - 1] == trace[..n - 1];
    }
  }

  lemma WindowAt(trace: seq<Event>, id: Id, n: nat)
    requires n < |trace|
    ensures trace[n] == Sampled(id, false) ==> Window(trace[..n + 1], id) >= 1
    ensures trace[n] == CancelStopped(id) && Window(trace[..n], id) >= 1 ==> Window(trace[..n + 1], id) >= 2
    ensures trace[n] == CancelLedgered(id) && Window(trace[..n], id) >= 2 ==> Window(trace[..n + 1], id) >= 3
    ensures trace[n] == Erased(id) && Window(trace[..n], id) >= 3 ==> Window(trace[..n + 1], id) >= 4
    ensures Window(trace[..n + 1], id) <= 4
  {
    assert trace[..n + 1] == trace[..n] + [trace[n]];
    WindowStep(trace[..n], trace[n], id);
    WindowBound(trace[..n], id);
  }

  lemma {:induction false} WindowBound(trace: seq<Event>, id: Id)
    ensures Window(trace, id) <= 4
  {
    if trace != [] {
      WindowBound(trace[..|trace| - 1], id);
    }
  }

  /** The earliest positions at which the window advanced. */
  lemma {:induction false} WindowWitness(trace: seq<Event>, id: Id) returns (i: nat, j: nat, k: nat, l: nat)
    ensures Window(trace, id) >= 1 ==> i < |trace| && trace[i] == Sampled(id, false)
    ensures Window(trace, id) >= 2 ==> i < j < |trace| && trace[j] == CancelStopped(id)
    ensures Window(trace, id) >= 3 ==> j < k < |trace| && trace[k] == CancelLedgered(id)
    ensures Window(trace, id) >= 4 ==> k < l < |trace| && trace[l] == Erased(id)
  {
    if trace == [] {
      return 0, 0, 0, 0;
    }
    var n := |trace| - 1;
    var before := trace[..n];
    i, j, k, l := WindowWitness(before, id);
    var w, w' := Window(before, id), Window(trace, id);
    if w' != w {
      if w' == 1 {
        i := n;
      } else if w' == 2 {
        j := n;
      } else if w' == 3 {
        k := n;
      } else {
        l := n;
      }
    }
  }

  lemma OrderReachesFour(trace: seq<Event>, id: Id, i: nat, j: nat, k: nat, l: nat)
    requires i < j < k < l < |trace| && trace[i] == Sampled(id, false)
    requires trace[j] == CancelStopped(id) && trace[k] == CancelLedgered(id) && trace[l] == Erased(id)
    ensures Window(trace, id) == 4
  {
    hide Window;
    WindowAt(trace, id, i);
    WindowMonotone(trace, id, i + 1, j);
    WindowAt(trace, id, j);
    WindowMonotone(trace, id, j + 1, k);
    WindowAt(trace, id, k);
    WindowMonotone(trace, id, k + 1, l);
    WindowAt(trace, id, l);
    WindowMonotone(trace, id, l + 1, |trace|);
    assert trace[..|trace|] == trace;
    WindowBound(trace, id);
  }

  lemma InsideFromFour(trace: seq<Event>, id: Id)
    requires Window(trace, id) == 4
    ensures CancelledInsideWindow(trace, id)
  {
    hide Window;
    var i, j, k, l := WindowWitness(trace, id);
    assert trace[i] == Sampled(id, false) && trace[j] == CancelStopped(id)
           && trace[k] == CancelLedgered(id) && trace[l] == Erased(id);
  }

  lemma FourFromInside(trace: seq<Event>, id: Id)
    requires CancelledInsideWindow(trace, id)
    ensures Window(trace, id) == 4
  {
    hide Window;
    var i, j, k, l :| 0 <= i < j < k < l < |trace| && trace[i] == Sampled(id, false)
                      && trace[j] == CancelStopped(id) && trace[k] == CancelLedgered(id) && trace[l] == Erased(id);
    OrderReachesFour(trace, id, i, j, k, l);
  }

  /** The phase counter of the invariant counts exactly this order of events. */
  lemma WindowMeansOrder(trace: seq<Event>, id: Id)
    ensures Window(trace, id) == 4 <==> CancelledInsideWindow(trace, id)
  {
    hide Window, CancelledInsideWindow;
    if Window(trace, id) == 4 {
      InsideFromFour(trace, id);
    }
    if CancelledInsideWindow(trace, id) {
      FourFromInside(trace, id);
    }
  }

  /**
    "One result per request" fails exactly in one window: a request whose outcome is handed to the inbound queue is
    also handed a cancelled result (or a `cancel` still running owes it) if and only if `cancel` ran its stop step
    and its ledger step between the worker's stop sample and its erase of the active entry.
   */
  lemma SecondResultExactlyInWindow(s: State, id: Id)
    requires Reachable(s) && Count(s.published, id, false) == 1
    ensures Count(s.published, id, true) + (if s.engine.CancelPush? && s.engine.request.id == id then 1 else 0) <= 1
    ensures Count(s.published, id, true) + (if s.engine.CancelPush? && s.engine.request.id == id then 1 else 0) == 1
            <==> CancelledInsideWindow(s.trace, id)
  {
    ReachableInv(s);
    assert Settled(s, id);
    WindowMeansOrder(s.trace, id);
    assert !(s.worker.PushCancel? && s.worker.request.id == id);
  }

  /**
    An accepted request of the live generation waits, is held, is owed a cancelled result, or had a result handed to the
    inbound queue. Whether the queue kept that result is the subject of `BridgeDelivery`.
   */
  lemma WaitsHeldOrHandedOver(s: State, r: Request)
    requires Reachable(s) && !s.halted && r in s.accepted
    requires r.generation == s.generation && !InCancelGeneration(s.engine)
    ensures || r.id in Ids(s.outbound.normals)
            || (Held(s.worker).Some? && Held(s.worker).value.id == r.id && !s.worker.Complete?)
            || Claims(s, r.id) + Count(s.published, r.id, false) >= 1
  {
    ReachableInv(s);
    assert Answered(s, r);
  }

  // ---------------------------------------------------------------- the transport and the caller

  /** The transport sees accepted requests only, in acceptance order, each at most once. */
  lemma ExecutedOnceInOrder(s: State)
    requires Reachable(s)
    ensures Subsequence(s.executed, s.accepted) && Distinct(s.executed) && Distinct(s.accepted)
  {
    ReachableInv(s);
    hide *;
    OrderExecuted(s);
    SubsequenceDistinct(s.executed, s.accepted);
  }

  lemma OrderExecuted(s: State)
    requires Inv(s)
    ensures Subsequence(s.executed, s.accepted) && Distinct(s.accepted)
  {
    assert Order(s);
    hide Phases, Tables, Generations, Accounting, Publications, NothingLost, Delivery, Subsequence, Distinct;
    assert s.executed + Pending(s.worker) + s.outbound.normals == s.executed + (Pending(s.worker) + s.outbound.normals);
    SubsequencePrefix(s.executed, Pending(s.worker) + s.outbound.normals, s.accepted);
  }

  lemma SubsequencePrefix(a: seq<Request>, b: seq<Request>, c: seq<Request>)
    requires Subsequence(a + b, c)
    ensures Subsequence(a, c)
  {
    SubsequenceRefl(a);
    SubsequenceConcat(a, a, [], b);
    assert a + [] == a;
    SubsequenceTrans(a, a + b, c);
  }

  /** Whatever the transport returned, a polled result names an accepted request and its generation. */
  lemma PolledBelongsToAccepted(s: State, p: Publication)
    requires Reachable(s) && p in s.polled
    ensures exists r :: r in s.accepted && r.id == p.result.request && r.generation == p.result.generation
  {
    ReachableInv(s);
    assert p in InTransit(s);
    assert From(s.accepted, p.result);
  }

  // ---------------------------------------------------------------- registry accounting

  /** The registry holds exactly the queued, held and half-enqueued requests, plus stopped ones of left generations. */
  lemma RegistryAccounting(s: State, id: Id)
    requires Reachable(s) && !s.halted
    ensures id in s.registry.entries ==> Accounted(s, id)
    ensures id in Ids(s.outbound.normals) ==> id in s.registry.entries
    ensures id in MidRegistered(s.engine) ==> id in s.registry.entries
    ensures Held(s.worker).Some? && Held(s.worker).value.id == id ==> id in s.registry.entries
    ensures id in s.registry.entries ==> id in s.known
  {
    ReachableInv(s);
    if id in Ids(s.outbound.normals) {
      var r := IdWitness(s.outbound.normals, id);
      assert Registered(s, r.id, r.generation);
    }
  }

  /** The worker's lookups never miss, and it has at most one active request. */
  lemma WorkerFindsItsToken(s: State)
    requires Reachable(s)
    ensures s.worker.Lookup? ==> s.worker.request.id in s.registry.entries
    ensures s.worker.TestStop? ==> s.worker.token.Some?
    ensures s.worker.Sample? ==> s.worker.request.id in s.registry.entries
                                 && (s.worker.source in s.registry.requested
                                     <==> s.registry.Stopped(s.worker.request.id))
    ensures |s.active| <= 1
  {
    ReachableInv(s);
  }

  /** No `enqueue` fails in registration: its identifier is never already registered. */
  lemma RegistrationNeverFails(s: State)
    requires Reachable(s) && s.engine.Register?
    ensures Step(s, Engine).engine == Push(s.engine.request)
  {
    ReachableInv(s);
    CanonicalNotEmpty(s.engine.request.id);
  }

  /** What an unfinished `enqueue` that began in `s0` has changed so far. */
  ghost predicate Since(s0: State, s: State) {
    && s.accepted == s0.accepted
    && s.known == s0.known + MidKnown(s.engine) && MidKnown(s.engine) !! s0.known
    && (forall id :: id in s.registry.entries && id !in MidRegistered(s.engine) ==>
          id in s0.registry.entries && s.registry.entries[id] == s0.registry.entries[id])
    && (exists n: nat :: n <= |s0.outbound.normals| && s.outbound.normals == s0.outbound.normals[n..])
  }

  lemma SinceEngine(s0: State, s: State)
    requires Since(s0, s) && InEnqueue(s.engine)
    requires s.engine.Register? ==> s.engine.request.id !in s.registry.entries
    requires StepEnqueue(s).returned.Refused? || !StepEnqueue(s).engine.Idle?
    ensures Since(s0, StepEnqueue(s)) && (InEnqueue(StepEnqueue(s).engine) || StepEnqueue(s).engine.Idle?)
  {
    EnqueueFrame(s);
    EnqueueRegistry(s);
    hide StepEnqueue;
  }

  lemma EnqueueRegistry(s: State)
    requires InEnqueue(s.engine)
    requires StepEnqueue(s).returned.Refused? || !StepEnqueue(s).engine.Idle?
    ensures StepEnqueue(s).outbound == s.outbound
    ensures forall id :: id in StepEnqueue(s).registry.entries && id !in MidRegistered(StepEnqueue(s).engine) ==>
              id in s.registry.entries && StepEnqueue(s).registry.entries[id] == s.registry.entries[id]
              && id !in MidRegistered(s.engine)
  {
    hide Refusal, IsCanonicalUuid;
  }

  lemma SinceWorker(s0: State, s: State, s': State)
    requires Since(s0, s) && s'.accepted == s.accepted && s'.known == s.known && s'.engine == s.engine
    requires forall id :: id in s'.registry.entries ==>
               id in s.registry.entries && s'.registry.entries[id] == s.registry.entries[id]
    requires s'.outbound.normals == s.outbound.normals
             || (s.outbound.normals != [] && s'.outbound.normals == s.outbound.normals[1..])
    ensures Since(s0, s')
  {
    var n: nat :| n <= |s0.outbound.normals| && s.outbound.normals == s0.outbound.normals[n..];
    if s'.outbound.normals != s.outbound.normals {
      assert s'.outbound.normals == s0.outbound.normals[n + 1..];
    }
  }

  /** A worker step as the engine sees it. */
  lemma WorkerFrame(s: State)
    requires s.outbound.controls == [] && !s.worker.Execute? && !s.worker.Exited?
    ensures var s' := StepWorker(s);
            s'.accepted == s.accepted && s'.known == s.known && s'.engine == s.engine && s'.halted == s.halted
            && s'.generation == s.generation && s'.polled == s.polled && s'.returned == s.returned
    ensures forall id :: id in StepWorker(s).registry.entries ==>
              id in s.registry.entries && StepWorker(s).registry.entries[id] == s.registry.entries[id]
    ensures StepWorker(s).outbound.normals == s.outbound.normals
            || (s.outbound.normals != [] && StepWorker(s).outbound.normals == s.outbound.normals[1..])
  {
    if AfterExecute(s.worker) {
      AfterFrame(s);
    } else {
      BeforeFrame(s);
    }
    hide StepAfterExecute, StepBeforeExecute;
  }

  lemma BeforeFrame(s: State)
    requires s.outbound.controls == [] && !s.worker.Execute? && !s.worker.Exited? && !AfterExecute(s.worker)
    ensures var s' := StepBeforeExecute(s);
            s'.accepted == s.accepted && s'.known == s.known && s'.engine == s.engine && s'.halted == s.halted
            && s'.generation == s.generation && s'.polled == s.polled && s'.returned == s.returned
            && s'.registry == (if s.worker.Complete? then s.registry.Complete(s.worker.request.id) else s.registry)
    ensures StepBeforeExecute(s).outbound.normals == s.outbound.normals
            || (s.outbound.normals != [] && StepBeforeExecute(s).outbound.normals == s.outbound.normals[1..])
  {
    hide Refusal, CancelledResult;
  }

  lemma AfterFrame(s: State)
    requires AfterExecute(s.worker)
    ensures var s' := StepAfterExecute(s);
            s'.accepted == s.accepted && s'.known == s.known && s'.engine == s.engine && s'.halted == s.halted
            && s'.generation == s.generation && s'.polled == s.polled && s'.returned == s.returned
            && s'.registry == s.registry && s'.outbound == s.outbound
  {
  }

  lemma SinceStep(s0: State, s: State, a: Action)
    requires Inv(s) && Since(s0, s) && InEnqueue(s.engine) && Enabled(s, a)
    requires Step(s, a).returned.Refused? || !Step(s, a).engine.Idle?
    ensures Since(s0, Step(s, a)) && (InEnqueue(Step(s, a).engine) || Step(s, a).engine.Idle?)
  {
    hide Tables, Order, Generations, Accounting, Publications, NothingLost, Delivery, Since;
    assert s.outbound.controls == [];
    hide Phases;
    match a {
      case Engine =>
        EnqueueKnows(s);
        SinceEngine(s0, s);
      case Worker =>
        WorkerFrame(s);
        SinceWorker(s0, s, StepWorker(s));
      case Respond(response) =>
        SinceWorker(s0, s, StepExecute(s, response));
      case Begin(_) =>
    }
  }

  /** The engine thread is inside `enqueue` before every action of the run. */
  ghost predicate InsideEnqueue(s: State, run: seq<Action>)
    requires Possible(s, run)
    decreases |run|
  {
    run == [] || (InEnqueue(s.engine) && InsideEnqueue(Step(s, run[0]), run[1..]))
  }

  lemma {:induction false} SinceRun(s0: State, s: State, run: seq<Action>)
    requires Inv(s) && Since(s0, s) && Possible(s, run) && InsideEnqueue(s, run)
    requires Execution(s, run).engine.Idle? && Execution(s, run).returned.Refused?
    ensures Since(s0, Execution(s, run))
    decreases |run|
  {
    hide Inv, Since;
    if run != [] {
      StepInv(s, run[0]);
      SinceStep(s0, s, run[0]);
      SinceRun(s0, Step(s, run[0]), run[1..]);
    }
  }

  /**
    A refused `enqueue`, whatever the worker did meanwhile, leaves the known set and the accepted requests as they were
    and adds nothing to the registry or to the outbound queue.
   */
  lemma RefusedEnqueueRestores(s0: State, request: Request, payloadValid: bool, run: seq<Action>)
    requires Reachable(s0) && s0.engine.Idle?
    requires Possible(BeginCall(s0, Enqueue(request, payloadValid)), run)
    requires InsideEnqueue(BeginCall(s0, Enqueue(request, payloadValid)), run)
    requires Execution(BeginCall(s0, Enqueue(request, payloadValid)), run).engine.Idle?
    requires Execution(BeginCall(s0, Enqueue(request, payloadValid)), run).returned.Refused?
    ensures var s := Execution(BeginCall(s0, Enqueue(request, payloadValid)), run);
            && s.known == s0.known && s.accepted == s0.accepted
            && (forall id :: id in s.registry.entries ==>
                  id in s0.registry.entries && s.registry.entries[id] == s0.registry.entries[id])
            && (exists n: nat :: n <= |s0.outbound.normals| && s.outbound.normals == s0.outbound.normals[n..])
  {
    var s := BeginCall(s0, Enqueue(request, payloadValid));
    SinceStart(s0, Enqueue(request, payloadValid));
    hide *;
    ReachableInv(s0);
    KeepsBegin(s0, Enqueue(request, payloadValid));
    SinceRun(s0, s, run);
    SinceMeans(s0, Execution(s, run));
  }

  lemma SinceStart(s0: State, call: Call)
    requires s0.engine.Idle?
    ensures Since(s0, BeginCall(s0, call))
  {
    assert s0.outbound.normals == s0.outbound.normals[0..];
  }

  lemma SinceMeans(s0: State, s: State)
    requires Since(s0, s)
    ensures s.engine.Idle? && s.returned.Refused? ==>
              && s.known == s0.known && s.accepted == s0.accepted
              && (forall id :: id in s.registry.entries ==>
                    id in s0.registry.entries && s.registry.entries[id] == s0.registry.entries[id])
    ensures exists n: nat :: n <= |s0.outbound.normals| && s.outbound.normals == s0.outbound.normals[n..]
  {
  }

  // ---------------------------------------------------------------- fences

  lemma EnginePolls(s: State)
    requires !s.engine.Idle?
    ensures StepEngine(s).generation >= s.generation
    ensures s.polled <= StepEngine(s).polled
    ensures forall i :: |s.polled| <= i < |StepEngine(s).polled| ==>
              StepEngine(s).polled[i].result.generation == s.generation
  {
    if s.engine.PollFilter? {
      var keep := (p: Publication) => p.result.generation == s.generation;
      var kept := Filter(s.engine.items, keep);
      assert StepEngine(s).polled == s.polled + kept;
      forall i | |s.polled| <= i < |s.polled + kept| ensures (s.polled + kept)[i].result.generation == s.generation {
        assert (s.polled + kept)[i] in kept;
      }
    } else {
      assert StepEngine(s).polled == s.polled;
    }
  }

  lemma StepPolls(s: State, a: Action)
    requires Phases(s) && Enabled(s, a)
    ensures Step(s, a).generation >= s.generation
    ensures s.polled <= Step(s, a).polled
    ensures forall i :: |s.polled| <= i < |Step(s, a).polled| ==> Step(s, a).polled[i].result.generation == s.generation
  {
    match a {
      case Engine => EnginePolls(s);
      case Worker => WorkerFrame(s);
      case _ =>
    }
  }

  /** Polls only ever add results of the generation that is current when they run, and generations only grow. */
  lemma {:induction false} PolledSince(s: State, run: seq<Action>)
    requires Inv(s) && Possible(s, run)
    ensures Execution(s, run).generation >= s.generation
    ensures s.polled <= Execution(s, run).polled
    ensures forall i :: |s.polled| <= i < |Execution(s, run).polled| ==>
              Execution(s, run).polled[i].result.generation >= s.generation
    decreases |run|
  {
    hide Phases, Tables, Order, Generations, Accounting, Publications, NothingLost, Delivery;
    if run != [] {
      var s' := Step(s, run[0]);
      StepPolls(s, run[0]);
      StepInv(s, run[0]);
      PolledSince(s', run[1..]);
      var t := Execution(s, run);
      forall i | |s.polled| <= i < |t.polled| ensures t.polled[i].result.generation >= s.generation {
        if i < |s'.polled| {
          assert t.polled[i] == s'.polled[i];
        }
      }
    }
  }

  lemma BumpStep(s: State)
    requires Inv(s) && s.engine.GenerationBump?
    ensures Enabled(s, Engine) && StepEngine(s) == Step(s, Engine)
    ensures StepEngine(s).returned == NewGeneration(s.engine.target + 1)
    ensures StepEngine(s).generation == s.engine.target + 1 && StepEngine(s).polled == s.polled
  {
    hide Tables, Order, Generations, Accounting, Publications, NothingLost, Delivery;
  }

  /**
    Once `cancelGeneration(g)` has returned, no continuation delivers a result of generation `g` (or older), even if the
    worker was inside `execute` or pushes into the inbound queue afterwards.
   */
  lemma GenerationFence(s: State, run: seq<Action>)
    requires Reachable(s) && s.engine.GenerationBump? && Possible(StepEngine(s), run)
    ensures StepEngine(s).returned == NewGeneration(s.engine.target + 1)
    ensures var t := Execution(StepEngine(s), run);
            s.polled <= t.polled
            && forall i :: |s.polled| <= i < |t.polled| ==> t.polled[i].result.generation > s.engine.target
  {
    hide *;
    ReachableInv(s);
    BumpStep(s);
    StepInv(s, Engine);
    PolledSince(StepEngine(s), run);
  }

  /** `halt` has run to its end and at most empty polls have been going on since. */
  ghost predicate Quiesced(s: State) {
    s.halted && !InHalt(s.engine) && (s.engine.PollFilter? ==> s.engine.items == [])
  }

  lemma QuiescedStep(s: State, a: Action)
    requires Phases(s) && Quiesced(s) && Enabled(s, a)
    ensures Quiesced(Step(s, a))
    ensures Step(s, a).polled == s.polled && Step(s, a).published == s.published && Step(s, a).executed == s.executed
  {
    assert s.worker.Exited? && s.inbound.Items() == [];
    if a == Engine && s.engine.PollFilter? {
      assert s.polled + [] == s.polled;
    }
  }

  /** Once `halt` has returned nothing is executed, published or polled any more. */
  lemma {:induction false} SilentAfterHalt(s: State, run: seq<Action>)
    requires Inv(s) && Quiesced(s) && Possible(s, run)
    ensures Execution(s, run).polled == s.polled && Execution(s, run).published == s.published
    ensures Execution(s, run).executed == s.executed
    decreases |run|
  {
    hide Tables, Order, Generations, Accounting, Publications, NothingLost, Delivery, Quiesced;
    if run != [] {
      QuiescedStep(s, run[0]);
      StepInv(s, run[0]);
      SilentAfterHalt(Step(s, run[0]), run[1..]);
    }
  }

  lemma TablesStep(s: State)
    requires s.halted && s.engine.HaltTables?
    ensures Enabled(s, Engine) && StepEngine(s) == Step(s, Engine) && Quiesced(StepEngine(s))
    ensures StepEngine(s).polled == s.polled && StepEngine(s).published == s.published
    ensures StepEngine(s).executed == s.executed
  {
  }

  lemma HaltingIsHalted(s: State)
    requires Phases(s) && InHalt(s.engine)
    ensures s.halted
  {
  }

  lemma HaltFence(s: State, run: seq<Action>)
    requires Reachable(s) && s.engine.HaltTables? && Possible(StepEngine(s), run)
    ensures var t := Execution(StepEngine(s), run);
            t.polled == s.polled && t.published == s.published && t.executed == s.executed
  {
    hide Reachable, Possible, Execution, StepEngine, Step, Phases, Tables, Order, Generations, Accounting, Publications,
         NothingLost, Delivery, Quiesced;
    ReachableInv(s);
    HaltingIsHalted(s);
    TablesStep(s);
    StepInv(s, Engine);
    SilentAfterHalt(StepEngine(s), run);
  }
}
