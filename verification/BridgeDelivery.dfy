/** Where every published result is: polled, on its way to `poll`, or dropped by a full inbound queue. */
module BridgeDelivery {
  import opened Results
  import opened Sequences
  import opened Queues
  import opened Lifecycle
  import opened Bridge
  import opened BridgeInvariants
  import opened BridgeSteps
  import opened BridgeTheorems

  // ---------------------------------------------------------------- conservation

  /** Results that a poll got or can still get, and those the inbound queue refused. */
  function Kept(s: State): multiset<Publication> {
    multiset(InTransit(s)) + multiset(s.dropped)
  }

  /** Neither `halt` nor `cancelGeneration` has given up the results of generation `g`. */
  predicate Live(s: State, g: nat) {
    !s.halted && g == s.generation && !s.engine.GenerationInterrupt? && !s.engine.GenerationBump?
  }

  /** Every published result is kept, once, until its generation ends; a closed inbound queue has no writer left. */
  ghost predicate Conserved(s: State) {
    && Kept(s) <= multiset(s.published)
    && (forall p: Publication :: Live(s, p.result.generation) ==> Kept(s)[p] == multiset(s.published)[p])
    && (s.inbound.closed ==> s.worker.Exited?)
  }

  lemma {:induction false} FilterBag<T>(s: seq<T>, keep: T -> bool, x: T)
    ensures multiset(Filter(s, keep))[x] == if keep(x) then multiset(s)[x] else 0
  {
    if s != [] {
      FilterBag(s[1..], keep, x);
      assert s == [s[0]] + s[1..];
    }
  }

  /** A step that keeps every result where it is and revives no generation. */
  lemma SameConserved(s: State, s': State)
    requires Conserved(s) && Kept(s') == Kept(s) && s'.published == s.published
    requires forall g: nat :: Live(s', g) ==> Live(s, g)
    requires s'.inbound.closed ==> s'.worker.Exited?
    ensures Conserved(s')
  {
    hide Kept, Live;
  }

  /** A step that gives up results, all of generations that are no longer live. */
  lemma LessConserved(s: State, s': State)
    requires Conserved(s) && Kept(s') <= Kept(s) && s'.published == s.published
    requires forall p: Publication :: Live(s', p.result.generation) ==>
               Kept(s')[p] == Kept(s)[p] && Live(s, p.result.generation)
    requires s'.inbound.closed ==> s'.worker.Exited?
    ensures Conserved(s')
  {
    hide Kept, Live;
  }

  /** Publishing adds the result at one end of what waits, or to what is dropped. */
  lemma PublishParts(s: State, s': State, result: InboundResult, cancellation: bool) returns (ahead: seq<Publication>)
    requires s'.polled == s.polled && s'.inbound == Publish(s, result, cancellation).inbound
    requires s'.dropped == Publish(s, result, cancellation).dropped
    requires (s'.engine == s.engine) || (!s.engine.PollFilter? && !s'.engine.PollFilter?)
    ensures InTransit(s) == ahead + s.inbound.Items() && InTransit(s') == ahead + s'.inbound.Items()
    ensures var p, before, after := Publication(result, cancellation), s.inbound.Items(), s'.inbound.Items();
            || (s'.dropped == s.dropped && (after == [p] + before || after == before + [p]))
            || (s'.dropped == s.dropped + [p] && after == before)
  {
    ahead := s.polled + (if s.engine.PollFilter? then s.engine.items else []);
  }

  lemma PublishKept(s: State, s': State, result: InboundResult, cancellation: bool)
    requires s'.polled == s.polled && s'.inbound == Publish(s, result, cancellation).inbound
    requires s'.published == Publish(s, result, cancellation).published
    requires s'.dropped == Publish(s, result, cancellation).dropped
    requires (s'.engine == s.engine) || (!s.engine.PollFilter? && !s'.engine.PollFilter?)
    ensures Kept(s') == Kept(s) + multiset{Publication(result, cancellation)}
    ensures multiset(s'.published) == multiset(s.published) + multiset{Publication(result, cancellation)}
    ensures s'.inbound.closed == s.inbound.closed
  {
    assert s'.published == s.published + [Publication(result, cancellation)];
    var ahead := PublishParts(s, s', result, cancellation);
    BagsOneMore(ahead, s.inbound.Items(), s'.inbound.Items(), s.dropped, s'.dropped, Publication(result, cancellation));
    hide InTransit;
  }

  lemma BagsOneMore(ahead: seq<Publication>, before: seq<Publication>, after: seq<Publication>,
                    dropped: seq<Publication>, dropped': seq<Publication>, p: Publication)
    requires || (dropped' == dropped && (after == [p] + before || after == before + [p]))
             || (dropped' == dropped + [p] && after == before)
    ensures multiset(ahead + after) + multiset(dropped')
            == multiset(ahead + before) + multiset(dropped) + multiset{p}
  {
  }

  lemma PublishConserved(s: State, s': State, p: Publication)
    requires Conserved(s) && Kept(s') == Kept(s) + multiset{p}
    requires multiset(s'.published) == multiset(s.published) + multiset{p}
    requires forall g: nat :: Live(s', g) ==> Live(s, g)
    requires s'.inbound.closed ==> s'.worker.Exited?
    ensures Conserved(s')
  {
    hide Kept, Live;
  }

  lemma ConservedCloses(s: State)
    requires Conserved(s)
    ensures s.inbound.closed ==> s.worker.Exited?
  {
  }

  /** A step that neither moves nor adds a result and revives no generation. */
  ghost predicate Unmoved(s: State, s': State) {
    && s'.polled == s.polled && s'.inbound == s.inbound && s'.published == s.published && s'.dropped == s.dropped
    && (s'.engine == s.engine || (!s.engine.PollFilter? && !s'.engine.PollFilter?))
    && (s.worker.Exited? ==> s'.worker.Exited?)
    && (forall g: nat :: Live(s', g) ==> Live(s, g))
  }

  lemma UnmovedConserved(s: State, s': State)
    requires Conserved(s) && Unmoved(s, s')
    ensures Conserved(s')
  {
    assert Kept(s') == Kept(s);
    ConservedCloses(s);
    hide Kept, Conserved;
    SameConserved(s, s');
  }

  // ---------------------------------------------------------------- engine steps

  lemma BeginUnmoved(s: State, call: Call)
    requires s.engine.Idle?
    ensures Unmoved(s, BeginCall(s, call))
  {
  }

  lemma EnqueueUnmoved(s: State)
    requires InEnqueue(s.engine)
    ensures Unmoved(s, StepEnqueue(s))
  {
  }

  lemma CancelUnmoved(s: State)
    requires InCancel(s.engine) && !s.engine.CancelPush?
    ensures Unmoved(s, StepCancel(s))
  {
  }

  lemma CancelGenerationUnmoved(s: State)
    requires InCancelGeneration(s.engine) && !s.engine.GenerationInbound? && !s.engine.GenerationBump?
    ensures Unmoved(s, StepCancelGeneration(s))
  {
  }

  lemma DrainKept(s: State)
    requires s.engine.PollDrain?
    ensures Kept(StepPoll(s)) == Kept(s) && StepPoll(s).published == s.published && StepPoll(s).worker == s.worker
    ensures StepPoll(s).inbound.closed == s.inbound.closed
    ensures forall g: nat :: Live(StepPoll(s), g) ==> Live(s, g)
  {
    DrainTransit(s);
    hide StepPoll, InTransit;
  }

  lemma FilterBags(a: seq<Publication>, b: seq<Publication>, c: seq<Publication>, keep: Publication -> bool,
                   p: Publication)
    ensures multiset(a + Filter(b, keep) + c)[p] <= multiset(a + b + c)[p]
    ensures keep(p) ==> multiset(a + Filter(b, keep) + c)[p] == multiset(a + b + c)[p]
  {
    FilterBag(b, keep, p);
    hide Filter;
  }

  lemma FilterTransit(s: State)
    requires s.engine.PollFilter?
    ensures var keep := (p: Publication) => p.result.generation == s.generation;
            InTransit(StepPoll(s)) == s.polled + Filter(s.engine.items, keep) + s.inbound.Items()
    ensures StepPoll(s).dropped == s.dropped && StepPoll(s).published == s.published && StepPoll(s).worker == s.worker
    ensures StepPoll(s).inbound == s.inbound && StepPoll(s).generation == s.generation
    ensures forall g: nat :: Live(StepPoll(s), g) ==> Live(s, g)
  {
    var keep := (p: Publication) => p.result.generation == s.generation;
    var ahead := s.polled + Filter(s.engine.items, keep);
    hide Filter;
    assert ahead + [] + s.inbound.Items() == ahead + s.inbound.Items();
  }

  lemma FilterKept(s: State)
    requires s.engine.PollFilter?
    ensures forall p :: Kept(StepPoll(s))[p] <= Kept(s)[p]
    ensures forall p: Publication :: p.result.generation == s.generation ==> Kept(StepPoll(s))[p] == Kept(s)[p]
  {
    FilterTransit(s);
    var keep := (p: Publication) => p.result.generation == s.generation;
    hide StepPoll, Filter;
    forall p: Publication
      ensures Kept(StepPoll(s))[p] <= Kept(s)[p]
              && (p.result.generation == s.generation ==> Kept(StepPoll(s))[p] == Kept(s)[p])
    {
      FilterBags(s.polled, s.engine.items, s.inbound.Items(), keep, p);
    }
  }

  lemma PollConserved(s: State)
    requires Conserved(s) && (s.engine.PollDrain? || s.engine.PollFilter?)
    ensures Conserved(StepPoll(s))
  {
    hide Conserved, Kept, StepPoll;
    ConservedCloses(s);
    if s.engine.PollDrain? {
      DrainKept(s);
      SameConserved(s, StepPoll(s));
    } else {
      FilterTransit(s);
      FilterKept(s);
      LessConserved(s, StepPoll(s));
    }
  }

  lemma CancelConserved(s: State)
    requires Conserved(s) && InCancel(s.engine)
    ensures Conserved(StepCancel(s))
  {
    hide Conserved, Kept, Unmoved;
    ConservedCloses(s);
    if s.engine.CancelPush? {
      PublishKept(s, StepCancel(s), CancelledResult(s.engine.request), true);
      PublishConserved(s, StepCancel(s), Publication(CancelledResult(s.engine.request), true));
    } else {
      CancelUnmoved(s);
      UnmovedConserved(s, StepCancel(s));
    }
  }

  lemma InboundErased(s: State)
    requires s.engine.GenerationInbound?
    ensures Kept(StepCancelGeneration(s)) <= Kept(s)
  {
    var s' := StepCancelGeneration(s);
    var keep := (p: Publication) => p.result.generation != s.engine.target;
    var a, b := s.inbound.controls, s.inbound.normals;
    assert InTransit(s') == s.polled + [] + (Filter(a, keep) + Filter(b, keep)) && s'.dropped == s.dropped;
    assert InTransit(s) == s.polled + [] + (a + b);
    hide StepCancelGeneration, InTransit, Filter;
    forall p: Publication ensures Kept(s')[p] <= Kept(s)[p] {
      FilterBag(a, keep, p);
      FilterBag(b, keep, p);
    }
  }

  /** No result of the next generation exists yet. */
  lemma NothingNewer(s: State, p: Publication)
    requires Generations(s) && Delivery(s) && p.result.generation > s.generation
    ensures multiset(s.published)[p] == 0
  {
  }

  lemma BumpConserved(s: State)
    requires Conserved(s) && Generations(s) && Delivery(s) && s.engine.GenerationBump?
    ensures Conserved(StepCancelGeneration(s))
  {
    BumpKept(s);
    hide Kept, InTransit, StepCancelGeneration;
    var s' := StepCancelGeneration(s);
    forall p: Publication | Live(s', p.result.generation) ensures Kept(s')[p] == multiset(s'.published)[p] {
      NothingNewer(s, p);
    }
  }

  lemma BumpKept(s: State)
    requires s.engine.GenerationBump?
    ensures var s' := StepCancelGeneration(s);
            && Kept(s') == Kept(s) && s'.published == s.published && s'.generation == s.generation + 1
            && s'.inbound == s.inbound && s'.worker == s.worker
  {
    assert InTransit(StepCancelGeneration(s)) == InTransit(s);
  }

  lemma CancelGenerationConserved(s: State)
    requires Conserved(s) && Generations(s) && Delivery(s) && InCancelGeneration(s.engine)
    ensures Conserved(StepCancelGeneration(s))
  {
    hide Conserved, Kept, Unmoved, Generations, Delivery;
    ConservedCloses(s);
    if s.engine.GenerationBump? {
      BumpConserved(s);
    } else if s.engine.GenerationInbound? {
      InboundErased(s);
      LessConserved(s, StepCancelGeneration(s));
    } else {
      CancelGenerationUnmoved(s);
      UnmovedConserved(s, StepCancelGeneration(s));
    }
  }

  lemma HaltKept(s: State)
    requires InHalt(s.engine) && s.halted
    ensures Kept(StepHalt(s)) <= Kept(s) && StepHalt(s).published == s.published && StepHalt(s).halted
    ensures StepHalt(s).worker == s.worker
    ensures StepHalt(s).inbound.closed ==> s.inbound.closed || s.engine.HaltCloseInbound?
  {
    if s.engine.HaltClearInbound? {
      assert s.polled + [] + s.inbound.Items() == s.polled + s.inbound.Items();
      assert StepHalt(s).polled + [] + [] == s.polled;
    } else {
      assert InTransit(StepHalt(s)) == InTransit(s);
    }
  }

  lemma HaltConserved(s: State)
    requires Conserved(s) && Phases(s) && InHalt(s.engine)
    ensures Conserved(StepHalt(s))
  {
    assert s.halted && (s.engine.HaltCloseInbound? ==> s.worker.Exited?);
    hide Conserved, Kept, Phases, StepHalt;
    ConservedCloses(s);
    HaltKept(s);
    LessConserved(s, StepHalt(s));
  }

  // ---------------------------------------------------------------- worker steps

  lemma BeforeUnmoved(s: State)
    requires !s.worker.Execute? && !s.worker.Exited? && !AfterExecute(s.worker) && !s.worker.PushCancel?
    ensures Unmoved(s, StepBeforeExecute(s))
  {
  }

  lemma ExecuteUnmoved(s: State, response: Result<InboundResult>)
    requires s.worker.Execute?
    ensures Unmoved(s, StepExecute(s, response))
  {
  }

  lemma AfterUnmoved(s: State)
    requires AfterExecute(s.worker) && !s.worker.PushOutcome?
    ensures Unmoved(s, StepAfterExecute(s))
  {
  }

  lemma WorkerConserved(s: State)
    requires Conserved(s) && !s.worker.Execute? && !s.worker.Exited?
    ensures Conserved(StepWorker(s))
  {
    hide Conserved, Kept, Unmoved;
    ConservedCloses(s);
    if s.worker.PushCancel? {
      PublishKept(s, StepWorker(s), CancelledResult(s.worker.request), true);
      PublishConserved(s, StepWorker(s), Publication(CancelledResult(s.worker.request), true));
    } else if s.worker.PushOutcome? {
      PublishKept(s, StepWorker(s), s.worker.result, false);
      PublishConserved(s, StepWorker(s), Publication(s.worker.result, false));
    } else if AfterExecute(s.worker) {
      AfterUnmoved(s);
      UnmovedConserved(s, StepWorker(s));
    } else {
      BeforeUnmoved(s);
      UnmovedConserved(s, StepWorker(s));
    }
  }

  lemma EngineConserved(s: State)
    requires Conserved(s) && Phases(s) && Generations(s) && Delivery(s) && !s.engine.Idle?
    ensures Conserved(StepEngine(s))
  {
    hide Conserved, Unmoved, Phases, Generations, Delivery, StepEnqueue, StepPoll, StepCancel, StepCancelGeneration,
         StepHalt;
    if InEnqueue(s.engine) {
      EnqueueUnmoved(s);
      UnmovedConserved(s, StepEnqueue(s));
    } else if s.engine.PollDrain? || s.engine.PollFilter? {
      PollConserved(s);
    } else if InCancel(s.engine) {
      CancelConserved(s);
    } else if InCancelGeneration(s.engine) {
      CancelGenerationConserved(s);
    } else {
      HaltConserved(s);
    }
  }

  lemma StepConserved(s: State, a: Action)
    requires Inv(s) && Conserved(s) && Enabled(s, a)
    ensures Conserved(Step(s, a))
  {
    hide Conserved, Unmoved, Phases, Tables, Order, Generations, Accounting, Publications, NothingLost, Delivery,
         BeginCall, StepEngine, StepWorker, StepExecute;
    match a {
      case Begin(call) =>
        BeginUnmoved(s, call);
        UnmovedConserved(s, BeginCall(s, call));
      case Engine => EngineConserved(s);
      case Worker => WorkerConserved(s);
      case Respond(response) =>
        ExecuteUnmoved(s, response);
        UnmovedConserved(s, StepExecute(s, response));
    }
  }

  lemma {:induction false} RunConserved(s: State, run: seq<Action>)
    requires Inv(s) && Conserved(s) && Possible(s, run)
    ensures Conserved(Execution(s, run))
    decreases |run|
  {
    hide Inv, Conserved;
    if run != [] {
      StepConserved(s, run[0]);
      StepInv(s, run[0]);
      RunConserved(Step(s, run[0]), run[1..]);
    }
  }

  lemma StartConserved(g: nat)
    ensures Conserved(Start(g))
  {
    assert InTransit(Start(g)) == [];
  }

  lemma ReachableConserved(s: State)
    requires Reachable(s)
    ensures Conserved(s)
  {
    var g: nat, run: seq<Action> :| Possible(Start(g), run) && Execution(Start(g), run) == s;
    hide Inv, Conserved, Possible, Execution, Start;
    StartInv(g);
    StartConserved(g);
    RunConserved(Start(g), run);
  }

  // ---------------------------------------------------------------- what becomes of a result

  /**
    No result is invented or doubled; while its generation lives, each published result is polled, waiting or
    dropped.
   */
  lemma EveryResultKeptOrDropped(s: State, p: Publication)
    requires Reachable(s)
    ensures multiset(InTransit(s))[p] + multiset(s.dropped)[p] <= multiset(s.published)[p]
    ensures Live(s, p.result.generation) ==>
              multiset(InTransit(s))[p] + multiset(s.dropped)[p] == multiset(s.published)[p]
  {
    ReachableConserved(s);
    assert Kept(s)[p] <= multiset(s.published)[p];
  }

  /** The limit a result meets in the inbound queue. */
  function InboundLimit(p: Publication): nat {
    if p.cancellation then 128 else 124
  }

  /** The one result a step hands to the inbound queue, if it hands one over. */
  function Handed(s: State, a: Action): Option<Publication> {
    if a.Engine? && s.engine.CancelPush? then Some(Publication(CancelledResult(s.engine.request), true))
    else if a.Worker? && s.worker.PushCancel? then Some(Publication(CancelledResult(s.worker.request), true))
    else if a.Worker? && s.worker.PushOutcome? then Some(Publication(s.worker.result, false))
    else None
  }

  lemma EngineHands(s: State)
    requires !s.engine.Idle?
    ensures Handed(s, Engine).None? ==> StepEngine(s).published == s.published && StepEngine(s).dropped == s.dropped
    ensures Handed(s, Engine).Some? ==>
              var next := Publish(s, Handed(s, Engine).value.result, Handed(s, Engine).value.cancellation);
              StepEngine(s).published == next.published && StepEngine(s).dropped == next.dropped
  {
  }

  lemma WorkerHands(s: State)
    requires !s.worker.Execute? && !s.worker.Exited?
    ensures Handed(s, Worker).None? ==> StepWorker(s).published == s.published && StepWorker(s).dropped == s.dropped
    ensures Handed(s, Worker).Some? ==>
              var next := Publish(s, Handed(s, Worker).value.result, Handed(s, Worker).value.cancellation);
              StepWorker(s).published == next.published && StepWorker(s).dropped == next.dropped
  {
  }

  lemma WriterFindsQueueOpen(s: State, a: Action)
    requires Phases(s) && Conserved(s) && Enabled(s, a) && Handed(s, a).Some?
    ensures !s.inbound.closed
  {
  }

  lemma PublishDrops(s: State, p: Publication)
    requires !s.inbound.closed
    ensures var next := Publish(s, p.result, p.cancellation);
            next.published == s.published + [p]
            && next.dropped == s.dropped + (if |s.inbound.Items()| >= InboundLimit(p) then [p] else [])
  {
    assert s.dropped + [] == s.dropped;
  }

  /** What a step adds to the two histories. */
  lemma StepHands(s: State, a: Action)
    requires Enabled(s, a) && (Handed(s, a).Some? ==> !s.inbound.closed)
    ensures Handed(s, a).None? ==> Step(s, a).published == s.published && Step(s, a).dropped == s.dropped
    ensures Handed(s, a).Some? ==>
              var p := Handed(s, a).value;
              Step(s, a).published == s.published + [p]
              && Step(s, a).dropped == s.dropped + (if |s.inbound.Items()| >= InboundLimit(p) then [p] else [])
  {
    hide StepEngine, StepWorker, Publish, InboundLimit;
    if Handed(s, a).Some? {
      PublishDrops(s, Handed(s, a).value);
    }
    match a {
      case Engine => EngineHands(s);
      case Worker => WorkerHands(s);
      case _ =>
    }
  }

  /**
    A step publishes at most one result, and the result is dropped exactly when the inbound queue is at its limit: 128
    for a cancellation, 124 for an outcome. Shutting down never drops one.
   */
  lemma DroppedExactlyAtLimit(s: State, a: Action)
    requires Reachable(s) && Enabled(s, a)
    ensures var s' := Step(s, a);
            || (s'.published == s.published && s'.dropped == s.dropped)
            || (exists p :: s'.published == s.published + [p]
                            && s'.dropped == s.dropped + (if |s.inbound.Items()| >= InboundLimit(p) then [p] else []))
  {
    ReachableInv(s);
    ReachableConserved(s);
    assert Phases(s);
    hide *;
    if Handed(s, a).Some? {
      WriterFindsQueueOpen(s, a);
    }
    StepHands(s, a);
  }

  lemma BagAt<T>(b: seq<T>, x: T) returns (i: nat)
    requires x in b
    ensures i < |b| && b[i] == x && b == b[..i] + ([x] + b[i + 1..])
    ensures multiset(b[..i] + b[i + 1..]) == multiset(b) - multiset{x}
  {
    i :| 0 <= i < |b| && b[i] == x;
    assert b == b[..i] + ([x] + b[i + 1..]);
  }

  lemma {:induction false} CountIncluded(a: seq<Publication>, b: seq<Publication>, id: Id, c: bool)
    requires multiset(a) <= multiset(b)
    ensures Count(a, id, c) <= Count(b, id, c)
  {
    if a != [] {
      assert a == [a[0]] + a[1..];
      assert multiset(a) == multiset{a[0]} + multiset(a[1..]);
      assert a[0] in multiset(b);
      var i := BagAt(b, a[0]);
      CountIncluded(a[1..], b[..i] + b[i + 1..], id, c);
      CountAppend(b[..i], [a[0]] + b[i + 1..], id, c);
      CountAppend(b[..i], b[i + 1..], id, c);
    }
  }

  lemma StepKeepsDropped(s: State, a: Action)
    requires Enabled(s, a)
    ensures s.dropped <= Step(s, a).dropped
  {
    hide StepEngine, StepWorker;
    match a {
      case Engine => EngineHands(s);
      case Worker => WorkerHands(s);
      case _ =>
    }
  }

  lemma {:induction false} DroppedStays(s: State, run: seq<Action>)
    requires Possible(s, run)
    ensures s.dropped <= Execution(s, run).dropped
    decreases |run|
  {
    hide Step;
    if run != [] {
      StepKeepsDropped(s, run[0]);
      DroppedStays(Step(s, run[0]), run[1..]);
    }
  }

  /** A dropped result is gone for good: `poll` never returns one of its sort for that request, before or after. */
  lemma DroppedNeverPolled(s: State, p: Publication, run: seq<Action>)
    requires Reachable(s) && p in s.dropped && Possible(s, run)
    ensures Count(Execution(s, run).polled, p.result.request, p.cancellation) == 0
  {
    var t := Execution(s, run);
    ReachableRun(s, run);
    DroppedStays(s, run);
    ReachableConserved(t);
    AtMostOneOfEachSort(t, p.result.request);
    PolledWithDropped(t, p);
    hide *;
    CountIncluded(t.polled + [p], t.published, p.result.request, p.cancellation);
    CountAppend(t.polled, [p], p.result.request, p.cancellation);
    assert Count([p], p.result.request, p.cancellation) == 1;
  }

  lemma PolledWithDropped(t: State, p: Publication)
    requires Conserved(t) && p in t.dropped
    ensures multiset(t.polled + [p]) <= multiset(t.published)
  {
    var rest := (if t.engine.PollFilter? then t.engine.items else []) + t.inbound.Items();
    assert InTransit(t) == t.polled + rest;
    assert multiset{p} <= multiset(t.dropped);
  }

  // ---------------------------------------------------------------- what becomes of a request

  lemma {:induction false} PositiveCount(ps: seq<Publication>, id: Id) returns (p: Publication)
    requires Count(ps, id, true) + Count(ps, id, false) >= 1
    ensures p in ps && p.result.request == id
  {
    if ps[0].result.request == id {
      p := ps[0];
    } else {
      p := PositiveCount(ps[1..], id);
    }
  }

  /** One of the two threads is about to publish a cancelled result for `id`. */
  predicate Owed(s: State, id: Id) {
    (s.engine.CancelPush? && s.engine.request.id == id) || (s.worker.PushCancel? && s.worker.request.id == id)
  }

  /**
    An accepted request of the live generation is waiting, held by the worker or owed a cancelled result, or one of its
    results is polled, on its way to `poll`, or dropped by the full inbound queue.
   */
  lemma LiveRequestAccounted(s: State, r: Request)
    requires Reachable(s) && !s.halted && r in s.accepted
    requires r.generation == s.generation && !InCancelGeneration(s.engine)
    ensures || r.id in Ids(s.outbound.normals)
            || (Held(s.worker).Some? && Held(s.worker).value.id == r.id && !s.worker.Complete?)
            || Owed(s, r.id)
            || (exists p :: p in InTransit(s) && p.result.request == r.id)
            || (exists p :: p in s.dropped && p.result.request == r.id)
  {
    WaitsHeldOrHandedOver(s, r);
    if Count(s.published, r.id, true) + Count(s.published, r.id, false) >= 1 {
      var p := PositiveCount(s.published, r.id);
      ReachableInv(s);
      ResultGeneration(s, r, p);
      hide Reachable, Inv, InTransit, Ids, Held;
      EveryResultKeptOrDropped(s, p);
    }
  }

  /** A published result carries the generation its request was accepted with. */
  lemma ResultGeneration(s: State, r: Request, p: Publication)
    requires Inv(s) && r in s.accepted && p in s.published && p.result.request == r.id
    ensures p.result.generation == r.generation
  {
    assert From(s.accepted, p.result);
    var q :| q in s.accepted && q.id == p.result.request && q.generation == p.result.generation;
    assert Order(s);
    hide *;
    SameId(s.accepted, q, r);
  }
}
