/** A concrete interleaving in which one request is answered twice. */
module BridgeWitness {
  import opened Results
  import opened Sequences
  import opened Queues
  import opened Lifecycle
  import opened Bridge
  import opened BridgeInvariants
  import opened BridgeTheorems

  const WITNESS_ID := "00000000-0000-4000-8000-000000000001"

  const WITNESS_REQUEST := Request(WITNESS_ID, "", 0, Health)

  lemma WitnessIdCanonical()
    ensures IsCanonicalUuid(WITNESS_ID)
  {
  }

  /** `enqueue` accepts the request. */
  function Queued(): State {
    Start(0).(known := {WITNESS_ID}, registry := Registry(map[WITNESS_ID := Entry(0, 0)], {}, 1),
              outbound := Lanes([], [WITNESS_REQUEST], false), accepted := [WITNESS_REQUEST],
              returned := Accepted(WITNESS_ID))
  }

  lemma QueuedReachable()
    ensures Reachable(Queued())
  {
    hide Reachable;
    WitnessIdCanonical();
    StartReachable(0);
    var s0 := Start(0);
    var s1 := Step(s0, Begin(Enqueue(WITNESS_REQUEST, true)));
    ReachableStep(s0, Begin(Enqueue(WITNESS_REQUEST, true)));
    var s2 := Step(s1, Engine);
    ReachableStep(s1, Engine);
    var s3 := Step(s2, Engine);
    ReachableStep(s2, Engine);
    var s4 := Step(s3, Engine);
    ReachableStep(s3, Engine);
    var s5 := Step(s4, Engine);
    ReachableStep(s4, Engine);
    assert s4.registry == Queued().registry;
    assert s5 == Queued();
  }

  /** The worker has taken the request and found it neither stopped nor stale. */
  function TakenState(): State {
    Queued().(outbound := Lanes([], [], false), worker := Activate(WITNESS_REQUEST, 0))
  }

  function PoppedState(): State {
    Queued().(outbound := Lanes([], [], false), worker := Popped(WITNESS_REQUEST))
  }

  lemma PoppedReachable()
    ensures Reachable(PoppedState())
  {
    hide Reachable;
    QueuedReachable();
    var s0 := Queued();
    assert s0.outbound.Items() == [WITNESS_REQUEST];
    ReachableStep(s0, Worker);
    assert Step(s0, Worker).outbound == Lanes([], [], false);
    assert Step(s0, Worker) == PoppedState();
  }

  lemma TakenReachable()
    ensures Reachable(TakenState())
  {
    PoppedReachable();
    hide Reachable;
    var s1 := PoppedState();
    var s2 := Step(s1, Worker);
    ReachableStep(s1, Worker);
    var s3 := Step(s2, Worker);
    ReachableStep(s2, Worker);
    var s4 := Step(s3, Worker);
    ReachableStep(s3, Worker);
    var s5 := Step(s4, Worker);
    ReachableStep(s4, Worker);
    assert s5 == TakenState();
  }

  /** The transport has failed and the worker has sampled "not stopped". */
  function SampledState(): State {
    Queued().(outbound := Lanes([], [], false), active := map[WITNESS_ID := WITNESS_REQUEST],
              executed := [WITNESS_REQUEST], answers := [Err(TransportFailure)],
              worker := WorkerPc.Erase(WITNESS_REQUEST, Err(TransportFailure), false),
              trace := [Sampled(WITNESS_ID, false)])
  }

  lemma SampledReachable()
    ensures Reachable(SampledState())
  {
    hide Reachable;
    TakenReachable();
    var s0 := TakenState();
    var s1 := Step(s0, Worker);
    ReachableStep(s0, Worker);
    var s2 := Step(s1, Respond(Err(TransportFailure)));
    ReachableStep(s1, Respond(Err(TransportFailure)));
    var s3 := Step(s2, Worker);
    ReachableStep(s2, Worker);
    assert s3 == SampledState();
  }

  const CANCEL_PUBLICATION := Publication(CancelledResult(WITNESS_REQUEST), true)
  const FAILURE_PUBLICATION := Publication(FailureResult(WITNESS_REQUEST, TransportFailure), false)

  /** `cancel` has run to its end inside the window. */
  function CancelledState(): State {
    SampledState().(registry := Registry(map[WITNESS_ID := Entry(0, 0)], {0}, 1), ledger := {WITNESS_ID},
                    returned := Done,
                    trace := [Sampled(WITNESS_ID, false), CancelStopped(WITNESS_ID), CancelLedgered(WITNESS_ID)],
                    inbound := Lanes([CANCEL_PUBLICATION], [], false), published := [CANCEL_PUBLICATION])
  }

  lemma CancelledReachable()
    ensures Reachable(CancelledState())
  {
    hide Reachable;
    StoppedReachable();
    var s2 := StoppedState();
    var s3 := Step(s2, Engine);
    ReachableStep(s2, Engine);
    var s4 := Step(s3, Engine);
    ReachableStep(s3, Engine);
    assert s4 == CancelledState();
  }

  /** `cancel` has stopped the request and not yet entered it into the ledger. */
  function StoppedState(): State {
    SampledState().(registry := Registry(map[WITNESS_ID := Entry(0, 0)], {0}, 1), engine := CancelLedger(WITNESS_ID),
                    trace := [Sampled(WITNESS_ID, false), CancelStopped(WITNESS_ID)])
  }

  lemma StoppedReachable()
    ensures Reachable(StoppedState())
  {
    hide Reachable;
    SampledReachable();
    var s0 := SampledState();
    var s1 := Step(s0, Begin(Call.Cancel(WITNESS_ID)));
    ReachableStep(s0, Begin(Call.Cancel(WITNESS_ID)));
    var s2 := Step(s1, Engine);
    ReachableStep(s1, Engine);
    assert s2.registry.requested == {0};
    assert s2 == StoppedState();
  }

  /** The worker has erased its entry and published the outcome as well. */
  function AnsweredTwice(): State {
    CancelledState().(worker := WorkerPc.Complete(WITNESS_REQUEST), active := map[],
                      trace := CancelledState().trace + [Erased(WITNESS_ID)],
                      inbound := Lanes([CANCEL_PUBLICATION], [FAILURE_PUBLICATION], false),
                      published := [CANCEL_PUBLICATION, FAILURE_PUBLICATION])
  }

  lemma AnsweredTwiceReachable()
    ensures Reachable(AnsweredTwice())
  {
    hide Reachable;
    CancelledReachable();
    var s0 := CancelledState();
    var s1 := Step(s0, Worker);
    ReachableStep(s0, Worker);
    assert s1.active == map[];
    var s2 := Step(s1, Worker);
    ReachableStep(s1, Worker);
    var s3 := Step(s2, Worker);
    ReachableStep(s2, Worker);
    var s4 := Step(s3, Worker);
    ReachableStep(s3, Worker);
    assert s4 == AnsweredTwice();
  }

  /** "At most one result per request" is false: this run polls a cancelled result and a failure for one request. */
  lemma TwoResultsForOneRequest()
    ensures exists s :: Reachable(s) && s.polled == [CANCEL_PUBLICATION, FAILURE_PUBLICATION]
  {
    hide Reachable;
    AnsweredTwiceReachable();
    var s0 := AnsweredTwice();
    var s1 := Step(s0, Begin(Call.Poll(8)));
    ReachableStep(s0, Begin(Call.Poll(8)));
    var s2 := Step(s1, Engine);
    ReachableStep(s1, Engine);
    assert s0.inbound.Items()[..2] == [CANCEL_PUBLICATION, FAILURE_PUBLICATION];
    var s3 := Step(s2, Engine);
    ReachableStep(s2, Engine);
    var keep := (p: Publication) => p.result.generation == 0;
    FilterAll([CANCEL_PUBLICATION, FAILURE_PUBLICATION], keep);
    assert s3.polled == [CANCEL_PUBLICATION, FAILURE_PUBLICATION];
  }

  lemma {:induction false} FilterAll(ps: seq<Publication>, keep: Publication -> bool)
    requires forall p :: p in ps ==> keep(p)
    ensures Filter(ps, keep) == ps
  {
    if ps != [] {
      FilterAll(ps[1..], keep);
    }
  }
}
