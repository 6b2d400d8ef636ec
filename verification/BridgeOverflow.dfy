/** A run without a poll in which the result of an accepted, live request is dropped. */
module BridgeOverflow {
  import opened Results
  import opened Sequences
  import opened Queues
  import opened Lifecycle
  import opened Bridge
  import opened BridgeInvariants
  import opened BridgeTheorems
  import opened BridgeDelivery

  /** The final three digits of a version 4 identifier. */
  function IdOf(n: nat): Id
    requires n < 1000
  {
    "00000000-0000-4000-8000-000000000" + ['0' + (n / 100) as char, '0' + (n / 10 % 10) as char, '0' + (n % 10) as char]
  }

  lemma IdCanonical(n: nat)
    requires n < 1000
    ensures IsCanonicalUuid(IdOf(n))
  {
  }

  lemma DigitOf(a: nat, b: nat)
    requires a < 10 && b < 10 && '0' + a as char == '0' + b as char
    ensures a == b
  {
    assert ('0' + a as char) as int == '0' as int + a;
  }

  lemma IdInjective(m: nat, n: nat)
    requires m < 1000 && n < 1000 && IdOf(m) == IdOf(n)
    ensures m == n
  {
    LastDigits(m);
    LastDigits(n);
    hide IdOf;
    DigitOf(m / 100, n / 100);
    DigitOf(m / 10 % 10, n / 10 % 10);
    DigitOf(m % 10, n % 10);
    SameDigits(m, n);
  }

  lemma SameDigits(m: nat, n: nat)
    requires m / 100 == n / 100 && m / 10 % 10 == n / 10 % 10 && m % 10 == n % 10
    ensures m == n
  {
    assert m / 10 / 10 == m / 100 && n / 10 / 10 == n / 100;
    assert m / 10 == n / 10;
  }

  lemma LastDigits(n: nat)
    requires n < 1000
    ensures IdOf(n)[33] == '0' + (n / 100) as char && IdOf(n)[34] == '0' + (n / 10 % 10) as char
    ensures IdOf(n)[35] == '0' + (n % 10) as char
  {
  }

  /** Both threads are idle, nothing is queued for the worker and nothing is registered. */
  predicate Quiet(s: State) {
    && !s.halted && s.engine.Idle? && s.worker.Waiting? && s.outbound == Lanes([], [], false)
    && s.registry.entries == map[] && s.active == map[] && s.ledger == {} && !s.inbound.closed
    && forall n :: n in s.registry.requested ==> n < s.registry.next
  }

  /** `enqueue` has accepted the request. */
  function Entered(s: State, r: Request): State {
    s.(known := s.known + {r.id}, registry := s.registry.Register(r.id, r.generation),
       outbound := Lanes([], [r], false), accepted := s.accepted + [r], returned := Accepted(r.id))
  }

  lemma EnterReachable(s: State, r: Request)
    requires Reachable(s) && Quiet(s) && IsCanonicalUuid(r.id) && SessionOk(r)
    requires r.generation == s.generation && r.id !in s.known
    ensures Reachable(Entered(s, r))
  {
    hide Reachable, IsCanonicalUuid;
    CanonicalNotEmpty(r.id);
    var s1 := Step(s, Begin(Enqueue(r, true)));
    ReachableStep(s, Begin(Enqueue(r, true)));
    var s2 := Step(s1, Engine);
    ReachableStep(s1, Engine);
    var s3 := Step(s2, Engine);
    ReachableStep(s2, Engine);
    var s4 := Step(s3, Engine);
    ReachableStep(s3, Engine);
    var s5 := Step(s4, Engine);
    ReachableStep(s4, Engine);
    assert s5 == Entered(s, r);
  }

  /** The transport is about to execute the request. */
  function Started(s: State, r: Request): State {
    Entered(s, r).(outbound := Lanes([], [], false), active := map[r.id := r], worker := Execute(r, s.registry.next))
  }

  lemma StartedReachable(s: State, r: Request)
    requires Reachable(Entered(s, r)) && Quiet(s) && r.generation == s.generation
    ensures Reachable(Started(s, r))
  {
    hide Reachable;
    CheckedReachable(s, r);
    var s0 := Checked(s, r);
    var s1 := Step(s0, Worker);
    ReachableStep(s0, Worker);
    var s2 := Step(s1, Worker);
    ReachableStep(s1, Worker);
    assert s2 == Started(s, r);
  }

  /** The worker has found the request neither stopped nor unregistered. */
  function Checked(s: State, r: Request): State {
    Entered(s, r).(outbound := Lanes([], [], false), worker := TestGeneration(r, s.registry.next))
  }

  lemma CheckedReachable(s: State, r: Request)
    requires Reachable(Entered(s, r)) && Quiet(s)
    ensures Reachable(Checked(s, r))
  {
    hide Reachable;
    var s0 := Entered(s, r);
    assert s0.outbound.Items() == [r];
    var s1 := Step(s0, Worker);
    ReachableStep(s0, Worker);
    assert s1 == s0.(outbound := Lanes([], [], false), worker := Popped(r));
    var s2 := Step(s1, Worker);
    ReachableStep(s1, Worker);
    var s3 := Step(s2, Worker);
    ReachableStep(s2, Worker);
    var s4 := Step(s3, Worker);
    ReachableStep(s3, Worker);
    assert s4 == Checked(s, r);
  }

  /** The transport has failed and the failure result is ready. */
  function Failed(s: State, r: Request): State {
    Started(s, r).(active := map[], executed := s.executed + [r],
                   answers := s.answers + [Err(TransportFailure)],
                   worker := PushOutcome(r, FailureResult(r, TransportFailure)),
                   trace := s.trace + [Sampled(r.id, false)] + [Erased(r.id)])
  }

  lemma FailedReachable(s: State, r: Request)
    requires Reachable(Started(s, r)) && Quiet(s) && r.generation == s.generation
    ensures Reachable(Failed(s, r))
  {
    hide Reachable;
    var s0 := Started(s, r);
    var s1 := Step(s0, Respond(Err(TransportFailure)));
    ReachableStep(s0, Respond(Err(TransportFailure)));
    var s2 := Step(s1, Worker);
    ReachableStep(s1, Worker);
    var s3 := Step(s2, Worker);
    ReachableStep(s2, Worker);
    assert s3.active == map[];
    var s4 := Step(s3, Worker);
    ReachableStep(s3, Worker);
    var s5 := Step(s4, Worker);
    ReachableStep(s4, Worker);
    assert s5 == Failed(s, r);
  }

  /** The worker has handed the failure result over and waits again. */
  function Cycled(s: State, r: Request): State {
    Publish(Failed(s, r), FailureResult(r, TransportFailure), false).(
      registry := Registry(map[], s.registry.requested, s.registry.next + 1), worker := Waiting)
  }

  lemma CycledReachable(s: State, r: Request)
    requires Reachable(Failed(s, r)) && Quiet(s)
    ensures Reachable(Cycled(s, r)) && Quiet(Cycled(s, r))
  {
    hide Reachable;
    var s0 := Failed(s, r);
    var s1 := Step(s0, Worker);
    ReachableStep(s0, Worker);
    var s2 := Step(s1, Worker);
    ReachableStep(s1, Worker);
    assert s2.registry.entries == map[];
    assert s2 == Cycled(s, r);
  }

  /** One accepted request that the transport fails, from a quiet state to the next. */
  lemma Cycle(s: State, r: Request)
    requires Reachable(s) && Quiet(s) && IsCanonicalUuid(r.id) && SessionOk(r)
    requires r.generation == s.generation && r.id !in s.known
    ensures Reachable(Cycled(s, r)) && Quiet(Cycled(s, r))
  {
    hide *;
    EnterReachable(s, r);
    StartedReachable(s, r);
    FailedReachable(s, r);
    CycledReachable(s, r);
  }

  function RequestOf(n: nat): Request
    requires n < 1000
  {
    Request(IdOf(n), "", 0, Health)
  }

  /** `n` failures wait in the inbound queue. */
  ghost predicate Filled(s: State, n: nat) {
    && Quiet(s) && s.generation == 0 && s.polled == [] && s.dropped == []
    && s.inbound.controls == [] && |s.inbound.normals| == n
    && (forall p :: p in s.inbound.normals ==> p.result.request in s.known)
    && (forall m: nat :: n <= m < 1000 ==> IdOf(m) !in s.known)
  }

  lemma FillOneMore(s: State, n: nat)
    requires Reachable(s) && Filled(s, n) && n < 124
    ensures Reachable(Cycled(s, RequestOf(n))) && Filled(Cycled(s, RequestOf(n)), n + 1)
  {
    IdCanonical(n);
    hide Reachable, IsCanonicalUuid, IdOf;
    Cycle(s, RequestOf(n));
    forall m: nat | n + 1 <= m < 1000 ensures IdOf(m) !in Cycled(s, RequestOf(n)).known {
      if IdOf(m) == IdOf(n) {
        IdInjective(m, n);
      }
    }
  }

  lemma {:induction false} Fill(n: nat) returns (s: State)
    requires n <= 124
    ensures Reachable(s) && Filled(s, n)
  {
    if n == 0 {
      StartReachable(0);
      return Start(0);
    }
    var earlier := Fill(n - 1);
    hide *;
    FillOneMore(earlier, n - 1);
    return Cycled(earlier, RequestOf(n - 1));
  }

  /**
    With 124 results waiting, the next outcome is dropped: the request was accepted, no result for it is on its way, and
    its identifier stays known, so that enqueuing it again is refused.
   */
  lemma OutcomeLost()
    ensures exists s, r ::
              && Reachable(s) && Quiet(s) && r in s.accepted && r.generation == s.generation && r.id in s.known
              && s.dropped == [Publication(FailureResult(r, TransportFailure), false)]
              && (forall p :: p in InTransit(s) ==> p.result.request != r.id)
  {
    var s := Fill(124);
    var r := RequestOf(124);
    IdCanonical(124);
    hide Reachable, IsCanonicalUuid, IdOf;
    Cycle(s, r);
    var t := Cycled(s, r);
    assert t.dropped == [Publication(FailureResult(r, TransportFailure), false)];
    assert InTransit(t) == s.inbound.normals;
    assert r in t.accepted && r.id in t.known;
  }
}
