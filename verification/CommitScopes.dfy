/** A commit belongs to the session and generation its intent was observed in, and an ended turn is never committed. */
module CommitScopes {
  import opened Results
  import opened CommitGate
  import opened CommitTheorems
  import opened CommitOutcomes
  import opened CommitCalls

  // ---------------------------------------------------------------- withdrawn observations

  /** The server's word, in the client's own session and generation, that the turn of this observation has ended. */
  predicate Ends(c: State, call: Call, name: nat) {
    && call.EndTurn? && c.session == Some(call.eventSession) && c.generation == call.eventGeneration
    && Unmoved(c) && call.turn in c.snapshots && c.snapshots[call.turn].name == name
  }

  lemma WithdrawnStep(c: State, call: Call, name: nat)
    ensures name in Step(c, call).withdrawn <==> name in c.withdrawn || Ends(c, call, name)
  {
    hide OnHook, AllWithdrawn, CancelledAtGate, Reported, Refuses, Sending, Answered, Committed, PendingSpell, Executed,
         Overdue, Queues, Withdrawn, Blamed, CancelsAtGate, Retained, Seen;
  }

  ghost predicate EndsAt(calls: seq<Call>, i: nat, name: nat) {
    i < |calls| && Ends(After(calls[..i]), calls[i], name)
  }

  lemma EndsBefore(calls: seq<Call>, n: nat, i: nat, name: nat)
    requires i < n <= |calls|
    ensures EndsAt(calls[..n], i, name) <==> EndsAt(calls, i, name)
  {
    assert calls[..n][..i] == calls[..i] && calls[..n][i] == calls[i];
    hide Ends, After;
  }

  /** An observation is withdrawn exactly if some call has ended its turn. */
  lemma {:induction false} WithdrawnExact(calls: seq<Call>, name: nat)
    ensures name in After(calls).withdrawn <==> exists i :: EndsAt(calls, i, name)
  {
    if calls != [] {
      var n := |calls| - 1;
      WithdrawnExact(calls[..n], name);
      WithdrawnStep(After(calls[..n]), calls[n], name);
      assert After(calls) == Step(After(calls[..n]), calls[n]);
      assert EndsAt(calls, n, name) <==> Ends(After(calls[..n]), calls[n], name);
      forall i: nat | EndsAt(calls[..n], i, name) ensures EndsAt(calls, i, name) {
        EndsBefore(calls, n, i, name);
      }
      forall i: nat | EndsAt(calls, i, name) && i != n ensures EndsAt(calls[..n], i, name) {
        EndsBefore(calls, n, i, name);
      }
      hide Step, Ends, After, EndsAt;
    }
  }

  /** A record with an attempt had it before the call, or this call is its commit. */
  ghost predicate AttemptFrom(c: State, call: Call, id: ActionId, later: Record) {
    later.past.attempt.Some? ==>
      && id in c.transfers && later.serial == c.transfers[id].serial && later.snapshot == c.transfers[id].snapshot
      && (later.past.attempt == c.transfers[id].past.attempt
          || (call.RunQueued? && later.past.attempt.value.withdrawn == c.Gone(c.transfers[id])))
  }

  /** What no call but a commit changes. */
  predicate SameAttempt(r: Record, later: Record) {
    later.serial == r.serial && later.snapshot == r.snapshot && later.past.attempt == r.past.attempt
  }

  lemma RecordsSame(r: Record, dto: Dto, request: RequestId, flag: bool, other: bool)
    ensures SameAttempt(r, Withdrawn(Blamed(r, ByCaller)))
    ensures SameAttempt(r, Executed(Overdue(r, flag, other), flag, other))
    ensures SameAttempt(r, Reported(r, dto, request, flag))
    ensures SameAttempt(r, Answered(r, flag))
  {
  }

  lemma TouchedSame(c: State, call: Call, r: Record)
    requires IsSpellCall(call)
    ensures SameAttempt(r, Touched(c, call, r))
  {
    hide StartAllowed, TargetFound;
  }

  /** No new observation or record, no other scope, no attempt but the old ones. */
  ghost predicate Frame(c: State, later: State) {
    && later.scopeSession == c.scopeSession && later.scopeGeneration == c.scopeGeneration
    && later.snapshots == c.snapshots
    && forall id :: id in later.transfers ==> id in c.transfers && SameAttempt(c.transfers[id], later.transfers[id])
  }

  /** The state a call works on: some calls catch up with the client's session and generation first. */
  function Base(c: State, call: Call): State {
    if call.SubmitTurn? || call.RetainIntent? || call.EndTurn? || call.ExecuteTransfer? then Synced(c) else c
  }

  lemma OneFrame(c: State, later: State, id: ActionId, r: Record)
    requires id in c.transfers && SameAttempt(c.transfers[id], r)
    requires later.transfers == c.transfers[id := r] && later.snapshots == c.snapshots
    requires later.scopeSession == c.scopeSession && later.scopeGeneration == c.scopeGeneration
    ensures Frame(c, later)
  {
    hide SameAttempt;
    assert SameAttempt(c.transfers[id], r);
    forall a | a in c.transfers ensures SameAttempt(c.transfers[a], c.transfers[a]) {
      Itself(c.transfers[a]);
    }
  }

  lemma Itself(r: Record)
    ensures SameAttempt(r, r)
  {
  }

  lemma SpellFrame(c: State, call: Call)
    requires IsSpellCall(call)
    ensures Frame(c, c.(transfers := OnHook(c, call)))
  {
    forall id | id in c.transfers ensures SameAttempt(c.transfers[id], Touched(c, call, c.transfers[id])) {
      TouchedSame(c, call, c.transfers[id]);
    }
    hide Touched;
  }

  lemma EndFrame(s: State, turn: Turn)
    ensures Frame(s, s.(transfers := AllWithdrawn(s.transfers, turn)))
  {
    forall id | id in s.transfers ensures SameAttempt(s.transfers[id], Withdrawn(Blamed(s.transfers[id], ByCaller))) {
      RecordsSame(s.transfers[id], Dto(Failed, 0), 0, false, false);
    }
    hide Withdrawn, Blamed;
  }

  lemma SameFrame(c: State, s: State, later: State)
    requires Frame(c, s) && later.transfers == s.transfers && later.snapshots == s.snapshots
    requires later.scopeSession == s.scopeSession && later.scopeGeneration == s.scopeGeneration
    ensures Frame(c, later)
  {
  }

  lemma OneCallFrame(c: State, call: Call)
    requires call.CancelTransfer? || call.ExecuteTransfer? || call.SubmitResult? || call.SettleReceipt?
    ensures Frame(Base(c, call), Step(c, call))
  {
    StepIs(c, call);
    var s, later := Base(c, call), Step(c, call);
    SelfFrame(s);
    hide Step, Synced, Withdrawn, Blamed, Executed, Overdue, Reported, Answered, Queues, Refuses, Sending,
         CancelsAtGate, Frame, SameAttempt;
    match call {
      case CancelTransfer(id) =>
        if id in c.transfers {
          RecordsSame(c.transfers[id], Dto(Failed, 0), 0, false, false);
          OneFrame(c, later, id, Withdrawn(Blamed(c.transfers[id], ByCaller)));
        }
      case ExecuteTransfer(id, interrupted, expired) =>
        if id in s.transfers {
          RecordsSame(s.transfers[id], Dto(Failed, 0), 0, interrupted, expired);
          OneFrame(s, later, id, Executed(Overdue(s.transfers[id], interrupted, expired), interrupted, expired));
        }
      case SubmitResult(id, dto, request, taken) =>
        if id in c.transfers && later != c {
          RecordsSame(c.transfers[id], dto, request, taken, false);
          OneFrame(c, later, id, Reported(c.transfers[id], dto, request, taken));
        }
      case SettleReceipt(request, good) =>
        if FirstWith(c.transfers, request).Some? {
          var id := FirstWith(c.transfers, request).value;
          RecordsSame(c.transfers[id], Dto(Failed, 0), 0, good, false);
          OneFrame(c, later, id, Answered(c.transfers[id], good));
        }
    }
  }

  lemma SelfFrame(s: State)
    ensures Frame(s, s)
  {
  }

  lemma PlainCallFrame(c: State, call: Call)
    requires !call.SubmitTurn? && !call.RetainIntent? && !call.RunQueued?
    ensures Frame(Base(c, call), Step(c, call))
  {
    StepIs(c, call);
    var s, later := Base(c, call), Step(c, call);
    SelfFrame(s);
    if IsSpellCall(call) {
      SpellFrame(c, call);
    } else if call.EndTurn? {
      EndFrame(s, call.turn);
      hide Step, Synced, Frame, AllWithdrawn, CancelledAtGate;
      if later != s {
        SameFrame(s, s.(transfers := AllWithdrawn(s.transfers, call.turn)), later);
      }
    } else if call.Environment? {
      hide Frame;
      SameFrame(c, c, later);
    } else {
      hide Step, Frame, Synced;
      OneCallFrame(c, call);
    }
  }

  lemma RunAttempt(c: State, call: Call, id: ActionId)
    requires call.RunQueued? && id in Step(c, call).transfers
    ensures AttemptFrom(c, call, id, Step(c, call).transfers[id]) && id in c.transfers
    ensures Step(c, call).transfers[id].snapshot == c.transfers[id].snapshot
  {
    if c.queue != [] && c.queue[0].id in c.transfers {
      var r := c.transfers[c.queue[0].id];
      CommittedSame(r, c.Gone(r), call.expired, PendingSpell(c.transfers, r.caster), call.outcome);
    }
    hide Committed, PendingSpell;
  }

  lemma NewAttempt(c: State, call: Call, id: ActionId)
    requires (call.SubmitTurn? || call.RetainIntent?) && id in Step(c, call).transfers
    ensures AttemptFrom(c, call, id, Step(c, call).transfers[id])
  {
    var s := Synced(c);
    assert s.transfers == c.transfers || s.transfers == map[];
    hide Synced, Seen;
  }

  lemma FrameAttempt(c: State, call: Call, id: ActionId)
    requires Frame(Base(c, call), Step(c, call)) && id in Step(c, call).transfers
    ensures AttemptFrom(c, call, id, Step(c, call).transfers[id])
  {
    assert Base(c, call).transfers == c.transfers || Base(c, call).transfers == map[];
    hide Step, Base;
  }

  lemma AttemptStep(c: State, call: Call, id: ActionId)
    requires id in Step(c, call).transfers
    ensures AttemptFrom(c, call, id, Step(c, call).transfers[id])
  {
    hide Step, AttemptFrom, Frame, Base;
    if call.RunQueued? {
      RunAttempt(c, call, id);
    } else if call.SubmitTurn? || call.RetainIntent? {
      NewAttempt(c, call, id);
    } else {
      PlainCallFrame(c, call);
      FrameAttempt(c, call, id);
    }
  }

  lemma CommittedSame(r: Record, withdrawn: bool, expired: bool, busy: bool, outcome: Outcome)
    ensures var later := Committed(r, withdrawn, expired, busy, outcome);
            later.serial == r.serial && later.snapshot == r.snapshot
  {
  }

  predicate ObservedAs(r: Record, name: nat) {
    r.snapshot.Some? && r.snapshot.value.name == name
  }

  /** The observation is withdrawn, and commits other than the old ones have found it so. */
  ghost predicate Ending(c: State, name: nat, old_began: seq<nat>) {
    && name in c.withdrawn
    && forall id :: id in c.transfers && ObservedAs(c.transfers[id], name) && c.transfers[id].past.attempt.Some?
                    && c.transfers[id].serial !in old_began ==>
         c.transfers[id].past.attempt.value.withdrawn
  }

  lemma {:induction false} EndingRun(calls: seq<Call>, more: seq<Call>, name: nat, old_began: seq<nat>)
    requires Ending(After(calls), name, old_began)
    ensures Ending(After(calls + more), name, old_began)
    decreases |more|
  {
    if more == [] {
      assert calls + more == calls;
    } else {
      var n := |more| - 1;
      EndingRun(calls, more[..n], name, old_began);
      assert (calls + more)[..|calls + more| - 1] == calls + more[..n];
      var c := After(calls + more[..n]);
      assert After(calls + more) == Step(c, more[n]);
      EndingStep(c, more[n], name, old_began);
    }
  }

  lemma EndingStep(c: State, call: Call, name: nat, old_began: seq<nat>)
    requires Ending(c, name, old_began)
    ensures Ending(Step(c, call), name, old_began)
  {
    WithdrawnStep(c, call, name);
    forall id | id in Step(c, call).transfers ensures AttemptFrom(c, call, id, Step(c, call).transfers[id]) {
      AttemptStep(c, call, id);
    }
    hide Step, Ends;
  }

  /**
    Once the server has said that a turn ended, no intent of what the turn saw changes the world any more: one not
    committed by then ends as cancelled if it is ever committed.
   */
  lemma EndedTurnNeverCommits(calls: seq<Call>, call: Call, more: seq<Call>, name: nat, id: ActionId)
    requires Ends(After(calls), call, name)
    requires id in After(calls + [call] + more).transfers
    requires ObservedAs(After(calls + [call] + more).transfers[id], name)
    requires After(calls + [call] + more).transfers[id].serial !in After(calls).log.began
    requires After(calls + [call] + more).transfers[id].serial in After(calls + [call] + more).log.began
    ensures var r := After(calls + [call] + more).transfers[id];
            r.status == Cancelled && !r.hook && r.past.attempt.Some? && r.past.attempt.value.withdrawn
  {
    var c, old_began := After(calls), After(calls).log.began;
    AfterNext(calls, call);
    AfterTold(calls);
    WithdrawnStep(c, call, name);
    forall a | a in Step(c, call).transfers ensures AttemptFrom(c, call, a, Step(c, call).transfers[a]) {
      AttemptStep(c, call, a);
    }
    forall a | a in c.transfers ensures c.transfers[a].past.attempt.Some? ==> c.transfers[a].serial in old_began {
      assert Told(c.transfers[a], old_began);
    }
    hide Step, After, Ends;
    EndingRun(calls + [call], more, name, old_began);
    AfterTold(calls + [call] + more);
    var later := After(calls + [call] + more);
    assert Told(later.transfers[id], later.log.began);
  }

  // ---------------------------------------------------------------- one scope

  predicate OfPlace(seen: Snapshot, session: Option<nat>, generation: nat) {
    seen.session == session && seen.generation == generation
  }

  /** What is observed and retained was seen in the scope the client last synchronised with. */
  ghost predicate OneScope(c: State) {
    && (forall t :: t in c.snapshots ==> OfPlace(c.snapshots[t], c.scopeSession, c.scopeGeneration))
    && (forall id :: id in c.transfers && c.transfers[id].snapshot.Some? ==>
          OfPlace(c.transfers[id].snapshot.value, c.scopeSession, c.scopeGeneration))
  }

  lemma FrameScope(c: State, later: State)
    requires OneScope(c) && Frame(c, later)
    ensures OneScope(later)
  {
  }

  lemma SyncedScope(c: State)
    requires OneScope(c)
    ensures OneScope(Synced(c)) && Synced(c).queue == c.queue
    ensures Synced(c).scopeSession == c.session && Synced(c).scopeGeneration == c.generation
  {
  }

  lemma RunScope(c: State, call: Call)
    requires OneScope(c) && call.RunQueued?
    ensures OneScope(Step(c, call))
  {
    forall id | id in Step(c, call).transfers
      ensures id in c.transfers && Step(c, call).transfers[id].snapshot == c.transfers[id].snapshot
    {
      RunAttempt(c, call, id);
    }
    RunSnapshots(c, call);
    hide Step;
  }

  lemma RunSnapshots(c: State, call: Call)
    requires call.RunQueued?
    ensures Step(c, call).snapshots == c.snapshots
    ensures Step(c, call).scopeSession == c.scopeSession && Step(c, call).scopeGeneration == c.scopeGeneration
  {
    hide Committed, PendingSpell;
  }

  lemma TurnScope(c: State, call: Call)
    requires OneScope(c) && OneScope(Synced(c)) && call.SubmitTurn?
    ensures OneScope(Step(c, call))
  {
    hide Synced;
  }

  lemma IntentScope(c: State, call: Call)
    requires OneScope(Synced(c)) && call.RetainIntent?
    ensures OneScope(Step(c, call))
  {
    hide Synced;
  }

  lemma ScopeStep(c: State, call: Call)
    requires OneScope(c)
    ensures OneScope(Step(c, call))
  {
    SyncedScope(c);
    if call.SubmitTurn? {
      hide OneScope, Step;
      TurnScope(c, call);
    } else if call.RetainIntent? {
      hide OneScope, Step;
      IntentScope(c, call);
    } else if call.RunQueued? {
      hide OneScope, Step;
      RunScope(c, call);
    } else {
      hide OneScope, Step, Frame, Synced;
      PlainCallFrame(c, call);
      FrameScope(Base(c, call), Step(c, call));
    }
  }

  /** After any calls, what is observed and retained was seen in one session and generation. */
  lemma {:induction false} RecordsOfOneScope(calls: seq<Call>)
    ensures OneScope(After(calls))
  {
    if calls != [] {
      RecordsOfOneScope(calls[..|calls| - 1]);
      hide OneScope, Step;
      ScopeStep(After(calls[..|calls| - 1]), calls[|calls| - 1]);
    }
  }

  // ---------------------------------------------------------------- commits stay in their scope

  datatype Place = Place(session: Option<nat>, generation: nat)

  /** The sessions and generations a client has been in, in order. */
  function Places(calls: seq<Call>): (places: seq<Place>)
    ensures places != []
  {
    if calls == [] then [Place(None, 0)]
    else
      var n := |calls| - 1;
      Places(calls[..n]) + if calls[n].Environment? then [Place(calls[n].session, calls[n].generation)] else []
  }

  /** No session and generation is left and entered again: generations only advance, and a session has a new name. */
  predicate NeverReturns(places: seq<Place>) {
    forall i, j, k :: 0 <= i < j < k < |places| && places[i] == places[k] ==> places[j] == places[k]
  }

  predicate EnteredBy(places: seq<Place>, p: nat, session: Option<nat>, generation: nat) {
    exists q :: 0 <= q <= p && q < |places| && places[q] == Place(session, generation)
  }

  /** The records' scope was entered as the p-th place, and the closures' scopes no later. */
  predicate InTime(c: State, places: seq<Place>, p: nat) {
    && p < |places| && places[p] == Place(c.scopeSession, c.scopeGeneration)
    && places[|places| - 1] == Place(c.session, c.generation)
    && forall k :: 0 <= k < |c.queue| ==> EnteredBy(places, p, c.queue[k].session, c.queue[k].generation)
  }

  lemma EnteredLater(places: seq<Place>, p: nat, more: seq<Place>, session: Option<nat>, generation: nat)
    requires EnteredBy(places, p, session, generation)
    ensures EnteredBy(places + more, if more == [] then |places| - 1 else p, session, generation)
    ensures EnteredBy(places + more, p, session, generation)
  {
    var q :| 0 <= q <= p && q < |places| && places[q] == Place(session, generation);
    assert (places + more)[q] == places[q];
  }

  /** A call leaves the records' scope alone or catches up with the client, and queues only closures of that scope. */
  lemma ScopeOf(c: State, call: Call)
    ensures var later := Step(c, call);
            && (if call.Environment? then later.session == call.session && later.generation == call.generation
                else later.session == c.session && later.generation == c.generation)
            && ((later.scopeSession == c.scopeSession && later.scopeGeneration == c.scopeGeneration)
                || (!call.Environment? && later.scopeSession == c.session && later.scopeGeneration == c.generation))
    ensures forall k :: 0 <= k < |Step(c, call).queue| ==>
              var a := Step(c, call).queue[k];
              a in c.queue
              || (a.session == Step(c, call).scopeSession && a.generation == Step(c, call).scopeGeneration)
  {
    hide OnHook, AllWithdrawn, CancelledAtGate, Reported, Refuses, Sending, Answered, Committed, PendingSpell, Executed,
         Overdue, Queues, Withdrawn, Blamed, CancelsAtGate, Retained, Seen;
  }

  lemma InTimeStep(c: State, call: Call, places: seq<Place>, p: nat) returns (p1: nat)
    requires InTime(c, places, p)
    ensures InTime(Step(c, call), places + if call.Environment? then [Place(call.session, call.generation)] else [], p1)
  {
    var more := if call.Environment? then [Place(call.session, call.generation)] else [];
    var later := Step(c, call);
    ScopeOf(c, call);
    p1 := if later.scopeSession == c.scopeSession && later.scopeGeneration == c.scopeGeneration then p
          else |places| - 1;
    hide Step, EnteredBy;
    forall k | 0 <= k < |later.queue|
      ensures EnteredBy(places + more, p1, later.queue[k].session, later.queue[k].generation)
    {
      var a := later.queue[k];
      if a in c.queue {
        EnteredLater(places, p, more, a.session, a.generation);
      } else {
        assert (places + more)[p1] == Place(a.session, a.generation);
        EnteredNow(places + more, p1, a.session, a.generation);
      }
    }
  }

  lemma EnteredNow(places: seq<Place>, p: nat, session: Option<nat>, generation: nat)
    requires p < |places| && places[p] == Place(session, generation)
    ensures EnteredBy(places, p, session, generation)
  {
  }

  lemma {:induction false} AfterInTime(calls: seq<Call>) returns (p: nat)
    ensures InTime(After(calls), Places(calls), p)
  {
    p := 0;
    if calls != [] {
      var n := |calls| - 1;
      p := AfterInTime(calls[..n]);
      hide InTime, Step;
      p := InTimeStep(After(calls[..n]), calls[n], Places(calls[..n]), p);
    }
  }

  /**
    A commit is of an intent observed in the client's session and generation of that moment, if and only if these are
    the ones the client last synchronised with.
   */
  lemma CommitScopeExact(calls: seq<Call>, expired: bool, outcome: Outcome)
    requires After(calls).queue != []
    requires After(calls + [RunQueued(expired, outcome)]).log.began != After(calls).log.began
    ensures var c := After(calls);
            var id := c.queue[0].id;
            && id in c.transfers && c.transfers[id].snapshot.Some?
            && (OfPlace(c.transfers[id].snapshot.value, c.session, c.generation) <==> Unmoved(c))
  {
    RecordsOfOneScope(calls);
    CommitExact(calls, expired, outcome);
    AfterSafe(calls);
    var c := After(calls);
    hide After;
    if c.queue[0].id in c.transfers {
      RecordIsOk(c.transfers, c.log, c.queue[0].id);
    }
  }

  lemma SamePlace(places: seq<Place>, p: nat, session: Option<nat>, generation: nat)
    requires NeverReturns(places) && p < |places| && EnteredBy(places, p, session, generation)
    requires places[|places| - 1] == Place(session, generation)
    ensures places[p] == Place(session, generation)
  {
    var q :| 0 <= q <= p && q < |places| && places[q] == Place(session, generation);
    if q < p < |places| - 1 {
      assert places[q] == places[|places| - 1];
    }
  }

  /** So every commit is, unless the client comes back to a session and generation it has left. */
  lemma CommitsInItsScope(calls: seq<Call>, expired: bool, outcome: Outcome)
    requires After(calls).queue != [] && NeverReturns(Places(calls))
    requires After(calls + [RunQueued(expired, outcome)]).log.began != After(calls).log.began
    ensures var c := After(calls);
            var id := c.queue[0].id;
            && c.session.Some? && c.ready
            && id in c.transfers && c.transfers[id].snapshot.Some?
            && OfPlace(c.transfers[id].snapshot.value, c.session, c.generation)
  {
    CommitExact(calls, expired, outcome);
    CommitScopeExact(calls, expired, outcome);
    var p := AfterInTime(calls);
    var c, places := After(calls), Places(calls);
    hide After, Places, OfPlace, EnteredBy;
    assert c.queue[0].session == c.session && c.queue[0].generation == c.generation;
    assert EnteredBy(places, p, c.queue[0].session, c.queue[0].generation);
    SamePlace(places, p, c.session, c.generation);
  }
}
