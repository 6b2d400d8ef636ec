/**
  The part of the native client that retains, commits and reports actions, as an object whose calls change it in
  place.
 */
module CommitClient {
  import opened Results
  import opened CommitGate
  import opened CommitTheorems

  /** What `submitActionResult` tells Lua. */
  function SubmitAnswer(c: State, id: ActionId, dto: Dto, request: RequestId, taken: bool): Result<RequestId> {
    if !c.Ready() then Err(Stopped)
    else if !TerminalStatus(dto.status) then Err(InvalidArgument)
    else if id !in c.transfers then if taken then Ok(request) else Err(QueueFull)
    else RecordAnswer(Refused(c.transfers[id], dto.status), dto, request, taken)
  }

  function RecordAnswer(r: Record, dto: Dto, request: RequestId, taken: bool): Result<RequestId> {
    if dto.status != r.status then Err(DuplicateConflict)
    else if r.receiptRequest.Some? && (r.receiptStatus == Submitted || r.receiptStatus == Accepted)
    then Ok(r.receiptRequest.value)
    else if taken then Ok(request) else Err(QueueFull)
  }

  /**
    What the engine finds when it is asked (expiry, an interrupted or refused cast, the outcome of a mutation) is a
    parameter. Every method is one step of the state machine, so all that holds after any history of calls holds
    here.
   */
  class NativeClient {
    var session: Option<nat>
    var ready: bool
    var generation: nat
    var transferSession: Option<nat>
    var transferGeneration: nat
    var transferSnapshots: map<Turn, Snapshot>
    var transferOrder: seq<Turn>
    var withdrawn: set<nat>
    var transfers: Records
    var queue: seq<Action>
    // history: names for observations and retentions, and what was committed, cancelled and sent
    var names: nat
    var observed: seq<Turn>
    var log: Log
    ghost var calls: seq<Call>

    function View(): State
      reads this
    {
      State(session, ready, generation, transferSession, transferGeneration, transferSnapshots, transferOrder,
            withdrawn, transfers, queue, names, observed, log)
    }

    ghost predicate Valid()
      reads this
    {
      View() == After(calls)
    }

    constructor ()
      ensures Valid() && calls == [] && View() == EMPTY_STATE
    {
      session, ready, generation, transferSession, transferGeneration := None, false, 0, None, 0;
      transferSnapshots, transferOrder, withdrawn, transfers, queue := map[], [], {}, map[], [];
      names, observed, log, calls := 0, [], EMPTY_LOG, [];
    }

    predicate Ready()
      reads this
      ensures Ready() == View().Ready()
    {
      session.Some? && ready
    }

    /** One more call has been made in full. */
    ghost method Happened(call: Call, before: State)
      requires before == After(calls) && View() == Step(before, call)
      modifies `calls
      ensures Valid() && calls == old(calls) + [call]
    {
      AfterNext(calls, call);
      calls := calls + [call];
    }

    /** The session, its status and the generation move on elsewhere. */
    method Environment(session: Option<nat>, ready: bool, generation: nat)
      requires Valid()
      modifies `session, `ready, `generation, `calls
      ensures Valid() && calls == old(calls) + [Call.Environment(session, ready, generation)]
    {
      ghost var before := View();
      this.session, this.ready, this.generation := session, ready, generation;
      Happened(Call.Environment(session, ready, generation), before);
    }

    method SyncTransferScope()
      modifies `transfers, `transferSnapshots, `transferOrder, `transferSession, `transferGeneration, `observed
      ensures View() == Synced(old(View()))
    {
      if transferSession == session && transferGeneration == generation {
        return;
      }
      transfers, transferSnapshots, transferOrder, observed := map[], map[], [], [];
      transferSession, transferGeneration := session, generation;
    }

    /** `submitTurn`: what the turn saw is observed before the bridge is asked, and kept if it accepts the turn. */
    method SubmitTurn(turn: Turn, accepted: bool)
      requires Valid()
      modifies this
      ensures Valid() && calls == old(calls) + [Call.SubmitTurn(turn, accepted)]
    {
      hide After, Step, Synced;
      ghost var before := View();
      StepIs(before, Call.SubmitTurn(turn, accepted));
      if Ready() {
        SyncTransferScope();
        var seen := Snapshot(names, transferSession, transferGeneration);
        if accepted && turn !in transferSnapshots {
          if |transferSnapshots| >= SNAPSHOT_LIMIT {
            AfterBounded(calls);
            FrontExists(before);
            transferSnapshots := transferSnapshots - {transferOrder[0]};
            transferOrder := transferOrder[1..];
          }
          transferSnapshots := transferSnapshots[turn := seen];
          transferOrder := transferOrder + [turn];
          observed := observed + [turn];
          names := names + 1;
        }
      }
      Happened(Call.SubmitTurn(turn, accepted), before);
    }

    /** `retainTransfer` on an action intent of a retainable kind. */
    method RetainIntent(eventSession: nat, eventGeneration: nat, id: ActionId, turn: Turn, spell: bool, caster: Actor)
      requires Valid()
      modifies this
      ensures Valid()
      ensures calls == old(calls) + [Call.RetainIntent(eventSession, eventGeneration, id, turn, spell, caster)]
    {
      hide After, Step, Synced, Retained;
      ghost var before := View();
      ghost var call := Call.RetainIntent(eventSession, eventGeneration, id, turn, spell, caster);
      StepIs(before, call);
      SyncTransferScope();
      if Some(eventSession) != transferSession || eventGeneration != transferGeneration {
        Happened(call, before);
        return;
      }
      if id in transfers || |transfers| >= RECORD_LIMIT {
        Happened(call, before);
        return;
      }
      var seen := if turn in transferSnapshots then Some(transferSnapshots[turn]) else None;
      transfers := transfers[id := Retained(log.next, turn, spell, caster, seen)];
      log := log.(next := log.next + 1);
      Happened(call, before);
    }

    /** `retainTransfer` when the server says a turn was cancelled or failed. */
    method EndTurn(eventSession: nat, eventGeneration: nat, turn: Turn)
      requires Valid()
      modifies this
      ensures Valid() && calls == old(calls) + [Call.EndTurn(eventSession, eventGeneration, turn)]
    {
      hide After, Step, Synced, AllWithdrawn, CancelledAtGate;
      ghost var before := View();
      StepIs(before, Call.EndTurn(eventSession, eventGeneration, turn));
      SyncTransferScope();
      if Some(eventSession) == transferSession && eventGeneration == transferGeneration {
        if turn in transferSnapshots {
          withdrawn := withdrawn + {transferSnapshots[turn].name};
        }
        CancelTurn(turn);
      }
      Happened(Call.EndTurn(eventSession, eventGeneration, turn), before);
    }

    /** Cancels every record of one turn. */
    method CancelTurn(turn: Turn)
      modifies `transfers, `log
      ensures transfers == AllWithdrawn(old(transfers), turn)
      ensures log == old(log).(cancelled := old(log).cancelled + CancelledAtGate(old(transfers), turn))
    {
      hide Withdrawn, Blamed, CancelsAtGate, CancelledAtGate, AllWithdrawn;
      ghost var start := transfers;
      var ids := transfers.Keys;
      AtGateMembers(start, turn);
      while ids != {}
        invariant ids <= transfers.Keys == start.Keys
        invariant log == old(log).(cancelled := log.cancelled)
        invariant forall a :: a in start ==>
                    transfers[a] == if a !in ids && start[a].turn == turn then Withdrawn(Blamed(start[a], ByCaller))
                                    else start[a]
        invariant forall a :: a in start && a !in ids && start[a].turn == turn && CancelsAtGate(start[a]) ==>
                    start[a].serial in log.cancelled
        invariant old(log).cancelled <= log.cancelled <= old(log).cancelled + CancelledAtGate(start, turn)
        decreases |ids|
      {
        var id :| id in ids;
        ids := ids - {id};
        if transfers[id].turn == turn {
          CancelRecord(id);
        }
      }
      WithdrawnIs(start, turn, transfers);
      assert log.cancelled == old(log).cancelled + CancelledAtGate(start, turn);
    }

    /** `cancelTransfer` on the record it finds. */
    method CancelRecord(id: ActionId)
      requires id in transfers
      modifies `transfers, `log
      ensures transfers == old(transfers)[id := Withdrawn(Blamed(old(transfers)[id], ByCaller))]
      ensures log == old(log).(cancelled := old(log).cancelled
                                            + if CancelsAtGate(old(transfers)[id])
                                              then {old(transfers)[id].serial} else {})
    {
      var r := transfers[id];
      if r.hook && r.status == Pending {
        transfers := transfers[id := Blamed(r, ByCaller).(status := Cancelled, gate := Finished(r.gate))];
        return;
      }
      if (r.status == Pending || r.status == Awaiting) && CanCancel(r.gate) {
        transfers := transfers[id := Blamed(r, ByCaller).(gate := Terminal, status := Cancelled)];
        log := log.(cancelled := log.cancelled + {r.serial});
        return;
      }
      transfers := transfers[id := Blamed(r, ByCaller)];
      assert log.cancelled + {} == log.cancelled;
    }

    method CancelTransfer(id: ActionId)
      requires Valid()
      modifies this
      ensures Valid() && calls == old(calls) + [Call.CancelTransfer(id)]
    {
      ghost var before := View();
      if id in transfers {
        CancelRecord(id);
      }
      Happened(Call.CancelTransfer(id), before);
    }

    /** Lua asks for the action, or how it stands; the first time, its commit is queued. */
    method ExecuteTransfer(id: ActionId, interrupted: bool, expired: bool) returns (reported: Option<Status>)
      requires Valid()
      modifies this
      ensures Valid() && calls == old(calls) + [Call.ExecuteTransfer(id, interrupted, expired)]
      ensures reported == if id in transfers then Some(transfers[id].status) else None
    {
      hide After, Step, Executed, Synced, Overdue;
      ghost var before := View();
      ghost var call := Call.ExecuteTransfer(id, interrupted, expired);
      StepIs(before, call);
      SyncTransferScope();
      if id !in transfers {
        Happened(call, before);
        return None;
      }
      var r := transfers[id];
      OverdueQueues(r, interrupted, expired);
      r := Overdue(r, interrupted, expired);
      ghost var r0 := r;
      if r.hook && r.started && r.status == Pending && interrupted {
        r := r.(status := Failed, hook := false, gate := Finished(r.gate));
      }
      if r.hook && r.status == Pending && expired {
        r := r.(status := Failed, gate := Finished(r.gate));
      }
      if r.status == Awaiting && CanQueue(r.gate) {
        r := r.(gate := Queued, status := Pending);
        queue := queue + [Action(id, transferSession, transferGeneration)];
      } else {
        assert queue + [] == queue;
      }
      transfers := transfers[id := r];
      ExecutedIs(r0, interrupted, expired);
      Happened(call, before);
      return Some(r.status);
    }

    /** The engine's main thread runs the next queued closure. */
    method RunQueued(expired: bool, outcome: Outcome)
      requires Valid() && queue != []
      modifies this
      ensures Valid() && calls == old(calls) + [Call.RunQueued(expired, outcome)]
    {
      hide After, Mutated, PendingSpell, Step;
      ghost var before := View();
      StepIs(before, Call.RunQueued(expired, outcome));
      var action := queue[0];
      queue := queue[1..];
      if !Ready() || session != action.session || generation != action.generation {
        transfers := Stranded(transfers, action.id);
        Happened(Call.RunQueued(expired, outcome), before);
        return;
      }
      if action.id !in transfers || transfers[action.id].status != Pending || !CanBegin(transfers[action.id].gate) {
        Happened(Call.RunQueued(expired, outcome), before);
        return;
      }
      var r := transfers[action.id];
      var attempt := Attempt(r.snapshot.Some?, View().Gone(r), expired, PendingSpell(transfers, r.caster), outcome);
      r := CommitTransfer(r.(gate := Executing), expired, outcome);
      if r.status != Pending {
        r := r.(gate := Finished(r.gate));
      }
      transfers := transfers[action.id := r.(past := r.past.(attempt := Some(attempt)))];
      log := log.(began := log.began + [r.serial]);
      Happened(Call.RunQueued(expired, outcome), before);
    }

    /** The commit itself. A cast only attaches its hook when its caster has none. */
    method CommitTransfer(r: Record, expired: bool, outcome: Outcome) returns (later: Record)
      ensures later == Mutated(r, View().Gone(r), expired, PendingSpell(transfers, r.caster), outcome)
      ensures later.serial == r.serial && later.past == r.past
    {
      later := r.(status := Failed);
      if r.snapshot.None? || r.snapshot.value.name in withdrawn {
        return r.(status := Cancelled);
      }
      if expired {
        return;
      }
      if r.spell {
        if PendingSpell(transfers, r.caster) || outcome != CastStarted {
          return;
        }
        return r.(hook := true, status := Pending);
      }
      if outcome == Done {
        later := r.(status := Succeeded);
      }
    }

    /** Looks for the record that holds the actor's hook. */
    method FindSpell(actor: Actor) returns (found: Option<ActionId>)
      requires Valid()
      ensures Hooked(transfers, actor, found)
      ensures found.Some? <==> PendingSpell(transfers, actor)
      ensures found.Some? ==> transfers[found.value].snapshot.Some?
    {
      if id :| id in transfers && transfers[id].hook && transfers[id].caster == actor {
        AfterSafe(calls);
        OnlyHook(transfers, log, id);
        RecordIsOk(transfers, log, id);
        return Some(id);
      }
      return None;
    }

    /** The record that holds the actor's hook ends: a pending one as told, any other only lets go. */
    method EndCast(id: ActionId, cause: Cause, success: bool)
      requires id in transfers
      modifies `transfers
      ensures transfers == old(transfers)[id := CastEnded(Blamed(old(transfers)[id], cause), success)]
      ensures !transfers[id].hook
    {
      var r := Blamed(transfers[id], cause);
      if r.status == Pending {
        r := r.(status := if success then Succeeded else Failed, gate := Finished(r.gate));
      }
      r := r.(hook := false);
      transfers := transfers[id := r];
    }

    /** The engine asks before it starts a cast. */
    method SpellStartAllowed(actor: Actor, expired: bool, selected: bool) returns (allowed: bool)
      requires Valid()
      modifies this
      ensures Valid() && calls == old(calls) + [Call.SpellStart(actor, expired, selected)]
      ensures allowed <==>
              forall id :: id in old(transfers) && old(transfers)[id].hook && old(transfers)[id].caster == actor ==>
                StartAllowed(old(View()), old(transfers)[id], expired, selected)
      ensures !allowed ==> !PendingSpell(transfers, actor)
    {
      hide After, CastEnded, Blamed, Step;
      ghost var before := View();
      ghost var call := Call.SpellStart(actor, expired, selected);
      var found := FindSpell(actor);
      SpellOne(before, call, found);
      allowed := true;
      if found.Some? {
        var r := transfers[found.value];
        if r.status != Pending || !Ready() || r.snapshot.value.session != session
           || r.snapshot.value.generation != generation || expired || !selected
        {
          EndCast(found.value, StartRefused, false);
          allowed := false;
        } else {
          transfers := transfers[found.value := r.(started := true)];
        }
      }
      Happened(call, before);
    }

    /** The engine reports how a cast ended: whatever the record's status, its hook is released. */
    method SpellFinished(actor: Actor, success: bool)
      requires Valid()
      modifies this
      ensures Valid() && calls == old(calls) + [Call.SpellFinished(actor, success)] && !PendingSpell(transfers, actor)
    {
      hide After, CastEnded, Blamed, Step;
      ghost var before := View();
      var found := FindSpell(actor);
      SpellOne(before, Call.SpellFinished(actor, success), found);
      if found.Some? {
        EndCast(found.value, CastDone(success), success);
      }
      Happened(Call.SpellFinished(actor, success), before);
    }

    /** The engine asks where a cast under way should go: 0 without a cast of ours, 1 to go on, -1 to give it up. */
    method SpellTarget(actor: Actor, expired: bool, selected: bool, aimed: bool) returns (answer: int)
      requires Valid()
      modifies this
      ensures Valid() && calls == old(calls) + [Call.SpellTarget(actor, expired, selected, aimed)]
      ensures answer == 0 <==> !PendingSpell(old(transfers), actor)
      ensures answer == 0 || answer == 1 || answer == -1
      ensures answer == 1 ==>
              forall id :: id in old(transfers) && old(transfers)[id].hook && old(transfers)[id].caster == actor ==>
                TargetFound(old(View()), old(transfers)[id], expired, selected, aimed)
      ensures answer == -1 ==> !PendingSpell(transfers, actor)
    {
      hide After, CastEnded, Blamed, TargetFound, StartAllowed, Step;
      ghost var before := View();
      var found := FindSpell(actor);
      SpellOne(before, Call.SpellTarget(actor, expired, selected, aimed), found);
      answer := 0;
      if found.Some? {
        var r := transfers[found.value];
        TargetFoundIs(before, r, expired, selected, aimed);
        if r.status != Pending || !Ready() || r.snapshot.value.session != session
           || r.snapshot.value.generation != generation || !r.started || r.snapshot.value.name in withdrawn || expired
           || !selected || !aimed
        {
          EndCast(found.value, TargetLost, false);
          answer := -1;
        } else {
          assert transfers[found.value := r] == transfers;
          answer := 1;
        }
      }
      Happened(Call.SpellTarget(actor, expired, selected, aimed), before);
    }

    /** `submitActionResult` on a retained action. */
    method ReportRecord(id: ActionId, dto: Dto, request: RequestId, taken: bool) returns (answer: Result<RequestId>)
      requires id in transfers
      modifies `transfers, `log
      ensures transfers == old(transfers)[id := Reported(old(transfers)[id], dto, request, taken)]
      ensures var r := old(transfers)[id];
              log == old(log).(cancelled := old(log).cancelled + (if Refuses(r, dto.status) then {r.serial} else {}),
                               sent := old(log).sent + Sending(r, dto, taken))
      ensures answer == RecordAnswer(Refused(old(transfers)[id], dto.status), dto, request, taken)
    {
      hide Reportable, RecordAnswer;
      ghost var before := transfers[id];
      assert log.cancelled + {} == log.cancelled;
      if (dto.status == Rejected || dto.status == Cancelled) && CanCancel(transfers[id].gate) {
        transfers := transfers[id := transfers[id].(gate := Terminal, status := dto.status)];
        log := log.(cancelled := log.cancelled + {transfers[id].serial});
      } else {
        assert transfers[id := before] == transfers;
      }
      assert transfers[id] == Refused(before, dto.status);
      answer := KeepAndSend(id, dto, request, taken);
    }

    /** The first report is kept, and it is what goes out. */
    method KeepAndSend(id: ActionId, dto: Dto, request: RequestId, taken: bool) returns (answer: Result<RequestId>)
      requires id in transfers
      modifies `transfers, `log
      ensures var r := old(transfers)[id];
              var goes := Reportable(r, dto.status);
              && transfers == old(transfers)[id :=
                   if !goes then r
                   else if taken then
                     Keeping(r, dto).(receiptRequest := Some(request), receiptStatus := Submitted,
                                      past := r.past.(reports := r.past.reports + [Went(request)]))
                   else Keeping(r, dto)]
              && log == old(log).(sent := old(log).sent
                          + if taken && goes then [Sent(r.serial, Keeping(r, dto).receipt.value)] else [])
              && answer == RecordAnswer(r, dto, request, taken)
    {
      var r := transfers[id];
      assert log.sent + [] == log.sent && transfers[id := r] == transfers;
      if dto.status != r.status {
        return Err(DuplicateConflict);
      }
      if r.receiptRequest.Some? && (r.receiptStatus == Submitted || r.receiptStatus == Accepted) {
        return Ok(r.receiptRequest.value);
      }
      if r.receipt.None? {
        r := r.(receipt := Some(dto));
        transfers := transfers[id := r];
      }
      if !taken {
        return Err(QueueFull);
      }
      log := log.(sent := log.sent + [Sent(r.serial, r.receipt.value)]);
      transfers := transfers[id := r.(receiptRequest := Some(request), receiptStatus := Submitted,
                                      past := r.past.(reports := r.past.reports + [Went(request)]))];
      return Ok(request);
    }

    /** Lua reports how an action ended. */
    method SubmitActionResult(id: ActionId, dto: Dto, request: RequestId, taken: bool)
      returns (answer: Result<RequestId>)
      requires Valid()
      modifies this
      ensures Valid() && calls == old(calls) + [SubmitResult(id, dto, request, taken)]
      ensures answer == SubmitAnswer(old(View()), id, dto, request, taken)
    {
      hide After, Reported, Sending, Refuses, Refused, RecordAnswer, Step;
      ghost var before := View();
      StepIs(before, SubmitResult(id, dto, request, taken));
      if !Ready() {
        answer := Err(Stopped);
      } else if !TerminalStatus(dto.status) {
        answer := Err(InvalidArgument);
      } else if id in transfers {
        answer := ReportRecord(id, dto, request, taken);
      } else {
        answer := if taken then Ok(request) else Err(QueueFull);
      }
      Happened(SubmitResult(id, dto, request, taken), before);
    }

    /** The first record, in the order of the identifiers, whose report went out as this request. */
    method FindReport(request: RequestId) returns (found: Option<ActionId>)
      ensures found == FirstWith(transfers, request)
      ensures found.Some? ==> found.value in transfers
      ensures found.Some? <==> exists id :: id in transfers && transfers[id].receiptRequest == Some(request)
    {
      found := None;
      var ids := transfers.Keys;
      while ids != {}
        invariant ids <= transfers.Keys
        invariant found.Some? ==> found.value in transfers && transfers[found.value].receiptRequest == Some(request)
        invariant forall a :: a in transfers && a !in ids && transfers[a].receiptRequest == Some(request) ==>
                    found.Some? && found.value <= a
        decreases |ids|
      {
        var id :| id in ids;
        ids := ids - {id};
        if transfers[id].receiptRequest == Some(request) && (found.None? || id < found.value) {
          found := Some(id);
        }
      }
      FirstIs(transfers, request, found);
    }

    /** A drained result may be the answer to a report. */
    method SettleTransferReceipt(request: RequestId, good: bool) returns (settled: bool)
      requires Valid()
      modifies this
      ensures Valid() && calls == old(calls) + [SettleReceipt(request, good)]
      ensures settled <==> exists id :: id in old(transfers) && old(transfers)[id].receiptRequest == Some(request)
    {
      hide After, Step, FirstWith;
      ghost var before := View();
      StepIs(before, SettleReceipt(request, good));
      settled := false;
      var found := FindReport(request);
      if found.Some? {
        var r := transfers[found.value];
        var accepted := good && r.receipt.Some?;
        transfers := transfers[found.value := r.(receiptStatus := if accepted then Accepted else ReceiptFailed,
                                                 past := r.past.(reports := r.past.reports + [Came(good)]))];
        settled := true;
      }
      Happened(SettleReceipt(request, good), before);
    }
  }

  /** The record the actor's hook belongs to, if there is one. */
  ghost predicate Hooked(transfers: Records, actor: Actor, found: Option<ActionId>) {
    && (forall a :: a in transfers && transfers[a].hook && transfers[a].caster == actor ==> found == Some(a))
    && (found.Some? ==>
          found.value in transfers && transfers[found.value].hook && transfers[found.value].caster == actor)
  }

  lemma SpellOne(c: State, call: Call, found: Option<ActionId>)
    requires IsSpellCall(call) && Hooked(c.transfers, call.actor, found)
    ensures Step(c, call)
            == if found.None? then c
               else c.(transfers := c.transfers[found.value := Touched(c, call, c.transfers[found.value])])
  {
    StepIs(c, call);
    OnHookOne(c, call, found);
    hide Step, OnHook, Hooked, Touched;
    if found.None? {
      assert c.(transfers := c.transfers) == c;
    }
  }

  lemma TargetFoundIs(c: State, r: Record, expired: bool, selected: bool, aimed: bool)
    requires r.snapshot.Some?
    ensures TargetFound(c, r, expired, selected, aimed)
            <==> r.status == Pending && c.Ready() && r.snapshot.value.session == c.session
                 && r.snapshot.value.generation == c.generation && r.started
                 && r.snapshot.value.name !in c.withdrawn && !expired && selected && aimed
  {
  }

  lemma OverdueQueues(r: Record, interrupted: bool, expired: bool)
    ensures Queues(Overdue(r, interrupted, expired)) == Queues(r)
  {
  }

  lemma ExecutedIs(r: Record, interrupted: bool, expired: bool)
    ensures var r1 := if r.hook && r.started && r.status == Pending && interrupted
                      then r.(status := Failed, hook := false, gate := Finished(r.gate)) else r;
            var r2 := if r1.hook && r1.status == Pending && expired
                      then r1.(status := Failed, gate := Finished(r1.gate)) else r1;
            Executed(r, interrupted, expired) == (if Queues(r2) then r2.(gate := Queued, status := Pending) else r2)
            && (Queues(r2) <==> Queues(r))
  {
  }

  lemma WithdrawnIs(start: Records, turn: Turn, transfers: Records)
    requires transfers.Keys == start.Keys
    requires forall a :: a in start ==>
               transfers[a] == if start[a].turn == turn then Withdrawn(Blamed(start[a], ByCaller)) else start[a]
    ensures transfers == AllWithdrawn(start, turn)
  {
    hide Withdrawn, Blamed;
  }

  lemma FirstIs(transfers: Records, request: RequestId, found: Option<ActionId>)
    requires found.Some? ==> First(transfers, request, found.value)
    requires found.None? ==> forall a :: a in transfers ==> transfers[a].receiptRequest != Some(request)
    ensures found == FirstWith(transfers, request)
  {
  }

  lemma FrontExists(c: State)
    requires Bounded(c) && |Synced(c).snapshots| >= SNAPSHOT_LIMIT
    ensures Synced(c).order != []
  {
  }

  /** The hook of one actor is in at most one place. */
  lemma OnHookOne(c: State, call: Call, found: Option<ActionId>)
    requires IsSpellCall(call) && Hooked(c.transfers, call.actor, found)
    ensures OnHook(c, call)
            == if found.None? then c.transfers
               else c.transfers[found.value := Touched(c, call, c.transfers[found.value])]
  {
    hide Touched;
  }
}
