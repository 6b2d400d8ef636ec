/** What a record's status, receipt and waiting mean, in terms of what happened to it. */
module CommitOutcomes {
  import opened Results
  import opened CommitGate
  import opened CommitTheorems

  // ---------------------------------------------------------------- one record and its past

  /** The commit left a cast under way. */
  predicate Attached(r: Record, a: Attempt) {
    r.spell && a.observed && !a.withdrawn && !a.expired && !a.busy && a.outcome == CastStarted
  }

  /** The status a record must have after its commit. */
  predicate Judged(r: Record, a: Attempt) {
    if !a.observed || a.withdrawn then r.status == Cancelled
    else if a.expired then r.status == Failed
    else if !r.spell then r.status == (if a.outcome == Done then Succeeded else Failed)
    else if !Attached(r, a) then r.status == Failed
    else
      match r.past.ended
      case None => r.status == Pending
      case Some(cause) =>
        r.status == (if cause == CastDone(true) then Succeeded else if cause == ByCaller then Cancelled else Failed)
  }

  /** A report goes out first, or right after the last one was answered badly. */
  predicate ReportsInTurn(reports: seq<ReportEvent>) {
    forall j :: 0 <= j < |reports| && reports[j].Went? ==> j == 0 || reports[j - 1] == Came(false)
  }

  predicate ReportsTold(r: Record) {
    var reports := r.past.reports;
    && ReportsInTurn(reports)
    && (reports != [] ==> reports[0].Went? && r.receipt.Some?)
    && (r.receiptRequest.Some? <==> reports != [])
    && match r.receiptStatus
       case NotSubmitted => reports == []
       case Submitted => reports != [] && reports[|reports| - 1] == Went(r.receiptRequest.value)
       case Accepted => reports != [] && reports[|reports| - 1] == Came(true)
       case ReceiptFailed => reports != [] && reports[|reports| - 1] == Came(false)
  }

  /** The record's status and hook are those its past explains. */
  ghost predicate Told(r: Record, began: seq<nat>) {
    && (r.past.attempt.Some? <==> r.serial in began)
    && (if r.past.attempt.Some? then Judged(r, r.past.attempt.value) else r.past.ended.None?)
    && (r.hook ==> r.past.attempt.Some? && Attached(r, r.past.attempt.value))
    && ReportsTold(r)
  }

  ghost predicate AllTold(transfers: Records, began: seq<nat>) {
    forall id :: id in transfers ==> Told(transfers[id], began)
  }

  lemma RetainedTold(log: Log, turn: Turn, spell: bool, caster: Actor, seen: Option<Snapshot>)
    requires LogOk(log)
    ensures Told(Retained(log.next, turn, spell, caster, seen), log.began)
  {
  }

  lemma EndedTold(r: Record, log: Log)
    requires Placed(r, log) && Told(r, log.began)
    ensures Told(Ended(r), log.began)
  {
    hide ReportsInTurn;
  }

  lemma ExecutedTold(r: Record, log: Log, interrupted: bool, expired: bool)
    requires Placed(r, log) && Told(r, log.began)
    ensures Told(Executed(Overdue(r, interrupted, expired), interrupted, expired), log.began)
  {
    hide ReportsInTurn;
  }

  lemma CommittedTold(r: Record, log: Log, withdrawn: bool, expired: bool, busy: bool, outcome: Outcome)
    requires Placed(r, log) && Told(r, log.began) && r.gate == Queued
    ensures var attempt := Attempt(r.snapshot.Some?, withdrawn, expired, busy, outcome);
            Told(Committed(r, withdrawn, expired, busy, outcome).(past := r.past.(attempt := Some(attempt))),
                 log.began + [r.serial])
  {
    hide ReportsInTurn;
  }

  lemma CastEndedTold(r: Record, log: Log, cause: Cause)
    requires Placed(r, log) && Told(r, log.began) && r.hook && cause != ByCaller
    ensures Told(CastEnded(Blamed(r, cause), cause == CastDone(true)), log.began)
  {
    hide ReportsInTurn;
  }

  lemma TouchedTold(c: State, call: Call, r: Record)
    requires IsSpellCall(call) && Placed(r, c.log) && Told(r, c.log.began) && r.hook
    ensures Told(Touched(c, call, r), c.log.began)
  {
    StartedTold(r, c.log.began);
    CastEndedTold(r, c.log, StartRefused);
    CastEndedTold(r, c.log, TargetLost);
    if call.SpellFinished? {
      CastEndedTold(r, c.log, CastDone(call.success));
    }
    hide Told, Placed, CastEnded, Blamed, StartAllowed, TargetFound;
  }

  lemma ReportedTold(r: Record, log: Log, dto: Dto, request: RequestId, taken: bool)
    requires Placed(r, log) && Told(r, log.began) && TerminalStatus(dto.status)
    ensures Told(Reported(r, dto, request, taken), log.began)
  {
  }

  lemma AnsweredTold(r: Record, log: Log, good: bool)
    requires Told(r, log.began) && r.receiptRequest.Some?
    ensures Told(Answered(r, good), log.began)
  {
  }

  // ---------------------------------------------------------------- calls

  lemma UpdateTold(transfers: Records, id: ActionId, r: Record, began: seq<nat>)
    requires AllTold(transfers, began) && Told(r, began)
    ensures AllTold(transfers[id := r], began)
  {
    hide Told;
  }

  /** A commit of one record is no commit of another. */
  lemma CommitTold(transfers: Records, log: Log, id: ActionId, r: Record)
    requires Safe(transfers, log) && AllTold(transfers, log.began) && id in transfers
    requires Told(r, log.began + [transfers[id].serial])
    ensures AllTold(transfers[id := r], log.began + [transfers[id].serial])
  {
    var began := log.began + [transfers[id].serial];
    forall a | a in transfers && a != id ensures Told(transfers[a], began) {
      assert transfers[a].serial != transfers[id].serial;
      SameTold(transfers[a], log.began, began);
    }
    hide Told, Safe;
  }

  lemma SameTold(r: Record, began: seq<nat>, later: seq<nat>)
    requires Told(r, began) && (r.serial in began <==> r.serial in later)
    ensures Told(r, later)
  {
    hide Judged, ReportsTold;
  }

  lemma WithdrawnTold(transfers: Records, log: Log, turn: Turn)
    requires Safe(transfers, log) && AllTold(transfers, log.began)
    ensures AllTold(AllWithdrawn(transfers, turn), log.began)
  {
    forall id | id in transfers ensures Told(AllWithdrawn(transfers, turn)[id], log.began) {
      RecordIsOk(transfers, log, id);
      EndedTold(transfers[id], log);
      assert AllWithdrawn(transfers, turn)[id]
          == if transfers[id].turn == turn then Ended(transfers[id]) else transfers[id];
    }
    hide Told, Ended;
  }

  lemma SpellTold(c: State, call: Call)
    requires SafeState(c) && AllTold(c.transfers, c.log.began) && IsSpellCall(call)
    ensures AllTold(OnHook(c, call), c.log.began)
  {
    forall id | id in c.transfers ensures Told(OnHook(c, call)[id], c.log.began) {
      RecordIsOk(c.transfers, c.log, id);
      hide Told, Safe, Placed, RecordOk, ReceiptOk, Touched;
      if c.transfers[id].hook {
        TouchedTold(c, call, c.transfers[id]);
      }
    }
    hide Told, Safe;
  }

  lemma StartedTold(r: Record, began: seq<nat>)
    requires Told(r, began)
    ensures Told(r.(started := true), began)
  {
    hide ReportsInTurn;
  }

  lemma SyncedTold(c: State)
    requires SafeState(c) && AllTold(c.transfers, c.log.began)
    ensures AllTold(Synced(c).transfers, c.log.began) && Synced(c).log == c.log && Safe(Synced(c).transfers, c.log)
  {
    hide LogOk, Told;
  }

  lemma IntentTold(c: State, call: Call)
    requires SafeState(c) && AllTold(c.transfers, c.log.began) && call.RetainIntent?
    ensures AllTold(Step(c, call).transfers, Step(c, call).log.began)
  {
    SyncedTold(c);
    assert LogOk(c.log);
    var s := Synced(c);
    RetainedTold(c.log, call.turn, call.spell, call.caster, Seen(s, call.turn));
    hide Synced, Told, Safe, Retained, Seen, LogOk;
    UpdateTold(s.transfers, call.id, Retained(c.log.next, call.turn, call.spell, call.caster, Seen(s, call.turn)),
               c.log.began);
  }

  lemma EndTurnTold(c: State, call: Call)
    requires SafeState(c) && AllTold(c.transfers, c.log.began) && call.EndTurn?
    ensures AllTold(Step(c, call).transfers, Step(c, call).log.began)
  {
    SyncedTold(c);
    hide Synced, Told, Safe, AllWithdrawn;
    WithdrawnTold(Synced(c).transfers, c.log, call.turn);
  }

  lemma ExecuteTold(c: State, call: Call)
    requires SafeState(c) && AllTold(c.transfers, c.log.began) && call.ExecuteTransfer?
    ensures AllTold(Step(c, call).transfers, Step(c, call).log.began)
  {
    SyncedTold(c);
    var s := Synced(c);
    if call.id in s.transfers {
      RecordIsOk(s.transfers, c.log, call.id);
      ExecutedTold(s.transfers[call.id], c.log, call.interrupted, call.expired);
      hide Synced, Told, Safe, Executed, Overdue, Queues;
      UpdateTold(s.transfers, call.id,
                 Executed(Overdue(s.transfers[call.id], call.interrupted, call.expired), call.interrupted,
                          call.expired),
                 c.log.began);
    }
  }

  lemma RunTold(c: State, call: Call)
    requires SafeState(c) && AllTold(c.transfers, c.log.began) && call.RunQueued?
    ensures AllTold(Step(c, call).transfers, Step(c, call).log.began)
  {
    if c.queue != [] && c.queue[0].id in c.transfers {
      var id := c.queue[0].id;
      var r := c.transfers[id];
      StrandedTold(r, c.log.began);
      hide Told, Safe, Committed, PendingSpell;
      UpdateTold(c.transfers, id, r.(past := r.past.(stranded := true)), c.log.began);
      if r.gate == Queued {
        CommitAllTold(c, id, call.expired, call.outcome);
      }
    }
  }

  lemma CommitAllTold(c: State, id: ActionId, expired: bool, outcome: Outcome)
    requires SafeState(c) && AllTold(c.transfers, c.log.began) && id in c.transfers && c.transfers[id].gate == Queued
    ensures var r := c.transfers[id];
            var busy := PendingSpell(c.transfers, r.caster);
            var attempt := Attempt(r.snapshot.Some?, c.Gone(r), expired, busy, outcome);
            AllTold(c.transfers[id := Committed(r, c.Gone(r), expired, busy, outcome).(
                                        past := r.past.(attempt := Some(attempt)))], c.log.began + [r.serial])
  {
    var r := c.transfers[id];
    var busy := PendingSpell(c.transfers, r.caster);
    var attempt := Attempt(r.snapshot.Some?, c.Gone(r), expired, busy, outcome);
    RecordIsOk(c.transfers, c.log, id);
    hide Told, Safe, Placed, Committed, PendingSpell, RecordOk, ReceiptOk;
    CommittedTold(r, c.log, c.Gone(r), expired, busy, outcome);
    CommitTold(c.transfers, c.log, id, Committed(r, c.Gone(r), expired, busy, outcome).(
                 past := r.past.(attempt := Some(attempt))));
  }

  lemma StrandedTold(r: Record, began: seq<nat>)
    requires Told(r, began)
    ensures Told(r.(past := r.past.(stranded := true)), began)
  {
    hide ReportsInTurn;
  }

  lemma SubmitTold(c: State, call: Call)
    requires SafeState(c) && AllTold(c.transfers, c.log.began) && call.SubmitResult?
    ensures AllTold(Step(c, call).transfers, Step(c, call).log.began)
  {
    if call.id in c.transfers && TerminalStatus(call.dto.status) {
      RecordIsOk(c.transfers, c.log, call.id);
      ReportedTold(c.transfers[call.id], c.log, call.dto, call.request, call.taken);
      hide Told, Safe, Placed, Reported, Refuses, Sending;
      UpdateTold(c.transfers, call.id, Reported(c.transfers[call.id], call.dto, call.request, call.taken), c.log.began);
    }
  }

  lemma CancelTold(c: State, call: Call)
    requires SafeState(c) && AllTold(c.transfers, c.log.began) && call.CancelTransfer?
    ensures AllTold(Step(c, call).transfers, Step(c, call).log.began)
  {
    if call.id in c.transfers {
      RecordIsOk(c.transfers, c.log, call.id);
      EndedTold(c.transfers[call.id], c.log);
      assert Ended(c.transfers[call.id]) == Withdrawn(Blamed(c.transfers[call.id], ByCaller));
      hide Told, Safe, Placed, Withdrawn, Blamed, Ended, CancelsAtGate;
      UpdateTold(c.transfers, call.id, Ended(c.transfers[call.id]), c.log.began);
    }
  }

  lemma SettleTold(c: State, call: Call)
    requires SafeState(c) && AllTold(c.transfers, c.log.began) && call.SettleReceipt?
    ensures AllTold(Step(c, call).transfers, Step(c, call).log.began)
  {
    if FirstWith(c.transfers, call.request).Some? {
      var id := FirstWith(c.transfers, call.request).value;
      AnsweredTold(c.transfers[id], c.log, call.good);
      hide Told, Safe, Answered;
      UpdateTold(c.transfers, id, Answered(c.transfers[id], call.good), c.log.began);
    }
  }

  lemma TurnTold(c: State, call: Call)
    requires SafeState(c) && AllTold(c.transfers, c.log.began) && call.SubmitTurn?
    ensures AllTold(Step(c, call).transfers, Step(c, call).log.began)
  {
    SyncedTold(c);
    hide Synced, Told, Safe;
  }

  lemma StepTold(c: State, call: Call)
    requires SafeState(c) && AllTold(c.transfers, c.log.began)
    ensures AllTold(Step(c, call).transfers, Step(c, call).log.began)
  {
    if IsSpellCall(call) {
      SpellTold(c, call);
      hide SafeState, AllTold, OnHook;
    } else {
      hide SafeState, AllTold, Step;
      match call {
        case Environment(_, _, _) =>
          EnvironmentKeeps(c, call);
        case SubmitTurn(_, _) => TurnTold(c, call);
        case RetainIntent(_, _, _, _, _, _) => IntentTold(c, call);
        case EndTurn(_, _, _) => EndTurnTold(c, call);
        case CancelTransfer(_) => CancelTold(c, call);
        case ExecuteTransfer(_, _, _) => ExecuteTold(c, call);
        case RunQueued(_, _) => RunTold(c, call);
        case SubmitResult(_, _, _, _) => SubmitTold(c, call);
        case SettleReceipt(_, _) => SettleTold(c, call);
      }
    }
  }

  lemma EnvironmentKeeps(c: State, call: Call)
    requires call.Environment?
    ensures Step(c, call).transfers == c.transfers && Step(c, call).log == c.log
  {
  }

  lemma {:induction false} AfterTold(calls: seq<Call>)
    ensures AllTold(After(calls).transfers, After(calls).log.began)
  {
    if calls != [] {
      AfterTold(calls[..|calls| - 1]);
      AfterSafe(calls[..|calls| - 1]);
      hide SafeState, AllTold, Step;
      StepTold(After(calls[..|calls| - 1]), calls[|calls| - 1]);
    }
  }

  // ---------------------------------------------------------------- waiting for the main thread

  /** A closure for `id` waits in the queue. */
  predicate InQueue(queue: seq<Action>, id: ActionId) {
    exists k :: 0 <= k < |queue| && queue[k].id == id
  }

  /** A queued record's own closure waits, or has run outside its scope. */
  ghost predicate Waits(c: State) {
    forall id :: id in c.transfers && c.transfers[id].gate == Queued && !c.transfers[id].past.stranded ==>
      Action(id, c.scopeSession, c.scopeGeneration) in c.queue
  }

  /** A record queued afterwards was queued before, and what stranded it is not forgotten. */
  ghost predicate Calmer(before: Records, after: Records) {
    forall id :: id in after && after[id].gate == Queued ==>
      id in before && before[id].gate == Queued && (before[id].past.stranded ==> after[id].past.stranded)
  }

  lemma CalmerWaits(c: State, later: State)
    requires Waits(c) && Calmer(c.transfers, later.transfers) && later.queue == c.queue
    requires later.transfers != map[] ==>
               later.scopeSession == c.scopeSession && later.scopeGeneration == c.scopeGeneration
    ensures Waits(later)
  {
  }

  lemma EndedCalmer(transfers: Records, turn: Turn)
    ensures Calmer(transfers, AllWithdrawn(transfers, turn))
    ensures forall id :: id in transfers ==>
              Calmer(transfers, transfers[id := Withdrawn(Blamed(transfers[id], ByCaller))])
  {
    forall id | id in transfers
      ensures var later := Withdrawn(Blamed(transfers[id], ByCaller));
              later.gate == Queued ==>
                transfers[id].gate == Queued && later.past.stranded == transfers[id].past.stranded
    {
    }
    hide Withdrawn, Blamed;
  }

  lemma HookCalmer(c: State, call: Call)
    requires IsSpellCall(call)
    ensures Calmer(c.transfers, OnHook(c, call))
  {
    forall id | id in c.transfers ensures HookChange(c.transfers[id], Touched(c, call, c.transfers[id])) {
      TouchedChange(c, call, c.transfers[id]);
    }
    hide Touched;
  }

  lemma ReceiptCalmer(transfers: Records, id: ActionId, dto: Dto, request: RequestId, taken: bool, good: bool)
    requires id in transfers
    ensures Calmer(transfers, transfers[id := Reported(transfers[id], dto, request, taken)])
    ensures Calmer(transfers, transfers[id := Answered(transfers[id], good)])
  {
  }

  lemma SpellWaits(c: State, call: Call)
    requires Waits(c) && IsSpellCall(call)
    ensures Waits(Step(c, call))
  {
    HookCalmer(c, call);
    hide Waits, OnHook, Calmer;
    CalmerWaits(c, Step(c, call));
  }

  lemma SyncedWaits(c: State)
    requires Waits(c)
    ensures Waits(Synced(c))
  {
  }

  lemma ExecuteWaits(c: State, id: ActionId, interrupted: bool, expired: bool)
    requires Waits(c)
    ensures Waits(TransferExecuted(c, id, interrupted, expired))
  {
    SyncedWaits(c);
    hide Synced;
  }

  lemma RunWaits(c: State, expired: bool, outcome: Outcome)
    requires SafeState(c) && Waits(c)
    ensures Waits(QueuedRun(c, expired, outcome))
  {
    if c.queue != [] {
      var id := c.queue[0].id;
      if id in c.transfers {
        RecordIsOk(c.transfers, c.log, id);
      }
      hide Safe, Placed, ReceiptOk;
      assert c.queue == [c.queue[0]] + c.queue[1..];
      RunLeaves(c, expired, outcome);
      hide QueuedRun, RecordOk;
    }
  }

  /** After its closure has run a record is stranded or not queued, and the others are as they were. */
  lemma RunLeaves(c: State, expired: bool, outcome: Outcome)
    requires c.queue != [] && (c.queue[0].id in c.transfers ==> RecordOk(c.transfers[c.queue[0].id]))
    ensures var s, id := QueuedRun(c, expired, outcome), c.queue[0].id;
            && s.queue == c.queue[1..] && s.scopeSession == c.scopeSession && s.scopeGeneration == c.scopeGeneration
            && s.transfers.Keys == c.transfers.Keys
            && (id in s.transfers ==> s.transfers[id].past.stranded || s.transfers[id].gate != Queued)
            && (forall a :: a in c.transfers && a != id ==> s.transfers[a] == c.transfers[a])
  {
    if c.queue[0].id in c.transfers {
      var r := c.transfers[c.queue[0].id];
      CommittedLeaves(r, c.Gone(r), expired, PendingSpell(c.transfers, r.caster), outcome);
    }
    hide Committed, PendingSpell;
  }

  lemma CommittedLeaves(r: Record, withdrawn: bool, expired: bool, busy: bool, outcome: Outcome)
    ensures Committed(r, withdrawn, expired, busy, outcome).gate != Queued
  {
  }

  lemma StepWaits(c: State, call: Call)
    requires SafeState(c) && Waits(c)
    ensures Waits(Step(c, call))
  {
    match call {
      case Environment(_, _, _) =>
      case SubmitTurn(_, _) =>
        hide Waits;
        SyncedWaits(c);
        TurnWaits(c, call);
      case RetainIntent(_, _, _, _, _, _) =>
        SyncedWaits(c);
        hide Synced;
      case EndTurn(_, _, _) =>
        SyncedWaits(c);
        EndedCalmer(Synced(c).transfers, call.turn);
        hide Synced, Waits, Calmer, AllWithdrawn;
        CalmerWaits(Synced(c), Step(c, call));
      case CancelTransfer(id) =>
        if id in c.transfers {
          EndedCalmer(c.transfers, 0);
          hide Waits, Calmer, Withdrawn, Blamed;
          CalmerWaits(c, Step(c, call));
        }
      case ExecuteTransfer(id, interrupted, expired) => ExecuteWaits(c, id, interrupted, expired);
      case RunQueued(expired, outcome) => RunWaits(c, expired, outcome);
      case SubmitResult(id, dto, request, taken) =>
        if id in c.transfers {
          ReceiptCalmer(c.transfers, id, dto, request, taken, false);
          hide Waits, Calmer, Reported;
          CalmerWaits(c, Step(c, call));
        }
      case SettleReceipt(request, good) =>
        if FirstWith(c.transfers, request).Some? {
          ReceiptCalmer(c.transfers, FirstWith(c.transfers, request).value, Dto(Failed, 0), 0, false, good);
          hide Waits, Calmer, Answered;
          CalmerWaits(c, Step(c, call));
        }
      case _ => SpellWaits(c, call);
    }
  }

  lemma TurnWaits(c: State, call: Call)
    requires Waits(c) && Waits(Synced(c)) && call.SubmitTurn?
    ensures Waits(Step(c, call))
  {
    hide Synced;
  }

  lemma {:induction false} AfterWaits(calls: seq<Call>)
    ensures Waits(After(calls))
  {
    if calls != [] {
      AfterWaits(calls[..|calls| - 1]);
      AfterSafe(calls[..|calls| - 1]);
      hide SafeState, Waits, Step;
      StepWaits(After(calls[..|calls| - 1]), calls[|calls| - 1]);
    }
  }

  // ---------------------------------------------------------------- the theorems

  /**
    After any calls, a committed record that is no cast has succeeded if and only if its commit was done in time and its
    turn was not withdrawn; it is cancelled if and only if the turn was withdrawn, and failed otherwise.
   */
  lemma TransferStatusExact(calls: seq<Call>, id: ActionId)
    requires id in After(calls).transfers && !After(calls).transfers[id].spell
    ensures var r, began := After(calls).transfers[id], After(calls).log.began;
            && (r.past.attempt.Some? <==> r.serial in began)
            && (r.serial in began ==>
                  var a := r.past.attempt.value;
                  && (r.status == Succeeded <==> a.outcome == Done && a.observed && !a.withdrawn && !a.expired)
                  && (r.status == Cancelled <==> !a.observed || a.withdrawn)
                  && (r.status == Succeeded || r.status == Cancelled || r.status == Failed))
  {
    AfterTold(calls);
    var c := After(calls);
    hide After;
    assert Told(c.transfers[id], c.log.began);
  }

  /**
    After any calls, a committed cast has succeeded if and only if its hook was attached and the first thing to end it
    was the engine's report of success; it is pending as long as nothing has ended it.
   */
  lemma CastStatusExact(calls: seq<Call>, id: ActionId)
    requires id in After(calls).transfers && After(calls).transfers[id].spell
    requires After(calls).transfers[id].serial in After(calls).log.began
    ensures var r := After(calls).transfers[id];
            && r.past.attempt.Some?
            && var a := r.past.attempt.value;
               var attached := && a.outcome == CastStarted && !a.busy && a.observed && !a.withdrawn && !a.expired;
               && (r.status == Succeeded <==> attached && r.past.ended == Some(CastDone(true)))
               && (r.status == Pending <==> attached && r.past.ended == None)
               && (r.status == Cancelled <==>
                     !a.observed || a.withdrawn || (attached && r.past.ended == Some(ByCaller)))
               && (r.hook ==> attached)
  {
    AfterTold(calls);
    var c := After(calls);
    hide After;
    assert Told(c.transfers[id], c.log.began);
  }

  /** Of one retention, a report goes out first or right after the last one was answered badly: never while an answer is
      awaited, never once it was good. */
  lemma ResentOnlyAfterBadAnswer(calls: seq<Call>, id: ActionId, j: nat)
    requires id in After(calls).transfers && j < |After(calls).transfers[id].past.reports|
    requires After(calls).transfers[id].past.reports[j].Went? && j > 0
    ensures After(calls).transfers[id].past.reports[j - 1] == Came(false)
    ensures After(calls).transfers[id].receiptStatus == Accepted ==>
              var reports := After(calls).transfers[id].past.reports; reports[|reports| - 1] == Came(true)
  {
    AfterTold(calls);
    var c := After(calls);
    hide After;
    assert Told(c.transfers[id], c.log.began);
  }

  /**
    A pending record that is no cast under way has its closure in the queue, unless that closure has run while the
    client was not ready or in another scope.
   */
  lemma PendingWaits(calls: seq<Call>, id: ActionId)
    requires id in After(calls).transfers
    requires After(calls).transfers[id].status == Pending && !After(calls).transfers[id].hook
    ensures var c := After(calls);
            c.transfers[id].past.stranded || Action(id, c.scopeSession, c.scopeGeneration) in c.queue
  {
    AfterWaits(calls);
    AfterSafe(calls);
    var c := After(calls);
    hide After;
    RecordIsOk(c.transfers, c.log, id);
  }

  /** Only a closure that runs outside its scope strands a record. */
  lemma StrandedOnlyOutside(calls: seq<Call>, call: Call, id: ActionId)
    requires id in After(calls).transfers && !After(calls).transfers[id].past.stranded
    requires id in Step(After(calls), call).transfers && Step(After(calls), call).transfers[id].past.stranded
    ensures var c := After(calls);
            && call.RunQueued? && c.queue != [] && c.queue[0].id == id
            && (!c.Ready() || c.session != c.queue[0].session || c.generation != c.queue[0].generation)
  {
    var c := After(calls);
    hide After;
    if call.RunQueued? {
      RunStrands(c, call, id);
    } else {
      hide Step;
      NobodyElseStrands(c, call, id);
    }
  }

  lemma RunStrands(c: State, call: Call, id: ActionId)
    requires call.RunQueued? && id in c.transfers && !c.transfers[id].past.stranded
    requires Step(c, call).transfers[id].past.stranded
    ensures c.queue != [] && c.queue[0].id == id
            && (!c.Ready() || c.session != c.queue[0].session || c.generation != c.queue[0].generation)
  {
    hide PendingSpell;
  }

  lemma SpellKeeps(c: State, call: Call, id: ActionId)
    requires IsSpellCall(call) && id in c.transfers
    ensures id in Step(c, call).transfers
    ensures Step(c, call).transfers[id].past.stranded == c.transfers[id].past.stranded
  {
    TouchedChange(c, call, c.transfers[id]);
    hide Touched;
  }

  lemma ScopedKeeps(c: State, call: Call, id: ActionId)
    requires call.EndTurn? || call.ExecuteTransfer? || call.RetainIntent? || call.SubmitTurn?
    requires id in Step(c, call).transfers && Step(c, call).transfers[id].past.stranded
    ensures id in c.transfers && c.transfers[id].past.stranded
  {
    var s := Synced(c);
    assert s.transfers == c.transfers || s.transfers == map[];
    hide Synced, Seen, CancelledAtGate, Queues;
    if id in s.transfers {
      BlamedKeeps(s.transfers[id]);
      if call.ExecuteTransfer? {
        OverdueKeeps(s.transfers[id], call.interrupted, call.expired);
      }
    }
    hide Withdrawn, Blamed, Executed, Overdue, Evicted;
  }

  lemma OverdueKeeps(r: Record, interrupted: bool, expired: bool)
    ensures Executed(Overdue(r, interrupted, expired), interrupted, expired).past.stranded == r.past.stranded
  {
  }

  lemma ReportKeeps(c: State, call: Call, id: ActionId)
    requires call.SubmitResult? && id in c.transfers
    ensures Step(c, call).transfers[id].past.stranded == c.transfers[id].past.stranded
  {
    hide Refuses, Sending, Reportable;
  }

  lemma NobodyElseStrands(c: State, call: Call, id: ActionId)
    requires !call.RunQueued? && id in Step(c, call).transfers && Step(c, call).transfers[id].past.stranded
    ensures id in c.transfers && c.transfers[id].past.stranded
  {
    if IsSpellCall(call) {
      SpellKeys(c, call, id);
      hide Step;
      SpellKeeps(c, call, id);
    } else if call.EndTurn? || call.ExecuteTransfer? || call.RetainIntent? || call.SubmitTurn? {
      hide Step;
      ScopedKeeps(c, call, id);
    } else if call.SubmitResult? {
      assert id in c.transfers;
      hide Step;
      ReportKeeps(c, call, id);
    } else {
      hide Blamed, CancelsAtGate;
      if call.CancelTransfer? && call.id in c.transfers {
        var r := c.transfers[call.id];
        assert Withdrawn(Blamed(r, ByCaller)).past.stranded == r.past.stranded by {
          BlamedKeeps(c.transfers[call.id]);
        }
      }
    }
  }

  lemma BlamedKeeps(r: Record)
    ensures Withdrawn(Blamed(r, ByCaller)).past.stranded == r.past.stranded
  {
  }

  lemma SpellKeys(c: State, call: Call, id: ActionId)
    requires IsSpellCall(call)
    ensures Step(c, call).transfers.Keys == c.transfers.Keys
  {
    hide Touched;
  }

  // ---------------------------------------------------------------- a stranded record

  /** The retention is over, or queued with nothing in the queue to commit it. */
  ghost predicate Lost(c: State, id: ActionId, serial: nat) {
    && serial < c.log.next && serial !in c.log.began
    && (forall a :: a in c.transfers && c.transfers[a].serial == serial ==>
          a == id && (c.transfers[a].gate == Terminal || (c.transfers[a].gate == Queued && !InQueue(c.queue, id))))
  }

  lemma LostBegan(c: State, call: Call, id: ActionId, serial: nat)
    requires SafeState(c) && Lost(c, id, serial)
    ensures serial !in Step(c, call).log.began
  {
    if call.RunQueued? && c.queue != [] && c.queue[0].id in c.transfers {
      RecordIsOk(c.transfers, c.log, c.queue[0].id);
      assert c.queue[0].id == id ==> InQueue(c.queue, id);
    }
    hide Safe, Placed, InQueue;
  }

  lemma LostQueue(c: State, call: Call, id: ActionId, serial: nat)
    requires SafeState(c) && Lost(c, id, serial)
    requires id in Step(c, call).transfers && Step(c, call).transfers[id].serial == serial
    requires id in c.transfers && c.transfers[id].serial == serial && c.transfers[id].gate == Queued
    ensures !InQueue(Step(c, call).queue, id)
  {
    RecordIsOk(c.transfers, c.log, id);
    assert !InQueue(c.queue, id);
    hide Safe, Placed, ReceiptOk, Lost;
    if call.ExecuteTransfer? {
      ExecuteAdds(c, call, id);
    } else if call.RunQueued? {
      RunTakes(c, call);
    } else {
      QueueFrame(c, call);
    }
    hide Step, RecordOk;
  }

  lemma RunTakes(c: State, call: Call)
    requires call.RunQueued?
    ensures Step(c, call).queue == if c.queue == [] then [] else c.queue[1..]
  {
    hide Committed, PendingSpell;
  }

  lemma ExecuteAdds(c: State, call: Call, id: ActionId)
    requires call.ExecuteTransfer? && id in c.transfers && c.transfers[id].status == Pending
    requires id in Step(c, call).transfers
    ensures Step(c, call).queue == c.queue || exists a: Action :: a.id != id && Step(c, call).queue == c.queue + [a]
  {
    assert Synced(c).transfers == c.transfers || Synced(c).transfers == map[];
    hide Executed, Overdue, Synced;
    assert Synced(c).queue == c.queue by {
      SyncedQueue(c);
    }
    assert Step(c, call).queue == c.queue
           || Step(c, call).queue == c.queue + [Action(call.id, Synced(c).scopeSession, Synced(c).scopeGeneration)];
  }

  lemma SyncedQueue(c: State)
    ensures Synced(c).queue == c.queue
  {
  }

  lemma QueueFrame(c: State, call: Call)
    requires !call.ExecuteTransfer? && !call.RunQueued?
    ensures Step(c, call).queue == c.queue
  {
    hide OnHook, AllWithdrawn, CancelledAtGate, Reported, Answered;
  }

  lemma LostStep(c: State, call: Call, id: ActionId, serial: nat)
    requires SafeState(c) && Lost(c, id, serial)
    ensures Lost(Step(c, call), id, serial)
  {
    StepMoves(c, call);
    LostBegan(c, call, id, serial);
    var later := Step(c, call);
    forall a | a in later.transfers && later.transfers[a].serial == serial
      ensures a == id && (later.transfers[a].gate == Terminal
                          || (later.transfers[a].gate == Queued && !InQueue(later.queue, id)))
    {
      assert a in c.transfers && c.transfers[a].serial == serial;
      RecordIsOk(later.transfers, later.log, a);
      assert Advances(c.transfers[a], later.transfers[a]);
      if c.transfers[a].gate == Queued {
        LostQueue(c, call, id, serial);
      }
    }
    hide Step, Safe;
  }

  lemma {:induction false} LostRun(calls: seq<Call>, more: seq<Call>, id: ActionId, serial: nat)
    requires Lost(After(calls), id, serial)
    ensures Lost(After(calls + more), id, serial)
    decreases |more|
  {
    hide Lost, SafeState, Step;
    if more == [] {
      assert calls + more == calls;
    } else {
      var n := |more| - 1;
      LostRun(calls, more[..n], id, serial);
      AfterSafe(calls + more[..n]);
      LostStep(After(calls + more[..n]), more[n], id, serial);
      assert (calls + more)[..|calls + more| - 1] == calls + more[..n];
    }
  }

  /**
    So "exactly once" holds only at most: a queued record with no closure left is never committed, whatever is
    called.
   */
  lemma StrandedNeverCommits(calls: seq<Call>, more: seq<Call>, id: ActionId)
    requires id in After(calls).transfers && After(calls).transfers[id].gate == Queued
    requires !InQueue(After(calls).queue, id)
    ensures After(calls).transfers[id].serial !in After(calls + more).log.began
  {
    AfterSafe(calls);
    var c := After(calls);
    RecordIsOk(c.transfers, c.log, id);
    assert Distinct(c.transfers);
    assert Lost(c, id, c.transfers[id].serial);
    hide After;
    LostRun(calls, more, id, c.transfers[id].serial);
  }

  /** An observed intent is queued, and the client is not ready for a moment when the main thread gets to it. */
  function StrandingRun(): seq<Call> {
    [Environment(Some(7), true, 1)] + [SubmitTurn(2, true)] + [RetainIntent(7, 1, 5, 2, false, 0)]
    + [ExecuteTransfer(5, false, false)] + [Environment(Some(7), false, 1)] + [RunQueued(false, Done)]
    + [Environment(Some(7), true, 1)]
  }

  /** The state with turn 2 observed, and the records and closures given. */
  function Observed(ready: bool, transfers: Records, queue: seq<Action>, next: nat): State {
    State(Some(7), ready, 1, Some(7), 1, map[2 := Snapshot(0, Some(7), 1)], [2], {}, transfers, queue, 1, [2],
          EMPTY_LOG.(next := next))
  }

  function WaitingRecord(): Record {
    Retained(0, 2, false, 0, Some(Snapshot(0, Some(7), 1))).(gate := Queued, status := Pending)
  }

  lemma ObservedState()
    ensures After([Environment(Some(7), true, 1)] + [SubmitTurn(2, true)]) == Observed(true, map[], [], 0)
  {
    ReadyState();
    AfterNext([Environment(Some(7), true, 1)], SubmitTurn(2, true));
    hide After, Step;
    ObserveStep();
  }

  lemma ObserveStep()
    ensures Step(Ready7(), SubmitTurn(2, true)) == Observed(true, map[], [], 0)
  {
  }

  lemma IntentStep()
    ensures Step(Observed(true, map[], [], 0), RetainIntent(7, 1, 5, 2, false, 0))
            == Observed(true, map[5 := WaitingRecord().(gate := Fresh, status := Awaiting)], [], 1)
  {
  }

  lemma ExecuteStep()
    ensures Step(Observed(true, map[5 := WaitingRecord().(gate := Fresh, status := Awaiting)], [], 1),
                 ExecuteTransfer(5, false, false))
            == Observed(true, map[5 := WaitingRecord()], [Action(5, Some(7), 1)], 1)
  {
  }

  lemma StrandingStep()
    ensures Step(Observed(false, map[5 := WaitingRecord()], [Action(5, Some(7), 1)], 1), RunQueued(false, Done))
            == Observed(false, map[5 := WaitingRecord().(past := NO_PAST.(stranded := true))], [], 1)
  {
  }

  lemma ReadyStep(ready: bool, other: bool, transfers: Records, queue: seq<Action>, next: nat)
    ensures Step(Observed(other, transfers, queue, next), Environment(Some(7), ready, 1))
            == Observed(ready, transfers, queue, next)
  {
  }

  lemma StrandedState()
    ensures After(StrandingRun())
            == Observed(true, map[5 := WaitingRecord().(past := NO_PAST.(stranded := true))], [], 1)
  {
    hide After, Step, Observed, WaitingRecord;
    var c2 := [Environment(Some(7), true, 1)] + [SubmitTurn(2, true)];
    var c3 := c2 + [RetainIntent(7, 1, 5, 2, false, 0)];
    var c4 := c3 + [ExecuteTransfer(5, false, false)];
    var c5 := c4 + [Environment(Some(7), false, 1)];
    var c6 := c5 + [RunQueued(false, Done)];
    ObservedState();
    AfterNext(c2, RetainIntent(7, 1, 5, 2, false, 0));
    IntentStep();
    AfterNext(c3, ExecuteTransfer(5, false, false));
    ExecuteStep();
    AfterNext(c4, Environment(Some(7), false, 1));
    ReadyStep(false, true, map[5 := WaitingRecord()], [Action(5, Some(7), 1)], 1);
    AfterNext(c5, RunQueued(false, Done));
    StrandingStep();
    AfterNext(c6, Environment(Some(7), true, 1));
    ReadyStep(true, false, map[5 := WaitingRecord().(past := NO_PAST.(stranded := true))], [], 1);
  }

  /** It stays pending although the client is ready again, in the same scope. */
  lemma PendingCanStrand()
    ensures var c := After(StrandingRun());
            && c.Ready() && c.queue == [] && 5 in c.transfers
            && c.transfers[5].status == Pending && c.transfers[5].gate == Queued
  {
    StrandedState();
    hide After, StrandingRun;
  }
}
