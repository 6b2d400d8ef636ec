/** What one call does after any history, said of the records themselves; and what scopes and ended turns rule out. */
module CommitCalls {
  import opened Results
  import opened CommitGate
  import opened CommitTheorems
  import opened CommitOutcomes

  /** The client's session and generation have not changed since it last looked at its records. */
  predicate Unmoved(c: State) {
    c.session == c.scopeSession && c.generation == c.scopeGeneration
  }

  /** Waiting to be confirmed, for the main thread, or for a cast to end. */
  predicate Live(r: Record) {
    r.status == Awaiting || r.status == Pending
  }

  predicate Observable(c: State, r: Record) {
    && c.session.Some? && c.ready && r.snapshot.Some?
    && r.snapshot.value.session == c.session && r.snapshot.value.generation == c.generation
  }

  // ---------------------------------------------------------------- observing and retaining

  /**
    A ready client observes an accepted turn once, in its own session and generation; leaving these forgets the
    others.
   */
  lemma TurnObserved(calls: seq<Call>, turn: Turn, accepted: bool)
    ensures var c, later := After(calls), After(calls + [SubmitTurn(turn, accepted)]);
            var known := Unmoved(c) && turn in c.snapshots;
            && later.observed == (if !c.session.Some? || !c.ready || Unmoved(c) then c.observed else [])
                                 + (if c.session.Some? && c.ready && accepted && !known then [turn] else [])
            && (c.session.Some? && c.ready && accepted && !known ==>
                  turn in later.snapshots && later.snapshots[turn] == Snapshot(c.names, c.session, c.generation))
            && (forall t :: t in later.snapshots && (t != turn || known) ==>
                  t in c.snapshots && later.snapshots[t] == c.snapshots[t])
            && (later.transfers == c.transfers || (!Unmoved(c) && later.transfers == map[]))
  {
    AfterNext(calls, SubmitTurn(turn, accepted));
    StepIs(After(calls), SubmitTurn(turn, accepted));
    hide Step, After;
  }

  predicate NewRecord(r: Record, serial: nat, turn: Turn, spell: bool, caster: Actor, seen: Option<Snapshot>) {
    && r.serial == serial && r.turn == turn && r.spell == spell && r.caster == caster && r.snapshot == seen
    && r.status == (if seen.Some? then Awaiting else Failed)
    && r.gate == Fresh && !r.hook && !r.started
    && r.receipt.None? && r.receiptRequest.None? && r.receiptStatus == NotSubmitted
  }

  lemma RetainedNew(serial: nat, turn: Turn, spell: bool, caster: Actor, seen: Option<Snapshot>)
    ensures NewRecord(Retained(serial, turn, spell, caster, seen), serial, turn, spell, caster, seen)
  {
  }

  lemma SyncedIs(c: State, turn: Turn)
    ensures var s := Synced(c);
            && s.transfers == (if Unmoved(c) then c.transfers else map[])
            && s.scopeSession == c.session && s.scopeGeneration == c.generation
            && s.session == c.session && s.generation == c.generation && s.log == c.log
            && Seen(s, turn) == if Unmoved(c) && turn in c.snapshots then Some(c.snapshots[turn]) else None
  {
  }

  /**
    An intent is retained exactly if it belongs to the client's session and generation, is not held already, and fewer
    than 256 are; what its turn saw goes with it, and without that it has failed.
   */
  ghost predicate IntentMeans(c: State, later: State, eventSession: nat, eventGeneration: nat, id: ActionId, turn: Turn,
                              spell: bool, caster: Actor)
  {
    var held := if Unmoved(c) then c.transfers else map[];
    var isNew := && c.session == Some(eventSession) && c.generation == eventGeneration
               && id !in held && |held| < 256;
    && later.scopeSession == c.session && later.scopeGeneration == c.generation
    && (!isNew ==> later.transfers == held)
    && (isNew ==> later.transfers.Keys == held.Keys + {id})
    && (forall a :: a in held ==> later.transfers[a] == held[a])
    && (isNew ==>
          NewRecord(later.transfers[id], c.log.next, turn, spell, caster,
                    if Unmoved(c) && turn in c.snapshots then Some(c.snapshots[turn]) else None))
  }

  lemma IntentStep(c: State, eventSession: nat, eventGeneration: nat, id: ActionId, turn: Turn, spell: bool,
                   caster: Actor)
    ensures IntentMeans(c, IntentRetained(c, eventSession, eventGeneration, id, turn, spell, caster), eventSession,
                        eventGeneration, id, turn, spell, caster)
  {
    SyncedIs(c, turn);
    RetainedNew(c.log.next, turn, spell, caster, Seen(Synced(c), turn));
    hide Retained, NewRecord, Synced, Seen, Unmoved;
  }

  lemma IntentKept(calls: seq<Call>, eventSession: nat, eventGeneration: nat, id: ActionId, turn: Turn, spell: bool,
                   caster: Actor)
    ensures var call := RetainIntent(eventSession, eventGeneration, id, turn, spell, caster);
            IntentMeans(After(calls), After(calls + [call]), eventSession, eventGeneration, id, turn, spell, caster)
  {
    var c := After(calls);
    AfterNext(calls, RetainIntent(eventSession, eventGeneration, id, turn, spell, caster));
    StepIs(c, RetainIntent(eventSession, eventGeneration, id, turn, spell, caster));
    hide Step, After, IntentMeans, IntentRetained;
    IntentStep(c, eventSession, eventGeneration, id, turn, spell, caster);
  }

  // ---------------------------------------------------------------- cancelling

  /** What a cancellation does to one record: a live one is cancelled for good, any other keeps its status. */
  predicate CancelledOnce(r: Record, later: Record) {
    && later.serial == r.serial && later.hook == r.hook && later.snapshot == r.snapshot && later.receipt == r.receipt
    && later.status == (if Live(r) then Cancelled else r.status)
    && later.gate == (if Live(r) then Terminal else r.gate)
  }

  lemma EndedKept(c: State, eventSession: nat, eventGeneration: nat, turn: Turn)
    ensures var later := TurnEnded(c, eventSession, eventGeneration, turn);
            var held := if Unmoved(c) then c.transfers else map[];
            var here := c.session == Some(eventSession) && c.generation == eventGeneration;
            && Unmoved(later)
            && later.transfers == if here then AllWithdrawn(held, turn) else held
  {
    SyncedIs(c, turn);
    hide AllWithdrawn, CancelledAtGate;
    assert TurnEnded(c, eventSession, eventGeneration, turn).session == c.session;
  }

  /** The end of a turn of this session and generation cancels its live records, and no other record. */
  lemma TurnCancelled(calls: seq<Call>, eventSession: nat, eventGeneration: nat, turn: Turn)
    ensures var c, later := After(calls), After(calls + [EndTurn(eventSession, eventGeneration, turn)]);
            var held := if Unmoved(c) then c.transfers else map[];
            var here := c.session == Some(eventSession) && c.generation == eventGeneration;
            && Unmoved(later) && later.transfers.Keys == held.Keys
            && (forall id :: id in held ==>
                  if here && held[id].turn == turn then CancelledOnce(held[id], later.transfers[id])
                  else later.transfers[id] == held[id])
  {
    var c := After(calls);
    AfterNext(calls, EndTurn(eventSession, eventGeneration, turn));
    StepIs(After(calls), EndTurn(eventSession, eventGeneration, turn));
    hide Step, After, CancelledOnce, Withdrawn, Blamed, CancelledAtGate, Safe, TurnEnded, Unmoved;
    AfterSafe(calls);
    AllCancelled(c);
    EndedKept(c, eventSession, eventGeneration, turn);
  }

  lemma CancelledGate(r: Record)
    requires RecordOk(r)
    ensures CancelledOnce(r, Withdrawn(Blamed(r, ByCaller)))
    ensures CancelsAtGate(r) <==> Live(r) && !r.hook
  {
  }

  lemma AllCancelled(c: State)
    requires SafeState(c)
    ensures forall id :: id in c.transfers ==> CancelledOnce(c.transfers[id], Ended(c.transfers[id]))
  {
    forall id | id in c.transfers ensures CancelledOnce(c.transfers[id], Ended(c.transfers[id])) {
      RecordIsOk(c.transfers, c.log, id);
    }
    hide Safe;
  }

  /** A cancelled action is cancelled for good while it is live, before its commit unless a cast is under way. */
  lemma ActionCancelled(calls: seq<Call>, id: ActionId)
    requires id in After(calls).transfers
    ensures var c, later := After(calls), After(calls + [CancelTransfer(id)]);
            && later.transfers.Keys == c.transfers.Keys && CancelledOnce(c.transfers[id], later.transfers[id])
            && (forall a :: a in c.transfers && a != id ==> later.transfers[a] == c.transfers[a])
            && (c.transfers[id].serial in later.log.cancelled <==>
                  c.transfers[id].serial in c.log.cancelled || (Live(c.transfers[id]) && !c.transfers[id].hook))
  {
    var c := After(calls);
    AfterNext(calls, CancelTransfer(id));
    StepIs(After(calls), CancelTransfer(id));
    AfterSafe(calls);
    RecordIsOk(c.transfers, c.log, id);
    CancelledGate(c.transfers[id]);
    hide Step, After, Safe, Placed, RecordOk, ReceiptOk, CancelledOnce, Withdrawn, Blamed, CancelsAtGate;
  }

  // ---------------------------------------------------------------- executing and committing

  /** What Lua's question does to one record. */
  predicate AskedAbout(r: Record, later: Record, interrupted: bool, expired: bool) {
    var cut := r.hook && r.status == Pending && r.started && interrupted;
    && later.serial == r.serial && later.snapshot == r.snapshot && later.receipt == r.receipt
    && later.status == (if r.status == Awaiting then Pending
                        else if cut || (r.hook && r.status == Pending && expired) then Failed
                        else r.status)
    && later.gate == (if r.status == Awaiting then Queued else if later.status == r.status then r.gate else Terminal)
    && (later.hook <==> r.hook && !cut)
  }

  lemma ExecutedAsked(r: Record, interrupted: bool, expired: bool)
    requires RecordOk(r)
    ensures AskedAbout(r, Executed(Overdue(r, interrupted, expired), interrupted, expired), interrupted, expired)
    ensures Queues(r) <==> r.status == Awaiting
  {
  }

  /** Lua's question queues an intent the first time; a cast that was interrupted or ran out of time has failed. */
  lemma ActionExecuted(calls: seq<Call>, id: ActionId, interrupted: bool, expired: bool)
    requires id in After(calls).transfers && Unmoved(After(calls))
    ensures var c, later := After(calls), After(calls + [ExecuteTransfer(id, interrupted, expired)]);
            && later.transfers.Keys == c.transfers.Keys
            && (forall a :: a in c.transfers && a != id ==> later.transfers[a] == c.transfers[a])
            && AskedAbout(c.transfers[id], later.transfers[id], interrupted, expired)
            && later.queue == c.queue + if c.transfers[id].status == Awaiting
                                        then [Action(id, c.session, c.generation)] else []
  {
    var c := After(calls);
    AfterNext(calls, ExecuteTransfer(id, interrupted, expired));
    StepIs(After(calls), ExecuteTransfer(id, interrupted, expired));
    AfterSafe(calls);
    RecordIsOk(c.transfers, c.log, id);
    ExecutedAsked(c.transfers[id], interrupted, expired);
    hide Step, After, Safe, Placed, RecordOk, ReceiptOk, AskedAbout, Executed, Overdue, Queues;
  }

  /** A caster's hook is held by a record other than this one. */
  predicate HookTaken(c: State, id: ActionId) {
    id in c.transfers && exists a :: a in c.transfers && a != id && c.transfers[a].hook
                                     && c.transfers[a].caster == c.transfers[id].caster
  }

  /**
    The main thread commits exactly a queued record that its first closure names, while the client is ready and in the
    closure's session and generation; what the commit found is what was so.
   */
  lemma CommitExact(calls: seq<Call>, expired: bool, outcome: Outcome)
    ensures var c, later := After(calls), After(calls + [RunQueued(expired, outcome)]);
            && (c.queue == [] ==> later == c)
            && (c.queue != [] ==>
                  var action := c.queue[0];
                  var commits := && c.session.Some? && c.ready
                                 && c.session == action.session && c.generation == action.generation
                                 && action.id in c.transfers && c.transfers[action.id].gate == Queued;
                  && later.queue == c.queue[1..] && later.transfers.Keys == c.transfers.Keys
                  && later.log == c.log.(began := c.log.began
                                                  + if commits then [c.transfers[action.id].serial] else [])
                  && (forall a :: a in c.transfers && a != action.id ==> later.transfers[a] == c.transfers[a])
                  && (commits ==>
                        var r := c.transfers[action.id];
                        && r.snapshot.Some?
                        && later.transfers[action.id].past.attempt
                           == Some(Attempt(true, r.snapshot.value.name in c.withdrawn, expired,
                                           HookTaken(c, action.id), outcome)))
                  && (action.id in c.transfers && !commits ==>
                        var r := c.transfers[action.id];
                        later.transfers[action.id].(past := r.past) == r))
  {
    var c := After(calls);
    AfterNext(calls, RunQueued(expired, outcome));
    StepIs(After(calls), RunQueued(expired, outcome));
    hide Step, After, Safe, Placed, ReceiptOk, Committed;
    AfterSafe(calls);
    if c.queue != [] && c.queue[0].id in c.transfers {
      RecordIsOk(c.transfers, c.log, c.queue[0].id);
    }
  }

  // ---------------------------------------------------------------- the engine's questions about a cast

  /** A refused or ended cast lets go of its hook, and has failed if it was pending. */
  predicate LetGo(r: Record, later: Record, success: bool) {
    && later.serial == r.serial && !later.hook && later.receipt == r.receipt
    && later.status == (if r.status == Pending then if success then Succeeded else Failed else r.status)
    && later.gate == Terminal
  }

  /** Of the records whose hook the actor carries. */
  predicate CastBy(r: Record, actor: Actor) {
    r.hook && r.caster == actor
  }

  lemma EndedLetsGo(r: Record, cause: Cause, success: bool)
    requires RecordOk(r) && r.hook
    ensures LetGo(r, CastEnded(Blamed(r, cause), success), success)
  {
  }

  lemma CastMayStart(calls: seq<Call>, actor: Actor, expired: bool, selected: bool, id: ActionId)
    requires id in After(calls).transfers
    ensures var c, later := After(calls), After(calls + [SpellStart(actor, expired, selected)]);
            var r := c.transfers[id];
            var goes := r.status == Pending && Observable(c, r) && !expired && selected;
            && later.transfers.Keys == c.transfers.Keys
            && (!CastBy(r, actor) ==> later.transfers[id] == r)
            && (CastBy(r, actor) && goes ==> later.transfers[id] == r.(started := true))
            && (CastBy(r, actor) && !goes ==> LetGo(r, later.transfers[id], false))
  {
    var c := After(calls);
    AfterNext(calls, SpellStart(actor, expired, selected));
    StepIs(After(calls), SpellStart(actor, expired, selected));
    AfterSafe(calls);
    RecordIsOk(c.transfers, c.log, id);
    if c.transfers[id].hook {
      EndedLetsGo(c.transfers[id], StartRefused, false);
    }
    hide Step, After, Safe, Placed, RecordOk, ReceiptOk, LetGo, CastEnded, Blamed;
  }

  lemma CastEnds(calls: seq<Call>, actor: Actor, success: bool, id: ActionId)
    requires id in After(calls).transfers
    ensures var c, later := After(calls), After(calls + [SpellFinished(actor, success)]);
            var r := c.transfers[id];
            && later.transfers.Keys == c.transfers.Keys
            && (if CastBy(r, actor) then LetGo(r, later.transfers[id], success) else later.transfers[id] == r)
  {
    var c := After(calls);
    AfterNext(calls, SpellFinished(actor, success));
    StepIs(After(calls), SpellFinished(actor, success));
    AfterSafe(calls);
    RecordIsOk(c.transfers, c.log, id);
    if c.transfers[id].hook {
      EndedLetsGo(c.transfers[id], CastDone(success), success);
    }
    hide Step, After, Safe, Placed, RecordOk, ReceiptOk, LetGo, CastEnded, Blamed;
  }

  lemma CastGoesOn(calls: seq<Call>, actor: Actor, expired: bool, selected: bool, aimed: bool, id: ActionId)
    requires id in After(calls).transfers
    ensures var c, later := After(calls), After(calls + [SpellTarget(actor, expired, selected, aimed)]);
            var r := c.transfers[id];
            var goes := && r.status == Pending && Observable(c, r) && !expired && selected
                        && r.started && r.snapshot.value.name !in c.withdrawn && aimed;
            && later.transfers.Keys == c.transfers.Keys
            && (if CastBy(r, actor) && !goes then LetGo(r, later.transfers[id], false) else later.transfers[id] == r)
  {
    var c := After(calls);
    AfterNext(calls, SpellTarget(actor, expired, selected, aimed));
    StepIs(After(calls), SpellTarget(actor, expired, selected, aimed));
    AfterSafe(calls);
    RecordIsOk(c.transfers, c.log, id);
    if c.transfers[id].hook {
      EndedLetsGo(c.transfers[id], TargetLost, false);
    }
    hide Step, After, Safe, Placed, RecordOk, ReceiptOk, LetGo, CastEnded, Blamed;
  }

  // ---------------------------------------------------------------- reporting

  /**
    A ready client reports a retained action's terminal status: a rejection or cancellation before the commit
    becomes the record's status; a report with the record's status is kept first and goes out, unless an answer is
    awaited or was good.
   */
  predicate ReportMeans(c: State, later: State, id: ActionId, dto: Dto, request: RequestId, taken: bool)
    requires id in c.transfers
  {
    && later.transfers.Keys == c.transfers.Keys
    && (forall a :: a in c.transfers && a != id ==> later.transfers[a] == c.transfers[a])
    && var r, r1 := c.transfers[id], later.transfers[id];
       var early := (dto.status == Rejected || dto.status == Cancelled) && (r.gate == Fresh || r.gate == Queued);
       var fits := r1.status == dto.status && r.receiptStatus != Submitted && r.receiptStatus != Accepted;
       && r1.status == (if early then dto.status else r.status)
       && r1.gate == (if early then Terminal else r.gate) && r1.hook == r.hook
       && r1.receipt == (if fits && r.receipt.None? then Some(dto) else r.receipt)
       && r1.receiptRequest == (if fits && taken then Some(request) else r.receiptRequest)
       && r1.receiptStatus == (if fits && taken then Submitted else r.receiptStatus)
       && later.log.sent == c.log.sent + if fits && taken
                                         then [Sent(r.serial, if r.receipt.None? then dto else r.receipt.value)] else []
  }

  lemma ReportStep(c: State, id: ActionId, dto: Dto, request: RequestId, taken: bool)
    requires id in c.transfers && RecordOk(c.transfers[id]) && TerminalStatus(dto.status) && c.Ready()
    ensures ReportMeans(c, ResultSubmitted(c, id, dto, request, taken), id, dto, request, taken)
  {
  }

  lemma ReportTaken(calls: seq<Call>, id: ActionId, dto: Dto, request: RequestId, taken: bool)
    requires id in After(calls).transfers && dto.status != Awaiting && dto.status != Pending
    requires After(calls).session.Some? && After(calls).ready
    ensures ReportMeans(After(calls), After(calls + [SubmitResult(id, dto, request, taken)]), id, dto, request, taken)
  {
    var c := After(calls);
    AfterNext(calls, SubmitResult(id, dto, request, taken));
    StepIs(c, SubmitResult(id, dto, request, taken));
    hide Step, After, Safe, Placed, RecordOk, ReceiptOk, ReportMeans, ResultSubmitted;
    AfterSafe(calls);
    RecordIsOk(c.transfers, c.log, id);
    ReportStep(c, id, dto, request, taken);
  }

  /** An answer settles the first record reported under its request, and no other. */
  ghost predicate AnswerMeans(c: State, later: State, request: RequestId, good: bool, id: ActionId)
    requires id in c.transfers
  {
    var mine := && c.transfers[id].receiptRequest == Some(request)
                && forall a :: a in c.transfers && c.transfers[a].receiptRequest == Some(request) ==> id <= a;
    && later.transfers.Keys == c.transfers.Keys
    && (!mine ==> later.transfers[id] == c.transfers[id])
    && (mine ==> later.transfers[id].receiptStatus == if good then Accepted else ReceiptFailed)
    && later.transfers[id].status == c.transfers[id].status && later.log == c.log
  }

  lemma AnswerStep(c: State, request: RequestId, good: bool, id: ActionId)
    requires id in c.transfers && Told(c.transfers[id], c.log.began)
    ensures AnswerMeans(c, ReceiptSettled(c, request, good), request, good, id)
  {
  }

  lemma AnswerTaken(calls: seq<Call>, request: RequestId, good: bool, id: ActionId)
    requires id in After(calls).transfers
    ensures AnswerMeans(After(calls), After(calls + [SettleReceipt(request, good)]), request, good, id)
  {
    var c := After(calls);
    AfterNext(calls, SettleReceipt(request, good));
    StepIs(c, SettleReceipt(request, good));
    hide Step, After, Told, AnswerMeans, ReceiptSettled;
    AfterTold(calls);
    AnswerStep(c, request, good, id);
  }
}
