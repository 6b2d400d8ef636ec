/** What every history of calls keeps: one commit per retention, one hook per caster, one report per action. */
module CommitTheorems {
  import opened Results
  import opened CommitGate

  // ---------------------------------------------------------------- the accounts

  /** How gate, status and hook go together between calls. */
  predicate RecordOk(r: Record) {
    && (r.hook ==> r.spell && r.snapshot.Some? && (r.gate.Executing? || r.gate.Terminal?))
    && (r.receiptStatus == Submitted || r.receiptStatus == Accepted ==> r.receiptRequest.Some?)
    && match r.gate
       case Fresh => r.status == if r.snapshot.Some? then Awaiting else Failed
       case Queued => r.snapshot.Some? && r.status == Pending
       case Executing => r.hook && r.status == Pending
       case Terminal => TerminalStatus(r.status)
  }

  /** What any number of calls may do to one record. */
  ghost predicate Advances(r: Record, later: Record) {
    && later.serial == r.serial && later.snapshot == r.snapshot && later.caster == r.caster && later.spell == r.spell
    && Rank(r.gate) <= Rank(later.gate)
    && (r.gate.Terminal? ==> later.status == r.status && (!r.hook ==> !later.hook))
    && (r.gate.Executing? && later.status != r.status ==> later.gate.Terminal? && TerminalStatus(later.status))
    && (r.receipt.Some? ==> later.receipt == r.receipt)
  }

  lemma AdvancesTwice(a: Record, b: Record, c: Record)
    requires Advances(a, b) && Advances(b, c)
    ensures Advances(a, c)
  {
  }

  ghost predicate LogOk(log: Log) {
    && (forall i :: 0 <= i < |log.began| ==> log.began[i] < log.next && log.began[i] !in log.cancelled)
    && (forall i, j :: 0 <= i < j < |log.began| ==> log.began[i] != log.began[j])
    && (forall k :: k in log.cancelled ==> k < log.next)
    && (forall i :: 0 <= i < |log.sent| ==> log.sent[i].serial < log.next)
    && (forall i, j :: 0 <= i < |log.sent| && 0 <= j < |log.sent| && log.sent[i].serial == log.sent[j].serial ==>
          log.sent[i].dto == log.sent[j].dto)
  }

  /** The report a record keeps, against its status: they agree unless the intent was never observed. */
  predicate ReceiptOk(r: Record) {
    r.receipt.Some? ==>
      if r.snapshot.Some? then r.receipt.value.status == r.status && r.gate.Terminal?
      else r.receipt.value.status == r.status || r.receipt.value.status == Failed
  }

  /** A record against the history. */
  ghost predicate Placed(r: Record, log: Log) {
    && RecordOk(r) && ReceiptOk(r) && r.serial < log.next
    && (r.gate.Fresh? || r.gate.Queued? ==> r.serial !in log.began && r.serial !in log.cancelled)
    && (r.gate.Executing? ==> r.serial in log.began)
    && (r.gate.Terminal? ==> r.serial in log.began || r.serial in log.cancelled)
    && (r.serial in log.began ==> r.snapshot.Some?)
    && (r.serial in log.cancelled ==> r.status == Cancelled || r.status == Rejected)
    && (forall i :: 0 <= i < |log.sent| && log.sent[i].serial == r.serial ==> r.receipt == Some(log.sent[i].dto))
  }

  ghost predicate AllPlaced(transfers: Records, log: Log) {
    forall id :: id in transfers ==> Placed(transfers[id], log)
  }

  ghost predicate Distinct(transfers: Records) {
    forall a, b :: a in transfers && b in transfers && transfers[a].serial == transfers[b].serial ==> a == b
  }

  /** At most one record per caster holds a hook, casts cancelled but not yet released included. */
  ghost predicate OneHook(transfers: Records) {
    forall a, b ::
      (a in transfers && b in transfers && transfers[a].hook && transfers[b].hook
       && transfers[a].caster == transfers[b].caster) ==> a == b
  }

  ghost predicate Safe(transfers: Records, log: Log) {
    LogOk(log) && AllPlaced(transfers, log) && Distinct(transfers) && OneHook(transfers)
  }

  ghost predicate SafeState(c: State) {
    Safe(c.transfers, c.log)
  }

  /** Every record present before and after has only advanced. */
  ghost predicate Kept(before: Records, after: Records) {
    forall id :: id in before && id in after && before[id].serial == after[id].serial ==>
      Advances(before[id], after[id])
  }

  /** A record is the continuation of an earlier one, or was retained since. */
  ghost predicate Grown(before: Records, log: Log, after: Records) {
    forall id :: id in after ==>
      (id in before && before[id].serial == after[id].serial) || after[id].serial >= log.next
  }

  /** Nothing that happened is forgotten. */
  ghost predicate LogGrows(log: Log, later: Log) {
    log.next <= later.next && log.began <= later.began && log.cancelled <= later.cancelled && log.sent <= later.sent
  }

  /**
    What a call does to records and history: the accounts hold again, records have only advanced, history has grown.
   */
  ghost predicate Moves(before: Records, log: Log, after: Records, later: Log) {
    Safe(after, later) && Kept(before, after) && Grown(before, log, after) && LogGrows(log, later)
  }

  lemma MovesTwice(a: Records, la: Log, b: Records, lb: Log, c: Records, lc: Log)
    requires Safe(a, la) && Moves(a, la, b, lb) && Moves(b, lb, c, lc)
    ensures Moves(a, la, c, lc)
  {
    hide LogOk, Distinct, OneHook, Advances;
    forall id | id in a && id in c && a[id].serial == c[id].serial ensures Advances(a[id], c[id]) {
      assert Placed(a[id], la);
      assert id in b && b[id].serial == a[id].serial;
      AdvancesTwice(a[id], b[id], c[id]);
    }
  }

  lemma Stays(transfers: Records, log: Log)
    requires Safe(transfers, log)
    ensures Moves(transfers, log, transfers, log)
  {
  }

  /** The kinds whose hook or status says what a record is doing, read off the invariant. */
  lemma RecordIsOk(transfers: Records, log: Log, id: ActionId)
    requires Safe(transfers, log) && id in transfers
    ensures RecordOk(transfers[id]) && ReceiptOk(transfers[id]) && Placed(transfers[id], log)
  {
    hide LogOk, Distinct, OneHook;
  }

  lemma OnlyHook(transfers: Records, log: Log, id: ActionId)
    requires Safe(transfers, log) && id in transfers && transfers[id].hook
    ensures forall a :: a in transfers && transfers[a].hook && transfers[a].caster == transfers[id].caster ==> a == id
  {
    hide LogOk, AllPlaced, Distinct;
  }

  // ---------------------------------------------------------------- changes to one record

  lemma KeptUpdate(transfers: Records, id: ActionId, later: Record)
    requires id in transfers && Advances(transfers[id], later)
    ensures Kept(transfers, transfers[id := later])
  {
  }

  /** A record with a changed history entry of its own. */
  ghost predicate Unmentioned(r: Record, log: Log, later: Log) {
    && log.next <= later.next
    && (r.serial in log.began <==> r.serial in later.began)
    && (r.serial in log.cancelled <==> r.serial in later.cancelled)
    && (forall i :: 0 <= i < |later.sent| && later.sent[i].serial == r.serial ==>
          i < |log.sent| && later.sent[i] == log.sent[i])
  }

  lemma UnmentionedPlaced(r: Record, log: Log, later: Log)
    requires Placed(r, log) && Unmentioned(r, log, later)
    ensures Placed(r, later)
  {
  }

  /** Changing one record, with a history that says nothing new about the others. */
  lemma SafeChange(transfers: Records, log: Log, id: ActionId, r: Record, later: Log)
    requires Safe(transfers, log) && id in transfers && Advances(transfers[id], r) && Placed(r, later)
    requires r.hook && !transfers[id].hook ==>
               forall a :: a in transfers && transfers[a].hook ==> transfers[a].caster != r.caster
    requires LogOk(later) && LogGrows(log, later)
    requires forall a :: a in transfers && a != id ==> Unmentioned(transfers[a], log, later)
    ensures Moves(transfers, log, transfers[id := r], later)
  {
    hide LogOk, LogGrows, Placed, Unmentioned, Advances;
    assert forall a :: a in transfers ==> Placed(transfers[a], log);
    assert transfers[id].serial == r.serial && transfers[id].caster == r.caster by {
      AdvancesSame(transfers[id], r);
    }
    forall a | a in transfers && a != id ensures Placed(transfers[a], later) {
      UnmentionedPlaced(transfers[a], log, later);
    }
    KeptUpdate(transfers, id, r);
  }

  lemma AdvancesSame(r: Record, later: Record)
    requires Advances(r, later)
    ensures r.serial == later.serial && r.caster == later.caster
  {
  }

  /** Two records never share a serial, so what happens to one serial is not about the others. */
  lemma OthersUnmentioned(transfers: Records, log: Log, id: ActionId, later: Log)
    requires Distinct(transfers) && id in transfers && log.next <= later.next
    requires later.began == log.began || later.began == log.began + [transfers[id].serial]
    requires later.cancelled == log.cancelled || later.cancelled == log.cancelled + {transfers[id].serial}
    requires later.sent == log.sent || exists dto :: later.sent == log.sent + [Sent(transfers[id].serial, dto)]
    ensures forall a :: a in transfers && a != id ==> Unmentioned(transfers[a], log, later)
  {
  }

  lemma UpdateMoves(transfers: Records, log: Log, id: ActionId, r: Record)
    requires Safe(transfers, log) && id in transfers && Advances(transfers[id], r) && Placed(r, log)
    requires r.hook ==> transfers[id].hook
    ensures Moves(transfers, log, transfers[id := r], log)
  {
    OthersUnmentioned(transfers, log, id, log);
    hide Placed, Unmentioned, Advances;
    SafeChange(transfers, log, id, r, log);
  }

  function Ended(r: Record): Record {
    Withdrawn(Blamed(r, ByCaller))
  }

  lemma WithdrawnOk(r: Record, log: Log)
    requires Placed(r, log)
    ensures var later := log.(cancelled := log.cancelled + if CancelsAtGate(r) then {r.serial} else {});
            Placed(Ended(r), later) && Advances(r, Ended(r)) && (Ended(r).hook <==> r.hook)
  {
  }

  lemma WithdrawnMoves(transfers: Records, log: Log, id: ActionId)
    requires Safe(transfers, log) && id in transfers
    ensures var r := transfers[id];
            Moves(transfers, log, transfers[id := Ended(r)],
                  log.(cancelled := log.cancelled + if CancelsAtGate(r) then {r.serial} else {}))
  {
    var r := transfers[id];
    var later := log.(cancelled := log.cancelled + if CancelsAtGate(r) then {r.serial} else {});
    RecordIsOk(transfers, log, id);
    WithdrawnOk(r, log);
    assert CancelsAtGate(r) ==> r.serial !in log.began && r.serial < log.next;
    OthersUnmentioned(transfers, log, id, later);
    hide Placed, Unmentioned, Advances, Ended, CancelsAtGate;
    SafeChange(transfers, log, id, Ended(r), later);
  }

  lemma ExecutedMoves(transfers: Records, log: Log, id: ActionId, interrupted: bool, expired: bool)
    requires Safe(transfers, log) && id in transfers
    ensures Moves(transfers, log,
                  transfers[id := Executed(Overdue(transfers[id], interrupted, expired), interrupted, expired)], log)
  {
    RecordIsOk(transfers, log, id);
    var r := Executed(Overdue(transfers[id], interrupted, expired), interrupted, expired);
    assert Placed(r, log) && Advances(transfers[id], r);
    hide Placed, Advances, Executed, Overdue;
    UpdateMoves(transfers, log, id, r);
  }

  lemma CommittedOk(r: Record, log: Log, withdrawn: bool, expired: bool, busy: bool, outcome: Outcome, past: Past)
    requires Placed(r, log) && r.gate == Queued
    ensures var c := Committed(r, withdrawn, expired, busy, outcome).(past := past);
            && Placed(c, log.(began := log.began + [r.serial])) && Advances(r, c) && (c.hook ==> !busy)
            && r.serial !in log.began && r.serial !in log.cancelled && r.serial < log.next && !r.hook
  {
  }

  lemma CommittedMoves(transfers: Records, log: Log, id: ActionId, withdrawn: bool, expired: bool, outcome: Outcome,
                       past: Past)
    requires Safe(transfers, log) && id in transfers && transfers[id].gate == Queued
    ensures var r := transfers[id];
            var c := Committed(r, withdrawn, expired, PendingSpell(transfers, r.caster), outcome).(past := past);
            Moves(transfers, log, transfers[id := c], log.(began := log.began + [r.serial]))
  {
    var r := transfers[id];
    var busy := PendingSpell(transfers, r.caster);
    var c := Committed(r, withdrawn, expired, busy, outcome).(past := past);
    var later := log.(began := log.began + [r.serial]);
    RecordIsOk(transfers, log, id);
    CommittedOk(r, log, withdrawn, expired, busy, outcome, past);
    OthersUnmentioned(transfers, log, id, later);
    hide Placed, Unmentioned, Committed;
    SafeChange(transfers, log, id, c, later);
  }

  lemma ReportedOk(r: Record, log: Log, dto: Dto, request: RequestId, taken: bool)
    requires Placed(r, log) && TerminalStatus(dto.status)
    ensures var later := log.(cancelled := log.cancelled + (if Refuses(r, dto.status) then {r.serial} else {}),
                              sent := log.sent + Sending(r, dto, taken));
            && Placed(Reported(r, dto, request, taken), later) && Advances(r, Reported(r, dto, request, taken))
            && (Reported(r, dto, request, taken).hook ==> r.hook)
  {
  }

  lemma ReportedLog(r: Record, log: Log, dto: Dto, taken: bool)
    requires LogOk(log) && Placed(r, log)
    ensures var later := log.(cancelled := log.cancelled + (if Refuses(r, dto.status) then {r.serial} else {}),
                              sent := log.sent + Sending(r, dto, taken));
            LogOk(later) && LogGrows(log, later)
  {
  }

  lemma ReportedMoves(transfers: Records, log: Log, id: ActionId, dto: Dto, request: RequestId, taken: bool)
    requires Safe(transfers, log) && id in transfers && TerminalStatus(dto.status)
    ensures var r := transfers[id];
            Moves(transfers, log, transfers[id := Reported(r, dto, request, taken)],
                  log.(cancelled := log.cancelled + (if Refuses(r, dto.status) then {r.serial} else {}),
                       sent := log.sent + Sending(r, dto, taken)))
  {
    var r := transfers[id];
    var later := log.(cancelled := log.cancelled + (if Refuses(r, dto.status) then {r.serial} else {}),
                      sent := log.sent + Sending(r, dto, taken));
    RecordIsOk(transfers, log, id);
    ReportedOk(r, log, dto, request, taken);
    ReportedLog(r, log, dto, taken);
    assert later.sent == log.sent || exists d :: later.sent == log.sent + [Sent(r.serial, d)] by {
      assert Sending(r, dto, taken) == [] || Sending(r, dto, taken) == [Sent(r.serial, Sending(r, dto, taken)[0].dto)];
    }
    OthersUnmentioned(transfers, log, id, later);
    hide Placed, Unmentioned, Advances, Reported, Refuses, Sending, LogOk, LogGrows;
    SafeChange(transfers, log, id, Reported(r, dto, request, taken), later);
  }

  lemma AnsweredMoves(transfers: Records, log: Log, id: ActionId, good: bool)
    requires Safe(transfers, log) && id in transfers && transfers[id].receiptRequest.Some?
    ensures Moves(transfers, log, transfers[id := Answered(transfers[id], good)], log)
  {
    RecordIsOk(transfers, log, id);
    var r := Answered(transfers[id], good);
    assert Placed(r, log) && Advances(transfers[id], r);
    hide Placed, Advances, Answered;
    UpdateMoves(transfers, log, id, r);
  }

  // ---------------------------------------------------------------- changes to many records

  lemma SafeMany(transfers: Records, log: Log, after: Records, later: Log)
    requires Safe(transfers, log) && after.Keys == transfers.Keys && LogOk(later) && LogGrows(log, later)
    requires forall id :: id in transfers ==>
               Advances(transfers[id], after[id]) && Placed(after[id], later) && (after[id].hook ==> transfers[id].hook)
    ensures Moves(transfers, log, after, later)
  {
    hide LogOk, LogGrows, Placed;
    forall id | id in transfers
      ensures transfers[id].serial == after[id].serial && transfers[id].caster == after[id].caster
    {
      AdvancesSame(transfers[id], after[id]);
    }
    hide Advances;
  }

  lemma AtGateMembers(transfers: Records, turn: Turn)
    ensures forall id :: id in transfers && transfers[id].turn == turn && CancelsAtGate(transfers[id]) ==>
              transfers[id].serial in CancelledAtGate(transfers, turn)
    ensures forall n :: n in CancelledAtGate(transfers, turn) ==>
              exists id :: id in transfers && transfers[id].turn == turn && CancelsAtGate(transfers[id])
                           && transfers[id].serial == n
  {
  }

  lemma AtGateExactly(transfers: Records, turn: Turn, id: ActionId)
    requires Distinct(transfers) && id in transfers
    ensures transfers[id].serial in CancelledAtGate(transfers, turn)
            <==> transfers[id].turn == turn && CancelsAtGate(transfers[id])
  {
    AtGateMembers(transfers, turn);
    hide CancelledAtGate, CancelsAtGate;
  }

  lemma AtGateLog(transfers: Records, log: Log, turn: Turn)
    requires Safe(transfers, log)
    ensures var later := log.(cancelled := log.cancelled + CancelledAtGate(transfers, turn));
            LogOk(later) && LogGrows(log, later)
  {
    AtGateMembers(transfers, turn);
    hide CancelledAtGate, Distinct, OneHook;
    forall n | n in CancelledAtGate(transfers, turn) ensures n < log.next && n !in log.began {
      var id :| id in transfers && transfers[id].turn == turn && CancelsAtGate(transfers[id])
          && transfers[id].serial == n;
      assert Placed(transfers[id], log);
    }
  }

  lemma WithdrawnElsewhere(r: Record, log: Log, more: set<nat>)
    requires Placed(r, log)
    requires r.serial in more <==> CancelsAtGate(r)
    ensures Placed(Ended(r), log.(cancelled := log.cancelled + more))
  {
  }

  lemma PlacedElsewhere(r: Record, log: Log, more: set<nat>)
    requires Placed(r, log) && r.serial !in more
    ensures Placed(r, log.(cancelled := log.cancelled + more)) && Advances(r, r)
  {
  }

  lemma AllWithdrawnMoves(transfers: Records, log: Log, turn: Turn)
    requires Safe(transfers, log)
    ensures Moves(transfers, log, AllWithdrawn(transfers, turn),
                  log.(cancelled := log.cancelled + CancelledAtGate(transfers, turn)))
  {
    var more := CancelledAtGate(transfers, turn);
    var later := log.(cancelled := log.cancelled + more);
    AtGateLog(transfers, log, turn);
    assert Distinct(transfers) && AllPlaced(transfers, log);
    var after := AllWithdrawn(transfers, turn);
    assert forall id :: id in transfers && transfers[id].turn == turn ==> after[id] == Ended(transfers[id]);
    hide Safe, LogOk, LogGrows, Distinct, OneHook, Placed, Withdrawn, Blamed, Ended, CancelsAtGate, CancelledAtGate,
         Advances;
    forall id | id in transfers
      ensures Advances(transfers[id], after[id]) && Placed(after[id], later) && (after[id].hook ==> transfers[id].hook)
    {
      var r := transfers[id];
      AtGateExactly(transfers, turn, id);
      if r.turn == turn {
        WithdrawnElsewhere(r, log, more);
        WithdrawnOk(r, log);
      } else {
        PlacedElsewhere(r, log, more);
      }
    }
    SafeMany(transfers, log, after, later);
  }

  /** What may be done to the record that holds a hook. */
  ghost predicate HookChange(r: Record, later: Record) {
    && later == r.(started := later.started, hook := later.hook, status := later.status, gate := later.gate,
                   past := r.past.(ended := later.past.ended))
    && (later.hook ==> r.hook)
    && (if r.status == Pending && later.status != Pending
        then TerminalStatus(later.status) && later.gate == Finished(r.gate)
        else later.status == r.status && later.gate == r.gate && (r.status == Pending && r.hook ==> later.hook))
  }

  lemma TouchedChange(c: State, call: Call, r: Record)
    requires IsSpellCall(call)
    ensures HookChange(r, Touched(c, call, r))
  {
    CastEndedChange(r, StartRefused, false);
    CastEndedChange(r, TargetLost, false);
    if call.SpellFinished? {
      CastEndedChange(r, CastDone(call.success), call.success);
    }
    hide StartAllowed, TargetFound, CastEnded, Blamed, HookChange;
  }

  lemma CastEndedChange(r: Record, cause: Cause, success: bool)
    ensures HookChange(r, CastEnded(Blamed(r, cause), success)) && HookChange(r, r)
    ensures HookChange(r, r.(started := true))
  {
  }

  lemma HookChangeOk(r: Record, log: Log, later: Record)
    requires Placed(r, log) && r.hook && HookChange(r, later)
    ensures Placed(later, log) && Advances(r, later)
  {
  }

  lemma OnHookMoves(c: State, call: Call)
    requires SafeState(c) && IsSpellCall(call)
    ensures Moves(c.transfers, c.log, OnHook(c, call), c.log)
  {
    Stays(c.transfers, c.log);
    assert AllPlaced(c.transfers, c.log) && LogOk(c.log) && LogGrows(c.log, c.log);
    var after := OnHook(c, call);
    hide Safe, LogOk, LogGrows, Placed, Advances, Distinct, OneHook, Touched, HookChange;
    forall id | id in c.transfers
      ensures Advances(c.transfers[id], after[id]) && Placed(after[id], c.log)
              && (after[id].hook ==> c.transfers[id].hook)
    {
      var r := c.transfers[id];
      TouchedChange(c, call, r);
      SelfAdvances(r);
      if r.hook && r.caster == call.actor {
        HookChangeOk(r, c.log, after[id]);
      }
    }
    SafeMany(c.transfers, c.log, after, c.log);
  }

  lemma SelfAdvances(r: Record)
    ensures Advances(r, r)
  {
  }

  // ---------------------------------------------------------------- new and forgotten records

  lemma RetainedOk(log: Log, turn: Turn, spell: bool, caster: Actor, seen: Option<Snapshot>)
    requires LogOk(log)
    ensures Placed(Retained(log.next, turn, spell, caster, seen), log.(next := log.next + 1))
  {
  }

  lemma RetainedMoves(transfers: Records, log: Log, id: ActionId, r: Record)
    requires Safe(transfers, log) && id !in transfers && r.serial == log.next && !r.hook
    requires Placed(r, log.(next := log.next + 1))
    ensures Moves(transfers, log, transfers[id := r], log.(next := log.next + 1))
  {
    var later := log.(next := log.next + 1);
    forall a | a in transfers ensures Placed(transfers[a], later) && transfers[a].serial < log.next {
      assert Placed(transfers[a], log);
      assert Unmentioned(transfers[a], log, later);
      UnmentionedPlaced(transfers[a], log, later);
    }
    assert LogOk(later);
    hide Placed, LogOk;
    forall a | a in transfers ensures Advances(transfers[a], transfers[a]) {
      SelfAdvances(transfers[a]);
    }
    hide Advances;
  }

  lemma SyncedMoves(c: State)
    requires Safe(c.transfers, c.log)
    ensures Moves(c.transfers, c.log, Synced(c).transfers, c.log) && Synced(c).log == c.log
  {
    Stays(c.transfers, c.log);
    hide LogOk, LogGrows;
  }

  // ---------------------------------------------------------------- calls

  ghost predicate StateMoves(c: State, later: State) {
    Moves(c.transfers, c.log, later.transfers, later.log)
  }

  /** A call that first synchronises the scope. */
  lemma AfterSync(c: State, later: State)
    requires SafeState(c) && (Safe(Synced(c).transfers, c.log) ==> StateMoves(Synced(c), later))
    ensures StateMoves(c, later)
  {
    SyncedMoves(c);
    assert Safe(Synced(c).transfers, c.log) by {
      MovesSafe(c.transfers, c.log, Synced(c).transfers, c.log);
    }
    hide Moves, Safe, Synced;
    MovesTwice(c.transfers, c.log, Synced(c).transfers, c.log, later.transfers, later.log);
  }

  lemma MovesSafe(a: Records, la: Log, b: Records, lb: Log)
    requires Moves(a, la, b, lb)
    ensures Safe(b, lb)
  {
  }

  /** Retaining in the scope of the moment. */
  lemma InScopeMoves(s: State, id: ActionId, turn: Turn, spell: bool, caster: Actor)
    requires SafeState(s) && id !in s.transfers
    ensures Moves(s.transfers, s.log, s.transfers[id := Retained(s.log.next, turn, spell, caster, Seen(s, turn))],
                  s.log.(next := s.log.next + 1))
  {
    assert LogOk(s.log);
    hide Safe, Moves, LogOk, Placed;
    RetainedOk(s.log, turn, spell, caster, Seen(s, turn));
    RetainedMoves(s.transfers, s.log, id, Retained(s.log.next, turn, spell, caster, Seen(s, turn)));
  }

  lemma IntentMoves(c: State, eventSession: nat, eventGeneration: nat, id: ActionId, turn: Turn, spell: bool,
                    caster: Actor)
    requires SafeState(c)
    ensures StateMoves(c, IntentRetained(c, eventSession, eventGeneration, id, turn, spell, caster))
  {
    hide Safe, Moves, Retained, Seen;
    var s := Synced(c);
    assert s.log == c.log;
    if Safe(s.transfers, c.log) {
      Stays(s.transfers, c.log);
      if id !in s.transfers {
        InScopeMoves(s, id, turn, spell, caster);
      }
    }
    hide Synced;
    AfterSync(c, IntentRetained(c, eventSession, eventGeneration, id, turn, spell, caster));
  }

  lemma TurnEndedMoves(c: State, eventSession: nat, eventGeneration: nat, turn: Turn)
    requires SafeState(c)
    ensures StateMoves(c, TurnEnded(c, eventSession, eventGeneration, turn))
  {
    hide Safe, Moves, AllWithdrawn, CancelledAtGate;
    var s := Synced(c);
    assert s.log == c.log;
    if Safe(s.transfers, c.log) {
      Stays(s.transfers, c.log);
      AllWithdrawnMoves(s.transfers, c.log, turn);
    }
    AfterSync(c, TurnEnded(c, eventSession, eventGeneration, turn));
  }

  lemma TransferExecutedMoves(c: State, id: ActionId, interrupted: bool, expired: bool)
    requires SafeState(c)
    ensures StateMoves(c, TransferExecuted(c, id, interrupted, expired))
  {
    hide Safe, Moves, Executed, Queues;
    var s := Synced(c);
    assert s.log == c.log;
    if Safe(s.transfers, c.log) {
      Stays(s.transfers, c.log);
      if id in s.transfers {
        ExecutedMoves(s.transfers, c.log, id, interrupted, expired);
      }
    }
    AfterSync(c, TransferExecuted(c, id, interrupted, expired));
  }

  lemma TurnSubmittedMoves(c: State, turn: Turn, accepted: bool)
    requires SafeState(c)
    ensures StateMoves(c, TurnSubmitted(c, turn, accepted))
  {
    var later := TurnSubmitted(c, turn, accepted);
    assert later.log == c.log && (later.transfers == c.transfers || later.transfers == Synced(c).transfers);
    hide Safe, Moves, TurnSubmitted;
    Stays(c.transfers, c.log);
    SyncedMoves(c);
  }

  lemma StrandedMoves(transfers: Records, log: Log, id: ActionId)
    requires Safe(transfers, log) && id in transfers
    ensures Moves(transfers, log, Stranded(transfers, id), log)
  {
    RecordIsOk(transfers, log, id);
    var r := transfers[id].(past := transfers[id].past.(stranded := true));
    assert Placed(r, log) && Advances(transfers[id], r);
    hide Placed, Advances;
    UpdateMoves(transfers, log, id, r);
  }

  lemma QueuedRunMoves(c: State, expired: bool, outcome: Outcome)
    requires SafeState(c)
    ensures StateMoves(c, QueuedRun(c, expired, outcome))
  {
    Stays(c.transfers, c.log);
    if c.queue != [] && c.queue[0].id in c.transfers {
      StrandedMoves(c.transfers, c.log, c.queue[0].id);
    }
    if c.queue != [] && c.queue[0].id in c.transfers {
      var r := c.transfers[c.queue[0].id];
      hide Safe, Moves, Committed, PendingSpell;
      if CanBegin(r.gate) {
        var attempt := Attempt(r.snapshot.Some?, c.Gone(r), expired, PendingSpell(c.transfers, r.caster), outcome);
        CommittedMoves(c.transfers, c.log, c.queue[0].id, c.Gone(r), expired, outcome,
                       r.past.(attempt := Some(attempt)));
      }
    }
  }

  lemma SpellMoves(c: State, call: Call)
    requires SafeState(c) && IsSpellCall(call)
    ensures StateMoves(c, Step(c, call))
  {
    hide Safe, Moves, OnHook;
    OnHookMoves(c, call);
  }

  lemma ResultSubmittedMoves(c: State, id: ActionId, dto: Dto, request: RequestId, taken: bool)
    requires SafeState(c)
    ensures StateMoves(c, ResultSubmitted(c, id, dto, request, taken))
  {
    hide Safe, Moves, Reported, Sending, Refuses;
    Stays(c.transfers, c.log);
    if TerminalStatus(dto.status) && id in c.transfers {
      ReportedMoves(c.transfers, c.log, id, dto, request, taken);
    }
  }

  lemma ReceiptSettledMoves(c: State, request: RequestId, good: bool)
    requires SafeState(c)
    ensures StateMoves(c, ReceiptSettled(c, request, good))
  {
    hide Safe, Moves, Answered;
    Stays(c.transfers, c.log);
    if FirstWith(c.transfers, request).Some? {
      AnsweredMoves(c.transfers, c.log, FirstWith(c.transfers, request).value, good);
    }
  }

  lemma TransferCancelledMoves(c: State, id: ActionId)
    requires SafeState(c)
    ensures StateMoves(c, TransferCancelled(c, id))
  {
    hide Safe, Moves, Withdrawn, CancelsAtGate;
    Stays(c.transfers, c.log);
    if id in c.transfers {
      WithdrawnMoves(c.transfers, c.log, id);
    }
  }

  /** Every call keeps the accounts, only advances records, and forgets nothing. */
  lemma StepMoves(c: State, call: Call)
    requires SafeState(c)
    ensures StateMoves(c, Step(c, call)) && SafeState(Step(c, call))
  {
    Stays(c.transfers, c.log);
    assert StateMoves(c, Step(c, call)) by {
      hide Safe, Moves, IntentRetained, TurnEnded, TransferExecuted, TurnSubmitted, QueuedRun, ResultSubmitted,
           ReceiptSettled, TransferCancelled, OnHook;
      match call {
        case Environment(_, _, _) =>
        case SubmitTurn(turn, accepted) => TurnSubmittedMoves(c, turn, accepted);
        case RetainIntent(eventSession, eventGeneration, id, turn, spell, caster) =>
          IntentMoves(c, eventSession, eventGeneration, id, turn, spell, caster);
        case EndTurn(eventSession, eventGeneration, turn) => TurnEndedMoves(c, eventSession, eventGeneration, turn);
        case CancelTransfer(id) => TransferCancelledMoves(c, id);
        case ExecuteTransfer(id, interrupted, expired) => TransferExecutedMoves(c, id, interrupted, expired);
        case RunQueued(expired, outcome) => QueuedRunMoves(c, expired, outcome);
        case SubmitResult(id, dto, request, taken) => ResultSubmittedMoves(c, id, dto, request, taken);
        case SettleReceipt(request, good) => ReceiptSettledMoves(c, request, good);
        case _ => SpellMoves(c, call);
      }
    }
    hide Safe, Step;
    MovesSafe(c.transfers, c.log, Step(c, call).transfers, Step(c, call).log);
  }

  // ---------------------------------------------------------------- histories

  /** After any history of calls the accounts hold. */
  lemma {:induction false} AfterSafe(calls: seq<Call>)
    ensures SafeState(After(calls))
  {
    if calls != [] {
      AfterSafe(calls[..|calls| - 1]);
      hide SafeState, StateMoves, Step;
      StepMoves(After(calls[..|calls| - 1]), calls[|calls| - 1]);
    }
  }

  /** Whatever calls follow, records only advance and history only grows. */
  lemma {:induction false} RunMoves(calls: seq<Call>, more: seq<Call>)
    ensures StateMoves(After(calls), After(calls + more))
    decreases |more|
  {
    AfterSafe(calls);
    var c := After(calls);
    if more == [] {
      assert calls + more == calls;
      Stays(c.transfers, c.log);
    } else {
      var n := |more| - 1;
      var middle := After(calls + more[..n]);
      assert (calls + more)[..|calls + more| - 1] == calls + more[..n];
      RunMoves(calls, more[..n]);
      AfterSafe(calls + more[..n]);
      var later := After(calls + more);
      assert later == Step(middle, more[n]);
      hide Safe, Moves, Step, After;
      StepMoves(middle, more[n]);
      MovesTwice(c.transfers, c.log, middle.transfers, middle.log, later.transfers, later.log);
    }
  }

  lemma {:induction false} CountDistinct(s: seq<nat>, x: nat)
    requires forall i, j :: 0 <= i < j < |s| ==> s[i] != s[j]
    ensures multiset(s)[x] == if x in s then 1 else 0
    decreases |s|
  {
    if s != [] {
      var n := |s| - 1;
      CountDistinct(s[..n], x);
      assert s == s[..n] + [s[n]];
    }
  }

  /** However the calls come, the world is changed at most once for a retained intent, and never for one that is ever
      cancelled at its gate, before or after. */
  lemma CommittedAtMostOnce(calls: seq<Call>, more: seq<Call>, serial: nat)
    ensures multiset(After(calls).log.began)[serial] <= 1
    ensures serial in After(calls).log.cancelled ==> serial !in After(calls + more).log.began
    ensures serial in After(calls).log.began ==> serial !in After(calls + more).log.cancelled
  {
    AfterSafe(calls);
    AfterSafe(calls + more);
    RunMoves(calls, more);
    hide After;
    CountDistinct(After(calls).log.began, serial);
  }

  /** Once a record's commit has begun its status changes at most once, from pending to a terminal value. */
  lemma StatusSettlesOnce(calls: seq<Call>, more: seq<Call>, yet: seq<Call>, id: ActionId)
    requires id in After(calls).transfers && id in After(calls + more).transfers
    requires id in After(calls + more + yet).transfers
    requires var serial := After(calls).transfers[id].serial;
             && After(calls + more).transfers[id].serial == serial
             && After(calls + more + yet).transfers[id].serial == serial
             && serial in After(calls).log.began
    ensures var a, b := After(calls).transfers[id], After(calls + more).transfers[id];
            b.status != a.status ==> a.status == Pending && TerminalStatus(b.status)
    ensures var b, c := After(calls + more).transfers[id], After(calls + more + yet).transfers[id];
            TerminalStatus(b.status) ==> c.status == b.status
  {
    var a, b, c := After(calls), After(calls + more), After(calls + more + yet);
    AfterSafe(calls);
    AfterSafe(calls + more);
    RunMoves(calls, more);
    RunMoves(calls + more, yet);
    hide After;
    RecordIsOk(a.transfers, a.log, id);
    RecordIsOk(b.transfers, b.log, id);
    hide Safe;
    assert LogGrows(a.log, b.log);
    assert Advances(a.transfers[id], b.transfers[id]) && Advances(b.transfers[id], c.transfers[id]);
  }

  /**
    Between calls a pending record without a hook is queued at its gate, and one with a hook has begun its commit;
    only a committed record has succeeded, and only a cancelled or rejected one was stopped at its gate.
   */
  lemma StatusMeans(calls: seq<Call>, id: ActionId)
    requires id in After(calls).transfers
    ensures var r, log := After(calls).transfers[id], After(calls).log;
            && (r.status == Pending && !r.hook ==>
                  r.gate == Queued && r.serial !in log.began && r.serial !in log.cancelled)
            && (r.status == Pending && r.hook ==> r.gate == Executing && r.serial in log.began)
            && (r.status == Succeeded ==> r.serial in log.began && r.serial !in log.cancelled)
            && (r.serial in log.cancelled ==> r.status == Cancelled || r.status == Rejected)
  {
    AfterSafe(calls);
    var c := After(calls);
    hide After;
    RecordIsOk(c.transfers, c.log, id);
  }

  /** At most one retained cast per caster holds the caster's hook, casts cancelled but not yet released included. */
  lemma OneHookPerCaster(calls: seq<Call>, a: ActionId, b: ActionId)
    requires a in After(calls).transfers && b in After(calls).transfers
    requires After(calls).transfers[a].hook && After(calls).transfers[b].hook
    requires After(calls).transfers[a].caster == After(calls).transfers[b].caster
    ensures a == b
  {
    AfterSafe(calls);
    hide After;
  }

  /** All reports sent for one retention are the same one, the first kept; the record keeps it for good. */
  lemma FirstReportOnly(calls: seq<Call>, more: seq<Call>, i: nat, j: nat)
    requires i < |After(calls).log.sent| && j < |After(calls + more).log.sent|
    requires After(calls).log.sent[i].serial == After(calls + more).log.sent[j].serial
    ensures After(calls).log.sent[i].dto == After(calls + more).log.sent[j].dto
    ensures forall id :: id in After(calls).transfers && id in After(calls + more).transfers
                         && After(calls).transfers[id].serial == After(calls + more).transfers[id].serial
                         && After(calls).transfers[id].receipt.Some? ==>
              After(calls + more).transfers[id].receipt == After(calls).transfers[id].receipt
  {
    AfterSafe(calls);
    AfterSafe(calls + more);
    RunMoves(calls, more);
    hide After;
    assert After(calls).log.sent <= After(calls + more).log.sent;
  }

  // ---------------------------------------------------------------- does the report have the record's status?

  /**
    The kept report has its record's status exactly if the turn was observed, the gate is still fresh, or the report
    is not one of failure.
   */
  lemma ReportExact(calls: seq<Call>, id: ActionId)
    requires id in After(calls).transfers && After(calls).transfers[id].receipt.Some?
    ensures var r := After(calls).transfers[id];
            r.receipt.value.status == r.status <==>
            r.snapshot.Some? || r.gate.Fresh? || r.receipt.value.status != Failed
  {
    AfterSafe(calls);
    var c := After(calls);
    hide After;
    RecordIsOk(c.transfers, c.log, id);
  }

  /**
    At the call: what is sent has the status reported, which is then the record's, except for an unobserved intent
    whose failure was already kept.
   */
  lemma SentExact(calls: seq<Call>, id: ActionId, dto: Dto, request: RequestId, taken: bool)
    requires After(calls).Ready() && TerminalStatus(dto.status) && id in After(calls).transfers
    requires Sending(After(calls).transfers[id], dto, taken) != []
    ensures var c := After(calls);
            var r, later := c.transfers[id], Step(c, SubmitResult(id, dto, request, taken));
            && |later.log.sent| == |c.log.sent| + 1 && later.transfers[id].status == dto.status
            && (later.log.sent[|c.log.sent|].dto.status == dto.status <==>
                !(r.snapshot.None? && r.receipt.Some? && r.receipt.value.status == Failed && dto.status != Failed))
  {
    AfterSafe(calls);
    var c := After(calls);
    hide After;
    RecordIsOk(c.transfers, c.log, id);
  }

  lemma AfterNext(calls: seq<Call>, call: Call)
    ensures After(calls + [call]) == Step(After(calls), call)
  {
    assert (calls + [call])[..|calls|] == calls;
  }

  /** One observed failure: an intent of an unobserved turn, whose failure is reported but whose answer is bad. */
  function UnobservedRun(): seq<Call> {
    [Environment(Some(7), true, 1)] + [RetainIntent(7, 1, 5, 2, false, 0)]
    + [SubmitResult(5, Dto(Failed, 0), 10, true)] + [SettleReceipt(10, false)]
  }

  function UnobservedRecord(): Record {
    Record(0, 2, false, 0, None, Fresh, false, false, Failed, None, None, NotSubmitted, NO_PAST)
  }

  function UnobservedWith(record: Record, sent: seq<Sent>): State {
    State(Some(7), true, 1, Some(7), 1, map[], [], {}, map[5 := record], [], 0, [], Log(1, [], {}, sent))
  }

  lemma RetainedState()
    ensures After([Environment(Some(7), true, 1)] + [RetainIntent(7, 1, 5, 2, false, 0)])
            == UnobservedWith(UnobservedRecord(), [])
  {
    var c1 := [Environment(Some(7), true, 1)];
    ReadyState();
    AfterNext(c1, RetainIntent(7, 1, 5, 2, false, 0));
    hide After, Step;
    RetainStep();
  }

  /** A client that has become ready in session 7. */
  function Ready7(): State {
    EMPTY_STATE.(session := Some(7), ready := true, generation := 1)
  }

  lemma ReadyState()
    ensures After([Environment(Some(7), true, 1)]) == Ready7()
  {
    assert [] + [Environment(Some(7), true, 1)] == [Environment(Some(7), true, 1)] && After([]) == EMPTY_STATE;
    AfterNext([], Environment(Some(7), true, 1));
    hide After;
  }

  lemma RetainStep()
    ensures Step(Ready7(), RetainIntent(7, 1, 5, 2, false, 0)) == UnobservedWith(UnobservedRecord(), [])
  {
  }

  lemma ReportedState()
    ensures Step(UnobservedWith(UnobservedRecord(), []), SubmitResult(5, Dto(Failed, 0), 10, true))
            == UnobservedWith(ReportedRecord(), [Sent(0, Dto(Failed, 0))])
  {
    assert NO_PAST.reports + [Went(10)] == [Went(10)];
  }

  lemma BadAnswerState(r: Record, sent: seq<Sent>)
    requires r.receiptRequest == Some(10)
    ensures Step(UnobservedWith(r, sent), SettleReceipt(10, false))
            == UnobservedWith(Answered(r, false), sent)
  {
    var c := UnobservedWith(r, sent);
    assert c.transfers[5].receiptRequest == Some(10);
    assert FirstWith(c.transfers, 10) == Some(5);
  }

  /** The record after its report, and after the bad answer. */
  function ReportedRecord(): Record {
    UnobservedRecord().(receipt := Some(Dto(Failed, 0)), receiptRequest := Some(10), receiptStatus := Submitted,
                        past := NO_PAST.(reports := [Went(10)]))
  }

  function RefutedRecord(): Record {
    ReportedRecord().(receiptStatus := ReceiptFailed, past := NO_PAST.(reports := [Went(10), Came(false)]))
  }

  lemma UnobservedState()
    ensures After(UnobservedRun()) == UnobservedWith(RefutedRecord(), [Sent(0, Dto(Failed, 0))])
  {
    var c2 := [Environment(Some(7), true, 1)] + [RetainIntent(7, 1, 5, 2, false, 0)];
    var c3 := c2 + [SubmitResult(5, Dto(Failed, 0), 10, true)];
    assert [Went(10)] + [Came(false)] == [Went(10), Came(false)];
    assert Answered(ReportedRecord(), false) == RefutedRecord();
    hide After, Step, UnobservedWith, Answered;
    RetainedState();
    ReportedState();
    BadAnswerState(ReportedRecord(), [Sent(0, Dto(Failed, 0))]);
    AfterNext(c2, SubmitResult(5, Dto(Failed, 0), 10, true));
    AfterNext(c3, SettleReceipt(10, false));
  }

  /** So a kept report can differ from its record's status: the record ends as cancelled, a failure is sent. */
  lemma ReportMayDisagree()
    ensures var calls := UnobservedRun() + [SubmitResult(5, Dto(Cancelled, 1), 11, true)];
            var c := After(calls);
            5 in c.transfers && c.transfers[5].status == Cancelled && c.transfers[5].receiptRequest == Some(11)
            && c.log.sent == [Sent(0, Dto(Failed, 0)), Sent(0, Dto(Failed, 0))]
  {
    UnobservedState();
    AfterNext(UnobservedRun(), SubmitResult(5, Dto(Cancelled, 1), 11, true));
    hide UnobservedRun, After;
  }

  // ---------------------------------------------------------------- bounds

  /** The order of the observations lists each observed turn once. */
  ghost predicate Listed(order: seq<Turn>, snapshots: map<Turn, Snapshot>) {
    && |order| == |snapshots| && (forall t :: t in order <==> t in snapshots)
    && NoRepeats(order)
  }

  /** The last sixteen of a sequence of turns, or all of them. */
  function Latest(turns: seq<Turn>): seq<Turn> {
    if |turns| <= 16 then turns else turns[|turns| - 16..]
  }

  ghost predicate Bounded(c: State) {
    && c.order == Latest(c.observed) && Listed(c.order, c.snapshots)
    && |c.snapshots| <= SNAPSHOT_LIMIT && |c.transfers| <= RECORD_LIMIT
  }

  predicate NoRepeats(order: seq<Turn>) {
    forall i, j :: 0 <= i < j < |order| ==> order[i] != order[j]
  }

  lemma RestOf(order: seq<Turn>)
    requires order != [] && NoRepeats(order)
    ensures NoRepeats(order[1..]) && forall t :: t in order[1..] <==> t in order && t != order[0]
  {
    var first, rest := order[0], order[1..];
    assert order == [first] + rest;
    assert forall i :: 0 <= i < |rest| ==> rest[i] == order[i + 1];
  }

  lemma ListedLess(order: seq<Turn>, snapshots: map<Turn, Snapshot>)
    requires Listed(order, snapshots) && order != []
    ensures Listed(order[1..], snapshots - {order[0]})
  {
    RestOf(order);
    SizeLess(snapshots, order[0]);
    hide NoRepeats;
  }

  lemma SizeLess(snapshots: map<Turn, Snapshot>, turn: Turn)
    requires turn in snapshots
    ensures |snapshots - {turn}| == |snapshots| - 1
  {
    assert (snapshots - {turn}).Keys == snapshots.Keys - {turn};
    assert |(snapshots - {turn}).Keys| == |snapshots.Keys| - 1;
  }

  lemma ListedMore(order: seq<Turn>, snapshots: map<Turn, Snapshot>, turn: Turn, seen: Snapshot)
    requires Listed(order, snapshots) && turn !in snapshots
    ensures Listed(order + [turn], snapshots[turn := seen]) && |snapshots[turn := seen]| == |snapshots| + 1
  {
    assert snapshots[turn := seen].Keys == snapshots.Keys + {turn};
    assert |snapshots[turn := seen].Keys| == |snapshots.Keys| + 1;
  }

  lemma TurnSubmittedBounded(c: State, turn: Turn, accepted: bool)
    requires Bounded(c) && Bounded(Synced(c))
    ensures Bounded(TurnSubmitted(c, turn, accepted))
  {
    var s := Synced(c);
    LatestMore(s.observed, turn);
    hide Listed, Synced, Latest;
    if |s.snapshots| >= SNAPSHOT_LIMIT && s.order != [] {
      ListedLess(s.order, s.snapshots);
      ListedSizes(s.order[1..], s.snapshots - {s.order[0]});
    }
    ListedSizes(s.order, s.snapshots);
    var room := Evicted(s);
    if turn !in s.snapshots {
      ListedMore(room.order, room.snapshots, turn, Snapshot(s.names, s.scopeSession, s.scopeGeneration));
    }
  }

  lemma LatestMore(turns: seq<Turn>, turn: Turn)
    ensures |Latest(turns)| <= 16
    ensures Latest(turns + [turn])
            == (if |Latest(turns)| >= 16 then Latest(turns)[1..] else Latest(turns)) + [turn]
  {
  }

  lemma ListedSizes(order: seq<Turn>, snapshots: map<Turn, Snapshot>)
    requires Listed(order, snapshots)
    ensures |order| == |snapshots|
  {
  }

  lemma IntentBounded(c: State, eventSession: nat, eventGeneration: nat, id: ActionId, turn: Turn, spell: bool,
                      caster: Actor)
    requires Bounded(Synced(c))
    ensures Bounded(IntentRetained(c, eventSession, eventGeneration, id, turn, spell, caster))
  {
    var s := Synced(c);
    var r := Retained(s.log.next, turn, spell, caster, Seen(s, turn));
    hide Synced, Listed, Retained, Seen;
    if id !in s.transfers {
      SizeMore(s.transfers, id, r);
    }
  }

  lemma SizeMore(transfers: Records, id: ActionId, r: Record)
    requires id !in transfers
    ensures |transfers[id := r]| == |transfers| + 1
  {
    assert transfers[id := r].Keys == transfers.Keys + {id};
    assert |transfers[id := r].Keys| == |transfers.Keys| + 1;
  }

  /** Changing no key of the records and nothing about observations. */
  lemma SameBounded(c: State, later: State)
    requires Bounded(c) && later.order == c.order && later.snapshots == c.snapshots && later.observed == c.observed
    requires later.transfers.Keys == c.transfers.Keys
    ensures Bounded(later)
  {
    assert |later.transfers.Keys| == |later.transfers| && |c.transfers.Keys| == |c.transfers|;
  }

  lemma SyncedBounded(c: State)
    requires Bounded(c)
    ensures Bounded(Synced(c))
  {
  }

  predicate Observes(call: Call) {
    call.SubmitTurn? || call.RetainIntent?
  }

  /** Calls that neither observe nor retain keep what is observed and which intents are held, once in scope. */
  lemma SyncingFrame(c: State, call: Call)
    requires call.EndTurn? || call.ExecuteTransfer?
    ensures Step(c, call).order == Synced(c).order && Step(c, call).snapshots == Synced(c).snapshots
    ensures Step(c, call).observed == Synced(c).observed
    ensures Step(c, call).transfers.Keys == Synced(c).transfers.Keys
  {
    hide Synced, Executed, Queues, Withdrawn, CancelledAtGate;
  }

  lemma PlainFrame(c: State, call: Call)
    requires !Observes(call) && !call.EndTurn? && !call.ExecuteTransfer?
    ensures Step(c, call).order == c.order && Step(c, call).snapshots == c.snapshots
    ensures Step(c, call).observed == c.observed
    ensures Step(c, call).transfers.Keys == c.transfers.Keys
  {
    hide Withdrawn, CancelsAtGate, Committed, CastEnded, StartAllowed, TargetFound, Reported, Refuses, Sending,
         Answered, PendingSpell;
  }

  /** Which function a call is. */
  lemma StepIs(c: State, call: Call)
    ensures call.SubmitTurn? ==> Step(c, call) == TurnSubmitted(c, call.turn, call.accepted)
    ensures call.RetainIntent? ==>
              Step(c, call) == IntentRetained(c, call.eventSession, call.eventGeneration, call.id, call.turn,
                                              call.spell, call.caster)
    ensures call.EndTurn? ==> Step(c, call) == TurnEnded(c, call.eventSession, call.eventGeneration, call.turn)
    ensures call.CancelTransfer? ==> Step(c, call) == TransferCancelled(c, call.id)
    ensures call.ExecuteTransfer? ==>
              Step(c, call) == TransferExecuted(c, call.id, call.interrupted, call.expired)
    ensures call.RunQueued? ==> Step(c, call) == QueuedRun(c, call.expired, call.outcome)
    ensures IsSpellCall(call) ==> Step(c, call) == c.(transfers := OnHook(c, call))
    ensures call.SubmitResult? ==>
              Step(c, call) == ResultSubmitted(c, call.id, call.dto, call.request, call.taken)
    ensures call.SettleReceipt? ==> Step(c, call) == ReceiptSettled(c, call.request, call.good)
  {
  }

  lemma StepBounded(c: State, call: Call)
    requires Bounded(c)
    ensures Bounded(Step(c, call))
  {
    SyncedBounded(c);
    StepIs(c, call);
    hide Bounded, Synced, Step, TurnSubmitted, IntentRetained, TurnEnded, TransferExecuted, TransferCancelled,
         QueuedRun,
         ResultSubmitted, ReceiptSettled;
    if call.SubmitTurn? {
      TurnSubmittedBounded(c, call.turn, call.accepted);
    } else if call.RetainIntent? {
      IntentBounded(c, call.eventSession, call.eventGeneration, call.id, call.turn, call.spell, call.caster);
    } else if call.EndTurn? || call.ExecuteTransfer? {
      SyncingFrame(c, call);
      SameBounded(Synced(c), Step(c, call));
    } else {
      PlainFrame(c, call);
      SameBounded(c, Step(c, call));
    }
  }

  /** At most 256 intents are held, and exactly the observations of the last 16 turns observed in this scope. */
  lemma {:induction false} AfterBounded(calls: seq<Call>)
    ensures Bounded(After(calls))
  {
    if calls != [] {
      AfterBounded(calls[..|calls| - 1]);
      hide Bounded, Step;
      StepBounded(After(calls[..|calls| - 1]), calls[|calls| - 1]);
    }
  }
}
