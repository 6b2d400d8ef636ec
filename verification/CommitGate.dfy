/**
  The commit gate of retained transfers, spell casts and their receipts, and one call at a time on the client's
  state.
 */
module CommitGate {
  import opened Results

  // ---------------------------------------------------------------- the gate

  datatype Gate = Fresh | Queued | Executing | Terminal

  class ActionCommitGate {
    var state: Gate

    constructor ()
      ensures state == Fresh
    {
      state := Fresh;
    }

    method Queue() returns (ok: bool)
      modifies this
      ensures ok <==> CanQueue(old(state))
      ensures state == if ok then Queued else old(state)
    {
      if state != Fresh {
        return false;
      }
      state := Queued;
      return true;
    }

    method Begin() returns (ok: bool)
      modifies this
      ensures ok <==> CanBegin(old(state))
      ensures state == if ok then Executing else old(state)
    {
      if state != Queued {
        return false;
      }
      state := Executing;
      return true;
    }

    method Cancel() returns (ok: bool)
      modifies this
      ensures ok <==> CanCancel(old(state))
      ensures state == if ok then Terminal else old(state)
    {
      if state != Fresh && state != Queued {
        return false;
      }
      state := Terminal;
      return true;
    }

    method Finish()
      modifies this
      ensures state == Finished(old(state))
    {
      if state == Executing {
        state := Terminal;
      }
    }
  }

  predicate CanQueue(g: Gate) {
    g.Fresh?
  }

  predicate CanBegin(g: Gate) {
    g.Queued?
  }

  predicate CanCancel(g: Gate) {
    g.Fresh? || g.Queued?
  }

  function Finished(g: Gate): Gate {
    if g.Executing? then Terminal else g
  }

  function Rank(g: Gate): nat {
    match g
    case Fresh => 0
    case Queued => 1
    case Executing => 2
    case Terminal => 3
  }

  // ---------------------------------------------------------------- records

  type ActionId = nat
  type Actor = nat
  type RequestId = nat
  type Turn = nat

  const RECORD_LIMIT: nat := 256
  const SNAPSHOT_LIMIT: nat := 16

  datatype Status = Awaiting | Pending | Succeeded | Failed | Cancelled | Rejected | TimedOut

  /** A terminal report as Lua submits it; the rest of its content is one opaque name. */
  datatype Dto = Dto(status: Status, content: nat)

  datatype ReceiptStatus = NotSubmitted | Submitted | Accepted | ReceiptFailed

  /** What a submitted turn saw, under a name of its own, and the scope it was seen in. */
  datatype Snapshot = Snapshot(name: nat, session: Option<nat>, generation: nat)

  /**
    A retained intent. `serial` is a history name for this retention: an action may be retained again in a later
    scope.
   */
  datatype Record = Record(
    serial: nat,
    turn: Turn,
    spell: bool,
    caster: Actor,
    snapshot: Option<Snapshot>,
    gate: Gate,
    hook: bool,
    started: bool,
    status: Status,
    receipt: Option<Dto>,
    receiptRequest: Option<RequestId>,
    receiptStatus: ReceiptStatus,
    past: Past)

  /** What an engine mutation comes to: a transfer's result, or a cast whose hook is now attached. */
  datatype Outcome = Done | NotDone | CastStarted

  /** A commit: whether the turn was withdrawn or the intent expired by then, whether the caster had a hook already, and
      what the mutation came to. */
  datatype Attempt = Attempt(observed: bool, withdrawn: bool, expired: bool, busy: bool, outcome: Outcome)

  /** What first ended a cast whose hook was attached. */
  datatype Cause = CastDone(success: bool) | StartRefused | TargetLost | Interrupted | OutOfTime | ByCaller

  datatype ReportEvent = Went(request: RequestId) | Came(good: bool)

  /** History of one retention, read by no decision; `stranded` says that its closure ran outside its scope. */
  datatype Past = Past(attempt: Option<Attempt>, ended: Option<Cause>, reports: seq<ReportEvent>, stranded: bool)

  const NO_PAST: Past := Past(None, None, [], false)

  type Records = map<ActionId, Record>

  /** The closure that runs on the engine's main thread. */
  datatype Action = Action(id: ActionId, session: Option<nat>, generation: nat)

  /** A terminal report handed to the bridge. */
  datatype Sent = Sent(serial: nat, dto: Dto)

  /** The history: which retentions were begun (one entry a commit), which were cancelled at the gate, what was sent. */
  datatype Log = Log(next: nat, began: seq<nat>, cancelled: set<nat>, sent: seq<Sent>)

  predicate TerminalStatus(s: Status) {
    s != Awaiting && s != Pending
  }

  // ---------------------------------------------------------------- what each call does to its record

  /** A newly retained intent; without an observation of its turn it has failed already. */
  function Retained(serial: nat, turn: Turn, spell: bool, caster: Actor, seen: Option<Snapshot>): Record {
    Record(serial, turn, spell, caster, seen, Fresh, false, false, if seen.Some? then Awaiting else Failed,
           None, None, NotSubmitted, NO_PAST)
  }

  /** Something has ended the cast, if it has a hook and nothing has before. */
  function Blamed(r: Record, cause: Cause): Record {
    if r.hook && r.past.ended.None? then r.(past := r.past.(ended := Some(cause))) else r
  }

  /** A cancellation that has to pass the gate. */
  predicate CancelsAtGate(r: Record) {
    !(r.hook && r.status == Pending) && (r.status == Pending || r.status == Awaiting) && CanCancel(r.gate)
  }

  /**
    `cancelTransfer`: a cast under way ends as cancelled and keeps its hook, anything else is cancelled at its gate.
   */
  function Withdrawn(r: Record): Record {
    if r.hook && r.status == Pending then r.(status := Cancelled, gate := Finished(r.gate))
    else if CancelsAtGate(r) then r.(status := Cancelled, gate := Terminal)
    else r
  }

  /** A cast ends: a pending record gets its terminal status, and the hook is released either way. */
  function CastEnded(r: Record, success: bool): Record {
    if r.status == Pending
    then r.(status := if success then Succeeded else Failed, gate := Finished(r.gate), hook := false)
    else r.(hook := false)
  }

  predicate Queues(r: Record) {
    r.status == Awaiting && CanQueue(r.gate)
  }

  /** `executeTransfer`: an interrupted cast fails and lets go, an expired one fails, a confirmed action is queued. */
  function Executed(r: Record, interrupted: bool, expired: bool): Record {
    if r.hook && r.started && r.status == Pending && interrupted
    then r.(status := Failed, hook := false, gate := Finished(r.gate))
    else if r.hook && r.status == Pending && expired then r.(status := Failed, gate := Finished(r.gate))
    else if Queues(r) then r.(gate := Queued, status := Pending)
    else r
  }

  /** `commitTransfer` on a record whose gate has been begun; `busy` says that its caster already has a hook. */
  function Mutated(r: Record, withdrawn: bool, expired: bool, busy: bool, outcome: Outcome): Record {
    if r.snapshot.None? || withdrawn then r.(status := Cancelled)
    else if expired then r.(status := Failed)
    else if r.spell then
      if !busy && outcome == CastStarted then r.(hook := true, status := Pending) else r.(status := Failed)
    else r.(status := if outcome == Done then Succeeded else Failed)
  }

  /** What may have happened to a cast by the time Lua asks how it stands. */
  function Overdue(r: Record, interrupted: bool, expired: bool): Record {
    if r.started && interrupted then Blamed(r, Interrupted) else if expired then Blamed(r, OutOfTime) else r
  }

  /** The gate is begun, the world changed, and unless a cast is now under way the gate is finished. */
  function Committed(r: Record, withdrawn: bool, expired: bool, busy: bool, outcome: Outcome): Record {
    var after := Mutated(r.(gate := Executing), withdrawn, expired, busy, outcome);
    if after.status != Pending then after.(gate := Finished(after.gate)) else after
  }

  predicate Refuses(r: Record, status: Status) {
    (status == Rejected || status == Cancelled) && CanCancel(r.gate)
  }

  /** The record after the gate has heard of a reported rejection or cancellation. */
  function Refused(r: Record, status: Status): Record {
    if Refuses(r, status) then r.(gate := Terminal, status := status) else r
  }

  /** A report that does not fit the record, or whose answer is awaited or was good, changes no receipt. */
  predicate Reportable(r: Record, status: Status) {
    status == r.status && !(r.receiptRequest.Some? && (r.receiptStatus == Submitted || r.receiptStatus == Accepted))
  }

  function Keeping(r: Record, dto: Dto): Record {
    if r.receipt.Some? then r else r.(receipt := Some(dto))
  }

  /** `submitActionResult` on a retained record; `taken` says that the bridge takes the request. */
  function Reported(r: Record, dto: Dto, request: RequestId, taken: bool): Record {
    var r1 := Refused(r, dto.status);
    if !Reportable(r1, dto.status) then r1
    else if taken then
      Keeping(r1, dto).(receiptRequest := Some(request), receiptStatus := Submitted,
                        past := r.past.(reports := r.past.reports + [Went(request)]))
    else Keeping(r1, dto)
  }

  /** What a report hands to the bridge. */
  function Sending(r: Record, dto: Dto, taken: bool): seq<Sent> {
    var r1 := Refused(r, dto.status);
    if taken && Reportable(r1, dto.status)
    then [Sent(r.serial, if r.receipt.Some? then r.receipt.value else dto)] else []
  }

  function Answered(r: Record, good: bool): Record {
    r.(receiptStatus := if good && r.receipt.Some? then Accepted else ReceiptFailed,
       past := r.past.(reports := r.past.reports + [Came(good)]))
  }

  // ---------------------------------------------------------------- the client's state

  /** The client's fields. The log, the snapshot names, the serials and the turns observed in this scope are
      history that no decision depends on. */
  datatype State = State(
    session: Option<nat>,
    ready: bool,
    generation: nat,
    scopeSession: Option<nat>,
    scopeGeneration: nat,
    snapshots: map<Turn, Snapshot>,
    order: seq<Turn>,
    withdrawn: set<nat>,
    transfers: Records,
    queue: seq<Action>,
    names: nat,
    observed: seq<Turn>,
    log: Log) {

    predicate Ready() {
      session.Some? && ready
    }

    predicate InScope(eventSession: nat, eventGeneration: nat) {
      Some(eventSession) == scopeSession && eventGeneration == scopeGeneration
    }

    predicate Gone(r: Record) {
      r.snapshot.Some? && r.snapshot.value.name in withdrawn
    }

    /** The record's observation was made in the scope the client is in now. */
    predicate Current(r: Record) {
      r.snapshot.Some? && r.snapshot.value.session == session && r.snapshot.value.generation == generation
    }
  }

  const EMPTY_LOG: Log := Log(0, [], {}, [])

  const EMPTY_STATE: State := State(None, false, 0, None, 0, map[], [], {}, map[], [], 0, [], EMPTY_LOG)

  /** Some record holds the actor's spell hook. */
  predicate PendingSpell(transfers: Records, actor: Actor) {
    exists id :: id in transfers && transfers[id].hook && transfers[id].caster == actor
  }

  ghost predicate First(transfers: Records, request: RequestId, id: ActionId) {
    && id in transfers && transfers[id].receiptRequest == Some(request)
    && forall a :: a in transfers && transfers[a].receiptRequest == Some(request) ==> id <= a
  }

  lemma {:induction false} FirstExists(transfers: Records, request: RequestId, bound: ActionId) returns (id: ActionId)
    requires exists a :: a in transfers && a <= bound && transfers[a].receiptRequest == Some(request)
    ensures First(transfers, request, id)
    decreases bound
  {
    if a :| a in transfers && a < bound && transfers[a].receiptRequest == Some(request) {
      id := FirstExists(transfers, request, bound - 1);
    } else {
      id := bound;
    }
  }

  /** The first record, in the order of the action identifiers, whose report went out as `request`. */
  ghost function FirstWith(transfers: Records, request: RequestId): (r: Option<ActionId>)
    ensures r.Some? ==> First(transfers, request, r.value)
    ensures r.None? ==> forall a :: a in transfers ==> transfers[a].receiptRequest != Some(request)
  {
    if a :| a in transfers && transfers[a].receiptRequest == Some(request) then
      assert exists id :: First(transfers, request, id) by {
        var id := FirstExists(transfers, request, a);
      }
      var id :| First(transfers, request, id);
      Some(id)
    else None
  }

  // ---------------------------------------------------------------- calls

  datatype Call =
    | Environment(session: Option<nat>, ready: bool, generation: nat)
    | SubmitTurn(turn: Turn, accepted: bool)
    | RetainIntent(eventSession: nat, eventGeneration: nat, id: ActionId, turn: Turn, spell: bool, caster: Actor)
    | EndTurn(eventSession: nat, eventGeneration: nat, turn: Turn)
    | CancelTransfer(id: ActionId)
    | ExecuteTransfer(id: ActionId, interrupted: bool, expired: bool)
    | RunQueued(expired: bool, outcome: Outcome)
    | SpellStart(actor: Actor, expired: bool, selected: bool)
    | SpellFinished(actor: Actor, success: bool)
    | SpellTarget(actor: Actor, expired: bool, selected: bool, aimed: bool)
    | SubmitResult(id: ActionId, dto: Dto, request: RequestId, taken: bool)
    | SettleReceipt(request: RequestId, good: bool)

  /** `syncTransferScope`. */
  function Synced(c: State): State {
    if c.scopeSession == c.session && c.scopeGeneration == c.generation then c
    else c.(transfers := map[], snapshots := map[], order := [], observed := [], scopeSession := c.session,
            scopeGeneration := c.generation)
  }

  /** Room for one more observation: beyond the limit the oldest one goes. */
  function Evicted(c: State): State {
    if |c.snapshots| >= SNAPSHOT_LIMIT && c.order != []
    then c.(snapshots := c.snapshots - {c.order[0]}, order := c.order[1..]) else c
  }

  /** A submitted turn names what it saw, unless the bridge refuses it or the turn is known. */
  function TurnSubmitted(c: State, turn: Turn, accepted: bool): State {
    if !c.Ready() then c
    else
      var s := Synced(c);
      if !accepted || turn in s.snapshots then s
      else
        var room := Evicted(s);
        room.(snapshots := room.snapshots[turn := Snapshot(s.names, s.scopeSession, s.scopeGeneration)],
              order := room.order + [turn], observed := room.observed + [turn], names := s.names + 1)
  }

  function Seen(c: State, turn: Turn): Option<Snapshot> {
    if turn in c.snapshots then Some(c.snapshots[turn]) else None
  }

  /** `retainTransfer` on an action intent of a retainable kind. */
  function IntentRetained(c: State, eventSession: nat, eventGeneration: nat, id: ActionId, turn: Turn, spell: bool,
                          caster: Actor): State
  {
    var s := Synced(c);
    if !s.InScope(eventSession, eventGeneration) || id in s.transfers || |s.transfers| >= RECORD_LIMIT then s
    else s.(transfers := s.transfers[id := Retained(s.log.next, turn, spell, caster, Seen(s, turn))],
            log := s.log.(next := s.log.next + 1))
  }

  /** The records of a turn that is cancelled at the gate. */
  function CancelledAtGate(transfers: Records, turn: Turn): set<nat> {
    set id | id in transfers && transfers[id].turn == turn && CancelsAtGate(transfers[id]) :: transfers[id].serial
  }

  function AllWithdrawn(transfers: Records, turn: Turn): Records {
    map id | id in transfers :: if transfers[id].turn == turn then Withdrawn(Blamed(transfers[id], ByCaller))
                               else transfers[id]
  }

  /** `retainTransfer` when the server says a turn was cancelled or failed: all its records are cancelled. */
  function TurnEnded(c: State, eventSession: nat, eventGeneration: nat, turn: Turn): State {
    var s := Synced(c);
    if !s.InScope(eventSession, eventGeneration) then s
    else s.(withdrawn := if turn in s.snapshots then s.withdrawn + {s.snapshots[turn].name} else s.withdrawn,
            transfers := AllWithdrawn(s.transfers, turn),
            log := s.log.(cancelled := s.log.cancelled + CancelledAtGate(s.transfers, turn)))
  }

  function TransferCancelled(c: State, id: ActionId): State {
    if id !in c.transfers then c
    else
      var r := c.transfers[id];
      c.(transfers := c.transfers[id := Withdrawn(Blamed(r, ByCaller))],
         log := c.log.(cancelled := c.log.cancelled + if CancelsAtGate(r) then {r.serial} else {}))
  }

  /** Lua asks for the action, or how it stands; the first time, its commit is queued. */
  function TransferExecuted(c: State, id: ActionId, interrupted: bool, expired: bool): State {
    var s := Synced(c);
    if id !in s.transfers then s
    else
      var r := s.transfers[id];
      s.(transfers := s.transfers[id := Executed(Overdue(r, interrupted, expired), interrupted, expired)],
         queue := s.queue + if Queues(r) then [Action(id, s.scopeSession, s.scopeGeneration)] else [])
  }

  /** A closure ran while the client was not ready or in another scope: nothing happens to the record, now or later. */
  function Stranded(transfers: Records, id: ActionId): Records {
    if id !in transfers then transfers
    else transfers[id := transfers[id].(past := transfers[id].past.(stranded := true))]
  }

  /** The engine's main thread runs the next queued closure: the only call that changes the world. */
  function QueuedRun(c: State, expired: bool, outcome: Outcome): State {
    if c.queue == [] then c
    else
      var action := c.queue[0];
      var s := c.(queue := c.queue[1..]);
      if !c.Ready() || c.session != action.session || c.generation != action.generation then
        s.(transfers := Stranded(c.transfers, action.id))
      else if action.id !in c.transfers then s
      else
        var r := c.transfers[action.id];
        if r.status != Pending || !CanBegin(r.gate) then s
        else
          var busy := PendingSpell(c.transfers, r.caster);
          var attempt := Attempt(r.snapshot.Some?, c.Gone(r), expired, busy, outcome);
          s.(transfers := c.transfers[action.id :=
               Committed(r, c.Gone(r), expired, busy, outcome).(past := r.past.(attempt := Some(attempt)))],
             log := c.log.(began := c.log.began + [r.serial]))
  }

  /** The engine asks before it starts a cast. */
  predicate StartAllowed(c: State, r: Record, expired: bool, selected: bool) {
    r.status == Pending && c.Ready() && c.Current(r) && !expired && selected
  }

  /** The engine asks where a cast under way should go; `aimed` sums up its checks of caster, target and range. */
  predicate TargetFound(c: State, r: Record, expired: bool, selected: bool, aimed: bool) {
    StartAllowed(c, r, expired, selected) && r.started && !c.Gone(r) && aimed
  }

  predicate IsSpellCall(call: Call) {
    call.SpellStart? || call.SpellFinished? || call.SpellTarget?
  }

  /**
    What the engine's question or report does to the record whose hook it is about: a refused cast fails and lets
    go, and a cast that ends lets go whatever its status.
   */
  function Touched(c: State, call: Call, r: Record): Record
    requires IsSpellCall(call)
  {
    match call
    case SpellStart(_, expired, selected) =>
      if StartAllowed(c, r, expired, selected) then r.(started := true) else CastEnded(Blamed(r, StartRefused), false)
    case SpellFinished(_, success) => CastEnded(Blamed(r, CastDone(success)), success)
    case SpellTarget(_, expired, selected, aimed) =>
      if TargetFound(c, r, expired, selected, aimed) then r else CastEnded(Blamed(r, TargetLost), false)
  }

  function OnHook(c: State, call: Call): Records
    requires IsSpellCall(call)
  {
    map id | id in c.transfers ::
      if c.transfers[id].hook && c.transfers[id].caster == call.actor then Touched(c, call, c.transfers[id])
      else c.transfers[id]
  }

  /** Lua reports how an action ended. For a retained one the first report is kept and only it is ever sent. */
  function ResultSubmitted(c: State, id: ActionId, dto: Dto, request: RequestId, taken: bool): State {
    if !c.Ready() || !TerminalStatus(dto.status) || id !in c.transfers then c
    else
      var r := c.transfers[id];
      c.(transfers := c.transfers[id := Reported(r, dto, request, taken)],
         log := c.log.(cancelled := c.log.cancelled + (if Refuses(r, dto.status) then {r.serial} else {}),
                       sent := c.log.sent + Sending(r, dto, taken)))
  }

  /** A drained result may be the answer to a report; `good` says that it is an acceptance matching the receipt. */
  ghost function ReceiptSettled(c: State, request: RequestId, good: bool): State {
    match FirstWith(c.transfers, request)
    case None => c
    case Some(id) => c.(transfers := c.transfers[id := Answered(c.transfers[id], good)])
  }

  ghost function Step(c: State, call: Call): State {
    match call
    case Environment(session, ready, generation) => c.(session := session, ready := ready, generation := generation)
    case SubmitTurn(turn, accepted) => TurnSubmitted(c, turn, accepted)
    case RetainIntent(eventSession, eventGeneration, id, turn, spell, caster) =>
      IntentRetained(c, eventSession, eventGeneration, id, turn, spell, caster)
    case EndTurn(eventSession, eventGeneration, turn) => TurnEnded(c, eventSession, eventGeneration, turn)
    case CancelTransfer(id) => TransferCancelled(c, id)
    case ExecuteTransfer(id, interrupted, expired) => TransferExecuted(c, id, interrupted, expired)
    case RunQueued(expired, outcome) => QueuedRun(c, expired, outcome)
    case SpellStart(_, _, _) => c.(transfers := OnHook(c, call))
    case SpellFinished(_, _) => c.(transfers := OnHook(c, call))
    case SpellTarget(_, _, _, _) => c.(transfers := OnHook(c, call))
    case SubmitResult(id, dto, request, taken) => ResultSubmitted(c, id, dto, request, taken)
    case SettleReceipt(request, good) => ReceiptSettled(c, request, good)
  }

  /** The state of a new client after a history of calls. */
  ghost function After(calls: seq<Call>): State {
    if calls == [] then EMPTY_STATE else Step(After(calls[..|calls| - 1]), calls[|calls| - 1])
  }
}
