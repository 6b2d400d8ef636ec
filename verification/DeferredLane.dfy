/** Results drained by the pause-safe pumps and replayed by the global lane. */
module DeferredLane {
  import opened Results
  import opened Sequences
  import opened InboundLine
  import Bridge
  import Queues

  const BATCH: nat := 8
  const CAPACITY: nat := 128
  const RECEIPT_LIMIT: nat := 128

  function Min(a: nat, b: nat): nat {
    if a < b then a else b
  }

  // ---------------------------------------------------------------- requests being waited for

  datatype Receipt = Pending | Done | Refused

  /** What the client is waiting for. A rewrite request stays in its table, marked, after its answer. */
  datatype Requests = Requests(
    controls: Option<RequestId>,
    debug: Option<RequestId>,
    diary: Option<RequestId>,
    diaryReceipt: Option<RequestId>,
    autochats: map<RequestId, bool>,
    dispositions: map<RequestId, Receipt>,
    transfers: set<RequestId>,
    session: Option<RequestId>,
    events: Option<RequestId>)

  const NO_REQUESTS: Requests := Requests(None, None, None, None, map[], map[], {}, None, None)

  datatype Table = Controls | Debug | Diary | DiaryReceipt | Autochat | Disposition | Transfer | Session | Events

  /** Whether an answer to request `id` is awaited in table `t`. */
  predicate Holds(q: Requests, t: Table, id: RequestId) {
    match t
    case Controls => q.controls == Some(id)
    case Debug => q.debug == Some(id)
    case Diary => q.diary == Some(id)
    case DiaryReceipt => q.diaryReceipt == Some(id)
    case Autochat => id in q.autochats && q.autochats[id]
    case Disposition => id in q.dispositions
    case Transfer => id in q.transfers
    case Session => q.session == Some(id)
    case Events => q.events == Some(id)
  }

  /** The tables after an answer in table `t`. The receipt of a transfer is settled in its own record. */
  function Answered(q: Requests, t: Table, r: Inbound): Requests {
    match t
    case Controls => q.(controls := None)
    case Debug => q.(debug := None)
    case Diary => q.(diary := None)
    case DiaryReceipt => q.(diaryReceipt := None)
    case Autochat => q.(autochats := q.autochats[r.request := false])
    case Disposition => q.(dispositions := q.dispositions[r.request := if r.kind.Accepted? then Done else Refused])
    case Transfer => q
    case Session => q.(session := None)
    case Events => q.(events := None)
  }

  /** Requests have identifiers of their own, all of which have been used. */
  ghost predicate Separate(q: Requests, used: set<RequestId>) {
    && (forall s, t, id :: Holds(q, s, id) && Holds(q, t, id) ==> s == t)
    && (forall t, id :: Holds(q, t, id) ==> id in used)
  }

  // ---------------------------------------------------------------- pumps

  datatype Pump = ControlsPump | DebugPump | DiaryPump | AutochatPump | DispositionPump

  /** The table in which a pump finds request `id`, if in any. */
  function FoundBy(q: Requests, pump: Pump, id: RequestId): Option<Table> {
    match pump
    case ControlsPump => if Holds(q, Controls, id) then Some(Controls) else None
    case DebugPump => if Holds(q, Debug, id) then Some(Debug) else None
    case DiaryPump =>
      if Holds(q, Diary, id) then Some(Diary) else if Holds(q, DiaryReceipt, id) then Some(DiaryReceipt) else None
    case AutochatPump => if Holds(q, Autochat, id) then Some(Autochat) else None
    case DispositionPump => if Holds(q, Disposition, id) then Some(Disposition) else None
  }

  /** One result in a pump. */
  function PumpedOne(q: Requests, pump: Pump, r: Inbound): Requests {
    match FoundBy(q, pump, r.request)
    case None => q
    case Some(t) => Answered(q, t, r)
  }

  function Pumped(q: Requests, pump: Pump, batch: seq<Inbound>): Requests {
    if batch == [] then q else PumpedOne(Pumped(q, pump, batch[..|batch| - 1]), pump, batch[|batch| - 1])
  }

  /** Which results of a batch a pump settles. */
  function Flags(q: Requests, pump: Pump, batch: seq<Inbound>): (r: seq<bool>)
    ensures |r| == |batch|
  {
    if batch == [] then []
    else
      var n := |batch| - 1;
      Flags(q, pump, batch[..n]) + [FoundBy(Pumped(q, pump, batch[..n]), pump, batch[n].request).Some?]
  }

  /** Whether a pump drains at all, apart from the room it needs. */
  predicate Waiting(q: Requests, pump: Pump, request: RequestId) {
    match pump
    case ControlsPump => q.controls.Some?
    case DebugPump => q.debug.Some?
    case DiaryPump => q.diary.Some? || q.diaryReceipt.Some?
    case AutochatPump => q.autochats != map[]
    case DispositionPump => request in q.dispositions
  }

  /** A pump's answer: the disposition pump forgets a receipt once it has reported it. */
  function Reported(q: Requests, pump: Pump, request: RequestId): Requests {
    if pump.DispositionPump? && request in q.dispositions && q.dispositions[request] != Pending
    then q.(dispositions := q.dispositions - {request}) else q
  }

  // ---------------------------------------------------------------- the global lane

  /** One result in the global lane, in the order in which the settlement functions are tried. */
  function Handled(q: Requests, r: Inbound): Requests {
    var id := r.request;
    if Holds(q, Transfer, id) then q
    else if Holds(q, Disposition, id) then Answered(q, Disposition, r)
    else if Holds(q, Debug, id) then Answered(q, Debug, r)
    else if Holds(q, Diary, id) then Answered(q, Diary, r)
    else if Holds(q, DiaryReceipt, id) then Answered(q, DiaryReceipt, r)
    else if Holds(q, Autochat, id) then Answered(q, Autochat, r)
    else if r.kind.Failure? then
      q.(session := Unless(q.session, id), events := Unless(q.events, id), controls := Unless(q.controls, id))
    else if Holds(q, Session, id) && r.kind.Accepted? then Answered(q, Session, r)
    else if Holds(q, Events, id) then Answered(q, Events, r)
    else if r.kind.MediaReady? || r.kind.MenuReady? then q
    else q.(controls := Unless(q.controls, id))
  }

  function Unless(o: Option<RequestId>, id: RequestId): Option<RequestId> {
    if o == Some(id) then None else o
  }

  function HandledAll(q: Requests, results: seq<Inbound>): Requests {
    if results == [] then q else Handled(HandledAll(q, results[..|results| - 1]), results[|results| - 1])
  }

  /** Whether the global lane gives a result of this kind to the table that awaits it. */
  predicate Reaches(t: Table, r: Inbound) {
    match t
    case Controls => !r.kind.MediaReady? && !r.kind.MenuReady?
    case Session => r.kind.Failure? || r.kind.Accepted?
    case _ => true
  }

  /** The order of the attempts does not matter: the table that awaits the result settles it, if its kind gets there. */
  lemma HandledByTable(q: Requests, used: set<RequestId>, t: Table, r: Inbound)
    requires Separate(q, used) && Holds(q, t, r.request)
    ensures Handled(q, r) == if Reaches(t, r) then Answered(q, t, r) else q
  {
    var id := r.request;
    assert forall s :: Holds(q, s, id) ==> s == t;
    assert Holds(q, Controls, id) ==> t == Controls;
    assert Holds(q, Session, id) ==> t == Session;
    assert Holds(q, Events, id) ==> t == Events;
  }

  lemma HandledByNone(q: Requests, r: Inbound)
    requires forall t :: !Holds(q, t, r.request)
    ensures Handled(q, r) == q
  {
    assert !Holds(q, Controls, r.request) && !Holds(q, Session, r.request) && !Holds(q, Events, r.request);
  }

  // ---------------------------------------------------------------- what an answer changes

  /** Tables that keep an answered request. */
  predicate Lasting(t: Table) {
    t.Disposition? || t.Transfer?
  }

  predicate Serves(pump: Pump, t: Table) {
    match t
    case Controls => pump.ControlsPump?
    case Debug => pump.DebugPump?
    case Diary => pump.DiaryPump?
    case DiaryReceipt => pump.DiaryPump?
    case Autochat => pump.AutochatPump?
    case Disposition => pump.DispositionPump?
    case _ => false
  }

  predicate Names(results: seq<Inbound>, id: RequestId) {
    exists i :: 0 <= i < |results| && results[i].request == id
  }

  lemma AnsweredHolds(q: Requests, t: Table, r: Inbound, s: Table, id: RequestId)
    requires Holds(q, t, r.request)
    ensures Holds(Answered(q, t, r), s, id) <==> Holds(q, s, id) && (Lasting(t) || s != t || id != r.request)
  {
  }

  lemma AnsweredSeparate(q: Requests, used: set<RequestId>, t: Table, r: Inbound)
    requires Separate(q, used) && Holds(q, t, r.request)
    ensures Separate(Answered(q, t, r), used)
  {
    var q' := Answered(q, t, r);
    forall s, id ensures Holds(q', s, id) ==> Holds(q, s, id) {
      AnsweredHolds(q, t, r, s, id);
    }
    hide Holds, Answered;
  }

  lemma FoundExactly(q: Requests, used: set<RequestId>, pump: Pump, t: Table, id: RequestId)
    requires Separate(q, used) && Holds(q, t, id)
    ensures FoundBy(q, pump, id) == if Serves(pump, t) then Some(t) else None
  {
    assert forall s :: Holds(q, s, id) ==> s == t;
  }

  /**
    A pump drains exactly when it has something to wait for: the disposition pump the request it is asked about, the
    rewrite pump any request it remembers, answered or not, and the others a request that one of their tables awaits.
   */
  lemma WaitingExact(q: Requests, pump: Pump, request: RequestId)
    ensures Waiting(q, pump, request)
            <==> match pump
                 case DispositionPump => Holds(q, Disposition, request)
                 case AutochatPump => exists id :: id in q.autochats
                 case _ => exists t, id :: Serves(pump, t) && Holds(q, t, id)
    ensures (exists t, id :: Serves(pump, t) && Holds(q, t, id)) && !pump.DispositionPump? ==> Waiting(q, pump, request)
  {
    match pump {
      case ControlsPump =>
        assert q.controls.Some? ==> Serves(pump, Controls) && Holds(q, Controls, q.controls.value);
      case DebugPump =>
        assert q.debug.Some? ==> Serves(pump, Debug) && Holds(q, Debug, q.debug.value);
      case DiaryPump =>
        assert q.diary.Some? ==> Serves(pump, Diary) && Holds(q, Diary, q.diary.value);
        assert q.diaryReceipt.Some? ==> Serves(pump, DiaryReceipt) && Holds(q, DiaryReceipt, q.diaryReceipt.value);
      case _ =>
    }
  }

  lemma FoundHolds(q: Requests, pump: Pump, id: RequestId)
    ensures FoundBy(q, pump, id).Some? ==>
              Holds(q, FoundBy(q, pump, id).value, id) && Serves(pump, FoundBy(q, pump, id).value)
  {
  }

  /**
    A result settled by a pump leaves the tables as the global lane would, unless its kind keeps it from the table
    there.
   */
  lemma LanesAgree(q: Requests, used: set<RequestId>, pump: Pump, r: Inbound)
    requires Separate(q, used) && FoundBy(q, pump, r.request).Some?
    ensures PumpedOne(q, pump, r) == Handled(q, r) <==> Reaches(FoundBy(q, pump, r.request).value, r)
  {
    var t := FoundBy(q, pump, r.request).value;
    FoundHolds(q, pump, r.request);
    HandledByTable(q, used, t, r);
    if !Reaches(t, r) {
      AnsweredHolds(q, t, r, t, r.request);
    }
  }

  lemma PumpedOneHolds(q: Requests, used: set<RequestId>, pump: Pump, r: Inbound, t: Table, id: RequestId)
    requires Separate(q, used)
    ensures Separate(PumpedOne(q, pump, r), used)
    ensures Holds(PumpedOne(q, pump, r), t, id)
            <==> Holds(q, t, id) && (Lasting(t) || !Serves(pump, t) || id != r.request)
  {
    FoundHolds(q, pump, r.request);
    if FoundBy(q, pump, r.request).Some? {
      AnsweredSeparate(q, used, FoundBy(q, pump, r.request).value, r);
      AnsweredHolds(q, FoundBy(q, pump, r.request).value, r, t, id);
    }
    if Holds(q, t, id) {
      FoundExactly(q, used, pump, t, id);
    }
  }

  /** After a batch, a pump's requests are awaited exactly if they were and no result of the batch answered them. */
  lemma {:induction false} PumpedExact(q: Requests, used: set<RequestId>, pump: Pump, batch: seq<Inbound>, t: Table,
                                       id: RequestId)
    requires Separate(q, used)
    ensures Separate(Pumped(q, pump, batch), used)
    ensures Holds(Pumped(q, pump, batch), t, id)
            <==> Holds(q, t, id) && (Lasting(t) || !Serves(pump, t) || !Names(batch, id))
  {
    if batch != [] {
      var n := |batch| - 1;
      PumpedExact(q, used, pump, batch[..n], t, id);
      PumpedOneHolds(Pumped(q, pump, batch[..n]), used, pump, batch[n], t, id);
      NamesNext(batch[..n], batch[n], id);
      assert batch == batch[..n] + [batch[n]];
    }
  }

  lemma NamesNext(results: seq<Inbound>, r: Inbound, id: RequestId)
    ensures Names(results + [r], id) <==> Names(results, id) || r.request == id
  {
    var all := results + [r];
    if Names(results, id) {
      var i :| 0 <= i < |results| && results[i].request == id;
      assert all[i].request == id;
    }
    if r.request == id {
      assert all[|results|].request == id;
    }
  }

  lemma {:induction false} FlagAt(q: Requests, pump: Pump, batch: seq<Inbound>, i: nat)
    requires i < |batch|
    ensures Flags(q, pump, batch)[i] == FoundBy(Pumped(q, pump, batch[..i]), pump, batch[i].request).Some?
    decreases |batch|
  {
    var n := |batch| - 1;
    if i < n {
      FlagAt(q, pump, batch[..n], i);
      assert batch[..n][..i] == batch[..i];
    }
  }

  /** The pump's tables await the request of `r`, and no earlier result of the batch has used the answer up. */
  ghost predicate Answers(q: Requests, pump: Pump, earlier: seq<Inbound>, r: Inbound) {
    exists t :: Serves(pump, t) && Holds(q, t, r.request) && (Lasting(t) || !Names(earlier, r.request))
  }

  /** A pump settles a result exactly if it awaited the request before the batch and, receipts apart, the result is the
      first of the batch to answer it. */
  lemma FlagsExact(q: Requests, used: set<RequestId>, pump: Pump, batch: seq<Inbound>, i: nat)
    requires Separate(q, used) && i < |batch|
    ensures Flags(q, pump, batch)[i] <==> Answers(q, pump, batch[..i], batch[i])
  {
    hide Separate, Holds, Serves, Flags, FoundBy, Pumped, Names;
    var id, before := batch[i].request, Pumped(q, pump, batch[..i]);
    FlagAt(q, pump, batch, i);
    FoundHolds(before, pump, id);
    if FoundBy(before, pump, id).Some? {
      var t := FoundBy(before, pump, id).value;
      PumpedExact(q, used, pump, batch[..i], t, id);
    }
    if Answers(q, pump, batch[..i], batch[i]) {
      var t :| Serves(pump, t) && Holds(q, t, id) && (Lasting(t) || !Names(batch[..i], id));
      PumpedExact(q, used, pump, batch[..i], t, id);
      FoundExactly(before, used, pump, t, id);
    }
  }

  lemma HandledHolds(q: Requests, used: set<RequestId>, r: Inbound, t: Table, id: RequestId)
    requires Separate(q, used)
    ensures Separate(Handled(q, r), used)
    ensures Holds(Handled(q, r), t, id) <==> Holds(q, t, id) && (Lasting(t) || id != r.request || !Reaches(t, r))
  {
    hide Separate, Holds, Handled, Answered, Reaches;
    if s :| Holds(q, s, r.request) {
      HandledByTable(q, used, s, r);
      AnsweredSeparate(q, used, s, r);
      AnsweredHolds(q, s, r, t, id);
      if Holds(q, t, r.request) {
        OneTable(q, used, s, t, r.request);
      }
    } else {
      HandledByNone(q, r);
    }
  }

  lemma OneTable(q: Requests, used: set<RequestId>, s: Table, t: Table, id: RequestId)
    requires Separate(q, used) && Holds(q, s, id) && Holds(q, t, id)
    ensures s == t
  {
  }

  /** Some result answers request `id` and gets to its table in the global lane. */
  predicate Reached(results: seq<Inbound>, t: Table, id: RequestId) {
    exists i :: 0 <= i < |results| && results[i].request == id && Reaches(t, results[i])
  }

  lemma ReachedNext(results: seq<Inbound>, r: Inbound, t: Table, id: RequestId)
    ensures Reached(results + [r], t, id) <==> Reached(results, t, id) || (r.request == id && Reaches(t, r))
  {
    hide Reaches;
    var all := results + [r];
    if Reached(results, t, id) {
      var i :| 0 <= i < |results| && results[i].request == id && Reaches(t, results[i]);
      assert all[i].request == id && Reaches(t, all[i]);
    }
    if r.request == id && Reaches(t, r) {
      assert all[|results|].request == id && Reaches(t, all[|results|]);
    }
  }

  /** After the global lane has handled its results, a request is awaited exactly if it was and no result reached it. */
  lemma {:induction false} HandledExact(q: Requests, used: set<RequestId>, results: seq<Inbound>, t: Table,
                                        id: RequestId)
    requires Separate(q, used)
    ensures Separate(HandledAll(q, results), used)
    ensures Holds(HandledAll(q, results), t, id) <==> Holds(q, t, id) && (Lasting(t) || !Reached(results, t, id))
  {
    if results != [] {
      var n := |results| - 1;
      HandledExact(q, used, results[..n], t, id);
      hide Separate, Holds, Handled, Reached, Reaches;
      HandledHolds(HandledAll(q, results[..n]), used, results[n], t, id);
      ReachedNext(results[..n], results[n], t, id);
      assert results == results[..n] + [results[n]];
    } else {
      assert !Reached(results, t, id);
    }
  }

  lemma HandledReceipt(q: Requests, used: set<RequestId>, r: Inbound, id: RequestId)
    requires Separate(q, used) && id in q.dispositions
    ensures id in Handled(q, r).dispositions
    ensures Handled(q, r).dispositions[id] ==
            if r.request == id then (if r.kind.Accepted? then Done else Refused) else q.dispositions[id]
  {
    assert Holds(q, Disposition, id);
    if r.request == id {
      HandledByTable(q, used, Disposition, r);
    }
  }

  /** A disposition receipt is still pending exactly if it was and no result answered it. */
  lemma {:induction false} ReceiptExact(q: Requests, used: set<RequestId>, results: seq<Inbound>, id: RequestId)
    requires Separate(q, used) && id in q.dispositions
    ensures id in HandledAll(q, results).dispositions
    ensures HandledAll(q, results).dispositions[id] == Pending
            <==> q.dispositions[id] == Pending && !Names(results, id)
  {
    if results != [] {
      var n := |results| - 1;
      ReceiptExact(q, used, results[..n], id);
      HandledExact(q, used, results[..n], Disposition, id);
      hide Separate, Handled, Names;
      HandledReceipt(HandledAll(q, results[..n]), used, results[n], id);
      NamesNext(results[..n], results[n], id);
      assert results == results[..n] + [results[n]];
    }
  }

  // ---------------------------------------------------------------- accounting

  /** The drained results whose flag is `want`, in drain order. */
  function Pick(drained: seq<Inbound>, pumped: seq<bool>, want: bool): seq<Inbound>
    requires |pumped| == |drained|
  {
    if drained == [] then []
    else
      var n := |drained| - 1;
      Pick(drained[..n], pumped[..n], want) + (if pumped[n] == want then [drained[n]] else [])
  }

  /** The drained results no pump has settled. */
  function Left(drained: seq<Inbound>, pumped: seq<bool>): seq<Inbound>
    requires |pumped| == |drained|
  {
    Pick(drained, pumped, false)
  }

  /** The drained results some pump has settled. */
  function Settled(drained: seq<Inbound>, pumped: seq<bool>): seq<Inbound>
    requires |pumped| == |drained|
  {
    Pick(drained, pumped, true)
  }

  /** What the global lane was handed, followed by what is deferred, is what the pumps left, in drain order. */
  ghost predicate Accounted(drained: seq<Inbound>, pumped: seq<bool>, handed: seq<Inbound>, deferred: seq<Inbound>) {
    |pumped| == |drained| && Left(drained, pumped) == handed + deferred
  }

  lemma PickNext(drained: seq<Inbound>, pumped: seq<bool>, r: Inbound, flag: bool, want: bool)
    requires |pumped| == |drained|
    ensures Pick(drained + [r], pumped + [flag], want)
            == Pick(drained, pumped, want) + (if flag == want then [r] else [])
  {
    assert (drained + [r])[..|drained|] == drained && (pumped + [flag])[..|drained|] == pumped;
  }

  lemma {:induction false} PickUnsettled(drained: seq<Inbound>, pumped: seq<bool>, batch: seq<Inbound>, want: bool)
    requires |pumped| == |drained|
    ensures Pick(drained + batch, pumped + seq(|batch|, _ => false), want)
            == Pick(drained, pumped, want) + (if want then [] else batch)
    decreases |batch|
  {
    if batch == [] {
      assert drained + batch == drained && pumped + seq(|batch|, _ => false) == pumped;
    } else {
      var n := |batch| - 1;
      var before, flags := drained + batch[..n], pumped + seq(n, _ => false);
      PickUnsettled(drained, pumped, batch[..n], want);
      PickNext(before, flags, batch[n], false, want);
      hide Pick;
      assert drained + batch == before + [batch[n]] && pumped + seq(|batch|, _ => false) == flags + [false];
      assert batch == batch[..n] + [batch[n]];
    }
  }

  lemma {:induction false} PickSubsequence(drained: seq<Inbound>, pumped: seq<bool>, want: bool)
    requires |pumped| == |drained|
    ensures Subsequence(Pick(drained, pumped, want), drained)
    decreases |drained|
  {
    if drained != [] {
      var n := |drained| - 1;
      PickSubsequence(drained[..n], pumped[..n], want);
      SubsequenceRefl([drained[n]]);
      NothingFirst([drained[n]]);
      hide Subsequence;
      SubsequenceConcat(Pick(drained[..n], pumped[..n], want), drained[..n],
                        if pumped[n] == want then [drained[n]] else [], [drained[n]]);
      assert drained == drained[..n] + [drained[n]];
    }
  }

  lemma NothingFirst(s: seq<Inbound>)
    ensures Subsequence([], s)
  {
  }

  /** The last drained result is left or settled. */
  lemma PickLast(drained: seq<Inbound>, pumped: seq<bool>)
    requires |pumped| == |drained| > 0
    ensures var n := |drained| - 1;
            && Left(drained, pumped)
               == Left(drained[..n], pumped[..n]) + (if pumped[n] then [] else [drained[n]])
            && Settled(drained, pumped)
               == Settled(drained[..n], pumped[..n]) + (if pumped[n] then [drained[n]] else [])
  {
  }

  lemma {:induction false} PickCounts(drained: seq<Inbound>, pumped: seq<bool>)
    requires |pumped| == |drained|
    ensures multiset(drained) == multiset(Left(drained, pumped)) + multiset(Settled(drained, pumped))
    decreases |drained|
  {
    if drained != [] {
      hide *;
      var n := |drained| - 1;
      PickLast(drained, pumped);
      PickCounts(drained[..n], pumped[..n]);
      BagNext(drained[..n], Left(drained[..n], pumped[..n]), Settled(drained[..n], pumped[..n]), drained[n], pumped[n]);
      assert drained == drained[..n] + [drained[n]];
    }
  }

  lemma BagNext(all: seq<Inbound>, left: seq<Inbound>, settled: seq<Inbound>, x: Inbound, flag: bool)
    requires multiset(all) == multiset(left) + multiset(settled)
    ensures multiset(all + [x])
            == multiset(left + (if flag then [] else [x])) + multiset(settled + (if flag then [x] else []))
  {
    BagMore(all, x);
    BagMore(left, x);
    BagMore(settled, x);
    assert left + [] == left && settled + [] == settled;
  }

  lemma BagMore(a: seq<Inbound>, x: Inbound)
    ensures multiset(a + [x]) == multiset(a) + multiset{x}
  {
  }

  /** No result the queue accepted is lost or handled twice. */
  lemma HandledExactlyOnce(traffic: seq<Traffic>, pumped: seq<bool>, handed: seq<Inbound>, deferred: seq<Inbound>)
    requires Accounted(LineAfter(traffic).drained, pumped, handed, deferred)
    ensures multiset(LineAfter(traffic).arrived)
            == multiset(Settled(LineAfter(traffic).drained, pumped)) + multiset(handed) + multiset(deferred)
               + multiset(LineAfter(traffic).queue.Items())
  {
    AfterNumbered(traffic);
    hide LineAfter, Pick;
    PickCounts(LineAfter(traffic).drained, pumped);
  }

  /** The global lane sees its results in the order in which they left the queue, and the deferred ones come next. */
  lemma HandedInDrainOrder(drained: seq<Inbound>, pumped: seq<bool>, handed: seq<Inbound>, deferred: seq<Inbound>)
    requires Accounted(drained, pumped, handed, deferred)
    ensures Subsequence(handed + deferred, drained)
  {
    PickSubsequence(drained, pumped, false);
  }

  /**
    The order of the global lane is the order of arrival if no accepted cancelled result overtook a waiting one, and for
    results other than cancelled ones it always is. When no pump settled anything the condition is exact.
   */
  lemma HandedInArrivalOrder(traffic: seq<Traffic>, pumped: seq<bool>, handed: seq<Inbound>, deferred: seq<Inbound>)
    requires Accounted(LineAfter(traffic).drained, pumped, handed, deferred)
    ensures !Overtakes(traffic) ==> Ascending(handed + deferred)
    ensures Ascending(Normals(handed + deferred))
    ensures Settled(LineAfter(traffic).drained, pumped) == [] ==>
              (Ascending(handed + deferred + LineAfter(traffic).queue.Items()) <==> !Overtakes(traffic))
  {
    var line := LineAfter(traffic);
    HandedInDrainOrder(line.drained, pumped, handed, deferred);
    ArrivalOrderExact(traffic);
    NormalsInOrder(traffic);
    hide LineAfter, Overtakes, Ascending, Subsequence, Pick, Filter;
    DrainedFirst(line);
    SubsequenceTrans(handed + deferred, line.drained, line.All());
    if !Overtakes(traffic) {
      AscendingPart(handed + deferred, line.All());
    }
    FilterMonotone(handed + deferred, line.All(), (r: Inbound) => !r.control);
    AscendingPart(Normals(handed + deferred), Normals(line.All()));
    if Settled(line.drained, pumped) == [] {
      PickNothing(line.drained, pumped);
    }
  }

  lemma DrainedFirst(l: Line)
    ensures Subsequence(l.drained, l.All())
  {
    SubsequenceRefl(l.drained);
    NothingFirst(l.queue.Items());
    hide Subsequence;
    SubsequenceConcat(l.drained, l.drained, [], l.queue.Items());
    assert l.drained + [] == l.drained;
  }

  lemma {:induction false} PickNothing(drained: seq<Inbound>, pumped: seq<bool>)
    requires |pumped| == |drained| && Settled(drained, pumped) == []
    ensures Left(drained, pumped) == drained
    decreases |drained|
  {
    if drained != [] {
      PickNothing(drained[..|drained| - 1], pumped[..|drained| - 1]);
    }
  }

  /** Two cancelled results and one outcome, published in this order, leave in the opposite order. */
  lemma CancelledOvertake()
    ensures var traffic := [Publishes(1, Other, false), Publishes(2, Other, true), Publishes(3, Other, true),
                            Drains(8)];
            LineAfter(traffic).drained
            == [Inbound(3, Other, 2, true), Inbound(2, Other, 1, true), Inbound(1, Other, 0, false)]
  {
    var t0 := [Publishes(1, Other, false)];
    var t1 := t0 + [Publishes(2, Other, true)];
    var t2 := t1 + [Publishes(3, Other, true)];
    LineAfterNext([], Publishes(1, Other, false));
    LineAfterNext(t0, Publishes(2, Other, true));
    LineAfterNext(t1, Publishes(3, Other, true));
    LineAfterNext(t2, Drains(8));
    assert LineAfter([]) == Line(Queues.Lanes([], [], false), [], []);
    assert LineAfter(t0).queue.Items() == [Inbound(1, Other, 0, false)];
    assert LineAfter(t1).queue.Items() == [Inbound(2, Other, 1, true), Inbound(1, Other, 0, false)];
    assert LineAfter(t2).queue.Items()
        == [Inbound(3, Other, 2, true), Inbound(2, Other, 1, true), Inbound(1, Other, 0, false)];
    assert t2 + [Drains(8)]
        == [Publishes(1, Other, false), Publishes(2, Other, true), Publishes(3, Other, true), Drains(8)];
  }

  // ---------------------------------------------------------------- asking

  /**
    The tables after the preparations for a new request: settled receipts make room, and a rewrite request replaces
    the poll for events.
   */
  function Prepared(q: Requests, t: Table): Requests {
    match t
    case Disposition =>
      if |q.dispositions| >= RECEIPT_LIMIT
      then q.(dispositions := map id | id in q.dispositions && q.dispositions[id] == Pending :: Pending) else q
    case Autochat => if q.autochats == map[] then q.(events := None) else q
    case _ => q
  }

  /** Whether a new request has to be refused. */
  predicate Busy(q: Requests, t: Table) {
    match t
    case Controls => q.controls.Some?
    case Debug => q.debug.Some?
    case Diary => q.diary.Some? || q.diaryReceipt.Some?
    case DiaryReceipt => q.diaryReceipt.Some?
    case Autochat => q.autochats != map[]
    case Disposition => |q.dispositions| >= RECEIPT_LIMIT
    case Transfer => false
    case Session => q.session.Some?
    case Events => q.events.Some?
  }

  function Added(q: Requests, t: Table, id: RequestId): Requests {
    match t
    case Controls => q.(controls := Some(id))
    case Debug => q.(debug := Some(id))
    case Diary => q.(diary := Some(id))
    case DiaryReceipt => q.(diaryReceipt := Some(id))
    case Autochat => q.(autochats := q.autochats[id := true])
    case Disposition => q.(dispositions := q.dispositions[id := Pending])
    case Transfer => q.(transfers := q.transfers + {id})
    case Session => q.(session := Some(id))
    case Events => q.(events := Some(id))
  }

  lemma AddedHolds(q: Requests, t: Table, id: RequestId, s: Table, other: RequestId)
    requires !Busy(q, t)
    ensures Holds(Added(q, t, id), s, other) <==> Holds(q, s, other) || (s == t && other == id)
  {
  }

  /** A request that is sent is awaited in its table, and every other request as before. */
  lemma AddedSeparate(q: Requests, used: set<RequestId>, t: Table, id: RequestId)
    requires Separate(q, used) && !Busy(q, t) && id !in used
    ensures Separate(Added(q, t, id), used + {id})
  {
    var q' := Added(q, t, id);
    forall s, other ensures Holds(q', s, other) <==> Holds(q, s, other) || (s == t && other == id) {
      AddedHolds(q, t, id, s, other);
    }
    hide Holds, Added, Busy;
  }

  /** Preparing gives up the poll for events and settled receipts, nothing that is pending. */
  lemma PreparedHolds(q: Requests, t: Table, s: Table, id: RequestId)
    ensures Holds(Prepared(q, t), s, id) ==> Holds(q, s, id)
    ensures Holds(q, s, id) && !s.Events? && (s.Disposition? ==> q.dispositions[id] == Pending) ==>
              Holds(Prepared(q, t), s, id)
  {
  }

  /** A disposition is refused exactly when 128 receipts are still pending, however many settled ones are kept. */
  lemma DispositionRoom(q: Requests)
    ensures Busy(Prepared(q, Disposition), Disposition)
            <==> |set id | id in q.dispositions && q.dispositions[id] == Pending| >= 128
  {
    var pending := set id | id in q.dispositions && q.dispositions[id] == Pending;
    assert pending <= q.dispositions.Keys;
    SmallerSet(pending, q.dispositions.Keys);
    var kept := map id | id in q.dispositions && q.dispositions[id] == Pending :: Pending;
    assert kept.Keys == pending;
    assert |kept| == |kept.Keys| && |q.dispositions| == |q.dispositions.Keys|;
  }

  /**
    Any other request is refused exactly while its table awaits an answer; a diary one also while a receipt is
    awaited, a rewrite also while an answered one is remembered.
   */
  lemma BusyExact(q: Requests, t: Table)
    requires !t.Disposition?
    ensures Busy(Prepared(q, t), t)
            <==> match t
                 case Diary => exists s: Table, id :: (s.Diary? || s.DiaryReceipt?) && Holds(q, s, id)
                 case Autochat => exists id :: id in q.autochats
                 case Transfer => false
                 case _ => exists id :: Holds(q, t, id)
  {
    match t {
      case Controls => assert q.controls.Some? ==> Holds(q, Controls, q.controls.value);
      case Debug => assert q.debug.Some? ==> Holds(q, Debug, q.debug.value);
      case Diary =>
        assert q.diary.Some? ==> Holds(q, Diary, q.diary.value);
        assert q.diaryReceipt.Some? ==> Holds(q, DiaryReceipt, q.diaryReceipt.value);
      case DiaryReceipt => assert q.diaryReceipt.Some? ==> Holds(q, DiaryReceipt, q.diaryReceipt.value);
      case Session => assert q.session.Some? ==> Holds(q, Session, q.session.value);
      case Events => assert q.events.Some? ==> Holds(q, Events, q.events.value);
      case _ =>
    }
  }

  /** No answer makes a lane forget a rewrite request or a receipt: only giving up and reporting do. */
  lemma {:induction false} Remembered(q: Requests, pump: Pump, batch: seq<Inbound>)
    ensures Pumped(q, pump, batch).autochats.Keys == q.autochats.Keys == HandledAll(q, batch).autochats.Keys
    ensures Pumped(q, pump, batch).dispositions.Keys == q.dispositions.Keys == HandledAll(q, batch).dispositions.Keys
  {
    if batch != [] {
      Remembered(q, pump, batch[..|batch| - 1]);
      RememberedOne(Pumped(q, pump, batch[..|batch| - 1]), pump, batch[|batch| - 1]);
      RememberedOne(HandledAll(q, batch[..|batch| - 1]), pump, batch[|batch| - 1]);
      hide PumpedOne, Handled;
    }
  }

  lemma RememberedOne(q: Requests, pump: Pump, r: Inbound)
    ensures PumpedOne(q, pump, r).autochats.Keys == q.autochats.Keys == Handled(q, r).autochats.Keys
    ensures PumpedOne(q, pump, r).dispositions.Keys == q.dispositions.Keys == Handled(q, r).dispositions.Keys
  {
    forall t | Holds(q, t, r.request)
      ensures Answered(q, t, r).autochats.Keys == q.autochats.Keys
      ensures Answered(q, t, r).dispositions.Keys == q.dispositions.Keys
    {
      AnsweredKeys(q, t, r);
    }
    FoundHolds(q, pump, r.request);
    hide Holds, Answered, FoundBy;
  }

  lemma AnsweredKeys(q: Requests, t: Table, r: Inbound)
    requires Holds(q, t, r.request)
    ensures Answered(q, t, r).autochats.Keys == q.autochats.Keys
    ensures Answered(q, t, r).dispositions.Keys == q.dispositions.Keys
  {
  }

  lemma SmallerSet(a: set<RequestId>, b: set<RequestId>)
    requires a <= b
    ensures |a| <= |b|
  {
    assert b == a + (b - a);
    assert |b| == |a| + |b - a|;
  }

  lemma FewerSeparate(q: Requests, q': Requests, used: set<RequestId>)
    requires Separate(q, used) && forall s, id :: Holds(q', s, id) ==> Holds(q, s, id)
    ensures Separate(q', used)
  {
    hide Holds;
  }

  // ---------------------------------------------------------------- the client

  class Client {
    var inbound: Queues.Lanes<Inbound>
    var deferred: seq<Inbound>
    var requests: Requests
    var resultsSeen: nat
    var arrived: seq<Inbound>  // history; its length numbers the results
    ghost var traffic: seq<Traffic>
    ghost var drained: seq<Inbound>
    ghost var pumped: seq<bool>
    ghost var handed: seq<Inbound>
    ghost var used: set<RequestId>
    ghost var seenBefore: nat

    ghost predicate Valid()
      reads this
    {
      && |deferred| <= 128
      && Line(inbound, arrived, drained) == LineAfter(traffic)
      && Accounted(drained, pumped, handed, deferred)
      && resultsSeen == seenBefore + |Settled(drained, pumped)| + |handed|
      && Separate(requests, used)
    }

    constructor ()
      ensures Valid() && traffic == [] && requests == NO_REQUESTS
    {
      inbound, deferred, requests, resultsSeen := Queues.Lanes([], [], false), [], NO_REQUESTS, 0;
      arrived, traffic, drained, pumped, handed, used, seenBefore := [], [], [], [], [], {}, 0;
    }

    /** The worker, or `cancel`, publishes one more result; the inbound queue may refuse it. */
    method Arrive(request: RequestId, kind: Kind, control: bool) returns (refused: Option<ErrorCode>)
      requires Valid()
      modifies `inbound, `arrived, `traffic
      ensures Valid() && traffic == old(traffic) + [Publishes(request, kind, control)]
      ensures refused == Line(old(inbound), old(arrived), drained).Refuses(control)
      ensures arrived == old(arrived)
                         + if refused.None? then [Inbound(request, kind, |old(arrived)|, control)] else []
    {
      hide Separate, Accounted, Settled;
      LineAfterNext(traffic, Publishes(request, kind, control));
      refused := Queues.Refusal(inbound, Bridge.INBOUND_CAPACITY, Bridge.RESERVED_CONTROL, control);
      if refused.None? {
        var item := Inbound(request, kind, |arrived|, control);
        inbound := inbound.Push(item, control);
        arrived := arrived + [item];
      }
      traffic := traffic + [Publishes(request, kind, control)];
    }

    /** The bridge service's `poll` within one generation. */
    method Take(maximum: nat) returns (batch: seq<Inbound>)
      requires Line(inbound, arrived, drained) == LineAfter(traffic)
      modifies `inbound, `drained, `traffic
      ensures Line(inbound, arrived, drained) == LineAfter(traffic) && traffic == old(traffic) + [Drains(maximum)]
      ensures drained == old(drained) + batch && batch == old(inbound).Items()[..Min(maximum, |old(inbound).Items()|)]
    {
      LineAfterNext(traffic, Drains(maximum));
      var n := Min(maximum, |inbound.Items()|);
      batch := inbound.Items()[..n];
      inbound := inbound.DropFront(n);
      drained := drained + batch;
      traffic := traffic + [Drains(maximum)];
    }

    /** The settlement functions: each takes a result exactly when it answers one of its requests. */
    method Settle(pump: Pump, r: Inbound) returns (settled: bool)
      modifies `requests
      ensures settled <==> FoundBy(old(requests), pump, r.request).Some?
      ensures requests == PumpedOne(old(requests), pump, r)
    {
      match pump {
        case ControlsPump =>
          if requests.controls != Some(r.request) {
            return false;
          }
          requests := requests.(controls := None);
        case DebugPump =>
          if requests.debug != Some(r.request) {
            return false;
          }
          requests := requests.(debug := None);
        case DiaryPump =>
          if requests.diary == Some(r.request) {
            requests := requests.(diary := None);
          } else if requests.diaryReceipt == Some(r.request) {
            requests := requests.(diaryReceipt := None);
          } else {
            return false;
          }
        case AutochatPump =>
          if r.request !in requests.autochats || !requests.autochats[r.request] {
            return false;
          }
          requests := requests.(autochats := requests.autochats[r.request := false]);
        case DispositionPump =>
          if r.request !in requests.dispositions {
            return false;
          }
          var receipt := if r.kind.Accepted? then Done else Refused;
          requests := requests.(dispositions := requests.dispositions[r.request := receipt]);
      }
      return true;
    }

    /** The loop of a pump over the batch it drained last: each result is settled or deferred. */
    method PumpBatch(pump: Pump, batch: seq<Inbound>)
      requires |batch| <= |drained| && drained[|drained| - |batch|..] == batch
      requires Accounted(drained[..|drained| - |batch|], pumped, handed, deferred)
      requires resultsSeen == seenBefore + |Settled(drained[..|drained| - |batch|], pumped)| + |handed|
      modifies `requests, `deferred, `pumped, `resultsSeen
      ensures |deferred| <= |old(deferred)| + |batch|
      ensures Accounted(drained, pumped, handed, deferred)
      ensures resultsSeen == seenBefore + |Settled(drained, pumped)| + |handed|
      ensures requests == Pumped(old(requests), pump, batch)
      ensures pumped == old(pumped) + Flags(old(requests), pump, batch)
    {
      hide *;
      ghost var from := |drained| - |batch|;
      assert old(pumped) + [] == old(pumped) && batch[..0] == [];
      PumpedNone(requests, pump);
      AccountedSizes(drained[..from], pumped, handed, deferred);
      for i := 0 to |batch|
        invariant |deferred| <= |old(deferred)| + i
        invariant requests == Pumped(old(requests), pump, batch[..i])
        invariant pumped == old(pumped) + Flags(old(requests), pump, batch[..i])
        invariant Accounted(drained[..from + i], pumped, handed, deferred) && |pumped| == from + i
        invariant resultsSeen == seenBefore + |Settled(drained[..from + i], pumped)| + |handed|
      {
        assert drained[from..][i] == batch[i];
        assert drained[..from + i + 1] == drained[..from + i] + [batch[i]];
        var settled := Settle(pump, batch[i]);
        PumpKeeps(drained[..from + i], pumped, handed, deferred, batch[i], settled);
        PumpedNext(old(requests), pump, batch, i);
        pumped := pumped + [settled];
        if settled {
          resultsSeen := resultsSeen + 1;
        } else {
          deferred := deferred + [batch[i]];
        }
      }
      assert batch[..|batch|] == batch && drained[..from + |batch|] == drained;
    }

    /**
      One pump: every drained result is settled if it answers the pump's requests and deferred otherwise. It drains
      only when a whole batch would fit, so that it never has to discard a result.
     */
    method RunPump(pump: Pump, request: RequestId)
      requires Valid()
      modifies this
      ensures Valid() && arrived == old(arrived) && handed == old(handed) && used == old(used)
      ensures var drains := Waiting(old(requests), pump, request) && |old(deferred)| + 8 <= 128;
              var batch := old(inbound).Items()[..if drains then Min(8, |old(inbound).Items()|) else 0];
              && drained == old(drained) + batch
              && pumped == old(pumped) + Flags(old(requests), pump, batch)
              && requests == Reported(Pumped(old(requests), pump, batch), pump, request)
    {
      hide LineAfter, Accounted, Settled, Separate, Pumped, Flags, Waiting;
      PumpedNone(requests, pump);
      assert old(inbound).Items()[..0] == [];
      assert old(drained) + [] == old(drained) && old(pumped) + [] == old(pumped);
      ghost var batch0: seq<Inbound> := [];
      if Waiting(requests, pump, request) && |deferred| + BATCH <= CAPACITY {
        var batch := Take(BATCH);
        batch0 := batch;
        assert drained[..|drained| - |batch|] == old(drained);
        PumpBatch(pump, batch);
      }
      PumpedSeparate(old(requests), used, pump, batch0);
      ReportedSeparate(requests, used, pump, request);
      if pump.DispositionPump? && request in requests.dispositions && requests.dispositions[request] != Pending {
        requests := requests.(dispositions := requests.dispositions - {request});
      }
    }

    /** The settlement functions and the remaining cases in the order in which the global lane tries them. */
    method Handle(r: Inbound)
      modifies `requests
      ensures requests == Handled(old(requests), r)
    {
      if r.request in requests.transfers {
        return;
      }
      var done := Settle(DispositionPump, r);
      if !done {
        done := Settle(DebugPump, r);
      }
      if !done {
        done := Settle(DiaryPump, r);
      }
      if !done {
        done := Settle(AutochatPump, r);
      }
      if done {
        return;
      }
      if r.kind.Failure? {
        if requests.session == Some(r.request) {
          requests := requests.(session := None);
        }
        if requests.events == Some(r.request) {
          requests := requests.(events := None);
        }
        done := Settle(ControlsPump, r);
      } else if requests.session == Some(r.request) && r.kind.Accepted? {
        requests := requests.(session := None);
      } else if requests.events == Some(r.request) {
        requests := requests.(events := None);
      } else if !r.kind.MediaReady? && !r.kind.MenuReady? {
        done := Settle(ControlsPump, r);
      }
    }

    /** The loop of the global lane. */
    method HandleResults(results: seq<Inbound>)
      modifies `requests, `handed, `resultsSeen
      ensures handed == old(handed) + results && resultsSeen == old(resultsSeen) + |results|
      ensures requests == HandledAll(old(requests), results)
    {
      hide Handled;
      for i := 0 to |results|
        invariant handed == old(handed) + results[..i] && resultsSeen == old(resultsSeen) + i
        invariant requests == HandledAll(old(requests), results[..i])
      {
        resultsSeen := resultsSeen + 1;
        handed := handed + [results[i]];
        Handle(results[i]);
        assert results[..i + 1][..i] == results[..i];
      }
      assert results[..|results|] == results;
    }

    /** The global lane: the deferred results first, then what it drains itself, all handled in that order. */
    method Poll(maximum: nat)
      requires Valid()
      modifies this
      ensures Valid() && arrived == old(arrived) && used == old(used) && deferred == []
      ensures var results := old(deferred)
              + old(inbound).Items()[..Min(Min(maximum, 128), |old(inbound).Items()|)];
              && handed == old(handed) + results && handed == Left(drained, pumped)
              && requests == HandledAll(old(requests), results)
    {
      hide LineAfter, Accounted, Settled, Left, Separate, HandledAll;
      var results := deferred;
      deferred := [];
      var batch := Take(Min(maximum, CAPACITY));
      PollKeeps(old(drained), pumped, handed, old(deferred), batch);
      results := results + batch;
      pumped := pumped + seq(|batch|, _ => false);
      HandledSeparate(requests, used, results);
      HandleResults(results);
    }

    /**
      One of the request functions. `valid` says that the checks before the tables are looked at succeed, `sent`
      that the checks after them do and the service accepts the request, which it does only for an identifier it has
      not seen.
     */
    method Ask(t: Table, id: RequestId, valid: bool, sent: bool) returns (asked: bool)
      requires Valid() && (sent ==> id !in used)
      modifies `requests, `used
      ensures Valid() && used == old(used) + if asked then {id} else {}
      ensures asked <==> valid && sent && !Busy(Prepared(old(requests), t), t)
      ensures requests == if !valid then old(requests)
                          else if asked then Added(Prepared(old(requests), t), t, id)
                          else Prepared(old(requests), t)
    {
      asked := false;
      if !valid {
        return;
      }
      PreparedSeparate(requests, used, t);
      hide Separate, LineAfter, Accounted, Settled;
      if t.Disposition? && |requests.dispositions| >= RECEIPT_LIMIT {
        requests := requests.(dispositions := map id | id in requests.dispositions
                                                       && requests.dispositions[id] == Pending :: Pending);
      }
      if t.Autochat? && requests.autochats == map[] {
        requests := requests.(events := None);
      }
      if sent && !Busy(requests, t) {
        AddedSeparate(requests, used, t, id);
        requests := Added(requests, t, id);
        used := used + {id};
        asked := true;
      }
    }

    /** `cancelPlayerAutochat`: one rewrite request, or every one, is given up. */
    method CancelAutochats(which: Option<RequestId>) returns (cancelled: bool)
      requires Valid()
      modifies `requests
      ensures Valid() && requests == old(requests).(autochats := requests.autochats)
      ensures cancelled <==> if which.Some? then which.value in old(requests).autochats
              else old(requests).autochats != map[]
      ensures requests.autochats == if which.Some? then old(requests).autochats - {which.value} else map[]
    {
      ghost var q := requests;
      if which.Some? {
        cancelled := which.value in requests.autochats;
        requests := requests.(autochats := requests.autochats - {which.value});
      } else {
        cancelled := requests.autochats != map[];
        requests := requests.(autochats := map[]);
      }
      FewerSeparate(q, requests, used);
    }

    /** `cancelDiaryBook` gives up the diary requests. */
    method CancelDiary()
      requires Valid()
      modifies `requests
      ensures Valid() && requests == old(requests).(diary := None, diaryReceipt := None)
    {
      ghost var q := requests;
      requests := requests.(diary := None, diaryReceipt := None);
      FewerSeparate(q, requests, used);
    }

    /** A new generation starts with nothing deferred and nothing asked for; transfers keep their own records. */
    method CancelGeneration()
      requires Valid()
      modifies this
      ensures Valid() && deferred == [] && traffic == []
      ensures requests == NO_REQUESTS.(transfers := old(requests).transfers)
    {
      ghost var q := requests;
      hide Separate, Holds;
      OnlyTransfers(q, used);
      inbound, deferred, requests := Queues.Lanes([], [], false), [], NO_REQUESTS.(transfers := requests.transfers);
      arrived, traffic, drained, pumped, handed, seenBefore := [], [], [], [], [], resultsSeen;
    }
  }

  lemma AccountedSizes(drained: seq<Inbound>, pumped: seq<bool>, handed: seq<Inbound>, deferred: seq<Inbound>)
    requires Accounted(drained, pumped, handed, deferred)
    ensures |pumped| == |drained|
  {
  }

  /** Moving one drained result to where it belongs keeps the accounts. */
  lemma PumpKeeps(drained: seq<Inbound>, pumped: seq<bool>, handed: seq<Inbound>, deferred: seq<Inbound>, r: Inbound,
                  settled: bool)
    requires Accounted(drained, pumped, handed, deferred)
    ensures Accounted(drained + [r], pumped + [settled], handed, if settled then deferred else deferred + [r])
    ensures Settled(drained + [r], pumped + [settled]) == Settled(drained, pumped) + if settled then [r] else []
  {
    hide Pick;
    PickNext(drained, pumped, r, settled, false);
    PickNext(drained, pumped, r, settled, true);
    assert (handed + deferred) + [r] == handed + (deferred + [r]);
  }

  lemma PumpedSeparate(q: Requests, used: set<RequestId>, pump: Pump, batch: seq<Inbound>)
    requires Separate(q, used)
    ensures Separate(Pumped(q, pump, batch), used)
  {
    PumpedExact(q, used, pump, batch, Controls, 0);
  }

  lemma OnlyTransfers(q: Requests, used: set<RequestId>)
    requires Separate(q, used)
    ensures Separate(NO_REQUESTS.(transfers := q.transfers), used)
  {
    FewerSeparate(q, NO_REQUESTS.(transfers := q.transfers), used);
  }

  lemma PumpedNone(q: Requests, pump: Pump)
    ensures Pumped(q, pump, []) == q && Flags(q, pump, []) == []
  {
  }

  lemma PumpedNext(q: Requests, pump: Pump, batch: seq<Inbound>, i: nat)
    requires i < |batch|
    ensures var before := Pumped(q, pump, batch[..i]);
            && Pumped(q, pump, batch[..i + 1]) == PumpedOne(before, pump, batch[i])
            && Flags(q, pump, batch[..i + 1])
               == Flags(q, pump, batch[..i]) + [FoundBy(before, pump, batch[i].request).Some?]
  {
    assert batch[..i + 1][..i] == batch[..i];
  }

  lemma HandledSeparate(q: Requests, used: set<RequestId>, results: seq<Inbound>)
    requires Separate(q, used)
    ensures Separate(HandledAll(q, results), used)
  {
    HandledExact(q, used, results, Controls, 0);
  }

  lemma PreparedSeparate(q: Requests, used: set<RequestId>, t: Table)
    requires Separate(q, used)
    ensures Separate(Prepared(q, t), used)
  {
    forall s, id ensures Holds(Prepared(q, t), s, id) ==> Holds(q, s, id) {
      PreparedHolds(q, t, s, id);
    }
    FewerSeparate(q, Prepared(q, t), used);
  }

  lemma ReportedSeparate(q: Requests, used: set<RequestId>, pump: Pump, request: RequestId)
    requires Separate(q, used)
    ensures Separate(Reported(q, pump, request), used)
  {
    FewerSeparate(q, Reported(q, pump, request), used);
  }

  /** Handing everything deferred and a whole batch to the global lane keeps the accounts. */
  lemma PollKeeps(drained: seq<Inbound>, pumped: seq<bool>, handed: seq<Inbound>, deferred: seq<Inbound>,
                  batch: seq<Inbound>)
    requires Accounted(drained, pumped, handed, deferred)
    ensures var pumped' := pumped + seq(|batch|, _ => false);
            && Accounted(drained + batch, pumped', handed + (deferred + batch), [])
            && Left(drained + batch, pumped') == handed + (deferred + batch)
            && Settled(drained + batch, pumped') == Settled(drained, pumped)
  {
    hide Pick;
    PickUnsettled(drained, pumped, batch, false);
    PickUnsettled(drained, pumped, batch, true);
    assert (handed + deferred) + batch == handed + (deferred + batch);
    assert handed + (deferred + batch) + [] == handed + (deferred + batch);
  }
}
