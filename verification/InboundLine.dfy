/** Results between the worker and the client: the order in which the two-lane inbound queue gives them out. */
module InboundLine {
  import opened Results
  import opened Sequences
  import opened Queues
  import Bridge

  type RequestId = nat

  /** What the answer is, as far as the client's tables tell answers apart. */
  datatype Kind = Accepted | Failure | MediaReady | MenuReady | Other

  /** A result; its arrival number and the lane it came through are history that no code reads. */
  datatype Inbound = Inbound(request: RequestId, kind: Kind, number: nat, control: bool)

  /** What the worker publishes and how many results `poll` drains. */
  datatype Traffic =
    | Publishes(request: RequestId, kind: Kind, control: bool)
    | Drains(maximum: nat)

  /** The queue, everything it accepted, and everything drained from it. */
  datatype Line = Line(queue: Lanes<Inbound>, arrived: seq<Inbound>, drained: seq<Inbound>) {
    /** Results in the order in which they leave the queue, the waiting ones last. */
    function All(): seq<Inbound> {
      drained + queue.Items()
    }

    function Refuses(control: bool): Option<ErrorCode> {
      Refusal(queue, Bridge.INBOUND_CAPACITY, Bridge.RESERVED_CONTROL, control)
    }

    function Next(t: Traffic): Line {
      match t
      case Publishes(request, kind, control) =>
        var item := Inbound(request, kind, |arrived|, control);
        if Refuses(control).None? then Line(queue.Push(item, control), arrived + [item], drained) else this
      case Drains(maximum) =>
        var size := |queue.Items()|;
        var n := if maximum < size then maximum else size;
        Line(queue.DropFront(n), arrived, drained + queue.Items()[..n])
    }
  }

  function LineAfter(traffic: seq<Traffic>): Line {
    if traffic == [] then Line(Lanes([], [], false), [], [])
    else LineAfter(traffic[..|traffic| - 1]).Next(traffic[|traffic| - 1])
  }

  predicate Ascending(s: seq<Inbound>) {
    forall i, j :: 0 <= i < j < |s| ==> s[i].number < s[j].number
  }

  /** An accepted cancelled result found other results waiting, and went in front of them. */
  ghost predicate Overtakes(traffic: seq<Traffic>) {
    exists i :: 0 <= i < |traffic| && StepOvertakes(LineAfter(traffic[..i]), traffic[i])
  }

  predicate StepOvertakes(l: Line, t: Traffic) {
    t.Publishes? && t.control && l.Refuses(true).None? && l.queue.Items() != []
  }

  lemma LineAfterNext(traffic: seq<Traffic>, t: Traffic)
    ensures LineAfter(traffic + [t]) == LineAfter(traffic).Next(t)
  {
    assert (traffic + [t])[..|traffic|] == traffic;
  }

  lemma OvertakesNext(traffic: seq<Traffic>, t: Traffic)
    ensures Overtakes(traffic + [t]) <==> Overtakes(traffic) || StepOvertakes(LineAfter(traffic), t)
  {
    hide LineAfter, StepOvertakes;
    var all := traffic + [t];
    assert all[..|traffic|] == traffic;
    assert forall i :: 0 <= i < |traffic| ==> all[..i] == traffic[..i];
    if Overtakes(traffic) {
      var i :| 0 <= i < |traffic| && StepOvertakes(LineAfter(traffic[..i]), traffic[i]);
      assert StepOvertakes(LineAfter(all[..i]), all[i]);
    }
    if StepOvertakes(LineAfter(traffic), t) {
      assert StepOvertakes(LineAfter(all[..|traffic|]), all[|traffic|]);
    }
  }

  // ---------------------------------------------------------------- nothing lost in the queue

  /** Every accepted result was drained or waits, once; its number is its place in the order of arrival. */
  ghost predicate Numbered(l: Line) {
    && multiset(l.All()) == multiset(l.arrived)
    && (forall i :: 0 <= i < |l.arrived| ==> l.arrived[i].number == i)
    && Sorted(l.queue)
  }

  lemma DrainAll(l: Line, maximum: nat)
    ensures l.Next(Drains(maximum)).All() == l.All() && l.Next(Drains(maximum)).arrived == l.arrived
  {
    var items := l.queue.Items();
    var n := if maximum < |items| then maximum else |items|;
    assert items[..n] + items[n..] == items;
    assert l.Next(Drains(maximum)).queue.Items() == items[n..];
  }

  lemma PublishAll(l: Line, t: Traffic)
    requires t.Publishes? && l.Refuses(t.control).None?
    ensures var item := Inbound(t.request, t.kind, |l.arrived|, t.control);
            && l.Next(t).arrived == l.arrived + [item]
            && l.Next(t).All() == if t.control then l.drained + [item] + l.queue.Items() else l.All() + [item]
  {
  }

  /** What the queue holds came through the lane it waits in. */
  ghost predicate Sorted(q: Lanes<Inbound>) {
    (forall r :: r in q.controls ==> r.control) && (forall r :: r in q.normals ==> !r.control) && !q.closed
  }

  lemma SortedNext(l: Line, t: Traffic)
    requires Sorted(l.queue)
    ensures Sorted(l.Next(t).queue)
  {
  }

  lemma NewestNumbered(all: seq<Inbound>, all': seq<Inbound>, arrived: seq<Inbound>, x: Inbound)
    requires multiset(all) == multiset(arrived) && (forall i :: 0 <= i < |arrived| ==> arrived[i].number == i)
    requires multiset(all') == multiset(all) + multiset{x} && x.number == |arrived|
    ensures multiset(all') == multiset(arrived + [x])
    ensures forall i :: 0 <= i < |arrived + [x]| ==> (arrived + [x])[i].number == i
  {
  }

  lemma NumberBounds(l: Line)
    requires Numbered(l)
    ensures forall r :: r in l.All() ==> r.number < |l.arrived|
  {
    forall r | r in l.All() ensures r.number < |l.arrived| {
      assert r in multiset(l.All());
      assert r in l.arrived;
    }
  }

  lemma NumberedNext(l: Line, t: Traffic)
    requires Numbered(l)
    ensures Numbered(l.Next(t))
  {
    SortedNext(l, t);
    hide Sorted;
    match t {
      case Publishes(request, kind, control) =>
        if l.Refuses(control).None? {
          PublishAll(l, t);
          var item := Inbound(request, kind, |l.arrived|, control);
          var l' := l.Next(t);
          assert multiset(l'.All()) == multiset(l.All()) + multiset{item};
          NewestNumbered(l.All(), l'.All(), l.arrived, item);
        }
      case Drains(maximum) => DrainAll(l, maximum);
    }
  }

  lemma {:induction false} AfterNumbered(traffic: seq<Traffic>)
    ensures Numbered(LineAfter(traffic))
  {
    if traffic != [] {
      AfterNumbered(traffic[..|traffic| - 1]);
      NumberedNext(LineAfter(traffic[..|traffic| - 1]), traffic[|traffic| - 1]);
    }
  }

  // ---------------------------------------------------------------- order

  /** Inserting the newest result keeps the order exactly at the end. */
  lemma InsertNewest(a: seq<Inbound>, x: Inbound, b: seq<Inbound>)
    requires forall r :: r in a + b ==> r.number < x.number
    ensures Ascending(a + [x] + b) <==> Ascending(a + b) && b == []
  {
    var s, t := a + [x] + b, a + b;
    if b != [] {
      assert s[|a|] == x && s[|a| + 1] == b[0] && b[0] in t;
    } else if Ascending(t) {
      assert t == a && s == a + [x];
      assert forall i :: 0 <= i < |a| ==> a[i] in t;
    } else {
      assert forall i :: 0 <= i < |a| ==> s[i] == t[i];
    }
  }

  lemma OrderNext(l: Line, t: Traffic)
    requires Numbered(l)
    ensures Ascending(l.Next(t).All()) <==> Ascending(l.All()) && !StepOvertakes(l, t)
  {
    NumberBounds(l);
    match t {
      case Publishes(request, kind, control) =>
        if l.Refuses(control).None? {
          PublishAll(l, t);
          var item := Inbound(request, kind, |l.arrived|, control);
          hide Ascending;
          if control {
            InsertNewest(l.drained, item, l.queue.Items());
          } else {
            assert l.All() + [] == l.All() && l.All() + [item] + [] == l.All() + [item];
            InsertNewest(l.All(), item, []);
          }
        }
      case Drains(maximum) => DrainAll(l, maximum);
    }
  }

  /** Results leave the queue in their order of arrival if and only if no accepted cancelled result overtook another. */
  lemma {:induction false} ArrivalOrderExact(traffic: seq<Traffic>)
    ensures Ascending(LineAfter(traffic).All()) <==> !Overtakes(traffic)
  {
    if traffic != [] {
      var earlier, t := traffic[..|traffic| - 1], traffic[|traffic| - 1];
      ArrivalOrderExact(earlier);
      AfterNumbered(earlier);
      assert traffic == earlier + [t];
      hide Ascending, Overtakes, StepOvertakes, Numbered;
      LineAfterNext(earlier, t);
      OvertakesNext(earlier, t);
      OrderNext(LineAfter(earlier), t);
    }
  }

  function Normals(s: seq<Inbound>): seq<Inbound> {
    Filter(s, (r: Inbound) => !r.control)
  }

  lemma NormalsInsert(a: seq<Inbound>, x: Inbound, b: seq<Inbound>)
    ensures x.control ==> Normals(a + [x] + b) == Normals(a + b)
    ensures !x.control ==> Normals(a + [x]) == Normals(a) + [x]
  {
    var keep := (r: Inbound) => !r.control;
    assert Filter([x], keep) == if x.control then [] else [x] by {
      assert Filter([x][1..], keep) == [];
    }
    hide Filter;
    FilterConcat(a, [x], keep);
    FilterConcat(a + [x], b, keep);
    FilterConcat(a, b, keep);
  }

  lemma NormalsNext(l: Line, t: Traffic)
    requires Numbered(l) && Ascending(Normals(l.All()))
    ensures Ascending(Normals(l.Next(t).All()))
  {
    NumberBounds(l);
    match t {
      case Publishes(request, kind, control) =>
        if l.Refuses(control).None? {
          PublishAll(l, t);
          var item := Inbound(request, kind, |l.arrived|, control);
          if control {
            NormalsInsert(l.drained, item, l.queue.Items());
          } else {
            NormalsInsert(l.All(), item, []);
            FilterSubsequence(l.All(), (r: Inbound) => !r.control);
            SubsequenceMembers(Normals(l.All()), l.All());
          }
        }
      case Drains(maximum) => DrainAll(l, maximum);
    }
  }

  /** Cancelled results aside, results leave the queue in their order of arrival whatever overtakes them. */
  lemma {:induction false} NormalsInOrder(traffic: seq<Traffic>)
    ensures Ascending(Normals(LineAfter(traffic).All()))
  {
    if traffic != [] {
      var earlier, t := traffic[..|traffic| - 1], traffic[|traffic| - 1];
      NormalsInOrder(earlier);
      AfterNumbered(earlier);
      NormalsNext(LineAfter(earlier), t);
    }
  }

  lemma {:induction false} AscendingPart(a: seq<Inbound>, b: seq<Inbound>)
    requires Subsequence(a, b) && Ascending(b)
    ensures Ascending(a)
    decreases |b|
  {
    if a != [] {
      if a[0] == b[0] && Subsequence(a[1..], b[1..]) {
        AscendingPart(a[1..], b[1..]);
        SubsequenceMembers(a[1..], b[1..]);
        assert forall i :: 1 <= i < |a| ==> a[i] in a[1..];
      } else {
        AscendingPart(a, b[1..]);
      }
    }
  }
}
