/** The bounded two-priority queue between the engine thread and the worker. */
module Queues {
  import opened Results
  import opened Sequences

  /** What the deque means: control items (newest first) ahead of normal items (oldest first). */
  datatype Lanes<T> = Lanes(controls: seq<T>, normals: seq<T>, closed: bool) {
    function Items(): seq<T> {
      controls + normals
    }

    function Push(item: T, control: bool): Lanes<T> {
      if control then this.(controls := [item] + controls) else this.(normals := normals + [item])
    }

    /** Removes the `n` items nearest the front. */
    function DropFront(n: nat): Lanes<T>
      requires n <= |controls| + |normals|
    {
      if n <= |controls| then this.(controls := controls[n..])
      else Lanes([], normals[n - |controls|..], closed)
    }

    function Keep(keep: T -> bool): Lanes<T> {
      Lanes(Filter(controls, keep), Filter(normals, keep), closed)
    }
  }

  /** Why `tryPush` refuses, or `None` when it accepts. */
  function Refusal<T>(l: Lanes<T>, capacity: nat, reserved: nat, control: bool): Option<ErrorCode> {
    if l.closed then Some(Stopped)
    else if |l.Items()| >= capacity || (!control && |l.Items()| >= capacity - reserved) then Some(QueueFull)
    else None
  }

  ghost predicate WithinCapacity<T>(l: Lanes<T>, capacity: nat, reserved: nat) {
    reserved < capacity && |l.normals| <= capacity - reserved && |l.controls| + |l.normals| <= capacity
  }

  /** One deque changed in place; `controlCount` remembers how many front items came through the control lane. */
  class BoundedQueue<T> {
    const capacity: nat
    const reservedControl: nat
    var items: seq<T>
    var closed: bool
    ghost var controlCount: nat

    ghost predicate Valid()
      reads this
    {
      controlCount <= |items| && WithinCapacity(View(), capacity, reservedControl)
    }

    ghost function View(): Lanes<T>
      reads this
      requires controlCount <= |items|
    {
      Lanes(items[..controlCount], items[controlCount..], closed)
    }

    constructor (capacity: nat, reservedControl: nat)
      requires reservedControl < capacity
      ensures Valid() && View() == Lanes([], [], false)
      ensures this.capacity == capacity && this.reservedControl == reservedControl
    {
      this.capacity, this.reservedControl := capacity, reservedControl;
      items, closed, controlCount := [], false, 0;
    }

    /** The source's constructor throws on a capacity it cannot honour. */
    static method Create(capacity: nat, reservedControl: nat) returns (r: Result<BoundedQueue<T>>)
      ensures r.Err? <==> capacity == 0 || reservedControl >= capacity
      ensures r.Ok? ==> fresh(r.value) && r.value.Valid() && r.value.View() == Lanes([], [], false)
                        && r.value.capacity == capacity && r.value.reservedControl == reservedControl
    {
      if capacity == 0 || reservedControl >= capacity {
        return Err(InvalidArgument);
      }
      var q := new BoundedQueue<T>(capacity, reservedControl);
      return Ok(q);
    }

    method TryPush(item: T, control: bool) returns (refused: Option<ErrorCode>)
      requires Valid()
      modifies this
      ensures Valid()
      ensures refused == Refusal(old(View()), capacity, reservedControl, control)
      ensures View() == if refused.None? then old(View()).Push(item, control) else old(View())
    {
      ghost var before := View();
      assert before.Items() == items;
      if closed {
        return Some(Stopped);
      }
      var normalLimit := capacity - reservedControl;
      if |items| >= capacity || (!control && |items| >= normalLimit) {
        return Some(QueueFull);
      }
      if control {
        items := [item] + items;
        controlCount := controlCount + 1;
      } else {
        items := items + [item];
      }
      return None;
    }

    method TryPop() returns (front: Option<T>)
      requires Valid()
      modifies this
      ensures Valid()
      ensures front.None? <==> old(View()).Items() == []
      ensures front.Some? ==> [front.value] + View().Items() == old(View()).Items()
      ensures View() == if front.None? then old(View()) else old(View()).DropFront(1)
    {
      assert View().Items() == items;
      if |items| == 0 {
        return None;
      }
      front := Some(items[0]);
      ghost var rest := View().DropFront(1);
      items := items[1..];
      if controlCount > 0 {
        controlCount := controlCount - 1;
      }
      assert View() == rest && View().Items() == items;
    }

    method Drain(maximum: nat) returns (output: seq<T>)
      requires Valid()
      modifies this
      ensures Valid()
      ensures |output| == if maximum < |old(View()).Items()| then maximum else |old(View()).Items()|
      ensures output == old(View()).Items()[..|output|]
      ensures View() == old(View()).DropFront(|output|)
    {
      ghost var before, count := View(), controlCount;
      ghost var all := items;
      assert before.Items() == all;
      output := [];
      while |items| != 0 && |output| < maximum
        invariant controlCount == (if |output| <= count then count - |output| else 0)
        invariant |output| <= |all| && |output| <= maximum && closed == before.closed
        invariant output == all[..|output|] && items == all[|output|..]
        decreases |items|
      {
        output := output + [items[0]];
        items := items[1..];
        if controlCount > 0 {
          controlCount := controlCount - 1;
        }
      }
    }

    method Close()
      requires Valid()
      modifies this
      ensures Valid() && View() == old(View()).(closed := true)
    {
      closed := true;
    }

    method Clear()
      requires Valid()
      modifies this
      ensures Valid() && View() == Lanes([], [], old(closed))
    {
      items := [];
      controlCount := 0;
    }

    method EraseIf(erase: T -> bool) returns (removed: nat)
      requires Valid()
      modifies this
      ensures Valid()
      ensures View() == old(View()).Keep(x => !erase(x))
      ensures removed == |old(View()).Items()| - |View().Items()|
    {
      ghost var before := View();
      var size := |items|;
      ghost var count := controlCount;
      assert items == items[..count] + items[count..];
      FilterConcat(items[..count], items[count..], x => !erase(x));
      ghost var front := Filter(items[..count], x => !erase(x));
      items := Filter(items, x => !erase(x));
      controlCount := |front|;
      assert items[..controlCount] == front;
      removed := size - |items|;
    }
  }

  // ---------------------------------------------------------------- whole histories of one queue

  datatype Op<!T> =
    | PushOp(item: T, control: bool)
    | DrainOp(maximum: nat)
    | CloseOp
    | ClearOp
    | EraseOp(erase: T -> bool)

  function Apply<T>(l: Lanes<T>, capacity: nat, reserved: nat, op: Op<T>): Lanes<T> {
    match op
    case PushOp(item, control) =>
      if Refusal(l, capacity, reserved, control).None? then l.Push(item, control) else l
    case DrainOp(maximum) =>
      var n := |l.Items()|;
      l.DropFront(if maximum < n then maximum else n)
    case CloseOp => l.(closed := true)
    case ClearOp => Lanes([], [], l.closed)
    case EraseOp(erase) => l.Keep(x => !erase(x))
  }

  /** The queue after a history of operations on a new queue. */
  function After<T>(capacity: nat, reserved: nat, ops: seq<Op<T>>): Lanes<T> {
    if ops == [] then Lanes([], [], false)
    else Apply(After(capacity, reserved, ops[..|ops| - 1]), capacity, reserved, ops[|ops| - 1])
  }

  /** The item an operation adds to one lane, if it adds one. */
  function PushedBy<T>(l: Lanes<T>, capacity: nat, reserved: nat, op: Op<T>, control: bool): seq<T> {
    if op.PushOp? && op.control == control && Refusal(l, capacity, reserved, control).None? then [op.item] else []
  }

  /** The items a history pushed successfully through one lane, oldest first. */
  function Pushed<T>(capacity: nat, reserved: nat, ops: seq<Op<T>>, control: bool): seq<T> {
    if ops == [] then []
    else
      var earlier := ops[..|ops| - 1];
      Pushed(capacity, reserved, earlier, control)
      + PushedBy(After(capacity, reserved, earlier), capacity, reserved, ops[|ops| - 1], control)
  }

  lemma {:induction false} CapacityInvariant<T>(capacity: nat, reserved: nat, ops: seq<Op<T>>)
    requires reserved < capacity
    ensures WithinCapacity(After(capacity, reserved, ops), capacity, reserved)
  {
    if ops != [] {
      CapacityInvariant(capacity, reserved, ops[..|ops| - 1]);
    }
  }

  /** The reserved slots do their job: only a queue already holding `reserved` control items refuses another. */
  lemma ControlRefusedOnlyByControls<T>(capacity: nat, reserved: nat, ops: seq<Op<T>>)
    requires reserved < capacity
    requires Refusal(After(capacity, reserved, ops), capacity, reserved, true) == Some(QueueFull)
    ensures |After(capacity, reserved, ops).controls| >= reserved
    ensures |After(capacity, reserved, ops).Items()| == capacity
  {
    CapacityInvariant(capacity, reserved, ops);
  }

  lemma NormalLaneStep<T>(l: Lanes<T>, capacity: nat, reserved: nat, op: Op<T>, pushed: seq<T>)
    requires Subsequence(l.normals, pushed)
    ensures Subsequence(Apply(l, capacity, reserved, op).normals, pushed + PushedBy(l, capacity, reserved, op, false))
  {
    var r := Apply(l, capacity, reserved, op);
    assert pushed + [] == pushed;
    if op.PushOp? && PushedBy(l, capacity, reserved, op, false) != [] {
      SubsequenceRefl([op.item]);
      SubsequenceConcat(l.normals, pushed, [op.item], [op.item]);
    } else {
      assert Subsequence(r.normals, l.normals) by {
        SubsequenceRefl(l.normals);
        match op {
          case DrainOp(maximum) =>
            var i := |l.normals| - |r.normals|;
            assert r.normals == l.normals[i..];
            SuffixSubsequence(l.normals, i);
          case EraseOp(erase) => FilterSubsequence(l.normals, x => !erase(x));
          case _ =>
        }
      }
      SubsequenceTrans(r.normals, l.normals, pushed);
    }
  }

  lemma ControlLaneStep<T>(l: Lanes<T>, capacity: nat, reserved: nat, op: Op<T>, pushed: seq<T>)
    requires Subsequence(l.controls, Reverse(pushed))
    ensures Subsequence(Apply(l, capacity, reserved, op).controls,
                        Reverse(pushed + PushedBy(l, capacity, reserved, op, true)))
  {
    var r := Apply(l, capacity, reserved, op);
    assert pushed + [] == pushed;
    if op.PushOp? && PushedBy(l, capacity, reserved, op, true) != [] {
      SubsequenceRefl([op.item]);
      ReverseAppend(pushed, [op.item]);
      assert Reverse([op.item]) == [op.item];
      SubsequenceConcat([op.item], [op.item], l.controls, Reverse(pushed));
    } else {
      assert Subsequence(r.controls, l.controls) by {
        SubsequenceRefl(l.controls);
        match op {
          case DrainOp(maximum) =>
            var i := |l.controls| - |r.controls|;
            assert r.controls == l.controls[i..];
            SuffixSubsequence(l.controls, i);
          case EraseOp(erase) => FilterSubsequence(l.controls, x => !erase(x));
          case _ =>
        }
      }
      SubsequenceTrans(r.controls, l.controls, Reverse(pushed));
    }
  }

  /** Whatever was drained or erased, the normal lane keeps push order and the control lane reverses it. */
  lemma {:induction false} LaneOrder<T>(capacity: nat, reserved: nat, ops: seq<Op<T>>)
    ensures Subsequence(After(capacity, reserved, ops).normals, Pushed(capacity, reserved, ops, false))
    ensures Subsequence(After(capacity, reserved, ops).controls, Reverse(Pushed(capacity, reserved, ops, true)))
  {
    if ops != [] {
      var earlier := ops[..|ops| - 1];
      var l := After(capacity, reserved, earlier);
      LaneOrder(capacity, reserved, earlier);
      NormalLaneStep(l, capacity, reserved, ops[|ops| - 1], Pushed(capacity, reserved, earlier, false));
      ControlLaneStep(l, capacity, reserved, ops[|ops| - 1], Pushed(capacity, reserved, earlier, true));
    }
  }
}
