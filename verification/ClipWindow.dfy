/** The clip window of playback: chunks in, chunks out, and together a slice of the whole stream. */
module ClipWindow {
  import opened Bytes

  function Min(a: nat, b: nat): nat {
    if a < b then a else b
  }

  // ---------------------------------------------------------------- the object

  /** What a window holds: bytes kept back, and how many more are to be dropped. */
  datatype Window = Window(pending: bytes, skip: nat)

  class PlaybackClipWindow {
    var pending: bytes
    var skip: nat
    const tail: nat

    function State(): Window
      reads this
    {
      Window(pending, skip)
    }

    constructor (skip: nat, tail: nat)
      ensures State() == Window([], skip) && this.tail == tail
    {
      pending := [];
      this.skip := skip;
      this.tail := tail;
    }

    method Append(data: bytes)
      modifies this
      ensures State() == Step(old(State()), tail, Put(data)).0
    {
      var dropped := Min(skip, |data|);
      skip := skip - dropped;
      pending := pending + data[dropped..];
    }

    function Available(): (n: nat)
      reads this
      ensures n <= |pending| <= n + tail && (n > 0 ==> n + tail == |pending|)
    {
      if |pending| > tail then |pending| - tail else 0
    }

    method Read(size: nat) returns (data: bytes)
      modifies this
      ensures (State(), data) == Step(old(State()), tail, Take(size))
      ensures |data| == Min(size, old(Available())) && data + pending == old(pending)
    {
      var count := Min(size, Available());
      data := pending[..count];
      pending := pending[count..];
    }
  }

  // ---------------------------------------------------------------- whole runs

  datatype Call = Put(data: bytes) | Take(size: nat)

  /** One call: the window after it and what it returned. */
  function Step(w: Window, tail: nat, call: Call): (Window, bytes) {
    match call
    case Put(data) =>
      var dropped := Min(w.skip, |data|);
      (Window(w.pending + data[dropped..], w.skip - dropped), [])
    case Take(size) =>
      var count := Min(size, if |w.pending| > tail then |w.pending| - tail else 0);
      (Window(w.pending[count..], w.skip), w.pending[..count])
  }

  /** The window after `calls`, and everything read so far. */
  function Run(skip: nat, tail: nat, calls: seq<Call>): (Window, bytes) {
    if calls == [] then (Window([], skip), [])
    else
      var (w, output) := Run(skip, tail, calls[..|calls| - 1]);
      var (w', more) := Step(w, tail, calls[|calls| - 1]);
      (w', output + more)
  }

  /** The bytes given so far. */
  function Stream(calls: seq<Call>): bytes {
    if calls == [] then []
    else
      var last := calls[|calls| - 1];
      Stream(calls[..|calls| - 1]) + (if last.Put? then last.data else [])
  }

  /**
    What has been read, followed by what is held, is the stream without its first `skip` bytes; nothing read lies in
    the last `tail` bytes seen so far.
   */
  ghost predicate Clipped(skip: nat, tail: nat, stream: bytes, w: Window, output: bytes) {
    && w.skip == skip - Min(skip, |stream|)
    && output + w.pending == stream[Min(skip, |stream|)..]
    && (output != [] ==> |w.pending| >= tail)
  }

  lemma PutKeeps(skip: nat, tail: nat, stream: bytes, w: Window, output: bytes, data: bytes)
    requires Clipped(skip, tail, stream, w, output)
    ensures Clipped(skip, tail, stream + data, Step(w, tail, Put(data)).0, output)
  {
    var dropped := Min(w.skip, |data|);
    var from := Min(skip, |stream|);
    assert Min(skip, |stream + data|) == from + dropped;
    if dropped > 0 {
      assert stream[from..] == [];
      assert (stream + data)[from + dropped..] == data[dropped..];
    } else {
      assert data[0..] == data;
      assert (stream + data)[from..] == stream[from..] + data;
    }
    assert output + (w.pending + data[dropped..]) == (output + w.pending) + data[dropped..];
  }

  lemma TakeKeeps(skip: nat, tail: nat, stream: bytes, w: Window, output: bytes, size: nat)
    requires Clipped(skip, tail, stream, w, output)
    ensures var (w', more) := Step(w, tail, Take(size)); Clipped(skip, tail, stream, w', output + more)
  {
    var (w', more) := Step(w, tail, Take(size));
    assert more + w'.pending == w.pending;
    assert (output + more) + w'.pending == output + (more + w'.pending);
  }

  /** For any sequence of calls. */
  lemma {:induction false} AlwaysClipped(skip: nat, tail: nat, calls: seq<Call>)
    ensures var (w, output) := Run(skip, tail, calls); Clipped(skip, tail, Stream(calls), w, output)
  {
    hide Clipped, Step;
    if calls == [] {
      Start(skip, tail);
    } else {
      var before, last := calls[..|calls| - 1], calls[|calls| - 1];
      AlwaysClipped(skip, tail, before);
      var (w, output) := Run(skip, tail, before);
      match last {
        case Put(data) =>
          PutKeeps(skip, tail, Stream(before), w, output, data);
          PutReturnsNothing(w, tail, data);
          assert output + [] == output;
        case Take(size) =>
          TakeKeeps(skip, tail, Stream(before), w, output, size);
          assert Stream(before) + [] == Stream(before);
      }
    }
  }

  lemma Start(skip: nat, tail: nat)
    ensures Clipped(skip, tail, [], Window([], skip), [])
  {
  }

  lemma PutReturnsNothing(w: Window, tail: nat, data: bytes)
    ensures Step(w, tail, Put(data)).1 == []
  {
  }

  /** The stream without its first `skip` and its last `tail` bytes. */
  function Slice(stream: bytes, skip: nat, tail: nat): bytes {
    if skip + tail <= |stream| then stream[skip..|stream| - tail] else []
  }

  /** What has been read is always a prefix of the slice, and all of it once nothing more is available: the sizes of the
      chunks do not matter. */
  lemma RunIsSlice(skip: nat, tail: nat, calls: seq<Call>)
    ensures var (w, output) := Run(skip, tail, calls);
            && output <= Slice(Stream(calls), skip, tail)
            && (|w.pending| <= tail ==> output == Slice(Stream(calls), skip, tail))
  {
    AlwaysClipped(skip, tail, calls);
    var (w, output) := Run(skip, tail, calls);
    hide Run, Stream;
    var stream := Stream(calls);
    var from := Min(skip, |stream|);
    assert |output| + |w.pending| == |stream| - from;
    assert output == stream[from..][..|output|];
    if output == [] {
    } else {
      assert from == skip && |output| <= |stream| - skip - tail;
      PrefixOfSlice(stream, skip, |stream| - tail, |output|);
      assert output == stream[skip..|stream| - tail][..|output|];
    }
  }

  lemma PrefixOfSlice(s: bytes, from: nat, to: nat, n: nat)
    requires from <= to <= |s| && n <= to - from
    ensures s[from..][..n] == s[from..to][..n]
  {
  }

  lemma RunNext(skip: nat, tail: nat, calls: seq<Call>, call: Call)
    ensures var (w, output) := Run(skip, tail, calls);
            var (w', more) := Step(w, tail, call);
            Run(skip, tail, calls + [call]) == (w', output + more)
    ensures Stream(calls + [call]) == Stream(calls) + (if call.Put? then call.data else [])
  {
    assert (calls + [call])[..|calls|] == calls;
  }

  /** A read gets what it asks for, as far as the slice of the stream so far has more than was read already. */
  lemma ReadProgress(skip: nat, tail: nat, calls: seq<Call>, n: nat)
    ensures var before, after := Run(skip, tail, calls).1, Run(skip, tail, calls + [Take(n)]).1;
            var whole := Slice(Stream(calls), skip, tail);
            |before| <= |whole| && |after| == |before| + Min(n, |whole| - |before|)
  {
    RunIsSlice(skip, tail, calls);
    AlwaysClipped(skip, tail, calls);
    RunNext(skip, tail, calls, Take(n));
    hide Run, Stream;
    var (w, output) := Run(skip, tail, calls);
    var stream := Stream(calls);
    assert |output| + |w.pending| == |stream| - Min(skip, |stream|);
  }

  /** So one read of enough bytes drains the window: the output is then the whole slice. */
  lemma ReadDrains(skip: nat, tail: nat, calls: seq<Call>, n: nat)
    requires n >= |Run(skip, tail, calls).0.pending|
    ensures var (w, output) := Run(skip, tail, calls + [Take(n)]);
            |w.pending| <= tail && output == Slice(Stream(calls), skip, tail)
  {
    RunNext(skip, tail, calls, Take(n));
    RunIsSlice(skip, tail, calls + [Take(n)]);
    hide Run;
    assert Stream(calls) + [] == Stream(calls);
  }

  /** So two drained windows that were given the same stream have produced the same bytes. */
  lemma ChunkingDoesNotMatter(skip: nat, tail: nat, a: seq<Call>, b: seq<Call>)
    requires Stream(a) == Stream(b)
    requires |Run(skip, tail, a).0.pending| <= tail && |Run(skip, tail, b).0.pending| <= tail
    ensures Run(skip, tail, a).1 == Run(skip, tail, b).1
  {
    RunIsSlice(skip, tail, a);
    RunIsSlice(skip, tail, b);
  }
}
