/** The session object's output queue, updated in place.
 *
 *  `UnixPtyProcess` holds the `output_queue` deque of the C++ class. Its
 *  methods are the three places that touch the queue: the append in the read
 *  loop of `run()`, `readOutput`, and the drain loop at the end of `main`. Each
 *  is proved against the value-level functions of `PtyQueue`. The mutex that
 *  guards each append and drain is not modelled: every method call is one
 *  atomic step.
 */
module PtyProcess {
  import opened PtyQueue

  class UnixPtyProcess {
    /** The pending output bytes, oldest first. */
    var outputQueue: seq<char>

    /** Every byte the read loop has appended, and every byte `readOutput`
     *  has copied out, since the session was created. */
    ghost var received: seq<char>
    ghost var delivered: seq<char>

    /** Nothing is lost or duplicated: the bytes handed out, followed by the
     *  bytes still queued, are the bytes received. */
    ghost predicate Valid()
      reads this
    {
      delivered + outputQueue == received
    }

    constructor ()
      ensures Valid()
      ensures outputQueue == [] && received == [] && delivered == []
    {
      outputQueue := [];
      received := [];
      delivered := [];
    }

    /** `output_queue.insert(output_queue.end(), buf, buf + n)` under the lock. */
    method Append(buf: seq<char>, n: int)
      requires Valid()
      requires 0 < n <= |buf|
      modifies this
      ensures Valid()
      ensures outputQueue == old(outputQueue) + buf[..n]
      ensures received == old(received) + buf[..n]
      ensures delivered == old(delivered)
    {
      outputQueue := outputQueue + buf[..n];
      received := received + buf[..n];
    }

    /** `readOutput(ptr, len)`: copy up to `len` of the oldest bytes into
     *  `ptr`, remove them from the queue and return how many there were. The
     *  caller's buffer must hold `len` bytes. */
    method ReadOutput(ptr: array<char>, len: Int32) returns (n: Int32)
      requires Valid()
      requires len <= ptr.Length
      modifies this, ptr
      ensures Valid()
      ensures var d := Drain(old(outputQueue), len);
              && n == d.count
              && outputQueue == d.rest
              && ptr[..|d.out|] == d.out
              && ptr[|d.out|..] == old(ptr[|d.out|..])
              && delivered == old(delivered) + d.out
      ensures received == old(received)
    {
      var m: int := |outputQueue|;
      if m > len {
        m := len;
      }
      if m > 0 {
        for i := 0 to m
          modifies ptr
          invariant forall k :: 0 <= k < i ==> ptr[k] == outputQueue[k]
          invariant forall k :: i <= k < ptr.Length ==> ptr[k] == old(ptr[k])
        {
          ptr[i] := outputQueue[i];
        }
        assert ptr[..m] == outputQueue[..m];
        assert ptr[m..] == old(ptr[m..]);
        assert (delivered + outputQueue[..m]) + outputQueue[m..] == delivered + outputQueue;
        delivered := delivered + outputQueue[..m];
        outputQueue := outputQueue[m..];
      }
      n := m;
    }

    /** The `while (1)` loop of `run()`, fed the results `read` returns in
     *  turn: it stops at the first result `n <= 0`, and appends the first `n`
     *  bytes of the buffer for every positive one before that. */
    method ReadLoop(results: seq<ReadResult>)
      requires Valid()
      requires AllReadResults(results)
      modifies this
      ensures Valid()
      ensures outputQueue == old(outputQueue) + LoopOutput(results)
      ensures received == old(received) + LoopOutput(results)
      ensures delivered == old(delivered)
    {
      var i := 0;
      while i < |results|
        invariant 0 <= i <= |results|
        invariant forall j :: 0 <= j < i ==> results[j].n > 0
        invariant Valid()
        invariant outputQueue == old(outputQueue) + LoopOutput(results[..i])
        invariant received == old(received) + LoopOutput(results[..i])
        invariant delivered == old(delivered)
      {
        var r := results[i];
        if r.n <= 0 {
          LoopOutputStops(results, i);
          break;
        }
        LoopOutputExtend(results, i);
        Append(r.buf, r.n);
        i := i + 1;
      }
      if i == |results| {
        assert results[..i] == results;
      }
    }
  }

  /** The end of `main`: read the queue size once, then call
   *  `readOutput(tmp, 16)` that many times, writing each piece to standard
   *  output. The result is everything written, in order. */
  method DrainAtExit(t: UnixPtyProcess) returns (emitted: seq<char>)
    requires t.Valid()
    modifies t
    ensures t.Valid()
    ensures emitted == old(t.outputQueue) && t.outputQueue == []
    ensures t.delivered == old(t.delivered) + emitted
    ensures t.received == old(t.received)
  {
    ghost var q0 := t.outputQueue;
    var n := |t.outputQueue|;
    emitted := [];
    for i := 0 to n
      invariant t.Valid()
      invariant emitted == DrainRepeatedly(q0, i).0
      invariant t.outputQueue == DrainRepeatedly(q0, i).1
      invariant t.delivered == old(t.delivered) + emitted
      invariant t.received == old(t.received)
    {
      ghost var d := Drain(t.outputQueue, DRAIN_CHUNK);
      var tmp := new char[DRAIN_CHUNK];
      var l := t.ReadOutput(tmp, DRAIN_CHUNK);
      assert tmp[..l] == d.out;
      emitted := emitted + tmp[..l];
    }
    DrainRepeatedlyEmpties(old(t.outputQueue));
  }
}
