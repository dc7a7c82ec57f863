/** The output byte queue of a PTY session, as values.
 *
 *  The session keeps every byte read from the PTY master in a FIFO of
 *  `char`. The background read loop appends each positive-length chunk to the
 *  back; `readOutput` removes up to `len` of the oldest bytes; at exit, `main`
 *  drains the queue in 16-byte pieces. This module gives each of those steps
 *  as a function on sequences and proves what they promise.
 */
module PtyQueue {

  /** The range of a C++ `int` (32-bit, two's complement). */
  const INT_MAX: int := 0x7fff_ffff
  type Int32 = x: int | -0x8000_0000 <= x <= 0x7fff_ffff

  /** Size of the `char buf[512]` the read loop passes to `read`. */
  const READ_BUF_SIZE: nat := 512

  /** Size of the `char tmp[16]` that `main` passes to `readOutput`. */
  const DRAIN_CHUNK: Int32 := 16

  // ---------------------------------------------------------------------
  // readOutput

  /** The count `readOutput` is meant to return: the minimum of the queue
   *  size and `len`, so a negative `len` is returned as it is. The code reads
   *  the size through a 32-bit `int`; that as-written count, which differs
   *  from this one from 2^31 queued bytes on, is `Narrowing.DrainAsWritten`. */
  function ReadCount(size: nat, len: Int32): (n: Int32)
    ensures n <= size && n <= len
    ensures n == size || n == len
    ensures len < 0 ==> n == len
  {
    if size > len then len else size
  }

  /** What one call of `readOutput` is meant to do, with the count of
   *  `ReadCount`: the count it returns, the bytes it copies into the caller's
   *  buffer, and the queue it leaves behind. */
  datatype DrainResult = DrainResult(count: Int32, out: seq<char>, rest: seq<char>)

  function Drain(q: seq<char>, len: Int32): (d: DrainResult)
    ensures d.count == ReadCount(|q|, len)
    // the copied bytes are the oldest ones and the rest stays in order
    ensures d.out + d.rest == q
    ensures |d.out| == if d.count > 0 then d.count else 0
    // an empty queue or a non-positive length changes nothing
    ensures q == [] || len <= 0 ==> d.out == [] && d.rest == q
  {
    var n := ReadCount(|q|, len);
    if n > 0 then DrainResult(n, q[..n], q[n..]) else DrainResult(n, [], q)
  }

  /** Draining `a` bytes and then `b` bytes hands out the same bytes, and leaves
   *  the same queue, as draining `a + b` bytes at once: no byte is lost or
   *  duplicated between two calls. */
  lemma DrainThenDrain(q: seq<char>, a: Int32, b: Int32)
    requires 0 <= a && 0 <= b && a + b <= INT_MAX
    ensures Drain(q, a).out + Drain(Drain(q, a).rest, b).out == Drain(q, a + b).out
    ensures Drain(Drain(q, a).rest, b).rest == Drain(q, a + b).rest
  {
  }

  // ---------------------------------------------------------------------
  // the read loop in run()

  /** One result of `read(ptm, buf, sizeof(buf))`: the returned count and the
   *  contents of `buf` afterwards. */
  datatype ReadResult = ReadResult(n: int, buf: seq<char>)

  /** `read` returns at most the buffer size, into a buffer of that size. */
  predicate IsReadResult(r: ReadResult)
  {
    |r.buf| == READ_BUF_SIZE && r.n <= READ_BUF_SIZE
  }

  predicate AllReadResults(results: seq<ReadResult>)
  {
    forall i :: 0 <= i < |results| ==> IsReadResult(results[i])
  }

  /** The bytes a positive read delivers: `buf[0..n)`. */
  function Chunk(r: ReadResult): (c: seq<char>)
    requires IsReadResult(r) && r.n > 0
    ensures |c| == r.n
    ensures 0 < |c| <= READ_BUF_SIZE && c == r.buf[..|c|]
  {
    r.buf[..r.n]
  }

  /** Everything the read loop appends, given the results `read` returns in
   *  turn: the chunks of the positive results, in order, up to the first
   *  result that is not positive. */
  function LoopOutput(results: seq<ReadResult>): (out: seq<char>)
    requires AllReadResults(results)
    ensures |out| <= READ_BUF_SIZE * |results|
    ensures results != [] && results[0].n > 0 ==> Chunk(results[0]) <= out
  {
    if results == [] || results[0].n <= 0 then []
    else Chunk(results[0]) + LoopOutput(results[1..])
  }

  /** Over results that are all positive, the loop's output splits at any point. */
  lemma {:induction false} LoopOutputAppend(a: seq<ReadResult>, b: seq<ReadResult>)
    requires AllReadResults(a) && AllReadResults(b)
    requires forall i :: 0 <= i < |a| ==> a[i].n > 0
    ensures AllReadResults(a + b)
    ensures LoopOutput(a + b) == LoopOutput(a) + LoopOutput(b)
  {
    if a != [] {
      assert (a + b)[1..] == a[1..] + b;
      LoopOutputAppend(a[1..], b);
    } else {
      assert a + b == b;
    }
  }

  /** One more positive result extends the loop's output by its chunk. */
  lemma LoopOutputExtend(results: seq<ReadResult>, i: nat)
    requires AllReadResults(results)
    requires i < |results| && forall j :: 0 <= j <= i ==> results[j].n > 0
    ensures LoopOutput(results[..i + 1]) == LoopOutput(results[..i]) + Chunk(results[i])
  {
    assert results[..i + 1] == results[..i] + [results[i]];
    LoopOutputAppend(results[..i], [results[i]]);
    assert LoopOutput([results[i]]) == Chunk(results[i]);
  }

  /** The loop ends at the first result `n <= 0`: that result appends nothing
   *  and so does everything after it. */
  lemma {:induction false} LoopOutputStops(results: seq<ReadResult>, k: nat)
    requires AllReadResults(results)
    requires k < |results| && results[k].n <= 0
    requires forall i :: 0 <= i < k ==> results[i].n > 0
    ensures LoopOutput(results) == LoopOutput(results[..k])
  {
    if k > 0 {
      assert results[..k][1..] == results[1..][..k - 1];
      LoopOutputStops(results[1..], k - 1);
    }
  }

  /** The sum of the positive counts before the first `n <= 0`. */
  function PositiveTotal(results: seq<ReadResult>): nat
  {
    if results == [] || results[0].n <= 0 then 0 else results[0].n + PositiveTotal(results[1..])
  }

  /** The loop appends exactly as many bytes as the positive counts before
   *  the first `n <= 0` add up to. */
  lemma {:induction false} LoopOutputLength(results: seq<ReadResult>)
    requires AllReadResults(results)
    ensures |LoopOutput(results)| == PositiveTotal(results)
  {
    if results != [] && results[0].n > 0 {
      LoopOutputLength(results[1..]);
    }
  }

  // ---------------------------------------------------------------------
  // the drain loop in main()

  /** The bytes emitted, and the queue left, after `k` iterations of
   *  `readOutput(tmp, 16)` followed by `fwrite(tmp, 1, l, stdout)`. */
  function DrainRepeatedly(q: seq<char>, k: nat): (r: (seq<char>, seq<char>))
    ensures r.0 + r.1 == q
    // min(16 k, |q|) bytes have been emitted
    ensures |r.0| <= DRAIN_CHUNK * k && |r.0| <= |q|
    ensures |r.0| == DRAIN_CHUNK * k || |r.0| == |q|
  {
    if k == 0 then ([], q)
    else
      var before := DrainRepeatedly(q, k - 1);
      var d := Drain(before.1, DRAIN_CHUNK);
      assert |before.1| == |q| - |before.0|;
      assert |d.out| == if |before.1| <= DRAIN_CHUNK then |before.1| else DRAIN_CHUNK;
      (before.0 + d.out, d.rest)
  }

  /** Running as many iterations as the queue holds bytes emits the whole
   *  queue, in order, and leaves it empty. */
  lemma DrainRepeatedlyEmpties(q: seq<char>)
    ensures DrainRepeatedly(q, |q|) == (q, [])
  {
    var r := DrainRepeatedly(q, |q|);
    assert |r.0| == |q|;
    assert r.1 == [];
    assert r.0 == r.0 + r.1 == q;
  }
}
