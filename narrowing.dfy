/** The queue size as the C++ code reads it.
 *
 *  Both `readOutput` (main.cpp:91) and `main` (main.cpp:119) store
 *  `output_queue.size()`, a 64-bit `size_t`, in a 32-bit `int`. The conversion
 *  keeps the low 32 bits and reads them as two's complement, so a queue of
 *  2^31 bytes or more turns into a negative or a too-small count. This module
 *  models the code as written, shows where it departs from the minimum of
 *  size and length that the rest of the model uses, and proves that the two
 *  agree on every queue below 2^31 bytes.
 */
module Narrowing {
  import opened PtyQueue

  const TWO_TO_32: nat := 0x1_0000_0000

  /** `int n = output_queue.size();` */
  function NarrowToInt(size: nat): (r: Int32)
    ensures (size - r) % TWO_TO_32 == 0
    ensures size <= INT_MAX ==> r == size
    ensures r > 0 ==> r <= size
  {
    var m := size % TWO_TO_32;
    if m <= INT_MAX then m else m - TWO_TO_32
  }

  /** `readOutput` as written: the count starts from the narrowed size. */
  function DrainAsWritten(q: seq<char>, len: Int32): (d: DrainResult)
    ensures d.out + d.rest == q
    ensures |d.out| == if d.count > 0 then d.count else 0
    ensures |q| <= INT_MAX ==> d == Drain(q, len)
  {
    var n0 := NarrowToInt(|q|);
    var n := if n0 > len then len else n0;
    if n > 0 then DrainResult(n, q[..n], q[n..]) else DrainResult(n, [], q)
  }

  /** With 2^31 up to 2^32 - 1 bytes queued, `readOutput(ptr, len)` as
   *  written returns a negative count and hands out nothing, however large
   *  `len` is, although `len` bytes are there to take. */
  lemma ReadOutputAsWrittenStalls(q: seq<char>, len: Int32)
    requires 0x8000_0000 <= |q| < TWO_TO_32 && len > 0
    ensures DrainAsWritten(q, len).count < 0
    ensures DrainAsWritten(q, len).out == [] && DrainAsWritten(q, len).rest == q
    ensures Drain(q, len).count == len && |Drain(q, len).out| == len
  {
  }

  /** `main`'s loop as written: `for (int i = 0; i < n; i++)` with the
   *  narrowed size as `n`, each iteration calling `readOutput` as written. */
  function DrainLoopAsWritten(q: seq<char>, k: nat): (r: (seq<char>, seq<char>))
    ensures r.0 + r.1 == q
  {
    if k == 0 then ([], q)
    else
      var before := DrainLoopAsWritten(q, k - 1);
      var d := DrainAsWritten(before.1, DRAIN_CHUNK);
      (before.0 + d.out, d.rest)
  }

  function DrainAtExitAsWritten(q: seq<char>): (r: (seq<char>, seq<char>))
    ensures r.0 + r.1 == q
  {
    var n := NarrowToInt(|q|);
    DrainLoopAsWritten(q, if n > 0 then n else 0)
  }

  /** Below 2^31 bytes the as-written loop is the corrected one. */
  lemma {:induction false} DrainLoopAsWrittenAgrees(q: seq<char>, k: nat)
    requires |q| <= INT_MAX
    ensures DrainLoopAsWritten(q, k) == DrainRepeatedly(q, k)
  {
    if k > 0 {
      DrainLoopAsWrittenAgrees(q, k - 1);
    }
  }

  lemma DrainAtExitAsWrittenAgrees(q: seq<char>)
    requires |q| <= INT_MAX
    ensures DrainAtExitAsWritten(q) == (q, [])
  {
    DrainLoopAsWrittenAgrees(q, |q|);
    DrainRepeatedlyEmpties(q);
  }

  /** From 2^31 up to 2^32 bytes the narrowed count is not positive, so the
   *  loop at the end of `main` runs no iteration: nothing is written to
   *  standard output and every byte stays queued. */
  lemma DrainAtExitAsWrittenSkips(q: seq<char>)
    requires 0x8000_0000 <= |q| <= TWO_TO_32
    ensures NarrowToInt(|q|) <= 0
    ensures DrainAtExitAsWritten(q) == ([], q)
  {
  }
}
