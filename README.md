# Output queue of a PTY session (unixpty2)

`UnixPtyProcess2` runs `/bin/bash` on a pseudo-terminal. A background thread
reads the PTY master and queues the bytes it reads. Any thread can drain that
queue with `readOutput`. This project models that output queue and proves that
it is a FIFO: no byte is ever lost, reordered or duplicated.

- `PtyQueue` (`pty_queue.dfy`): value-level definitions. `ReadCount` is the
  count `readOutput` is meant to return. `Drain` is one `readOutput` call. `LoopOutput`
  is everything the read loop of `run()` appends for a given series of `read`
  results. `DrainRepeatedly` is the drain loop at the end of `main`. Each
  comes with lemmas. `ReadCount` and `Drain` give the intended count,
  `min(size, len)`; the count the code as written returns, which differs
  from 2^31 queued bytes on, is in `Narrowing`.
- `PtyProcess` (`pty_process.dfy`): the class `UnixPtyProcess` holds the queue
  as a `seq<char>` field that its methods update in place. `Append` is the
  locked insert, `ReadOutput` copies into the caller's `array<char>` and
  erases the prefix, and `ReadLoop` is the `while (1)` loop. `DrainAtExit` is
  `main`'s `for` loop. Each method is proved against the `PtyQueue`
  functions. Ghost fields `received` and `delivered` record all bytes ever
  appended and handed out, and `Valid()` keeps `delivered + outputQueue ==
  received`.
- `SessionTrace` (`session_trace.dfy`): the reader thread and its consumers
  interleaved. Each locked append or drain is one step of a trace. The main
  lemma is conservation: at every point, the bytes drained so far followed by
  the queue are exactly the chunks the read loop appended.
- `Narrowing` (`narrowing.dfy`): the queue size as the C++ code really reads
  it. It is narrowed from `size_t` to `int`. See "## Findings".

The read loop stops only on `n <= 0`. A short positive read is appended and
the loop keeps going.

Helpers without a row: `PtyQueue.IsReadResult`, `PtyQueue.AllReadResults`,
`PtyQueue.PositiveTotal`, `SessionTrace.WellFormed` and `SessionTrace.Run`
(the fold of `Step` over a trace); the lemmas above state what they mean.

The model does not cover system calls. Each `read` result is an input: a
count and the 512-byte buffer contents. The bytes `main` writes to standard
output are the method's result.

## Model

| member | source | states |
|---|---|---|
| PtyQueue.ReadCount | main.cpp:91-94 | the count is the minimum of queue size and `len`: at most each, equal to one of them, and for a negative `len` it is `len` itself |
| PtyQueue.Drain | main.cpp:88-101 | one `readOutput` splits the queue into the copied prefix and the rest (`out + rest == q`); the prefix has length `max(count, 0)`, so it is the oldest bytes in queue order; an empty queue or `len <= 0` copies nothing and leaves the queue unchanged |
| PtyQueue.DrainThenDrain | main.cpp:95-98 | draining `a` then `b` bytes hands out the same bytes and leaves the same queue as draining `a + b` at once: nothing is lost or duplicated between calls |
| PtyQueue.Chunk | main.cpp:68-74 | a positive read delivers the first `n` bytes of its buffer, `buf[0..n)`: a non-empty prefix of exactly `n` and at most 512 bytes |
| PtyQueue.LoopOutput | main.cpp:66-76 | the read loop's output is at most 512 bytes per read, and it starts with the first positive read's chunk `buf[0..n)` |
| PtyQueue.LoopOutputAppend | main.cpp:66-76 | over reads that are all positive, the loop's output for `a + b` is the output for `a` followed by the output for `b` |
| PtyQueue.LoopOutputExtend | main.cpp:72-74 | while every result so far is positive, one more result extends the loop's output by exactly its chunk |
| PtyQueue.LoopOutputStops | main.cpp:68-71 | the first result with `n <= 0` ends the loop: the output equals the output of the reads before it, and nothing after it is appended |
| PtyQueue.LoopOutputLength | main.cpp:68-74 | the loop appends exactly as many bytes as the positive counts before the stop add up to |
| PtyQueue.DrainRepeatedly | main.cpp:119-124 | after `k` iterations of `readOutput(tmp, 16)`, the emitted bytes followed by the remaining queue are the starting queue, and `min(16k, size)` bytes have been emitted |
| PtyQueue.DrainRepeatedlyEmpties | main.cpp:119-124 | running as many iterations as the queue held bytes emits the whole queue in order and leaves it empty |
| SessionTrace.Step | main.cpp:66-101 | one locked step: a positive read appends its chunk, a read with `n <= 0` stops the loop and appends nothing, a read after the stop does nothing, a drain leaves `Drain`'s rest as the queue and adds `Drain`'s copied bytes to the delivered ones, keeping drained-plus-queued fixed |
| SessionTrace.Reads | main.cpp:66-68 | the results the read loop received: each is a well-formed `read` result, a result is among them exactly when the trace has a read event for it, and there are no more of them than events |
| SessionTrace.ReadsAppend | main.cpp:66-68 | the reads keep trace order: those of `a + b` are those of `a` followed by those of `b` |
| SessionTrace.ReadStepConserves | main.cpp:68-74 | one read step keeps drained bytes, queue and the loop's remaining output together equal to the same total |
| SessionTrace.RunConserves | main.cpp:66-101 | for any interleaving of reads and drains, all drained bytes followed by the queue equal the starting ones followed by the loop's output for the reads in the trace |
| SessionTrace.DeliveredFollowsReads | main.cpp:66-101 | starting from an empty queue, all drained bytes followed by the current queue are exactly the chunks of the positive reads before the first `n <= 0` |
| SessionTrace.StoppedRunIsFrozen | main.cpp:69-71 | once the read loop has stopped, no further step adds a byte: drained-plus-queued stays fixed and the loop stays stopped |
| PtyProcess.UnixPtyProcess.constructor | main.cpp:25 | a new session starts with an empty queue and no history |
| PtyProcess.UnixPtyProcess.Append | main.cpp:72-75 | the queue becomes `old ++ buf[0..n)`, the same bytes are added to the received history, and the no-loss invariant holds |
| PtyProcess.UnixPtyProcess.ReadOutput | main.cpp:88-101 | returns the count of `Drain`, writes exactly the drained bytes to `ptr[0..n)`, leaves the rest of `ptr` alone, and leaves the queue with that prefix removed |
| PtyProcess.UnixPtyProcess.ReadLoop | main.cpp:66-76 | the queue grows by exactly `LoopOutput` of the read results: the positive chunks in order, up to the first `n <= 0` |
| PtyProcess.DrainAtExit | main.cpp:119-124 | `size` iterations of `readOutput(tmp, 16)` write out exactly the queue contents at loop start, in order, and leave the queue empty |
| Narrowing.NarrowToInt | main.cpp:91 | the `int` holding the size agrees with the size modulo 2^32, equals it when it fits an `int`, and when positive is never larger than the size |
| Narrowing.DrainAsWritten | main.cpp:88-101 | `readOutput` as written still splits the queue into copied prefix and rest, and is the same as `Drain` for every queue under 2^31 bytes |
| Narrowing.ReadOutputAsWrittenStalls | main.cpp:91-95 | with 2^31 to 2^32 - 1 bytes queued and `len > 0`, the code as written returns a negative count and copies nothing, where `Drain` copies `len` bytes |
| Narrowing.DrainLoopAsWritten | main.cpp:119-124 | each as-written iteration keeps emitted-plus-remaining equal to the starting queue |
| Narrowing.DrainAtExitAsWritten | main.cpp:119-120 | the as-written exit drain, with its narrowed iteration count, keeps emitted-plus-remaining equal to the starting queue |
| Narrowing.DrainLoopAsWrittenAgrees | main.cpp:119-124 | below 2^31 bytes, every number of as-written iterations gives what `DrainRepeatedly` gives |
| Narrowing.DrainAtExitAsWrittenAgrees | main.cpp:119-124 | below 2^31 bytes, the as-written exit drain emits the whole queue and empties it |
| Narrowing.DrainAtExitAsWrittenSkips | main.cpp:119-120 | with 2^31 to 2^32 bytes queued, the narrowed count is not positive, so the exit drain writes nothing and every byte stays queued |

## Findings

| source | as written | input that shows it | evidently intended | confidence | as-written member | corrected member |
|---|---|---|---|---|---|---|
| main.cpp:91 | `int n = output_queue.size();` narrows a 64-bit size to a 32-bit `int` | 2^31 bytes queued, `readOutput(ptr, 16)`: the count becomes -2^31, so it returns -2^31 and copies nothing | return 16 and hand out the 16 oldest bytes | medium; not executed | Narrowing.ReadOutputAsWrittenStalls | PtyQueue.Drain |
| main.cpp:119 | `int n = t.output_queue.size();` narrows the same way before the drain loop | 2^31 bytes queued at exit: `n` is negative, so the loop runs no iteration and nothing is printed | print every queued byte | medium; not executed | Narrowing.DrainAtExitAsWrittenSkips | PtyProcess.DrainAtExit |

The class and the trace use the corrected count, `min(size, len)`. The
`Narrowing` lemmas prove the two agree for every queue under 2^31 bytes.

## Left out

- PTY allocation (`posix_openpt`, `grantpt`, `unlockpt`, `ptsname`) and the fork, `setsid`, slave open, `dup2` and `execve` steps in child and parent: these are operating-system calls with no logic of their own, and process boundaries cannot be expressed in Dafny.
- `read` on the master: it becomes an input, a sequence of results, each a count and the buffer contents (`ReadResult`).
- PtyProcess.UnixPtyProcess.ReadLoop: the source loop runs until `read` returns `n <= 0`, which may never happen. The model is given a finite sequence of results, so it also ends when that sequence runs out.
- `writeInput`: a bare `write` whose result is discarded; there is no queue state in it.
- `QThread`, `QMutex`, `QWaitCondition` and the start-up handshake in `main`: each locked append or drain is one atomic step, and `SessionTrace` covers their interleavings. The `wakeAll` in `run()` can fire before `main` starts its `wait`. That lost-wakeup race belongs to the threading layer, which is not modelled.
- The unlocked `t.output_queue.size()` in `main`: it runs after `t.wait()`, when the reader thread has finished, so it is modelled as a plain read.
- Exceptions and `qDebug` (and the `QString::asprintf` messages), and `puts("---done---")`: they are diagnostics and plain output text.
- `fwrite` to standard output: `DrainAtExit` returns the bytes it would write instead.
- PtyProcess.UnixPtyProcess.ReadOutput: it requires `len <= ptr.Length`. The C++ caller has to guarantee that room, or `std::copy` overruns the buffer.
