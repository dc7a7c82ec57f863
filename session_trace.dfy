/** The output queue under any interleaving of the read loop and its readers.
 *
 *  The read loop and the callers of `readOutput` run on different threads,
 *  but each append and each drain holds the session's mutex, so the queue
 *  sees one atomic step at a time. A trace is the order in which those steps
 *  took the lock; this module folds a trace over the queue and proves that
 *  no byte is lost, reordered or duplicated along the way.
 */
module SessionTrace {
  import opened PtyQueue

  /** One locked step: the read loop handling one result of `read`, or one
   *  call of `readOutput(ptr, len)`. */
  datatype Event = ReadEvent(result: ReadResult) | DrainEvent(len: Int32)

  /** The queue, whether the read loop is still running, and every byte
   *  `readOutput` has handed out so far. */
  datatype Session = Session(queue: seq<char>, reading: bool, delivered: seq<char>)

  predicate WellFormed(events: seq<Event>)
  {
    forall i :: 0 <= i < |events| ==> events[i].ReadEvent? ==> IsReadResult(events[i].result)
  }

  /** One step. Once the loop has seen a result `n <= 0` it has left its
   *  `while`, so later read events change nothing. */
  function Step(s: Session, e: Event): (t: Session)
    requires e.ReadEvent? ==> IsReadResult(e.result)
    ensures t.reading == (s.reading && !(e.ReadEvent? && e.result.n <= 0))
    ensures e.DrainEvent? ==> t.reading == s.reading
                              && t.queue == Drain(s.queue, e.len).rest
                              && t.delivered == s.delivered + Drain(s.queue, e.len).out
    ensures e.DrainEvent? ==> t.delivered + t.queue == s.delivered + s.queue
    ensures e.ReadEvent? && s.reading && e.result.n > 0 ==>
              t.delivered == s.delivered && t.queue == s.queue + Chunk(e.result)
    ensures e.ReadEvent? && !(s.reading && e.result.n > 0) ==>
              t.delivered == s.delivered && t.queue == s.queue
  {
    match e
    case ReadEvent(r) =>
      if !s.reading then s
      else if r.n <= 0 then s.(reading := false)
      else s.(queue := s.queue + Chunk(r))
    case DrainEvent(len) =>
      var d := Drain(s.queue, len);
      assert (s.delivered + d.out) + d.rest == s.delivered + s.queue;
      s.(queue := d.rest, delivered := s.delivered + d.out)
  }

  function Run(s: Session, events: seq<Event>): Session
    requires WellFormed(events)
    decreases |events|
  {
    if events == [] then s else Run(Step(s, events[0]), events[1..])
  }

  /** The results the read loop received, in the order it received them. */
  function Reads(events: seq<Event>): (rs: seq<ReadResult>)
    requires WellFormed(events)
    ensures AllReadResults(rs)
    ensures |rs| <= |events|
    ensures forall r :: r in rs <==> ReadEvent(r) in events
  {
    if events == [] then []
    else if events[0].ReadEvent? then [events[0].result] + Reads(events[1..])
    else Reads(events[1..])
  }

  /** `Reads` keeps trace order: the reads of two consecutive pieces of a
   *  trace are those of the first piece followed by those of the second. */
  lemma {:induction false} ReadsAppend(a: seq<Event>, b: seq<Event>)
    requires WellFormed(a) && WellFormed(b)
    ensures WellFormed(a + b)
    ensures Reads(a + b) == Reads(a) + Reads(b)
  {
    if a != [] {
      assert (a + b)[0] == a[0];
      assert (a + b)[1..] == a[1..] + b;
      ReadsAppend(a[1..], b);
    } else {
      assert a + b == b;
    }
  }

  /** One read step keeps delivered-plus-queued-plus-still-to-come fixed. */
  lemma ReadStepConserves(s: Session, r: ReadResult, later: seq<ReadResult>)
    requires IsReadResult(r) && AllReadResults(later)
    ensures AllReadResults([r] + later)
    ensures var t := Step(s, ReadEvent(r));
            t.delivered + t.queue + (if t.reading then LoopOutput(later) else [])
            == s.delivered + s.queue + (if s.reading then LoopOutput([r] + later) else [])
  {
  }

  /** Conservation: what has been handed out, followed by what is still
   *  queued, is what the read loop appended, under every interleaving. */
  lemma {:induction false} RunConserves(s: Session, events: seq<Event>)
    requires WellFormed(events)
    ensures Run(s, events).delivered + Run(s, events).queue
            == s.delivered + s.queue + (if s.reading then LoopOutput(Reads(events)) else [])
    decreases |events|
  {
    if events != [] {
      var e := events[0];
      var t := Step(s, e);
      RunConserves(t, events[1..]);
      if e.ReadEvent? {
        assert Reads(events) == [e.result] + Reads(events[1..]);
        ReadStepConserves(s, e.result, Reads(events[1..]));
      } else {
        assert Reads(events) == Reads(events[1..]);
      }
    }
  }

  /** A session starts with an empty queue and a running read loop; the
   *  concatenation of every drain followed by the queue is exactly the
   *  chunks of the positive reads before the first `n <= 0`. */
  lemma DeliveredFollowsReads(events: seq<Event>)
    requires WellFormed(events)
    ensures Run(Session([], true, []), events).delivered + Run(Session([], true, []), events).queue
            == LoopOutput(Reads(events))
  {
    RunConserves(Session([], true, []), events);
  }

  /** After the read loop has stopped, the consumer sees nothing new:
   *  delivered-plus-queued stays fixed whatever else happens. */
  lemma {:induction false} StoppedRunIsFrozen(s: Session, events: seq<Event>)
    requires WellFormed(events) && !s.reading
    ensures !Run(s, events).reading
    ensures Run(s, events).delivered + Run(s, events).queue == s.delivered + s.queue
    decreases |events|
  {
    if events != [] {
      StoppedRunIsFrozen(Step(s, events[0]), events[1..]);
    }
  }
}
