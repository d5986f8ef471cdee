/**
 * The log-flush / cancel supervisor of mod.ts (`updateLogsAndCheckCancel`), with time and
 * I/O replaced by events: a log record arrives from the log stream, the one-second timer
 * ticks (carrying the status the control plane answers with), or the log stream ends.
 * Its output is the trace of control-plane calls it makes.
 */
module LogFlush {

  import opened Common

  /** A control-plane call: a log update during the run, a status read, or the final log update. */
  datatype Call = Update(sent: seq<Log>) | Get | FinalUpdate(sent: seq<Log>)

  datatype Event = LogArrives(log: Log) | Tick(status: RemoteStatus) | StreamEnd

  /**
   * logs: the buffer of every record received; dirty: the `logUpdate` flag;
   * cancels: how many times `onCancel` was called; calls: the calls made so far.
   */
  datatype SupState = SupState(logs: seq<Log>, dirty: bool, cancels: nat, calls: seq<Call>)

  const Initial: SupState := SupState([], false, 0, [])

  /**
   * One event. A record only grows the buffer; a tick sends the whole buffer when dirty and
   * only reads the status otherwise, and leaves the flag clear; the end sends the whole buffer.
   * Every tick and the end append exactly one call and keep the earlier ones.
   */
  function Step(s: SupState, e: Event): (r: SupState)
    ensures r.logs == s.logs + (if e.LogArrives? then [e.log] else [])
    ensures |r.calls| == |s.calls| + (if e.LogArrives? then 0 else 1) && r.calls[..|s.calls|] == s.calls
    ensures r.cancels == s.cancels + (if e == Tick(CancelPending) then 1 else 0)
    ensures e.Tick? ==> !r.dirty && r.calls[|s.calls|] == (if s.dirty then Update(s.logs) else Get)
    ensures e.StreamEnd? ==> r.calls[|s.calls|] == FinalUpdate(s.logs)
  {
    match e
    case LogArrives(l) => s.(logs := s.logs + [l], dirty := true)
    case Tick(status) =>
      var cancels := if status == CancelPending then s.cancels + 1 else s.cancels;
      if s.dirty then s.(calls := s.calls + [Update(s.logs)], cancels := cancels, dirty := false)
      else s.(calls := s.calls + [Get], cancels := cancels)
    case StreamEnd => s.(calls := s.calls + [FinalUpdate(s.logs)])
  }

  function Run(s: SupState, es: seq<Event>): SupState
    decreases |es|
  {
    if es == [] then s else Run(Step(s, es[0]), es[1..])
  }

  lemma {:induction false} RunSnoc(s: SupState, es: seq<Event>, e: Event)
    ensures Run(s, es + [e]) == Step(Run(s, es), e)
    decreases |es|
  {
    if es != [] {
      assert (es + [e])[1..] == es[1..] + [e];
      RunSnoc(Step(s, es[0]), es[1..], e);
    }
  }

  /** The records that arrived, in arrival order. */
  function Arrivals(es: seq<Event>): seq<Log>
  {
    if es == [] then [] else (if es[0].LogArrives? then [es[0].log] else []) + Arrivals(es[1..])
  }

  /** The number of ticks answered with a pending-cancel status. */
  function CancelTicks(es: seq<Event>): nat
  {
    if es == [] then 0 else (if es[0] == Tick(CancelPending) then 1 else 0) + CancelTicks(es[1..])
  }

  /** The number of events that make a call: ticks and stream ends. */
  function CallingEvents(es: seq<Event>): nat
  {
    if es == [] then 0 else (if es[0].LogArrives? then 0 else 1) + CallingEvents(es[1..])
  }

  /** What the control plane last received as logs: the last update's buffer, or nothing. */
  function LastSent(calls: seq<Call>): seq<Log>
  {
    if calls == [] then []
    else if calls[|calls| - 1].Get? then LastSent(calls[..|calls| - 1])
    else calls[|calls| - 1].sent
  }

  /**
   * The invariant the supervisor keeps: every log update sent a prefix of the current buffer
   * (the buffer only grows), and while the flag is clear the control plane already holds the
   * whole buffer, so the status read a clean tick makes instead loses nothing.
   */
  ghost predicate Consistent(s: SupState)
  {
    && (forall k :: 0 <= k < |s.calls| && !s.calls[k].Get? ==> s.calls[k].sent <= s.logs)
    && (!s.dirty ==> LastSent(s.calls) == s.logs)
  }

  lemma LastSentSnoc(calls: seq<Call>, c: Call)
    ensures LastSent(calls + [c]) == if c.Get? then LastSent(calls) else c.sent
  {
    assert (calls + [c])[..|calls|] == calls;
  }

  lemma StepConsistent(s: SupState, e: Event)
    requires Consistent(s)
    ensures Consistent(Step(s, e))
  {
    var t := Step(s, e);
    match e
    case LogArrives(l) =>
      assert forall k :: 0 <= k < |t.calls| && !t.calls[k].Get? ==> t.calls[k].sent <= s.logs;
    case Tick(_) =>
      LastSentSnoc(s.calls, t.calls[|t.calls| - 1]);
      assert forall k :: 0 <= k < |s.calls| ==> t.calls[k] == s.calls[k];
    case StreamEnd =>
      LastSentSnoc(s.calls, t.calls[|t.calls| - 1]);
      assert forall k :: 0 <= k < |s.calls| ==> t.calls[k] == s.calls[k];
  }

  /** The invariant holds after every sequence of events. */
  lemma {:induction false} RunConsistent(s: SupState, es: seq<Event>)
    requires Consistent(s)
    ensures Consistent(Run(s, es))
    decreases |es|
  {
    if es != [] {
      StepConsistent(s, es[0]);
      RunConsistent(Step(s, es[0]), es[1..]);
    }
  }

  /** The buffer is exactly what arrived, in arrival order, after what it held before: it never shrinks. */
  lemma {:induction false} BufferIsArrivals(s: SupState, es: seq<Event>)
    ensures Run(s, es).logs == s.logs + Arrivals(es)
    decreases |es|
  {
    if es != [] {
      BufferIsArrivals(Step(s, es[0]), es[1..]);
    }
  }

  /** Calls are only ever appended, one for every tick and one for every stream end. */
  lemma {:induction false} CallsAppendOnly(s: SupState, es: seq<Event>)
    ensures |Run(s, es).calls| == |s.calls| + CallingEvents(es)
    ensures Run(s, es).calls[..|s.calls|] == s.calls
    decreases |es|
  {
    if es != [] {
      CallsAppendOnly(Step(s, es[0]), es[1..]);
      var t := Step(s, es[0]);
      assert t.calls[..|s.calls|] == s.calls;
      assert Run(s, es).calls[..|s.calls|] == Run(t, es[1..]).calls[..|t.calls|][..|s.calls|];
    }
  }

  /** `onCancel` is called once for every tick answered with CancelPending, in either branch. */
  lemma {:induction false} CancelOnEveryPendingTick(s: SupState, es: seq<Event>)
    ensures Run(s, es).cancels == s.cancels + CancelTicks(es)
    decreases |es|
  {
    if es != [] {
      CancelOnEveryPendingTick(Step(s, es[0]), es[1..]);
    }
  }

  /** A tick after events `es`: dirty sends the whole buffer, not a delta; clean only reads, losing nothing. */
  lemma TickSendsWholeBuffer(es: seq<Event>, status: RemoteStatus)
    ensures var s := Run(Initial, es);
            Run(Initial, es + [Tick(status)]).calls ==
              s.calls + [if s.dirty then Update(Arrivals(es)) else Get]
    ensures var s := Run(Initial, es);
            !s.dirty ==> LastSent(s.calls) == Arrivals(es)
    ensures !Run(Initial, es + [Tick(status)]).dirty
  {
    RunSnoc(Initial, es, Tick(status));
    BufferIsArrivals(Initial, es);
    assert Run(Initial, es).logs == Arrivals(es);
    RunConsistent(Initial, es);
  }

  /** When the stream ends, the full buffer is sent unconditionally, whatever the flag says. */
  lemma FinalFlushSendsEverything(es: seq<Event>)
    ensures var calls := Run(Initial, es + [StreamEnd]).calls;
            |calls| > 0 && calls[|calls| - 1] == FinalUpdate(Arrivals(es))
  {
    RunSnoc(Initial, es, StreamEnd);
    BufferIsArrivals(Initial, es);
    assert Run(Initial, es).logs == Arrivals(es);
  }

  class Supervisor {
    var logs: seq<Log>
    var dirty: bool
    var cancels: nat
    var calls: seq<Call>

    function State(): SupState
      reads this
    {
      SupState(logs, dirty, cancels, calls)
    }

    ghost predicate Valid()
      reads this
    {
      Consistent(State())
    }

    constructor ()
      ensures Valid() && State() == Initial
    {
      logs, dirty, cancels, calls := [], false, 0, [];
    }

    /** A record arrives from the log stream: append it and mark the buffer dirty. */
    method OnLog(l: Log)
      requires Valid()
      modifies this
      ensures Valid() && State() == Step(old(State()), LogArrives(l))
      ensures logs == old(logs) + [l] && dirty
    {
      StepConsistent(State(), LogArrives(l));
      logs := logs + [l];
      dirty := true;
    }

    /**
     * The timer ticks and the call it makes is answered with `status`. Returns whether
     * `onCancel` is called.
     */
    method Tick(status: RemoteStatus) returns (cancel: bool)
      requires Valid()
      modifies this
      ensures Valid() && State() == Step(old(State()), Event.Tick(status))
      ensures cancel <==> status == CancelPending
    {
      StepConsistent(State(), Event.Tick(status));
      if dirty {
        calls := calls + [Update(logs)];
        cancel := status == CancelPending;
        dirty := false;
      } else {
        calls := calls + [Get];
        cancel := status == CancelPending;
      }
      if cancel {
        cancels := cancels + 1;
      }
    }

    /** The log stream has ended: stop the timer and send the final update with the full buffer. */
    method End()
      requires Valid()
      modifies this
      ensures Valid() && State() == Step(old(State()), StreamEnd)
      ensures calls == old(calls) + [FinalUpdate(logs)]
    {
      StepConsistent(State(), StreamEnd);
      calls := calls + [FinalUpdate(logs)];
    }
  }
}
