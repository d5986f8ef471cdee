/**
 * The per-job body of `runner` (mod.ts): mark the job Running, refuse empty code, run
 * the executor with a fresh supervisor wired to its cancellation signal, map the outcome
 * to a terminal status, and on any thrown `Error` report Error with its stack.
 *
 * Everything a job meets from outside (control-plane replies, how setup goes, and the
 * order in which log records, timer ticks, the timeout and the exit happen) is an input.
 */
module Runner {

  import opened Common
  import Execute
  import Relay
  import LogFlush

  /** The statuses the runner writes to a job. */
  datatype JobStatus = Running | Done | Error | Timeout | CancelDone

  /** The `type` tag of an outcome, the key of the status lookup table. */
  datatype ResultType = SuccessType | ErrorType | TimeoutErrorType | CancelType

  /** The body of a job update; an absent field is `undefined`, which the request leaves out. */
  datatype JobUpdate = JobUpdate(status: Option<JobStatus>, errorReason: Option<string>, result: Option<Json>, logs: Option<seq<Log>>)

  /** A control-plane call about one job. */
  datatype ApiCall = UpdateJob(jobId: string, update: JobUpdate) | GetJob(jobId: string)

  function TypeOf(r: Execute.ExecuteResult): ResultType
  {
    match r
    case Success(_) => SuccessType
    case Error(_) => ErrorType
    case TimeoutError => TimeoutErrorType
    case Cancel => CancelType
  }

  /** Reading a status back as the outcome type it reports; Running reports none. */
  function TypeReported(s: JobStatus): Option<ResultType>
  {
    match s
    case Running => None
    case Done => Some(SuccessType)
    case Error => Some(ErrorType)
    case Timeout => Some(TimeoutErrorType)
    case CancelDone => Some(CancelType)
  }

  /** The status lookup table: every outcome type has a terminal status, and the status gives the type back. */
  function StatusFor(t: ResultType): (s: JobStatus)
    ensures s != Running
    ensures TypeReported(s) == Some(t)
  {
    match t
    case SuccessType => Done
    case ErrorType => Error
    case TimeoutErrorType => Timeout
    case CancelType => CancelDone
  }

  /** The table is one-to-one and reaches every terminal status. */
  lemma StatusTableBijective(a: ResultType, b: ResultType, s: JobStatus)
    ensures StatusFor(a) == StatusFor(b) <==> a == b
    ensures s != Running ==> exists t :: StatusFor(t) == s
  {
    if s != Running {
      assert StatusFor(TypeReported(s).value) == s;
    }
  }

  const RunningUpdate: JobUpdate := JobUpdate(Some(Running), None, None, None)

  /** The terminal update: errorReason only for an error (its message), result only for a success. */
  function FinalReport(r: Execute.ExecuteResult): (u: JobUpdate)
    ensures u.status == Some(StatusFor(TypeOf(r)))
    ensures u.errorReason != None <==> r.Error?
    ensures r.Error? ==> u.errorReason == Some(r.message)
    ensures u.result != None <==> r.Success?
    ensures r.Success? ==> u.result == Some(r.result)
    ensures u.logs == None
  {
    JobUpdate(Some(StatusFor(TypeOf(r))),
              if r.Error? then Some(r.message) else None,
              if r.Success? then Some(r.result) else None,
              None)
  }

  /** The update the catch sends for a thrown `Error`. */
  function ErrorReport(stack: string): JobUpdate
  {
    JobUpdate(Some(Error), Some(stack), None, None)
  }

  const MissingCodeMessage: string := "Runnable code not found"

  /**
   * The error thrown for a job without code: an `Error` whose text names the missing code,
   * and whose stack begins with that text; `frames` is the call-site part of the stack.
   */
  function MissingCode(frames: string): (t: Thrown)
    ensures t.isError && t.text == "Error: " + MissingCodeMessage
    ensures t.text <= t.stack
  {
    Thrown(true, "Error: " + MissingCodeMessage, "Error: " + MissingCodeMessage + frames)
  }

  /** How preparing the execution goes. */
  datatype Setup =
    | TempDirFails(error: Thrown)   // `makeTempDir` threw: outside the executor's try, so the call rejects
    | SetupFails(error: Thrown)     // writing the entry files or spawning threw
    | Spawns

  /** What happens while a spawned job runs, in order. */
  datatype JobEvent =
    | Output(log: Log)                                    // the log stream delivers a record
    | SupervisorTick(status: RemoteStatus)                // a supervisor tick, answered with `status`
    | TimeoutElapses                                      // the timeout timer fires
    | ProcessExits(exit: Execute.ExitStatus, read: Execute.ReadResult)
    | StreamCloses                                        // the log stream closes
    | StreamFails(error: Thrown)                          // the log stream errors

  datatype StreamState = Open | Drained | Broken(error: Thrown)

  /** The combined state of the executor, the supervisor and the log stream during one job. */
  datatype JobRun = JobRun(exec: Execute.ExecState, sup: LogFlush.SupState, stream: StreamState, outcome: Option<Execute.ExecuteResult>)

  function SpawnedRun(): JobRun
  {
    JobRun(Execute.Spawned(Execute.Prepared()), LogFlush.Initial, Open, None)
  }

  /**
   * One event. A tick answered with CancelPending calls `onCancel`, which aborts the
   * executor's signal. A tick can still come after the stream ended: one in flight when the
   * timer was cleared reschedules itself.
   */
  function Dispatch(r: JobRun, e: JobEvent): (next: JobRun)
    ensures !e.ProcessExits? ==> next.outcome == r.outcome
    ensures r.exec.exited ==> next.outcome == r.outcome && next.exec.exited
    ensures e.ProcessExits? && !r.exec.exited ==>
              next.outcome == Some(Execute.Classify(r.exec.killReason, e.exit, e.read)) && !next.exec.workspaceExists
    ensures r.stream != Open ==> next.stream == r.stream && next.sup.logs == r.sup.logs
    ensures |next.sup.calls| >= |r.sup.calls| && next.sup.calls[..|r.sup.calls|] == r.sup.calls
  {
    match e
    case Output(l) => if r.stream == Open then r.(sup := LogFlush.Step(r.sup, LogFlush.LogArrives(l))) else r
    case SupervisorTick(st) =>
      r.(sup := LogFlush.Step(r.sup, LogFlush.Tick(st)),
         exec := if st == CancelPending then Execute.Fire(r.exec, Execute.CancelCalled) else r.exec)
    case TimeoutElapses => r.(exec := Execute.Fire(r.exec, Execute.TimerFires))
    case ProcessExits(st, rd) =>
      if r.exec.exited then r
      else r.(exec := Execute.Finished(r.exec), outcome := Some(Execute.Classify(r.exec.killReason, st, rd)))
    case StreamCloses => if r.stream == Open then r.(sup := LogFlush.Step(r.sup, LogFlush.StreamEnd), stream := Drained) else r
    case StreamFails(err) => if r.stream == Open then r.(stream := Broken(err)) else r
  }

  function DriveAll(r: JobRun, es: seq<JobEvent>): JobRun
    decreases |es|
  {
    if es == [] then r else DriveAll(Dispatch(r, es[0]), es[1..])
  }

  lemma {:induction false} DriveAllAppend(r: JobRun, a: seq<JobEvent>, b: seq<JobEvent>)
    ensures DriveAll(r, a + b) == DriveAll(DriveAll(r, a), b)
    decreases |a|
  {
    if a == [] {
      assert a + b == b;
    } else {
      assert (a + b)[1..] == a[1..] + b;
      DriveAllAppend(Dispatch(r, a[0]), a[1..], b);
    }
  }

  /** A run through the whole sequence passes through the event at position `k`. */
  lemma DriveAllAt(r: JobRun, es: seq<JobEvent>, k: nat)
    requires k < |es|
    ensures DriveAll(r, es) == DriveAll(Dispatch(DriveAll(r, es[..k]), es[k]), es[k + 1..])
  {
    assert es[k..][0] == es[k] && es[k..][1..] == es[k + 1..];
    DriveAllAppend(r, es[..k], es[k..]);
    assert es[..k] + es[k..] == es;
  }

  /** One more event of a sequence moves its run by one `Dispatch`. */
  lemma DriveAllSnoc(r: JobRun, es: seq<JobEvent>, i: nat)
    requires i < |es|
    ensures DriveAll(r, es[..i + 1]) == Dispatch(DriveAll(r, es[..i]), es[i])
  {
    assert es[..i + 1] == es[..i] + [es[i]];
    DriveAllAppend(r, es[..i], [es[i]]);
    assert [es[i]][1..] == [];
  }

  /** The trigger one event carries: the timeout, or an `onCancel` call. */
  function TriggerOf(e: JobEvent): seq<Execute.Trigger>
  {
    match e
    case TimeoutElapses => [Execute.TimerFires]
    case SupervisorTick(CancelPending) => [Execute.CancelCalled]
    case _ => []
  }

  /** The triggers the executor sees: the timeout, and every `onCancel` call. */
  function TriggersOf(es: seq<JobEvent>): seq<Execute.Trigger>
  {
    if es == [] then [] else TriggerOf(es[0]) + TriggersOf(es[1..])
  }

  lemma {:induction false} TriggersOfMembers(es: seq<JobEvent>)
    ensures Execute.TimerFires in TriggersOf(es) <==> TimeoutElapses in es
    ensures Execute.CancelCalled in TriggersOf(es) <==> SupervisorTick(CancelPending) in es
  {
    if es != [] {
      TriggersOfMembers(es[1..]);
      assert es == [es[0]] + es[1..];
    }
  }

  predicate NoExit(es: seq<JobEvent>)
  {
    forall k :: 0 <= k < |es| ==> !es[k].ProcessExits?
  }

  /** One event other than the exit moves the executor by the trigger it carries. */
  lemma DispatchFires(r: JobRun, e: JobEvent)
    requires !e.ProcessExits?
    ensures Dispatch(r, e).exec == Execute.FireAll(r.exec, TriggerOf(e))
  {
    var ts := TriggerOf(e);
    if ts != [] {
      assert ts[1..] == [];
    }
  }

  /** Before the exit, the executor's state is its triggers folded over it, and there is no outcome yet. */
  lemma {:induction false} ExecFollowsTriggers(r: JobRun, es: seq<JobEvent>)
    requires NoExit(es)
    ensures DriveAll(r, es).exec == Execute.FireAll(r.exec, TriggersOf(es))
    ensures DriveAll(r, es).outcome == r.outcome
    decreases |es|
  {
    if es != [] {
      var r' := Dispatch(r, es[0]);
      assert NoExit(es[1..]) by {
        forall k | 0 <= k < |es[1..]| ensures !es[1..][k].ProcessExits? { assert es[1..][k] == es[k + 1]; }
      }
      ExecFollowsTriggers(r', es[1..]);
      Execute.FireAllAppend(r.exec, TriggerOf(es[0]), TriggersOf(es[1..]));
      DispatchFires(r, es[0]);
    }
  }

  /** Once the exit has been classified, the outcome stays as it is. */
  lemma {:induction false} OutcomeStays(r: JobRun, es: seq<JobEvent>)
    requires r.exec.exited && r.outcome != None
    ensures DriveAll(r, es).outcome == r.outcome && DriveAll(r, es).exec.exited
    ensures !DriveAll(r, es).exec.workspaceExists <== !r.exec.workspaceExists
    decreases |es|
  {
    if es != [] {
      OutcomeStays(Dispatch(r, es[0]), es[1..]);
    }
  }

  /**
   * The outcome of a job is decided at the first exit, by the kill reason the triggers
   * before it left (the last one to take effect) and by that exit's status and result file.
   */
  lemma OutcomeAtFirstExit(es: seq<JobEvent>, j: nat)
    requires j < |es| && es[j].ProcessExits? && NoExit(es[..j])
    ensures DriveAll(SpawnedRun(), es).outcome ==
            Some(Execute.Classify(Execute.LastEffective(Execute.Spawned(Execute.Prepared()), TriggersOf(es[..j])),
                                  es[j].exit, es[j].read))
    ensures !DriveAll(SpawnedRun(), es).exec.workspaceExists
  {
    var init := SpawnedRun();
    var pre := es[..j];
    var before := DriveAll(init, pre);
    ExecFollowsTriggers(init, pre);
    Execute.FireAllKeepsLifecycle(init.exec, TriggersOf(pre));
    Execute.LastTriggerWins(init.exec, TriggersOf(pre));
    var mid := Dispatch(before, es[j]);
    OutcomeStays(mid, es[j + 1..]);
    DriveAllAt(init, es, j);
  }

  /** Without an exit the workspace is still there and no outcome is known; the job waits. */
  lemma NoExitNoOutcome(es: seq<JobEvent>)
    requires NoExit(es)
    ensures DriveAll(SpawnedRun(), es).outcome == None
    ensures DriveAll(SpawnedRun(), es).exec.workspaceExists
  {
    ExecFollowsTriggers(SpawnedRun(), es);
    Execute.FireAllKeepsLifecycle(SpawnedRun().exec, TriggersOf(es));
  }

  /** A CancelPending answer before the exit, with no timeout before it, ends the job with CancelDone. */
  lemma CancelPendingEndsCancelDone(es: seq<JobEvent>, i: nat, j: nat, flushReply: Reply)
    requires j < |es| && es[j].ProcessExits? && NoExit(es[..j])
    requires i < j && es[i] == SupervisorTick(CancelPending)
    requires TimeoutElapses !in es[..j]
    ensures DriveAll(SpawnedRun(), es).outcome == Some(Execute.Cancel)
    ensures var rep := Conclude(DriveAll(SpawnedRun(), es), flushReply);
            rep.Finished? ==> FinalReport(rep.outcome).status == Some(CancelDone)
  {
    var run := DriveAll(SpawnedRun(), es);
    assert run.outcome == Some(Execute.Cancel) by {
      OutcomeAtFirstExit(es, j);
      assert es[..j][i] == es[i];
      TriggersOfMembers(es[..j]);
    }
    CancelReportsCancelDone(run, flushReply);
  }

  lemma CancelReportsCancelDone(run: JobRun, flushReply: Reply)
    requires run.outcome == Some(Execute.Cancel)
    ensures Conclude(run, flushReply).Finished? ==> FinalReport(Conclude(run, flushReply).outcome).status == Some(CancelDone)
  {
  }

  /** A timeout before the exit, with no CancelPending answer before it, ends the job with Timeout. */
  lemma TimeoutEndsTimeout(es: seq<JobEvent>, i: nat, j: nat)
    requires j < |es| && es[j].ProcessExits? && NoExit(es[..j])
    requires i < j && es[i] == TimeoutElapses
    requires SupervisorTick(CancelPending) !in es[..j]
    ensures DriveAll(SpawnedRun(), es).outcome == Some(Execute.TimeoutError)
  {
    OutcomeAtFirstExit(es, j);
    assert es[..j][i] == es[i];
    TriggersOfMembers(es[..j]);
  }

  /** The events the supervisor sees: records and the end only while the stream is open, ticks always. */
  function SupEventsOf(es: seq<JobEvent>, open: bool): seq<LogFlush.Event>
  {
    if es == [] then []
    else match es[0]
      case Output(l) => (if open then [LogFlush.LogArrives(l)] else []) + SupEventsOf(es[1..], open)
      case SupervisorTick(st) => [LogFlush.Tick(st)] + SupEventsOf(es[1..], open)
      case StreamCloses => (if open then [LogFlush.StreamEnd] else []) + SupEventsOf(es[1..], false)
      case StreamFails(_) => SupEventsOf(es[1..], false)
      case _ => SupEventsOf(es[1..], open)
  }

  lemma RunCons(s: LogFlush.SupState, h: LogFlush.Event, rest: seq<LogFlush.Event>)
    ensures LogFlush.Run(s, [h] + rest) == LogFlush.Run(LogFlush.Step(s, h), rest)
  {
    assert ([h] + rest)[1..] == rest;
  }

  /** The supervisor part of a job run is the supervisor's own run over the events it sees. */
  lemma {:induction false} SupFollowsEvents(r: JobRun, es: seq<JobEvent>)
    ensures DriveAll(r, es).sup == LogFlush.Run(r.sup, SupEventsOf(es, r.stream == Open))
    ensures DriveAll(r, es).stream == Open ==> r.stream == Open
    decreases |es|
  {
    if es != [] {
      var r' := Dispatch(r, es[0]);
      SupFollowsEvents(r', es[1..]);
      var open := r.stream == Open;
      var rest := SupEventsOf(es[1..], r'.stream == Open);
      match es[0]
      case Output(l) =>
        if open { RunCons(r.sup, LogFlush.LogArrives(l), rest); }
        else { assert SupEventsOf(es, open) == rest; }
      case SupervisorTick(st) =>
        RunCons(r.sup, LogFlush.Tick(st), rest);
      case StreamCloses =>
        if open { RunCons(r.sup, LogFlush.StreamEnd, rest); }
        else { assert SupEventsOf(es, open) == rest; }
      case StreamFails(_) =>
        assert SupEventsOf(es, open) == rest;
      case TimeoutElapses =>
        assert SupEventsOf(es, open) == rest;
      case ProcessExits(_, _) =>
        assert SupEventsOf(es, open) == rest;
    }
  }

  /** The records the stream delivered. */
  function Outputs(es: seq<JobEvent>): seq<Log>
  {
    if es == [] then [] else (if es[0].Output? then [es[0].log] else []) + Outputs(es[1..])
  }

  predicate StreamStillOpen(es: seq<JobEvent>)
  {
    forall k :: 0 <= k < |es| ==> !es[k].StreamCloses? && !es[k].StreamFails?
  }

  lemma {:induction false} OpenArrivals(es: seq<JobEvent>)
    requires StreamStillOpen(es)
    ensures LogFlush.Arrivals(SupEventsOf(es, true)) == Outputs(es)
  {
    if es != [] {
      assert StreamStillOpen(es[1..]) by {
        forall k | 0 <= k < |es[1..]| ensures !es[1..][k].StreamCloses? && !es[1..][k].StreamFails? {
          assert es[1..][k] == es[k + 1];
        }
      }
      OpenArrivals(es[1..]);
      var rest := SupEventsOf(es[1..], true);
      match es[0]
      case Output(l) => assert ([LogFlush.LogArrives(l)] + rest)[1..] == rest;
      case SupervisorTick(st) => assert ([LogFlush.Tick(st)] + rest)[1..] == rest;
      case _ =>
    }
  }

  lemma {:induction false} OpenStaysOpen(r: JobRun, es: seq<JobEvent>)
    requires StreamStillOpen(es) && r.stream == Open
    ensures DriveAll(r, es).stream == Open
    decreases |es|
  {
    if es != [] {
      assert StreamStillOpen(es[1..]) by {
        forall k | 0 <= k < |es[1..]| ensures !es[1..][k].StreamCloses? && !es[1..][k].StreamFails? {
          assert es[1..][k] == es[k + 1];
        }
      }
      OpenStaysOpen(Dispatch(r, es[0]), es[1..]);
    }
  }

  /**
   * When the stream closes, the supervisor sends every record that arrived before, in
   * order, as a final update; later ticks only add calls after it.
   */
  lemma FinalFlushAfterClose(es: seq<JobEvent>, k: nat)
    requires k < |es| && es[k] == StreamCloses && StreamStillOpen(es[..k])
    ensures var calls := DriveAll(SpawnedRun(), es).sup.calls;
            exists n :: 0 <= n < |calls| && calls[n] == LogFlush.FinalUpdate(Outputs(es[..k]))
    ensures DriveAll(SpawnedRun(), es).stream == Drained
  {
    var init := SpawnedRun();
    assert es == es[..k] + [es[k]] + es[k + 1..];
    DriveAllAppend(init, es[..k] + [es[k]], es[k + 1..]);
    DriveAllAppend(init, es[..k], [es[k]]);
    var before := DriveAll(init, es[..k]);
    SupFollowsEvents(init, es[..k]);
    OpenStaysOpen(init, es[..k]);
    OpenArrivals(es[..k]);
    LogFlush.BufferIsArrivals(LogFlush.Initial, SupEventsOf(es[..k], true));
    var closed := Dispatch(before, StreamCloses);
    assert DriveAll(before, [es[k]]) == closed;
    var n := |before.sup.calls|;
    assert closed.sup.calls[n] == LogFlush.FinalUpdate(Outputs(es[..k]));
    SupFollowsEvents(closed, es[k + 1..]);
    LogFlush.CallsAppendOnly(closed.sup, SupEventsOf(es[k + 1..], false));
    ClosedStaysClosed(closed, es[k + 1..]);
    var calls := DriveAll(init, es).sup.calls;
    assert calls[..|closed.sup.calls|] == closed.sup.calls;
    assert calls[n] == calls[..|closed.sup.calls|][n];
  }

  lemma {:induction false} ClosedStaysClosed(r: JobRun, es: seq<JobEvent>)
    requires r.stream == Drained
    ensures DriveAll(r, es).stream == Drained
    decreases |es|
  {
    if es != [] {
      ClosedStaysClosed(Dispatch(r, es[0]), es[1..]);
    }
  }

  lemma {:induction false} BrokenStaysBroken(r: JobRun, es: seq<JobEvent>)
    requires r.stream.Broken?
    ensures DriveAll(r, es).stream == r.stream
    decreases |es|
  {
    if es != [] {
      BrokenStaysBroken(Dispatch(r, es[0]), es[1..]);
    }
  }

  /** How the supervisor and the awaited result leave the job's execution. */
  datatype ExecutionReport =
    | Finished(calls: seq<LogFlush.Call>, outcome: Execute.ExecuteResult)
    | Threw(calls: seq<LogFlush.Call>, error: Thrown)
    | Stalled(calls: seq<LogFlush.Call>)   // still waiting for the stream to end or the process to exit

  /**
   * The report of a run: a stream error or a failed final update throws before the result
   * is awaited; otherwise the result is the outcome once the process has exited.
   */
  function Conclude(r: JobRun, flushReply: Reply): (rep: ExecutionReport)
    ensures rep.calls == r.sup.calls
    ensures r.stream.Broken? ==> rep == Threw(r.sup.calls, r.stream.error)
    ensures rep.Finished? <==> r.stream == Drained && flushReply.Answered? && r.outcome.Some?
    ensures rep.Finished? ==> rep.outcome == r.outcome.value
    ensures rep.Stalled? <==> r.stream == Open || (r.stream == Drained && flushReply.Answered? && r.outcome == None)
  {
    match r.stream
    case Broken(e) => Threw(r.sup.calls, e)
    case Open => Stalled(r.sup.calls)
    case Drained =>
      if flushReply.Failed? then Threw(r.sup.calls, flushReply.error)
      else if r.outcome.Some? then Finished(r.sup.calls, r.outcome.value)
      else Stalled(r.sup.calls)
  }

  /** One event delivered to the executor's callbacks and the supervisor, as `Dispatch` says. */
  method Deliver(exec: Execute.Execution, sup: LogFlush.Supervisor, stream: StreamState, outcome: Option<Execute.ExecuteResult>, e: JobEvent)
    returns (stream': StreamState, outcome': Option<Execute.ExecuteResult>)
    requires sup.Valid() && exec.spawned
    modifies exec, sup
    ensures sup.Valid() && exec.spawned
    ensures JobRun(exec.State(), sup.State(), stream', outcome') ==
            Dispatch(JobRun(old(exec.State()), old(sup.State()), stream, outcome), e)
  {
    stream', outcome' := stream, outcome;
    match e {
      case Output(l) =>
        if stream == Open { sup.OnLog(l); }
      case SupervisorTick(st) =>
        var cancel := sup.Tick(st);
        if cancel { exec.OnCancel(); }
      case TimeoutElapses =>
        exec.OnTimeout();
      case ProcessExits(st, rd) =>
        if !exec.exited {
          var r := exec.OnExit(st, rd);
          outcome' := Some(r);
        }
      case StreamCloses =>
        if stream == Open { sup.End(); stream' := Drained; }
      case StreamFails(err) =>
        if stream == Open { stream' := Broken(err); }
    }
  }

  /**
   * `executeTypeScriptCode` followed by `updateLogsAndCheckCancel` and the awaited result,
   * driven by the setup result, the events of the run and the reply to the final update.
   * Returns the report and whether the workspace is still on disk.
   */
  method RunExecution(setup: Setup, events: seq<JobEvent>, flushReply: Reply) returns (report: ExecutionReport, workspaceLeft: bool)
    ensures setup.TempDirFails? ==> report == Threw([], setup.error) && !workspaceLeft
    ensures setup.SetupFails? ==>
              !workspaceLeft &&
              report == (if flushReply.Failed? then Threw([LogFlush.FinalUpdate([])], flushReply.error)
                         else Finished([LogFlush.FinalUpdate([])], Execute.Error(Execute.SetupFailureMessage(setup.error))))
    ensures setup.Spawns? ==>
              report == Conclude(DriveAll(SpawnedRun(), events), flushReply) &&
              workspaceLeft == DriveAll(SpawnedRun(), events).exec.workspaceExists
  {
    match setup
    case TempDirFails(e) =>
      report, workspaceLeft := Threw([], e), false;
    case SetupFails(e) =>
      report, workspaceLeft := RunSetupFailure(e, flushReply);
    case Spawns =>
      var run;
      run, workspaceLeft := RunSpawned(events);
      report := Conclude(run, flushReply);
  }

  /** A failed setup: the executor's empty closed stream, flushed once, and its error result. */
  method RunSetupFailure(e: Thrown, flushReply: Reply) returns (report: ExecutionReport, workspaceLeft: bool)
    ensures !workspaceLeft
    ensures report == (if flushReply.Failed? then Threw([LogFlush.FinalUpdate([])], flushReply.error)
                       else Finished([LogFlush.FinalUpdate([])], Execute.Error(Execute.SetupFailureMessage(e))))
  {
    var exec := new Execute.Execution();
    var stream, result := exec.SetupFailed(e);
    var sup := new LogFlush.Supervisor();
    assert stream.records == [];
    sup.End();
    report := if flushReply.Failed? then Threw(sup.calls, flushReply.error) else Finished(sup.calls, result);
    workspaceLeft := exec.workspaceExists;
  }

  /** A spawned run: every event delivered to the executor and the supervisor, in order. */
  method RunSpawned(events: seq<JobEvent>) returns (run: JobRun, workspaceLeft: bool)
    ensures run == DriveAll(SpawnedRun(), events) && workspaceLeft == run.exec.workspaceExists
  {
    var exec := new Execute.Execution();
    exec.Spawn();
    var sup := new LogFlush.Supervisor();
    var stream: StreamState := Open;
    var outcome: Option<Execute.ExecuteResult> := None;
    var i := 0;
    while i < |events|
      invariant 0 <= i <= |events|
      invariant sup.Valid() && exec.spawned
      invariant JobRun(exec.State(), sup.State(), stream, outcome) == DriveAll(SpawnedRun(), events[..i])
    {
      DriveAllSnoc(SpawnedRun(), events, i);
      stream, outcome := Deliver(exec, sup, stream, outcome, events[i]);
      i := i + 1;
    }
    assert events[..|events|] == events;
    run := JobRun(exec.State(), sup.State(), stream, outcome);
    workspaceLeft := exec.workspaceExists;
  }

  /** A job as the run loop sees it. */
  datatype Job = Job(id: string, code: string)

  /**
   * Everything one job meets from outside: the reply to the Running update, how setup goes,
   * the events of the run, the replies to the final log update and to the terminal status
   * update, and the call-site frames of a stack trace. The reply to the catch's Error report
   * is not an input: its failure is only logged.
   */
  datatype JobWorld = JobWorld(
    runningReply: Reply,
    setup: Setup,
    events: seq<JobEvent>,
    flushReply: Reply,
    finalReply: Reply,
    frames: string)

  /** A supervisor call on the wire: log updates carry only the logs. */
  function WireCall(id: string, c: LogFlush.Call): ApiCall
  {
    match c
    case Update(ls) => UpdateJob(id, JobUpdate(None, None, None, Some(ls)))
    case Get => GetJob(id)
    case FinalUpdate(ls) => UpdateJob(id, JobUpdate(None, None, None, Some(ls)))
  }

  function Wire(id: string, cs: seq<LogFlush.Call>): (r: seq<ApiCall>)
    ensures |r| == |cs|
    ensures forall k :: 0 <= k < |cs| ==> r[k] == WireCall(id, cs[k])
  {
    if cs == [] then [] else [WireCall(id, cs[0])] + Wire(id, cs[1..])
  }

  /** The statuses a call sequence writes, in order. */
  function StatusesOf(calls: seq<ApiCall>): seq<JobStatus>
  {
    if calls == [] then []
    else
      (if calls[0].UpdateJob? && calls[0].update.status.Some? then [calls[0].update.status.value] else [])
      + StatusesOf(calls[1..])
  }

  lemma {:induction false} StatusesOfAppend(a: seq<ApiCall>, b: seq<ApiCall>)
    ensures StatusesOf(a + b) == StatusesOf(a) + StatusesOf(b)
  {
    if a == [] {
      assert a + b == b;
    } else {
      assert (a + b)[1..] == a[1..] + b;
      StatusesOfAppend(a[1..], b);
    }
  }

  lemma {:induction false} WireHasNoStatus(id: string, cs: seq<LogFlush.Call>)
    ensures StatusesOf(Wire(id, cs)) == []
  {
    if cs != [] {
      WireHasNoStatus(id, cs[1..]);
      assert Wire(id, cs)[1..] == Wire(id, cs[1..]);
    }
  }

  predicate Terminal(s: JobStatus)
  {
    s != Running
  }

  /**
   * The statuses one job is given: Running first, then at most one terminal status, and a
   * second one only as the Error report after the terminal update itself failed.
   */
  predicate StatusHistory(sts: seq<JobStatus>, finalFailed: bool)
  {
    && |sts| >= 1 && sts[0] == Running
    && |sts| <= 3
    && (|sts| >= 2 ==> Terminal(sts[1]))
    && (|sts| == 3 ==> sts[2] == Error && finalFailed)
  }

  /** Every call the job's handling makes is about that job. */
  predicate AllAbout(calls: seq<ApiCall>, id: string)
  {
    forall k :: 0 <= k < |calls| ==> calls[k].jobId == id
  }

  lemma AllAboutAppend(a: seq<ApiCall>, b: seq<ApiCall>, id: string)
    requires AllAbout(a, id) && AllAbout(b, id)
    ensures AllAbout(a + b, id)
  {
    forall k | 0 <= k < |a + b| ensures (a + b)[k].jobId == id {
      if k < |a| { assert (a + b)[k] == a[k]; } else { assert (a + b)[k] == b[k - |a|]; }
    }
  }

  lemma WireAllAbout(id: string, cs: seq<LogFlush.Call>)
    ensures AllAbout(Wire(id, cs), id)
  {
    forall k | 0 <= k < |cs| ensures Wire(id, cs)[k].jobId == id {
      assert Wire(id, cs)[k] == WireCall(id, cs[k]);
    }
  }

  /** The report the catch sends: the stack of a thrown `Error`; any other thrown value is only logged. */
  function CatchReport(id: string, thrown: Option<Thrown>): (r: seq<ApiCall>)
    ensures StatusesOf(r) == (if r == [] then [] else [Error])
    ensures r != [] <==> thrown.Some? && thrown.value.isError
    ensures r != [] ==>
              |r| == 1 && r[0].UpdateJob? && r[0].jobId == id &&
              r[0].update.status == Some(Error) && r[0].update.errorReason == Some(thrown.value.stack) &&
              r[0].update.result == None && r[0].update.logs == None
  {
    if thrown.Some? && thrown.value.isError then [UpdateJob(id, ErrorReport(thrown.value.stack))] else []
  }

  /** The report of the execution for each way setup can go. */
  function ExpectedReport(setup: Setup, events: seq<JobEvent>, flushReply: Reply): ExecutionReport
  {
    match setup
    case TempDirFails(e) => Threw([], e)
    case SetupFails(e) =>
      if flushReply.Failed? then Threw([LogFlush.FinalUpdate([])], flushReply.error)
      else Finished([LogFlush.FinalUpdate([])], Execute.Error(Execute.SetupFailureMessage(e)))
    case Spawns => Conclude(DriveAll(SpawnedRun(), events), flushReply)
  }

  /** The calls a report leads to: the supervisor's calls, then the terminal update once finished. */
  function ReportCalls(id: string, rep: ExecutionReport): (r: seq<ApiCall>)
    ensures AllAbout(r, id)
    ensures StatusesOf(r) == (if rep.Finished? then [StatusFor(TypeOf(rep.outcome))] else [])
  {
    var w := Wire(id, rep.calls);
    WireHasNoStatus(id, rep.calls);
    WireAllAbout(id, rep.calls);
    if rep.Finished? then
      var final := [UpdateJob(id, FinalReport(rep.outcome))];
      StatusesOfAppend(w, final);
      AllAboutAppend(w, final, id);
      assert StatusesOf(final) == [StatusFor(TypeOf(rep.outcome))] by { assert final[1..] == []; }
      w + final
    else w
  }

  /** What the code after the report throws: the report's error, or the failure of the terminal update. */
  function ReportThrown(rep: ExecutionReport, finalReply: Reply): Option<Thrown>
  {
    match rep
    case Stalled(_) => None
    case Threw(_, e) => Some(e)
    case Finished(_, _) => if finalReply.Failed? then Some(finalReply.error) else None
  }

  /** Whether the job's code reaches the executor. */
  predicate Executes(job: Job, world: JobWorld)
  {
    world.runningReply.Answered? && job.code != ""
  }

  function BodyCalls(job: Job, world: JobWorld): seq<ApiCall>
  {
    if Executes(job, world) then ReportCalls(job.id, ExpectedReport(world.setup, world.events, world.flushReply)) else []
  }

  function BodyThrown(job: Job, world: JobWorld): Option<Thrown>
  {
    if world.runningReply.Failed? then Some(world.runningReply.error)
    else if job.code == "" then Some(MissingCode(world.frames))
    else ReportThrown(ExpectedReport(world.setup, world.events, world.flushReply), world.finalReply)
  }

  /** The job's handling finishes unless it is left waiting for the stream or the exit. */
  predicate JobCompletes(job: Job, world: JobWorld)
  {
    !(Executes(job, world) && ExpectedReport(world.setup, world.events, world.flushReply).Stalled?)
  }

  /**
   * Whether the job's workspace is left on disk. The subprocess's exit callback removes it,
   * also when the job stopped waiting for the exit, so among the events a later exit counts.
   */
  predicate WorkspaceLeft(job: Job, world: JobWorld)
  {
    Executes(job, world) && world.setup.Spawns? && DriveAll(SpawnedRun(), world.events).exec.workspaceExists
  }

  /** Every control-plane call made for the job: Running, the body, and the catch's report. */
  function JobCalls(job: Job, world: JobWorld): seq<ApiCall>
  {
    [UpdateJob(job.id, RunningUpdate)] + BodyCalls(job, world) + CatchReport(job.id, BodyThrown(job, world))
  }

  /**
   * For every world: Running comes first, every call is about the job, then at most one
   * terminal status, and a second only as the Error report after the terminal update failed.
   */
  lemma JobCallsHistory(job: Job, world: JobWorld)
    ensures var c := JobCalls(job, world);
            |c| >= 1 && c[0] == UpdateJob(job.id, RunningUpdate) && AllAbout(c, job.id) &&
            StatusHistory(StatusesOf(c), world.finalReply.Failed?)
  {
    var head := [UpdateJob(job.id, RunningUpdate)];
    var body := BodyCalls(job, world);
    var tail := CatchReport(job.id, BodyThrown(job, world));
    assert StatusesOf(head + body + tail) == [Running] + StatusesOf(body) + StatusesOf(tail) by {
      StatusesOfAppend(head, body);
      StatusesOfAppend(head + body, tail);
      assert StatusesOf(head) == [Running] by { assert head[1..] == []; }
    }
    assert StatusesOf(body) != [] && tail != [] ==> world.finalReply.Failed?;
    ComposedHistory(StatusesOf(body), StatusesOf(tail), world.finalReply.Failed?);
  }

  lemma ComposedHistory(b: seq<JobStatus>, t: seq<JobStatus>, finalFailed: bool)
    requires b == [] || (|b| == 1 && Terminal(b[0]))
    requires t == [] || t == [Error]
    requires b != [] && t != [] ==> finalFailed
    ensures StatusHistory([Running] + b + t, finalFailed)
  {
  }

  /** Whatever throws an `Error` (the Running update, empty code, setup, the stream, either log or status update), the last call reports its stack. */
  lemma ThrownErrorsReported(job: Job, world: JobWorld)
    ensures var c := JobCalls(job, world);
            var th := BodyThrown(job, world);
            (th.Some? && th.value.isError ==>
               c[|c| - 1] == UpdateJob(job.id, ErrorReport(th.value.stack))) &&
            (!(th.Some? && th.value.isError) ==> c == [UpdateJob(job.id, RunningUpdate)] + BodyCalls(job, world))
    ensures BodyThrown(job, world).Some? ==> JobCompletes(job, world)
  {
    var c := JobCalls(job, world);
    var th := BodyThrown(job, world);
    if th.Some? && th.value.isError {
      assert c[|c| - 1] == CatchReport(job.id, th)[0];
    } else {
      assert c == [UpdateJob(job.id, RunningUpdate)] + BodyCalls(job, world) + [];
    }
  }

  /**
   * A failed setup before spawning: after Running, an empty final log update, then the Error
   * status carrying the setup error's text; the job completes and leaves no workspace.
   */
  lemma SetupFailureReported(job: Job, world: JobWorld, e: Thrown)
    requires Executes(job, world) && world.setup == SetupFails(e)
    requires world.flushReply.Answered? && world.finalReply.Answered?
    ensures JobCalls(job, world) ==
            [UpdateJob(job.id, RunningUpdate),
             UpdateJob(job.id, JobUpdate(None, None, None, Some([]))),
             UpdateJob(job.id, FinalReport(Execute.Error(Execute.SetupFailureMessage(e))))]
    ensures FinalReport(Execute.Error(Execute.SetupFailureMessage(e))).status == Some(Error)
    ensures Contains(FinalReport(Execute.Error(Execute.SetupFailureMessage(e))).errorReason.value, e.text)
    ensures JobCompletes(job, world) && !WorkspaceLeft(job, world)
  {
    var w := Wire(job.id, [LogFlush.FinalUpdate([])]);
    assert w == [UpdateJob(job.id, JobUpdate(None, None, None, Some([])))];
  }

  /** A failed workspace creation rejects the executor: after Running, only the catch's Error report. */
  lemma TempDirFailureReported(job: Job, world: JobWorld, e: Thrown)
    requires Executes(job, world) && world.setup == TempDirFails(e) && e.isError
    ensures JobCalls(job, world) == [UpdateJob(job.id, RunningUpdate), UpdateJob(job.id, ErrorReport(e.stack))]
    ensures JobCompletes(job, world) && !WorkspaceLeft(job, world)
  {
    assert Wire(job.id, []) == [];
  }

  /** Some exit is the first: the events before it hold none. */
  lemma {:induction false} FirstExit(es: seq<JobEvent>)
    requires !NoExit(es)
    ensures exists j :: 0 <= j < |es| && es[j].ProcessExits? && NoExit(es[..j])
    decreases |es|
  {
    if es[0].ProcessExits? {
      assert NoExit(es[..0]);
    } else {
      assert !NoExit(es[1..]) by {
        var k :| 0 <= k < |es| && es[k].ProcessExits?;
        assert es[1..][k - 1] == es[k];
      }
      FirstExit(es[1..]);
      var j :| 0 <= j < |es[1..]| && es[1..][j].ProcessExits? && NoExit(es[1..][..j]);
      assert es[j + 1] == es[1..][j];
      var pre := es[..j + 1];
      assert NoExit(pre) by {
        forall k | 0 <= k < |pre| ensures !pre[k].ProcessExits? {
          if k > 0 { assert pre[k] == es[1..][..j][k - 1]; }
        }
      }
    }
  }

  /** A stream error while the stream is open leaves it broken with that error for good. */
  lemma BrokenAt(es: seq<JobEvent>, k: nat)
    requires k < |es| && es[k].StreamFails? && StreamStillOpen(es[..k])
    ensures DriveAll(SpawnedRun(), es).stream == Broken(es[k].error)
  {
    var init := SpawnedRun();
    var before := DriveAll(init, es[..k]);
    OpenStaysOpen(init, es[..k]);
    var broken := Dispatch(before, es[k]);
    FailsWhileOpen(before, es[k]);
    DriveAllAt(init, es, k);
    BrokenStaysBroken(broken, es[k + 1..]);
  }

  lemma FailsWhileOpen(r: JobRun, e: JobEvent)
    requires r.stream == Open && e.StreamFails?
    ensures Dispatch(r, e).stream == Broken(e.error)
  {
  }

  /**
   * A stream error while the stream is still open: the catch reports the error and the job
   * completes without waiting for the exit. The subprocess's exit callback still removes the
   * workspace, so it is left on disk exactly when the subprocess has not exited.
   */
  lemma StreamErrorLeavesWorkspace(job: Job, world: JobWorld, k: nat)
    requires Executes(job, world) && world.setup.Spawns?
    requires k < |world.events| && world.events[k].StreamFails? && StreamStillOpen(world.events[..k])
    ensures BodyThrown(job, world) == Some(world.events[k].error)
    ensures JobCompletes(job, world)
    ensures WorkspaceLeft(job, world) <==> NoExit(world.events)
  {
    var es := world.events;
    BrokenAt(es, k);
    if NoExit(es) {
      NoExitNoOutcome(es);
    } else {
      FirstExit(es);
      var j :| 0 <= j < |es| && es[j].ProcessExits? && NoExit(es[..j]);
      OutcomeAtFirstExit(es, j);
    }
  }

  /**
   * The body of the try block after the Running update: the calls it makes, what it
   * throws, whether it finishes, and whether the workspace is left on disk.
   */
  method JobBody(job: Job, world: JobWorld) returns (body: seq<ApiCall>, thrown: Option<Thrown>, completed: bool, workspaceLeft: bool)
    ensures body == BodyCalls(job, world) && thrown == BodyThrown(job, world)
    ensures completed == JobCompletes(job, world) && workspaceLeft == WorkspaceLeft(job, world)
    ensures world.runningReply.Failed? ==> body == [] && thrown == Some(world.runningReply.error) && completed
    ensures world.runningReply.Answered? && job.code == "" ==> body == [] && thrown == Some(MissingCode(world.frames)) && completed
    ensures Executes(job, world) && world.setup.TempDirFails? ==>
              body == [] && thrown == Some(world.setup.error) && completed && !workspaceLeft
    ensures Executes(job, world) && world.setup.SetupFails? ==>
              && completed && !workspaceLeft
              && body == Wire(job.id, [LogFlush.FinalUpdate([])]) +
                         (if world.flushReply.Answered? then [UpdateJob(job.id, FinalReport(Execute.Error(Execute.SetupFailureMessage(world.setup.error))))] else [])
              && thrown == (if world.flushReply.Failed? then Some(world.flushReply.error)
                            else if world.finalReply.Failed? then Some(world.finalReply.error) else None)
    ensures Executes(job, world) && world.setup.Spawns? ==>
              var report := Conclude(DriveAll(SpawnedRun(), world.events), world.flushReply);
              && body == Wire(job.id, report.calls) + (if report.Finished? then [UpdateJob(job.id, FinalReport(report.outcome))] else [])
              && thrown == ReportThrown(report, world.finalReply)
              && (completed <==> !report.Stalled?)
  {
    body, thrown, completed, workspaceLeft := [], None, true, false;
    if world.runningReply.Failed? {
      thrown := Some(world.runningReply.error);
    } else if job.code == "" {
      thrown := Some(MissingCode(world.frames));
    } else {
      var report;
      report, workspaceLeft := RunExecution(world.setup, world.events, world.flushReply);
      assert report == ExpectedReport(world.setup, world.events, world.flushReply);
      body := Wire(job.id, report.calls);
      match report
      case Stalled(_) =>
        completed := false;
      case Threw(_, e) =>
        thrown := Some(e);
      case Finished(_, outcome) =>
        body := body + [UpdateJob(job.id, FinalReport(outcome))];
        if world.finalReply.Failed? {
          thrown := Some(world.finalReply.error);
        }
    }
  }

  /**
   * The per-job body of the run loop. Returns the control-plane calls made for the job,
   * whether its handling finished (false when it is still waiting on the stream or the exit),
   * and whether the job's workspace is still on disk.
   */
  method HandleJob(job: Job, world: JobWorld) returns (calls: seq<ApiCall>, completed: bool, workspaceLeft: bool)
    ensures calls == JobCalls(job, world) && completed == JobCompletes(job, world)
    ensures workspaceLeft == WorkspaceLeft(job, world)
    ensures |calls| >= 1 && calls[0] == UpdateJob(job.id, RunningUpdate)
    ensures AllAbout(calls, job.id)
    ensures StatusHistory(StatusesOf(calls), world.finalReply.Failed?)
    ensures calls == [UpdateJob(job.id, RunningUpdate)] + BodyCalls(job, world) + CatchReport(job.id, BodyThrown(job, world))
  {
    var body, thrown;
    body, thrown, completed, workspaceLeft := JobBody(job, world);
    calls := [UpdateJob(job.id, RunningUpdate)] + body + CatchReport(job.id, thrown);
    JobCallsHistory(job, world);
  }

  function Flatten(xss: seq<seq<ApiCall>>): seq<ApiCall>
  {
    if xss == [] then [] else Flatten(xss[..|xss| - 1]) + xss[|xss| - 1]
  }

  /**
   * After handling the first jobs of a cycle, against each job's expected calls and whether
   * it completes: each is recorded with exactly its calls, all but the last handled one
   * completed, and a last handled job that did not complete stops it.
   */
  ghost predicate CycleSoFar(expected: seq<seq<ApiCall>>, completes: seq<bool>, perJob: seq<seq<ApiCall>>, finished: nat, stalled: bool)
    requires |completes| == |expected|
  {
    && finished <= |expected|
    && |perJob| == (if stalled then finished + 1 else finished)
    && (stalled ==> finished < |expected| && !completes[finished])
    && (forall k :: 0 <= k < finished ==> completes[k])
    && (forall k :: 0 <= k < |perJob| ==> perJob[k] == expected[k])
  }

  lemma CycleExtends(expected: seq<seq<ApiCall>>, completes: seq<bool>, perJob: seq<seq<ApiCall>>, finished: nat, c: seq<ApiCall>, completed: bool)
    requires |completes| == |expected| && CycleSoFar(expected, completes, perJob, finished, false) && finished < |expected|
    requires c == expected[finished] && completed == completes[finished]
    ensures CycleSoFar(expected, completes, perJob + [c], if completed then finished + 1 else finished, !completed)
    ensures Flatten(perJob + [c]) == Flatten(perJob) + c
  {
    var next := perJob + [c];
    assert next[..|next| - 1] == perJob;
    forall k | 0 <= k < |next| ensures next[k] == expected[k] {
      if k < |perJob| { assert next[k] == perJob[k]; }
    }
  }

  /** Handles the next job of the cycle: its calls and whether it completes, as the cycle expects. */
  method HandleNext(jobs: seq<Job>, worlds: seq<JobWorld>, ghost expected: seq<seq<ApiCall>>, ghost completes: seq<bool>,
                    finished: nat) returns (jobCalls: seq<ApiCall>, completed: bool)
    requires |worlds| == |jobs| && finished < |jobs|
    requires expected == seq(|jobs|, k requires 0 <= k < |jobs| => JobCalls(jobs[k], worlds[k]))
    requires completes == seq(|jobs|, k requires 0 <= k < |jobs| => JobCompletes(jobs[k], worlds[k]))
    ensures jobCalls == expected[finished] && completed == completes[finished]
  {
    var left;
    jobCalls, completed, left := HandleJob(jobs[finished], worlds[finished]);
  }

  /**
   * One poll cycle: the jobs listed (an empty list when listing failed) are handled one at
   * a time, in order. A job that completes, whether it succeeded or threw, lets the next one
   * run; only a job still waiting stops the cycle. `perJob[k]` is the calls made for `jobs[k]`.
   */
  method RunCycle(jobs: seq<Job>, worlds: seq<JobWorld>) returns (calls: seq<ApiCall>, perJob: seq<seq<ApiCall>>, finished: nat)
    requires |worlds| == |jobs|
    ensures finished <= |jobs|
    ensures forall k :: 0 <= k < finished ==> JobCompletes(jobs[k], worlds[k])
    ensures finished < |jobs| ==> !JobCompletes(jobs[finished], worlds[finished])
    ensures |perJob| == (if finished < |jobs| then finished + 1 else finished)
    ensures calls == Flatten(perJob)
    ensures forall k :: 0 <= k < |perJob| ==> perJob[k] == JobCalls(jobs[k], worlds[k])
    ensures forall k :: 0 <= k < |perJob| ==>
              |perJob[k]| >= 1 && perJob[k][0] == UpdateJob(jobs[k].id, RunningUpdate) &&
              AllAbout(perJob[k], jobs[k].id) &&
              StatusHistory(StatusesOf(perJob[k]), worlds[k].finalReply.Failed?)
  {
    ghost var expected := seq(|jobs|, k requires 0 <= k < |jobs| => JobCalls(jobs[k], worlds[k]));
    ghost var completes := seq(|jobs|, k requires 0 <= k < |jobs| => JobCompletes(jobs[k], worlds[k]));
    calls, perJob, finished := [], [], 0;
    var stalled := false;
    while finished < |jobs| && !stalled
      invariant CycleSoFar(expected, completes, perJob, finished, stalled)
      invariant calls == Flatten(perJob)
      decreases |jobs| - finished, if stalled then 0 else 1
    {
      var jobCalls, completed := HandleNext(jobs, worlds, expected, completes, finished);
      CycleExtends(expected, completes, perJob, finished, jobCalls, completed);
      perJob := perJob + [jobCalls];
      calls := calls + jobCalls;
      if completed {
        finished := finished + 1;
      } else {
        stalled := true;
      }
    }
    CycleDone(jobs, worlds, expected, completes, perJob, finished, stalled);
  }

  /** Once the loop stops, its bookkeeping says what `RunCycle` promises about the jobs. */
  lemma CycleDone(jobs: seq<Job>, worlds: seq<JobWorld>, expected: seq<seq<ApiCall>>, completes: seq<bool>,
                  perJob: seq<seq<ApiCall>>, finished: nat, stalled: bool)
    requires |worlds| == |jobs|
    requires expected == seq(|jobs|, k requires 0 <= k < |jobs| => JobCalls(jobs[k], worlds[k]))
    requires completes == seq(|jobs|, k requires 0 <= k < |jobs| => JobCompletes(jobs[k], worlds[k]))
    requires CycleSoFar(expected, completes, perJob, finished, stalled) && (finished == |jobs| || stalled)
    ensures finished <= |jobs|
    ensures forall k :: 0 <= k < finished ==> JobCompletes(jobs[k], worlds[k])
    ensures finished < |jobs| ==> !JobCompletes(jobs[finished], worlds[finished])
    ensures |perJob| == (if finished < |jobs| then finished + 1 else finished)
    ensures forall k :: 0 <= k < |perJob| ==> perJob[k] == JobCalls(jobs[k], worlds[k])
    ensures forall k :: 0 <= k < |perJob| ==>
              |perJob[k]| >= 1 && perJob[k][0] == UpdateJob(jobs[k].id, RunningUpdate) &&
              AllAbout(perJob[k], jobs[k].id) &&
              StatusHistory(StatusesOf(perJob[k]), worlds[k].finalReply.Failed?)
  {
    forall k | 0 <= k < |perJob|
      ensures perJob[k] == JobCalls(jobs[k], worlds[k])
      ensures |perJob[k]| >= 1 && perJob[k][0] == UpdateJob(jobs[k].id, RunningUpdate)
      ensures AllAbout(perJob[k], jobs[k].id) && StatusHistory(StatusesOf(perJob[k]), worlds[k].finalReply.Failed?)
    {
      assert perJob[k] == expected[k];
      JobCallsHistory(jobs[k], worlds[k]);
    }
    forall k | 0 <= k < finished ensures JobCompletes(jobs[k], worlds[k]) {
      assert completes[k];
    }
  }
}
