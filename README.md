# synqlet-runner job execution core, in Dafny

synqlet-runner is a polling job runner. It fetches pending jobs from a control plane and
marks each one Running. It runs the job's TypeScript code in a Deno subprocess inside a temporary
workspace and relays the subprocess's stdout and stderr as time-stamped log records. Every
second it sends the log buffer to the control plane if new records arrived, and otherwise only
reads the job's status; either way it checks whether the job was asked to cancel. Once the run
is over it writes at most one terminal status: Done,
Error, Timeout or CancelDone, mapped from the outcome after the subprocess exits, or Error from
the catch when something threw first. A second status comes only when the terminal update
itself fails: the catch then reports Error. A thrown value that is not an `Error` instance,
and a job still waiting on its stream or exit, write no terminal status.

The model has seven modules:

- `Common`: shared values. These are JSON values, thrown values (`Error` instances or not), log records and control-plane replies.
- `Decimal`: the decimal text of an exit code, and a parser that recovers the code from it.
- `Execute`: the outcome logic of `executeTypeScriptCode` (execute.ts).
  - The kill reason recorded by the timeout timer and by the cancellation signal.
  - The classification of the exit into an `ExecuteResult`.
  - The removal of the workspace.
  - A class `Execution` whose methods mirror the source's callbacks. Each is tied to a pure step function `Fire` / `Finished` over `ExecState`.
- `Relay`: `createLogStream`. The two concurrent pumps become one loop, driven by a scheduling oracle, so every interleaving is one run.
- `Trigger`: `triggerValue`, the object literal written into the generated entry script, kept as a sequence of properties and the text between them.
- `LogFlush`: `updateLogsAndCheckCancel`, as the class `Supervisor` and the pure step function `Step` / `Run` that specifies it.
- `Runner`: the per-job body of `runner` (mod.ts) and one poll cycle.
  - The events of one job (output, ticks, the timeout, the exit, the stream's end) are an input sequence.
  - `DriveAll` is the reference run of those events.
  - `RunExecution` drives the two classes through the same events, and is proved equal to `DriveAll`.

The kill reason is modelled as the code sets it. Each trigger overwrites `killReason`
(execute.ts:113, execute.ts:118). So when both cancellation and timeout take effect, the later
one decides the outcome. `Execute.LastEffective` states this and `Execute.LastTriggerWins` proves it.

For each job, the reference definitions are:

- `Runner.JobCalls`: every call made for a job, from the job and everything it meets (`Runner.JobWorld`).
- `Runner.BodyThrown`: what the job's try block throws.
- `Runner.JobCompletes`: whether handling finishes.
- `Runner.WorkspaceLeft`: whether the workspace is still on disk.

`Runner.HandleJob` and `Runner.RunCycle` are proved equal to them. The lemmas beside them state what they mean.

Inputs that stand in for the outside world:

- Replies of the control plane.
- The subprocess's exit status.
- The result file's parse result.
- The chunks the pipes yield.
- The order in which events happen.
- `JSON.stringify` and template interpolation, as the two functions of `Trigger.Encoder`.

## Model

| member | source | states |
|---|---|---|
| Decimal.DecimalRoundTrip | execute.ts:140 | the decimal text of every integer exit code parses back to that code |
| Execute.ExitMessage | execute.ts:137-141 | the non-zero-exit message contains the decimal exit code |
| Execute.ReadFailureMessage | execute.ts:143-147 | the read-failure message contains the text of what the read or parse threw |
| Execute.SetupFailureMessage | execute.ts:153-166 | the setup-failure message contains the text of the thrown error |
| Execute.ExitCodeRecoverable | execute.ts:137-141 | the exit code can be read back from the middle of the non-zero-exit message |
| Execute.Classify | execute.ts:124-147 | a timeout kill gives timeoutError and a cancel kill gives cancel, whatever the exit; success exactly when not killed, exit code 0 and the result parsed, carrying the parsed value; a read or parse failure is an error naming it; a non-zero exit is an error naming the code |
| Execute.Fire | execute.ts:112-120 | a trigger kills exactly when it takes effect (the timer while armed, the cancellation at the first abort while listened to) and then records its own kill reason; otherwise the kill reason and the kill count stay; no trigger touches the workspace, the exit or the spawned flag |
| Execute.LastTriggerWins | execute.ts:104-120 | after any sequence of timer and cancel triggers, the recorded kill reason is the later of the two that took effect: the timer only while armed, the cancel only on the first abort while listened to |
| Execute.KillsBounded | execute.ts:105-120 | any trigger sequence kills at most once per trigger kind |
| Execute.TriggersAfterExitIgnored | execute.ts:126-127 | once the timer is cleared and the listener removed, no trigger changes the kill reason or kills |
| Execute.FireAllKeepsLifecycle | execute.ts:112-120 | triggers never touch the workspace, the exit flag or the spawned flag |
| Execute.Execution.constructor | execute.ts:77 | a fresh execution has its workspace, no kill reason and nothing registered |
| Execute.Execution.Spawn | execute.ts:92-120 | spawning registers the abort listener and arms the timer |
| Execute.Execution.SetupFailed | execute.ts:153-166 | a setup failure removes the workspace and returns an empty closed stream and an error carrying the thrown text |
| Execute.Execution.OnTimeout | execute.ts:117-120 | the timer records timeout and kills, once |
| Execute.Execution.OnCancel | execute.ts:112-116 | an abort records cancel and kills, only while listened to and only at the first abort |
| Execute.Execution.Kill | execute.ts:105-111 | a kill attempt whose failure is swallowed changes nothing else |
| Execute.Execution.OnExit | execute.ts:124-150 | the exit is classified by the kill reason recorded before it; the timer is cleared, the listener removed, the workspace removed |
| Relay.Relay | execute.ts:170-206 | the stream closes exactly when neither pipe fails; closed, each source's records are exactly its pipe's chunks in order; in every case each source's records are a prefix of its chunks; an error is a fault of a pipe that was fully drained |
| Relay.ProjectionsCoverStream | execute.ts:180-199 | every record belongs to exactly one of the two sources |
| Trigger.FormEntries | execute.ts:45-51 | one entry per form value, in order |
| Trigger.JoinKeepsEach | execute.ts:44-52 | joining the entries with commas, as `${array}` does, keeps every entry in the text |
| Trigger.FormValuesLiteral | execute.ts:44-52 | the `formValues` literal is braced and contains, for every form value, its `[code]: value` entry (a Date or DateTime value raw inside `new Date(...)`, any other JSON-encoded) |
| Trigger.RequestLiteral | execute.ts:32-40 | the `request` literal opens with `{`, closes with a line holding `}`, and contains the encoded search parameters, headers and JSON body |
| Trigger.AsWrittenTriggerValue | execute.ts:18-56 | without a trigger name the descriptor is `undefined`; with one, the text as written opens with the `name` property and ends with the closing brace |
| Trigger.TriggerValue | execute.ts:18-56 | without a trigger name the descriptor is `undefined`; with one, the corrected text opens with the `name` property, ends with the closing brace, and contains the `request` and `formValues` properties whenever they are given |
| Trigger.AsWrittenPartsText | execute.ts:28-55 | the concrete text as written: name, then request, then form values with nothing between them, then the closing brace |
| Trigger.TriggerPartsText | execute.ts:28-55 | the concrete corrected text: the same pieces with a comma line between request and form values |
| Trigger.AsWrittenTextMissesComma | execute.ts:40-44 | with both a request and form values, the text as written contains the request's closing `}` immediately followed by `formValues: {` |
| Trigger.CorrectedTextHasComma | execute.ts:40-44 | with both, the corrected text has `}`, a comma line and then `formValues: {` |
| Trigger.TriggerKeys | execute.ts:28-55 | the descriptor has `name`, then `request` exactly when a request is given, then `formValues` exactly when form values are given |
| Trigger.AsWrittenMissesComma | execute.ts:40-44 | with both a request and form values, the literal as written has two properties with no comma between them |
| Trigger.TriggerPartsCommaSeparated | execute.ts:28-55 | the corrected literal has a comma between every two properties, for all inputs |
| Trigger.CorrectionOnlyWhenBoth | execute.ts:28-55 | without both a request and form values, the corrected text equals the text as written |
| LogFlush.Step | mod.ts:177-203 | a record only grows the buffer; a tick appends one update of the whole buffer when dirty, otherwise one status read, and leaves the flag clear; the end appends the final update of the whole buffer; earlier calls stay; a CancelPending tick counts one cancel |
| LogFlush.StepConsistent | mod.ts:177-203 | with a tick taken as one step, each event keeps the invariant: every update sent a prefix of the buffer, and a clean flag means the control plane holds the whole buffer |
| LogFlush.RunConsistent | mod.ts:174-210 | the invariant holds after every sequence of events |
| LogFlush.BufferIsArrivals | mod.ts:200-203 | the buffer is exactly the records that arrived, in order |
| LogFlush.CallsAppendOnly | mod.ts:177-210 | calls are only appended, one per tick and one at the stream's end |
| LogFlush.CancelOnEveryPendingTick | mod.ts:185-193 | the cancel callback runs once for every tick answered with CancelPending, in both branches |
| LogFlush.TickSendsWholeBuffer | mod.ts:178-194 | with a tick taken as one step, a dirty tick sends the whole buffer so far; a clean tick only reads the status, and the control plane already holds everything; either way the flag is clear afterwards |
| LogFlush.FinalFlushSendsEverything | mod.ts:204-210 | at the stream's end the last call sends every record that arrived, whatever the flag |
| LogFlush.Supervisor.constructor | mod.ts:174-175 | an empty buffer, a clear flag, no calls |
| LogFlush.Supervisor.OnLog | mod.ts:200-203 | a record is appended and the flag is set |
| LogFlush.Supervisor.Tick | mod.ts:177-196 | a tick makes the update or the read that the step function says, and calls the cancel callback exactly on CancelPending |
| LogFlush.Supervisor.End | mod.ts:204-210 | the final update carries the full buffer |
| Runner.StatusFor | mod.ts:127-132 | every outcome type maps to a terminal status that reports that type back |
| Runner.StatusTableBijective | mod.ts:127-132 | the status table is one-to-one and reaches every terminal status |
| Runner.FinalReport | mod.ts:123-135 | the terminal update carries the mapped status, an errorReason exactly for an error (its message) and a result exactly for a success (its value) |
| Runner.MissingCode | mod.ts:91-93 | a job without code throws an `Error` whose text names the missing code and whose stack begins with that text |
| Runner.CatchReport | mod.ts:136-152 | the catch reports exactly when the thrown value is an `Error` instance: one update of this job with status Error, the thrown stack as errorReason, and no result or logs |
| Runner.Dispatch | mod.ts:99-119 | only the first exit sets the outcome, from the kill reason recorded before it, and removes the workspace; once the stream has ended no record reaches the buffer; supervisor calls are only appended |
| Runner.Conclude | mod.ts:109-119 | a stream error or a failed final log update throws before the result is awaited; the run finishes exactly when the stream closed, the final log update was answered and the process exited, with that outcome; otherwise the job is still waiting |
| Runner.ReportCalls | mod.ts:109-135 | the calls after a report are about the job and write exactly one status, the mapped terminal one, when the run finished, and none otherwise |
| Runner.ExecFollowsTriggers | mod.ts:109-117 | before the exit, the executor's state is the fold of the timeouts and the CancelPending answers over it |
| Runner.OutcomeAtFirstExit | mod.ts:99-119 | the outcome is decided at the first exit, by the kill reason the triggers before it left and by that exit's status and result file; the workspace is gone afterwards |
| Runner.NoExitNoOutcome | mod.ts:119 | without an exit there is no outcome and the workspace remains |
| Runner.CancelPendingEndsCancelDone | mod.ts:109-132 | a CancelPending answer before the exit, with no timeout before it, ends the job with the cancel outcome, and a finished run writes CancelDone |
| Runner.TimeoutEndsTimeout | mod.ts:99-132 | a timeout before the exit, with no CancelPending answer before it, ends the job with timeoutError |
| Runner.SupFollowsEvents | mod.ts:109-117 | the supervisor inside a job run is the supervisor's own run over the events it sees: records and the end only while the stream is open, ticks always |
| Runner.OpenArrivals | mod.ts:200-203 | while the stream is open, the supervisor receives exactly the records the stream delivered |
| Runner.FinalFlushAfterClose | mod.ts:204-210 | once the stream closes, some call sends every record delivered before the close, in order |
| Runner.RunExecution | mod.ts:99-119 | a workspace failure throws with no calls; a setup failure flushes an empty log and, when that flush is answered, reports its error, otherwise it throws the flush error; a spawned run yields exactly the report of the reference run of its events, and leaves the workspace exactly as that run does |
| Runner.JobCallsHistory | mod.ts:70-153 | for every job and world: Running first, every call about the job, then at most one terminal status, and a second one only as the Error report after the terminal update failed |
| Runner.ThrownErrorsReported | mod.ts:136-152 | whatever throws an `Error` (the Running update, empty code, workspace creation, the stream, the final log update or the terminal update), the last call reports its stack; otherwise nothing follows the body; a job that throws completes |
| Runner.SetupFailureReported | mod.ts:109-135 | a setup failure after the workspace was created, when the final log update and the terminal update are answered, gives Running, an empty final log update, then Error with a reason carrying the setup error's text; the job completes and leaves no workspace |
| Runner.TempDirFailureReported | mod.ts:136-152 | a failed workspace creation gives Running, then only the catch's Error report with its stack |
| Runner.StreamErrorLeavesWorkspace | mod.ts:109-119 | a stream error while the stream is still open is thrown and the job completes without waiting for the exit; the exit callback still removes the workspace, so it is left on disk exactly when the subprocess never exits |
| Runner.JobBody | mod.ts:84-135 | the body's calls, what it throws, whether it completes and whether the workspace is left, for each path: failed Running update, empty code, failed workspace creation, failed setup (empty log flush, then, when that flush is answered, the setup error as the terminal update; otherwise the flush error is thrown to the catch) and a spawned run (the supervisor's calls, then the terminal update once finished) |
| Runner.HandleJob | mod.ts:70-153 | the calls are Running, the body's calls and the catch's report of what the body threw; this is exactly the job's reference call sequence, so the history and reporting lemmas hold of it; completion and the workspace left are as the reference says |
| Runner.RunCycle | mod.ts:58-154 | jobs are handled in order; every job before the stopping point completed, and the cycle stops only at a job that did not; each job's calls are exactly its reference call sequence, with Running first and a well-formed status history |

## Left out

- I/O is not modelled: temporary directories, writing and reading files, spawning Deno, text decoding and clock readings. Their results are parameters of the model.
- `JSON.stringify`, `JSON.parse` and template interpolation of arbitrary values are not modelled. They enter through `Trigger.Encoder` and `Execute.ReadResult`.
- The generated `entry.ts` text and the serialization of the environment variables are left out. Only the trigger descriptor inside the entry text is modelled.
- Real time and concurrency are not modelled. The timer, the one-second supervisor tick and the two pumps become inputs: an event order, and a schedule for `Relay.Relay`. Every order of whole events is one input. A tick, with its request and its reply, is one event, so nothing can happen between them. Wall-clock durations (the 1000 ms tick, the timeout value) are not modelled.
- A record arriving while a dirty tick awaits its update is not modelled. The tick clears `logUpdate` only after the reply (mod.ts:188). A record pushed during that await (mod.ts:201-202) loses its dirty mark: the next tick only reads the status (mod.ts:190), and the control plane gets the record only with the final update. The clean-flag clauses of `LogFlush.StepConsistent`, `LogFlush.RunConsistent` and `LogFlush.TickSendsWholeBuffer` hold for a tick taken as one step, not for the program.
- A tick whose control-plane call fails is left out. In the source it is an unhandled rejection inside a timer callback, and the model assumes every tick gets a reply.
- Every tick among a job's events comes before that job's terminal update. Ticks that go on polling after the job are not modelled:
  - a tick still in flight when the stream ends reschedules itself (mod.ts:195, mod.ts:204);
  - after a stream error `clearTimeout` never runs (mod.ts:200-204), so the timer polls forever.
  The model allows ticks after the stream's end, but only up to the job's terminal update.
- After a stream error or a failed final log update, the job does not wait for the exit (mod.ts:119). The subprocess may still be running, and its workspace is still there while it runs. The exit callback removes it when the subprocess exits (execute.ts:124, execute.ts:148-149), whether or not anyone awaits the result. The model states this (`Runner.StreamErrorLeavesWorkspace`, the `workspaceLeft` result of `Runner.HandleJob`). It does not model the subprocess running on past the job.
- `Deno.remove` failing in the `finally` or in the catch is left out. The model treats the removal as succeeding.
- Log records still queued in the stream when it errors are not modelled. The model drops them with the stream, as the reader's error does.
- `LogFlush.Supervisor.Tick`: the buffer is sent as a snapshot. In the source the same array is passed by reference while it may keep growing before it is serialized.
- A failed Error report inside the catch (mod.ts:149-151) is only logged, so the model does not record its reply.
- The runner's start is not modelled: identifying the runner, printing the tables, the 30-second liveness ping (mod.ts:31-55) and the delay between polls (mod.ts:156). Listing failures return an empty list in api.ts, so `Runner.RunCycle` takes the listed jobs as input.
- api.ts (HTTP requests) and cli.ts (argument parsing) are not part of this model.
- `Runner.RunCycle`: a job still waiting on its stream or exit stops the cycle. The model returns at that point, because the source would await and never reach the next job.

## Findings

| source | as written | input that shows it | evidently intended | confidence | as-written member | corrected member |
|---|---|---|---|---|---|---|
| execute.ts:40-44 | the `request` property's template ends with `}` and the `formValues` property follows right after it, with no comma between them | a job with a trigger name, an HTTP request and form values | a comma between `request` and `formValues`, so the generated entry script is a valid object literal | medium, not executed | Trigger.AsWrittenTextMissesComma | Trigger.TriggerPartsCommaSeparated |
