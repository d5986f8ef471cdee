/**
 * The outcome logic of `executeTypeScriptCode` (execute.ts): the kill reason that the
 * cancel and timeout triggers record, the classification of the exit into one
 * `ExecuteResult`, and the removal of the workspace on every path.
 *
 * Spawning the interpreter, writing the entry files and reading the result file are
 * I/O; their results enter as parameters (`ExitStatus`, `ReadResult`, the setup error).
 */
module Execute {

  import opened Common
  import opened Decimal
  import Relay

  /** The four outcomes of one execution. */
  datatype ExecuteResult =
    | Success(result: Json)
    | Error(message: string)
    | TimeoutError
    | Cancel

  /** The recorded cause of a forced termination (`killReason`, undefined until a trigger fires). */
  datatype KillReason = NotKilled | KilledByTimeout | KilledByCancel

  /** The exit status of the subprocess; Deno reports success exactly for exit code 0. */
  datatype ExitStatus = ExitStatus(code: int)
  {
    predicate Success() { code == 0 }
  }

  /** Reading and parsing the result file: the parsed value, or what the read or the parse threw. */
  datatype ReadResult = Parsed(value: Json) | ReadFailed(error: Thrown)

  const ExitMessageHead: string := "プロセスがコード「"
  const ExitMessageTail: string := "」で終了しました"
  const ReadFailureHead: string := "結果の読み取りに失敗しました: "
  const SetupFailureHead: string := "denoコマンドでプロセスを操作しているときにエラーが発生しました "

  /** The message for a natural non-zero exit; it carries the exit code. */
  function ExitMessage(code: int): (m: string)
    ensures Contains(m, IntToDecimal(code))
  {
    ContainsMiddle(ExitMessageHead, IntToDecimal(code), ExitMessageTail);
    ExitMessageHead + IntToDecimal(code) + ExitMessageTail
  }

  /** The message when the result file cannot be read or parsed; it carries the thrown error's text. */
  function ReadFailureMessage(e: Thrown): (m: string)
    ensures Contains(m, e.text)
  {
    ContainsMiddle(ReadFailureHead, e.text, "");
    assert ReadFailureHead + e.text + "" == ReadFailureHead + e.text;
    ReadFailureHead + e.text
  }

  /** The message when writing the entry files or spawning fails; it carries the thrown error's text. */
  function SetupFailureMessage(e: Thrown): (m: string)
    ensures Contains(m, e.text)
  {
    ContainsMiddle(SetupFailureHead, e.text, "");
    assert SetupFailureHead + e.text + "" == SetupFailureHead + e.text;
    SetupFailureHead + e.text
  }

  /**
   * The outcome chosen when the subprocess exits: the recorded kill reason decides first,
   * whatever the exit status or any output; otherwise the exit status, and on success the
   * result file. `read` is only consulted on success, as the file is only read then.
   */
  function Classify(reason: KillReason, status: ExitStatus, read: ReadResult): (r: ExecuteResult)
    ensures reason == KilledByTimeout ==> r == TimeoutError
    ensures reason == KilledByCancel ==> r == Cancel
    ensures r.Success? <==> reason == NotKilled && status.Success() && read.Parsed?
    ensures r.Success? ==> r.result == read.value
    ensures reason == NotKilled && status.Success() && read.ReadFailed? ==>
              r == Error(ReadFailureMessage(read.error)) && Contains(r.message, read.error.text)
    ensures reason == NotKilled && !status.Success() ==>
              r.Error? && Contains(r.message, IntToDecimal(status.code))
  {
    match reason
    case KilledByTimeout => TimeoutError
    case KilledByCancel => Cancel
    case NotKilled =>
      if status.Success() then
        match read
        case Parsed(v) => Success(v)
        case ReadFailed(e) => Error(ReadFailureMessage(e))
      else Error(ExitMessage(status.code))
  }

  /** Recovering the exit code from a non-zero-exit message: the message determines the code. */
  lemma ExitCodeRecoverable(code: int)
    ensures |ExitMessage(code)| == |ExitMessageHead| + |IntToDecimal(code)| + |ExitMessageTail|
    ensures ParseDecimal(ExitMessage(code)[|ExitMessageHead|..|ExitMessage(code)| - |ExitMessageTail|]) == Some(code)
  {
    var m := ExitMessage(code);
    assert m[|ExitMessageHead|..|m| - |ExitMessageTail|] == IntToDecimal(code);
    DecimalRoundTrip(code);
  }

  /**
   * The observable state of one execution:
   *  - killReason: the recorded kill cause;
   *  - spawned: the subprocess was started and the triggers registered;
   *  - timerArmed: the timeout timer is pending (it fires at most once and is cleared at exit);
   *  - listening: the abort listener is registered (removed at exit);
   *  - aborted: the cancellation signal has been aborted (an abort event is dispatched once);
   *  - kills: the number of kill attempts (a kill swallows its own failure);
   *  - exited: the exit has been classified;
   *  - workspaceExists: the temporary directory is still on disk.
   */
  datatype ExecState = ExecState(
    killReason: KillReason,
    spawned: bool,
    timerArmed: bool,
    listening: bool,
    aborted: bool,
    kills: nat,
    exited: bool,
    workspaceExists: bool)

  /** The two triggers: the timeout timer firing, and the cancellation callback aborting the signal. */
  datatype Trigger = TimerFires | CancelCalled

  /** Right after the workspace directory was created. */
  function Prepared(): ExecState
  {
    ExecState(NotKilled, false, false, false, false, 0, false, true)
  }

  /** After the subprocess was spawned: the abort listener is registered and the timer armed. */
  function Spawned(s: ExecState): ExecState
  {
    s.(spawned := true, listening := true, timerArmed := true)
  }

  /**
   * One trigger: each effective trigger overwrites the kill reason and then kills. The timer
   * takes effect only while armed; the cancellation only at the first abort, while listened to.
   */
  function Fire(s: ExecState, t: Trigger): (r: ExecState)
    ensures r.workspaceExists == s.workspaceExists && r.exited == s.exited && r.spawned == s.spawned
    ensures r.kills == s.kills + 1 <==>
              (t == TimerFires && s.timerArmed) || (t == CancelCalled && s.listening && !s.aborted)
    ensures r.kills != s.kills + 1 ==> r.kills == s.kills && r.killReason == s.killReason
    ensures r.kills == s.kills + 1 ==> r.killReason == (if t == TimerFires then KilledByTimeout else KilledByCancel)
    ensures t == TimerFires ==> !r.timerArmed
    ensures t == CancelCalled ==> r.aborted
  {
    match t
    case TimerFires =>
      if s.timerArmed then s.(timerArmed := false, killReason := KilledByTimeout, kills := s.kills + 1) else s
    case CancelCalled =>
      if s.aborted then s
      else if s.listening then s.(aborted := true, killReason := KilledByCancel, kills := s.kills + 1)
      else s.(aborted := true)
  }

  function FireAll(s: ExecState, ts: seq<Trigger>): ExecState
    decreases |ts|
  {
    if ts == [] then s else FireAll(Fire(s, ts[0]), ts[1..])
  }

  lemma {:induction false} FireAllAppend(s: ExecState, a: seq<Trigger>, b: seq<Trigger>)
    ensures FireAll(s, a + b) == FireAll(FireAll(s, a), b)
    decreases |a|
  {
    if a == [] {
      assert a + b == b;
    } else {
      assert (a + b)[1..] == a[1..] + b;
      FireAllAppend(Fire(s, a[0]), a[1..], b);
    }
  }

  /** Triggers never touch the workspace, the exit flag or whether the subprocess was spawned. */
  lemma {:induction false} FireAllKeepsLifecycle(s: ExecState, ts: seq<Trigger>)
    ensures FireAll(s, ts).workspaceExists == s.workspaceExists
    ensures FireAll(s, ts).exited == s.exited && FireAll(s, ts).spawned == s.spawned
    decreases |ts|
  {
    if ts != [] {
      FireAllKeepsLifecycle(Fire(s, ts[0]), ts[1..]);
    }
  }

  /** State after the exit was handled: timer cleared, listener removed, workspace removed. */
  function Finished(s: ExecState): ExecState
  {
    s.(exited := true, timerArmed := false, listening := false, workspaceExists := false)
  }

  /** Position of the first occurrence of `t`. */
  function FirstIndex(ts: seq<Trigger>, t: Trigger): (k: nat)
    requires t in ts
    ensures k < |ts| && ts[k] == t && t !in ts[..k]
  {
    if ts[0] == t then 0
    else
      var k := 1 + FirstIndex(ts[1..], t);
      assert ts[..k] == [ts[0]] + ts[1..][..k - 1];
      k
  }

  /**
   * The kill reason that a trigger sequence leaves, stated without stepping: the timer can
   * take effect only at its first firing while armed, the cancellation only at its first
   * call while listening and not yet aborted; of the triggers that took effect, the later
   * one is recorded.
   */
  function LastEffective(s: ExecState, ts: seq<Trigger>): KillReason
  {
    var timer := s.timerArmed && TimerFires in ts;
    var cancel := s.listening && !s.aborted && CancelCalled in ts;
    if timer && cancel then
      (if FirstIndex(ts, CancelCalled) > FirstIndex(ts, TimerFires) then KilledByCancel else KilledByTimeout)
    else if timer then KilledByTimeout
    else if cancel then KilledByCancel
    else s.killReason
  }

  /** The trigger that took effect last decides the recorded kill reason. */
  lemma {:induction false} LastTriggerWins(s: ExecState, ts: seq<Trigger>)
    ensures FireAll(s, ts).killReason == LastEffective(s, ts)
    decreases |ts|
  {
    if ts != [] {
      var s' := Fire(s, ts[0]);
      var rest := ts[1..];
      LastTriggerWins(s', rest);
      assert ts == [ts[0]] + rest;
      assert forall t :: t in ts <==> t == ts[0] || t in rest;
      if ts[0] == TimerFires {
        if CancelCalled in ts {
          assert FirstIndex(ts, CancelCalled) == 1 + FirstIndex(rest, CancelCalled);
        }
      } else {
        if TimerFires in ts {
          assert FirstIndex(ts, TimerFires) == 1 + FirstIndex(rest, TimerFires);
        }
      }
    }
  }

  /** Each trigger kills at most once, so a run makes at most one kill per trigger kind. */
  lemma {:induction false} KillsBounded(s: ExecState, ts: seq<Trigger>)
    ensures FireAll(s, ts).kills <= s.kills + (if s.timerArmed then 1 else 0) + (if s.listening && !s.aborted then 1 else 0)
    decreases |ts|
  {
    if ts != [] {
      KillsBounded(Fire(s, ts[0]), ts[1..]);
    }
  }

  /** Once the exit has been handled, no trigger changes the kill reason or kills again. */
  lemma {:induction false} TriggersAfterExitIgnored(s: ExecState, ts: seq<Trigger>)
    requires !s.timerArmed && !s.listening
    ensures FireAll(s, ts).killReason == s.killReason && FireAll(s, ts).kills == s.kills
    decreases |ts|
  {
    if ts != [] {
      TriggersAfterExitIgnored(Fire(s, ts[0]), ts[1..]);
    }
  }

  /** One execution, from the creation of its workspace to the removal of it. */
  class Execution {
    var killReason: KillReason
    var spawned: bool
    var timerArmed: bool
    var listening: bool
    var aborted: bool
    var kills: nat
    var exited: bool
    var workspaceExists: bool

    function State(): ExecState
      reads this
    {
      ExecState(killReason, spawned, timerArmed, listening, aborted, kills, exited, workspaceExists)
    }

    /** The temporary workspace directory has been created. */
    constructor ()
      ensures State() == Prepared()
    {
      killReason, spawned, timerArmed, listening, aborted := NotKilled, false, false, false, false;
      kills, exited, workspaceExists := 0, false, true;
    }

    /** The entry files were written and the subprocess started: register the abort listener, arm the timer. */
    method Spawn()
      requires State() == Prepared()
      modifies this
      ensures State() == Spawned(old(State()))
    {
      spawned, listening, timerArmed := true, true, true;
    }

    /**
     * Writing the entry files or spawning threw `e`: remove the workspace and return an
     * empty, already-closed log stream with an error outcome that carries `e`.
     */
    method SetupFailed(e: Thrown) returns (logs: Relay.LogStream, r: ExecuteResult)
      requires State() == Prepared()
      modifies this
      ensures logs == Relay.EmptyClosed
      ensures r == Error(SetupFailureMessage(e)) && Contains(r.message, e.text)
      ensures State() == old(State()).(workspaceExists := false)
    {
      workspaceExists := false;
      logs := Relay.EmptyClosed;
      r := Error(SetupFailureMessage(e));
    }

    /** The timeout timer fires. */
    method OnTimeout()
      modifies this
      ensures State() == Fire(old(State()), TimerFires)
    {
      if timerArmed {
        timerArmed := false;
        killReason := KilledByTimeout;
        Kill();
      }
    }

    /** The cancellation callback aborts the signal; the listener runs on the first abort only. */
    method OnCancel()
      modifies this
      ensures State() == Fire(old(State()), CancelCalled)
    {
      if !aborted {
        aborted := true;
        if listening {
          killReason := KilledByCancel;
          Kill();
        }
      }
    }

    /** Sends the kill signal; a failure (the process already gone) is swallowed. */
    method Kill()
      modifies this
      ensures State() == old(State()).(kills := old(kills) + 1)
    {
      kills := kills + 1;
    }

    /**
     * The subprocess exited with `status`; `read` is what reading and parsing the result
     * file gives. Clears the timer, removes the listener, classifies, removes the workspace.
     */
    method OnExit(status: ExitStatus, read: ReadResult) returns (r: ExecuteResult)
      requires spawned && !exited
      modifies this
      ensures r == Classify(old(killReason), status, read)
      ensures State() == Finished(old(State()))
      ensures !workspaceExists
    {
      timerArmed := false;
      listening := false;
      r := Classify(killReason, status, read);
      exited := true;
      workspaceExists := false;
    }
  }
}
