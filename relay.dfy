/**
 * The log relay of execute.ts (`createLogStream`): two pumps, one per output stream of
 * the subprocess, enqueue one tagged, time-stamped record per decoded chunk onto a single
 * stream, which closes once both pumps have drained and errors if either pump fails.
 *
 * The two pumps run concurrently in the source; here a scheduling oracle says which pump
 * delivers next, so every interleaving the runtime could produce is one run of `Relay`.
 */
module Relay {

  import opened Common

  /** One decoded text chunk and the time at which its pump received it. */
  datatype Chunk = Chunk(text: string, at: string)

  /** A decoded output stream: the chunks it yields, then either its end or the error its read threw. */
  datatype Pipe = Pipe(chunks: seq<Chunk>, fault: Option<Thrown>)

  /** How a log stream ends: `controller.close()` or `controller.error(e)`. */
  datatype StreamEnd = Closed | Errored(error: Thrown)

  /** A finished log stream: the records enqueued, in order, and how it ended. */
  datatype LogStream = LogStream(records: seq<Log>, end: StreamEnd)

  /** The stream returned when setup fails before spawning: empty and already closed. */
  const EmptyClosed: LogStream := LogStream([], Closed)

  /** The record a pump enqueues for a chunk of `src`. */
  function Tagged(src: Source, c: Chunk): (l: Log)
    ensures l.from == src && l.text == c.text && l.loggedAt == c.at
  {
    Log(src, c.at, c.text)
  }

  /** The chunks of the records tagged `src`, in stream order. */
  function ChunksFrom(records: seq<Log>, src: Source): seq<Chunk>
  {
    if records == [] then []
    else
      var last := records[|records| - 1];
      ChunksFrom(records[..|records| - 1], src) + (if last.from == src then [Chunk(last.text, last.loggedAt)] else [])
  }

  lemma ChunksFromSnoc(records: seq<Log>, l: Log, src: Source)
    ensures ChunksFrom(records + [l], src) ==
            ChunksFrom(records, src) + (if l.from == src then [Chunk(l.text, l.loggedAt)] else [])
  {
    assert (records + [l])[..|records|] == records;
  }

  /** Every record comes from one of the two sources, so the two projections account for all of them. */
  lemma {:induction false} ProjectionsCoverStream(records: seq<Log>)
    ensures |ChunksFrom(records, Stdout)| + |ChunksFrom(records, Stderr)| == |records|
  {
    if records != [] {
      ProjectionsCoverStream(records[..|records| - 1]);
    }
  }

  /**
   * Runs both pumps to completion. `schedule[k]` names the pump whose next step comes k-th
   * while both are live; when it is used up, or names a pump that has finished, the other
   * pump steps. A pump's step enqueues its next chunk, or, once its chunks are exhausted,
   * either finishes it or rejects with its fault, which errors the whole stream at once
   * (`Promise.all` rejects on the first rejection).
   */
  method Relay(out: Pipe, err: Pipe, schedule: seq<Source>) returns (s: LogStream)
    ensures s.end == Closed <==> out.fault == None && err.fault == None
    ensures s.end == Closed ==> ChunksFrom(s.records, Stdout) == out.chunks
    ensures s.end == Closed ==> ChunksFrom(s.records, Stderr) == err.chunks
    ensures ChunksFrom(s.records, Stdout) <= out.chunks
    ensures ChunksFrom(s.records, Stderr) <= err.chunks
    ensures s.end.Errored? ==>
              (out.fault == Some(s.end.error) && ChunksFrom(s.records, Stdout) == out.chunks) ||
              (err.fault == Some(s.end.error) && ChunksFrom(s.records, Stderr) == err.chunks)
  {
    var records: seq<Log> := [];
    var i, j, k := 0, 0, 0;
    var outDone, errDone := false, false;
    var failure: Option<Thrown> := None;
    while !(outDone && errDone) && failure == None
      invariant 0 <= i <= |out.chunks| && 0 <= j <= |err.chunks|
      invariant ChunksFrom(records, Stdout) == out.chunks[..i]
      invariant ChunksFrom(records, Stderr) == err.chunks[..j]
      invariant outDone ==> i == |out.chunks| && out.fault == None
      invariant errDone ==> j == |err.chunks| && err.fault == None
      invariant failure != None ==>
                  (failure == out.fault && i == |out.chunks|) || (failure == err.fault && j == |err.chunks|)
      decreases |out.chunks| - i + |err.chunks| - j + (if outDone then 0 else 1) + (if errDone then 0 else 1)
                + (if failure == None then 1 else 0)
    {
      var side := if outDone then Stderr else if errDone then Stdout else if k < |schedule| then schedule[k] else Stdout;
      k := k + 1;
      if side == Stdout {
        if i < |out.chunks| {
          ChunksFromSnoc(records, Tagged(Stdout, out.chunks[i]), Stdout);
          ChunksFromSnoc(records, Tagged(Stdout, out.chunks[i]), Stderr);
          assert out.chunks[..i + 1] == out.chunks[..i] + [out.chunks[i]];
          records := records + [Tagged(Stdout, out.chunks[i])];
          i := i + 1;
        } else if out.fault != None {
          failure := out.fault;
        } else {
          outDone := true;
        }
      } else {
        if j < |err.chunks| {
          ChunksFromSnoc(records, Tagged(Stderr, err.chunks[j]), Stdout);
          ChunksFromSnoc(records, Tagged(Stderr, err.chunks[j]), Stderr);
          assert err.chunks[..j + 1] == err.chunks[..j] + [err.chunks[j]];
          records := records + [Tagged(Stderr, err.chunks[j])];
          j := j + 1;
        } else if err.fault != None {
          failure := err.fault;
        } else {
          errDone := true;
        }
      }
    }
    assert out.chunks[..|out.chunks|] == out.chunks;
    assert err.chunks[..|err.chunks|] == err.chunks;
    s := LogStream(records, if failure == None then Closed else Errored(failure.value));
  }
}
