/** Values shared by the executor, the log relay, the supervisor and the run loop. */
module Common {

  datatype Option<+T> = None | Some(value: T)

  /** A JSON value: the parsed result payload and the pieces of a trigger descriptor. */
  datatype Json =
    | JNull
    | JBool(b: bool)
    | JNumber(n: real)
    | JString(s: string)
    | JArray(items: seq<Json>)
    | JObject(members: seq<(string, Json)>)

  /** A thrown JavaScript value: whether it is an `Error` instance, its string form `${e}` and its `stack`. */
  datatype Thrown = Thrown(isError: bool, text: string, stack: string)

  /** Which output stream of the subprocess a log record came from (wire values "Stdout" / "Stderr"). */
  datatype Source = Stdout | Stderr

  /** One log record: source tag, capture timestamp (ISO-8601 text) and decoded text chunk. */
  datatype Log = Log(from: Source, loggedAt: string, text: string)

  /** The job status the control plane answers with on a read or an update. */
  datatype RemoteStatus = RemoteRunning | CancelPending

  /** The reply to one control-plane request: an answer, or the error the request threw. */
  datatype Reply = Answered(status: RemoteStatus) | Failed(error: Thrown)

  /** `t` occurs in `s` starting at index `i`. */
  predicate OccursAt(s: string, t: string, i: int)
  {
    0 <= i <= |s| - |t| && s[i..i + |t|] == t
  }

  /** `t` occurs in `s` as a contiguous piece. */
  ghost predicate Contains(s: string, t: string)
  {
    exists i :: OccursAt(s, t, i)
  }

  /** A piece placed between a prefix and a suffix is contained in the concatenation. */
  lemma ContainsMiddle(p: string, t: string, q: string)
    ensures Contains(p + t + q, t)
  {
    var s := p + t + q;
    assert s[|p|..|p| + |t|] == t;
    assert OccursAt(s, t, |p|);
  }

  /** What a string contains, any string built around it contains too. */
  lemma ContainsWithin(p: string, s: string, q: string, t: string)
    requires Contains(s, t)
    ensures Contains(p + s + q, t)
  {
    var i :| OccursAt(s, t, i);
    var w := p + s + q;
    assert w[|p| + i..|p| + i + |t|] == s[i..i + |t|];
    assert OccursAt(w, t, |p| + i);
  }
}
